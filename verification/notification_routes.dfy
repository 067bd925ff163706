/** The notification read path and store operations
    (routes/notificationRoutes.js): per-recipient listing with rendered
    messages, mark-all-read, and validated creation. */
module NotificationRoutes {
  import opened Base
  import opened Ordering
  import opened UserModel
  import opened NotificationModel
  import opened Store

  /** `populate("fromUser", "name profileImageUrl")`. */
  datatype ActorView = ActorView(id: Id, name: string, profileImageUrl: string)

  datatype NotificationView = NotificationView(
    id: Id,
    userId: Option<Id>,
    fromUser: Option<ActorView>,
    kind: string,
    postId: Option<Id>,
    commentId: Option<Id>,
    read: bool,
    seen: bool,
    timestamp: int,
    message: string)

  /** The actor's user record, when `fromUser` is set and still resolves. */
  function ActorOf(users: seq<User>, n: Notification): Option<User> {
    match n.fromUser case Some(a) => FindUser(users, a) case None => None
  }

  /** "You" when the resolved actor is the recipient; otherwise the actor's
      name, or "Someone" when the actor does not resolve or has no name. */
  function ActorLabel(users: seq<User>, n: Notification): (r: string)
    ensures ActorOf(users, n).Some? && n.userId == Some(ActorOf(users, n).value.id) ==> r == "You"
    ensures ActorOf(users, n).Some? && n.userId != Some(ActorOf(users, n).value.id)
            ==> r == Or(Some(ActorOf(users, n).value.name), "Someone")
    ensures ActorOf(users, n).None? ==> r == "Someone"
  {
    match ActorOf(users, n)
    case Some(a) => if n.userId == Some(a.id) then "You" else Or(Some(a.name), "Someone")
    case None => "Someone"
  }

  /** The message template chosen by the notification type. */
  function Message(kind: string, actor: string): (m: string)
    ensures kind == "like" ==> m == actor + " liked your post"
    ensures kind == "comment" ==> m == actor + " commented on your post"
    ensures kind == "reply" ==> m == actor + " replied to your comment"
    ensures !ValidKind(kind) ==> m == actor + " interacted with your post"
  {
    actor + (if kind == "like" then " liked your post"
             else if kind == "comment" then " commented on your post"
             else if kind == "reply" then " replied to your comment"
             else " interacted with your post")
  }

  /** One notification as the listing renders it: `seen` mirrors `read`, a
      missing comment id is shown as null, and `fromUser` is the populated
      actor (id, name and avatar), or null when the actor does not resolve. */
  function Render(users: seq<User>, n: Notification): (v: NotificationView)
    ensures v.seen == v.read == n.read
    ensures v.commentId == n.commentId
    ensures (v.id, v.userId, v.kind, v.postId, v.timestamp) == (n.id, n.userId, n.kind, n.postId, n.timestamp)
    ensures v.message == Message(n.kind, ActorLabel(users, n))
    ensures v.fromUser.None? <==> ActorOf(users, n).None?
    ensures ActorOf(users, n).Some? ==>
      var a := ActorOf(users, n).value;
      v.fromUser == Some(ActorView(a.id, a.name, a.profileImageUrl))
  {
    var actor := match ActorOf(users, n)
      case Some(a) => Some(ActorView(a.id, a.name, a.profileImageUrl))
      case None => None;
    NotificationView(n.id, n.userId, actor, n.kind, n.postId, n.commentId, n.read, n.read,
                     n.timestamp, Message(n.kind, ActorLabel(users, n)))
  }

  function IsFor(recipient: Id): Notification -> bool {
    (n: Notification) => n.userId == Some(recipient)
  }

  function ViewTime(v: NotificationView): int {
    v.timestamp
  }

  /** GET /api/notifications/:userId. A malformed id is rejected before the
      store is read; otherwise the recipient's notifications, newest first,
      matched against the id as cast (so in either letter case). */
  function List(db: Db, recipient: Id): (r: Result<seq<NotificationView>>)
    ensures r.Err? <==> !IsObjectId(recipient)
    ensures r.Err? ==> r.error == InvalidUserId
    ensures r.Ok? ==> ListsNewestFirst(Filter(db.notifications, IsFor(Canon(recipient))), r.value,
                                       n => Render(db.users, n), ViewTime)
    ensures r.Ok? ==> forall k | 0 <= k < |r.value| :: r.value[k].userId == Some(Canon(recipient))
  {
    if !IsObjectId(recipient) then Err(InvalidUserId)
    else
      var mine := Filter(db.notifications, IsFor(Canon(recipient)));
      var vs := NewestFirst(mine, NotificationTime, n => Render(db.users, n), ViewTime);
      assert forall k | 0 <= k < |vs| :: vs[k].userId == Some(Canon(recipient)) by {
        forall k | 0 <= k < |vs|
          ensures vs[k].userId == Some(Canon(recipient))
        {
          ShownIsListed(mine, vs, n => Render(db.users, n), ViewTime, vs[k]);
          var n :| n in mine && vs[k] == Render(db.users, n);
          assert multiset(mine)[n] > 0;
        }
      }
      Ok(vs)
  }

  /** Two spellings of one recipient id list the same notifications: the
      listing does not depend on the case of the id's letters. */
  lemma ListIgnoresCase(db: Db, recipient: Id)
    requires IsObjectId(recipient)
    ensures List(db, recipient) == List(db, Canon(recipient))
  {
    CanonIdempotent(recipient);
  }

  /** `updateMany({ userId, read: false }, { read: true })` on one record. */
  function MarkRead(recipient: Id, n: Notification): Notification {
    if n.userId == Some(recipient) && !n.read then n.(read := true) else n
  }

  /** POST /api/notifications/mark-seen/:userId. A malformed id is rejected
      first; otherwise every notification of the recipient (the id as cast)
      ends up read and no other record changes. */
  function MarkSeen(db: Db, recipient: Id): (r: Result<Db>)
    ensures r.Err? <==> !IsObjectId(recipient)
    ensures r.Err? ==> r.error == InvalidUserId
    ensures r.Ok? ==>
      && r.value == db.(notifications := r.value.notifications)
      && |r.value.notifications| == |db.notifications|
      && forall k | 0 <= k < |db.notifications| ::
           var n, n' := db.notifications[k], r.value.notifications[k];
           && (n.userId == Some(Canon(recipient)) ==> n'.read)
           && n' == n.(read := n'.read)
           && (n.userId != Some(Canon(recipient)) || n.read ==> n' == n)
  {
    if !IsObjectId(recipient) then Err(InvalidUserId)
    else Ok(db.(notifications := seq(|db.notifications|, k requires 0 <= k < |db.notifications| =>
                                   MarkRead(Canon(recipient), db.notifications[k]))))
  }

  /** Marking twice changes nothing the first call did not. */
  lemma MarkSeenIdempotent(db: Db, recipient: Id)
    requires MarkSeen(db, recipient).Ok?
    ensures MarkSeen(MarkSeen(db, recipient).value, recipient) == MarkSeen(db, recipient)
  {
    var once := MarkSeen(db, recipient).value;
    var twice := MarkSeen(once, recipient).value;
    assert twice.notifications == once.notifications;
  }

  /** How many notifications a mark-seen call would flip. */
  function UnreadCount(ns: seq<Notification>, recipient: Id): nat {
    |Filter(ns, (n: Notification) => n.userId == Some(recipient) && !n.read)|
  }

  /** After a mark-seen call the recipient has nothing unread, so a second
      call would update no record. */
  lemma {:induction false} MarkSeenLeavesNothingUnread(db: Db, recipient: Id)
    requires MarkSeen(db, recipient).Ok?
    ensures UnreadCount(MarkSeen(db, recipient).value.notifications, Canon(recipient)) == 0
  {
    var ns := MarkSeen(db, recipient).value.notifications;
    var p := (n: Notification) => n.userId == Some(Canon(recipient)) && !n.read;
    var f := Filter(ns, p);
    forall x: Notification
      ensures multiset(f)[x] == 0
    {
      if x in ns {
        var k :| 0 <= k < |ns| && ns[k] == x;
        assert !p(ns[k]);
      }
    }
    assert multiset(f) == multiset{};
  }

  /** The request body of POST /api/notifications. */
  datatype NotificationBody = NotificationBody(
    userId: Option<string>,
    fromUser: Option<string>,
    kind: Option<string>,
    postId: Option<string>,
    commentId: Option<string>)

  /** `x || null` as stored: a falsy id is stored as null, any other is
      cast to an ObjectId. */
  function CastOrNull(s: Option<string>): Option<Id> {
    if Truthy(s) then Some(Canon(s.value)) else None
  }

  /** Every id the new record holds can be cast to an ObjectId; a failed
      cast makes `save()` throw. */
  predicate Castable(b: NotificationBody) {
    && (b.userId.Some? ==> IsObjectId(b.userId.value))
    && (b.fromUser.Some? ==> IsObjectId(b.fromUser.value))
    && (Truthy(b.postId) ==> IsObjectId(b.postId.value))
    && (Truthy(b.commentId) ==> IsObjectId(b.commentId.value))
  }

  /** POST /api/notifications. Missing recipient, actor or type is 400, then
      a type outside like/comment/reply is 400; an id that cannot be cast
      fails the save (500). No self-notify check is made. The ids are
      stored as cast, and a falsy postId or commentId as null. */
  function Create(db: Db, body: NotificationBody, notifId: Id, now: int): (r: Result<Step<Notification>>)
    ensures !(Truthy(body.userId) && Truthy(body.fromUser) && Truthy(body.kind)) ==> r == Err(MissingFields)
    ensures Truthy(body.userId) && Truthy(body.fromUser) && Truthy(body.kind) && !ValidKind(body.kind.value)
            ==> r == Err(InvalidType)
    ensures Truthy(body.userId) && Truthy(body.fromUser) && Truthy(body.kind) && ValidKind(body.kind.value)
            && !Castable(body)
            ==> r == Err(ServerError)
    ensures r.Ok? <==> Truthy(body.userId) && Truthy(body.fromUser) && Truthy(body.kind)
                       && ValidKind(body.kind.value) && Castable(body)
    ensures r.Ok? ==>
      && r.value.db == db.(notifications := db.notifications + [r.value.out])
      && ValidKind(r.value.out.kind)
      && r.value.out.userId == Some(Canon(body.userId.value))
      && r.value.out.fromUser == Some(Canon(body.fromUser.value))
      && r.value.out.postId == CastOrNull(body.postId) && r.value.out.commentId == CastOrNull(body.commentId)
      && !r.value.out.read && r.value.out.timestamp == now
  {
    if !(Truthy(body.userId) && Truthy(body.fromUser) && Truthy(body.kind)) then Err(MissingFields)
    else if !ValidKind(body.kind.value) then Err(InvalidType)
    else if !Castable(body) then Err(ServerError)
    else
      var n := NewNotification(notifId, Some(Canon(body.userId.value)), Some(Canon(body.fromUser.value)),
                               body.kind.value, CastOrNull(body.postId), CastOrNull(body.commentId), now);
      Ok(Step(db.(notifications := db.notifications + [n]), n))
  }

  /** Creation keeps every stored type valid. */
  lemma CreateKeepsTypesValid(db: Db, body: NotificationBody, notifId: Id, now: int)
    requires AllValid(db.notifications)
    requires Create(db, body, notifId, now).Ok?
    ensures AllValid(Create(db, body, notifId, now).value.db.notifications)
  {
    var ns := Create(db, body, notifId, now).value.db.notifications;
    assert forall k | 0 <= k < |db.notifications| :: ns[k] == db.notifications[k];
  }

  /** With no self-notify check, a user may notify themselves: the record is
      stored, and once the actor resolves the listing words it as "You". */
  lemma SelfNotificationReadsYou(db: Db, body: NotificationBody, notifId: Id, now: int)
    requires Truthy(body.userId) && body.fromUser == body.userId
    requires body.kind == Some("like") && Castable(body)
    requires FindUser(db.users, Canon(body.userId.value)).Some?
    ensures Create(db, body, notifId, now).Ok?
    ensures Render(db.users, Create(db, body, notifId, now).value.out).message == "You liked your post"
  {
  }

  /** A created notification is listed for its recipient, under any
      spelling of the recipient id the request used. */
  lemma CreatedIsListed(db: Db, body: NotificationBody, notifId: Id, now: int)
    requires Create(db, body, notifId, now).Ok?
    ensures var s := Create(db, body, notifId, now).value;
            && List(s.db, body.userId.value).Ok?
            && Render(s.db.users, s.out) in List(s.db, body.userId.value).value
  {
    var s := Create(db, body, notifId, now).value;
    var ns := s.db.notifications;
    assert ns[|ns| - 1] == s.out;
    var mine := Filter(ns, IsFor(Canon(body.userId.value)));
    assert multiset(mine)[s.out] == multiset(ns)[s.out] > 0;
    ListedIsShown(mine, List(s.db, body.userId.value).value, n => Render(s.db.users, n), ViewTime, s.out);
  }
}
