/** The interaction engine (routes/posts.js): creating posts, toggling
    likes, appending comments and replies with their notifications, and the
    two post listings. */
module PostRoutes {
  import opened Base
  import opened Ordering
  import opened UserModel
  import opened PostModel
  import opened NotificationModel
  import opened FeedView
  import opened Store

  datatype LikeResult = LikeResult(likesCount: nat, liked: bool)

  /** `user ? user.name : "User"`: the name snapshotted for the acting user. */
  function ActorName(users: seq<User>, actor: Id): string {
    match FindUser(users, actor) case Some(u) => u.name case None => "User"
  }

  /** The posts with post `i` replaced by `p`. */
  function WithPost(db: Db, i: nat, p: Post): Db
    requires i < |db.posts|
  {
    db.(posts := db.posts[i := p])
  }

  /** POST /api/posts: the owner is looked up by id, so a malformed one
      fails the cast (500) and an unknown one is 404; the post then needs an
      uploaded image URL, and without one the schema's required `imageUrl`
      fails validation (500). `upload` is the URL the image store returned,
      absent when no file came with the request. */
  function CreatePost(db: Db, actor: Id, caption: Option<string>, upload: Option<string>,
                      postId: Id, now: int): (r: Result<Step<Post>>)
    ensures !IsObjectId(actor) ==> r == Err(ServerError)
    ensures IsObjectId(actor) && FindUser(db.users, actor).None? ==> r == Err(UserNotFound)
    ensures upload.None? ==> r.Err?
    ensures r.Ok? <==> IsObjectId(actor) && FindUser(db.users, actor).Some?
                       && PostValidates(actor, FindUser(db.users, actor).value.name, upload)
    ensures r.Err? && FindUser(db.users, actor).Some? ==> r.error == ServerError
    ensures r.Ok? ==>
      && r.value.db == db.(posts := db.posts + [r.value.out])
      && r.value.out.username == FindUser(db.users, actor).value.name
      && Some(r.value.out.imageUrl) == upload
      && r.value.out == NewPost(postId, actor, r.value.out.username, r.value.out.imageUrl, caption, now)
  {
    if !IsObjectId(actor) then Err(ServerError)
    else match FindUser(db.users, actor)
      case None => Err(UserNotFound)
      case Some(u) =>
        if !PostValidates(actor, u.name, upload) then Err(ServerError)
        else
          var p := NewPost(postId, actor, u.name, upload.value, caption, now);
          Ok(Step(db.(posts := db.posts + [p]), p))
  }

  /** What a successful like toggle did to post `i`: the actor's likes are
      all removed when present (`liked` false) or the actor is appended
      (`liked` true); the count is the new length; exactly one notification
      to the owner is written on the add branch when the actor is not the
      owner, and nothing else in the database changes. */
  predicate LikeToggled(db: Db, i: nat, actor: Id, notifId: Id, now: int, s: Step<LikeResult>) {
    && i < |db.posts| == |s.db.posts|
    && var p, p' := db.posts[i], s.db.posts[i];
    && s.db == WithPost(db, i, p').(notifications := s.db.notifications)
    && p' == p.(likes := p'.likes)
    && s.out.liked == (actor !in p.likes)
    && (actor in p'.likes <==> s.out.liked)
    && s.out.likesCount == |p'.likes|
    && (s.out.liked ==> p'.likes == p.likes + [actor])
    && (!s.out.liked ==> p'.likes == Without(p.likes, actor))
    && s.db.notifications == db.notifications +
         (if s.out.liked && actor != p.userId
          then [NewNotification(notifId, Some(p.userId), Some(actor), "like", Some(p.id), None, now)]
          else [])
  }

  /** PUT /api/posts/:postId/like. A malformed post id fails the cast (500),
      a missing post is 404; neither changes anything. The actor id is then
      cast to search and extend the likes, so a malformed one is 500. */
  function ToggleLike(db: Db, postId: Id, actor: Id, notifId: Id, now: int): (r: Result<Step<LikeResult>>)
    ensures !IsObjectId(postId) ==> r == Err(ServerError)
    ensures IsObjectId(postId) && PostIndex(db.posts, Canon(postId)).None? ==> r == Err(PostNotFound)
    ensures IsObjectId(postId) && PostIndex(db.posts, Canon(postId)).Some? && !IsObjectId(actor)
            ==> r == Err(ServerError)
    ensures r.Ok? <==> IsObjectId(postId) && PostIndex(db.posts, Canon(postId)).Some? && IsObjectId(actor)
    ensures r.Ok? ==> LikeToggled(db, PostIndex(db.posts, Canon(postId)).value, actor, notifId, now, r.value)
  {
    if !IsObjectId(postId) then Err(ServerError)
    else match PostIndex(db.posts, Canon(postId))
      case None => Err(PostNotFound)
      case Some(i) =>
        if !IsObjectId(actor) then Err(ServerError)
        else
          var p := db.posts[i];
          var isOwner := p.userId == actor;
          if actor in p.likes then
            var p' := p.(likes := Without(p.likes, actor));
            Ok(Step(WithPost(db, i, p'), LikeResult(|p'.likes|, false)))
          else
            var p' := p.(likes := p.likes + [actor]);
            var notes := if !isOwner
              then db.notifications + [NewNotification(notifId, Some(p.userId), Some(actor), "like", Some(p.id), None, now)]
              else db.notifications;
            Ok(Step(WithPost(db, i, p').(notifications := notes), LikeResult(|p'.likes|, true)))
  }

  /** Every user appears at most once in a likes list. */
  predicate LikedAtMostOnce(likes: seq<Id>) {
    forall u | u in likes :: multiset(likes)[u] <= 1
  }

  /** The schema does not keep likes unique; the toggle does: it never adds
      a user who is already there. */
  lemma ToggleKeepsLikesUnique(db: Db, postId: Id, actor: Id, notifId: Id, now: int)
    requires ToggleLike(db, postId, actor, notifId, now).Ok?
    requires LikedAtMostOnce(db.posts[PostIndex(db.posts, Canon(postId)).value].likes)
    ensures LikedAtMostOnce(ToggleLike(db, postId, actor, notifId, now).value.db.posts[PostIndex(db.posts, Canon(postId)).value].likes)
  {
    var i := PostIndex(db.posts, Canon(postId)).value;
    var s := ToggleLike(db, postId, actor, notifId, now).value;
    var l, l' := db.posts[i].likes, s.db.posts[i].likes;
    if s.out.liked {
      assert l' == l + [actor];
      assert actor !in multiset(l);
    }
  }

  /** The likes list after one toggle by `actor`. */
  function Toggled(likes: seq<Id>, actor: Id): seq<Id> {
    if actor in likes then Without(likes, actor) else likes + [actor]
  }

  /** Two toggles give back the same likes, as a multiset, when the actor
      appeared at most once. */
  lemma ToggledTwice(l: seq<Id>, actor: Id)
    requires multiset(l)[actor] <= 1
    ensures multiset(Toggled(Toggled(l, actor), actor)) == multiset(l)
    ensures |Toggled(Toggled(l, actor), actor)| == |l|
  {
    var l2 := Toggled(Toggled(l, actor), actor);
    if actor in l {
      assert l2 == Without(l, actor) + [actor];
      assert multiset(l)[actor] == 1;
      assert forall u :: multiset(l2)[u] == multiset(l)[u];
    } else {
      assert l2 == Without(l + [actor], actor);
      assert multiset(l)[actor] == 0;
      assert forall u | u != actor :: multiset(l2)[u] == multiset(l + [actor])[u];
      assert forall u :: multiset(l2)[u] == multiset(l)[u];
    }
    assert multiset(l2) == multiset(l);
    assert |l2| == |multiset(l2)| == |multiset(l)| == |l|;
  }

  /** Toggling twice restores the likes (as a multiset, hence membership and
      count) of a post where the actor appears at most once. Exactly one of
      the two calls takes the add branch, so the pair writes one
      notification when the actor is not the owner and none otherwise. */
  lemma ToggleTwiceRestores(db: Db, postId: Id, actor: Id, n1: Id, n2: Id, t1: int, t2: int)
    requires ToggleLike(db, postId, actor, n1, t1).Ok?
    requires multiset(db.posts[PostIndex(db.posts, Canon(postId)).value].likes)[actor] <= 1
    ensures var i := PostIndex(db.posts, Canon(postId)).value;
            var s1 := ToggleLike(db, postId, actor, n1, t1).value;
            var r2 := ToggleLike(s1.db, postId, actor, n2, t2);
            && r2.Ok?
            && r2.value.out.liked == (actor in db.posts[i].likes)
            && multiset(r2.value.db.posts[i].likes) == multiset(db.posts[i].likes)
            && r2.value.out.likesCount == |db.posts[i].likes|
            && |r2.value.db.notifications| == |db.notifications| + (if actor != db.posts[i].userId then 1 else 0)
  {
    var i := PostIndex(db.posts, Canon(postId)).value;
    var s1 := ToggleLike(db, postId, actor, n1, t1).value;
    assert LikeToggled(db, i, actor, n1, t1, s1);
    assert s1.db.posts[i].likes == Toggled(db.posts[i].likes, actor);
    FirstIndexAgrees(db.posts, (p: Post) => p.id == Canon(postId), s1.db.posts, (p: Post) => p.id == Canon(postId));
    assert PostIndex(s1.db.posts, Canon(postId)) == Some(i);
    var s2 := ToggleLike(s1.db, postId, actor, n2, t2).value;
    assert LikeToggled(s1.db, i, actor, n2, t2, s2);
    assert s2.db.posts[i].likes == Toggled(s1.db.posts[i].likes, actor);
    assert s1.db.posts[i].userId == db.posts[i].userId;
    ToggledTwice(db.posts[i].likes, actor);
  }

  /** POST /api/posts/:postId/comment. The post is looked up before the text
      is checked, and the actor is looked up by id after that (a malformed
      id fails the cast, 500). The comment is appended with no stored username; the
      notification recipient is taken from the new comment itself, which is
      the actor, so no notification is ever written. The response lists
      every comment without replies, naming unresolvable authors after the
      current actor. */
  function AddComment(db: Db, postId: Id, actor: Id, text: Option<string>, commentId: Id,
                      notifId: Id, now: int): (r: Result<Step<seq<CommentView>>>)
    ensures !IsObjectId(postId) ==> r == Err(ServerError)
    ensures IsObjectId(postId) && PostIndex(db.posts, Canon(postId)).None? ==> r == Err(PostNotFound)
    ensures IsObjectId(postId) && PostIndex(db.posts, Canon(postId)).Some? && !Truthy(text)
            ==> r == Err(CommentTextRequired)
    ensures IsObjectId(postId) && PostIndex(db.posts, Canon(postId)).Some? && Truthy(text) && !IsObjectId(actor)
            ==> r == Err(ServerError)
    ensures r.Ok? <==> IsObjectId(postId) && PostIndex(db.posts, Canon(postId)).Some? && Truthy(text)
                       && IsObjectId(actor)
    ensures r.Ok? ==>
      var i := PostIndex(db.posts, Canon(postId)).value;
      var p := db.posts[i];
      var cs := p.comments + [NewComment(commentId, actor, text.value, now)];
      && r.value.db == WithPost(db, i, p.(comments := cs))
      && r.value.out == CommentListOut(db.users, cs, ActorName(db.users, actor))
  {
    if !IsObjectId(postId) then Err(ServerError)
    else match PostIndex(db.posts, Canon(postId))
      case None => Err(PostNotFound)
      case Some(i) =>
        if !Truthy(text) then Err(CommentTextRequired)
        else if !IsObjectId(actor) then Err(ServerError)
        else
          var username := ActorName(db.users, actor);
          var p := db.posts[i];
          var c := NewComment(commentId, actor, text.value, now);
          var p' := p.(comments := p.comments + [c]);
          var recipient := c.userId;
          var notes := if recipient != actor
            then db.notifications + [NewNotification(notifId, Some(recipient), Some(actor), "reply", Some(p.id), Some(c.id), now)]
            else db.notifications;
          var db' := WithPost(db, i, p').(notifications := notes);
          Ok(Step(db', CommentListOut(db'.users, p'.comments, username)))
  }

  /** `user ? user.name : "User"` as stored with a reply. */
  function NewReply(id: Id, users: seq<User>, actor: Id, text: string, now: int): (r: Reply)
    ensures r.username == Some(ActorName(users, actor))
    ensures (r.id, r.userId, r.text, r.timestamp) == (id, actor, text, now)
  {
    Reply(id, actor, text, Some(ActorName(users, actor)), now)
  }

  /** What a successful reply did: comment `j` of post `i` gained exactly the
      new reply at its end; nothing else in the posts changed; the comment's
      author is notified (type "reply") unless they are the actor. */
  predicate Replied(db: Db, i: nat, j: nat, actor: Id, text: string, replyId: Id, notifId: Id,
                    now: int, s: Step<seq<CommentView>>) {
    && i < |db.posts|
    && j < |db.posts[i].comments|
    && var p := db.posts[i];
    && var c := p.comments[j];
    && var c' := c.(replies := c.replies + [NewReply(replyId, db.users, actor, text, now)]);
    && var p' := p.(comments := p.comments[j := c']);
    && s.db == WithPost(db, i, p').(notifications := s.db.notifications)
    && s.db.notifications == db.notifications +
         (if c.userId != actor
          then [NewNotification(notifId, Some(c.userId), Some(actor), "reply", Some(p.id), Some(c.id), now)]
          else [])
    && s.out == ThreadOut(db.users, p'.comments)
  }

  /** POST /api/posts/:postId/comment/:commentId/reply. The text is checked
      first, then the post, then the comment within that post, and last the
      actor is looked up by id (a malformed id fails the cast, 500). */
  function AddReply(db: Db, postId: Id, commentId: Id, actor: Id, text: Option<string>,
                    replyId: Id, notifId: Id, now: int): (r: Result<Step<seq<CommentView>>>)
    ensures !Truthy(text) ==> r == Err(ReplyTextRequired)
    ensures Truthy(text) && !IsObjectId(postId) ==> r == Err(ServerError)
    ensures Truthy(text) && IsObjectId(postId) && PostIndex(db.posts, Canon(postId)).None? ==> r == Err(PostNotFound)
    ensures Truthy(text) && IsObjectId(postId) && PostIndex(db.posts, Canon(postId)).Some?
            && CommentIndex(db.posts[PostIndex(db.posts, Canon(postId)).value].comments, Canon(commentId)).None?
            ==> r == Err(CommentNotFound)
    ensures Truthy(text) && IsObjectId(postId) && PostIndex(db.posts, Canon(postId)).Some?
            && CommentIndex(db.posts[PostIndex(db.posts, Canon(postId)).value].comments, Canon(commentId)).Some?
            && !IsObjectId(actor)
            ==> r == Err(ServerError)
    ensures r.Ok? <==> Truthy(text) && IsObjectId(postId) && PostIndex(db.posts, Canon(postId)).Some?
                       && CommentIndex(db.posts[PostIndex(db.posts, Canon(postId)).value].comments, Canon(commentId)).Some?
                       && IsObjectId(actor)
    ensures r.Ok? ==>
      var i := PostIndex(db.posts, Canon(postId)).value;
      Replied(db, i, CommentIndex(db.posts[i].comments, Canon(commentId)).value, actor, text.value,
              replyId, notifId, now, r.value)
  {
    if !Truthy(text) then Err(ReplyTextRequired)
    else if !IsObjectId(postId) then Err(ServerError)
    else match PostIndex(db.posts, Canon(postId))
      case None => Err(PostNotFound)
      case Some(i) =>
        var p := db.posts[i];
        match CommentIndex(p.comments, Canon(commentId))
        case None => Err(CommentNotFound)
        case Some(j) =>
          if !IsObjectId(actor) then Err(ServerError)
          else
            var c := p.comments[j];
            var c' := c.(replies := c.replies + [NewReply(replyId, db.users, actor, text.value, now)]);
            var p' := p.(comments := p.comments[j := c']);
            var notes := if c.userId != actor
              then db.notifications + [NewNotification(notifId, Some(c.userId), Some(actor), "reply", Some(p.id), Some(c.id), now)]
              else db.notifications;
            var db' := WithPost(db, i, p').(notifications := notes);
            Ok(Step(db', ThreadOut(db'.users, p'.comments)))
  }

  /** Comment `c2` is comment `c1` with possibly more replies appended. */
  predicate RepliesExtend(c1: Comment, c2: Comment) {
    c2 == c1.(replies := c2.replies) && c1.replies <= c2.replies
  }

  /** Threads only grow: every post keeps its fields, and its comments and
      their replies are prefixes of what they become. */
  predicate ThreadsGrow(ps: seq<Post>, ps': seq<Post>) {
    && |ps| == |ps'|
    && forall k | 0 <= k < |ps| ::
         && ps'[k] == ps[k].(comments := ps'[k].comments)
         && |ps[k].comments| <= |ps'[k].comments|
         && forall j | 0 <= j < |ps[k].comments| :: RepliesExtend(ps[k].comments[j], ps'[k].comments[j])
  }

  /** Commenting only appends: earlier comments and replies are untouched. */
  lemma AddCommentGrowsThreads(db: Db, postId: Id, actor: Id, text: Option<string>, commentId: Id,
                               notifId: Id, now: int)
    requires AddComment(db, postId, actor, text, commentId, notifId, now).Ok?
    ensures ThreadsGrow(db.posts, AddComment(db, postId, actor, text, commentId, notifId, now).value.db.posts)
  {
    var ps' := AddComment(db, postId, actor, text, commentId, notifId, now).value.db.posts;
    var i := PostIndex(db.posts, Canon(postId)).value;
    forall k, j | 0 <= k < |db.posts| && 0 <= j < |db.posts[k].comments|
      ensures RepliesExtend(db.posts[k].comments[j], ps'[k].comments[j])
    {
      assert ps'[k].comments[j] == db.posts[k].comments[j];
    }
  }

  /** Replying only appends one reply, to the addressed comment: every other
      comment of every post is unchanged, and the number of replies on the
      post grows by exactly one. */
  lemma AddReplyGrowsThreads(db: Db, postId: Id, commentId: Id, actor: Id, text: Option<string>,
                             replyId: Id, notifId: Id, now: int)
    requires AddReply(db, postId, commentId, actor, text, replyId, notifId, now).Ok?
    ensures var ps' := AddReply(db, postId, commentId, actor, text, replyId, notifId, now).value.db.posts;
            var i := PostIndex(db.posts, Canon(postId)).value;
            var j := CommentIndex(db.posts[i].comments, Canon(commentId)).value;
            && ThreadsGrow(db.posts, ps')
            && |ps'[i].comments| == |db.posts[i].comments|
            && (forall j' | 0 <= j' < |ps'[i].comments| && j' != j :: ps'[i].comments[j'] == db.posts[i].comments[j'])
            && |ps'[i].comments[j].replies| == |db.posts[i].comments[j].replies| + 1
  {
    var s := AddReply(db, postId, commentId, actor, text, replyId, notifId, now).value;
    var i := PostIndex(db.posts, Canon(postId)).value;
    var j := CommentIndex(db.posts[i].comments, Canon(commentId)).value;
    assert Replied(db, i, j, actor, text.value, replyId, notifId, now, s);
    var ps' := s.db.posts;
    forall k, j' | 0 <= k < |db.posts| && 0 <= j' < |db.posts[k].comments|
      ensures RepliesExtend(db.posts[k].comments[j'], ps'[k].comments[j'])
    {
      if k == i && j' == j {
        assert ps'[k].comments[j'].replies == db.posts[k].comments[j'].replies + [NewReply(replyId, db.users, actor, text.value, now)];
      } else {
        assert ps'[k].comments[j'] == db.posts[k].comments[j'];
      }
    }
  }

  /** A notification the interaction routes would write: a known type, and
      a recipient other than the actor. */
  predicate Sound(n: Notification) {
    ValidKind(n.kind) && n.userId != n.fromUser
  }

  predicate AllSound(ns: seq<Notification>) {
    forall k | 0 <= k < |ns| :: Sound(ns[k])
  }

  /** The self-notify guard: a like writes at most one notification, never
      to the actor. */
  lemma LikeNotifiesSoundly(db: Db, postId: Id, actor: Id, notifId: Id, now: int)
    requires AllSound(db.notifications)
    requires ToggleLike(db, postId, actor, notifId, now).Ok?
    ensures var ns := ToggleLike(db, postId, actor, notifId, now).value.db.notifications;
            AllSound(ns) && |db.notifications| <= |ns| <= |db.notifications| + 1
  {
    var i := PostIndex(db.posts, Canon(postId)).value;
    assert LikeToggled(db, i, actor, notifId, now, ToggleLike(db, postId, actor, notifId, now).value);
  }

  /** The same guard for replies: the thread author is notified only when
      they are not the actor. */
  lemma ReplyNotifiesSoundly(db: Db, postId: Id, commentId: Id, actor: Id, text: Option<string>,
                             replyId: Id, notifId: Id, now: int)
    requires AllSound(db.notifications)
    requires AddReply(db, postId, commentId, actor, text, replyId, notifId, now).Ok?
    ensures var ns := AddReply(db, postId, commentId, actor, text, replyId, notifId, now).value.db.notifications;
            AllSound(ns) && |db.notifications| <= |ns| <= |db.notifications| + 1
  {
    var i := PostIndex(db.posts, Canon(postId)).value;
    var j := CommentIndex(db.posts[i].comments, Canon(commentId)).value;
    assert Replied(db, i, j, actor, text.value, replyId, notifId, now,
                   AddReply(db, postId, commentId, actor, text, replyId, notifId, now).value);
  }

  /** The comment route as evidently intended: the same comment and response,
      plus a "comment" notification to the post owner when the actor is not
      the owner. */
  function AddCommentNotifyingOwner(db: Db, postId: Id, actor: Id, text: Option<string>, commentId: Id,
                                    notifId: Id, now: int): (r: Result<Step<seq<CommentView>>>)
    ensures r.Ok? <==> AddComment(db, postId, actor, text, commentId, notifId, now).Ok?
    ensures r.Err? ==> r == AddComment(db, postId, actor, text, commentId, notifId, now)
    ensures r.Ok? ==>
      var s := AddComment(db, postId, actor, text, commentId, notifId, now).value;
      var p := db.posts[PostIndex(db.posts, Canon(postId)).value];
      && r.value.out == s.out
      && r.value.db.posts == s.db.posts
      && r.value.db.notifications == db.notifications +
           (if actor != p.userId
            then [NewNotification(notifId, Some(p.userId), Some(actor), "comment", Some(p.id), Some(commentId), now)]
            else [])
      && r.value.db == s.db.(notifications := r.value.db.notifications)
  {
    match AddComment(db, postId, actor, text, commentId, notifId, now)
    case Err(e) => Err(e)
    case Ok(s) =>
      var p := db.posts[PostIndex(db.posts, Canon(postId)).value];
      var notes := if actor != p.userId
        then s.db.notifications + [NewNotification(notifId, Some(p.userId), Some(actor), "comment", Some(p.id), Some(commentId), now)]
        else s.db.notifications;
      Ok(Step(s.db.(notifications := notes), s.out))
  }

  /** As written, commenting writes no notification at all, whoever the
      actor and whoever owns the post. */
  lemma AddCommentNeverNotifies(db: Db, postId: Id, actor: Id, text: Option<string>, commentId: Id,
                                notifId: Id, now: int)
    requires AddComment(db, postId, actor, text, commentId, notifId, now).Ok?
    ensures AddComment(db, postId, actor, text, commentId, notifId, now).value.db.notifications == db.notifications
  {
  }

  /** As intended, a comment by anyone but the owner notifies the owner once. */
  lemma IntendedCommentNotifiesOwner(db: Db, postId: Id, actor: Id, text: Option<string>, commentId: Id,
                                     notifId: Id, now: int)
    requires AllSound(db.notifications)
    requires AddCommentNotifyingOwner(db, postId, actor, text, commentId, notifId, now).Ok?
    ensures var p := db.posts[PostIndex(db.posts, Canon(postId)).value];
            var ns := AddCommentNotifyingOwner(db, postId, actor, text, commentId, notifId, now).value.db.notifications;
            && AllSound(ns)
            && |ns| == |db.notifications| + (if actor != p.userId then 1 else 0)
            && (actor != p.userId ==> ns[|ns| - 1].userId == Some(p.userId) && ns[|ns| - 1].kind == "comment")
  {
  }

  function IsOwnedBy(owner: Id): Post -> bool {
    (p: Post) => p.userId == owner
  }

  function PostViewTime<C>(v: PostView<C>): int {
    v.timestamp
  }

  /** GET /api/posts: every post, newest first, through the feed projection. */
  function Feed(db: Db): (vs: seq<PostView<CommentView>>)
    ensures ListsNewestFirst(db.posts, vs, p => FeedPost(db.users, p), PostViewTime)
  {
    NewestFirst(db.posts, PostTime, p => FeedPost(db.users, p), PostViewTime)
  }

  /** GET /api/posts/user/:id: the posts of one owner, newest first, through
      the feed projection. The id is not validated first: a malformed one
      fails the cast (500); a valid one matches in either letter case. */
  function FeedOf(db: Db, owner: Id): (r: Result<seq<PostView<CommentView>>>)
    ensures r.Err? <==> !IsObjectId(owner)
    ensures r.Err? ==> r.error == ServerError
    ensures r.Ok? ==> ListsNewestFirst(Filter(db.posts, IsOwnedBy(Canon(owner))), r.value, p => FeedPost(db.users, p), PostViewTime)
  {
    if !IsObjectId(owner) then Err(ServerError)
    else Ok(NewestFirst(Filter(db.posts, IsOwnedBy(Canon(owner))), PostTime, p => FeedPost(db.users, p), PostViewTime))
  }

  /** A created post is listed: in the feed, and in its owner's listing
      under the id the owner's posts are stored with. */
  lemma CreatedPostIsListed(db: Db, actor: Id, caption: Option<string>, upload: Option<string>,
                            postId: Id, now: int)
    requires CreatePost(db, actor, caption, upload, postId, now).Ok?
    ensures var s := CreatePost(db, actor, caption, upload, postId, now).value;
            && FeedPost(s.db.users, s.out) in Feed(s.db)
            && (IsCanonicalId(actor) ==> FeedPost(s.db.users, s.out) in FeedOf(s.db, actor).value)
  {
    var s := CreatePost(db, actor, caption, upload, postId, now).value;
    assert s.out.userId == actor;
    PostIsListed(s.db, |s.db.posts| - 1);
  }

  /** Post `k` is in the feed, and in its owner's listing when the owner id
      is stored in canonical form. */
  lemma PostIsListed(db: Db, k: nat)
    requires k < |db.posts|
    ensures FeedPost(db.users, db.posts[k]) in Feed(db)
    ensures IsCanonicalId(db.posts[k].userId) ==>
              FeedPost(db.users, db.posts[k]) in FeedOf(db, db.posts[k].userId).value
  {
    var p := db.posts[k];
    ListedIsShown(db.posts, Feed(db), q => FeedPost(db.users, q), PostViewTime, p);
    if IsCanonicalId(p.userId) {
      var owned := Filter(db.posts, IsOwnedBy(Canon(p.userId)));
      assert multiset(owned)[p] == multiset(db.posts)[p] > 0;
      ListedIsShown(owned, FeedOf(db, p.userId).value, q => FeedPost(db.users, q), PostViewTime, p);
    }
  }

  /** PUT /api/posts/users/:id: the same profile update as the user routes'
      but without the id check, so a malformed id fails the cast (500); an
      unknown user is 404. Only the six profile fields change. */
  function UpdateUserUnchecked(db: Db, id: Id, edit: ProfileEdit): (r: Result<Step<User>>)
    ensures !IsObjectId(id) ==> r == Err(ServerError)
    ensures IsObjectId(id) && UserIndex(db.users, Canon(id)).None? ==> r == Err(UserNotFound)
    ensures r.Ok? <==> IsObjectId(id) && UserIndex(db.users, Canon(id)).Some?
    ensures r.Ok? ==>
      var k := UserIndex(db.users, Canon(id)).value;
      && r.value.db == db.(users := db.users[k := r.value.out])
      && r.value.out == ApplyProfile(db.users[k], edit)
  {
    if !IsObjectId(id) then Err(ServerError)
    else match UserIndex(db.users, Canon(id))
      case None => Err(UserNotFound)
      case Some(k) =>
        var u := ApplyProfile(db.users[k], edit);
        Ok(Step(db.(users := db.users[k := u]), u))
  }
}
