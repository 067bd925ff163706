/** The notification record (models/Notification.js). */
module NotificationModel {
  import opened Base

  /** `userId` is the recipient and `fromUser` the actor; the schema makes
      both optional and relates them in no way. `kind` is the `type` field. */
  datatype Notification = Notification(
    id: Id,
    userId: Option<Id>,
    fromUser: Option<Id>,
    kind: string,
    postId: Option<Id>,
    commentId: Option<Id>,
    read: bool,
    timestamp: int)

  /** The `enum` of the required `type` field. */
  predicate ValidKind(kind: string) {
    kind == "like" || kind == "comment" || kind == "reply"
  }

  /** A new notification: unread, stamped with the current time; a
      `commentId` that is not given is stored as null. */
  function NewNotification(id: Id, userId: Option<Id>, fromUser: Option<Id>, kind: string,
                           postId: Option<Id>, commentId: Option<Id>, now: int): (n: Notification)
    ensures !n.read && n.timestamp == now
    ensures (n.id, n.userId, n.fromUser, n.kind, n.postId, n.commentId)
         == (id, userId, fromUser, kind, postId, commentId)
  {
    Notification(id, userId, fromUser, kind, postId, commentId, false, now)
  }

  function NotificationTime(n: Notification): int {
    n.timestamp
  }

  /** Every stored notification has a type the schema accepts. */
  predicate AllValid(ns: seq<Notification>) {
    forall i | 0 <= i < |ns| :: ValidKind(ns[i].kind)
  }
}
