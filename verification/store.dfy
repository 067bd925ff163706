/** The whole database the routes read and write, and the result of a
    route that may change it. */
module Store {
  import opened Base
  import opened UserModel
  import opened PostModel
  import opened NotificationModel
  import opened SnapModel
  import opened AuthModel

  datatype Db = Db(
    users: seq<User>,
    posts: seq<Post>,
    notifications: seq<Notification>,
    snaps: seq<Snap>,
    pending: map<string, PendingUser>,
    resets: map<string, ResetRequest>)

  /** A successful route: the database afterwards and the response body. */
  datatype Step<+T> = Step(db: Db, out: T)
}
