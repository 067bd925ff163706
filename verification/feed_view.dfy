/** The read-side projection of posts (routes/posts.js, routes/userRoutes.js):
    live identity fields win over the stored snapshot, a fixed avatar or the
    word "User" stands in when neither is there, and comments and replies
    keep their stored order. */
module FeedView {
  import opened Base
  import opened UserModel
  import opened PostModel

  datatype ReplyView = ReplyView(id: Id, userId: Id, username: string, text: string, timestamp: int)

  /** A comment as a response shows it. `userId` is null when the author no
      longer resolves; `username` may be undefined; `replies` is absent from
      the add-comment response. */
  datatype CommentView = CommentView(
    id: Id,
    userId: Option<Id>,
    username: Option<string>,
    text: string,
    timestamp: int,
    replies: Option<seq<ReplyView>>)

  /** A post with the owner's profile fields spliced in; `C` is the shape
      its comments take. `owner` is null when the owner does not resolve. */
  datatype PostView<C> = PostView(
    id: Id,
    owner: Option<Id>,
    username: Option<string>,
    userhandle: Option<string>,
    profileImageUrl: string,
    department: Option<string>,
    pronoun: Option<string>,
    linkedin: Option<string>,
    instagram: Option<string>,
    imageUrl: string,
    caption: Option<string>,
    timestamp: int,
    likes: seq<Id>,
    comments: seq<C>)

  /** `ref?.name`: the name of a resolved user, undefined otherwise. */
  function NameOf(u: Option<User>): Option<string> {
    match u case Some(x) => Some(x.name) case None => None
  }

  function IdOf(u: Option<User>): Option<Id> {
    match u case Some(x) => Some(x.id) case None => None
  }

  /** `ref?.profileImageUrl || default`. */
  function AvatarOf(u: Option<User>): (r: string)
    ensures u.Some? && u.value.profileImageUrl != "" ==> r == u.value.profileImageUrl
    ensures (u.None? || u.value.profileImageUrl == "") ==> r == DefaultAvatar
  {
    match u case Some(x) => Or(Some(x.profileImageUrl), DefaultAvatar) case None => DefaultAvatar
  }

  /** A reply in the feed: its stored username, else "User". */
  function ReplyOut(r: Reply): (v: ReplyView)
    ensures (v.id, v.userId, v.text, v.timestamp) == (r.id, r.userId, r.text, r.timestamp)
    ensures v.username != ""
    ensures Truthy(r.username) ==> v.username == r.username.value
    ensures !Truthy(r.username) ==> v.username == "User"
  {
    ReplyView(r.id, r.userId, Or(r.username, "User"), r.text, r.timestamp)
  }

  function RepliesOut(rs: seq<Reply>): (vs: seq<ReplyView>)
    ensures |vs| == |rs|
    ensures forall k | 0 <= k < |rs| :: vs[k] == ReplyOut(rs[k])
  {
    seq(|rs|, k requires 0 <= k < |rs| => ReplyOut(rs[k]))
  }

  /** A comment in the feed: author's live name, else the stored username,
      else "User"; its replies in stored order. */
  function CommentOut(users: seq<User>, c: Comment): (v: CommentView)
    ensures (v.id, v.text, v.timestamp) == (c.id, c.text, c.timestamp)
    ensures v.userId == IdOf(FindUser(users, c.userId))
    ensures v.username.Some? && v.username.value != ""
    ensures Truthy(NameOf(FindUser(users, c.userId))) ==> v.username == NameOf(FindUser(users, c.userId))
    ensures !Truthy(NameOf(FindUser(users, c.userId))) && Truthy(c.username) ==> v.username == c.username
    ensures !Truthy(NameOf(FindUser(users, c.userId))) && !Truthy(c.username) ==> v.username == Some("User")
    ensures v.replies == Some(RepliesOut(c.replies))
  {
    var author := FindUser(users, c.userId);
    CommentView(c.id, IdOf(author), Some(Or(NameOf(author), Or(c.username, "User"))),
                c.text, c.timestamp, Some(RepliesOut(c.replies)))
  }

  /** The owner's live profile fields as a listing splices them in: each is
      the resolved owner's value, or undefined when the owner does not
      resolve. */
  predicate ShowsOwnerFields<C>(v: PostView<C>, owner: Option<User>) {
    && v.userhandle == (match owner case Some(u) => Some(u.userhandle) case None => None)
    && v.department == (match owner case Some(u) => Some(u.department) case None => None)
    && v.pronoun == (match owner case Some(u) => Some(u.pronoun) case None => None)
    && v.linkedin == (match owner case Some(u) => Some(u.linkedin) case None => None)
    && v.instagram == (match owner case Some(u) => Some(u.instagram) case None => None)
  }

  /** The post fields shared by both post listings. */
  function Header<C>(p: Post, owner: Option<User>, username: Option<string>, comments: seq<C>): PostView<C> {
    PostView(p.id, IdOf(owner), username,
             match owner case Some(u) => Some(u.userhandle) case None => None,
             AvatarOf(owner),
             match owner case Some(u) => Some(u.department) case None => None,
             match owner case Some(u) => Some(u.pronoun) case None => None,
             match owner case Some(u) => Some(u.linkedin) case None => None,
             match owner case Some(u) => Some(u.instagram) case None => None,
             p.imageUrl, p.caption, p.timestamp, p.likes, comments)
  }

  /** A post in the feed: the owner's live name, else the name stored with
      the post; comments projected one for one. */
  function FeedPost(users: seq<User>, p: Post): (v: PostView<CommentView>)
    ensures (v.id, v.timestamp, v.likes, v.imageUrl, v.caption) == (p.id, p.timestamp, p.likes, p.imageUrl, p.caption)
    ensures v.owner == IdOf(FindUser(users, p.userId))
    ensures v.username == Some(Or(NameOf(FindUser(users, p.userId)), p.username))
    ensures v.profileImageUrl == AvatarOf(FindUser(users, p.userId))
    ensures ShowsOwnerFields(v, FindUser(users, p.userId))
    ensures |v.comments| == |p.comments|
    ensures forall k | 0 <= k < |p.comments| :: v.comments[k] == CommentOut(users, p.comments[k])
  {
    var owner := FindUser(users, p.userId);
    Header(p, owner, Some(Or(NameOf(owner), p.username)),
           seq(|p.comments|, k requires 0 <= k < |p.comments| => CommentOut(users, p.comments[k])))
  }

  /** A post on a profile page: the owner's live name with no fallback, and
      the comments exactly as stored. */
  function ProfilePost(users: seq<User>, p: Post): (v: PostView<Comment>)
    ensures (v.id, v.timestamp, v.likes, v.comments) == (p.id, p.timestamp, p.likes, p.comments)
    ensures (v.imageUrl, v.caption) == (p.imageUrl, p.caption)
    ensures v.owner == IdOf(FindUser(users, p.userId))
    ensures v.username == NameOf(FindUser(users, p.userId))
    ensures v.profileImageUrl == AvatarOf(FindUser(users, p.userId))
    ensures ShowsOwnerFields(v, FindUser(users, p.userId))
  {
    var owner := FindUser(users, p.userId);
    Header(p, owner, NameOf(owner), p.comments)
  }

  /** The add-comment response: each comment with its author's live name,
      or else the name of the user who is commenting now; no replies. */
  function CommentListOut(users: seq<User>, cs: seq<Comment>, actorName: string): (vs: seq<CommentView>)
    ensures |vs| == |cs|
    ensures forall k | 0 <= k < |cs| ::
      && (vs[k].id, vs[k].text, vs[k].timestamp) == (cs[k].id, cs[k].text, cs[k].timestamp)
      && vs[k].userId == IdOf(FindUser(users, cs[k].userId))
      && vs[k].username == Some(match FindUser(users, cs[k].userId)
                                case Some(u) => u.name case None => actorName)
      && vs[k].replies.None?
  {
    seq(|cs|, k requires 0 <= k < |cs| =>
      var author := FindUser(users, cs[k].userId);
      CommentView(cs[k].id, IdOf(author),
                  Some(match author case Some(u) => u.name case None => actorName),
                  cs[k].text, cs[k].timestamp, None))
  }

  /** The add-reply response: each comment with its author's live name, or
      else its stored username (possibly undefined, with no "User" default),
      and its replies as the feed shows them. */
  function ThreadOut(users: seq<User>, cs: seq<Comment>): (vs: seq<CommentView>)
    ensures |vs| == |cs|
    ensures forall k | 0 <= k < |cs| ::
      && (vs[k].id, vs[k].text, vs[k].timestamp) == (cs[k].id, cs[k].text, cs[k].timestamp)
      && vs[k].userId == IdOf(FindUser(users, cs[k].userId))
      && vs[k].username == (if FindUser(users, cs[k].userId).Some?
                            then NameOf(FindUser(users, cs[k].userId)) else cs[k].username)
      && vs[k].replies == Some(RepliesOut(cs[k].replies))
  {
    seq(|cs|, k requires 0 <= k < |cs| =>
      var author := FindUser(users, cs[k].userId);
      CommentView(cs[k].id, IdOf(author),
                  if author.Some? then NameOf(author) else cs[k].username,
                  cs[k].text, cs[k].timestamp, Some(RepliesOut(cs[k].replies))))
  }
}
