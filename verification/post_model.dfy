/** Posts with their embedded comments and replies (models/Post.js). */
module PostModel {
  import opened Base

  /** A reply embedded in a comment; `username` is an optional snapshot. */
  datatype Reply = Reply(id: Id, userId: Id, text: string, username: Option<string>, timestamp: int)

  /** A comment embedded in a post, holding its replies in insertion order. */
  datatype Comment = Comment(
    id: Id,
    userId: Id,
    text: string,
    username: Option<string>,
    timestamp: int,
    replies: seq<Reply>)

  /** A post. `username` is the owner's name when the post was created;
      `likes` is a plain list of user ids, with no uniqueness in the schema. */
  datatype Post = Post(
    id: Id,
    userId: Id,
    username: string,
    imageUrl: string,
    caption: Option<string>,
    timestamp: int,
    likes: seq<Id>,
    comments: seq<Comment>)

  /** The schema's required fields: `userId`, `username` and `imageUrl`
      must be present and, being strings or ids, not empty. */
  predicate PostValidates(userId: Id, username: string, imageUrl: Option<string>) {
    userId != "" && username != "" && Truthy(imageUrl)
  }

  /** A new post: no likes, no comments. */
  function NewPost(id: Id, userId: Id, username: string, imageUrl: string,
                   caption: Option<string>, now: int): (p: Post)
    ensures p.likes == [] && p.comments == []
    ensures p.timestamp == now
    ensures (p.id, p.userId, p.username, p.imageUrl, p.caption) == (id, userId, username, imageUrl, caption)
  {
    Post(id, userId, username, imageUrl, caption, now, [], [])
  }

  /** A new comment: as built by the comment route it has no stored username
      and no replies; its timestamp is the current time. */
  function NewComment(id: Id, userId: Id, text: string, now: int): (c: Comment)
    ensures c.username.None? && c.replies == []
    ensures (c.id, c.userId, c.text, c.timestamp) == (id, userId, text, now)
  {
    Comment(id, userId, text, None, now, [])
  }

  function PostIndex(posts: seq<Post>, id: Id): Option<nat> {
    FirstIndex(posts, (p: Post) => p.id == id)
  }

  /** `post.comments.id(commentId)`: the first comment with that id. */
  function CommentIndex(comments: seq<Comment>, id: Id): Option<nat> {
    FirstIndex(comments, (c: Comment) => c.id == id)
  }

  function PostTime(p: Post): int {
    p.timestamp
  }

  /** `likes.filter(id => id.toString() !== userId)`: drops every
      occurrence of `x` and keeps the rest in order. */
  function Without(xs: seq<Id>, x: Id): (r: seq<Id>)
    ensures x !in r
    ensures forall y | y != x :: multiset(r)[y] == multiset(xs)[y]
    ensures |r| == |xs| - multiset(xs)[x]
  {
    if |xs| == 0 then []
    else
      assert xs == [xs[0]] + xs[1..];
      (if xs[0] == x then [] else [xs[0]]) + Without(xs[1..], x)
  }
}
