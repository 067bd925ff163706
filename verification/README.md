# srm-unigram-backend in Dafny

A model of the Express/Mongoose backend of Unigram, a campus social feed.
Users post images with captions. Other users like, comment and reply, and
those interactions write notifications. Users also post 24-hour "UniSnap"
stories, edit their profiles, and sign up through an e-mailed OTP.

The whole database is one immutable value, `Store.Db`. It holds the users,
posts, notifications and snaps as sequences in stored order, so `findOne`
is "the first match". The pending signups and password-reset requests are
maps keyed by e-mail, the field their unique index is on.

Every route is a pure function from the database and the request to
`Result<Step<Out>>`. A `Step` pairs the new database with the response.
An `Err` carries the error that picks the HTTP status, and no new
database. Each failure the model covers happens before the route's first
write: bad input, a failed id cast, a failed validation, a duplicate key.
So in the model a failed request changes nothing. The source can also fail
after a write, for example when the database errors; those paths are listed
under "Left out".

Several things become plain parameters:

- the acting user's id, taken from the auth token;
- the URL the image host returns for an upload;
- the password hash function and the bcrypt comparison;
- the random OTP draw;
- fresh document ids;
- the clock, `now`, in milliseconds.

Modules follow the source files:

| module | file | what it models |
|---|---|---|
| `Base`, `Text`, `Ordering` | `base.dfy`, `text.dfy`, `ordering.dfy` | Shared helpers: ids and ObjectId validity, JavaScript `a \|\| b` on strings (`Base.Or`), `findOne`, string replace and decimal rendering, `.sort({ timestamp: -1 })` |
| `UserModel`, `PostModel`, `NotificationModel`, `SnapModel`, `AuthModel` | one file each | The Mongoose schemas: defaults, required fields, unique indexes, and the User hooks |
| `FeedView` | `feed_view.dfy` | How the post listings and the comment responses project posts, comments and replies: live names over stored snapshots, the default avatar, the "User" fallback |
| `PostRoutes` | `post_routes.dfy` | `routes/posts.js` |
| `NotificationRoutes` | `notification_routes.dfy` | `routes/notificationRoutes.js` |
| `Grouping`, `SnapRoutes` | `grouping.dfy`, `snap_routes.dfy` | `routes/unisnap.js`; `Grouping` is the group-by-key loop of the snap listing, stated generically |
| `UserRoutes` | `user_routes.dfy` | `routes/userRoutes.js` |
| `AuthController` | `auth_controller.dfy` | `controllers/authController.js` |
| `Store` | `store.dfy` | The database value and the route result |

Some behaviours of the code differ from what its own comments, messages
or names suggest. The model follows the code:

- **Comment notifications.** The comment at routes/posts.js:255 reads
  "Notify post owner". But the recipient is taken from the new comment,
  which is the commenter, so the self-notify guard suppresses every
  notification (see Findings).
- **OTP lifetime.** The signup mail says the OTP "is valid for 10
  minutes" (utils/mailer.js:28), and signup stores an `expiresAt` ten
  minutes ahead. The verify route never compares it (see Findings).
- **Write order.** The like route creates its notification
  (routes/posts.js:211-218) before `post.save()` (line 221). The comment
  and reply routes save the post first (lines 253 and 317) and notify
  after. The model has no failing writes, so the order does not show in
  it.
- **The "You" label.** The listing labels the actor "You" only when the
  actor reference still resolves and its id equals the recipient
  (`n.fromUser?._id`, routes/notificationRoutes.js:20-25). A
  self-addressed notification from a deleted user reads "Someone"
  (`NotificationRoutes.ActorLabel`).
- **Id casts.** Mongoose casts a valid id string to an ObjectId before a
  query compares it, so a path or body id matches a stored id in either
  letter case. The model casts such ids with `Base.Canon`. The acting
  user's id from the token is not cast (see "Left out").
- **Route shadowing.** `routes/posts.js` is mounted at `/api/posts`
  (app.js:50-51) before `routes/userRoutes.js` is mounted at `/api`
  (app.js:58-59). So `GET /api/posts/user/:id` is always answered by the
  posts router (`PostRoutes.FeedOf`). The profile router's handler for that
  path (`UserRoutes.UserPosts`) is modelled but never reached.
- **The userhandle hook.** Mongoose validates a document before it runs
  `pre('save')` hooks. The User schema requires `userhandle`, so a user
  saved without one is rejected before the hook can derive it. The hook
  is modelled (`UserModel.DeriveHandle`), but in `UserModel.SaveNew` it
  only ever sees documents that already have a handle. The verify route
  sets the handle itself with `email.replace("@srmist.edu.in", "")`.

## Model

| member | source | states |
|---|---|---|
| Base.Canon | routes/notificationRoutes.js:10-15 | Casting a valid id yields 24 lower-case hexadecimal digits, each the lower-cased digit of the id; any other string is compared as it is; an id already stored in canonical form casts to itself |
| Base.CanonIgnoresCase | routes/notificationRoutes.js:10-15 | Two valid spellings of one id that differ only in letter case cast to the same id |
| UserModel.NewUser | models/User.js:3-20 | A new user gets the schema defaults: the default avatar and empty profile strings; `verified` and `createdAt` are the given values, or true and now when none is given; the given identity fields are kept |
| UserModel.DeriveHandle | models/User.js:23-29 | An empty handle becomes the lower-cased e-mail prefix before the first "@" (no "@", no longer than the e-mail, character by character the lower-cased e-mail); a non-empty handle is kept; nothing else changes |
| UserModel.FindUser | routes/userRoutes.js:19-22 | `findById` or a populate finds a user iff some stored user has the id, and the user found carries that id |
| UserModel.FindByEmail | controllers/authController.js:22-25 | `findOne({ email })` gives an index of a user with that e-mail, and none exactly when no user has it |
| UserModel.SaveNew | models/User.js:3-29 | Saving a new user succeeds iff the required fields are non-empty and no stored user shares its id, e-mail or handle; on success the user is appended; otherwise the error is 500 |
| UserModel.SaveNewKeepsUnique | models/User.js:6-10 | Saving keeps the id, e-mail and handle indexes free of duplicates |
| UserModel.StripHandle | models/User.js:32-37 | The update hook drops a truthy top-level `userhandle`, keeps every other top-level key, and leaves `$set` untouched |
| UserModel.ApplyProfile | routes/userRoutes.js:79-85 | `$set` of the six profile fields: each sent field takes the new value, each absent one keeps its value, and no other field changes |
| PostModel.NewPost | models/Post.js:18-26 | A new post has no likes and no comments, is stamped now, and keeps its owner, username, image and caption |
| PostModel.NewComment | routes/posts.js:246-250 | The route's comment has the actor, the text and the time, no stored username and no replies |
| PostModel.Without | routes/posts.js:203 | Unliking removes every occurrence of the user, keeps every other id with its count, and shrinks the list by the removed count |
| NotificationModel.NewNotification | models/Notification.js:3-11 | A new notification is unread, stamped now, and holds exactly the given recipient, actor, type, post and comment |
| SnapModel.NewSnap | models/UniSnap.js:3-8 | A new snap defaults its overlay to "" and its timestamp to now |
| SnapModel.TtlIsListingWindow | models/UniSnap.js:10-11 | The TTL index's 86400 seconds are the listing's 24-hour cutoff in milliseconds |
| SnapModel.SnapIndex | routes/unisnap.js:113-114 | `findById` finds the first snap with the id, and none exactly when no snap has it |
| Ordering.SortDesc | routes/posts.js:74-75 | Sorting by timestamp descending yields a non-increasing sequence with the same multiset of records |
| Ordering.SortDescKeepsElements | routes/posts.js:74-75 | Sorting keeps the length, and a record is in the result exactly when it was in the input |
| Ordering.SortDescViews | routes/posts.js:74-108 | Sorting the records permutes their views: the multiset of views is unchanged |
| Ordering.NewestFirst | routes/posts.js:74-108 | Sort-then-map lists the records newest first, and its views are exactly the records' views as a multiset, so each record is shown as many times as it is stored and nothing else is shown |
| Ordering.ListedIsShown | routes/posts.js:74-108 | Every record of a newest-first listing is shown in it |
| Ordering.ShownIsListed | routes/posts.js:74-108 | Every view in a newest-first listing is the view of one of its records |
| FeedView.AvatarOf | routes/posts.js:89 | The avatar is the resolved user's image when non-empty, else the default image |
| FeedView.ReplyOut | routes/posts.js:100-106 | A reply keeps its id, author, text and time; its name is the stored one when truthy, and "User" otherwise |
| FeedView.CommentOut | routes/posts.js:94-107 | A feed comment names its author by live name, else stored name, else "User"; its `userId` is the resolved author's id or null; its replies are projected in stored order |
| FeedView.FeedPost | routes/posts.js:84-108 | A feed post keeps its own fields, image and caption; takes the owner's live name or else the stored username, the owner's avatar or the default, and the owner's live handle, department, pronoun, LinkedIn and Instagram (undefined when the owner does not resolve); and projects each comment in order |
| FeedView.ProfilePost | routes/userRoutes.js:49-58 | A profile-page post keeps its own fields, image, caption and stored comments; takes the owner's live name with no fallback, the owner's avatar or the default, and the owner's live handle, department, pronoun, LinkedIn and Instagram (undefined when the owner does not resolve) |
| FeedView.CommentListOut | routes/posts.js:273-279 | The add-comment response lists every comment with its live author name, or else the current actor's name, and no replies |
| FeedView.ThreadOut | routes/posts.js:336-349 | The add-reply response lists every comment with its live author name, or else its stored username, and its replies as the feed shows them |
| PostRoutes.CreatePost | routes/posts.js:30-66 | A malformed actor id fails the cast (500), an unknown owner is 404, a post without an uploaded image fails validation (500); otherwise exactly one new post, with the owner's current name and the image URL, is appended |
| PostRoutes.ToggleLike | routes/posts.js:192-227 | A malformed post id is 500, a missing post 404 (a valid id matches in either letter case), then a malformed actor id 500; otherwise a present actor is removed (liked false), an absent one appended (liked true), the count is the new length, and exactly one "like" notification to the owner is written when an actor who is not the owner adds a like; nothing else changes |
| PostRoutes.ToggleKeepsLikesUnique | routes/posts.js:201-208 | A toggle never makes a user appear twice in a likes list |
| PostRoutes.ToggledTwice | routes/posts.js:201-208 | Toggling twice gives back the same likes as a multiset, with the same length, when the actor appeared at most once |
| PostRoutes.ToggleTwiceRestores | routes/posts.js:192-227 | Two like requests by the same actor restore the post's likes and count, the second reporting the original liked state, and together write one notification if the actor is not the owner and none otherwise |
| PostRoutes.AddComment | routes/posts.js:233-286 | Malformed post id 500, missing post 404, empty text 400, then a malformed actor id 500; otherwise the comment is appended to that post only, and the response is the comment list; no notification is written |
| PostRoutes.NewReply | routes/posts.js:304-314 | A reply stores the actor's current name, or "User" when the actor does not resolve |
| PostRoutes.AddReply | routes/posts.js:292-356 | Empty text 400, malformed post id 500, missing post 404, missing comment 404, then a malformed actor id 500; otherwise exactly one reply is appended to that comment, and the comment's author is notified with type "reply" unless they are the actor |
| PostRoutes.AddCommentGrowsThreads | routes/posts.js:252-253 | Commenting leaves every existing comment and reply of every post in place |
| PostRoutes.AddReplyGrowsThreads | routes/posts.js:316-317 | Replying leaves every other comment unchanged and adds exactly one reply to the addressed comment |
| PostRoutes.LikeNotifiesSoundly | routes/posts.js:210-218 | A like writes at most one notification, with a valid type and a recipient other than the actor |
| PostRoutes.ReplyNotifiesSoundly | routes/posts.js:319-328 | A reply writes at most one notification, with a valid type and a recipient other than the actor |
| PostRoutes.AddCommentNeverNotifies | routes/posts.js:255-266 | As written, a successful comment never writes a notification, because the recipient is the commenter |
| PostRoutes.AddCommentNotifyingOwner | routes/posts.js:255-266 | The intended comment route: the same outcome and response as the route as written, plus one "comment" notification to the post owner when the actor is someone else |
| PostRoutes.IntendedCommentNotifiesOwner | routes/posts.js:255-266 | With the intended route, a comment by anyone but the owner notifies the owner exactly once, and no one notifies themselves |
| PostRoutes.Feed | routes/posts.js:72-115 | The feed lists every post once, newest first, through the feed projection |
| PostRoutes.FeedOf | routes/posts.js:121-164 | A malformed owner id is 500; otherwise the posts stored under the id as cast are listed newest first, each as often as stored, through the feed projection |
| PostRoutes.CreatedPostIsListed | routes/posts.js:30-115 | A created post is shown in the feed, and in its owner's listing when the owner id is canonical |
| PostRoutes.PostIsListed | routes/posts.js:72-164 | Every stored post is shown in the feed, and in its owner's listing when the owner id is canonical |
| PostRoutes.UpdateUserUnchecked | routes/posts.js:170-186 | A malformed id is 500, an unknown user (under the id as cast) 404; otherwise only that user changes, and only by the profile edit |
| NotificationRoutes.ActorLabel | routes/notificationRoutes.js:20-25 | The label is "You" when the resolved actor is the recipient, else the actor's name, else "Someone" |
| NotificationRoutes.Message | routes/notificationRoutes.js:28-41 | Each type gets its template, and any other type gets the "interacted with your post" template |
| NotificationRoutes.Render | routes/notificationRoutes.js:15-55 | A rendered notification keeps the stored fields, shows `seen` equal to `read`, and carries the type's message; `fromUser` is the populated actor's id, name and avatar, or null exactly when the actor does not resolve |
| NotificationRoutes.List | routes/notificationRoutes.js:7-63 | A malformed id is 400; otherwise exactly the notifications addressed to the id as cast are listed, newest first, each as often as stored, and each addressed to that id |
| NotificationRoutes.ListIgnoresCase | routes/notificationRoutes.js:10-15 | The listing for a valid id is the listing for its lower-case form, so the letter case of the id does not matter |
| NotificationRoutes.MarkSeen | routes/notificationRoutes.js:66-80 | A malformed id is 400; otherwise every notification addressed to the id as cast ends up read, only the read flag changes, and other records and collections are untouched |
| NotificationRoutes.MarkSeenIdempotent | routes/notificationRoutes.js:74 | Marking twice gives the same database as marking once |
| NotificationRoutes.MarkSeenLeavesNothingUnread | routes/notificationRoutes.js:74 | After a mark-seen call, none of the recipient's notifications is unread |
| NotificationRoutes.Create | routes/notificationRoutes.js:83-110 | A missing recipient, actor or type is 400, then an unknown type is 400, then an uncastable id is 500; otherwise one unread notification is appended, holding the ids as cast, with falsy post and comment ids stored as null |
| NotificationRoutes.CreateKeepsTypesValid | routes/notificationRoutes.js:91-93 | Creating keeps every stored notification type within like/comment/reply |
| NotificationRoutes.SelfNotificationReadsYou | routes/notificationRoutes.js:87-101 | The route does not refuse a self-notification, and the listing words it "You liked your post" |
| NotificationRoutes.CreatedIsListed | routes/notificationRoutes.js:7-110 | A created notification is listed for its recipient under the id the request named, in whatever letter case |
| SnapRoutes.CreateSnap | routes/unisnap.js:24-66 | A malformed actor id is 500, an unknown actor 404, then a missing photo 400; otherwise one snap is appended with the overlay or "", and the response carries the author's stored name and avatar |
| SnapRoutes.AuthorDependsOnKey | routes/unisnap.js:83-91 | A group's author fields depend only on its key, so reading them from the group's first snap is the same as reading them from any of its snaps |
| SnapRoutes.ListSnaps | routes/unisnap.js:72-105 | The listing groups the last 24 hours of snaps by author: distinct keys, each group exactly its author's snaps, newest first and non-empty, groups ordered by their newest snap, and as many items as recent snaps |
| SnapRoutes.GroupsNewestFirst | routes/unisnap.js:76-97 | Grouping newest-first, in-window rows gives groups whose items are newest first and in the window |
| SnapRoutes.RecentIsRecent | routes/unisnap.js:74-77 | The snaps the listing reads are newest first and all younger than 24 hours |
| SnapRoutes.LiveSnapIsRecent | routes/unisnap.js:74-77 | Every snap younger than 24 hours is read by the listing |
| SnapRoutes.PostedSnapIsListed | routes/unisnap.js:24-100 | A snap just posted appears in its author's group of the listing |
| SnapRoutes.SnapExpiresFromListing | routes/unisnap.js:74-76 | A snap older than 24 hours appears in no group |
| SnapRoutes.DeleteSnap | routes/unisnap.js:111-127 | A malformed id is 500, a missing snap 404 (a valid id matches in either letter case), a requester whose `id` claim is not the author 403; otherwise exactly that snap is removed and the others keep their order |
| SnapRoutes.DeleteNeedsIdClaim | routes/unisnap.js:117-119 | A token without an `id` claim can delete no snap |
| SnapRoutes.PostThenDeleteRestores | routes/unisnap.js:111-122 | Posting a snap with a fresh id and deleting it as its author restores the database |
| Grouping.GroupBy | routes/unisnap.js:81-100 | The loop yields one group per distinct key, each holding exactly its key's values in order, covering every row, in first-seen order |
| Grouping.PlaceKeepsGroups | routes/unisnap.js:84-97 | One loop step keeps the grouping invariant when one more row is consumed |
| Grouping.ItemsOfExact | routes/unisnap.js:92-97 | A key's group holds only values of rows with that key, and every such value |
| Grouping.RowIsGrouped | routes/unisnap.js:84-97 | Every row's value lands in the group of its key |
| Grouping.ItemsOfSorted | routes/unisnap.js:77-97 | Rows in newest-first order give groups in newest-first order |
| Grouping.GroupByCountsRows | routes/unisnap.js:82-98 | The groups together hold as many values as there were rows |
| Grouping.GroupsLeadWithNewest | routes/unisnap.js:76-100 | With rows newest first, every group is non-empty and groups are ordered by their first (newest) value |
| UserRoutes.GetUser | routes/userRoutes.js:10-29 | A malformed id is 400, an unknown one 404; otherwise the selected profile fields of the user with the id as cast |
| UserRoutes.ProfileHidesSecrets | routes/userRoutes.js:19-21 | The profile never depends on the password, registration number, verified flag or creation time |
| UserRoutes.UserPosts | routes/userRoutes.js:34-65 | A malformed id is 400; otherwise the posts stored under the id as cast, newest first, each as often as stored, with live owner fields |
| UserRoutes.UpdateUser | routes/userRoutes.js:70-93 | A malformed id is 400, an unknown user 404; otherwise only that user changes, and only by the profile edit |
| UserRoutes.UpdateRoutesAgree | routes/userRoutes.js:75-77 | On a valid id both update routes give the same result; on a malformed one they differ as 400 against 500 |
| UserRoutes.UpdateKeepsUnique | routes/userRoutes.js:79-85 | A profile edit keeps the unique indexes free of duplicates and never changes id, e-mail or handle |
| UserRoutes.UpdateIdempotent | routes/userRoutes.js:79-85 | Repeating an edit leaves the database as the first edit did |
| AuthController.Otp | controllers/authController.js:27 | An OTP is six decimal digits without a leading zero |
| AuthController.Signup | controllers/authController.js:9-49 | Falsy fields are 400, a non-SRM e-mail 400, a registered e-mail 409, and every other request succeeds; then the e-mail's single pending record holds the hashed password, a six-digit OTP and an expiry ten minutes ahead |
| AuthController.SignupKeepsPendingKeyed | controllers/authController.js:30-41 | Signup keeps at most one pending record per e-mail, filed under it |
| AuthController.SignupRecordValidates | models/PendingUser.js:3-10 | The record signup stores passes the schema's required checks exactly when the password hash is non-empty |
| AuthController.HandleOfSrmEmail | controllers/authController.js:93 | The derived handle of `local@srmist.edu.in` is `local` |
| AuthController.Promoted | controllers/authController.js:95-103 | The new user carries the pending record's identity and hashed password, the derived handle, `verified` true and `createdAt` now |
| AuthController.Promote | controllers/authController.js:105-106 | The promotion succeeds iff the user can be saved; then the user is appended and the pending record is deleted; otherwise 500 |
| AuthController.VerifyOtp | controllers/authController.js:52-116 | For a string OTP: a falsy e-mail or OTP is 400; the dev OTP with the bypass on needs a pending record (400); otherwise the e-mail and OTP must match a pending record (400); a matching or bypassed request with a pending record always goes on to promote it, and success means exactly that promotion; the expiry is never looked at |
| AuthController.VerifyAcceptsExpiredOtp | controllers/authController.js:90-91 | As written, a matching OTP whose record has expired still completes the signup; the checked route refuses it |
| AuthController.VerifyOtpChecked | controllers/authController.js:90-91 | The intended verify route refuses a record whose expiry has passed and otherwise agrees with the route as written |
| AuthController.CheckedOtpLastsTenMinutes | controllers/authController.js:27-41 | With the expiry check, the mailed OTP completes the signup exactly while no more than ten minutes have passed |
| AuthController.VerifyIsOneShot | controllers/authController.js:104-106 | A successful verification cannot be repeated |
| AuthController.VerifyKeepsPendingKeyed | controllers/authController.js:105-106 | Verification keeps at most one pending record per e-mail |
| AuthController.NoBypassInProduction | controllers/authController.js:58-61 | In production, verification with a string OTP succeeds only with the OTP stored for the e-mail |
| AuthController.SignupThenVerify | controllers/authController.js:27-106 | Signing up and presenting the mailed OTP creates exactly one verified user with that e-mail and the hashed password, and clears the pending record |
| AuthController.Login | controllers/authController.js:119-138 | Falsy fields are 400, an unknown e-mail 404, a wrong password 401; success iff the password matches the stored hash, returning that user's name and id |
| AuthController.LoginAfterSignup | controllers/authController.js:9-138 | After signup and verification, the signup e-mail and password log in as the new user whenever the password matches its own hash |
| AuthController.ForgotPassword | controllers/authController.js:141-165 | A falsy e-mail is 400, an unknown one 404; otherwise the e-mail's single reset request is created or replaced with a fresh OTP expiring in ten minutes |
| AuthController.ResetPassword | controllers/authController.js:168-185 | For a string OTP: falsy fields are 400; success iff the request matches and has not expired; then only the first user with the e-mail gets the new hash, and the request is deleted |
| AuthController.ApplyReset | controllers/authController.js:176-177 | The reset's writes: only the first user with the e-mail gets the new hash, every other user and record is kept, and the e-mail's request is deleted |
| AuthController.VerifyOtpRaw | controllers/authController.js:53-90 | As written, for a body OTP that may be a `$ne` object: a string OTP behaves as in `VerifyOtp`; an object is truthy, skips the dev bypass, and promotes the e-mail's pending record whenever its OTP differs from the operand, else 400 |
| AuthController.OperatorOtpCompletesSignup | controllers/authController.js:53-90 | As written, `{ "$ne": "" }` as the OTP completes any signup, in production too, with the same outcome as the mailed OTP |
| AuthController.VerifyOtpStrict | controllers/authController.js:53-90 | The intended verify route agrees with the route as written on string OTPs and refuses an operator object with 400 |
| AuthController.StrictVerifyNeedsStoredOtp | controllers/authController.js:58-90 | With the intended route, production accepts only the stored OTP, sent as a string |
| AuthController.ResetPasswordRaw | controllers/authController.js:169-178 | As written, for a body OTP that may be a `$ne` object: a string OTP behaves as in `ResetPassword`; with an object, success iff the e-mail's request is live and its OTP differs from the operand; any success performs the reset's writes |
| AuthController.OperatorOtpResetsPassword | controllers/authController.js:149-178 | As written, after a forgot-password request, `{ "$ne": "" }` as the OTP resets the account's password within ten minutes, with the same outcome as the mailed OTP |
| AuthController.ResetPasswordStrict | controllers/authController.js:169-178 | The intended reset route agrees with the route as written on string OTPs, refuses an operator object, and succeeds only with a string OTP that matches a live request |
| AuthController.ResetsStayKeyed | controllers/authController.js:152-156 | Both password routes keep at most one reset request per e-mail |
| AuthController.ForgotThenReset | controllers/authController.js:149-178 | A reset with the mailed OTP within ten minutes sets the account's password and uses the request up |
| AuthController.ResetIsOneShot | controllers/authController.js:173-178 | A reset request cannot be used twice |
| AuthController.LoginAfterReset | controllers/authController.js:119-185 | After a completed reset, the new password logs in as the account's user whenever it matches its own hash |

## Left out

- JWT signing and the auth middleware are not part of this model. The
  acting user is the `actor` parameter. The snap delete route compares only
  the token's `id` claim, so its requester is `Option<Id>`.
- Image uploads to the image host are out. The upload result is a URL
  parameter, absent when no file was sent. A failed upload (500) is not
  modelled.
- Sending e-mail is out. `sendOTPEmail` catches its own failures, so it
  never changes a route's outcome.
- Password hashing and comparison are function parameters. The random OTP
  draw is a number in 100000..999999. Fresh ids are parameters, and their
  freshness is assumed only where a lemma says so.
- Database and network failures are not modelled. Only the failures the
  code's own data can trigger are modelled: cast errors, validation and
  duplicate keys. So the model never shows a write that fails after an
  earlier one succeeded. In the like route a failed notification write
  answers 500 and the like is lost, because the notification is written
  before `post.save()` (routes/posts.js:211-221). In the comment and
  reply routes it answers 500 after the post was saved.
- The TTL index on snaps (86400 s) deletes old snaps in the background. It
  is not modelled. The listing's own 24-hour cutoff hides the same snaps;
  `SnapModel.TtlIsListingWindow` states that the two spans are equal.
- Timestamps are integers in milliseconds, not `Date` objects. When two
  records have equal timestamps, the order of a timestamp sort is left to
  the database; the model keeps stored order.
- `ObjectId` validity and castability are one predicate, `Base.IsObjectId`:
  24 hexadecimal digits in either case. Recent releases of the bson
  library accept only that form. Older releases also took any
  12-character string as an id. The Mongoose version is not part of this
  model, so such strings count as malformed here.
- Stored ids are taken to be in the form the driver renders:
  24 lower-case hexadecimal digits. The model does not check that stored
  data has this form. Lemmas that need it, such as
  `SnapRoutes.PostThenDeleteRestores`, require it.
- The acting user's id from the token is used as given, not cast. Every
  token the controller issues carries the user's `_id`, which JSON renders
  in lower case (controllers/authController.js:83, 108, 130). An
  upper-case spelling of a valid id is therefore compared letter by letter
  and stored unchanged, where Mongoose would cast it. A malformed actor id
  is modelled: it fails the cast of `findById` or of the likes push (500).
- AuthController.VerifyOtp: takes the OTP as a string, so it holds for string OTPs only. An OTP sent as a query-operator object is modelled by `AuthController.VerifyOtpRaw` (see Findings).
- AuthController.NoBypassInProduction: holds for string OTPs only. As written, an operator object completes the signup without the stored OTP (`AuthController.OperatorOtpCompletesSignup`).
- AuthController.ResetPassword: takes the OTP as a string, so "success iff the request matches" holds for string OTPs only. The operator case is `AuthController.ResetPasswordRaw` (see Findings).
- Every other request-body value is a string or absent. Query-operator objects in other fields, such as an e-mail sent as `{ "$ne": "" }` to the login or reset route, are not modelled. Neither are numbers, booleans or arrays.
- UserModel.ApplyProfile: a profile field sent as JSON `null` is stored as null by `$set` (routes/userRoutes.js:79-85, routes/posts.js:174-178). The model's `None` stands only for a field that was not sent, which keeps the old value.
- Concurrency between requests is out. Each route is one atomic step.
- The second reply handler in routes/notificationRoutes.js:116-181 is out.
  It would be served at `/api/notifications/:postId/comment/:commentId/reply`.
  A falsy text gets 400 (line 120). Every other request reaches
  `Post.findById` (line 122). That file never imports `Post`, so these
  requests end in 500.
- routes/authRoutes.js, routes/protectedRoutes.js and the rest of app.js
  (server start-up, CORS, static files) are wiring, not behaviour.
- Grouping.GroupByCountsRows: states that the groups hold as many values as
  there were rows, not that they are a permutation of the rows. Together
  with `ItemsOfExact` and `DistinctKeys` this still means every row is
  listed exactly once, but no single multiset equation is proved.
- AuthController.Signup: a failed save of the new pending record is not
  modelled. The route deletes the e-mail's old pending record (line 30)
  before it saves the new one (line 41). A hash that left the password
  empty would fail validation there, lose the old record and answer 500.
  Bcrypt hashes are never empty. `AuthController.SignupRecordValidates`
  states that the stored record validates exactly when the hash is
  non-empty.
- Text.Lower: lower-cases the ASCII letters A-Z only. JavaScript's
  `toLowerCase` also maps non-ASCII letters. So `UserModel.DeriveHandle`
  matches the source only for ASCII e-mail addresses.
- PostRoutes.ToggledTwice: states equality of likes as a multiset, not as a
  sequence. After an unlike and a re-like the actor moves to the end of
  the list, so sequence equality does not hold.

## Findings

| source | as written | input that shows it | evidently intended | confidence | as-written member | corrected member |
|---|---|---|---|---|---|---|
| routes/posts.js:255-266 | The recipient is `comment.userId`, which is the commenter, so the self-notify guard always suppresses the notification | U2 comments on a post owned by U1: the comment is saved and no notification is written | Notify the post owner with type "comment" when the commenter is not the owner (the "Notify post owner" comment on line 255) | high; not executed | PostRoutes.AddCommentNeverNotifies | PostRoutes.IntendedCommentNotifiesOwner |
| controllers/authController.js:90-91 | Verification matches e-mail and OTP only; `expiresAt` is stored at signup but never compared | Sign up at time t, then verify with the mailed OTP at t + 11 minutes: 201 and a new user | Refuse an expired OTP the way the reset route does at line 174; the mail says the OTP is valid for 10 minutes | high; not executed | AuthController.VerifyAcceptsExpiredOtp | AuthController.CheckedOtpLastsTenMinutes |
| controllers/authController.js:53-90 | The OTP from the JSON body goes into `PendingUser.findOne({ email, otp })` as it is, so an object such as `{ "$ne": "" }` is applied as a query operator | POST /api/auth/verify-otp with `{ "email": E, "otp": { "$ne": "" } }` after a signup for E, with NODE_ENV "production": 201 and a new user, without the mailed OTP | Accept only a string OTP equal to the stored one | medium; not executed: the Mongoose connection options are not part of this model and could enable `sanitizeFilter` | AuthController.OperatorOtpCompletesSignup | AuthController.VerifyOtpStrict |
| controllers/authController.js:169-178 | The OTP from the JSON body goes into `PasswordResetRequest.findOne({ email, otp })` as it is, so `{ "$ne": "" }` matches the e-mail's live request | POST /api/auth/forgot-password with `{ "email": E }`, then POST /api/auth/reset-password with `{ "email": E, "otp": { "$ne": "" }, "newPassword": "x" }`: the password of E is reset without the mailed OTP | Accept only a string OTP equal to the stored one | medium; not executed: the Mongoose connection options are not part of this model and could enable `sanitizeFilter` | AuthController.OperatorOtpResetsPassword | AuthController.ResetPasswordStrict |
