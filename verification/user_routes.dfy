/** The profile routes (routes/userRoutes.js): reading a profile, listing a
    user's posts, and editing the profile fields. */
module UserRoutes {
  import opened Base
  import opened Ordering
  import opened UserModel
  import opened PostModel
  import opened FeedView
  import opened Store
  import PostRoutes

  /** A profile as `select("name bio profileImageUrl email department pronoun
      linkedin instagram userhandle")` returns it: `_id` plus the selected
      fields; never the password, the registration number or the flags. */
  datatype Profile = Profile(
    id: Id,
    name: string,
    bio: string,
    profileImageUrl: string,
    email: string,
    department: string,
    pronoun: string,
    linkedin: string,
    instagram: string,
    userhandle: string)

  function ProfileOf(u: User): Profile {
    Profile(u.id, u.name, u.bio, u.profileImageUrl, u.email, u.department, u.pronoun,
            u.linkedin, u.instagram, u.userhandle)
  }

  /** GET /api/users/:id. A malformed id is 400, an unknown one 404; a
      valid id is cast, so it matches in either letter case. */
  function GetUser(db: Db, id: Id): (r: Result<Profile>)
    ensures !IsObjectId(id) ==> r == Err(InvalidUserId)
    ensures IsObjectId(id) && FindUser(db.users, Canon(id)).None? ==> r == Err(UserNotFound)
    ensures r.Ok? <==> IsObjectId(id) && exists k | 0 <= k < |db.users| :: db.users[k].id == Canon(id)
    ensures r.Ok? ==> r.value == ProfileOf(FindUser(db.users, Canon(id)).value) && r.value.id == Canon(id)
  {
    if !IsObjectId(id) then Err(InvalidUserId)
    else match FindUser(db.users, Canon(id))
      case None => Err(UserNotFound)
      case Some(u) => Ok(ProfileOf(u))
  }

  /** The profile response omits the secret and administrative fields: two
      users that differ only in those read the same. */
  lemma ProfileHidesSecrets(u: User, password: string, regNumber: string, verified: bool, createdAt: int)
    ensures ProfileOf(u.(password := password, regNumber := regNumber, verified := verified, createdAt := createdAt))
         == ProfileOf(u)
  {
  }

  function ProfileTime(v: PostView<Comment>): int {
    v.timestamp
  }

  /** The profile router's GET /posts/user/:id: the user's posts, newest
      first, each with the owner's live profile fields spliced in and the
      comments as stored. Mounted under /api, the path coincides with the
      posts router's GET /api/posts/user/:id, which is registered first and
      always answers, so this handler is shadowed in the assembled app. */
  function UserPosts(db: Db, id: Id): (r: Result<seq<PostView<Comment>>>)
    ensures r.Err? <==> !IsObjectId(id)
    ensures r.Err? ==> r.error == InvalidUserId
    ensures r.Ok? ==> ListsNewestFirst(Filter(db.posts, PostRoutes.IsOwnedBy(Canon(id))), r.value,
                                       p => ProfilePost(db.users, p), ProfileTime)
  {
    if !IsObjectId(id) then Err(InvalidUserId)
    else Ok(NewestFirst(Filter(db.posts, PostRoutes.IsOwnedBy(Canon(id))), PostTime,
                        p => ProfilePost(db.users, p), ProfileTime))
  }

  /** PUT /api/users/:id. A malformed id is 400, an unknown one 404;
      otherwise the edited profile fields are set and the updated user is
      returned. */
  function UpdateUser(db: Db, id: Id, edit: ProfileEdit): (r: Result<Step<User>>)
    ensures !IsObjectId(id) ==> r == Err(InvalidUserId)
    ensures IsObjectId(id) && UserIndex(db.users, Canon(id)).None? ==> r == Err(UserNotFound)
    ensures r.Ok? <==> IsObjectId(id) && UserIndex(db.users, Canon(id)).Some?
    ensures r.Ok? ==>
      var k := UserIndex(db.users, Canon(id)).value;
      && r.value.db == db.(users := db.users[k := r.value.out])
      && r.value.out == ApplyProfile(db.users[k], edit)
  {
    if !IsObjectId(id) then Err(InvalidUserId)
    else PostRoutes.UpdateUserUnchecked(db, id, edit)
  }

  /** On a well-formed id the two update routes behave alike; they differ
      only in how a malformed id is answered (400 here, 500 there). */
  lemma UpdateRoutesAgree(db: Db, id: Id, edit: ProfileEdit)
    ensures IsObjectId(id) ==> UpdateUser(db, id, edit) == PostRoutes.UpdateUserUnchecked(db, id, edit)
    ensures !IsObjectId(id) ==>
      UpdateUser(db, id, edit) == Err(InvalidUserId) && PostRoutes.UpdateUserUnchecked(db, id, edit) == Err(ServerError)
  {
  }

  /** A profile edit changes no unique key, so the collection stays free of
      duplicate ids, emails and userhandles; in particular the userhandle
      is never changed by an update. */
  lemma UpdateKeepsUnique(db: Db, id: Id, edit: ProfileEdit)
    requires Unique(db.users)
    requires UpdateUser(db, id, edit).Ok?
    ensures Unique(UpdateUser(db, id, edit).value.db.users)
    ensures var u := UpdateUser(db, id, edit).value.out;
            var k := UserIndex(db.users, Canon(id)).value;
            (u.id, u.email, u.userhandle) == (db.users[k].id, db.users[k].email, db.users[k].userhandle)
  {
    var k := UserIndex(db.users, Canon(id)).value;
    var users := UpdateUser(db, id, edit).value.db.users;
    assert forall j | 0 <= j < |users| ::
      (users[j].id, users[j].email, users[j].userhandle) == (db.users[j].id, db.users[j].email, db.users[j].userhandle);
  }

  /** Sending the same edit twice leaves the store as the first call did. */
  lemma UpdateIdempotent(db: Db, id: Id, edit: ProfileEdit)
    requires UpdateUser(db, id, edit).Ok?
    ensures var db1 := UpdateUser(db, id, edit).value.db;
            UpdateUser(db1, id, edit).Ok? && UpdateUser(db1, id, edit).value.db == db1
  {
    var k := UserIndex(db.users, Canon(id)).value;
    var db1 := UpdateUser(db, id, edit).value.db;
    FirstIndexAgrees(db.users, (u: User) => u.id == Canon(id), db1.users, (u: User) => u.id == Canon(id));
    assert UserIndex(db1.users, Canon(id)) == Some(k);
    assert ApplyProfile(db1.users[k], edit) == db1.users[k];
  }
}
