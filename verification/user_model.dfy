/** The user record (models/User.js): schema defaults, required fields,
    unique indexes, the userhandle derivation hook run on save, and the
    hook that keeps userhandle out of `findOneAndUpdate` updates. */
module UserModel {
  import opened Base
  import opened Text

  datatype User = User(
    id: Id,
    name: string,
    regNumber: string,
    email: string,
    password: string,      // already hashed; hashing is not modelled
    userhandle: string,
    profileImageUrl: string,
    bio: string,
    department: string,
    pronoun: string,
    linkedin: string,
    instagram: string,
    verified: bool,
    createdAt: int)

  /** A new user document: the given fields plus the schema defaults. An
      absent `verified` or `createdAt` takes the default. */
  function NewUser(id: Id, name: string, regNumber: string, email: string, password: string,
                   userhandle: string, verified: Option<bool>, createdAt: Option<int>,
                   now: int): (u: User)
    ensures u.profileImageUrl == DefaultAvatar
    ensures u.bio == "" && u.department == "" && u.pronoun == ""
    ensures u.linkedin == "" && u.instagram == ""
    ensures u.verified <==> (verified.None? || verified.value)
    ensures createdAt.None? ==> u.createdAt == now
    ensures createdAt.Some? ==> u.createdAt == createdAt.value
    ensures (u.id, u.name, u.regNumber, u.email, u.password, u.userhandle)
         == (id, name, regNumber, email, password, userhandle)
  {
    User(id, name, regNumber, email, password, userhandle, DefaultAvatar, "", "", "", "", "",
         match verified case Some(v) => v case None => true,
         match createdAt case Some(t) => t case None => now)
  }

  /** The `required: true` fields: Mongoose rejects a missing or empty string. */
  predicate HasRequired(u: User) {
    u.name != "" && u.regNumber != "" && u.email != "" && u.password != "" && u.userhandle != ""
  }

  /** The `pre('save')` hook on a new document: an empty userhandle is
      replaced by the lower-cased part of the email before its first "@". */
  function DeriveHandle(u: User): (r: User)
    ensures r == u.(userhandle := r.userhandle)
    ensures u.userhandle != "" ==> r.userhandle == u.userhandle
    ensures u.userhandle == "" ==>
      && '@' !in r.userhandle
      && |r.userhandle| <= |u.email|
      && (forall i | 0 <= i < |r.userhandle| :: r.userhandle[i] == LowerChar(u.email[i]))
      && (|r.userhandle| < |u.email| ==> u.email[|r.userhandle|] == '@')
  {
    if u.userhandle != "" then u
    else
      var prefix := BeforeFirst(u.email, '@');
      assert forall i | 0 <= i < |prefix| :: LowerChar(prefix[i]) != '@';
      u.(userhandle := Lower(prefix))
  }

  function UserIndex(users: seq<User>, id: Id): Option<nat> {
    FirstIndex(users, (u: User) => u.id == id)
  }

  /** `User.findById(id)`, or the value a `populate` of a user reference
      yields: the user, or nothing when no user has that id. */
  function FindUser(users: seq<User>, id: Id): (r: Option<User>)
    ensures r.Some? <==> exists k | 0 <= k < |users| :: users[k].id == id
    ensures r.Some? ==> r.value in users && r.value.id == id
  {
    match UserIndex(users, id)
    case Some(k) => Some(users[k])
    case None => None
  }

  /** `User.findOne({ email })`. */
  function FindByEmail(users: seq<User>, email: string): (r: Option<nat>)
    ensures r.Some? ==> r.value < |users| && users[r.value].email == email
    ensures r.None? <==> forall k | 0 <= k < |users| :: users[k].email != email
  {
    FirstIndex(users, (u: User) => u.email == email)
  }

  /** The unique indexes of the collection: `_id`, `email` and `userhandle`. */
  predicate Unique(users: seq<User>) {
    forall i, j | 0 <= i < j < |users| ::
      && users[i].id != users[j].id
      && users[i].email != users[j].email
      && users[i].userhandle != users[j].userhandle
  }

  predicate Clashes(users: seq<User>, u: User) {
    exists k | 0 <= k < |users| ::
      users[k].id == u.id || users[k].email == u.email || users[k].userhandle == u.userhandle
  }

  /** `save()` of a new user. Mongoose validates before it runs `pre('save')`
      hooks, so a document without a userhandle is rejected before the
      derivation hook can fill it in; a duplicate key on a unique index
      makes the insert throw. Either failure reaches the caller's catch. */
  function SaveNew(users: seq<User>, u: User): (r: Result<seq<User>>)
    ensures r.Ok? <==> HasRequired(u) && !Clashes(users, u)
    ensures r.Ok? ==> r.value == users + [u]
    ensures r.Err? ==> r.error == ServerError
  {
    if !HasRequired(u) then Err(ServerError)
    else
      var doc := DeriveHandle(u);
      if Clashes(users, doc) then Err(ServerError) else Ok(users + [doc])
  }

  /** Saving a new user keeps the collection free of duplicate keys. */
  lemma SaveNewKeepsUnique(users: seq<User>, u: User)
    requires Unique(users)
    requires SaveNew(users, u).Ok?
    ensures Unique(SaveNew(users, u).value)
  {
    var r := SaveNew(users, u).value;
    forall i, j | 0 <= i < j < |r|
      ensures r[i].id != r[j].id && r[i].email != r[j].email && r[i].userhandle != r[j].userhandle
    {
      if j == |users| {
        assert r[j] == u && r[i] == users[i];
      } else {
        assert r[i] == users[i] && r[j] == users[j];
      }
    }
  }

  /** The update document given to `findOneAndUpdate`: its top-level keys and
      its `$set` object. */
  datatype UpdateDoc = UpdateDoc(top: map<string, string>, setOp: map<string, string>)

  /** The `pre('findOneAndUpdate')` hook: a truthy top-level `userhandle` is
      deleted from the update; `$set.userhandle` is left alone. */
  function StripHandle(d: UpdateDoc): (r: UpdateDoc)
    ensures r.setOp == d.setOp
    ensures "userhandle" in r.top ==> r.top["userhandle"] == ""
    ensures r.top.Keys <= d.top.Keys
    ensures forall k | k in d.top && k != "userhandle" :: k in r.top && r.top[k] == d.top[k]
    ensures "userhandle" in d.top && d.top["userhandle"] == "" ==> r == d
  {
    if "userhandle" in d.top && d.top["userhandle"] != "" then
      d.(top := d.top - {"userhandle"})
    else d
  }

  /** The profile fields a client may edit; an absent field is dropped from
      the `$set` (Mongoose removes undefined keys from updates). */
  datatype ProfileEdit = ProfileEdit(
    bio: Option<string>,
    department: Option<string>,
    pronoun: Option<string>,
    linkedin: Option<string>,
    instagram: Option<string>,
    profileImageUrl: Option<string>)

  /** `field` is what `$set` leaves it: the edited value when one was sent. */
  predicate Edited(field: string, before: string, edit: Option<string>) {
    field == match edit case Some(v) => v case None => before
  }

  function Pick(edit: Option<string>, before: string): string {
    match edit case Some(v) => v case None => before
  }

  /** `$set: { bio, department, pronoun, linkedin, instagram, profileImageUrl }`. */
  function ApplyProfile(u: User, e: ProfileEdit): (r: User)
    ensures Edited(r.bio, u.bio, e.bio) && Edited(r.department, u.department, e.department)
    ensures Edited(r.pronoun, u.pronoun, e.pronoun) && Edited(r.linkedin, u.linkedin, e.linkedin)
    ensures Edited(r.instagram, u.instagram, e.instagram)
    ensures Edited(r.profileImageUrl, u.profileImageUrl, e.profileImageUrl)
    ensures r.(bio := u.bio, department := u.department, pronoun := u.pronoun, linkedin := u.linkedin,
               instagram := u.instagram, profileImageUrl := u.profileImageUrl) == u
  {
    u.(bio := Pick(e.bio, u.bio), department := Pick(e.department, u.department),
       pronoun := Pick(e.pronoun, u.pronoun), linkedin := Pick(e.linkedin, u.linkedin),
       instagram := Pick(e.instagram, u.instagram),
       profileImageUrl := Pick(e.profileImageUrl, u.profileImageUrl))
  }
}
