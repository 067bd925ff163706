/** The account flows (controllers/authController.js): signup with an
    e-mailed OTP, OTP verification that turns a pending signup into a user,
    login, and the forgot / reset password pair. Hashing and password
    comparison are given as functions, the random OTP draw as a number, and
    the clock as `now` (milliseconds). Sending mail is left out: the mailer
    catches its own failures, so it never changes a route's outcome. */
module AuthController {
  import opened Base
  import opened Text
  import opened UserModel
  import opened AuthModel
  import opened Store

  /** The environment variables the controller reads; an unset variable is
      `None`. */
  datatype Env = Env(
    srmDomain: Option<string>,
    nodeEnv: Option<string>,
    allowDevOtp: Option<string>,
    devTestOtp: Option<string>)

  /** The suffix a signup e-mail must end with: `@${SRM_DOMAIN}`, which
      reads "@undefined" when the variable is unset. */
  function DomainSuffix(env: Env): string {
    "@" + match env.srmDomain case Some(d) => d case None => "undefined"
  }

  /** `Math.floor(100000 + Math.random() * 900000).toString()` for the draw
      that gives `code`. */
  function Otp(code: nat): (otp: string)
    requires 100000 <= code <= 999999
    ensures |otp| == 6
    ensures forall i | 0 <= i < 6 :: '0' <= otp[i] <= '9'
    ensures otp[0] != '0'
  {
    assert Pow10(5) == 100000 && Pow10(6) == 1000000;
    DecimalLength(code, 5);
    DecimalLeadingDigit(code);
    Decimal(code)
  }

  lemma {:induction false} DecimalLeadingDigit(n: nat)
    requires n >= 1
    ensures |Decimal(n)| > 0 && Decimal(n)[0] != '0'
  {
    if n >= 10 {
      DecimalLeadingDigit(n / 10);
    }
  }

  /** The signup request body. */
  datatype SignupBody = SignupBody(
    name: Option<string>,
    email: Option<string>,
    password: Option<string>,
    regNumber: Option<string>)

  /** POST /api/auth/signup. Any falsy field is 400; an e-mail outside the
      SRM domain is 400; a registered e-mail is 409. Otherwise any earlier
      pending signup for the e-mail is replaced by one holding the hashed
      password, a fresh six-digit OTP and an expiry ten minutes ahead. */
  function Signup(db: Db, env: Env, body: SignupBody, hash: string -> string, code: nat, now: int): (r: Result<Db>)
    requires 100000 <= code <= 999999
    ensures !(Truthy(body.name) && Truthy(body.email) && Truthy(body.password) && Truthy(body.regNumber))
            ==> r == Err(FillAllFields)
    ensures (Truthy(body.name) && Truthy(body.email) && Truthy(body.password) && Truthy(body.regNumber)
             && !EndsWith(body.email.value, DomainSuffix(env))) ==> r == Err(NotSrmEmail)
    ensures (Truthy(body.name) && Truthy(body.email) && Truthy(body.password) && Truthy(body.regNumber)
             && EndsWith(body.email.value, DomainSuffix(env)) && FindByEmail(db.users, body.email.value).Some?)
            ==> r == Err(AlreadyRegistered)
    ensures r.Ok? <==>
      && Truthy(body.name) && Truthy(body.email) && Truthy(body.password) && Truthy(body.regNumber)
      && EndsWith(body.email.value, DomainSuffix(env))
      && FindByEmail(db.users, body.email.value).None?
    ensures r.Ok? ==>
      var e := body.email.value;
      r.value == db.(pending := db.pending[e := PendingUser(body.name.value, body.regNumber.value, e,
                                                               hash(body.password.value), Otp(code),
                                                               now + OtpLifetimeMs)])
  {
    if !(Truthy(body.name) && Truthy(body.email) && Truthy(body.password) && Truthy(body.regNumber)) then
      Err(FillAllFields)
    else
      var e := body.email.value;
      if !EndsWith(e, DomainSuffix(env)) then Err(NotSrmEmail)
      else if FindByEmail(db.users, e).Some? then Err(AlreadyRegistered)
      else
        // `deleteOne({ email })` then `save()` of the replacement
        var p := PendingUser(body.name.value, body.regNumber.value, e, hash(body.password.value),
                             Otp(code), now + OtpLifetimeMs);
        Ok(db.(pending := db.pending[e := p]))
  }

  /** Signup keeps at most one pending record per e-mail, filed under it. */
  lemma SignupKeepsPendingKeyed(db: Db, env: Env, body: SignupBody, hash: string -> string, code: nat, now: int)
    requires 100000 <= code <= 999999
    requires PendingKeyed(db.pending)
    requires Signup(db, env, body, hash, code, now).Ok?
    ensures PendingKeyed(Signup(db, env, body, hash, code, now).value.pending)
  {
  }

  /** The record signup stores passes the PendingUser schema's required
      checks exactly when the password hash is non-empty: every other
      required field is a truthy request field or the six-digit OTP. */
  lemma SignupRecordValidates(db: Db, env: Env, body: SignupBody, hash: string -> string, code: nat, now: int)
    requires 100000 <= code <= 999999
    requires Signup(db, env, body, hash, code, now).Ok?
    ensures var m := Signup(db, env, body, hash, code, now).value.pending;
            body.email.value in m && (PendingValid(m[body.email.value]) <==> hash(body.password.value) != "")
  {
  }

  /** The userhandle the verify route gives a new user:
      `email.replace("@srmist.edu.in", "")`, whatever the configured domain. */
  function HandleFor(email: string): string {
    ReplaceFirst(email, "@srmist.edu.in", "")
  }

  /** For an address with a single "@" in the srmist.edu.in domain, the
      handle is the local part. */
  lemma HandleOfSrmEmail(local: string)
    requires '@' !in local
    ensures HandleFor(local + "@srmist.edu.in") == local
  {
    ReplaceFirstStripsSuffix(local, "@srmist.edu.in");
  }

  /** The dev bypass is on outside production when ALLOW_DEV_OTP is "true". */
  predicate DevBypass(env: Env) {
    env.nodeEnv != Some("production") && env.allowDevOtp == Some("true")
  }

  /** DEV_TEST_OTP, or "123" when unset or empty. */
  function DevOtp(env: Env): string {
    Or(env.devTestOtp, "123")
  }

  /** The user a pending signup becomes: verified, created now, with the
      derived handle and the already hashed password. */
  function Promoted(p: PendingUser, userId: Id, now: int): (u: User)
    ensures (u.id, u.name, u.regNumber, u.email, u.password) == (userId, p.name, p.regNumber, p.email, p.password)
    ensures u.userhandle == HandleFor(p.email) && u.verified && u.createdAt == now
  {
    NewUser(userId, p.name, p.regNumber, p.email, p.password, HandleFor(p.email), Some(true), Some(now), now)
  }

  /** Saves the promoted user, then drops the pending record of `email`. A
      failed save (a clash on a unique key, an empty handle) is 500 and
      keeps the pending record. */
  function Promote(db: Db, email: string, p: PendingUser, userId: Id, now: int): (r: Result<Step<string>>)
    ensures r.Ok? <==> SaveNew(db.users, Promoted(p, userId, now)).Ok?
    ensures r.Err? ==> r.error == ServerError
    ensures r.Ok? ==>
      && r.value.db == db.(users := db.users + [Promoted(p, userId, now)], pending := db.pending - {email})
      && r.value.out == p.name
  {
    match SaveNew(db.users, Promoted(p, userId, now))
    case Err(_) => Err(ServerError)
    case Ok(users) => Ok(Step(db.(users := users, pending := db.pending - {email}), p.name))
  }

  /** POST /api/auth/verify-otp, as written. A falsy e-mail or OTP is 400.
      With the dev bypass on and the dev OTP given, the pending record is
      found by e-mail alone (400 when there is none); otherwise it must
      match both e-mail and OTP (400 when none does). Its expiry is never
      looked at. The response carries the new user's name (the token is not
      modelled). */
  function VerifyOtp(db: Db, env: Env, email: Option<string>, otp: Option<string>, userId: Id, now: int)
    : (r: Result<Step<string>>)
    ensures !(Truthy(email) && Truthy(otp)) ==> r == Err(OtpRequired)
    ensures (Truthy(email) && Truthy(otp) && DevBypass(env) && otp.value == DevOtp(env)
             && email.value !in db.pending) ==> r == Err(NoPendingUser)
    ensures Truthy(email) && Truthy(otp) && !(DevBypass(env) && otp.value == DevOtp(env))
            && !(email.value in db.pending && db.pending[email.value].otp == otp.value)
            ==> r == Err(InvalidOrExpiredOtp)
    ensures (Truthy(email) && Truthy(otp) && email.value in db.pending
             && ((DevBypass(env) && otp.value == DevOtp(env)) || db.pending[email.value].otp == otp.value))
            ==> r == Promote(db, email.value, db.pending[email.value], userId, now)
    ensures r.Ok? ==>
      && Truthy(email) && Truthy(otp) && email.value in db.pending
      && ((DevBypass(env) && otp.value == DevOtp(env)) || db.pending[email.value].otp == otp.value)
      && r == Promote(db, email.value, db.pending[email.value], userId, now)
  {
    if !(Truthy(email) && Truthy(otp)) then Err(OtpRequired)
    else if DevBypass(env) && otp.value == DevOtp(env) then
      if email.value !in db.pending then Err(NoPendingUser)
      else Promote(db, email.value, db.pending[email.value], userId, now)
    else if email.value in db.pending && db.pending[email.value].otp == otp.value then
      Promote(db, email.value, db.pending[email.value], userId, now)
    else Err(InvalidOrExpiredOtp)
  }

  /** The verify route with the expiry check the reset route makes: a
      pending record whose `expiresAt` has passed is rejected like a wrong
      OTP. */
  function VerifyOtpChecked(db: Db, env: Env, email: Option<string>, otp: Option<string>, userId: Id, now: int)
    : (r: Result<Step<string>>)
    ensures Truthy(email) && Truthy(otp) && email.value in db.pending && db.pending[email.value].expiresAt < now
            ==> r.Err?
    ensures r.Ok? ==> r == VerifyOtp(db, env, email, otp, userId, now)
    ensures !(Truthy(email) && Truthy(otp) && email.value in db.pending && db.pending[email.value].expiresAt < now)
            ==> r == VerifyOtp(db, env, email, otp, userId, now)
  {
    if Truthy(email) && Truthy(otp) && email.value in db.pending && db.pending[email.value].expiresAt < now then
      if (DevBypass(env) && otp.value == DevOtp(env)) || db.pending[email.value].otp == otp.value then
        Err(InvalidOrExpiredOtp)
      else VerifyOtp(db, env, email, otp, userId, now)
    else VerifyOtp(db, env, email, otp, userId, now)
  }

  /** As written, an OTP presented after its record expired still completes
      the signup. */
  lemma VerifyAcceptsExpiredOtp(db: Db, env: Env, email: string, userId: Id, now: int)
    requires email != "" && email in db.pending
    requires db.pending[email].otp != "" && db.pending[email].expiresAt < now
    requires SaveNew(db.users, Promoted(db.pending[email], userId, now)).Ok?
    ensures VerifyOtp(db, env, Some(email), Some(db.pending[email].otp), userId, now).Ok?
    ensures VerifyOtpChecked(db, env, Some(email), Some(db.pending[email].otp), userId, now).Err?
  {
  }

  /** A successful verification removes the pending record, so the same
      request cannot succeed twice. */
  lemma VerifyIsOneShot(db: Db, env: Env, email: Option<string>, otp: Option<string>, userId: Id, userId2: Id,
                        now: int, later: int)
    requires VerifyOtp(db, env, email, otp, userId, now).Ok?
    ensures VerifyOtp(VerifyOtp(db, env, email, otp, userId, now).value.db, env, email, otp, userId2, later).Err?
  {
  }

  /** Verification keeps at most one pending record per e-mail. */
  lemma VerifyKeepsPendingKeyed(db: Db, env: Env, email: Option<string>, otp: Option<string>, userId: Id, now: int)
    requires PendingKeyed(db.pending)
    requires VerifyOtp(db, env, email, otp, userId, now).Ok?
    ensures PendingKeyed(VerifyOtp(db, env, email, otp, userId, now).value.db.pending)
  {
  }

  /** In production the dev OTP is an ordinary (wrong) OTP. */
  lemma NoBypassInProduction(db: Db, env: Env, email: Option<string>, otp: Option<string>, userId: Id, now: int)
    requires env.nodeEnv == Some("production")
    requires Truthy(email) && Truthy(otp)
    ensures VerifyOtp(db, env, email, otp, userId, now).Ok? ==>
      email.value in db.pending && db.pending[email.value].otp == otp.value
  {
  }

  /** Signing up and then presenting the mailed OTP creates the verified
      user and clears the pending record, provided the new id and handle
      are free and the hash and the handle are non-empty. */
  lemma SignupThenVerify(db: Db, env: Env, body: SignupBody, hash: string -> string, code: nat,
                         userId: Id, now: int, later: int)
    requires 100000 <= code <= 999999
    requires Signup(db, env, body, hash, code, now).Ok?
    requires hash(body.password.value) != "" && HandleFor(body.email.value) != ""
    requires forall k | 0 <= k < |db.users| ::
      db.users[k].id != userId && db.users[k].userhandle != HandleFor(body.email.value)
    ensures var db1 := Signup(db, env, body, hash, code, now).value;
            var r := VerifyOtp(db1, env, body.email, Some(Otp(code)), userId, later);
            && r.Ok?
            && r.value.db.pending == db.pending - {body.email.value}
            && r.value.db.users == db.users + [r.value.db.users[|db.users|]]
            && var u := r.value.db.users[|db.users|];
               u.email == body.email.value && u.verified && u.password == hash(body.password.value)
  {
    var db1 := Signup(db, env, body, hash, code, now).value;
    var e := body.email.value;
    var p := db1.pending[e];
    var u := Promoted(p, userId, later);
    assert !Clashes(db.users, u);
    assert db1.pending - {e} == db.pending - {e};
  }

  /** With the expiry check, the mailed OTP completes the signup for ten
      minutes and is refused afterwards. */
  lemma CheckedOtpLastsTenMinutes(db: Db, env: Env, body: SignupBody, hash: string -> string, code: nat,
                                  userId: Id, now: int, later: int)
    requires 100000 <= code <= 999999
    requires Signup(db, env, body, hash, code, now).Ok?
    requires hash(body.password.value) != "" && HandleFor(body.email.value) != ""
    requires forall k | 0 <= k < |db.users| ::
      db.users[k].id != userId && db.users[k].userhandle != HandleFor(body.email.value)
    ensures var db1 := Signup(db, env, body, hash, code, now).value;
            VerifyOtpChecked(db1, env, body.email, Some(Otp(code)), userId, later).Ok?
            <==> later <= now + OtpLifetimeMs
  {
    SignupThenVerify(db, env, body, hash, code, userId, now, later);
  }

  /** What a successful login returns besides the token. */
  datatype LoginOk = LoginOk(name: string, userId: Id)

  /** POST /api/auth/login. A falsy e-mail or password is 400, an unknown
      e-mail 404, a password that does not match the stored hash 401.
      `matches(password, hash)` stands for the bcrypt comparison. */
  function Login(db: Db, email: Option<string>, password: Option<string>, matches: (string, string) -> bool)
    : (r: Result<LoginOk>)
    ensures !(Truthy(email) && Truthy(password)) ==> r == Err(FillAllFields)
    ensures Truthy(email) && Truthy(password) && FindByEmail(db.users, email.value).None? ==> r == Err(NoAccount)
    ensures (Truthy(email) && Truthy(password) && FindByEmail(db.users, email.value).Some?
             && !matches(password.value, db.users[FindByEmail(db.users, email.value).value].password))
            ==> r == Err(IncorrectPassword)
    ensures r.Ok? <==>
      && Truthy(email) && Truthy(password) && FindByEmail(db.users, email.value).Some?
      && matches(password.value, db.users[FindByEmail(db.users, email.value).value].password)
    ensures r.Ok? ==>
      var u := db.users[FindByEmail(db.users, email.value).value];
      r.value == LoginOk(u.name, u.id) && u.email == email.value
  {
    if !(Truthy(email) && Truthy(password)) then Err(FillAllFields)
    else match FindByEmail(db.users, email.value)
      case None => Err(NoAccount)
      case Some(k) =>
        if !matches(password.value, db.users[k].password) then Err(IncorrectPassword)
        else Ok(LoginOk(db.users[k].name, db.users[k].id))
  }

  /** After signing up and verifying, the new account logs in with the
      signup password, whenever the password matches its own hash. */
  lemma LoginAfterSignup(db: Db, env: Env, body: SignupBody, hash: string -> string, code: nat,
                         userId: Id, now: int, later: int, matches: (string, string) -> bool)
    requires 100000 <= code <= 999999
    requires Signup(db, env, body, hash, code, now).Ok?
    requires hash(body.password.value) != "" && HandleFor(body.email.value) != ""
    requires forall k | 0 <= k < |db.users| ::
      db.users[k].id != userId && db.users[k].userhandle != HandleFor(body.email.value)
    requires matches(body.password.value, hash(body.password.value))
    ensures var db1 := Signup(db, env, body, hash, code, now).value;
            var db2 := VerifyOtp(db1, env, body.email, Some(Otp(code)), userId, later).value.db;
            Login(db2, body.email, body.password, matches) == Ok(LoginOk(body.name.value, userId))
  {
    SignupThenVerify(db, env, body, hash, code, userId, now, later);
    var db1 := Signup(db, env, body, hash, code, now).value;
    var db2 := VerifyOtp(db1, env, body.email, Some(Otp(code)), userId, later).value.db;
    var e := body.email.value;
    var n := |db.users|;
    assert FindByEmail(db.users, e).None?;
    assert db2.users[n] == Promoted(db1.pending[e], userId, later);
    assert db2.users[n].email == e;
  }

  /** POST /api/auth/forgot-password. A falsy e-mail is 400, an unknown one
      404. Otherwise the e-mail's reset request is created or overwritten
      with a fresh OTP expiring ten minutes ahead (`findOneAndUpdate` with
      `upsert`), so each e-mail has one live OTP. */
  function ForgotPassword(db: Db, email: Option<string>, code: nat, now: int): (r: Result<Db>)
    requires 100000 <= code <= 999999
    ensures !Truthy(email) ==> r == Err(EmailRequired)
    ensures Truthy(email) && FindByEmail(db.users, email.value).None? ==> r == Err(UserNotFound)
    ensures r.Ok? <==> Truthy(email) && FindByEmail(db.users, email.value).Some?
    ensures r.Ok? ==>
      r.value == db.(resets := db.resets[email.value := ResetRequest(email.value, Otp(code), now + OtpLifetimeMs)])
  {
    if !Truthy(email) then Err(EmailRequired)
    else if FindByEmail(db.users, email.value).None? then Err(UserNotFound)
    else Ok(db.(resets := db.resets[email.value := ResetRequest(email.value, Otp(code), now + OtpLifetimeMs)]))
  }

  /** The reset request body. */
  datatype ResetBody = ResetBody(email: Option<string>, otp: Option<string>, newPassword: Option<string>)

  /** The request matches (e-mail, OTP) and has not expired. */
  predicate ResetUsable(db: Db, email: string, otp: string, now: int) {
    email in db.resets && db.resets[email].otp == otp && !(db.resets[email].expiresAt < now)
  }

  /** The reset's writes: the first user with the e-mail gets the new hashed
      password (no user, no change) and the e-mail's request is deleted. */
  function ApplyReset(db: Db, email: string, newPassword: string, hash: string -> string): (r: Db)
    ensures r.resets == db.resets - {email}
    ensures r == db.(users := r.users, resets := r.resets)
    ensures |r.users| == |db.users|
    ensures forall k | 0 <= k < |db.users| ::
      r.users[k] == if Some(k) == FindByEmail(db.users, email)
                    then db.users[k].(password := hash(newPassword))
                    else db.users[k]
  {
    var users := match FindByEmail(db.users, email)
      case Some(k) => db.users[k := db.users[k].(password := hash(newPassword))]
      case None => db.users;
    db.(users := users, resets := db.resets - {email})
  }

  /** POST /api/auth/reset-password. Any falsy field is 400; a request that
      does not match or has expired is 400. Otherwise the first user with
      the e-mail gets the new hashed password (no user, no change) and the
      request is deleted. */
  function ResetPassword(db: Db, body: ResetBody, hash: string -> string, now: int): (r: Result<Db>)
    ensures !(Truthy(body.email) && Truthy(body.otp) && Truthy(body.newPassword)) ==> r == Err(AllFieldsRequired)
    ensures r.Ok? <==> Truthy(body.email) && Truthy(body.otp) && Truthy(body.newPassword)
                       && ResetUsable(db, body.email.value, body.otp.value, now)
    ensures r.Err? && Truthy(body.email) && Truthy(body.otp) && Truthy(body.newPassword) ==> r.error == InvalidOrExpiredOtp
    ensures r.Ok? ==>
      var e := body.email.value;
      && r.value.resets == db.resets - {e}
      && r.value == db.(users := r.value.users, resets := r.value.resets)
      && |r.value.users| == |db.users|
      && forall k | 0 <= k < |db.users| ::
           r.value.users[k] == if Some(k) == FindByEmail(db.users, e)
                               then db.users[k].(password := hash(body.newPassword.value))
                               else db.users[k]
  {
    if !(Truthy(body.email) && Truthy(body.otp) && Truthy(body.newPassword)) then Err(AllFieldsRequired)
    else
      var e := body.email.value;
      if !ResetUsable(db, e, body.otp.value, now) then Err(InvalidOrExpiredOtp)
      else Ok(ApplyReset(db, e, body.newPassword.value, hash))
  }

  /** Both password routes keep at most one reset request per e-mail. */
  lemma ResetsStayKeyed(db: Db, email: Option<string>, code: nat, body: ResetBody, hash: string -> string, now: int)
    requires 100000 <= code <= 999999
    requires ResetKeyed(db.resets)
    ensures ForgotPassword(db, email, code, now).Ok? ==> ResetKeyed(ForgotPassword(db, email, code, now).value.resets)
    ensures ResetPassword(db, body, hash, now).Ok? ==> ResetKeyed(ResetPassword(db, body, hash, now).value.resets)
  {
  }

  /** Requesting a reset and then presenting the mailed OTP within ten
      minutes sets the account's password and uses the request up. */
  lemma ForgotThenReset(db: Db, email: string, code: nat, newPassword: string, hash: string -> string,
                        now: int, later: int)
    requires 100000 <= code <= 999999
    requires ForgotPassword(db, Some(email), code, now).Ok?
    requires newPassword != "" && later <= now + OtpLifetimeMs
    ensures var db1 := ForgotPassword(db, Some(email), code, now).value;
            var r := ResetPassword(db1, ResetBody(Some(email), Some(Otp(code)), Some(newPassword)), hash, later);
            && r.Ok?
            && r.value.users[FindByEmail(db.users, email).value].password == hash(newPassword)
            && email !in r.value.resets
  {
  }

  /** After a completed reset the account logs in with the new password,
      whenever the password matches its own hash. */
  lemma LoginAfterReset(db: Db, email: string, code: nat, newPassword: string, hash: string -> string,
                        now: int, later: int, matches: (string, string) -> bool)
    requires 100000 <= code <= 999999
    requires ForgotPassword(db, Some(email), code, now).Ok?
    requires newPassword != "" && later <= now + OtpLifetimeMs
    requires matches(newPassword, hash(newPassword))
    ensures var db1 := ForgotPassword(db, Some(email), code, now).value;
            var db2 := ResetPassword(db1, ResetBody(Some(email), Some(Otp(code)), Some(newPassword)), hash, later).value;
            var k := FindByEmail(db.users, email).value;
            Login(db2, Some(email), Some(newPassword), matches) == Ok(LoginOk(db.users[k].name, db.users[k].id))
  {
    ForgotThenReset(db, email, code, newPassword, hash, now, later);
    var db1 := ForgotPassword(db, Some(email), code, now).value;
    var db2 := ResetPassword(db1, ResetBody(Some(email), Some(Otp(code)), Some(newPassword)), hash, later).value;
    FirstIndexAgrees(db.users, (u: User) => u.email == email, db2.users, (u: User) => u.email == email);
  }

  /** A reset request cannot be used twice. */
  lemma ResetIsOneShot(db: Db, body: ResetBody, hash: string -> string, now: int, later: int)
    requires ResetPassword(db, body, hash, now).Ok?
    ensures ResetPassword(ResetPassword(db, body, hash, now).value, body, hash, later).Err?
  {
  }

  /** An OTP as `express.json()` hands it to the controller: a JSON string,
      or an object holding the query operator `$ne`. Placed in a filter,
      such an object is applied by Mongoose as an operator whose operand is
      cast to the schema's String type. Other JSON shapes are not modelled. */
  datatype OtpValue = OtpString(s: string) | OtpNotEqual(operand: string)

  /** `!otp` is false for a non-empty string and for every object. */
  predicate OtpTruthy(otp: Option<OtpValue>) {
    otp.Some? && (otp.value.OtpNotEqual? || otp.value.s != "")
  }

  /** Whether the filter `{ otp }` matches a record holding `stored`. */
  predicate OtpMatches(stored: string, otp: OtpValue) {
    match otp
    case OtpString(s) => stored == s
    case OtpNotEqual(x) => stored != x
  }

  /** The OTP as the string routes above take it; `None` for an object. */
  function OtpText(otp: Option<OtpValue>): (r: Option<string>)
    ensures r.Some? <==> otp.Some? && otp.value.OtpString?
    ensures r.Some? ==> r.value == otp.value.s
  {
    match otp
    case Some(OtpString(s)) => Some(s)
    case _ => None
  }

  /** POST /api/auth/verify-otp as written, for an OTP that may be an
      operator object. A string OTP is handled as `VerifyOtp` handles it.
      An object passes the `!otp` check and is never `===` the dev OTP, so
      it goes to `findOne({ email, otp })`, where `{ $ne: x }` matches any
      pending record whose OTP is not `x`. */
  function VerifyOtpRaw(db: Db, env: Env, email: Option<string>, otp: Option<OtpValue>, userId: Id, now: int)
    : (r: Result<Step<string>>)
    ensures !(Truthy(email) && OtpTruthy(otp)) ==> r == Err(OtpRequired)
    ensures (otp.None? || otp.value.OtpString?) ==> r == VerifyOtp(db, env, email, OtpText(otp), userId, now)
    ensures Truthy(email) && otp.Some? && otp.value.OtpNotEqual? ==>
      && (email.value in db.pending && OtpMatches(db.pending[email.value].otp, otp.value)
          ==> r == Promote(db, email.value, db.pending[email.value], userId, now))
      && (!(email.value in db.pending && OtpMatches(db.pending[email.value].otp, otp.value))
          ==> r == Err(InvalidOrExpiredOtp))
  {
    match otp
    case Some(OtpNotEqual(x)) =>
      if !Truthy(email) then Err(OtpRequired)
      else if email.value in db.pending && db.pending[email.value].otp != x then
        Promote(db, email.value, db.pending[email.value], userId, now)
      else Err(InvalidOrExpiredOtp)
    case _ => VerifyOtp(db, env, email, OtpText(otp), userId, now)
  }

  /** As written, `{ "$ne": "" }` completes any signup, in production too,
      whatever OTP was mailed: the outcome is the one the mailed OTP gives. */
  lemma OperatorOtpCompletesSignup(db: Db, env: Env, body: SignupBody, hash: string -> string, code: nat,
                                   userId: Id, now: int, later: int)
    requires 100000 <= code <= 999999
    requires Signup(db, env, body, hash, code, now).Ok?
    requires hash(body.password.value) != "" && HandleFor(body.email.value) != ""
    requires forall k | 0 <= k < |db.users| ::
      db.users[k].id != userId && db.users[k].userhandle != HandleFor(body.email.value)
    ensures var db1 := Signup(db, env, body, hash, code, now).value;
            var r := VerifyOtpRaw(db1, env, body.email, Some(OtpNotEqual("")), userId, later);
            r.Ok? && r == VerifyOtp(db1, env, body.email, Some(Otp(code)), userId, later)
  {
    SignupThenVerify(db, env, body, hash, code, userId, now, later);
    var db1 := Signup(db, env, body, hash, code, now).value;
    var e := body.email.value;
    assert db1.pending[e].otp == Otp(code) != "";
  }

  /** The verify route as intended: only a string is an OTP, and any other
      value is refused as a wrong OTP. For strings it is the route as
      written. */
  function VerifyOtpStrict(db: Db, env: Env, email: Option<string>, otp: Option<OtpValue>, userId: Id, now: int)
    : (r: Result<Step<string>>)
    ensures (otp.None? || otp.value.OtpString?) ==> r == VerifyOtpRaw(db, env, email, otp, userId, now)
    ensures otp.Some? && otp.value.OtpNotEqual? ==>
      r == Err(if Truthy(email) then InvalidOrExpiredOtp else OtpRequired)
  {
    match otp
    case Some(OtpNotEqual(_)) => if Truthy(email) then Err(InvalidOrExpiredOtp) else Err(OtpRequired)
    case _ => VerifyOtp(db, env, email, OtpText(otp), userId, now)
  }

  /** With the intended verify route, production accepts only the OTP stored
      for the e-mail, sent as a string. */
  lemma StrictVerifyNeedsStoredOtp(db: Db, env: Env, email: Option<string>, otp: Option<OtpValue>, userId: Id,
                                   now: int)
    requires env.nodeEnv == Some("production")
    requires VerifyOtpStrict(db, env, email, otp, userId, now).Ok?
    ensures Truthy(email) && email.value in db.pending && otp == Some(OtpString(db.pending[email.value].otp))
  {
    NoBypassInProduction(db, env, email, OtpText(otp), userId, now);
  }

  /** The reset request body, with an OTP that may be an operator object. */
  datatype RawResetBody = RawResetBody(email: Option<string>, otp: Option<OtpValue>, newPassword: Option<string>)

  /** The string body a raw body with a string OTP stands for. */
  function AsResetBody(body: RawResetBody): ResetBody {
    ResetBody(body.email, OtpText(body.otp), body.newPassword)
  }

  /** POST /api/auth/reset-password as written, for an OTP that may be an
      operator object. A string OTP is handled as `ResetPassword` handles
      it. An object passes the `!otp` check, and `findOne({ email, otp })`
      with `{ $ne: x }` matches the e-mail's request whenever its OTP is not
      `x`; only the expiry is then checked. */
  function ResetPasswordRaw(db: Db, body: RawResetBody, hash: string -> string, now: int): (r: Result<Db>)
    ensures !(Truthy(body.email) && OtpTruthy(body.otp) && Truthy(body.newPassword)) ==> r == Err(AllFieldsRequired)
    ensures (body.otp.None? || body.otp.value.OtpString?) ==> r == ResetPassword(db, AsResetBody(body), hash, now)
    ensures Truthy(body.email) && Truthy(body.newPassword) && body.otp.Some? && body.otp.value.OtpNotEqual? ==>
      (r.Ok? <==> var e := body.email.value;
                  e in db.resets && OtpMatches(db.resets[e].otp, body.otp.value) && !(db.resets[e].expiresAt < now))
    ensures r.Ok? ==> r.value == ApplyReset(db, body.email.value, body.newPassword.value, hash)
  {
    match body.otp
    case Some(OtpNotEqual(x)) =>
      if !(Truthy(body.email) && Truthy(body.newPassword)) then Err(AllFieldsRequired)
      else
        var e := body.email.value;
        if !(e in db.resets && db.resets[e].otp != x && !(db.resets[e].expiresAt < now)) then Err(InvalidOrExpiredOtp)
        else Ok(ApplyReset(db, e, body.newPassword.value, hash))
    case _ => ResetPassword(db, AsResetBody(body), hash, now)
  }

  /** As written, after a forgot-password request anyone who knows the
      e-mail resets the password within ten minutes with `{ "$ne": "" }`
      for the OTP: whatever OTP was mailed, the outcome is the one the
      mailed OTP gives. */
  lemma OperatorOtpResetsPassword(db: Db, email: string, code: nat, newPassword: string, hash: string -> string,
                                  now: int, later: int)
    requires 100000 <= code <= 999999
    requires ForgotPassword(db, Some(email), code, now).Ok?
    requires newPassword != "" && later <= now + OtpLifetimeMs
    ensures var db1 := ForgotPassword(db, Some(email), code, now).value;
            var r := ResetPasswordRaw(db1, RawResetBody(Some(email), Some(OtpNotEqual("")), Some(newPassword)),
                                      hash, later);
            && r.Ok?
            && r == ResetPassword(db1, ResetBody(Some(email), Some(Otp(code)), Some(newPassword)), hash, later)
            && r.value.users[FindByEmail(db.users, email).value].password == hash(newPassword)
  {
    ForgotThenReset(db, email, code, newPassword, hash, now, later);
    var db1 := ForgotPassword(db, Some(email), code, now).value;
    assert db1.resets[email].otp == Otp(code) != "";
  }

  /** The reset route as intended: only a string is an OTP, and any other
      value is refused as a wrong OTP. */
  function ResetPasswordStrict(db: Db, body: RawResetBody, hash: string -> string, now: int): (r: Result<Db>)
    ensures (body.otp.None? || body.otp.value.OtpString?) ==> r == ResetPasswordRaw(db, body, hash, now)
    ensures body.otp.Some? && body.otp.value.OtpNotEqual? ==> r.Err?
    ensures r.Ok? ==> body.otp.Some? && body.otp.value.OtpString?
                      && ResetUsable(db, body.email.value, body.otp.value.s, now)
  {
    match body.otp
    case Some(OtpNotEqual(_)) =>
      if Truthy(body.email) && Truthy(body.newPassword) then Err(InvalidOrExpiredOtp) else Err(AllFieldsRequired)
    case _ => ResetPassword(db, AsResetBody(body), hash, now)
  }
}
