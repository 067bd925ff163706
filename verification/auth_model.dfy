/** The signup and password-reset records (models/PendingUser.js,
    models/PasswordResetRequest.js). Both collections have a unique index
    on `email`, so each is a map keyed by email. Neither has a TTL index:
    an expired record stays until a route deletes it. */
module AuthModel {
  import opened Base

  datatype PendingUser = PendingUser(
    name: string,
    regNumber: string,
    email: string,
    password: string,   // hashed
    otp: string,
    expiresAt: int)

  datatype ResetRequest = ResetRequest(email: string, otp: string, expiresAt: int)

  /** How long a signup or reset OTP is meant to stay valid, in milliseconds. */
  const OtpLifetimeMs: int := 10 * 60 * 1000

  /** The required fields of a pending signup are non-empty strings. */
  predicate PendingValid(p: PendingUser) {
    p.name != "" && p.regNumber != "" && p.email != "" && p.password != "" && p.otp != ""
  }

  /** Each store holds at most one record per email, under that email. */
  predicate PendingKeyed(m: map<string, PendingUser>) {
    forall e | e in m :: m[e].email == e
  }

  predicate ResetKeyed(m: map<string, ResetRequest>) {
    forall e | e in m :: m[e].email == e
  }
}
