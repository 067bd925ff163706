/** Shared vocabulary of the backend model: identifiers, optional values,
    route errors and the JavaScript truthiness rules the routes rely on. */
module Base {

  /** A MongoDB ObjectId, in its canonical string form. */
  type Id = string

  /** A value that may be absent (`undefined` / `null` in the source). */
  datatype Option<+T> = None | Some(value: T)

  /** Every error response a modelled route can send, one constructor per
      distinct message; `Status` gives the HTTP status code. */
  datatype Error =
    | ServerError          // 500: an exception reached the route's catch block
    | InvalidUserId        // 400 "Invalid user ID"
    | UserNotFound         // 404 "User not found"
    | PostNotFound         // 404 "Post not found"
    | CommentNotFound      // 404 "Comment not found"
    | CommentTextRequired  // 400 "Comment text required"
    | ReplyTextRequired    // 400 "Reply text required"
    | MissingFields        // 400 "Missing required fields"
    | InvalidType          // 400 "Invalid notification type"
    | PhotoRequired        // 400 "Photo required"
    | SnapNotFound         // 404 "Snap not found"
    | NotOwner             // 403 "Unauthorized"
    | FillAllFields        // 400 "Please fill all the fields"
    | NotSrmEmail          // 400 "Only SRM email addresses are allowed"
    | AlreadyRegistered    // 409 "Email is already registered. Please log in."
    | OtpRequired          // 400 "OTP is required"
    | NoPendingUser        // 400 "No pending user found for dev bypass"
    | InvalidOrExpiredOtp  // 400 "Invalid or expired OTP"
    | NoAccount            // 404 "No account found for this email"
    | IncorrectPassword    // 401 "Incorrect password"
    | EmailRequired        // 400 "Email is required"
    | AllFieldsRequired    // 400 "All fields are required"
  {
    function Status(): int {
      match this
      case ServerError => 500
      case UserNotFound | PostNotFound | CommentNotFound | SnapNotFound | NoAccount => 404
      case NotOwner => 403
      case AlreadyRegistered => 409
      case IncorrectPassword => 401
      case _ => 400
    }
  }

  /** The outcome of a route: a value, or the error response it sends. */
  datatype Result<+T> = Ok(value: T) | Err(error: Error)

  /** JavaScript truthiness of an optional string: absent and "" are falsy. */
  predicate Truthy(s: Option<string>) {
    s.Some? && s.value != ""
  }

  /** JavaScript `a || fallback` where `a` is an optional string. */
  function Or(a: Option<string>, fallback: string): string {
    if Truthy(a) then a.value else fallback
  }

  /** The avatar URL used wherever a user's picture is missing. */
  const DefaultAvatar: string := "https://i.postimg.cc/bYKxqBFF/pfp.jpg"

  predicate IsHexDigit(c: char) {
    '0' <= c <= '9' || 'a' <= c <= 'f' || 'A' <= c <= 'F'
  }

  /** `ObjectId.isValid`: 24 hexadecimal digits, in either case. The same
      test decides whether a string can be cast to an ObjectId in a query;
      a failed cast makes the query throw. */
  predicate IsObjectId(s: string) {
    |s| == 24 && forall i | 0 <= i < |s| :: IsHexDigit(s[i])
  }

  /** An ObjectId as the driver renders it: 24 lower-case hexadecimal
      digits. Every stored id has this form. */
  predicate IsCanonicalId(s: string) {
    |s| == 24 && forall i | 0 <= i < |s| :: '0' <= s[i] <= '9' || 'a' <= s[i] <= 'f'
  }

  function LowerHex(c: char): char {
    if 'A' <= c <= 'F' then (c as int + 32) as char else c
  }

  /** The id a query compares with the stored ones: a valid id is cast to
      an ObjectId, which forgets the case of its letters; any other string
      is compared as it is. */
  function Canon(s: string): (r: Id)
    ensures IsObjectId(s) ==> IsCanonicalId(r)
    ensures IsObjectId(s) ==> forall i | 0 <= i < |s| :: r[i] == LowerHex(s[i])
    ensures !IsObjectId(s) ==> r == s
    ensures IsCanonicalId(s) ==> r == s
  {
    if IsObjectId(s) then seq(|s|, i requires 0 <= i < |s| => LowerHex(s[i])) else s
  }

  /** Casting twice is casting once. */
  lemma CanonIdempotent(s: string)
    ensures Canon(Canon(s)) == Canon(s)
  {
  }

  /** Two valid spellings of one id that differ only in the case of their
      letters cast to the same ObjectId. */
  lemma CanonIgnoresCase(s: string, t: string)
    requires IsObjectId(s) && IsObjectId(t)
    requires forall i | 0 <= i < 24 :: LowerHex(s[i]) == LowerHex(t[i])
    ensures Canon(s) == Canon(t)
  {
  }

  /** The first position whose element satisfies `p` (what `findOne`,
      `findById` and `DocumentArray.id` return in natural order). */
  function FirstIndex<T>(xs: seq<T>, p: T -> bool): (r: Option<nat>)
    ensures r.Some? ==> r.value < |xs| && p(xs[r.value])
    ensures r.Some? ==> forall j | 0 <= j < r.value :: !p(xs[j])
    ensures r.None? ==> forall j | 0 <= j < |xs| :: !p(xs[j])
  {
    if |xs| == 0 then None
    else if p(xs[0]) then Some(0)
    else match FirstIndex(xs[1..], p)
      case None => None
      case Some(k) => Some(k + 1)
  }

  /** The elements of `xs` that satisfy `p`, in their original order. */
  function Filter<T(!new)>(xs: seq<T>, p: T -> bool): (r: seq<T>)
    ensures |r| <= |xs|
    ensures forall x :: multiset(r)[x] == if p(x) then multiset(xs)[x] else 0
    ensures forall i | 0 <= i < |r| :: p(r[i])
  {
    if |xs| == 0 then []
    else
      assert xs == [xs[0]] + xs[1..];
      (if p(xs[0]) then [xs[0]] else []) + Filter(xs[1..], p)
  }

  /** Two sequences that agree position by position on the searched-for
      property have the same first match. */
  lemma FirstIndexAgrees<T, U>(xs: seq<T>, p: T -> bool, ys: seq<U>, q: U -> bool)
    requires |xs| == |ys|
    requires forall k | 0 <= k < |xs| :: p(xs[k]) == q(ys[k])
    ensures FirstIndex(xs, p) == FirstIndex(ys, q)
  {
    var a, b := FirstIndex(xs, p), FirstIndex(ys, q);
    if a.Some? {
      assert q(ys[a.value]);
    }
    if b.Some? {
      assert p(xs[b.value]);
    }
  }

  /** Appending an element leaves an existing first match where it was;
      without one, the new element is the first match if it matches. */
  lemma {:induction false} FirstIndexSnoc<T>(xs: seq<T>, x: T, p: T -> bool)
    ensures FirstIndex(xs + [x], p) ==
      if FirstIndex(xs, p).Some? then FirstIndex(xs, p)
      else if p(x) then Some(|xs|) else None
  {
    if |xs| > 0 {
      assert (xs + [x])[1..] == xs[1..] + [x];
      FirstIndexSnoc(xs[1..], x, p);
    }
  }
}
