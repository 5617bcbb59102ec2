/** The access policy guard: the `verifyToken` and `verifyAdmin` middlewares,
    their composition in front of a route handler, and the self-only check of
    `GET /users/admin/:email`. Token verification (`jwt.verify`) is a foreign
    library and is passed in as an oracle from token text to decoded claims. */
module Auth {
  import opened Documents
  import opened Entities
  import opened Accounts

  /** The decoded token payload. `/jwt` signs whatever body the client sends,
      so besides the email a token may carry a role claim of its own. */
  datatype Claims = Claims(email: string, role: Option<string>)

  /** What a route sends back: a JSON value, or an error status with its message. */
  datatype Response<+T> = Ok(value: T) | Deny(status: nat, message: string)

  const ForbiddenAccess: string := "forbidden access"
  const UnauthorizedAccess: string := "unauthorized access"

  /** JavaScript `s.split(sep)` for a one-character separator: the pieces
      between separators, empty pieces included. */
  function Split(s: string, sep: char): (r: seq<string>)
    ensures |r| >= 1
    ensures forall i :: 0 <= i < |r| ==> sep !in r[i]
    ensures |r| == 1 <==> sep !in s
    decreases |s|
  {
    if s == [] then [""]
    else if s[0] == sep then [""] + Split(s[1..], sep)
    else
      var rest := Split(s[1..], sep);
      [[s[0]] + rest[0]] + rest[1..]
  }

  /** `parts.join(sep)`. */
  function Join(parts: seq<string>, sep: char): string
    requires |parts| >= 1
    decreases |parts|
  {
    if |parts| == 1 then parts[0] else parts[0] + [sep] + Join(parts[1..], sep)
  }

  /** Splitting loses nothing: joining the pieces gives the text back. */
  lemma {:induction false} JoinSplit(s: string, sep: char)
    ensures Join(Split(s, sep), sep) == s
    decreases |s|
  {
    if s != [] {
      JoinSplit(s[1..], sep);
      var rest := Split(s[1..], sep);
      if s[0] != sep && |rest| > 1 {
        assert ([s[0]] + rest[0]) + [sep] + Join(rest[1..], sep) == [s[0]] + (rest[0] + [sep] + Join(rest[1..], sep));
      }
    }
  }

  /** The text before the first separator is the first piece. */
  lemma {:induction false} SplitAtFirst(a: string, b: string, sep: char)
    requires sep !in a
    ensures Split(a + [sep] + b, sep) == [a] + Split(b, sep)
  {
    if a != [] {
      assert (a + [sep] + b)[1..] == a[1..] + [sep] + b;
      SplitAtFirst(a[1..], b, sep);
      assert [a[0]] + a[1..] == a;
    } else {
      assert (a + [sep] + b)[1..] == b;
    }
  }

  /** `authorization.split(' ')[1]`: the second space-separated piece of the
      header, or `undefined` when the header holds no space. */
  function TokenOf(header: string): (r: Option<string>)
    ensures r.None? <==> ' ' !in header
    ensures r.Some? ==> ' ' !in r.value
  {
    var parts := Split(header, ' ');
    if |parts| > 1 then Some(parts[1]) else None
  }

  /** For a well-formed `Bearer <token>` header the token is what follows the
      scheme. */
  lemma BearerToken(scheme: string, token: string)
    requires ' ' !in scheme && ' ' !in token
    ensures TokenOf(scheme + " " + token) == Some(token)
  {
    SplitAtFirst(scheme, token, ' ');
    JoinSplit(token, ' ');
  }

  /** `verifyToken`: a missing or empty header, a header without a token, an
      empty token (which `jwt.verify` refuses before checking any signature),
      or a token the verifier rejects all give 401; otherwise the decoded
      claims are attached and the request proceeds. */
  function VerifyToken(header: Option<string>, verify: string -> Option<Claims>): (r: Response<Claims>)
    ensures header.None? ==> r == Deny(401, ForbiddenAccess)
    ensures r.Ok? <==>
      header.Some? && TokenOf(header.value).Some? && TokenOf(header.value).value != "" &&
      verify(TokenOf(header.value).value).Some?
    ensures r.Ok? ==> r.value == verify(TokenOf(header.value).value).value
    ensures r.Deny? ==> r.status == 401 && r.message == ForbiddenAccess
  {
    if header.None? || header.value == "" then Deny(401, ForbiddenAccess)
    else match TokenOf(header.value)
      case None => Deny(401, ForbiddenAccess)
      case Some(token) =>
        if token == "" then Deny(401, ForbiddenAccess)
        else match verify(token)
        case None => Deny(401, ForbiddenAccess)
        case Some(claims) => Ok(claims)
  }

  /** `verifyAdmin`: look the caller's email up in the current directory and
      pass only when that record's role is exactly "admin". */
  function VerifyAdmin(users: seq<Doc<User>>, claims: Claims): (r: Response<Claims>)
    ensures r.Ok? ==> r.value == claims
    ensures r.Deny? ==> r.status == 403 && r.message == ForbiddenAccess
  {
    if IsAdmin(users, claims.email) then Ok(claims) else Deny(403, ForbiddenAccess)
  }

  /** Express middleware chaining: a denial ends the request, so the next
      handler is consulted only with claims a check has passed. */
  function Then<T>(check: Response<Claims>, next: Claims -> Response<T>): Response<T>
  {
    match check
    case Deny(status, message) => Deny(status, message)
    case Ok(claims) => next(claims)
  }

  /** `verifyToken` followed by `verifyAdmin`. */
  function AdminGate(header: Option<string>, verify: string -> Option<Claims>, users: seq<Doc<User>>): (r: Response<Claims>)
    ensures VerifyToken(header, verify).Deny? ==> r == Deny(401, ForbiddenAccess)
    ensures VerifyToken(header, verify).Ok? ==> r == VerifyAdmin(users, VerifyToken(header, verify).value)
    ensures r.Ok? ==> r == VerifyToken(header, verify)
  {
    Then(VerifyToken(header, verify), (claims: Claims) => VerifyAdmin(users, claims))
  }

  /** The admin gate passes exactly when the token verifies and the directory
      currently holds an admin record for the token's email; whatever role
      the token itself claims plays no part, so an account demoted or
      removed since the token was issued is refused with 403. */
  lemma AdminGateIsLive(header: Option<string>, verify: string -> Option<Claims>, users: seq<Doc<User>>)
    requires UniqueEmails(users)
    ensures AdminGate(header, verify, users).Ok? <==>
      VerifyToken(header, verify).Ok? &&
      exists d :: d in users && d.body.email == VerifyToken(header, verify).value.email && d.body.role == Some(AdminRole)
    ensures VerifyToken(header, verify).Ok? && AdminGate(header, verify, users).Deny? ==>
      AdminGate(header, verify, users) == Deny(403, ForbiddenAccess)
  {
    var t := VerifyToken(header, verify);
    if t.Ok? {
      AdminLookup(users, t.value.email);
    }
  }

  /** `GET /users/admin/:email` after `verifyToken`: 403 when the path email
      is not the caller's own; otherwise whether that account is an admin,
      false when there is no such account. */
  function AdminStatus(users: seq<Doc<User>>, email: string, claims: Claims): (r: Response<bool>)
    ensures r.Deny? <==> email != claims.email
    ensures r.Deny? ==> r == Deny(403, UnauthorizedAccess)
    ensures FindUser(users, email).None? ==> r.Ok? ==> !r.value
  {
    if email != claims.email then Deny(403, UnauthorizedAccess)
    else
      var user := FindUser(users, email);
      var admin := if user.Some? then user.value.body.role == Some(AdminRole) else false;
      Ok(admin)
  }

  /** The admin-status answer agrees with the admin gate: for the caller's own
      email it is true exactly when the directory holds an admin record. */
  lemma AdminStatusMatchesDirectory(users: seq<Doc<User>>, claims: Claims)
    requires UniqueEmails(users)
    ensures AdminStatus(users, claims.email, claims) == Ok(VerifyAdmin(users, claims).Ok?)
    ensures AdminStatus(users, claims.email, claims).value <==>
      exists d :: d in users && d.body.email == claims.email && d.body.role == Some(AdminRole)
  {
    AdminLookup(users, claims.email);
  }
}
