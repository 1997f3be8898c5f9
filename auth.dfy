/** The request guards: `authenticateToken` (bearer-token extraction, token
    verification, user lookup) and `requireRole`. Token verification and the
    user lookup are parameters: whatever functions the deployment supplies. */
module Auth {
  import opened Common
  import opened Model

  datatype AuthError =
    | TokenRequired            // 401 "Access token required"
    | InvalidToken             // 403 "Invalid or expired token"
    | UserNotFound             // 401 "Invalid token - user not found"
    | AuthenticationRequired   // 401 "Authentication required"
    | InsufficientPermissions  // 403 "Insufficient permissions"

  /** The HTTP status each refusal is answered with. */
  function StatusCode(e: AuthError): (code: int)
    ensures code == 401 <==> e in {TokenRequired, UserNotFound, AuthenticationRequired}
    ensures code == 403 <==> e in {InvalidToken, InsufficientPermissions}
  {
    match e
    case TokenRequired => 401
    case InvalidToken => 403
    case UserNotFound => 401
    case AuthenticationRequired => 401
    case InsufficientPermissions => 403
  }

  // ---------------------------------------------------------------------------
  // `authHeader.split(' ')`

  predicate NoSpace(s: string) {
    ' ' !in s
  }

  /** Position of the first space, if any. */
  function FirstSpace(s: string): (r: Option<nat>)
    ensures r.Some? ==> r.value < |s| && s[r.value] == ' ' && NoSpace(s[..r.value])
    ensures r.None? ==> NoSpace(s)
  {
    if s == [] then None
    else if s[0] == ' ' then Some(0)
    else match FirstSpace(s[1..])
      case None => None
      case Some(k) =>
        assert s[..k + 1] == [s[0]] + s[1..][..k];
        Some(k + 1)
  }

  /** The fields joined back with single spaces. */
  function Join(fields: seq<string>): string
    requires |fields| >= 1
  {
    if |fields| == 1 then fields[0] else fields[0] + " " + Join(fields[1..])
  }

  /** `s.split(' ')`: the pieces between single spaces, empty pieces included. */
  function Split(s: string): (r: seq<string>)
    ensures |r| >= 1
    ensures forall i :: 0 <= i < |r| ==> NoSpace(r[i])
    ensures Join(r) == s
    decreases |s|
  {
    match FirstSpace(s)
    case None => [s]
    case Some(k) =>
      var rest := Split(s[k + 1..]);
      assert s == s[..k] + " " + s[k + 1..];
      assert ([s[..k]] + rest)[1..] == rest;
      [s[..k]] + rest
  }

  /** Splitting undoes joining fields that hold no space. */
  lemma {:induction false} SplitJoin(fields: seq<string>)
    requires |fields| >= 1
    requires forall i :: 0 <= i < |fields| ==> NoSpace(fields[i])
    ensures Split(Join(fields)) == fields
  {
    var s := Join(fields);
    if |fields| == 1 {
      assert FirstSpace(s).None?;
    } else {
      var f := fields[0];
      var t := Join(fields[1..]);
      assert s == f + " " + t;
      FirstSpaceAfter(f, t);
      assert s[|f| + 1..] == t;
      assert s[..|f|] == f;
      SplitJoin(fields[1..]);
    }
  }

  lemma {:induction false} FirstSpaceAfter(f: string, t: string)
    requires NoSpace(f)
    ensures FirstSpace(f + " " + t) == Some(|f|)
  {
    var s := f + " " + t;
    if f != [] {
      assert f[0] in f;
      assert s[1..] == f[1..] + " " + t;
      FirstSpaceAfter(f[1..], t);
    }
  }

  /** `authHeader && authHeader.split(' ')[1]`, with a missing or empty
      second field (both falsy) read as no token. An empty header is falsy. */
  function Token(header: Option<string>): (r: Option<string>)
    ensures r.Some? ==> header.Some? && |Split(header.value)| >= 2 && r.value == Split(header.value)[1] && r.value != ""
    ensures r.None? ==> header.None? || |Split(header.value)| < 2 || Split(header.value)[1] == ""
  {
    if header.None? || header.value == "" then None
    else
      var fields := Split(header.value);
      if |fields| >= 2 && fields[1] != "" then Some(fields[1]) else None
  }

  /** Joined fields without spaces yield their second field as the token. */
  lemma TokenOfFields(fields: seq<string>)
    requires |fields| >= 2 && fields[1] != ""
    requires forall i :: 0 <= i < |fields| ==> NoSpace(fields[i])
    ensures Token(Some(Join(fields))) == Some(fields[1])
  {
    SplitJoin(fields);
    assert Join(fields) == fields[0] + " " + Join(fields[1..]);
  }

  /** The first field is never looked at: any scheme word (or none at all)
      followed by a space and the token yields the token, whatever follows. */
  lemma AnySchemeAccepted(scheme: string, token: string, rest: seq<string>)
    requires NoSpace(scheme) && NoSpace(token) && token != ""
    requires forall i :: 0 <= i < |rest| ==> NoSpace(rest[i])
    ensures Token(Some(Join([scheme, token] + rest))) == Some(token)
  {
    var fields := [scheme, token] + rest;
    forall i | 0 <= i < |fields| ensures NoSpace(fields[i]) {
      if i >= 2 {
        assert fields[i] == rest[i - 2];
      }
    }
    TokenOfFields(fields);
  }

  /** A header with no space in it carries no token. */
  lemma NoSpaceNoToken(header: string)
    requires NoSpace(header)
    ensures Token(Some(header)) == None
  {
    SplitJoin([header]);
  }

  // ---------------------------------------------------------------------------
  // The decision chains

  /** `authenticateToken`: no token is 401, a token `verify` rejects is 403,
      a verified user id with no user row is 401; otherwise the user row is
      attached to the request. `verify` stands for `jwt.verify` with the
      server's secret and `lookup` for the users query. */
  function Authenticate(header: Option<string>, verify: string -> Option<UserId>, lookup: UserId -> Option<User>)
    : (r: Result<User, AuthError>)
    ensures Token(header).None? ==> r == Failure(TokenRequired)
    ensures Token(header).Some? && verify(Token(header).value).None? ==> r == Failure(InvalidToken)
    ensures Token(header).Some? && verify(Token(header).value).Some? && lookup(verify(Token(header).value).value).None?
      ==> r == Failure(UserNotFound)
    ensures r.Success? <==>
      Token(header).Some? && verify(Token(header).value).Some? && lookup(verify(Token(header).value).value).Some?
    ensures r.Success? ==> r.value == lookup(verify(Token(header).value).value).value
  {
    match Token(header)
    case None => Failure(TokenRequired)
    case Some(token) =>
      match verify(token)
      case None => Failure(InvalidToken)
      case Some(userId) =>
        match lookup(userId)
        case None => Failure(UserNotFound)
        case Some(user) => Success(user)
  }

  /** `requireRole(roles)`: None means the request proceeds. */
  function RequireRole(user: Option<User>, roles: seq<Role>): (r: Option<AuthError>)
    ensures user.None? ==> r == Some(AuthenticationRequired)
    ensures user.Some? && user.value.role !in roles ==> r == Some(InsufficientPermissions)
    ensures r.None? <==> user.Some? && user.value.role in roles
  {
    if user.None? then Some(AuthenticationRequired)
    else if user.value.role !in roles then Some(InsufficientPermissions)
    else None
  }

  /** The chain every protected route runs: authentication, then the role
      check, which can only refuse with 403 once authentication passed. */
  function Guard(header: Option<string>, verify: string -> Option<UserId>, lookup: UserId -> Option<User>, roles: seq<Role>)
    : (r: Result<User, AuthError>)
    ensures Authenticate(header, verify, lookup).Failure? ==> r == Authenticate(header, verify, lookup)
    ensures Authenticate(header, verify, lookup).Success? ==>
      (r.Success? <==> Authenticate(header, verify, lookup).value.role in roles)
    ensures Authenticate(header, verify, lookup).Success? && r.Failure? ==> r.error == InsufficientPermissions
  {
    match Authenticate(header, verify, lookup)
    case Failure(e) => Failure(e)
    case Success(user) =>
      match RequireRole(Some(user), roles)
      case Some(e) => Failure(e)
      case None => Success(user)
  }

  /** A buyer can never pass a seller-only route and vice versa. */
  lemma RolesExclusive(user: User)
    ensures user.role == Buyer ==> RequireRole(Some(user), [Seller]) == Some(InsufficientPermissions)
    ensures user.role == Seller ==> RequireRole(Some(user), [Buyer]) == Some(InsufficientPermissions)
  {
  }
}
