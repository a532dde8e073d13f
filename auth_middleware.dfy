/**
 * The access-control gate: `authenticate` turns the `Authorization` header
 * into the current user row attached to the request, and `authorize(roles)`
 * lets through only a user whose role is listed. The first failure is what
 * `next` receives; nothing after it runs.
 */
module AuthMiddleware {
  import opened Wrappers
  import opened Errors
  import opened Users
  import opened Auth

  const BearerPrefix := "Bearer "
  const AuthenticationRequired := "Authentication required"
  const InvalidOrExpiredToken := "Invalid or expired token"
  const NoPermission := "You do not have permission to access this resource"

  predicate StartsWith(s: string, prefix: string)
  {
    |prefix| <= |s| && s[..|prefix|] == prefix
  }

  /** `s.split(sep)` for a one-character separator: the empty string splits into one empty part. */
  function Split(s: string, sep: char): (parts: seq<string>)
    ensures |parts| >= 1
    decreases |s|
  {
    if s == [] then [""]
    else if s[0] == sep then [""] + Split(s[1..], sep)
    else
      var rest := Split(s[1..], sep);
      [[s[0]] + rest[0]] + rest[1..]
  }

  /** `parts.join(sep)`. */
  function Join(parts: seq<string>, sep: char): string
    requires |parts| >= 1
    decreases |parts|
  {
    if |parts| == 1 then parts[0] else parts[0] + [sep] + Join(parts[1..], sep)
  }

  /** Joining the parts again gives back the string split. */
  lemma {:induction false} JoinSplit(s: string, sep: char)
    ensures Join(Split(s, sep), sep) == s
    decreases |s|
  {
    if s == [] {
    } else if s[0] == sep {
      JoinSplit(s[1..], sep);
      assert s == [sep] + s[1..];
    } else {
      JoinSplit(s[1..], sep);
      var rest := Split(s[1..], sep);
      if |rest| > 1 {
        assert Join(rest, sep) == rest[0] + [sep] + Join(rest[1..], sep);
      }
      assert s == [s[0]] + s[1..];
    }
  }

  /** No part contains the separator. */
  lemma {:induction false} SplitPartsLackSeparator(s: string, sep: char, i: nat)
    requires i < |Split(s, sep)|
    ensures sep !in Split(s, sep)[i]
    decreases |s|
  {
    if s == [] {
    } else if s[0] == sep {
      if i > 0 { SplitPartsLackSeparator(s[1..], sep, i - 1); }
    } else {
      var rest := Split(s[1..], sep);
      if i == 0 {
        SplitPartsLackSeparator(s[1..], sep, 0);
      } else {
        SplitPartsLackSeparator(s[1..], sep, i);
      }
    }
  }

  /** A string without the separator is a single part. */
  lemma {:induction false} SplitWithoutSeparator(p: string, sep: char)
    requires sep !in p
    ensures Split(p, sep) == [p]
    decreases |p|
  {
    if p != [] {
      SplitWithoutSeparator(p[1..], sep);
      assert p == [p[0]] + p[1..];
    }
  }

  /** A leading part without the separator comes off first. */
  lemma {:induction false} SplitAfterPart(p: string, sep: char, rest: string)
    requires sep !in p
    ensures Split(p + [sep] + rest, sep) == [p] + Split(rest, sep)
    decreases |p|
  {
    if p == [] {
      assert p + [sep] + rest == [sep] + rest;
    } else {
      SplitAfterPart(p[1..], sep, rest);
      assert (p + [sep] + rest)[1..] == p[1..] + [sep] + rest;
      assert p == [p[0]] + p[1..];
    }
  }

  /** Splitting a join of separator-free parts gives back the parts. */
  lemma {:induction false} SplitJoin(parts: seq<string>, sep: char)
    requires |parts| >= 1
    requires forall i | 0 <= i < |parts| :: sep !in parts[i]
    ensures Split(Join(parts, sep), sep) == parts
    decreases |parts|
  {
    if |parts| == 1 {
      SplitWithoutSeparator(parts[0], sep);
    } else {
      SplitJoin(parts[1..], sep);
      SplitAfterPart(parts[0], sep, Join(parts[1..], sep));
      assert parts == [parts[0]] + parts[1..];
    }
  }

  /** The first part is the longest separator-free prefix. */
  lemma {:induction false} FirstPart(s: string, sep: char)
    ensures var f := Split(s, sep)[0];
            |f| <= |s| && s[..|f|] == f && sep !in f && (|f| == |s| || s[|f|] == sep)
    decreases |s|
  {
    if s != [] && s[0] != sep {
      FirstPart(s[1..], sep);
    }
  }

  /** After the `Bearer ` prefix, the second part is the first segment of the rest. */
  lemma BearerSecondPart(header: string)
    requires StartsWith(header, BearerPrefix)
    ensures |Split(header, ' ')| >= 2
    ensures Split(header, ' ')[1] == Split(header[|BearerPrefix|..], ' ')[0]
  {
    var rest := header[|BearerPrefix|..];
    assert header == "Bearer" + [' '] + rest;
    SplitAfterPart("Bearer", ' ', rest);
  }

  /**
   * The token `authenticate` takes from the header: the header must start with
   * `Bearer `, and the token is `header.split(' ')[1]`, which must be non-empty.
   */
  function ExtractToken(header: Option<string>): (r: Result<string>)
    ensures r.Err? ==> r.error == Unauthorized(Some(AuthenticationRequired))
    ensures r.Ok? <==> && header.Some? && StartsWith(header.value, BearerPrefix)
                       && |header.value| > |BearerPrefix| && header.value[|BearerPrefix|] != ' '
    ensures r.Ok? ==> && r.value != "" && ' ' !in r.value
                      && StartsWith(header.value, BearerPrefix + r.value)
                      && (|header.value| == |BearerPrefix| + |r.value| || header.value[|BearerPrefix| + |r.value|] == ' ')
  {
    if header.None? || !StartsWith(header.value, BearerPrefix) then
      Err(Unauthorized(Some(AuthenticationRequired)))
    else
      BearerSecondPart(header.value);
      FirstPart(header.value[|BearerPrefix|..], ' ');
      var token := Split(header.value, ' ')[1];
      if token == "" then Err(Unauthorized(Some(AuthenticationRequired))) else Ok(token)
  }

  /** A header built as `Bearer <token>` from a non-empty token without spaces yields that token. */
  lemma BearerHeaderRoundTrip(token: string)
    requires token != "" && ' ' !in token
    ensures ExtractToken(Some(BearerPrefix + token)) == Ok(token)
  {
    var header := BearerPrefix + token;
    assert header[..|BearerPrefix|] == BearerPrefix;
    assert header[|BearerPrefix|] == token[0];
    var t := ExtractToken(Some(header)).value;
    assert header[|BearerPrefix|..|BearerPrefix| + |t|] == t;
    assert t == token;
  }

  /** An Express request: its `Authorization` header and the `req.user` slot the gate fills. */
  class Request {
    const authorization: Option<string>
    var user: Option<User>

    constructor (authorization: Option<string>)
      ensures this.authorization == authorization && user == None
    {
      this.authorization := authorization;
      user := None;
    }
  }

  /**
   * `authenticate`: returns what `next` is called with (`None` for `next()`).
   * A bad header fails before any token is verified; every failure of token
   * verification or user lookup becomes the same 401.
   */
  method Authenticate(req: Request, svc: UserService, verify: Verifier) returns (passed: Option<ApiError>)
    modifies req
    ensures ExtractToken(req.authorization).Err? ==>
              passed == Some(Unauthorized(Some(AuthenticationRequired))) && req.user == old(req.user)
    ensures ExtractToken(req.authorization).Ok? ==>
              var payload := verify(ExtractToken(req.authorization).value);
              && (passed.None? <==> payload.Some? && payload.value.userId in svc.users)
              && (passed.None? ==> req.user == Some(Public(svc.users[payload.value.userId])))
              && (passed.Some? ==> passed == Some(Unauthorized(Some(InvalidOrExpiredToken))) && req.user == old(req.user))
  {
    var token := ExtractToken(req.authorization);
    if token.Err? {
      passed := Some(token.error);
      return;
    }
    var user := VerifyToken(svc, token.value, verify);
    if user.Err? {
      passed := Some(Unauthorized(Some(InvalidOrExpiredToken)));
      return;
    }
    req.user := Some(user.value);
    passed := None;
  }

  /** `authorize(roles)`: 401 without a user, 403 when the user's role is not listed, otherwise pass. */
  function Authorize(roles: seq<Role>, user: Option<User>): (passed: Option<ApiError>)
    ensures user.None? ==> passed == Some(Unauthorized(Some(AuthenticationRequired)))
    ensures user.Some? ==> (passed.None? <==> user.value.role in roles)
    ensures user.Some? && passed.Some? ==> passed == Some(Forbidden(Some(NoPermission)))
  {
    if user.None? then Some(Unauthorized(Some(AuthenticationRequired)))
    else if user.value.role !in roles then Some(Forbidden(Some(NoPermission)))
    else None
  }

  /**
   * Only the user's role matters to `authorize`, and listing more roles never
   * turns a pass into a refusal.
   */
  lemma AuthorizeDecidedByRole(roles: seq<Role>, wider: seq<Role>, u1: User, u2: User)
    requires u1.role == u2.role
    requires forall r | r in roles :: r in wider
    ensures Authorize(roles, Some(u1)) == Authorize(roles, Some(u2))
    ensures Authorize(roles, Some(u1)).None? ==> Authorize(wider, Some(u2)).None?
  {
  }

  /**
   * A route guarded by `authenticate, authorize(roles)`: `authorize` runs only
   * when `authenticate` passed.
   */
  method AuthenticateThenAuthorize(req: Request, svc: UserService, verify: Verifier, roles: seq<Role>) returns (passed: Option<ApiError>)
    requires svc.Valid()
    modifies req
    ensures ExtractToken(req.authorization).Err? ==>
              passed == Some(Unauthorized(Some(AuthenticationRequired))) && req.user == old(req.user)
    ensures ExtractToken(req.authorization).Ok? ==>
              var payload := verify(ExtractToken(req.authorization).value);
              if payload.Some? && payload.value.userId in svc.users then
                req.user == Some(Public(svc.users[payload.value.userId])) && passed == Authorize(roles, req.user)
              else
                req.user == old(req.user) && passed == Some(Unauthorized(Some(InvalidOrExpiredToken)))
    ensures passed.None? ==> && req.user.Some? && req.user.value.id in svc.users
                             && req.user.value == Public(svc.users[req.user.value.id])
                             && req.user.value.role in roles
    ensures passed.Some? ==> && passed.value.isOperational
                             && (passed.value.statusCode == 401 || passed.value.statusCode == 403)
  {
    passed := Authenticate(req, svc, verify);
    if passed.Some? {
      return;
    }
    passed := Authorize(roles, req.user);
  }

  /**
   * Log in, then call a route guarded by `authenticate, authorize(roles)` with
   * the token in the header (without a header when login failed). The token
   * library must give back the claims it signs, and its tokens hold no space.
   */
  method LoginThenAccess(svc: UserService, data: LoginUserInput, sign: Signer, verify: Verifier, roles: seq<Role>)
    returns (session: Result<Session>, passed: Option<ApiError>, attached: Option<User>)
    requires svc.Valid()
    requires SignsAndVerifies(sign, verify)
    requires forall c :: sign(c) != "" && ' ' !in sign(c)
    ensures session.Err? ==> session.error == Unauthorized(Some(InvalidCredentials))
    ensures session.Err? ==> passed == Some(Unauthorized(Some(AuthenticationRequired))) && attached == None
    ensures session.Ok? ==> attached == Some(session.value.user)
    ensures session.Ok? ==> (passed.None? <==> session.value.user.role in roles)
  {
    session := Login(svc, data, sign);
    var req: Request;
    if session.Ok? {
      var token := session.value.token;
      BearerHeaderRoundTrip(token);
      req := new Request(Some(BearerPrefix + token));
    } else {
      req := new Request(None);
    }
    passed := AuthenticateThenAuthorize(req, svc, verify, roles);
    attached := req.user;
  }
}
