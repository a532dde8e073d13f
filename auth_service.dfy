/**
 * `AuthService`: login mints a token over the logged-in row's claim; token
 * verification resolves the claim's user id to the row the store holds now.
 * Signing and verification belong to the token library and are passed in.
 */
module Auth {
  import opened Wrappers
  import opened Errors
  import opened Users

  /** The claim a token carries. */
  datatype TokenPayload = TokenPayload(userId: Id, email: string, role: Role)

  /** What `login` returns. */
  datatype Session = Session(user: User, token: string)

  /** `generateToken`: signs a claim (secret and lifetime are the library's). */
  type Signer = TokenPayload -> string

  /** `verifyToken` of the token library: the claim, or nothing when the token is bad or expired. */
  type Verifier = string -> Option<TokenPayload>

  /** The token library accepts every token it signed (within its lifetime) and gives back the same claim. */
  ghost predicate SignsAndVerifies(sign: Signer, verify: Verifier)
  {
    forall c :: verify(sign(c)) == Some(c)
  }

  /** `login`: fails exactly as `loginUser` does; on success signs `{userId, email, role}` of that row. */
  method Login(svc: UserService, data: LoginUserInput, sign: Signer) returns (r: Result<Session>)
    requires svc.Valid()
    ensures r.Ok? <==> Authenticates(svc.users, svc.codec, data)
    ensures r.Err? ==> r.error == Unauthorized(Some(InvalidCredentials))
    ensures r.Ok? ==> && r.value.user.id in svc.users
                      && svc.users[r.value.user.id].email == data.email
                      && r.value.user == Public(svc.users[r.value.user.id])
                      && r.value.token == sign(TokenPayload(r.value.user.id, r.value.user.email, r.value.user.role))
  {
    var user := svc.LoginUser(data);
    if user.Err? {
      r := Err(user.error);
      return;
    }
    var u := user.value;
    var token := sign(TokenPayload(u.id, u.email, u.role));
    r := Ok(Session(u, token));
  }

  /**
   * `verifyToken`: 401 when the token yields no claim; otherwise whatever
   * `getUserById` gives for the claim's user id, so the email and role come
   * from the store, never from the claim.
   */
  method VerifyToken(svc: UserService, token: string, verify: Verifier) returns (r: Result<User>)
    ensures verify(token).None? ==> r == Err(Unauthorized(Some("Invalid token")))
    ensures verify(token).Some? ==> (r.Ok? <==> verify(token).value.userId in svc.users)
    ensures r.Ok? ==> r.value == Public(svc.users[verify(token).value.userId])
    ensures verify(token).Some? && r.Err? ==>
              r.error == NotFound(Some("User with ID " + verify(token).value.userId + " not found"))
  {
    var payload := verify(token);
    if payload.None? {
      r := Err(Unauthorized(Some("Invalid token")));
      return;
    }
    r := svc.GetUserById(payload.value.userId);
  }
}
