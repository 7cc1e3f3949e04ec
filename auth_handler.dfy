/**
 * The authentication gateway's HTTP handlers (`AuthHandler`): they check
 * the bound body, forward it to the identity service's authentication RPCs
 * and, on a successful login, mint a 72-hour HS256 token for the id the
 * service reported.
 */
module AuthHandler {
  import opened Wrappers
  import opened Strconv
  import opened Rpc
  import opened Jwt
  import opened Gin
  import UserMiddleware

  /** The body of `Register`. */
  datatype Registration = Registration(username: string, password: string, repeatPassword: string)

  /** The body of `Login`, and the request both RPCs carry. */
  datatype Credentials = Credentials(username: string, password: string)

  /** `RegisterResponse` / `LoginResponse` as the gateway's client decodes them. */
  datatype AuthReply = AuthReply(id: Uint, success: bool, error: string)

  const CredentialsRequired: string := "Username and password are required"
  const PasswordsDiffer: string := "Passwords do not match"
  const Registered: string := "User registered successfully,"
  const LoginSuccessful: string := "Login successful"
  /** `generateJWT`'s lifetime: 72 hours. */
  const TokenLifetime: nat := 72 * HOUR

  /** Both fields filled in: the only check `Login` makes before calling out. */
  predicate Filled(username: string, password: string)
  {
    username != "" && password != ""
  }

  /** The checks `Register` makes before calling out. */
  predicate Forwardable(r: Registration)
  {
    Filled(r.username, r.password) && r.repeatPassword == r.password
  }

  /** What `Register` answers. */
  function RegisterReply(input: Result<Registration, string>, register: Credentials -> Call<AuthReply>): (r: Reply)
    ensures input.Failure? ==> r == Reply(StatusBadRequest, ErrorJson(input.error))
    ensures input.Success? && !Filled(input.value.username, input.value.password) ==>
      r == Reply(StatusBadRequest, ErrorJson(CredentialsRequired))
    ensures input.Success? && Filled(input.value.username, input.value.password) && !Forwardable(input.value) ==>
      r == Reply(StatusBadRequest, ErrorJson(PasswordsDiffer))
    ensures r.status == StatusOK <==>
      input.Success? && Forwardable(input.value)
      && register(Credentials(input.value.username, input.value.password)).Delivered?
      && register(Credentials(input.value.username, input.value.password)).response.success
    ensures r.status == StatusOK ==>
      r.body == OkWithId(Registered, register(Credentials(input.value.username, input.value.password)).response.id)
    ensures input.Success? && Forwardable(input.value) ==>
      match register(Credentials(input.value.username, input.value.password))
      case TransportError(m) => r == Reply(StatusInternalServerError, ErrorJson(m))
      case Delivered(res) => !res.success ==> r == Reply(StatusBadRequest, ErrorJson(res.error))
  {
    if input.Failure? then Reply(StatusBadRequest, ErrorJson(input.error))
    else if !Filled(input.value.username, input.value.password) then Reply(StatusBadRequest, ErrorJson(CredentialsRequired))
    else if input.value.repeatPassword != input.value.password then Reply(StatusBadRequest, ErrorJson(PasswordsDiffer))
    else
      match register(Credentials(input.value.username, input.value.password))
      case TransportError(m) => Reply(StatusInternalServerError, ErrorJson(m))
      case Delivered(res) =>
        if !res.success then Reply(StatusBadRequest, ErrorJson(res.error))
        else Reply(StatusOK, OkWithId(Registered, res.id))
  }

  /** `Login` ends with a token, or with an error reply. */
  datatype LoginResult = Refused(reply: Reply) | Issued(token: Minted)

  /** What `Login` answers. */
  function LoginReply(input: Result<Credentials, string>, login: Credentials -> Call<AuthReply>, now: int): (r: LoginResult)
    ensures input.Failure? ==> r == Refused(Reply(StatusBadRequest, ErrorJson(input.error)))
    ensures input.Success? && !Filled(input.value.username, input.value.password) ==>
      r == Refused(Reply(StatusBadRequest, ErrorJson(CredentialsRequired)))
    ensures r.Issued? <==>
      input.Success? && Filled(input.value.username, input.value.password)
      && login(input.value).Delivered? && login(input.value).response.success
    ensures r.Issued? ==>
      r.token == Minted(HS256, login(input.value).response.id, now + 259200)
    ensures input.Success? && Filled(input.value.username, input.value.password) ==>
      match login(input.value)
      case TransportError(m) => r == Refused(Reply(StatusInternalServerError, ErrorJson("internal error: " + m)))
      case Delivered(res) => !res.success ==> r == Refused(Reply(StatusUnauthorized, ErrorJson(res.error)))
  {
    if input.Failure? then Refused(Reply(StatusBadRequest, ErrorJson(input.error)))
    else if !Filled(input.value.username, input.value.password) then Refused(Reply(StatusBadRequest, ErrorJson(CredentialsRequired)))
    else
      match login(input.value)
      case TransportError(m) => Refused(Reply(StatusInternalServerError, ErrorJson("internal error: " + m)))
      case Delivered(res) =>
        if !res.success then Refused(Reply(StatusUnauthorized, ErrorJson(res.error)))
        else Issued(GenerateJwt(res.id, now))
  }

  /** `generateJWT`: HS256, the subject, and an expiry 72 hours after `now`. */
  function GenerateJwt(id: Uint, now: int): (t: Minted)
    ensures t.alg == HS256 && t.userId == id && t.exp == now + 259200
  {
    Issue(id, now, TokenLifetime)
  }

  class AuthHandler {
    const register: Credentials -> Call<AuthReply>
    const login: Credentials -> Call<AuthReply>

    constructor (register: Credentials -> Call<AuthReply>, login: Credentials -> Call<AuthReply>)
      ensures this.register == register && this.login == login
    {
      this.register := register;
      this.login := login;
    }

    /** `Register`: one RPC at most, and only for a body that passed the checks. */
    method Register(c: Context, input: Result<Registration, string>) returns (calls: seq<Credentials>)
      modifies c
      ensures c.replies == old(c.replies) + [RegisterReply(input, register)]
      ensures c.userID == old(c.userID) && c.aborted == old(c.aborted)
      ensures calls == if input.Success? && Forwardable(input.value)
                       then [Credentials(input.value.username, input.value.password)] else []
    {
      calls := [];
      if input.Failure? {
        c.JSON(StatusBadRequest, ErrorJson(input.error));
        return;
      }
      var body := input.value;
      if body.username == "" || body.password == "" {
        c.JSON(StatusBadRequest, ErrorJson(CredentialsRequired));
        return;
      }
      if body.repeatPassword != body.password {
        c.JSON(StatusBadRequest, ErrorJson(PasswordsDiffer));
        return;
      }
      var request := Credentials(body.username, body.password);
      calls := [request];
      var res := register(request);
      if res.TransportError? {
        c.JSON(StatusInternalServerError, ErrorJson(res.message));
        return;
      }
      if !res.response.success {
        c.JSON(StatusBadRequest, ErrorJson(res.response.error));
        return;
      }
      c.JSON(StatusOK, OkWithId(Registered, res.response.id));
    }

    /** `Login`: the token is returned beside the 200 reply that carries it. */
    method Login(c: Context, input: Result<Credentials, string>, now: int) returns (token: Option<Minted>, calls: seq<Credentials>)
      modifies c
      ensures c.userID == old(c.userID) && c.aborted == old(c.aborted)
      ensures calls == if input.Success? && Filled(input.value.username, input.value.password) then [input.value] else []
      ensures match LoginReply(input, login, now)
              case Refused(reply) => token == None && c.replies == old(c.replies) + [reply]
              case Issued(t) => token == Some(t) && c.replies == old(c.replies) + [Reply(StatusOK, OkWithId(LoginSuccessful, t.userId))]
    {
      token, calls := None, [];
      if input.Failure? {
        c.JSON(StatusBadRequest, ErrorJson(input.error));
        return;
      }
      if input.value.username == "" || input.value.password == "" {
        c.JSON(StatusBadRequest, ErrorJson(CredentialsRequired));
        return;
      }
      calls := [input.value];
      var res := login(input.value);
      if res.TransportError? {
        c.JSON(StatusInternalServerError, ErrorJson("internal error: " + res.message));
        return;
      }
      if !res.response.success {
        c.JSON(StatusUnauthorized, ErrorJson(res.response.error));
        return;
      }
      var minted := GenerateJwt(res.response.id, now);
      token := Some(minted);
      c.JSON(StatusOK, OkWithId(LoginSuccessful, res.response.id));
    }
  }

  /**
   * A token the gateway issues is admitted by the identity service's own
   * middleware as the id the login RPC reported when it is presented within
   * its 72 hours, and refused as expired after them.
   */
  lemma {:induction false} IssuedTokenAdmitted(input: Result<Credentials, string>, login: Credentials -> Call<AuthReply>, now: int,
                                               decode: string -> Decoded, sign: Minted -> string, readAt: int)
    requires LoginReply(input, login, now).Issued?
    requires ReadsBack(decode, sign, readAt)
    ensures readAt <= now + TokenLifetime ==>
      UserMiddleware.Authenticate(BearerPrefix + sign(LoginReply(input, login, now).token), decode)
      == Admit(login(input.value).response.id)
    ensures readAt > now + TokenLifetime ==>
      UserMiddleware.Authenticate(BearerPrefix + sign(LoginReply(input, login, now).token), decode)
      == Reject(StatusUnauthorized, TokenExpired, true)
  {
    var id := login(input.value).response.id;
    MintedTokenParses(decode, sign, readAt, id, now, TokenLifetime);
    UserMiddleware.Outcomes(sign(Issue(id, now, TokenLifetime)), decode);
  }
}
