/**
 * The identity service's authentication RPCs (`UserAuthServer`): they never
 * answer with a transport error; every failure travels inside the response
 * as `Success = false` with a text.
 */
module UserAuth {
  import opened Wrappers
  import opened Storage
  import opened Users

  /** `RegisterResponse`, `LoginResponse` and `GoogleLoginResponse` share this shape. */
  datatype AuthResponse = AuthResponse(id: nat, success: bool, error: string)

  /** `Register`: the outcome of `CreateUser`, carried in the response. */
  method Register(s: UserService, username: string, password: string) returns (resp: AuthResponse)
    requires s.Valid()
    modifies s
    ensures s.Valid() && s.fault == old(s.fault)
    ensures var e := CreateUserError(old(s.users), s.fault, s.hash, username, password);
      && (e.Some? ==> resp == AuthResponse(0, false, e.value.Message()) && s.users == old(s.users))
      && (e.None? ==> resp.success && resp.error == "" && resp.id !in old(s.users)
                      && s.users == old(s.users)[resp.id := User(resp.id, username, s.hash(password).value)])
  {
    var id := s.CreateUser(username, password);
    if id.Failure? {
      return AuthResponse(0, false, id.error.Message());
    }
    return AuthResponse(id.value, true, "");
  }

  /**
   * `Login`: looks the user up by name and compares the STORED password
   * with the request's by plain equality.
   */
  method Login(s: UserService, username: string, password: string) returns (resp: AuthResponse)
    requires s.Valid()
    ensures s.fault.Some? ==> resp == AuthResponse(0, false, s.fault.value)
    ensures s.fault.None? && !NameTaken(s.users, username) ==> resp == AuthResponse(0, false, UserNotFound)
    ensures s.fault.None? && NameTaken(s.users, username) ==>
      resp == if UserNamed(s.users, username).password == password
              then AuthResponse(UserNamed(s.users, username).id, true, "")
              else AuthResponse(0, false, "invalid password")
  {
    var user := s.GetUserByUsername(username);
    if user.Failure? {
      if user.error == RecordNotFound {
        return AuthResponse(0, false, UserNotFound);
      }
      return AuthResponse(0, false, user.error.Message());
    }
    if user.value.password != password {
      return AuthResponse(0, false, "invalid password");
    }
    return AuthResponse(user.value.id, true, "");
  }

  /**
   * `LoginWithGoogle`: an existing username equal to the e-mail logs in;
   * otherwise it asks `CreateUser` for a user with an empty password, which
   * `CreateUser` always refuses, so no user is ever created here.
   */
  method LoginWithGoogle(s: UserService, email: string) returns (resp: AuthResponse)
    requires s.Valid()
    modifies s
    ensures s.Valid() && s.users == old(s.users) && s.fault == old(s.fault)
    ensures s.fault.Some? ==> resp == AuthResponse(0, false, s.fault.value)
    ensures s.fault.None? && NameTaken(s.users, email) ==> resp == AuthResponse(UserNamed(s.users, email).id, true, "")
    ensures s.fault.None? && !NameTaken(s.users, email) ==>
      resp == AuthResponse(0, false, if email == "" then EmptyUsername else EmptyPassword)
    ensures resp.success ==> NameTaken(s.users, email)
  {
    var user := s.GetUserByUsername(email);
    if user.Failure? {
      if user.error == RecordNotFound {
        var id := s.CreateUser(email, "");
        if id.Failure? {
          return AuthResponse(0, false, id.error.Message());
        }
        // The success response built here in the source is unreachable.
        assert false;
      }
      return AuthResponse(0, false, user.error.Message());
    }
    return AuthResponse(user.value.id, true, "");
  }

  /**
   * Registering and then logging in with the same password succeeds only if
   * the hasher maps that password to itself, and then yields the new id:
   * the stored hash is compared with the plain password.
   */
  method RegisterThenLogin(s: UserService, username: string, password: string)
    returns (registered: AuthResponse, login: AuthResponse)
    requires s.Valid()
    modifies s
    ensures s.Valid()
    ensures registered.success ==> (login.success <==> s.hash(password) == Some(password))
    ensures registered.success && login.success ==> login.id == registered.id
  {
    registered := Register(s, username, password);
    login := Login(s, username, password);
    if registered.success {
      assert s.users[registered.id].username == username;
    }
  }
}
