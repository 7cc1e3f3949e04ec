/**
 * The authentication middleware in front of the task API gateway
 * (`AuthMiddleware` with its `parseToken`): bearer check, token check, then
 * one call to the identity oracle.
 */
module TaskMiddleware {
  import opened Wrappers
  import opened Strconv
  import opened Rpc
  import opened Jwt
  import opened Gin
  import UserRpc
  import Users

  /** A verdict and the ids the oracle was asked about, in order. */
  datatype Decision = Decision(verdict: Verdict, queries: seq<string>)

  const HeaderRequired: string := "Authorization header required"
  const NotBearer: string := "Authorization must be in 'Bearer <token>' format"
  const UnknownUser: string := "user not found"

  /** The decision chain of the middleware for one `Authorization` header value. */
  function Authenticate(header: string, decode: string -> Decoded, getUser: string -> OracleReply): Decision
  {
    if header == "" then Decision(Reject(StatusUnauthorized, HeaderRequired, true), [])
    else if !HasPrefix(header, BearerPrefix) then Decision(Reject(StatusUnauthorized, NotBearer, true), [])
    else
      match ParseToken(decode(TrimPrefix(header, BearerPrefix)))
      case Failure(m) => Decision(Reject(StatusUnauthorized, m, true), [])
      case Success(id) =>
        var query := Itoa(ToInt(id));
        if getUser(query) == RpcFailed then Decision(Reject(StatusUnauthorized, UnknownUser, true), [query])
        else Decision(Admit(id), [query])
  }

  /** `AuthMiddleware`, run on a request context; returns the ids it sent to the oracle. */
  method AuthMiddleware(c: Context, decode: string -> Decoded, getUser: string -> OracleReply)
    returns (queries: seq<string>)
    modifies c
    ensures Applied(c, Authenticate(c.GetHeader("Authorization"), decode, getUser).verdict)
    ensures queries == Authenticate(c.GetHeader("Authorization"), decode, getUser).queries
  {
    queries := [];
    var authHeader := c.GetHeader("Authorization");
    if authHeader == "" {
      c.AbortWithError(StatusUnauthorized, HeaderRequired);
      return;
    }
    if !HasPrefix(authHeader, BearerPrefix) {
      c.AbortWithError(StatusUnauthorized, NotBearer);
      return;
    }
    var tokenString := TrimPrefix(authHeader, BearerPrefix);
    var userId := ParseToken(decode(tokenString));
    if userId.Failure? {
      c.AbortWithError(StatusUnauthorized, userId.error);
      return;
    }
    var query := Itoa(ToInt(userId.value));
    queries := [query];
    var reply := getUser(query);
    if reply == RpcFailed {
      c.AbortWithError(StatusUnauthorized, UnknownUser);
      return;
    }
    c.Set(userId.value);
  }

  /** Every rejection is a 401 that stops the chain; a rejection before the token is valid asks the oracle nothing. */
  lemma RejectionsAbort(header: string, decode: string -> Decoded, getUser: string -> OracleReply)
    ensures var d := Authenticate(header, decode, getUser);
      d.verdict.Reject? ==> d.verdict.status == StatusUnauthorized && d.verdict.abort
    ensures header == "" ==> Authenticate(header, decode, getUser) == Decision(Reject(StatusUnauthorized, HeaderRequired, true), [])
    ensures header != "" && !HasPrefix(header, BearerPrefix)
            ==> Authenticate(header, decode, getUser) == Decision(Reject(StatusUnauthorized, NotBearer, true), [])
  {
  }

  /**
   * The token is the header with one leading "Bearer " removed (possibly
   * empty); when it fails `parseToken`, its error text is the 401 reply and
   * the oracle is not asked.
   */
  lemma {:induction false} BadTokenRejectedWithoutQuery(token: string, decode: string -> Decoded, getUser: string -> OracleReply)
    requires ParseToken(decode(token)).Failure?
    ensures Authenticate(BearerPrefix + token, decode, getUser)
            == Decision(Reject(StatusUnauthorized, ParseToken(decode(token)).error, true), [])
  {
    assert (BearerPrefix + token)[..|BearerPrefix|] == BearerPrefix;
  }

  /**
   * Only a failed oracle call rejects a valid token: an answer with
   * `Exists = false` admits the request, and the subject is the token's.
   */
  lemma {:induction false} AbsentUserIsAdmitted(token: string, id: Uint, decode: string -> Decoded, getUser: string -> OracleReply)
    requires ParseToken(decode(token)) == Success(id)
    ensures getUser(Itoa(ToInt(id))) == RpcFailed ==>
      Authenticate(BearerPrefix + token, decode, getUser) == Decision(Reject(StatusUnauthorized, UnknownUser, true), [Itoa(ToInt(id))])
    ensures getUser(Itoa(ToInt(id))) != RpcFailed ==>
      Authenticate(BearerPrefix + token, decode, getUser) == Decision(Admit(id), [Itoa(ToInt(id))])
  {
    assert (BearerPrefix + token)[..|BearerPrefix|] == BearerPrefix;
  }

  /** An admitted request made exactly one oracle call, about the subject its token names. */
  lemma AdmissionShape(header: string, decode: string -> Decoded, getUser: string -> OracleReply)
    requires Authenticate(header, decode, getUser).verdict.Admit?
    ensures var d := Authenticate(header, decode, getUser);
      && HasPrefix(header, BearerPrefix)
      && ParseToken(decode(TrimPrefix(header, BearerPrefix))) == Success(d.verdict.subject)
      && d.queries == [Itoa(ToInt(d.verdict.subject))]
      && getUser(d.queries[0]) != RpcFailed
  {
  }

  /**
   * Against the identity service itself: a valid token for a user who no
   * longer exists is admitted whenever the store answers, and a valid token
   * for an id from 2^63 on is always refused, since the id string the
   * middleware sends carries a minus sign.
   */
  lemma {:induction false} DeletedSubjectAdmitted(token: string, id: Uint, decode: string -> Decoded,
                                                  users: map<nat, Users.User>)
    requires ParseToken(decode(token)) == Success(id)
    ensures id < INT64_LIMIT ==>
      Authenticate(BearerPrefix + token, decode, UserRpc.Oracle(users, None)).verdict == Admit(id)
    ensures id >= INT64_LIMIT ==>
      Authenticate(BearerPrefix + token, decode, UserRpc.Oracle(users, None)).verdict == Reject(StatusUnauthorized, UnknownUser, true)
  {
    UserRpc.OracleReportsExistence(users, None, id);
    AbsentUserIsAdmitted(token, id, decode, UserRpc.Oracle(users, None));
  }
}
