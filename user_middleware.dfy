/**
 * The authentication middleware of the identity service's HTTP side
 * (`AuthMiddleware` with its `parseToken`): bearer check and token check,
 * with no existence check.
 */
module UserMiddleware {
  import opened Wrappers
  import opened Strconv
  import opened Jwt
  import opened Gin

  const HeaderRequired: string := "Authorization header required"
  const NotBearer: string := "Authorization header must be in 'Bearer <token>' format"

  /** The decision chain of the middleware for one `Authorization` header value. */
  function Authenticate(header: string, decode: string -> Decoded): Verdict
  {
    if header == "" then Reject(StatusBadRequest, HeaderRequired, true)
    else if !HasPrefix(header, BearerPrefix) then Reject(StatusBadRequest, NotBearer, true)
    else
      match ParseToken(decode(TrimPrefix(header, BearerPrefix)))
      case Failure(m) => Reject(StatusUnauthorized, m, true)
      case Success(id) => Admit(id)
  }

  /** `AuthMiddleware`, run on a request context. */
  method AuthMiddleware(c: Context, decode: string -> Decoded)
    modifies c
    ensures Applied(c, Authenticate(c.GetHeader("Authorization"), decode))
  {
    var authHeader := c.GetHeader("Authorization");
    if authHeader == "" {
      c.AbortWithError(StatusBadRequest, HeaderRequired);
      return;
    }
    if !HasPrefix(authHeader, BearerPrefix) {
      c.AbortWithError(StatusBadRequest, NotBearer);
      return;
    }
    var tokenString := TrimPrefix(authHeader, BearerPrefix);
    var userId := ParseToken(decode(tokenString));
    if userId.Failure? {
      c.AbortWithError(StatusUnauthorized, userId.error);
      return;
    }
    c.Set(userId.value);
  }

  /**
   * A malformed header is a 400, a bad token a 401 with `parseToken`'s
   * text, and every rejection aborts; a token that parses is admitted with
   * its own subject and nothing else is consulted.
   */
  lemma {:induction false} Outcomes(token: string, decode: string -> Decoded)
    ensures Authenticate("", decode) == Reject(StatusBadRequest, HeaderRequired, true)
    ensures ParseToken(decode(token)).Failure? ==>
      Authenticate(BearerPrefix + token, decode) == Reject(StatusUnauthorized, ParseToken(decode(token)).error, true)
    ensures ParseToken(decode(token)).Success? ==>
      Authenticate(BearerPrefix + token, decode) == Admit(ParseToken(decode(token)).value)
  {
    assert (BearerPrefix + token)[..|BearerPrefix|] == BearerPrefix;
  }

  /** Every header that does not start with "Bearer " is refused with 400 before the token is looked at. */
  lemma NonBearerRefused(header: string, decode: string -> Decoded)
    requires header != "" && !HasPrefix(header, BearerPrefix)
    ensures Authenticate(header, decode) == Reject(StatusBadRequest, NotBearer, true)
  {
  }
}
