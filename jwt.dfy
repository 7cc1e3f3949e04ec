/**
 * The session-token codec as the services use it. Signing, base64 and
 * HMAC verification belong to the JWT library and are abstract here: a
 * token string is read through a `decode` function the caller supplies
 * (the library with the configured secret and the current time), and a
 * token is minted as the claims it carries (HS256, RFC 7519 claims
 * `user_id` and `exp`).
 */
module Jwt {
  import opened Wrappers
  import opened Strconv

  /** Signing algorithms the library knows, by their names in section 3.1 of RFC 7518. */
  datatype Alg = HS256 | HS384 | HS512 | RS256 | RS384 | RS512 | ES256 | ES384 | ES512 | PS256 | PS384 | PS512 | NoneAlg

  /** The HMAC family of section 3.2 of RFC 7518: the only methods the key callbacks accept. */
  predicate IsHmac(a: Alg) { a == HS256 || a == HS384 || a == HS512 }

  /** The `user_id` claim: missing, present but not a JSON number, or a number (already an unsigned id). */
  datatype ClaimValue = Absent | NotNumber | Number(id: Uint)

  /** The claims set: a generic JSON object (`jwt.MapClaims`) or some other claims type. */
  datatype Claims = OtherClaims | MapClaims(userId: ClaimValue)

  /** What the library concludes once the key callback has handed it the secret. */
  datatype Check =
    | Rejected(message: string)              // signature or `exp`/`nbf` validation failed, with the library's text
    | Accepted(valid: bool, claims: Claims)  // no error; `valid` is the token's `Valid` flag

  /** What the library makes of a token string before it consults the key callback. */
  datatype Decoded =
    | Unreadable(message: string)            // not three segments, bad base64 or JSON, unknown `alg`
    | Readable(alg: Alg, check: Check)

  /** The outcome of `jwt.Parse`. */
  datatype Parsed = ParseError(message: string) | Token(valid: bool, claims: Claims)

  /**
   * `jwt.Parse(tokenString, keyFunc)` with a key callback that refuses every
   * method outside the HMAC family with the error text `keyError`; the
   * library reports a callback error as the parse error itself.
   */
  function LibraryParse(d: Decoded, keyError: string): (p: Parsed)
    ensures d.Readable? && !IsHmac(d.alg) ==> p == ParseError(keyError)
    ensures p.Token? <==> d.Readable? && IsHmac(d.alg) && d.check.Accepted?
    ensures p.Token? ==> p == Token(d.check.valid, d.check.claims)
  {
    match d
    case Unreadable(m) => ParseError(m)
    case Readable(alg, check) =>
      if !IsHmac(alg) then ParseError(keyError)
      else
        match check
        case Rejected(m) => ParseError(m)
        case Accepted(valid, claims) => Token(valid, claims)
  }

  const UnexpectedSigningMethod: string := "unexpected signing method"

  /**
   * `parseToken` of both middleware packages (the two are the same text;
   * the secret they use is inside `decode`).
   */
  function ParseToken(d: Decoded): (r: Result<Uint, string>)
    ensures d.Readable? && !IsHmac(d.alg) ==> r == Failure(UnexpectedSigningMethod)
    ensures r.Success? <==> d.Readable? && IsHmac(d.alg) && d.check.Accepted? && d.check.valid
                            && d.check.claims.MapClaims? && d.check.claims.userId.Number?
    ensures r.Success? ==> d.check.claims.userId.id == r.value
  {
    match LibraryParse(d, UnexpectedSigningMethod)
    case ParseError(m) => Failure(m)
    case Token(valid, claims) =>
      if !valid then Failure("invalid token")
      else
        match claims
        case OtherClaims => Failure("invalid token claims")
        case MapClaims(userId) =>
          match userId
          case Number(id) => Success(id)
          case _ => Failure("user_id missing or not a number")
  }

  /** The failures `ParseToken` reports after the library accepted the token, in the order they are tried. */
  lemma ParseTokenClaimFailures(alg: Alg, valid: bool, claims: Claims)
    requires IsHmac(alg)
    ensures !valid ==> ParseToken(Readable(alg, Accepted(valid, claims))) == Failure("invalid token")
    ensures valid && claims == OtherClaims ==> ParseToken(Readable(alg, Accepted(valid, claims))) == Failure("invalid token claims")
    ensures valid && claims.MapClaims? && !claims.userId.Number?
            ==> ParseToken(Readable(alg, Accepted(valid, claims))) == Failure("user_id missing or not a number")
  {
  }

  /** A minted token: the algorithm in its header and its two claims. */
  datatype Minted = Minted(alg: Alg, userId: Uint, exp: int)

  const HOUR: nat := 3600

  /** `jwt.NewWithClaims(jwt.SigningMethodHS256, {"user_id": id, "exp": now + ttl})`. */
  function Issue(userId: Uint, now: int, ttl: nat): Minted
  {
    Minted(HS256, userId, now + ttl)
  }

  /** The library's text for a token read after its `exp` claim. */
  const TokenExpired: string := "Token is expired"

  /**
   * The library, reading at instant `readAt`, returns every token this
   * system signed (`sign` is `SignedString` with the shared secret) with the
   * algorithm it was minted with: as valid with its `user_id` claim while
   * `readAt <= exp`, and as expired after that.
   */
  ghost predicate ReadsBack(decode: string -> Decoded, sign: Minted -> string, readAt: int)
  {
    forall t: Minted :: decode(sign(t)) == Readable(t.alg, if readAt <= t.exp then Accepted(true, MapClaims(Number(t.userId)))
                                                          else Rejected(TokenExpired))
  }

  /**
   * A token this system mints passes `parseToken` with the minted subject
   * when it is read no later than its expiry, and fails as expired after.
   */
  lemma MintedTokenParses(decode: string -> Decoded, sign: Minted -> string, readAt: int, userId: Uint, now: int, ttl: nat)
    requires ReadsBack(decode, sign, readAt)
    ensures readAt <= now + ttl ==> ParseToken(decode(sign(Issue(userId, now, ttl)))) == Success(userId)
    ensures readAt > now + ttl ==> ParseToken(decode(sign(Issue(userId, now, ttl)))) == Failure(TokenExpired)
  {
    var t := Issue(userId, now, ttl);
    assert decode(sign(t)) == Readable(t.alg, if readAt <= t.exp then Accepted(true, MapClaims(Number(t.userId)))
                                             else Rejected(TokenExpired));
  }

  /** The `Authorization` scheme both pipelines expect. */
  const BearerPrefix: string := "Bearer "

  /** `strings.HasPrefix`. */
  predicate HasPrefix(s: string, p: string)
  {
    |p| <= |s| && s[..|p|] == p
  }

  /** `strings.TrimPrefix`: removes one leading copy of `p`, if there is one. */
  function TrimPrefix(s: string, p: string): (r: string)
    ensures HasPrefix(s, p) ==> p + r == s
    ensures !HasPrefix(s, p) ==> r == s
  {
    if HasPrefix(s, p) then s[|p|..] else s
  }
}
