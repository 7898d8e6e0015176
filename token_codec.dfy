/**
 * The signed-token codec that `JwtService.signAsync` / `verifyAsync` provide.
 * Signing and signature/issuer/audience checking are cryptography in a
 * library, so they stay abstract: `encode` and `decode` are parameters, and
 * `Sound` states the only property the session logic relies on, that decoding
 * recovers what was encoded. The expiry rule is part of the model: a token
 * is rejected as expired once the clock reaches its `exp` claim.
 */
module TokenCodec {
  import opened Wrappers

  /**
   * The claims the application puts into a token: `sub` always; `email` in
   * an access token; `refreshTokenId` in a refresh token.
   */
  datatype Payload = Payload(sub: string, email: Option<string>, refreshTokenId: Option<string>)

  /** A payload together with the issued-at and expiry times the library adds. */
  datatype Claims = Claims(payload: Payload, iat: int, exp: int)

  /** `TokenExpiredError`, or any other verification failure. */
  datatype TokenError = TokenExpired(message: string) | InvalidToken(message: string)

  /** The message `jsonwebtoken` gives an expired token. */
  const ExpiredMessage: string := "jwt expired"

  /**
   * A configured codec (secret, audience and issuer are fixed by deployment
   * configuration): `encode` signs claims into a compact token, `decode`
   * checks signature, audience and issuer and returns the claims.
   */
  datatype JwtService = JwtService(encode: Claims -> string, decode: string -> Result<Claims, string>)

  /**
   * Decoding recovers exactly the encoded claims, and a compact token is a
   * non-empty string without spaces.
   */
  ghost predicate Sound(jwt: JwtService)
  {
    && (forall c :: jwt.decode(jwt.encode(c)) == Ok(c))
    && (forall c :: jwt.encode(c) != "" && ' ' !in jwt.encode(c))
  }

  /** `signAsync(payload, { expiresIn })` at clock time `now`. */
  function Sign(jwt: JwtService, payload: Payload, now: int, expiresIn: int): string
  {
    jwt.encode(Claims(payload, now, now + expiresIn))
  }

  /** `verifyAsync(token)` at clock time `now`. */
  function Verify(jwt: JwtService, token: string, now: int): (r: Result<Claims, TokenError>)
    ensures r.Ok? ==> now < r.value.exp && jwt.decode(token) == Ok(r.value)
    ensures r.Err? && r.error.TokenExpired? ==> jwt.decode(token).Ok? && now >= jwt.decode(token).value.exp
  {
    match jwt.decode(token)
    case Err(msg) => Err(InvalidToken(msg))
    case Ok(claims) =>
      if now >= claims.exp then Err(TokenExpired(ExpiredMessage)) else Ok(claims)
  }

  /**
   * A token signed at `iat` with lifetime `ttl` verifies, with the signed
   * payload, strictly before `iat + ttl` and is expired from then on.
   */
  lemma VerifySigned(jwt: JwtService, payload: Payload, iat: int, ttl: int, now: int)
    requires Sound(jwt)
    ensures Verify(jwt, Sign(jwt, payload, iat, ttl), now) ==
            if now < iat + ttl then Ok(Claims(payload, iat, iat + ttl))
            else Err(TokenExpired(ExpiredMessage))
  {
    assert jwt.decode(jwt.encode(Claims(payload, iat, iat + ttl))) == Ok(Claims(payload, iat, iat + ttl));
  }

  /**
   * Whether a token verifies may depend on the clock, but the claims it
   * verifies to do not.
   */
  lemma VerifyClaimsTimeIndependent(jwt: JwtService, token: string, now1: int, now2: int)
    requires Verify(jwt, token, now1).Ok? && Verify(jwt, token, now2).Ok?
    ensures Verify(jwt, token, now1).value == Verify(jwt, token, now2).value
  {
  }
}
