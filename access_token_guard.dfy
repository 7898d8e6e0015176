/**
 * `AccessTokenGuard` (src/iam/authentication/guards/access-token.guard.ts):
 * take the token from the `Authorization` header, verify it, and attach the
 * verified claims to the request.
 */
module AccessTokenGuards {
  import opened Wrappers
  import opened Strings
  import opened Exceptions
  import opened TokenCodec
  import Authentication
  import Users

  /** What a guard's `canActivate` does: return a boolean or throw. */
  datatype GuardResult = Returned(value: bool) | Threw(error: HttpException)

  /** The parts of an HTTP request the guards use. */
  class Request {
    /** The `Authorization` header, if sent. */
    const authorization: Option<string>
    /** `request[REQUEST_USER_KEY]`: the claims of the verified token, once attached. */
    var user: Option<Claims>

    constructor(authorization: Option<string>)
      ensures this.authorization == authorization && user == None
    {
      this.authorization := authorization;
      user := None;
    }
  }

  /**
   * `extractTokenFromHeader`: element 1 of the header split on " ", or
   * nothing when the header is missing or has no space. The scheme word
   * (element 0) is not checked.
   */
  function ExtractTokenFromHeader(authorization: Option<string>): (token: Option<string>)
    ensures token.Some? ==> authorization.Some? && ' ' !in token.value
  {
    match authorization
    case None => None
    case Some(header) =>
      var parts := Split(header, ' ');
      SplitSegmentsFree(header, ' ');
      if |parts| >= 2 then Some(parts[1]) else None
  }

  /** A header with at least one space yields a token, one without yields none. */
  lemma ExtractNeedsSpace(header: string)
    ensures ExtractTokenFromHeader(Some(header)).Some? <==> ' ' in header
  {
    SplitLength(header, ' ');
    OccurrencesPositive(header, ' ');
  }

  lemma {:induction false} OccurrencesPositive(s: string, c: char)
    ensures Occurrences(s, c) > 0 <==> c in s
    decreases |s|
  {
    if |s| > 0 {
      OccurrencesPositive(s[1..], c);
      assert s == [s[0]] + s[1..];
    }
  }

  /** `<scheme> <token>` yields the token, whatever the scheme word is. */
  lemma ExtractAnyScheme(scheme: string, token: string)
    requires ' ' !in scheme && ' ' !in token
    ensures ExtractTokenFromHeader(Some(scheme + " " + token)) == Some(token)
  {
    SplitAtSeparator(scheme, ' ', token);
    SplitWithoutSeparator(token, ' ');
    assert scheme + " " + token == scheme + [' '] + token;
  }

  /**
   * What `canActivate` yields for a request with this header at time `now`:
   * no token (or an empty one) is unauthorized without verifying; an expired
   * token is unauthorized with the library's message; any other verification
   * failure is a plain unauthorized; a verified token admits the request.
   */
  function BearerOutcome(jwt: JwtService, authorization: Option<string>, now: int): (r: GuardResult)
    ensures r == Returned(true) <==>
            var token := ExtractTokenFromHeader(authorization);
            token.Some? && token.value != "" && Verify(jwt, token.value, now).Ok?
    ensures r != Returned(true) ==> r.Threw? && r.error.UnauthorizedException?
    ensures ExtractTokenFromHeader(authorization).None? ==> r == Threw(UnauthorizedException(DefaultUnauthorizedMessage))
  {
    var token := ExtractTokenFromHeader(authorization);
    if token.None? || token.value == "" then Threw(UnauthorizedException(DefaultUnauthorizedMessage))
    else match Verify(jwt, token.value, now)
      case Ok(_) => Returned(true)
      case Err(TokenExpired(message)) => Threw(UnauthorizedException(message))
      case Err(InvalidToken(_)) => Threw(UnauthorizedException(DefaultUnauthorizedMessage))
  }

  /** The guard never returns false: it admits or throws an unauthorized exception. */
  lemma BearerNeverReturnsFalse(jwt: JwtService, authorization: Option<string>, now: int)
    ensures BearerOutcome(jwt, authorization, now) == Returned(true) ||
            (BearerOutcome(jwt, authorization, now).Threw? &&
             BearerOutcome(jwt, authorization, now).error.UnauthorizedException?)
  {
  }

  /**
   * A correctly signed token sent as `<scheme> <token>` admits the request
   * before its expiry and is rejected with "jwt expired" from then on.
   */
  lemma SignedTokenOutcome(jwt: JwtService, scheme: string, claims: Claims, now: int)
    requires Sound(jwt)
    requires ' ' !in scheme
    ensures BearerOutcome(jwt, Some(scheme + " " + jwt.encode(claims)), now) ==
            if now < claims.exp then Returned(true)
            else Threw(UnauthorizedException(ExpiredMessage))
  {
    ExtractAnyScheme(scheme, jwt.encode(claims));
    assert jwt.decode(jwt.encode(claims)) == Ok(claims);
  }

  /**
   * The guard verifies a token against the JWT configuration but does not
   * distinguish the token type, and refresh tokens are signed with the same
   * secret, audience and issuer, so a refresh token sent as a bearer token
   * admits the request until it expires.
   */
  lemma RefreshTokenAdmitted(jwt: JwtService, config: Authentication.JwtConfig, user: Users.User,
                             refreshTokenId: string, issuedAt: int, now: int)
    requires Sound(jwt)
    requires now < issuedAt + config.refreshTokenTtl
    ensures BearerOutcome(jwt, Some("Bearer " + Authentication.RefreshToken(jwt, config, user, refreshTokenId, issuedAt)), now)
            == Returned(true)
  {
    var claims := Claims(Payload(user.id, None, Some(refreshTokenId)), issuedAt, issuedAt + config.refreshTokenTtl);
    assert Authentication.RefreshToken(jwt, config, user, refreshTokenId, issuedAt) == jwt.encode(claims);
    assert ' ' !in "Bearer";
    assert "Bearer " + jwt.encode(claims) == "Bearer" + " " + jwt.encode(claims);
    SignedTokenOutcome(jwt, "Bearer", claims, now);
  }

  class AccessTokenGuard {
    const jwt: JwtService

    constructor(jwt: JwtService)
      ensures this.jwt == jwt
    {
      this.jwt := jwt;
    }

    /**
     * `canActivate`: the outcome is `BearerOutcome`; the verified claims are
     * attached to the request exactly when it admits, and nothing is written
     * when it throws.
     */
    method CanActivate(request: Request, now: int) returns (r: GuardResult)
      modifies request
      ensures r == BearerOutcome(jwt, request.authorization, now)
      ensures r.Returned? ==> request.user == Some(Verify(jwt, ExtractTokenFromHeader(request.authorization).value, now).value)
      ensures r.Threw? ==> request.user == old(request.user)
    {
      var token := ExtractTokenFromHeader(request.authorization);
      if token.None? || token.value == "" {
        return Threw(UnauthorizedException(DefaultUnauthorizedMessage));
      }
      var verified := Verify(jwt, token.value, now);
      match verified {
        case Ok(payload) =>
          request.user := Some(payload);
        case Err(TokenExpired(message)) =>
          return Threw(UnauthorizedException(message));
        case Err(InvalidToken(_)) =>
          return Threw(UnauthorizedException(DefaultUnauthorizedMessage));
      }
      return Returned(true);
    }
  }
}
