/**
 * `AuthenticationService` (src/iam/authentication/authentication.service.ts):
 * sign-up, sign-in, refresh-token rotation and logout over the revocation
 * store. Each user has at most one current refresh-token id; issuing a new
 * one supersedes the old, a refresh burns the id it presents, and logout
 * deletes it.
 *
 * The clock (`now`) and the refresh-token id that `randomUUID()` would draw
 * (`freshId`) are parameters; the ghost set `issued` holds every id minted so
 * far, and a drawn id is assumed not to be among them.
 */
module Authentication {
  import opened Wrappers
  import opened Exceptions
  import opened TokenCodec
  import opened RefreshTokenIds
  import opened Users

  /** The token lifetimes of the JWT configuration, in seconds. */
  datatype JwtConfig = JwtConfig(accessTokenTtl: int, refreshTokenTtl: int)

  /** What sign-up, sign-in and refresh return. */
  datatype Session = Session(accessToken: string, refreshToken: string, user: User)

  const InvalidCredentialsMessage: string := "Invalid credentials"
  const EmailAlreadyExistsMessage: string := "Email already exists"

  /** `signToken(userId, expiresIn, payload)`: `sub` is the user id, the payload adds the rest. */
  function SignToken(jwt: JwtService, userId: string, expiresIn: int, email: Option<string>,
                     refreshTokenId: Option<string>, now: int): (token: string)
    ensures Sound(jwt) ==>
            jwt.decode(token) == Ok(Claims(Payload(userId, email, refreshTokenId), now, now + expiresIn))
  {
    Sign(jwt, Payload(userId, email, refreshTokenId), now, expiresIn)
  }

  /** The access token `generateTokens` signs: `sub` and `email`. */
  function AccessToken(jwt: JwtService, config: JwtConfig, user: User, now: int): string
  {
    SignToken(jwt, user.id, config.accessTokenTtl, Some(user.email), None, now)
  }

  /** The refresh token `generateTokens` signs: `sub` and `refreshTokenId`. */
  function RefreshToken(jwt: JwtService, config: JwtConfig, user: User, refreshTokenId: string, now: int): string
  {
    SignToken(jwt, user.id, config.refreshTokenTtl, None, Some(refreshTokenId), now)
  }

  /** A user as returned to the client: the password digest removed. */
  function WithoutPassword(user: User): User
  {
    user.(password := None)
  }

  /** The outcome of the checks `refreshTokens` makes before it rotates. */
  datatype RefreshCheck = Rejected | Accepted(user: User, tokenId: string)

  /**
   * The token verifies, its subject is a user, and the `refreshTokenId` it
   * carries is the one the store holds for that user. A token without a
   * `refreshTokenId` (an access token, say) never matches: `undefined` is not
   * equal to any stored string, nor to the `null` of a missing entry.
   */
  function CheckRefresh(jwt: JwtService, rows: seq<User>, entries: map<string, string>,
                        token: string, now: int): (c: RefreshCheck)
    ensures c.Accepted? <==>
      && Verify(jwt, token, now).Ok?
      && FindById(rows, Verify(jwt, token, now).value.payload.sub).Some?
      && Verify(jwt, token, now).value.payload.refreshTokenId.Some?
      && Validates(entries, Verify(jwt, token, now).value.payload.sub,
                   Verify(jwt, token, now).value.payload.refreshTokenId.value)
    ensures c.Accepted? ==>
      && c.user in rows
      && c.user == FindById(rows, Verify(jwt, token, now).value.payload.sub).value
      && c.user.id == Verify(jwt, token, now).value.payload.sub
      && Some(c.tokenId) == Verify(jwt, token, now).value.payload.refreshTokenId
      && Validates(entries, c.user.id, c.tokenId)
  {
    match Verify(jwt, token, now)
    case Err(_) => Rejected
    case Ok(claims) =>
      match FindById(rows, claims.payload.sub)
      case None => Rejected
      case Some(user) =>
        match claims.payload.refreshTokenId
        case None => Rejected
        case Some(id) => if Validates(entries, user.id, id) then Accepted(user, id) else Rejected
  }

  /** How `signUp` maps a database failure: a duplicate email is unauthorized, the rest propagates. */
  function SignUpFailure(e: DbError): (x: HttpException)
    ensures x == UnauthorizedException(EmailAlreadyExistsMessage) <==> e == UniqueConstraintViolation
    ensures e != UniqueConstraintViolation ==> x == DatabaseError(e)
  {
    if e == UniqueConstraintViolation then UnauthorizedException(EmailAlreadyExistsMessage)
    else DatabaseError(e)
  }

  /**
   * Both tokens carry `sub` = the user id until they expire; the access token
   * adds the email and the refresh token the refresh-token id.
   */
  lemma IssuedTokensClaims(jwt: JwtService, config: JwtConfig, user: User, refreshTokenId: string, now: int, later: int)
    requires Sound(jwt)
    ensures later < now + config.accessTokenTtl ==>
            Verify(jwt, AccessToken(jwt, config, user, now), later) ==
            Ok(Claims(Payload(user.id, Some(user.email), None), now, now + config.accessTokenTtl))
    ensures later < now + config.refreshTokenTtl ==>
            Verify(jwt, RefreshToken(jwt, config, user, refreshTokenId, now), later) ==
            Ok(Claims(Payload(user.id, None, Some(refreshTokenId)), now, now + config.refreshTokenTtl))
  {
    VerifySigned(jwt, Payload(user.id, Some(user.email), None), now, config.accessTokenTtl, later);
    VerifySigned(jwt, Payload(user.id, None, Some(refreshTokenId)), now, config.refreshTokenTtl, later);
  }

  /**
   * The refresh token just issued to a stored user, with its id written to
   * the store, passes the refresh check until it expires.
   */
  lemma IssuedRefreshTokenAccepted(jwt: JwtService, config: JwtConfig, rows: seq<User>, entries: map<string, string>,
                                   user: User, freshId: string, now: int, later: int)
    requires Sound(jwt)
    requires FindById(rows, user.id).Some?
    requires later < now + config.refreshTokenTtl
    ensures CheckRefresh(jwt, rows, AfterInsert(entries, user.id, freshId),
                         RefreshToken(jwt, config, user, freshId, now), later)
            == Accepted(FindById(rows, user.id).value, freshId)
  {
    IssuedTokensClaims(jwt, config, user, freshId, now, later);
  }

  /** An access token carries no refresh-token id, so it never passes the refresh check. */
  lemma AccessTokenNotRefreshable(jwt: JwtService, config: JwtConfig, rows: seq<User>, entries: map<string, string>,
                                  user: User, now: int, later: int)
    requires Sound(jwt)
    ensures CheckRefresh(jwt, rows, entries, AccessToken(jwt, config, user, now), later) == Rejected
  {
    VerifySigned(jwt, Payload(user.id, Some(user.email), None), now, config.accessTokenTtl, later);
  }

  /**
   * Replay: once a token has been accepted and the store rotated to a fresh
   * id, presenting the same token again fails, at any later time.
   */
  lemma ReplayRejected(jwt: JwtService, rows: seq<User>, entries: map<string, string>,
                       token: string, now: int, freshId: string, later: int)
    requires CheckRefresh(jwt, rows, entries, token, now).Accepted?
    requires freshId != CheckRefresh(jwt, rows, entries, token, now).tokenId
    ensures var userId := CheckRefresh(jwt, rows, entries, token, now).user.id;
            CheckRefresh(jwt, rows, AfterInsert(AfterInvalidate(entries, userId), userId, freshId), token, later) == Rejected
  {
    if Verify(jwt, token, later).Ok? {
      VerifyClaimsTimeIndependent(jwt, token, now, later);
    }
  }

  /** After logout, no token is accepted for that user. */
  lemma LogoutRejectsRefresh(jwt: JwtService, rows: seq<User>, entries: map<string, string>,
                             userId: string, token: string, now: int)
    ensures var c := CheckRefresh(jwt, rows, AfterInvalidate(entries, userId), token, now);
            c.Accepted? ==> c.user.id != userId
  {
    var c := CheckRefresh(jwt, rows, AfterInvalidate(entries, userId), token, now);
    if c.Accepted? && c.user.id == userId {
      InvalidateRevokes(entries, userId, c.tokenId);
    }
  }

  /**
   * Single active session: once a new id is stored for a user (a sign-in or
   * a rotation), only a token carrying that id is accepted for the user;
   * every token issued earlier with another id fails.
   */
  lemma OnlyLatestIdAccepted(jwt: JwtService, rows: seq<User>, entries: map<string, string>,
                             userId: string, freshId: string, token: string, now: int)
    ensures var c := CheckRefresh(jwt, rows, AfterInsert(entries, userId, freshId), token, now);
            c.Accepted? && c.user.id == userId ==> c.tokenId == freshId
  {
    var c := CheckRefresh(jwt, rows, AfterInsert(entries, userId, freshId), token, now);
    if c.Accepted? && c.user.id == userId {
      InsertThenValidate(entries, userId, freshId, c.tokenId);
    }
  }

  /** Every stored user row has a password digest. */
  ghost predicate HaveDigests(rows: seq<User>)
  {
    forall i :: 0 <= i < |rows| ==> rows[i].password.Some?
  }

  class AuthenticationService {
    const usersService: UsersService
    const hashingService: HashingService
    const jwt: JwtService
    const storage: RefreshTokenIdsStorage
    const config: JwtConfig
    /** Every refresh-token id minted so far, and any found in the store at start. */
    ghost var issued: set<string>

    ghost predicate Valid()
      reads this, storage, usersService
    {
      && storage.entries.Values <= issued
      && HaveDigests(usersService.rows)
    }

    constructor(usersService: UsersService, hashingService: HashingService, jwt: JwtService,
                storage: RefreshTokenIdsStorage, config: JwtConfig)
      requires HaveDigests(usersService.rows)
      ensures Valid()
      ensures this.usersService == usersService && this.hashingService == hashingService
      ensures this.jwt == jwt && this.storage == storage && this.config == config
    {
      this.usersService := usersService;
      this.hashingService := hashingService;
      this.jwt := jwt;
      this.storage := storage;
      this.config := config;
      issued := storage.entries.Values;
    }

    /** `logout`: delete the user's refresh-token id. */
    method Logout(userId: string)
      requires Valid()
      modifies storage
      ensures Valid()
      ensures storage.entries == AfterInvalidate(old(storage.entries), userId)
      ensures storage.writes == old(storage.writes) + [Del(Key(userId))]
    {
      storage.Invalidate(userId);
    }

    /**
     * `generateTokens`: sign an access token and a refresh token carrying the
     * new id, then store that id as the user's current one. This is the only
     * write, and it makes the new id the only one that validates for the user.
     */
    method GenerateTokens(user: User, freshId: string, now: int) returns (accessToken: string, refreshToken: string)
      requires Valid() && freshId !in issued
      modifies storage, this`issued
      ensures Valid() && issued == old(issued) + {freshId}
      ensures accessToken == AccessToken(jwt, config, user, now)
      ensures refreshToken == RefreshToken(jwt, config, user, freshId, now)
      ensures storage.entries == AfterInsert(old(storage.entries), user.id, freshId)
      ensures storage.writes == old(storage.writes) + [Set(Key(user.id), freshId)]
    {
      var refreshTokenId := freshId;
      accessToken := SignToken(jwt, user.id, config.accessTokenTtl, Some(user.email), None, now);
      refreshToken := SignToken(jwt, user.id, config.refreshTokenTtl, None, Some(refreshTokenId), now);
      issued := issued + {refreshTokenId};
      storage.Insert(user.id, refreshTokenId);
    }

    /**
     * `refreshTokens`: rotation. When the presented token passes
     * `CheckRefresh`, its id is deleted first and a new pair is generated,
     * so the store ends up holding only the new id; every failure is the
     * same `UnauthorizedException` and leaves the store untouched.
     */
    method RefreshTokens(refreshToken: string, now: int, freshId: string) returns (r: Result<Session, HttpException>)
      requires Valid() && freshId !in issued
      modifies storage, this`issued
      ensures Valid()
      ensures issued == old(issued) + (if r.Ok? then {freshId} else {})
      ensures var check := CheckRefresh(jwt, usersService.rows, old(storage.entries), refreshToken, now);
        && (r.Ok? <==> check.Accepted?)
        && (check.Rejected? ==>
              && r == Err(UnauthorizedException(DefaultUnauthorizedMessage))
              && storage.entries == old(storage.entries)
              && storage.writes == old(storage.writes))
        && (check.Accepted? ==>
              && r.value == Session(AccessToken(jwt, config, WithoutPassword(check.user), now),
                                    RefreshToken(jwt, config, WithoutPassword(check.user), freshId, now),
                                    WithoutPassword(check.user))
              && storage.entries == AfterInsert(AfterInvalidate(old(storage.entries), check.user.id), check.user.id, freshId)
              && storage.writes == old(storage.writes) + [Del(Key(check.user.id)), Set(Key(check.user.id), freshId)]
              && !Validates(storage.entries, check.user.id, check.tokenId))
    {
      var verified := Verify(jwt, refreshToken, now);
      if verified.Err? {
        return Err(UnauthorizedException(DefaultUnauthorizedMessage));
      }
      var tokenPayload := verified.value.payload;
      var found := FindById(usersService.rows, tokenPayload.sub);
      if found.None? {
        // `user.id` on a missing user throws inside the try block
        return Err(UnauthorizedException(DefaultUnauthorizedMessage));
      }
      var user := WithoutPassword(found.value);
      var isValid := false;
      if tokenPayload.refreshTokenId.Some? {
        isValid := storage.Validate(user.id, tokenPayload.refreshTokenId.value);
      }
      if isValid {
        storage.Invalidate(user.id);
      } else {
        // InvalidatedRefreshTokenError, logged and rethrown as unauthorized
        return Err(UnauthorizedException(DefaultUnauthorizedMessage));
      }
      var accessToken, newRefreshToken := GenerateTokens(user, freshId, now);
      return Ok(Session(accessToken, newRefreshToken, user));
    }

    /**
     * `signUp`: store the user with the digest of the password and issue
     * tokens; a duplicate email fails with "Email already exists" and changes
     * nothing. `newUserId` is the id the database assigns.
     */
    method SignUp(email: string, password: string, newUserId: string, now: int, freshId: string)
      returns (r: Result<Session, HttpException>)
      requires Valid() && freshId !in issued
      requires FindById(usersService.rows, newUserId).None?
      modifies storage, usersService, this`issued
      ensures Valid()
      ensures issued == old(issued) + (if r.Ok? then {freshId} else {})
      ensures (r.Err? <==> FindByEmail(old(usersService.rows), email).Some?)
      ensures r.Err? ==>
        && r.error == UnauthorizedException(EmailAlreadyExistsMessage)
        && usersService.rows == old(usersService.rows)
        && storage.entries == old(storage.entries)
        && storage.writes == old(storage.writes)
      ensures r.Ok? ==>
        var user := User(newUserId, email, None);
        && usersService.rows == old(usersService.rows) + [User(newUserId, email, Some(hashingService.hash(password)))]
        && r.value == Session(AccessToken(jwt, config, user, now), RefreshToken(jwt, config, user, freshId, now), user)
        && storage.entries == AfterInsert(old(storage.entries), newUserId, freshId)
        && storage.writes == old(storage.writes) + [Set(Key(newUserId), freshId)]
    {
      var digest := hashingService.hash(password);
      var created := usersService.Create(newUserId, email, digest);
      if created.Err? {
        return Err(SignUpFailure(created.error));
      }
      var user := created.value;
      var accessToken, refreshToken := GenerateTokens(user, freshId, now);
      return Ok(Session(accessToken, refreshToken, user));
    }

    /**
     * `signIn`: an unknown email and a wrong password fail alike with
     * "Invalid credentials" and leave the store untouched; otherwise new
     * tokens are issued, superseding the user's previous refresh-token id.
     */
    method SignIn(email: string, password: string, now: int, freshId: string) returns (r: Result<Session, HttpException>)
      requires Valid() && freshId !in issued
      modifies storage, this`issued
      ensures Valid()
      ensures issued == old(issued) + (if r.Ok? then {freshId} else {})
      ensures var found := FindByEmail(usersService.rows, email);
        && (r.Ok? <==> found.Some? && hashingService.compare(password, found.value.password.value))
        && (r.Err? ==>
              && r.error == UnauthorizedException(InvalidCredentialsMessage)
              && storage.entries == old(storage.entries)
              && storage.writes == old(storage.writes))
        && (r.Ok? ==>
              var user := WithoutPassword(found.value);
              && r.value == Session(AccessToken(jwt, config, user, now), RefreshToken(jwt, config, user, freshId, now), user)
              && storage.entries == AfterInsert(old(storage.entries), user.id, freshId)
              && storage.writes == old(storage.writes) + [Set(Key(user.id), freshId)])
    {
      var found := FindByEmail(usersService.rows, email);
      if found.None? {
        return Err(UnauthorizedException(InvalidCredentialsMessage));
      }
      var isEqual := hashingService.compare(password, found.value.password.value);
      if !isEqual {
        return Err(UnauthorizedException(InvalidCredentialsMessage));
      }
      var user := WithoutPassword(found.value);  // `delete user.password`
      var accessToken, refreshToken := GenerateTokens(user, freshId, now);
      return Ok(Session(accessToken, refreshToken, user));
    }
  }

  /**
   * A refresh-token id consumed by a rotation stays revoked: after a
   * successful `refreshTokens` and a later `signIn` (of the same user or
   * another), the consumed id does not validate for its user.
   */
  method RotatedIdStaysRevoked(service: AuthenticationService, token: string, now: int, freshId: string,
                               email: string, password: string, later: int, laterId: string)
    returns (refreshed: Result<Session, HttpException>, signedIn: Result<Session, HttpException>)
    requires service.Valid() && freshId !in service.issued && laterId !in service.issued && freshId != laterId
    modifies service.storage, service
    ensures var check := CheckRefresh(service.jwt, service.usersService.rows, old(service.storage.entries), token, now);
      check.Accepted? ==>
        refreshed.Ok? && !Validates(service.storage.entries, check.user.id, check.tokenId)
  {
    ghost var check := CheckRefresh(service.jwt, service.usersService.rows, service.storage.entries, token, now);
    ghost var consumed := if check.Accepted? then check.tokenId else "";
    if check.Accepted? {
      assert service.storage.entries[Key(check.user.id)] == consumed;
      assert consumed in service.issued;
    }
    refreshed := service.RefreshTokens(token, now, freshId);
    signedIn := service.SignIn(email, password, later, laterId);
    if check.Accepted? {
      assert consumed in service.issued && laterId != consumed;
    }
  }
}
