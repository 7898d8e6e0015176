/**
 * `AuthenticationGuard` (src/iam/authentication/guards/authentication.guard.ts):
 * the auth types a route declares (default `[BEARER]`) name guards, which are
 * tried in order; the first that returns a truthy value admits the request,
 * and if none does, the last exception caught is rethrown (a fresh
 * `UnauthorizedException` when none was caught).
 */
module AuthenticationGuards {
  import opened Wrappers
  import opened Exceptions
  import opened TokenCodec
  import opened AccessTokenGuards

  datatype AuthType = BEARER | NONE

  /** The guards `authTypeGuardMap` can name. */
  datatype GuardInstance = AccessTokenGuardInstance | AllowAllGuard

  /** `authTypeGuardMap`: bearer to the access-token guard, none to a guard returning true. */
  function AuthTypeGuard(authType: AuthType): (guard: GuardInstance)
    ensures guard == AllowAllGuard <==> authType == NONE
    ensures guard == AccessTokenGuardInstance <==> authType == BEARER
  {
    match authType
    case BEARER => AccessTokenGuardInstance
    case NONE => AllowAllGuard
  }

  /** The route metadata, or `[BEARER]` when the route declares none. */
  function RequestedAuthTypes(metadata: Option<seq<AuthType>>): seq<AuthType>
  {
    metadata.GetOr([BEARER])
  }

  /** The guards for the requested auth types, in order. */
  function GuardsFor(authTypes: seq<AuthType>): (guards: seq<GuardInstance>)
    ensures |guards| == |authTypes|
    ensures forall i :: 0 <= i < |authTypes| ==> guards[i] == AuthTypeGuard(authTypes[i])
  {
    seq(|authTypes|, i requires 0 <= i < |authTypes| => AuthTypeGuard(authTypes[i]))
  }

  /** What one guard yields for a request with this header at time `now`. */
  function GuardOutcome(guard: GuardInstance, jwt: JwtService, authorization: Option<string>, now: int): GuardResult
  {
    match guard
    case AllowAllGuard => Returned(true)
    case AccessTokenGuardInstance => BearerOutcome(jwt, authorization, now)
  }

  function Outcomes(guards: seq<GuardInstance>, jwt: JwtService, authorization: Option<string>, now: int): (os: seq<GuardResult>)
    ensures |os| == |guards|
    ensures forall i :: 0 <= i < |guards| ==> os[i] == GuardOutcome(guards[i], jwt, authorization, now)
  {
    seq(|guards|, i requires 0 <= i < |guards| => GuardOutcome(guards[i], jwt, authorization, now))
  }

  /**
   * The loop of `canActivate` over the guards' outcomes, with `error` the
   * exception recorded so far: a `true` return admits, a thrown exception
   * replaces the recorded one, a `false` return changes nothing.
   */
  function Resolve(outcomes: seq<GuardResult>, error: HttpException): (r: GuardResult)
    ensures r != Returned(false)
    ensures r == Returned(true) <==> exists i :: 0 <= i < |outcomes| && outcomes[i] == Returned(true)
  {
    if |outcomes| == 0 then Threw(error)
    else
      assert forall i :: 1 <= i < |outcomes| ==> outcomes[i] == outcomes[1..][i - 1];
      match outcomes[0]
      case Returned(true) => Returned(true)
      case Returned(false) => Resolve(outcomes[1..], error)
      case Threw(e) => Resolve(outcomes[1..], e)
  }

  /** The exception thrown by the last guard that threw, or `error` if none did. */
  function LastThrown(outcomes: seq<GuardResult>, error: HttpException): HttpException
  {
    if |outcomes| == 0 then error
    else if outcomes[|outcomes| - 1].Threw? then outcomes[|outcomes| - 1].error
    else LastThrown(outcomes[..|outcomes| - 1], error)
  }

  lemma {:induction false} LastThrownCons(o: GuardResult, rest: seq<GuardResult>, error: HttpException)
    ensures LastThrown([o] + rest, error) == LastThrown(rest, if o.Threw? then o.error else error)
    decreases |rest|
  {
    var os := [o] + rest;
    if |rest| > 0 {
      assert os[..|os| - 1] == [o] + rest[..|rest| - 1];
      LastThrownCons(o, rest[..|rest| - 1], error);
    }
  }

  /**
   * The dispatcher admits iff some guard returns true; otherwise it throws
   * the last exception caught, or the initial one when no guard threw.
   */
  lemma {:induction false} ResolveSpec(outcomes: seq<GuardResult>, error: HttpException)
    ensures Resolve(outcomes, error) ==
            if exists i :: 0 <= i < |outcomes| && outcomes[i] == Returned(true) then Returned(true)
            else Threw(LastThrown(outcomes, error))
    decreases |outcomes|
  {
    if |outcomes| > 0 {
      var o := outcomes[0];
      var rest := outcomes[1..];
      assert outcomes == [o] + rest;
      var next := if o.Threw? then o.error else error;
      ResolveSpec(rest, next);
      LastThrownCons(o, rest, error);
      if o != Returned(true) {
        assert (exists i :: 0 <= i < |outcomes| && outcomes[i] == Returned(true)) <==>
               (exists i :: 0 <= i < |rest| && rest[i] == Returned(true)) by {
          forall i | 0 <= i < |rest| ensures rest[i] == outcomes[i + 1] { }
          if exists i :: 0 <= i < |outcomes| && outcomes[i] == Returned(true) {
            var i :| 0 <= i < |outcomes| && outcomes[i] == Returned(true);
            assert rest[i - 1] == Returned(true);
          }
        }
      }
    }
  }

  /** A guard returning false after the others does not replace the recorded exception. */
  lemma FalseKeepsError(outcomes: seq<GuardResult>, error: HttpException)
    ensures Resolve(outcomes + [Returned(false)], error) == Resolve(outcomes, error)
  {
    var os := outcomes + [Returned(false)];
    ResolveSpec(os, error);
    ResolveSpec(outcomes, error);
    assert os[..|os| - 1] == outcomes;
    if exists i :: 0 <= i < |os| && os[i] == Returned(true) {
      var i :| 0 <= i < |os| && os[i] == Returned(true);
      assert outcomes[i] == Returned(true);
    }
  }

  /** A guard that returns true admits whatever the guards after it would do. */
  lemma FirstSuccessShortCircuits(before: seq<GuardResult>, after: seq<GuardResult>, error: HttpException)
    ensures Resolve(before + [Returned(true)] + after, error) == Returned(true)
  {
    var os := before + [Returned(true)] + after;
    ResolveSpec(os, error);
    assert os[|before|] == Returned(true);
  }

  /** A route declaring `NONE` among its auth types admits every request. */
  lemma NoneAdmits(authTypes: seq<AuthType>, jwt: JwtService, authorization: Option<string>, now: int)
    requires NONE in authTypes
    ensures Resolve(Outcomes(GuardsFor(authTypes), jwt, authorization, now),
                    UnauthorizedException(DefaultUnauthorizedMessage)) == Returned(true)
  {
    var os := Outcomes(GuardsFor(authTypes), jwt, authorization, now);
    ResolveSpec(os, UnauthorizedException(DefaultUnauthorizedMessage));
    var i :| 0 <= i < |authTypes| && authTypes[i] == NONE;
    assert os[i] == Returned(true);
  }

  /** An explicitly empty auth-type list always throws the initial `UnauthorizedException`. */
  lemma EmptyAuthTypesThrow(jwt: JwtService, authorization: Option<string>, now: int)
    ensures Resolve(Outcomes(GuardsFor(RequestedAuthTypes(Some([]))), jwt, authorization, now),
                    UnauthorizedException(DefaultUnauthorizedMessage))
            == Threw(UnauthorizedException(DefaultUnauthorizedMessage))
  {
  }

  /** A route without metadata is guarded by the bearer guard alone. */
  lemma DefaultIsBearer(jwt: JwtService, authorization: Option<string>, now: int)
    ensures Resolve(Outcomes(GuardsFor(RequestedAuthTypes(None)), jwt, authorization, now),
                    UnauthorizedException(DefaultUnauthorizedMessage))
            == BearerOutcome(jwt, authorization, now)
  {
    var os := Outcomes(GuardsFor(RequestedAuthTypes(None)), jwt, authorization, now);
    assert os == [BearerOutcome(jwt, authorization, now)];
    assert os[1..] == [];
  }

  /**
   * The claims written to the request: those of the first guard that
   * admits, when that guard is the access-token guard; nothing otherwise.
   */
  function AttachedClaims(guards: seq<GuardInstance>, jwt: JwtService, authorization: Option<string>, now: int): Option<Claims>
  {
    if |guards| == 0 then None
    else if GuardOutcome(guards[0], jwt, authorization, now) == Returned(true) then
      if guards[0] == AccessTokenGuardInstance
      then Some(Verify(jwt, ExtractTokenFromHeader(authorization).value, now).value)
      else None
    else AttachedClaims(guards[1..], jwt, authorization, now)
  }

  class AuthenticationGuard {
    const accessTokenGuard: AccessTokenGuard

    constructor(accessTokenGuard: AccessTokenGuard)
      ensures this.accessTokenGuard == accessTokenGuard
    {
      this.accessTokenGuard := accessTokenGuard;
    }

    /**
     * `canActivate`: the outcome is `Resolve` over the guards' outcomes,
     * starting from a fresh `UnauthorizedException`; the request gains the
     * claims of the first admitting guard when that is the access-token
     * guard, and guards after it are not run.
     */
    method CanActivate(request: Request, metadata: Option<seq<AuthType>>, now: int) returns (r: GuardResult)
      modifies request
      ensures var guards := GuardsFor(RequestedAuthTypes(metadata));
        && r == Resolve(Outcomes(guards, accessTokenGuard.jwt, request.authorization, now),
                        UnauthorizedException(DefaultUnauthorizedMessage))
        && var attached := AttachedClaims(guards, accessTokenGuard.jwt, request.authorization, now);
           request.user == if attached.Some? then attached else old(request.user)
    {
      var authTypes := if metadata.Some? then metadata.value else [BEARER];
      var guards := GuardsFor(authTypes);
      ghost var jwt := accessTokenGuard.jwt;
      ghost var outcomes := Outcomes(guards, jwt, request.authorization, now);
      var error := UnauthorizedException(DefaultUnauthorizedMessage);
      for i := 0 to |guards|
        invariant Resolve(outcomes, UnauthorizedException(DefaultUnauthorizedMessage)) == Resolve(outcomes[i..], error)
        invariant AttachedClaims(guards, jwt, request.authorization, now) == AttachedClaims(guards[i..], jwt, request.authorization, now)
        invariant request.user == old(request.user)
      {
        assert outcomes[i..][1..] == outcomes[i + 1..];
        assert guards[i..][1..] == guards[i + 1..];
        var outcome: GuardResult;
        match guards[i] {
          case AllowAllGuard =>
            outcome := Returned(true);
          case AccessTokenGuardInstance =>
            outcome := accessTokenGuard.CanActivate(request, now);
        }
        if outcome.Threw? {
          error := outcome.error;
        }
        if outcome == Returned(true) {
          return Returned(true);
        }
      }
      return Threw(error);
    }
  }
}
