/** JwtAuthenticationFilter: reads a bearer token from the Authorization header and, when
    the request is not yet authenticated and the token validates for the user it names,
    records that user as the request's authentication. */
module JwtFilter {
  import opened Types
  import opened JwtTokens
  import opened AppConstants

  /** String.startsWith. */
  predicate StartsWith(s: string, prefix: string) {
    |prefix| <= |s| && s[..|prefix|] == prefix
  }

  /** The token a header carries: the header minus its first 7 characters when it starts
      with "Bearer ", and nothing for a missing header or any other scheme. The filter
      writes both literals out; they equal AppConstants' TOKEN_PREFIX and its length. */
  function BearerToken(authHeader: Option<string>): (jwt: Option<string>)
    ensures jwt.Some? <==> authHeader.Some? && StartsWith(authHeader.value, TOKEN_PREFIX)
    ensures jwt.Some? ==> authHeader.value == TOKEN_PREFIX + jwt.value
  {
    if authHeader.None? || !StartsWith(authHeader.value, TOKEN_PREFIX) then None
    else
      var jwt := authHeader.value[7..];
      assert authHeader.value == authHeader.value[..7] + jwt;
      Some(jwt)
  }

  /** A UsernamePasswordAuthenticationToken: principal, credentials (always null here) and
      authorities. */
  datatype Authentication = Authentication(principal: UserDetails, credentials: Option<string>, authorities: seq<string>)

  /** What makes the filter hand the request to the exception resolver: an exception from
      the token utility, or loadUserByUsername's UsernameNotFoundException. */
  datatype FilterError = TokenRejected(error: JwtError) | UsernameNotFound(nickName: string)

  /** How the filter ends: the chain continues, or the exception resolver takes over. */
  datatype FilterOutcome = ChainContinued | ExceptionResolved(error: FilterError)

  /** The outcome of one pass and the context's authentication afterwards. */
  datatype FilterStep = FilterStep(outcome: FilterOutcome, authentication: Option<Authentication>)

  /** The four clock readings one pass makes, in this order: the parse inside the filter's
      own extractUsername, then the three of validateToken. */
  datatype FilterReads = FilterReads(usernameParse: int, validation: ValidationReads)

  /** Every parse of the pass reads the clock at or before t. */
  predicate ParsesBy(clock: FilterReads, t: int) {
    clock.usernameParse <= t && clock.validation.subjectParse <= t && clock.validation.expirationParse <= t
  }

  /** One pass of doFilterInternal, given the authentication already in the context. */
  function Filter(util: JwtTokenUtil, loadUserByUsername: string -> Option<UserDetails>,
                  existing: Option<Authentication>, authHeader: Option<string>, clock: FilterReads): FilterStep
  {
    match BearerToken(authHeader)
    case None => FilterStep(ChainContinued, existing)
    case Some(jwt) =>
      match util.ExtractUsername(jwt, clock.usernameParse)
      case Failure(e) => FilterStep(ExceptionResolved(TokenRejected(e)), existing)
      case Success(nickName) =>
        if nickName.None? || existing.Some? then FilterStep(ChainContinued, existing)
        else
          match loadUserByUsername(nickName.value)
          case None => FilterStep(ExceptionResolved(UsernameNotFound(nickName.value)), existing)
          case Some(userDetails) =>
            match util.ValidateToken(jwt, userDetails, clock.validation)
            case Failure(e) => FilterStep(ExceptionResolved(TokenRejected(e)), existing)
            case Success(valid) =>
              if valid then FilterStep(ChainContinued, Some(Authentication(userDetails, None, userDetails.authorities)))
              else FilterStep(ChainContinued, existing)
  }

  /** The request carries a token that names a user the loader knows and validates for
      that user, at the pass's clock readings. */
  predicate Authenticates(util: JwtTokenUtil, loadUserByUsername: string -> Option<UserDetails>,
                          authHeader: Option<string>, clock: FilterReads, userDetails: UserDetails)
  {
    && BearerToken(authHeader).Some?
    && var jwt := BearerToken(authHeader).value;
    && util.ExtractUsername(jwt, clock.usernameParse).Success?
    && util.ExtractUsername(jwt, clock.usernameParse).value.Some?
    && loadUserByUsername(util.ExtractUsername(jwt, clock.usernameParse).value.value) == Some(userDetails)
    && util.ValidateToken(jwt, userDetails, clock.validation) == Success(true)
  }

  // ---------------------------------------------------------------------------------
  // Lemmas

  /** Prefixing a token with "Bearer " and extracting it gives the token back. */
  lemma BearerTokenOfPrefixed(jwt: string)
    ensures BearerToken(Some(TOKEN_PREFIX + jwt)) == Some(jwt)
  {
    var header := TOKEN_PREFIX + jwt;
    assert header[..|TOKEN_PREFIX|] == TOKEN_PREFIX;
    assert header[7..] == jwt;
  }

  /** A missing header or one with another scheme changes nothing and continues the chain. */
  lemma NoBearerNoChange(util: JwtTokenUtil, load: string -> Option<UserDetails>,
                         existing: Option<Authentication>, authHeader: Option<string>, clock: FilterReads)
    requires authHeader.None? || !StartsWith(authHeader.value, TOKEN_PREFIX)
    ensures Filter(util, load, existing, authHeader, clock) == FilterStep(ChainContinued, existing)
  {
  }

  /** An authentication already in the context is never replaced or cleared. */
  lemma ExistingAuthenticationKept(util: JwtTokenUtil, load: string -> Option<UserDetails>,
                                   existing: Option<Authentication>, authHeader: Option<string>, clock: FilterReads)
    requires existing.Some?
    ensures Filter(util, load, existing, authHeader, clock).authentication == existing
  {
  }

  /** On an unauthenticated request the filter sets an authentication exactly when the token
      authenticates some user, and then it is that user, with null credentials and that
      user's authorities; otherwise the context stays empty. */
  lemma AuthenticationSetIff(util: JwtTokenUtil, load: string -> Option<UserDetails>,
                             authHeader: Option<string>, clock: FilterReads)
    ensures var step := Filter(util, load, None, authHeader, clock);
      && (step.authentication.Some? <==> exists u :: Authenticates(util, load, authHeader, clock, u))
      && (forall u :: Authenticates(util, load, authHeader, clock, u) ==>
            step.authentication == Some(Authentication(u, None, u.authorities)))
  {
    var step := Filter(util, load, None, authHeader, clock);
    if step.authentication.Some? {
      assert Authenticates(util, load, authHeader, clock, step.authentication.value.principal);
    }
  }

  /** A pass that ends in the exception resolver leaves the context as it was. */
  lemma FailureKeepsContext(util: JwtTokenUtil, load: string -> Option<UserDetails>,
                            existing: Option<Authentication>, authHeader: Option<string>, clock: FilterReads)
    requires Filter(util, load, existing, authHeader, clock).outcome.ExceptionResolved?
    ensures Filter(util, load, existing, authHeader, clock).authentication == existing
  {
  }

  /** End to end: a token this component generated for a user the loader knows, presented
      as "Bearer <token>" on an unauthenticated request, against its whole-second
      expiration E. When every parse reads at or before E, the chain continues and the
      user is authenticated exactly when `new Date()` is not after E either; when some
      parse reads after E, the parser's ExpiredJwtException sends the request to the
      exception resolver. Either way nobody else is authenticated. */
  lemma GeneratedBearerAuthenticates(util: JwtTokenUtil, load: string -> Option<UserDetails>,
                                     user: UserDetails, issuedAt: int, clock: FilterReads)
    requires Lawful(util.codec) && load(user.username) == Some(user)
    ensures var step := Filter(util, load, None, Some(TOKEN_PREFIX + util.GenerateToken(user, issuedAt)), clock);
      var e := GeneratedExpiration(util, issuedAt);
      && (ParsesBy(clock, e) && clock.validation.comparison <= e ==>
            step == FilterStep(ChainContinued, Some(Authentication(user, None, user.authorities))))
      && (ParsesBy(clock, e) && clock.validation.comparison > e ==>
            step == FilterStep(ChainContinued, None))
      && (!ParsesBy(clock, e) ==>
            step == FilterStep(ExceptionResolved(TokenRejected(ExpiredJwt)), None))
  {
    BearerTokenOfPrefixed(util.GenerateToken(user, issuedAt));
    GeneratedTokenClaims(util, user, issuedAt, clock.usernameParse);
    GeneratedTokenValidity(util, user, user, issuedAt, clock.validation);
  }

  /** A token signed under another secret sends the request to the resolver with a
      signature error and authenticates nobody. */
  lemma ForeignBearerRejected(util: JwtTokenUtil, issuer: JwtTokenUtil, load: string -> Option<UserDetails>,
                              user: UserDetails, existing: Option<Authentication>, issuedAt: int, clock: FilterReads)
    requires Lawful(issuer.codec) && util.codec == issuer.codec && util.secret != issuer.secret
    ensures Filter(util, load, existing, Some(TOKEN_PREFIX + issuer.GenerateToken(user, issuedAt)), clock) ==
      FilterStep(ExceptionResolved(TokenRejected(SignatureMismatch)), existing)
  {
    BearerTokenOfPrefixed(issuer.GenerateToken(user, issuedAt));
    OtherKeyRejected(issuer, util, user, issuedAt, clock.usernameParse, clock.validation);
  }

  // ---------------------------------------------------------------------------------
  // The filter

  /** SecurityContextHolder's context for the current request. */
  class SecurityContext {
    var authentication: Option<Authentication>

    constructor ()
      ensures authentication == None
    {
      authentication := None;
    }
  }

  class JwtAuthenticationFilter {
    const jwtTokenUtil: JwtTokenUtil
    /** userDetailsService.loadUserByUsername; None stands for UsernameNotFoundException. */
    const userDetailsService: string -> Option<UserDetails>
    const context: SecurityContext

    constructor (jwtTokenUtil: JwtTokenUtil, userDetailsService: string -> Option<UserDetails>, context: SecurityContext)
      ensures this.jwtTokenUtil == jwtTokenUtil && this.userDetailsService == userDetailsService
      ensures this.context == context
    {
      this.jwtTokenUtil := jwtTokenUtil;
      this.userDetailsService := userDetailsService;
      this.context := context;
    }

    /** doFilterInternal, with the Authorization header's value and the pass's clock
        readings as inputs. */
    method DoFilterInternal(authHeader: Option<string>, clock: FilterReads) returns (outcome: FilterOutcome)
      modifies context
      ensures FilterStep(outcome, context.authentication) ==
        Filter(jwtTokenUtil, userDetailsService, old(context.authentication), authHeader, clock)
      ensures old(context.authentication).Some? ==> context.authentication == old(context.authentication)
      ensures outcome.ExceptionResolved? ==> context.authentication == old(context.authentication)
      ensures context.authentication != old(context.authentication) ==>
        exists u :: Authenticates(jwtTokenUtil, userDetailsService, authHeader, clock, u) &&
          context.authentication == Some(Authentication(u, None, u.authorities))
    {
      if authHeader.None? || !StartsWith(authHeader.value, TOKEN_PREFIX) {
        outcome := ChainContinued;
        return;
      }
      var jwt := authHeader.value[7..];
      assert BearerToken(authHeader) == Some(jwt);
      var nickName := jwtTokenUtil.ExtractUsername(jwt, clock.usernameParse);
      if nickName.Failure? {
        outcome := ExceptionResolved(TokenRejected(nickName.error));
        return;
      }
      var authentication := context.authentication;
      if nickName.value.Some? && authentication.None? {
        var userDetails := userDetailsService(nickName.value.value);
        if userDetails.None? {
          outcome := ExceptionResolved(UsernameNotFound(nickName.value.value));
          return;
        }
        var valid := jwtTokenUtil.ValidateToken(jwt, userDetails.value, clock.validation);
        match valid {
          case Failure(e) =>
            outcome := ExceptionResolved(TokenRejected(e));
            return;
          case Success(isValid) =>
            if isValid {
              context.authentication := Some(Authentication(userDetails.value, None, userDetails.value.authorities));
              assert Authenticates(jwtTokenUtil, userDetailsService, authHeader, clock, userDetails.value);
            }
        }
      }
      outcome := ChainContinued;
    }
  }
}
