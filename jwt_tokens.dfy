/** JwtTokenUtil: issuing and checking signed, time-bounded identity tokens. A token is
    modelled by what it carries (its claims and the key it was signed with); turning that
    into the compact string and back is the JWT library's job and is a parameter. */
module JwtTokens {
  import opened Types

  /** The claims a token carries: the extra claims map, the subject ("sub", possibly
      absent), and issuedAt / expiration in milliseconds since the epoch. */
  datatype Claims = Claims(extra: map<string, string>, subject: Option<string>, issuedAt: int, expiration: int)

  /** What the compact string encodes: the claims and the key they were signed with. */
  datatype SignedJwt = SignedJwt(claims: Claims, signingKey: string)

  /** The library's encoder (builder().compact()) and decoder of compact strings. */
  datatype JwtCodec = JwtCodec(compact: SignedJwt -> string, parse: string -> Option<SignedJwt>)

  /** Decoding a string the encoder produced gives back what was encoded. */
  ghost predicate Lawful(codec: JwtCodec) {
    forall j :: codec.parse(codec.compact(j)) == Some(j)
  }

  /** The exceptions claim extraction and validation can raise: an unparsable string, a
      signature made with another key, an expiration before the parser's clock
      (ExpiredJwtException), and the NullPointerException validateToken raises when the
      token has no subject. */
  datatype JwtError = MalformedJwt | SignatureMismatch | ExpiredJwt | MissingSubject

  /** The part of Spring's UserDetails the core uses. */
  datatype UserDetails = UserDetails(username: string, password: string, authorities: seq<string>)

  /** A Date as the library stores it in a claim: whole seconds since the epoch, with
      the milliseconds dropped by Java's truncating division, read back in milliseconds. */
  function WholeSeconds(ms: int): (r: int)
    ensures r % 1000 == 0
    ensures 0 <= ms ==> r <= ms < r + 1000
    ensures ms < 0 ==> r - 1000 < ms <= r
  {
    if ms >= 0 then ms / 1000 * 1000 else -((-ms) / 1000 * 1000)
  }

  /** The three clock readings one validateToken call makes, in this order: the parse inside
      extractUsername, the parse inside extractExpiration, and the `new Date()` that
      isTokenExpired compares the expiration with. */
  datatype ValidationReads = ValidationReads(subjectParse: int, expirationParse: int, comparison: int)

  /** The component, with its two configuration values (jwt.secret, jwt.expirationMs). */
  datatype JwtTokenUtil = JwtTokenUtil(secret: string, expirationMs: int, codec: JwtCodec) {

    /** getSigningKey: the HMAC key made from the secret; a key is identified by its secret. */
    function SigningKey(): string {
      secret
    }

    /** createToken, with both clock reads taken as one value now. The library writes iat
        and exp as whole seconds. */
    function CreateToken(claims: map<string, string>, subject: string, now: int): string {
      codec.compact(SignedJwt(Claims(claims, Some(subject), WholeSeconds(now), WholeSeconds(now + expirationMs)), SigningKey()))
    }

    /** generateToken: a token for the user's username with no extra claims. */
    function GenerateToken(userDetails: UserDetails, now: int): string {
      CreateToken(map[], userDetails.username, now)
    }

    /** extractAllClaims: parseSignedClaims checks the signature against this component's
        key, then rejects a token whose expiration is before the clock (no clock skew is
        configured). */
    function ExtractAllClaims(token: string, now: int): (r: Result<Claims, JwtError>)
      ensures r.Success? <==>
        && codec.parse(token).Some?
        && codec.parse(token).value.signingKey == SigningKey()
        && now <= codec.parse(token).value.claims.expiration
      ensures r.Success? ==> r.value == codec.parse(token).value.claims
      ensures codec.parse(token).None? ==> r == Failure(MalformedJwt)
      ensures codec.parse(token).Some? && codec.parse(token).value.signingKey != SigningKey() ==>
        r == Failure(SignatureMismatch)
      ensures r == Failure(ExpiredJwt) <==>
        && codec.parse(token).Some?
        && codec.parse(token).value.signingKey == SigningKey()
        && codec.parse(token).value.claims.expiration < now
    {
      match codec.parse(token)
      case None => Failure(MalformedJwt)
      case Some(jwt) =>
        if jwt.signingKey != SigningKey() then Failure(SignatureMismatch)
        else if jwt.claims.expiration < now then Failure(ExpiredJwt)
        else Success(jwt.claims)
    }

    /** extractUsername: the subject claim (null when absent). */
    function ExtractUsername(token: string, now: int): Result<Option<string>, JwtError> {
      match ExtractAllClaims(token, now)
      case Failure(e) => Failure(e)
      case Success(claims) => Success(claims.subject)
    }

    /** extractExpiration: the expiration claim. */
    function ExtractExpiration(token: string, now: int): Result<int, JwtError> {
      match ExtractAllClaims(token, now)
      case Failure(e) => Failure(e)
      case Success(claims) => Success(claims.expiration)
    }

    /** isTokenExpired: expiration.before(new Date()), a strict comparison. The expiration
        comes from a parse at parseNow; the Date it is compared with is a later reading now. */
    function IsTokenExpired(token: string, parseNow: int, now: int): (r: Result<bool, JwtError>)
      ensures r.Success? <==> ExtractAllClaims(token, parseNow).Success?
      ensures r.Success? ==> (r.value <==> ExtractAllClaims(token, parseNow).value.expiration < now)
      ensures r.Failure? ==> r == Failure(ExtractAllClaims(token, parseNow).error)
    {
      match ExtractExpiration(token, parseNow)
      case Failure(e) => Failure(e)
      case Success(expiration) => Success(expiration < now)
    }

    /** validateToken: the subject equals the user's username and the token is not expired.
        Java's && skips isTokenExpired when the names differ; a null subject makes
        username.equals raise. */
    function ValidateToken(token: string, userDetails: UserDetails, clock: ValidationReads): Result<bool, JwtError> {
      match ExtractUsername(token, clock.subjectParse)
      case Failure(e) => Failure(e)
      case Success(None) => Failure(MissingSubject)
      case Success(Some(username)) =>
        if username != userDetails.username then Success(false)
        else
          match IsTokenExpired(token, clock.expirationParse, clock.comparison)
          case Failure(e) => Failure(e)
          case Success(expired) => Success(!expired)
    }
  }

  /** The expiration a token generated at issuedAt carries: issuance + expirationMs,
      truncated to a whole second. */
  function GeneratedExpiration(util: JwtTokenUtil, issuedAt: int): int {
    WholeSeconds(issuedAt + util.expirationMs)
  }

  // ---------------------------------------------------------------------------------
  // Lemmas

  /** A generated token carries exactly the user's username as subject, no extra claims,
      and issuance and issuance + expirationMs, each truncated to a whole second. It is
      read back until that expiration and refused as expired after it. */
  lemma GeneratedTokenClaims(util: JwtTokenUtil, user: UserDetails, issuedAt: int, now: int)
    requires Lawful(util.codec)
    ensures now <= GeneratedExpiration(util, issuedAt) ==>
      util.ExtractAllClaims(util.GenerateToken(user, issuedAt), now) ==
        Success(Claims(map[], Some(user.username), WholeSeconds(issuedAt), GeneratedExpiration(util, issuedAt)))
    ensures now > GeneratedExpiration(util, issuedAt) ==>
      util.ExtractAllClaims(util.GenerateToken(user, issuedAt), now) == Failure(ExpiredJwt)
  {
    var jwt := SignedJwt(Claims(map[], Some(user.username), WholeSeconds(issuedAt), GeneratedExpiration(util, issuedAt)), util.SigningKey());
    assert util.codec.parse(util.codec.compact(jwt)) == Some(jwt);
  }

  /** Round trip: the username extracted from an unexpired generated token is the user's. */
  lemma ExtractUsernameOfGenerated(util: JwtTokenUtil, user: UserDetails, issuedAt: int, now: int)
    requires Lawful(util.codec) && now <= GeneratedExpiration(util, issuedAt)
    ensures util.ExtractUsername(util.GenerateToken(user, issuedAt), now) == Success(Some(user.username))
  {
    GeneratedTokenClaims(util, user, issuedAt, now);
  }

  /** A token signed with one secret is rejected by a component holding another, at any
      time: the signature is checked before the expiration. */
  lemma OtherKeyRejected(issuer: JwtTokenUtil, verifier: JwtTokenUtil, user: UserDetails, issuedAt: int, now: int, clock: ValidationReads)
    requires Lawful(issuer.codec) && verifier.codec == issuer.codec
    requires verifier.secret != issuer.secret
    ensures verifier.ExtractAllClaims(issuer.GenerateToken(user, issuedAt), now) == Failure(SignatureMismatch)
    ensures verifier.ValidateToken(issuer.GenerateToken(user, issuedAt), user, clock) == Failure(SignatureMismatch)
  {
    var jwt := SignedJwt(Claims(map[], Some(user.username), WholeSeconds(issuedAt), GeneratedExpiration(issuer, issuedAt)), issuer.SigningKey());
    assert issuer.codec.parse(issuer.codec.compact(jwt)) == Some(jwt);
  }

  /** validateToken answers true exactly when the token parses under this key, its subject
      is the user's username, and none of the three clock readings is past its expiration
      (a reading equal to the expiration still passes). */
  lemma ValidateTokenIff(util: JwtTokenUtil, token: string, user: UserDetails, clock: ValidationReads)
    ensures util.ValidateToken(token, user, clock) == Success(true) <==>
      && util.codec.parse(token).Some?
      && util.codec.parse(token).value.signingKey == util.SigningKey()
      && util.codec.parse(token).value.claims.subject == Some(user.username)
      && clock.subjectParse <= util.codec.parse(token).value.claims.expiration
      && clock.expirationParse <= util.codec.parse(token).value.claims.expiration
      && clock.comparison <= util.codec.parse(token).value.claims.expiration
  {
  }

  /** isTokenExpired answers true exactly when its parse reads the clock at or before the
      expiration and its `new Date()` reads after it; with one reading for both it never
      does. So validation answers false for the token's own subject only in that window. */
  lemma ExpiredAnswerWindow(util: JwtTokenUtil, token: string, user: UserDetails, clock: ValidationReads)
    ensures util.IsTokenExpired(token, clock.expirationParse, clock.comparison) == Success(true) <==>
      && util.codec.parse(token).Some?
      && util.codec.parse(token).value.signingKey == util.SigningKey()
      && clock.expirationParse <= util.codec.parse(token).value.claims.expiration < clock.comparison
    ensures util.IsTokenExpired(token, clock.comparison, clock.comparison) != Success(true)
    ensures
      && util.ValidateToken(token, user, clock) == Success(false)
      && util.ExtractUsername(token, clock.subjectParse) == Success(Some(user.username))
      ==> util.IsTokenExpired(token, clock.expirationParse, clock.comparison) == Success(true)
  {
  }

  /** A token whose subject is not the user's never validates for that user, however the
      clock reads fall; with a subject present the answer is false. */
  lemma NoValidationForOtherUser(util: JwtTokenUtil, token: string, user: UserDetails, clock: ValidationReads)
    requires util.ExtractUsername(token, clock.subjectParse).Success?
    requires util.ExtractUsername(token, clock.subjectParse).value != Some(user.username)
    ensures util.ValidateToken(token, user, clock) != Success(true)
    ensures util.ExtractUsername(token, clock.subjectParse).value.Some? ==>
      util.ValidateToken(token, user, clock) == Success(false)
  {
  }

  /** Validation of a generated token, case by case on the three readings against its
      truncated expiration E: a first parse after E raises ExpiredJwtException; otherwise
      another user gets false; for the token's own user a second parse after E raises,
      and else the answer is true exactly when `new Date()` is not after E. */
  lemma GeneratedTokenValidity(util: JwtTokenUtil, user: UserDetails, other: UserDetails, issuedAt: int, clock: ValidationReads)
    requires Lawful(util.codec)
    ensures clock.subjectParse > GeneratedExpiration(util, issuedAt) ==>
      util.ValidateToken(util.GenerateToken(user, issuedAt), other, clock) == Failure(ExpiredJwt)
    ensures clock.subjectParse <= GeneratedExpiration(util, issuedAt) && other.username != user.username ==>
      util.ValidateToken(util.GenerateToken(user, issuedAt), other, clock) == Success(false)
    ensures clock.subjectParse <= GeneratedExpiration(util, issuedAt) && other.username == user.username ==>
      util.ValidateToken(util.GenerateToken(user, issuedAt), other, clock) ==
        if clock.expirationParse > GeneratedExpiration(util, issuedAt) then Failure(ExpiredJwt)
        else Success(clock.comparison <= GeneratedExpiration(util, issuedAt))
  {
    GeneratedTokenClaims(util, user, issuedAt, clock.subjectParse);
    GeneratedTokenClaims(util, user, issuedAt, clock.expirationParse);
  }

  /** The window exists: when both parses read exactly the expiration E and `new Date()`
      reads one millisecond later, a generated token is refused, without an exception, to
      its own user. */
  lemma LateComparisonRefusesOwner(util: JwtTokenUtil, user: UserDetails, issuedAt: int)
    requires Lawful(util.codec)
    ensures var e := GeneratedExpiration(util, issuedAt);
      util.ValidateToken(util.GenerateToken(user, issuedAt), user, ValidationReads(e, e, e + 1)) == Success(false)
  {
    var e := GeneratedExpiration(util, issuedAt);
    GeneratedTokenValidity(util, user, user, issuedAt, ValidationReads(e, e, e + 1));
  }

  /** With both parses at exactly issuance + expirationMs (after the epoch), a generated
      token gets past the parser only when that instant falls on a whole second; otherwise
      the truncated expiration has already passed. Past the parser, the answer is true
      exactly when `new Date()` reads no later than that instant. */
  lemma NominalExpirationInstant(util: JwtTokenUtil, user: UserDetails, issuedAt: int, comparison: int)
    requires Lawful(util.codec) && 0 <= issuedAt + util.expirationMs
    ensures var n := issuedAt + util.expirationMs;
      util.ValidateToken(util.GenerateToken(user, issuedAt), user, ValidationReads(n, n, comparison)) ==
        if n % 1000 == 0 then Success(comparison <= n) else Failure(ExpiredJwt)
  {
    var n := issuedAt + util.expirationMs;
    GeneratedTokenValidity(util, user, user, issuedAt, ValidationReads(n, n, comparison));
  }
}
