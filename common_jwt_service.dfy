/** The shared token validator: the claim accessors, the four checks, and
    `validateToken`, which runs the checks in a fixed order, stops at the first
    that fails and turns every failure, thrown or not, into `false`.

    The parser is `codec.parse` at the caller's clock reading `now`; one
    reading serves every check of one `validateToken` call. */
module CommonJwtService {
  import opened Wrappers
  import opened ClaimsModel

  /** What a check can throw before `validateToken`'s catch turns it into
      `false`. */
  datatype Fault =
    | ParseFailure    // `parseClaimsJws` threw: bad signature or format, or the parser's own checks
    | NullExpiration  // `expiration.before(...)` on a payload without `exp`

  /** Why `validateToken` returned `false`. */
  datatype Rejection =
    | Threw(fault: Fault)
    | NotActive
    | AudienceInvalid
    | TokenExpired
    | IssuerInvalid

  /** `parser.parseClaimsJws(token).getBody()`. */
  function ParseClaimsJws(codec: Codec, token: Token, now: Millis): Result<Claims, Fault> {
    match codec.parse(token, now)
    case Some(c) => Success(c)
    case None => Failure(ParseFailure)
  }

  /** One claim of the parsed body; throws only when parsing throws. The
      nine accessors below are this, each with its own claim. */
  function Extract<T>(codec: Codec, token: Token, now: Millis, claim: Claims -> T): Result<T, Fault> {
    match ParseClaimsJws(codec, token, now)
    case Success(c) => Success(claim(c))
    case Failure(f) => Failure(f)
  }

  function ExtractUsername(codec: Codec, token: Token, now: Millis): (r: Result<Option<string>, Fault>)
    ensures r.Failure? <==> codec.parse(token, now).None?
    ensures r.Success? ==> r.value == codec.parse(token, now).value.sub
  {
    Extract(codec, token, now, (c: Claims) => c.sub)
  }

  function ExtractEmail(codec: Codec, token: Token, now: Millis): (r: Result<Option<string>, Fault>)
    ensures r.Failure? <==> codec.parse(token, now).None?
    ensures r.Success? ==> r.value == codec.parse(token, now).value.email
  {
    Extract(codec, token, now, (c: Claims) => c.email)
  }

  function ExtractRole(codec: Codec, token: Token, now: Millis): (r: Result<Option<string>, Fault>)
    ensures r.Failure? <==> codec.parse(token, now).None?
    ensures r.Success? ==> r.value == codec.parse(token, now).value.role
  {
    Extract(codec, token, now, (c: Claims) => c.role)
  }

  function ExtractIssuer(codec: Codec, token: Token, now: Millis): (r: Result<Option<string>, Fault>)
    ensures r.Failure? <==> codec.parse(token, now).None?
    ensures r.Success? ==> r.value == codec.parse(token, now).value.iss
  {
    Extract(codec, token, now, (c: Claims) => c.iss)
  }

  function ExtractAudience(codec: Codec, token: Token, now: Millis): (r: Result<Option<string>, Fault>)
    ensures r.Failure? <==> codec.parse(token, now).None?
    ensures r.Success? ==> r.value == codec.parse(token, now).value.aud
  {
    Extract(codec, token, now, (c: Claims) => c.aud)
  }

  function ExtractIssuedAt(codec: Codec, token: Token, now: Millis): (r: Result<Option<Millis>, Fault>)
    ensures r.Failure? <==> codec.parse(token, now).None?
    ensures r.Success? ==> r.value == codec.parse(token, now).value.iat
  {
    Extract(codec, token, now, (c: Claims) => c.iat)
  }

  function ExtractExpiration(codec: Codec, token: Token, now: Millis): (r: Result<Option<Millis>, Fault>)
    ensures r.Failure? <==> codec.parse(token, now).None?
    ensures r.Success? ==> r.value == codec.parse(token, now).value.exp
  {
    Extract(codec, token, now, (c: Claims) => c.exp)
  }

  function ExtractNotBefore(codec: Codec, token: Token, now: Millis): (r: Result<Option<Millis>, Fault>)
    ensures r.Failure? <==> codec.parse(token, now).None?
    ensures r.Success? ==> r.value == codec.parse(token, now).value.nbf
  {
    Extract(codec, token, now, (c: Claims) => c.nbf)
  }

  function ExtractJwtId(codec: Codec, token: Token, now: Millis): (r: Result<Option<string>, Fault>)
    ensures r.Failure? <==> codec.parse(token, now).None?
    ensures r.Success? ==> r.value == codec.parse(token, now).value.jti
  {
    Extract(codec, token, now, (c: Claims) => c.jti)
  }

  /** Every accessor fails exactly when parsing fails, and otherwise returns
      its own claim of the parsed body; none of them consults the checks of
      `validateToken`. */
  lemma ExtractorsReadTheBody(codec: Codec, token: Token, now: Millis)
    ensures codec.parse(token, now).None? ==>
      && ExtractUsername(codec, token, now) == Failure(ParseFailure)
      && ExtractEmail(codec, token, now) == Failure(ParseFailure)
      && ExtractRole(codec, token, now) == Failure(ParseFailure)
      && ExtractIssuer(codec, token, now) == Failure(ParseFailure)
      && ExtractAudience(codec, token, now) == Failure(ParseFailure)
      && ExtractIssuedAt(codec, token, now) == Failure(ParseFailure)
      && ExtractExpiration(codec, token, now) == Failure(ParseFailure)
      && ExtractNotBefore(codec, token, now) == Failure(ParseFailure)
      && ExtractJwtId(codec, token, now) == Failure(ParseFailure)
    ensures codec.parse(token, now).Some? ==>
      var c := codec.parse(token, now).value;
      && ExtractUsername(codec, token, now) == Success(c.sub)
      && ExtractEmail(codec, token, now) == Success(c.email)
      && ExtractRole(codec, token, now) == Success(c.role)
      && ExtractIssuer(codec, token, now) == Success(c.iss)
      && ExtractAudience(codec, token, now) == Success(c.aud)
      && ExtractIssuedAt(codec, token, now) == Success(c.iat)
      && ExtractExpiration(codec, token, now) == Success(c.exp)
      && ExtractNotBefore(codec, token, now) == Success(c.nbf)
      && ExtractJwtId(codec, token, now) == Success(c.jti)
  {
  }

  /** `isTokenExpired`: the expiry is strictly before now. Throws when the
      token does not parse, or has no `exp`. */
  function IsTokenExpired(codec: Codec, token: Token, now: Millis): (r: Result<bool, Fault>)
    ensures r.Success? <==> codec.parse(token, now).Some? && codec.parse(token, now).value.exp.Some?
    ensures r.Success? ==> (r.value <==> codec.parse(token, now).value.exp.value < now)
    ensures r.Failure? ==> r.error == (if codec.parse(token, now).None? then ParseFailure else NullExpiration)
  {
    match ExtractExpiration(codec, token, now)
    case Failure(f) => Failure(f)
    case Success(None) => Failure(NullExpiration)
    case Success(Some(exp)) => Success(exp < now)
  }

  /** `isAudienceValid`: exact equality with "gateway"; an absent claim fails. */
  function IsAudienceValid(codec: Codec, token: Token, now: Millis): (r: Result<bool, Fault>)
    ensures r.Failure? <==> codec.parse(token, now).None?
    ensures r.Failure? ==> r.error == ParseFailure
    ensures r.Success? ==> (r.value <==> codec.parse(token, now).value.aud == Some(ExpectedAudience))
  {
    match ExtractAudience(codec, token, now)
    case Failure(f) => Failure(f)
    case Success(aud) => Success(aud == Some(ExpectedAudience))
  }

  /** `isIssuerValid`: exact equality with "auth-service"; an absent claim fails. */
  function IsIssuerValid(codec: Codec, token: Token, now: Millis): (r: Result<bool, Fault>)
    ensures r.Failure? <==> codec.parse(token, now).None?
    ensures r.Failure? ==> r.error == ParseFailure
    ensures r.Success? ==> (r.value <==> codec.parse(token, now).value.iss == Some(ExpectedIssuer))
  {
    match ExtractIssuer(codec, token, now)
    case Failure(f) => Failure(f)
    case Success(iss) => Success(iss == Some(ExpectedIssuer))
  }

  /** `isTokenActive`: no `nbf`, or now is not before it. */
  function IsTokenActive(codec: Codec, token: Token, now: Millis): (r: Result<bool, Fault>)
    ensures r.Failure? <==> codec.parse(token, now).None?
    ensures r.Failure? ==> r.error == ParseFailure
    ensures r.Success? ==>
      var nbf := codec.parse(token, now).value.nbf;
      (r.value <==> nbf.None? || nbf.value <= now)
  {
    match ExtractNotBefore(codec, token, now)
    case Failure(f) => Failure(f)
    case Success(nbf) => Success(nbf.None? || !(now < nbf.value))
  }

  /** The payloads `validateToken` accepts at time `now`. */
  predicate Acceptable(c: Claims, now: Millis) {
    && (c.nbf.None? || c.nbf.value <= now)
    && c.aud == Some(ExpectedAudience)
    && c.exp.Some? && now <= c.exp.value
    && c.iss == Some(ExpectedIssuer)
  }

  /** The body of `validateToken` with its failure reasons kept apart:
      active, then audience, then expiry, then issuer, stopping at the first
      check that fails or throws. */
  function Check(codec: Codec, token: Token, now: Millis): (r: Outcome<Rejection>)
    ensures r.Pass? <==> codec.parse(token, now).Some? && Acceptable(codec.parse(token, now).value, now)
    ensures codec.parse(token, now).None? ==> r == Fail(Threw(ParseFailure))
  {
    match IsTokenActive(codec, token, now)
    case Failure(f) => Fail(Threw(f))
    case Success(false) => Fail(NotActive)
    case Success(true) =>
      match IsAudienceValid(codec, token, now)
      case Failure(f) => Fail(Threw(f))
      case Success(false) => Fail(AudienceInvalid)
      case Success(true) =>
        match IsTokenExpired(codec, token, now)
        case Failure(f) => Fail(Threw(f))
        case Success(true) => Fail(TokenExpired)
        case Success(false) =>
          match IsIssuerValid(codec, token, now)
          case Failure(f) => Fail(Threw(f))
          case Success(false) => Fail(IssuerInvalid)
          case Success(true) => Pass
  }

  /** `validateToken`: true exactly when the token parses and its payload is
      acceptable now; every failure is `false`, never an exception. */
  function ValidateToken(codec: Codec, token: Token, now: Millis): (valid: bool)
    ensures valid <==> codec.parse(token, now).Some? && Acceptable(codec.parse(token, now).value, now)
  {
    Check(codec, token, now).Pass?
  }

  /** The four checks, named in the order `validateToken` runs them. */
  datatype Step = ActiveStep | AudienceStep | ExpiryStep | IssuerStep

  const Pipeline: seq<Step> := [ActiveStep, AudienceStep, ExpiryStep, IssuerStep]

  /** Whether a payload passes one check (without throwing) at time `now`. */
  predicate Passes(step: Step, c: Claims, now: Millis) {
    match step
    case ActiveStep => c.nbf.None? || !(now < c.nbf.value)
    case AudienceStep => c.aud == Some(ExpectedAudience)
    case ExpiryStep => c.exp.Some? && !(c.exp.value < now)
    case IssuerStep => c.iss == Some(ExpectedIssuer)
  }

  /** The first step of `steps` that the payload fails, if any. */
  function FirstFailure(steps: seq<Step>, c: Claims, now: Millis): (r: Option<Step>)
    ensures r.None? <==> forall k :: 0 <= k < |steps| ==> Passes(steps[k], c, now)
    ensures r.Some? ==> exists k :: 0 <= k < |steps| && steps[k] == r.value && !Passes(steps[k], c, now) &&
                                  forall j :: 0 <= j < k ==> Passes(steps[j], c, now)
    decreases |steps|
  {
    if steps == [] then None
    else if !Passes(steps[0], c, now) then Some(steps[0])
    else
      var r := FirstFailure(steps[1..], c, now);
      assert r.Some? ==> exists k :: 1 <= k < |steps| && steps[k] == r.value && !Passes(steps[k], c, now) &&
                                    forall j :: 0 <= j < k ==> Passes(steps[j], c, now) by {
        if r.Some? {
          var k :| 0 <= k < |steps[1..]| && steps[1..][k] == r.value && !Passes(steps[1..][k], c, now) &&
                   forall j :: 0 <= j < k ==> Passes(steps[1..][j], c, now);
          assert forall j :: 1 <= j < k + 1 ==> Passes(steps[j], c, now) by {
            forall j | 1 <= j < k + 1 ensures Passes(steps[j], c, now) {
              assert steps[j] == steps[1..][j - 1];
            }
          }
        }
      }
      r
  }

  /** The rejection reported when the payload fails `step`; a missing `exp`
      fails the expiry step by throwing. */
  function RejectionAt(step: Step, c: Claims): Rejection {
    match step
    case ActiveStep => NotActive
    case AudienceStep => AudienceInvalid
    case ExpiryStep => if c.exp.None? then Threw(NullExpiration) else TokenExpired
    case IssuerStep => IssuerInvalid
  }

  /** `validateToken` is the first-failure scan of the fixed pipeline: an
      unparsable token is rejected by the first check's parse, and otherwise
      the reported reason is the first failing step in the order active,
      audience, expiry, issuer; the steps after it are never evaluated. */
  lemma CheckIsFirstFailure(codec: Codec, token: Token, now: Millis)
    ensures Check(codec, token, now) ==
      match codec.parse(token, now)
      case None => Fail(Threw(ParseFailure))
      case Some(c) =>
        match FirstFailure(Pipeline, c, now)
        case None => Pass
        case Some(step) => Fail(RejectionAt(step, c))
  {

  }

  /** Short-circuit: a payload with the wrong audience and no `exp` is
      reported as an audience failure; the expiry check, which would throw,
      is never reached. */
  lemma AudienceCheckedBeforeExpiry(codec: Codec, token: Token, now: Millis)
    requires codec.parse(token, now).Some?
    requires var c := codec.parse(token, now).value;
      Passes(ActiveStep, c, now) && c.aud != Some(ExpectedAudience) && c.exp.None?
    ensures Check(codec, token, now) == Fail(AudienceInvalid)
  {
  }

  /** Expiry boundary: a payload expiring exactly now is still accepted (the
      test is strict), one that expired a millisecond ago is not, and one
      with no `exp` is rejected through the caught fault. */
  lemma ExpiryBoundary(codec: Codec, token: Token, now: Millis)
    requires codec.parse(token, now).Some?
    requires var c := codec.parse(token, now).value;
      Passes(ActiveStep, c, now) && Passes(AudienceStep, c, now) && Passes(IssuerStep, c, now)
    ensures var c := codec.parse(token, now).value;
      && (c.exp == Some(now) ==> ValidateToken(codec, token, now))
      && (c.exp == Some(now - 1) ==> Check(codec, token, now) == Fail(TokenExpired))
      && (c.exp.None? ==> Check(codec, token, now) == Fail(Threw(NullExpiration)))
  {
  }

  /** Not-before boundary: absent or equal to now is active, one millisecond
      in the future is not. */
  lemma NotBeforeBoundary(codec: Codec, token: Token, now: Millis)
    requires codec.parse(token, now).Some?
    ensures var c := codec.parse(token, now).value;
      && (c.nbf.None? || c.nbf == Some(now) ==> IsTokenActive(codec, token, now) == Success(true))
      && (c.nbf == Some(now + 1) ==> Check(codec, token, now) == Fail(NotActive))
  {
  }

  /** With a conforming library the issuer and audience checks never reject
      a token the parser returned (the parser already required both), and
      the skew the parser allows is never granted: `validateToken` accepts
      exactly the parsed payloads that are active and unexpired now. */
  lemma LibraryMakesClaimChecksRedundant(codec: Codec, token: Token, now: Millis)
    requires Conforms(codec)
    ensures ValidateToken(codec, token, now) <==>
      && codec.parse(token, now).Some?
      && var c := codec.parse(token, now).value;
      && (c.nbf.None? || c.nbf.value <= now)
      && c.exp.Some? && now <= c.exp.value
  {

  }
}
