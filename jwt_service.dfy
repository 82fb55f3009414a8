/** Token issuance in the auth service: `generateToken` builds the payload
    from the user's name, email and role, with the fixed issuer and audience,
    and signs it. Its two clock readings (`notBefore` first, then `issuedAt`),
    the random `jti` and the configured lifetime are parameters. */
module JwtService {
  import opened Wrappers
  import opened JavaLang
  import opened ClaimsModel
  import opened CommonJwtService

  /** The payload `generateToken` signs; `exp` is the `long` sum of the
      issued-at reading and the configured lifetime. */
  function IssueClaims(username: string, email: string, role: Role, jti: string,
                       notBeforeClock: Millis, issuedAtClock: Millis, ttl: int): (c: Claims)
    ensures c.sub == Some(username) && c.email == Some(email) && c.role == Some(RoleName(role))
    ensures c.jti == Some(jti) && c.nbf == Some(notBeforeClock) && c.iat == Some(issuedAtClock)
    ensures c.iss == Some(ExpectedIssuer) && c.aud == Some(ExpectedAudience)
    ensures c.exp.Some? && IsLong(c.exp.value)
    ensures IsLong(issuedAtClock + ttl) ==> c.exp.value == issuedAtClock + ttl
  {
    Claims(
      jti := Some(jti),
      sub := Some(username),
      iss := Some(ExpectedIssuer),
      aud := Some(ExpectedAudience),
      exp := Some(LongAdd(issuedAtClock, ttl)),
      nbf := Some(notBeforeClock),
      iat := Some(issuedAtClock),
      email := Some(email),
      role := Some(RoleName(role)))
  }

  /** `generateToken`: the signed payload. Under a conforming library the
      token parses back to exactly that payload at every time the parser
      accepts it, and to nothing at any other time. */
  function GenerateToken(codec: Codec, username: string, email: string, role: Role, jti: string,
                         notBeforeClock: Millis, issuedAtClock: Millis, ttl: int): (token: Token)
    ensures var c := IssueClaims(username, email, role, jti, notBeforeClock, issuedAtClock, ttl);
      Conforms(codec) ==>
        forall t: Millis :: codec.parse(token, t) == (if LibraryAccepts(c, t) then Some(c) else None)
  {
    codec.sign(IssueClaims(username, email, role, jti, notBeforeClock, issuedAtClock, ttl))
  }

  /** The issued payload carries the identity it was built from and the very
      issuer and audience the validator requires. */
  lemma IssuedClaimsCarryIdentity(username: string, email: string, role: Role, jti: string,
                                  notBeforeClock: Millis, issuedAtClock: Millis, ttl: int)
    ensures var c := IssueClaims(username, email, role, jti, notBeforeClock, issuedAtClock, ttl);
      && c.sub == Some(username) && c.email == Some(email) && c.role == Some(RoleName(role))
      && Passes(IssuerStep, c, issuedAtClock) && Passes(AudienceStep, c, issuedAtClock)
      && c.jti == Some(jti)
  {
  }

  /** Only `jti` depends on the random identifier: two issuances with the
      same inputs and clock readings differ in `jti` alone. */
  lemma OnlyJtiIsRandom(username: string, email: string, role: Role, jti1: string, jti2: string,
                        notBeforeClock: Millis, issuedAtClock: Millis, ttl: int)
    ensures IssueClaims(username, email, role, jti1, notBeforeClock, issuedAtClock, ttl).(jti := Some(jti2))
         == IssueClaims(username, email, role, jti2, notBeforeClock, issuedAtClock, ttl)
  {
  }

  /** With a clock that does not run backwards, a non-negative lifetime and
      no `long` overflow: `nbf <= iat <= exp` and `exp == iat + ttl`. */
  lemma IssuedTimesOrdered(username: string, email: string, role: Role, jti: string,
                           notBeforeClock: Millis, issuedAtClock: Millis, ttl: int)
    requires notBeforeClock <= issuedAtClock && 0 <= ttl && IsLong(issuedAtClock + ttl)
    ensures var c := IssueClaims(username, email, role, jti, notBeforeClock, issuedAtClock, ttl);
      && c.nbf.Some? && c.iat.Some? && c.exp.Some?
      && c.nbf.value <= c.iat.value <= c.exp.value
      && c.exp.value == c.iat.value + ttl
  {
  }

  /** A lifetime large enough to overflow the `long` sum wraps `exp` below
      the issue time, so the token is rejected as soon as it is issued. */
  lemma OverflowingLifetimeExpiresAtOnce(codec: Codec, username: string, email: string, role: Role,
                                         jti: string, notBeforeClock: Millis, issuedAtClock: Millis,
                                         ttl: int, t: Millis)
    requires Conforms(codec)
    requires IsLong(issuedAtClock) && 0 <= ttl < TwoTo63 && !IsLong(issuedAtClock + ttl)
    requires issuedAtClock <= t
    ensures LongAdd(issuedAtClock, ttl) < issuedAtClock
    ensures !ValidateToken(codec, GenerateToken(codec, username, email, role, jti, notBeforeClock, issuedAtClock, ttl), t)
  {

  }

  /** Round trip: a freshly issued token passes `validateToken` at every time
      from its `nbf` to its `exp`, and while the parser still accepts it the
      accessors return the name, email and role name it was issued for. */
  lemma IssuedTokenRoundTrip(codec: Codec, username: string, email: string, role: Role, jti: string,
                             notBeforeClock: Millis, issuedAtClock: Millis, ttl: int,
                             t: Millis, later: Millis)
    requires Conforms(codec)
    requires notBeforeClock <= issuedAtClock && 0 <= ttl && IsLong(issuedAtClock + ttl)
    requires notBeforeClock <= t <= issuedAtClock + ttl
    requires notBeforeClock - AllowedClockSkewMillis <= later <= issuedAtClock + ttl + AllowedClockSkewMillis
    ensures var token := GenerateToken(codec, username, email, role, jti, notBeforeClock, issuedAtClock, ttl);
      && ValidateToken(codec, token, t)
      && ExtractUsername(codec, token, later) == Success(Some(username))
      && ExtractEmail(codec, token, later) == Success(Some(email))
      && ExtractRole(codec, token, later) == Success(Some(RoleName(role)))
  {

  }
}
