/** The token payload the services exchange, the authority a role grants, and
    the signing library seen only through the behaviour the services rely on.

    The payload carries the registered claims of section 4.1 of RFC 7519 and
    two private claims, `email` and `role`. Every claim may be absent, as a
    parsed body returns `null` for a claim it does not hold. */
module ClaimsModel {
  import opened Wrappers
  import opened JavaLang

  /** A `java.util.Date`: milliseconds since the epoch. */
  type Millis = int

  /** A compact serialised, signed token; opaque to the services. */
  type Token = string

  /** The issuer and audience every token is issued with and checked against. */
  const ExpectedIssuer: string := "auth-service"
  const ExpectedAudience: string := "gateway"

  /** The parser's allowed clock skew: 60 seconds. */
  const AllowedClockSkewMillis: int := 60 * 1000

  /** The user roles; `Roles.name()` gives their names. */
  datatype Role = USER | ADMIN

  function RoleName(role: Role): string {
    match role
    case USER => "USER"
    case ADMIN => "ADMIN"
  }

  /** Authority derivation: the granted authority is "ROLE_" followed by the
      role text. */
  const RolePrefix: string := "ROLE_"

  function Authority(roleText: string): (name: string)
    ensures StartsWith(name, RolePrefix)
  {
    RolePrefix + roleText
  }

  /** The authority name determines the role text: stripping the prefix
      gives it back, so distinct role texts never share an authority. */
  lemma AuthorityInjective(a: string, b: string)
    ensures Authority(a)[|RolePrefix|..] == a
    ensures Authority(a) == Authority(b) ==> a == b
  {

  }

  /** The token payload. */
  datatype Claims = Claims(
    jti: Option<string>,  // `jti`, section 4.1.7 of RFC 7519
    sub: Option<string>,  // `sub`, section 4.1.2: the username
    iss: Option<string>,  // `iss`, section 4.1.1
    aud: Option<string>,  // `aud`, section 4.1.3
    exp: Option<Millis>,  // `exp`, section 4.1.4
    nbf: Option<Millis>,  // `nbf`, section 4.1.5
    iat: Option<Millis>,  // `iat`, section 4.1.6
    email: Option<string>,
    role: Option<string>)

  /** The signing key's two operations: `sign` serialises and signs a payload
      (HS256, section 3.2 of RFC 7518); `parse` is `parseClaimsJws` at the
      given clock reading, `None` standing for every exception it throws. */
  datatype Codec = Codec(sign: Claims -> Token, parse: (Token, Millis) -> Option<Claims>)

  /** The checks the parser configured at CommonJwtService.java:21-27 makes
      on a payload whose signature verified: the required issuer and audience,
      and `exp`/`nbf` with the allowed skew. */
  predicate LibraryAccepts(c: Claims, now: Millis) {
    && c.iss == Some(ExpectedIssuer)
    && c.aud == Some(ExpectedAudience)
    && (c.exp.None? || now - AllowedClockSkewMillis <= c.exp.value)
    && (c.nbf.None? || c.nbf.value <= now + AllowedClockSkewMillis)
  }

  /** What the services assume of the library under one shared key: a signed
      payload parses back to itself whenever the parser's own checks accept
      it, and the parser never returns a payload those checks reject. */
  ghost predicate Conforms(codec: Codec) {
    && (forall c: Claims, now: Millis ::
          codec.parse(codec.sign(c), now) == (if LibraryAccepts(c, now) then Some(c) else None))
    && (forall token: Token, now: Millis ::
          codec.parse(token, now).Some? ==> LibraryAccepts(codec.parse(token, now).value, now))
  }
}
