# JWT trust logic of the auth service, gateway and shared security library

This Dafny project models how the services issue and trust bearer tokens:

- **Token validation** (`CommonJwtService`): the claim accessors and
  `validateToken`. It runs four checks in a fixed order: not-before, audience
  `"gateway"`, expiry, issuer `"auth-service"`. It stops at the first check
  that fails and turns every failure, thrown or not, into `false`.
- **Token issuance** (the auth service's `JwtService.generateToken`): the
  payload is built from the user's name, email and role, with the fixed
  issuer and audience and `exp = iat + expiration`, and then signed with
  HS256.
- **The per-request gate** (`CommonJwtAuthenticationFilter`). Some paths
  bypass it. Every other request needs an exact `Bearer ` header. The token
  is stripped and validated. Then the principal is built with the single
  authority `"ROLE_" + role`, and only then is the filter chain called.
- **The auth endpoints** (`AuthController`): `register`, `login` and
  `validate`. They are modelled as decision logic over the user store, the
  password encoder and the token service.
- **The user record** (`User`): its authority and its id-only identity.

The signing library is not modelled. A `Codec` holds two function values:
`sign` and `parse`. `parse` receives the parser's clock reading. The
predicate `ClaimsModel.Conforms(codec)` states what the services rely on.
A signed payload parses back to itself whenever the parser's own checks
accept it. Those checks are the required issuer and audience, and `exp`/`nbf`
with 60 s skew. The parser never returns a payload those checks reject.
Every lemma that needs the round trip takes `Conforms` as a hypothesis.

Clock readings, the random `jti` and the configured lifetime are parameters.
`validateToken` uses one reading, `now`, for all its checks. The extraction
that follows a successful validation, in the gate and in `/validate`, uses a
second reading, `later`.

Files, one module each: `wrappers.dfy` (Option/Result/Outcome),
`java_lang.dfy` (Java string and integer semantics), `claims_model.dfy`,
`common_jwt_service.dfy`, `jwt_service.dfy`,
`common_jwt_authentication_filter.dfy`, `users.dfy`, `user_service.dfy`
(the store as the controller sees it) and `auth_controller.dfy`.

### Behaviour of the code worth knowing

- The expiry test is `exp < now`, so a token whose `exp` equals now is
  accepted (`CommonJwtService.ExpiryBoundary`). Section 4.1.4 of RFC 7519
  says such a token must be rejected.
- The service's own not-before and expiry checks apply no clock skew; only
  the parser allows 60 s. Since the parser runs first, a token inside the
  skew window but past `exp`, or before `nbf`, is still refused
  (`CommonJwtService.LibraryMakesClaimChecksRedundant`).
- The gate answers a missing `Authorization` header and a header with any
  other scheme alike: 401 `"Not token provided"`.
- The gate's error body holds `error`, `status` and `timestamp`; the
  message travels in `error`.
- A token without a `role` claim still authenticates. Its authority is
  `"ROLE_null"`, from Java's string concatenation with `null`.
- `/auth/validate` accepts any header starting with `"Bearer"`, space or
  not, and still drops 7 characters. So a header of exactly `"Bearer"`
  throws. The endpoint is not an open path, though. Its requests pass the
  gate first, and the gate never lets such a header through
  (`AuthController.GateShieldsEndpoint`).
- `/auth/validate` validates and extracts again, at its own clock
  readings. A token the gate accepted can therefore be answered
  `"Invalid Token"` if it expires in between, or escape as an exception if
  it stops parsing between the endpoint's validation and its extraction.

## Model

| member | source | states |
|---|---|---|
| `CommonJwtService.ValidateToken` | security-common/src/main/java/ru/practicum/security/CommonJwtService.java:30-48 | true exactly when the token parses and its payload has no `nbf` or `nbf <= now`, audience `"gateway"`, an `exp` not before now, and issuer `"auth-service"`; every failure, including a parse fault, gives false |
| `CommonJwtService.Check` | security-common/src/main/java/ru/practicum/security/CommonJwtService.java:30-48 | the four checks together pass exactly when the token parses and its payload is acceptable now; an unparsable token is reported as the parse fault thrown by the first check |
| `CommonJwtService.IsTokenActive` | security-common/src/main/java/ru/practicum/security/CommonJwtService.java:122-126 | throws exactly when parsing fails; otherwise true exactly when there is no `nbf` or `nbf <= now` |
| `CommonJwtService.IsAudienceValid` | security-common/src/main/java/ru/practicum/security/CommonJwtService.java:114-116 | throws exactly when parsing fails; otherwise true exactly when the audience is `"gateway"`, an absent one failing |
| `CommonJwtService.IsTokenExpired` | security-common/src/main/java/ru/practicum/security/CommonJwtService.java:107-112 | a result exactly when the token parses and has an `exp`, then true exactly when `exp < now`; otherwise the parse fault, or the fault of calling `before` on a missing `exp` |
| `CommonJwtService.IsIssuerValid` | security-common/src/main/java/ru/practicum/security/CommonJwtService.java:118-120 | throws exactly when parsing fails; otherwise true exactly when the issuer is `"auth-service"`, an absent one failing |
| `CommonJwtService.ExtractUsername` | security-common/src/main/java/ru/practicum/security/CommonJwtService.java:50-54 | throws exactly when parsing fails; otherwise the parsed payload's subject, `null` when absent |
| `CommonJwtService.ExtractEmail` | security-common/src/main/java/ru/practicum/security/CommonJwtService.java:56-60 | throws exactly when parsing fails; otherwise the payload's `email` claim |
| `CommonJwtService.ExtractRole` | security-common/src/main/java/ru/practicum/security/CommonJwtService.java:63-68 | throws exactly when parsing fails; otherwise the payload's `role` claim |
| `CommonJwtService.ExtractIssuer` | security-common/src/main/java/ru/practicum/security/CommonJwtService.java:70-74 | throws exactly when parsing fails; otherwise the payload's issuer |
| `CommonJwtService.ExtractAudience` | security-common/src/main/java/ru/practicum/security/CommonJwtService.java:76-80 | throws exactly when parsing fails; otherwise the payload's audience |
| `CommonJwtService.ExtractIssuedAt` | security-common/src/main/java/ru/practicum/security/CommonJwtService.java:82-86 | throws exactly when parsing fails; otherwise the payload's `iat` |
| `CommonJwtService.ExtractExpiration` | security-common/src/main/java/ru/practicum/security/CommonJwtService.java:88-92 | throws exactly when parsing fails; otherwise the payload's `exp` |
| `CommonJwtService.ExtractNotBefore` | security-common/src/main/java/ru/practicum/security/CommonJwtService.java:94-98 | throws exactly when parsing fails; otherwise the payload's `nbf` |
| `CommonJwtService.ExtractJwtId` | security-common/src/main/java/ru/practicum/security/CommonJwtService.java:100-104 | throws exactly when parsing fails; otherwise the payload's `jti` |
| `CommonJwtService.CheckIsFirstFailure` | security-common/src/main/java/ru/practicum/security/CommonJwtService.java:32-43 | the reported rejection is the first failing step of the fixed order active, audience, expiry, issuer; an unparsable token fails at the first step's parse; later steps are not evaluated |
| `CommonJwtService.FirstFailure` | security-common/src/main/java/ru/practicum/security/CommonJwtService.java:32-43 | reference scan of an ordered list of checks: none fails exactly when all pass, and a reported step fails while every step before it passes |
| `CommonJwtService.AudienceCheckedBeforeExpiry` | security-common/src/main/java/ru/practicum/security/CommonJwtService.java:35-40 | a payload with a wrong audience and no `exp` is rejected as an audience failure; the expiry check that would throw is never reached |
| `CommonJwtService.ExpiryBoundary` | security-common/src/main/java/ru/practicum/security/CommonJwtService.java:107-112 | `exp == now` is accepted, `exp == now - 1` is rejected as expired, and a missing `exp` is rejected through the caught fault |
| `CommonJwtService.NotBeforeBoundary` | security-common/src/main/java/ru/practicum/security/CommonJwtService.java:122-126 | an absent `nbf` or `nbf == now` is active; `nbf == now + 1` is rejected as not active |
| `CommonJwtService.ExtractorsReadTheBody` | security-common/src/main/java/ru/practicum/security/CommonJwtService.java:50-104 | each accessor fails exactly when parsing fails and otherwise returns its own claim of the parsed body, whatever the validation checks say |
| `CommonJwtService.LibraryMakesClaimChecksRedundant` | security-common/src/main/java/ru/practicum/security/CommonJwtService.java:21-27 | with a conforming parser the issuer and audience checks never reject a parsed token, and the token is valid exactly when it is active and unexpired now, with no skew |
| `JwtService.IssueClaims` | auth-service/src/main/java/ru/practicum/security/JwtService.java:21-38 | the payload carries the username as subject, the email, the role name, the given `jti`, `nbf` and `iat` at the two clock readings, the issuer and audience the validator requires, and an `exp` that is a `long`, equal to `iat + expiration` when that sum fits |
| `JwtService.GenerateToken` | auth-service/src/main/java/ru/practicum/security/JwtService.java:21-41 | under a conforming library the token parses back to exactly the issued payload at every time the parser's checks accept it, and to nothing at any other time |
| `JwtService.IssuedClaimsCarryIdentity` | auth-service/src/main/java/ru/practicum/security/JwtService.java:21-30 | the issued payload has subject = username, `email` = email, `role` = the role name, the given `jti`, and the issuer and audience the validator requires |
| `JwtService.OnlyJtiIsRandom` | auth-service/src/main/java/ru/practicum/security/JwtService.java:22-33 | two issuances with the same inputs and clock readings differ only in `jti` |
| `JwtService.IssuedTimesOrdered` | auth-service/src/main/java/ru/practicum/security/JwtService.java:26-38 | with a clock that does not run backwards, a non-negative lifetime and no `long` overflow, `nbf <= iat <= exp` and `exp == iat + expiration` |
| `JwtService.OverflowingLifetimeExpiresAtOnce` | auth-service/src/main/java/ru/practicum/security/JwtService.java:32-33 | a lifetime that overflows the `long` sum wraps `exp` below the issue time, and the token never validates from then on |
| `JwtService.IssuedTokenRoundTrip` | auth-service/src/main/java/ru/practicum/security/JwtService.java:21-41 | under a conforming codec a fresh token validates at every time from `nbf` to `exp`, and the accessors return the original username, email and role name |
| `JavaLang.LongAdd` | auth-service/src/main/java/ru/practicum/security/JwtService.java:33 | `long` addition: the result is a `long`, congruent to the sum modulo 2^64, and equal to the sum when the sum fits |
| `JavaLang.ContainsIff` | security-common/src/main/java/ru/practicum/security/CommonJwtAuthenticationFilter.java:80-82 | `String.contains` holds exactly when the pattern occurs at some index of the string |
| `CommonJwtAuthenticationFilter.ShouldNotFilter` | security-common/src/main/java/ru/practicum/security/CommonJwtAuthenticationFilter.java:80-82 | bypass exactly when `/auth/register`, `/auth/login` or `/actuator/` occurs anywhere in the URI |
| `CommonJwtAuthenticationFilter.BypassIsSubstringMatch` | security-common/src/main/java/ru/practicum/security/CommonJwtAuthenticationFilter.java:80-82 | `/x/auth/login/y` bypasses; a bare `/actuator` does not |
| `CommonJwtAuthenticationFilter.ValidateEndpointIsGuarded` | security-common/src/main/java/ru/practicum/security/CommonJwtAuthenticationFilter.java:80-82 | `/auth/validate` is not an open path |
| `CommonJwtAuthenticationFilter.BypassIgnoresHeader` | security-common/src/main/java/ru/practicum/security/CommonJwtAuthenticationFilter.java:67-84 | an open path is forwarded whatever header it carries, present, absent or garbage |
| `CommonJwtAuthenticationFilter.MissingOrForeignHeaderRejected` | security-common/src/main/java/ru/practicum/security/CommonJwtAuthenticationFilter.java:33-37 | a missing header, or one not starting with exactly `"Bearer "`, gives 401 `"Not token provided"` and nothing is passed to the validator |
| `CommonJwtAuthenticationFilter.LowerCaseSchemeRejected` | security-common/src/main/java/ru/practicum/security/CommonJwtAuthenticationFilter.java:34 | the scheme is matched case-sensitively: `"bearer "` is refused |
| `CommonJwtAuthenticationFilter.InvalidTokenRejected` | security-common/src/main/java/ru/practicum/security/CommonJwtAuthenticationFilter.java:39-45 | the validator receives the header minus its first 7 characters; if it says false, the answer is 401 `"Invalid token"` |
| `CommonJwtAuthenticationFilter.AuthenticatedOnlyAfterValidation` | security-common/src/main/java/ru/practicum/security/CommonJwtAuthenticationFilter.java:47-58 | authentication happens only for a non-bypassed request with a `Bearer ` header whose token validated; the principal is the token's username with exactly one authority, `"ROLE_" + role` |
| `CommonJwtAuthenticationFilter.ExtractionFaultRejected` | security-common/src/main/java/ru/practicum/security/CommonJwtAuthenticationFilter.java:59-62 | a fault while extracting after a positive validation gives 401 with the process-error message, and nothing is authenticated |
| `CommonJwtAuthenticationFilter.Authenticate` | security-common/src/main/java/ru/practicum/security/CommonJwtAuthenticationFilter.java:33-64 | never a bypass; every rejection is a 401; no `Bearer ` header gives `"Not token provided"`; authenticated exactly when the stripped token validates now and still parses at the later reading, and then the principal is that payload's subject with the single authority `"ROLE_" + role` |
| `CommonJwtAuthenticationFilter.Gate` | security-common/src/main/java/ru/practicum/security/CommonJwtAuthenticationFilter.java:67-84 | a request bypasses exactly when its URI is an open path; every rejection is a 401 |
| `CommonJwtAuthenticationFilter.Exchange.SendError` | security-common/src/main/java/ru/practicum/security/CommonJwtAuthenticationFilter.java:86-93 | sets the status, JSON content type and UTF-8, and writes one body whose `error` is the message and whose `status` is the same code; nothing else changes |
| `CommonJwtAuthenticationFilter.Exchange.ForwardToChain` | security-common/src/main/java/ru/practicum/security/CommonJwtAuthenticationFilter.java:64 | records one call of the filter chain and changes nothing else |
| `CommonJwtAuthenticationFilter.Exchange.CallValidator` | security-common/src/main/java/ru/practicum/security/CommonJwtAuthenticationFilter.java:42 | returns `validateToken`'s verdict and records the token it was given |
| `CommonJwtAuthenticationFilter.Exchange.DoFilterInternal` | security-common/src/main/java/ru/practicum/security/CommonJwtAuthenticationFilter.java:25-65 | the new state follows the gate's decision: the chain runs once, and only on the authenticated path; each rejection writes exactly one error body and returns; the context changes only on success |
| `CommonJwtAuthenticationFilter.Exchange.DoFilter` | security-common/src/main/java/ru/practicum/security/CommonJwtAuthenticationFilter.java:67-84 | a bypassed request goes straight down the chain with no header check and no validation; any other request is handled as in `doFilterInternal` |
| `CommonJwtAuthenticationFilter.FilterOnce` | security-common/src/main/java/ru/practicum/security/CommonJwtAuthenticationFilter.java:33-64 | on a fresh request, exactly one of the chain call or one error body happens; the chain runs exactly when the request is not rejected; a principal is set exactly when it authenticates |
| `ClaimsModel.Authority` | security-common/src/main/java/ru/practicum/security/CommonJwtAuthenticationFilter.java:52 | every derived authority starts with `"ROLE_"` |
| `ClaimsModel.AuthorityInjective` | auth-service/src/main/java/ru/practicum/user/User.java:44 | stripping `"ROLE_"` gives the role text back, so distinct role texts never share an authority |
| `Users.GetAuthorities` | auth-service/src/main/java/ru/practicum/user/User.java:42-45 | exactly one authority; it starts with `"ROLE_"`, and what follows is the role name |
| `Users.AuthoritiesFollowRole` | auth-service/src/main/java/ru/practicum/user/User.java:42-45 | a user grants exactly one authority, `"ROLE_" + role.name()`, by the same rule as the gate; distinct roles grant distinct authorities |
| `Users.Equals` | auth-service/src/main/java/ru/practicum/user/User.java:18-27 | equal users have the same id, and equal users with `Long` ids have the same hash code |
| `Users.HashCode` | auth-service/src/main/java/ru/practicum/user/User.java:18-27 | always an `int`; 102 for a user without an id |
| `Users.IdentityIsTheId` | auth-service/src/main/java/ru/practicum/user/User.java:18-27 | equal users have equal hash codes, and neither equality nor hash depends on any field but `id` |
| `Users.UnsavedUsersAreEqual` | auth-service/src/main/java/ru/practicum/user/User.java:18-27 | two users with `null` ids are equal whatever their other fields, and both hash to 102 |
| `UserService.FindByEmail` | auth-service/src/main/java/ru/practicum/user/UserService.java:22-26 | the stored user under that email, or the `"User not found"` failure exactly when there is none |
| `UserService.UserService.ExistsByEmail` | auth-service/src/main/java/ru/practicum/user/UserService.java:14-16 | true exactly when a lookup by that email would succeed |
| `UserService.UserService.Save` | auth-service/src/main/java/ru/practicum/user/User.java:24-33 | a new email is stored with the next identity id; a duplicate email violates the unique column and stores nothing; ids stay distinct and each user stays under its own email |
| `AuthController.NewUser` | auth-service/src/main/java/ru/practicum/user/AuthController.java:31-36 | the built user has no id yet, the requested name and email, the encoder's output as password, and role USER |
| `AuthController.Register` | auth-service/src/main/java/ru/practicum/user/AuthController.java:25-43 | an email already stored gives `"Email already exists"` and stores nothing; otherwise the user is stored under the next id, with the encoder's output as password and role USER, and that id is reported |
| `AuthController.RegisteredUserShape` | auth-service/src/main/java/ru/practicum/user/AuthController.java:31-36 | a registered user always has role USER, the encoded password, and the authority `ROLE_USER` |
| `AuthController.Login` | auth-service/src/main/java/ru/practicum/user/AuthController.java:46-109 | a token is issued exactly when the email is stored and the password matches, and then as type `"Bearer"` with `expires_in` 86400 for the stored user's id |
| `AuthController.LoginOutcomes` | auth-service/src/main/java/ru/practicum/user/AuthController.java:46-109 | an unknown email gives the caught `"User not found"` message; a wrong password gives the mismatch message with no token; a token is issued only for a matching password, from the stored name, email and role, as type `"Bearer"` with `expires_in` 86400 whatever the configured lifetime |
| `AuthController.ValidateEndpoint` | auth-service/src/main/java/ru/practicum/user/AuthController.java:112-141 | `"Invalid Header"` exactly when the header is absent or does not start with `"Bearer"`; the index fault exactly when the header is `"Bearer"` itself; a valid report only for a header of 7 or more characters whose remainder after 7 validates now |
| `AuthController.ValidateEndpointOutcomes` | auth-service/src/main/java/ru/practicum/user/AuthController.java:120-140 | for a header starting with `"Bearer"` of 7 or more characters: an invalid remainder gives `"Invalid Token"` with nothing extracted; a valid one gives valid with the payload's username and role read at the later reading, or the escaping parse fault when it no longer parses |
| `AuthController.BareSchemeThrows` | auth-service/src/main/java/ru/practicum/user/AuthController.java:114-120 | the header `"Bearer"` passes the endpoint's test and then throws at `substring(7)` |
| `AuthController.EndpointHeaderLooserThanGate` | auth-service/src/main/java/ru/practicum/user/AuthController.java:114-121 | for any non-space character after `"Bearer"`, the gate refuses the header, while the endpoint treats it exactly like `"Bearer "` + the same token |
| `AuthController.GateShieldsEndpoint` | auth-service/src/main/java/ru/practicum/user/AuthController.java:112-141 | a header the gate authenticated is never answered `"Invalid Header"` and never throws at `substring(7)`, at whatever clock readings the endpoint uses; read at the gate's own readings, the endpoint reports valid with the gate's username and the role behind the gate's authority |
| `AuthController.RegisteredUserAuthenticates` | auth-service/src/main/java/ru/practicum/user/AuthController.java:25-75 | a newly registered user logs in with the same password, and the returned token passes the gate between its `nbf` and `exp` as that user, with authority `ROLE_USER` |

## Left out

- Signing and parsing: HMAC-SHA256, base64url and the JSON compact form
  stay behind the abstract `Codec`. So does the parser's own
  required-claim and skew logic, which is stated only through
  `LibraryAccepts`. The library stores times in whole seconds; here they
  stay in milliseconds.
- Tampering: a forged or altered token is simply whatever `parse` returns
  for it. The model does not prove that altering a signature makes parsing
  fail.
- Clock readings: each check in `validateToken` reads the clock again.
  The model uses one reading for all four checks and one more for the
  extraction that follows.
- The exception text: `"Token process error: "` is modelled without the
  exception's own message appended.
- Response rendering: the timestamp in `sendError`, the JSON string itself
  (including its lack of escaping) and `HashMap.toString` in the
  controller's messages are not modelled. The modelled form is the content
  of the body and of the maps. The register and login success messages are
  their data (the new id, the token map), not their text.
- The database's message for a duplicate email is not modelled; a
  descriptive constant stands in for it.
- Logging in `AuthController` and the debug prints in `shouldNotFilter`.
- The security context's thread-local storage: the principal is a field of
  the request's `Exchange`. `OncePerRequestFilter`'s already-filtered marker
  and async or error dispatch handling are not modelled.
- `Roles` is not part of this model. The role enum is taken as USER and
  ADMIN.
- In-place id assignment: saving a user returns the saved record with its
  id. The id is not written into the caller's object.
- Claim types: a `role` or `email` claim of a non-string type, which would
  throw in `claims.get(..., String.class)`, is not modelled. Claims are
  strings or absent.
- AuthController.Register: does not model concurrent registration.
  `register` calls `existsByEmail` and then `save`, and the pair is not
  atomic. When two requests register the same email at once, the second
  `save` fails on the unique column with the database's exception instead
  of `"Email already exists"`. The model runs requests one at a time, so
  `Register` never reaches `Save`'s failure branch.
- AuthController.EndpointHeaderLooserThanGate: holds as stated for
  characters of the Basic Multilingual Plane only. Java's `startsWith`,
  `contains` and `substring` count UTF-16 code units, while Dafny strings
  are sequences of Unicode scalar values. For a supplementary character
  after `"Bearer"`, Java's `substring(7)` would leave a lone surrogate. A
  header decoded as ISO-8859-1, as servlet headers are, never holds one.
- Null request fields (for example a `null` password at login) and the
  DTOs' bean-validation annotations are not modelled.
- The gateway's proxying clients and controller, `SecurityConfig`, and the
  two subclasses that only pass configuration to their superclasses.
