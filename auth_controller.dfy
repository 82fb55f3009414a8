/** The auth service's three endpoints as decision logic over their
    collaborators: the user store, the password encoder and the token
    service. `register` changes the store; `login` and `validate` only
    branch on what the collaborators return. */
module AuthController {
  import opened Wrappers
  import opened JavaLang
  import opened ClaimsModel
  import opened CommonJwtService
  import opened JwtService
  import opened CommonJwtAuthenticationFilter
  import opened Users
  import opened UserService

  datatype RegisterRequest = RegisterRequest(username: string, email: string, password: string)

  datatype LoginRequest = LoginRequest(email: string, password: string)

  /** The password encoder: one-way `encode` and the `matches` test. */
  datatype PasswordEncoder = PasswordEncoder(encode: string -> string, matches: (string, string) -> bool)

  /** An encoder under which every password matches its own encoding. */
  ghost predicate EncoderSound(encoder: PasswordEncoder) {
    forall raw: string :: encoder.matches(raw, encoder.encode(raw))
  }

  const EmailExistsMessage: string := "Email already exists"

  /** The user `register` builds: the requested name and email, the
      encoder's output in place of the password, and always the USER role;
      `id` is the one the store assigns. */
  function NewUser(request: RegisterRequest, encoder: PasswordEncoder): (user: User)
    ensures user.id.None? && user.role == USER
    ensures user.username == request.username && user.email == request.email
    ensures user.password == encoder.encode(request.password)
  {
    User(None, request.username, request.email, encoder.encode(request.password), USER)
  }

  /** `register`: an email already stored throws "Email already exists" and
      stores nothing; otherwise the new user is stored under the next id, and
      that id is what the response reports. */
  method Register(service: UserService, encoder: PasswordEncoder, request: RegisterRequest)
    returns (r: Result<int, string>)
    requires service.Valid()
    modifies service
    ensures service.Valid()
    ensures request.email in old(service.users) ==>
      && r == Failure(EmailExistsMessage)
      && service.users == old(service.users) && service.nextId == old(service.nextId)
    ensures request.email !in old(service.users) ==>
      && r == Success(old(service.nextId))
      && service.users == old(service.users)[request.email := NewUser(request, encoder).(id := Some(old(service.nextId)))]
      && service.nextId == old(service.nextId) + 1
  {
    if service.ExistsByEmail(request.email) {
      return Failure(EmailExistsMessage);
    }
    var user := NewUser(request, encoder);
    var saved := service.Save(user);
    match saved
    case Success(u) => r := Success(u.id.value);
    case Failure(e) => r := Failure(e);
  }

  /** A registered user has the USER role and a stored password that is the
      encoder's output; with an encoder that never returns its input, never
      the raw password. */
  lemma RegisteredUserShape(request: RegisterRequest, encoder: PasswordEncoder)
    ensures NewUser(request, encoder).role == USER
    ensures NewUser(request, encoder).password == encoder.encode(request.password)
    ensures GetAuthorities(NewUser(request, encoder)) == ["ROLE_USER"]
  {
    assert "ROLE_" + "USER" == "ROLE_USER";
  }

  /** The `user` map of a login response. */
  datatype UserInfo = UserInfo(id: Option<int>, username: string, email: string, role: string)

  /** A login response: a plain message, or the token map. */
  datatype LoginResponse =
    | LoginMessage(message: string)
    | LoggedIn(accessToken: Token, tokenType: string, expiresIn: int, user: UserInfo)

  const PasswordMismatchMessage: string := "Logging error: Password mismatch!"
  const LoginErrorPrefix: string := "some error message: "
  const TokenType: string := "Bearer"
  const ExpiresInSeconds: int := 86400

  /** `login`, over the store's contents; the token service's clock readings,
      random id and configured lifetime are parameters. */
  function Login(users: map<string, User>, encoder: PasswordEncoder, codec: Codec, request: LoginRequest,
                 jti: string, notBeforeClock: Millis, issuedAtClock: Millis, ttl: int): (r: LoginResponse)
    ensures r.LoggedIn? <==> request.email in users && encoder.matches(request.password, users[request.email].password)
    ensures r.LoggedIn? ==> r.tokenType == TokenType && r.expiresIn == ExpiresInSeconds
    ensures r.LoggedIn? ==> r.user.id == users[request.email].id
  {
    match FindByEmail(users, request.email)
    case Failure(e) => LoginMessage(LoginErrorPrefix + e)
    case Success(user) =>
      if !encoder.matches(request.password, user.password) then LoginMessage(PasswordMismatchMessage)
      else
        var token := GenerateToken(codec, user.username, user.email, user.role, jti,
                                   notBeforeClock, issuedAtClock, ttl);
        LoggedIn(token, TokenType, ExpiresInSeconds,
                 UserInfo(user.id, user.username, user.email, RoleName(user.role)))
  }

  /** `login`'s three outcomes: an unknown email becomes the caught "User
      not found" message, a wrong password the mismatch message with no
      token, and only a matching password a token issued from the stored
      user's name, email and role, reported as a "Bearer" token living 86400
      seconds whatever lifetime the token service is configured with. */
  lemma LoginOutcomes(users: map<string, User>, encoder: PasswordEncoder, codec: Codec, request: LoginRequest,
                      jti: string, notBeforeClock: Millis, issuedAtClock: Millis, ttl: int)
    ensures var r := Login(users, encoder, codec, request, jti, notBeforeClock, issuedAtClock, ttl);
      && (request.email !in users ==> r == LoginMessage("some error message: User not found"))
      && (request.email in users && !encoder.matches(request.password, users[request.email].password) ==>
            r == LoginMessage(PasswordMismatchMessage))
      && (r.LoggedIn? <==> request.email in users && encoder.matches(request.password, users[request.email].password))
      && (r.LoggedIn? ==>
            var u := users[request.email];
            && r.accessToken == GenerateToken(codec, u.username, u.email, u.role, jti, notBeforeClock, issuedAtClock, ttl)
            && r.tokenType == "Bearer" && r.expiresIn == 86400
            && r.user == UserInfo(u.id, u.username, u.email, RoleName(u.role)))
  {
  }

  /** What leaves `validate` as an exception rather than a response. */
  datatype EndpointFault = StringIndexOutOfBounds | TokenFault(fault: Fault)

  /** A `validate` response: a plain message, the token map, or an escaping
      exception. */
  datatype ValidateResponse =
    | ValidateMessage(message: string)
    | TokenOk(valid: bool, username: Option<string>, role: Option<string>, message: string)
    | Escaped(fault: EndpointFault)

  const EndpointScheme: string := "Bearer"
  const InvalidHeaderMessage: string := "Invalid Header"
  const InvalidTokenResponse: string := "Invalid Token"
  const TokenValidMessage: string := "Token is valid"

  /** `validateToken` of the controller: its header test accepts any header
      starting with "Bearer", space or not, yet it still drops seven
      characters. */
  function ValidateEndpoint(codec: Codec, header: Option<string>, now: Millis, later: Millis): (r: ValidateResponse)
    ensures r == ValidateMessage(InvalidHeaderMessage) <==> header.None? || !StartsWith(header.value, EndpointScheme)
    ensures r == Escaped(StringIndexOutOfBounds) <==> header == Some(EndpointScheme)
    ensures r.TokenOk? ==>
      && header.Some? && |header.value| >= 7 && r.valid
      && ValidateToken(codec, header.value[7..], now)
  {
    if header.None? || !StartsWith(header.value, EndpointScheme) then ValidateMessage(InvalidHeaderMessage)
    else if |header.value| < 7 then
      assert header.value == header.value[..|EndpointScheme|];
      Escaped(StringIndexOutOfBounds)
    else
      var token := header.value[7..];
      if !ValidateToken(codec, token, now) then ValidateMessage(InvalidTokenResponse)
      else
        match ExtractUsername(codec, token, later)
        case Failure(f) => Escaped(TokenFault(f))
        case Success(username) =>
          match ExtractRole(codec, token, later)
          case Failure(f) => Escaped(TokenFault(f))
          case Success(role) => TokenOk(true, username, role, TokenValidMessage)
  }

  /** The bare header "Bearer" passes the endpoint's test and then throws
      at `substring(7)`. */
  lemma BareSchemeThrows(codec: Codec, now: Millis, later: Millis)
    ensures ValidateEndpoint(codec, Some("Bearer"), now, later) == Escaped(StringIndexOutOfBounds)
  {
  }

  /** The endpoint ignores the character after "Bearer": with any other
      character than a space the gate answers "Not token provided", while the
      endpoint treats the header exactly as "Bearer " + the same token. */
  lemma EndpointHeaderLooserThanGate(codec: Codec, c: char, token: Token, now: Millis, later: Millis)
    requires c != ' '
    ensures Authenticate(codec, Some("Bearer" + [c] + token), now, later) == Rejected(Unauthorized, NoTokenMessage)
    ensures ValidateEndpoint(codec, Some("Bearer" + [c] + token), now, later)
         == ValidateEndpoint(codec, Some(BearerPrefix + token), now, later)
  {
    var h := "Bearer" + [c] + token;
    assert h[6] == c;
    assert h[..6] == EndpointScheme;
    assert h[7..] == token;
    var g := BearerPrefix + token;
    assert g[..6] == EndpointScheme;
    assert g[7..] == token;
  }

  /** `validate` on a header that passes its test and is long enough: the
      token after the first seven characters is answered "Invalid Token"
      when it fails validation, with nothing extracted; a valid one is
      reported with the username and role of its payload, read at the later
      clock reading; and a parse that fails at that reading escapes as an
      exception. */
  lemma ValidateEndpointOutcomes(codec: Codec, header: string, now: Millis, later: Millis)
    requires StartsWith(header, EndpointScheme) && |header| >= 7
    ensures var token := header[7..];
      var r := ValidateEndpoint(codec, Some(header), now, later);
      && (!ValidateToken(codec, token, now) ==> r == ValidateMessage(InvalidTokenResponse))
      && (ValidateToken(codec, token, now) && codec.parse(token, later).Some? ==>
            var c := codec.parse(token, later).value;
            r == TokenOk(true, c.sub, c.role, TokenValidMessage))
      && (ValidateToken(codec, token, now) && codec.parse(token, later).None? ==>
            r == Escaped(TokenFault(ParseFailure)))
  {
  }

  /** Behind the gate (the endpoint is not an open path) the looser header
      test never matters: whatever its own clock readings `now2` and
      `later2`, the endpoint neither rejects the header nor throws at
      `substring(7)` on a header the gate authenticated. It validates and
      extracts again, so a token that expires or stops parsing in between
      can still be refused or escape; read at the gate's own readings, it
      reports valid with the gate's username and the role claim behind the
      gate's authority. */
  lemma GateShieldsEndpoint(codec: Codec, header: Option<string>, now: Millis, later: Millis,
                            now2: Millis, later2: Millis)
    requires Authenticate(codec, header, now, later).Authenticated?
    ensures ValidateEndpoint(codec, header, now2, later2) != ValidateMessage(InvalidHeaderMessage)
    ensures ValidateEndpoint(codec, header, now2, later2) != Escaped(StringIndexOutOfBounds)
    ensures now2 == now && later2 == later ==>
      var p := Authenticate(codec, header, now, later).principal;
      var r := ValidateEndpoint(codec, header, now, later);
      && r.TokenOk? && r.valid && r.username == p.username
      && p.authorities == [Authority(Text(r.role))]
  {
  }

  /** End to end: a user registered into a store without that email logs in
      with the same password, and a bearer request with the token returned
      passes the gate between the token's `nbf` and `exp` as that user, with
      the authority ROLE_USER their record grants. */
  lemma RegisteredUserAuthenticates(codec: Codec, encoder: PasswordEncoder, users: map<string, User>,
                                    id: int, request: RegisterRequest, uri: string, jti: string,
                                    notBeforeClock: Millis, issuedAtClock: Millis, ttl: int,
                                    now: Millis, later: Millis)
    requires Conforms(codec) && EncoderSound(encoder)
    requires notBeforeClock <= issuedAtClock && 0 <= ttl && IsLong(issuedAtClock + ttl)
    requires notBeforeClock <= now <= issuedAtClock + ttl
    requires notBeforeClock - AllowedClockSkewMillis <= later <= issuedAtClock + ttl + AllowedClockSkewMillis
    requires !ShouldNotFilter(uri)
    ensures var stored := NewUser(request, encoder).(id := Some(id));
      var login := Login(users[request.email := stored], encoder, codec, LoginRequest(request.email, request.password),
                         jti, notBeforeClock, issuedAtClock, ttl);
      && login.LoggedIn?
      && Gate(codec, Request(uri, Some(BearerPrefix + login.accessToken)), now, later)
         == Authenticated(Principal(Some(request.username), GetAuthorities(stored)))
      && GetAuthorities(stored) == ["ROLE_USER"]
  {
    var stored := NewUser(request, encoder).(id := Some(id));
    var users' := users[request.email := stored];
    assert encoder.matches(request.password, encoder.encode(request.password));
    var token := GenerateToken(codec, request.username, request.email, USER, jti, notBeforeClock, issuedAtClock, ttl);
    IssuedTokenRoundTrip(codec, request.username, request.email, USER, jti,
                         notBeforeClock, issuedAtClock, ttl, now, later);
    var header := BearerPrefix + token;
    assert header[..|BearerPrefix|] == BearerPrefix;
    assert BearerToken(header) == token;
    assert FindByEmail(users', request.email) == Success(stored);
    assert Login(users', encoder, codec, LoginRequest(request.email, request.password),
                 jti, notBeforeClock, issuedAtClock, ttl).accessToken == token;
    assert Authenticate(codec, Some(header), now, later)
        == Authenticated(Principal(Some(request.username), [Authority(Text(Some(RoleName(USER))))]));
    RegisteredUserShape(request, encoder);
    assert [Authority(Text(Some(RoleName(USER))))] == GetAuthorities(stored);
  }
}
