/** The per-request authentication gate. A request whose URI names one of the
    open endpoints bypasses it; every other request must carry
    `Authorization: Bearer <token>` (the scheme of section 2.1 of RFC 6750,
    matched case-sensitively with exactly one space) whose token validates;
    the gate then attaches a principal holding the token's username and the
    single authority "ROLE_" + role, and only then forwards the request. Each
    failure answers 401 with a JSON error body and stops.

    Validation reads the clock at `now`; the extraction that follows reads it
    again at `later`. */
module CommonJwtAuthenticationFilter {
  import opened Wrappers
  import opened JavaLang
  import opened ClaimsModel
  import opened CommonJwtService

  /** What the gate reads of an HTTP request. */
  datatype Request = Request(uri: string, authorization: Option<string>)

  /** The authentication stored in the security context: the principal
      (the username claim, `null` when absent) and its granted authorities. */
  datatype Principal = Principal(username: Option<string>, authorities: seq<string>)

  /** The JSON body `sendError` writes, less its timestamp. */
  datatype ErrorBody = ErrorBody(error: string, status: int)

  /** Where a request ends up. */
  datatype GateOutcome =
    | Bypassed
    | Rejected(status: int, message: string)
    | Authenticated(principal: Principal)

  const BearerPrefix: string := "Bearer "
  const Unauthorized: int := 401
  const NoTokenMessage: string := "Not token provided"
  const InvalidTokenMessage: string := "Invalid token"
  const ProcessErrorMessage: string := "Token process error: "
  const JsonContentType: string := "application/json"
  const Utf8: string := "UTF-8"

  /** `shouldNotFilter`: the URI contains one of three fixed substrings,
      anywhere in it. */
  function ShouldNotFilter(uri: string): (bypass: bool)
    ensures bypass <==>
      || (exists i: nat :: OccursAt(uri, "/auth/register", i))
      || (exists i: nat :: OccursAt(uri, "/auth/login", i))
      || (exists i: nat :: OccursAt(uri, "/actuator/", i))
  {
    ContainsIff(uri, "/auth/register");
    ContainsIff(uri, "/auth/login");
    ContainsIff(uri, "/actuator/");
    Contains(uri, "/auth/register") || Contains(uri, "/auth/login") || Contains(uri, "/actuator/")
  }

  /** The substring rule matches anywhere: a login path nested inside
      another path bypasses, while `/actuator` without its slash does not. */
  lemma BypassIsSubstringMatch()
    ensures ShouldNotFilter("/x/auth/login/y")
    ensures !ShouldNotFilter("/actuator")
  {

  }

  /** Each character of an occurrence matches the pattern. */
  lemma OccurrenceMatches(s: string, p: string, i: nat, k: nat)
    requires OccursAt(s, p, i) && k < |p|
    ensures s[i + k] == p[k]
  {

  }

  /** The token-validation endpoint is not an open path: its requests pass
      through the gate. */
  lemma ValidateEndpointIsGuarded()
    ensures !ShouldNotFilter("/auth/validate")
  {
    var v := "/auth/validate";
    forall i: nat | OccursAt(v, "/auth/login", i) ensures false {
      OccurrenceMatches(v, "/auth/login", i, 1);
      OccurrenceMatches(v, "/auth/login", i, 6);
      if i == 0 {} else if i == 1 {} else if i == 2 {} else {}
    }
    forall i: nat | OccursAt(v, "/auth/register", i) ensures false {
      OccurrenceMatches(v, "/auth/register", i, 6);
    }
    forall i: nat | OccursAt(v, "/actuator/", i) ensures false {
      OccurrenceMatches(v, "/actuator/", i, 2);
      if i == 0 {} else if i == 1 {} else if i == 2 {} else if i == 3 {} else {}
    }
  }

  /** The header the gate accepts: present and starting with "Bearer ". */
  predicate HasBearerHeader(header: Option<string>) {
    header.Some? && StartsWith(header.value, BearerPrefix)
  }

  /** The token the gate hands to the validator: the header without its
      first seven characters. */
  function BearerToken(header: string): Token
    requires StartsWith(header, BearerPrefix)
  {
    header[|BearerPrefix|..]
  }

  /** The tokens `doFilterInternal` passes to `validateToken`: one, exactly
      when the header check passes. */
  function ValidatorInput(header: Option<string>): seq<Token> {
    if HasBearerHeader(header) then [BearerToken(header.value)] else []
  }

  /** The decision of `doFilterInternal`: it never bypasses, every rejection
      is a 401, and a request authenticates exactly when its `Bearer ` token
      validates now and still parses at the later reading; the principal is
      then that payload's username with the one authority its role grants. */
  function Authenticate(codec: Codec, header: Option<string>, now: Millis, later: Millis): (r: GateOutcome)
    ensures !r.Bypassed?
    ensures r.Rejected? ==> r.status == Unauthorized
    ensures !HasBearerHeader(header) ==> r == Rejected(Unauthorized, NoTokenMessage)
    ensures r.Authenticated? <==>
      && HasBearerHeader(header)
      && ValidateToken(codec, BearerToken(header.value), now)
      && codec.parse(BearerToken(header.value), later).Some?
    ensures r.Authenticated? ==>
      var c := codec.parse(BearerToken(header.value), later).value;
      r.principal == Principal(c.sub, [Authority(Text(c.role))])
  {
    if !HasBearerHeader(header) then Rejected(Unauthorized, NoTokenMessage)
    else
      var token := BearerToken(header.value);
      if !ValidateToken(codec, token, now) then Rejected(Unauthorized, InvalidTokenMessage)
      else
        match (ExtractUsername(codec, token, later), ExtractRole(codec, token, later))
        case (Success(username), Success(role)) =>
          Authenticated(Principal(username, [Authority(Text(role))]))
        case _ => Rejected(Unauthorized, ProcessErrorMessage)
  }

  /** The decision of the whole filter (`doFilter`): bypass first, then
      `doFilterInternal`. */
  function Gate(codec: Codec, request: Request, now: Millis, later: Millis): (r: GateOutcome)
    ensures r.Bypassed? <==> ShouldNotFilter(request.uri)
    ensures r.Rejected? ==> r.status == Unauthorized
  {
    if ShouldNotFilter(request.uri) then Bypassed
    else Authenticate(codec, request.authorization, now, later)
  }

  /** Bypass: an open path is forwarded whatever header it carries. */
  lemma BypassIgnoresHeader(codec: Codec, uri: string, h1: Option<string>, h2: Option<string>,
                            now: Millis, later: Millis)
    requires ShouldNotFilter(uri)
    ensures Gate(codec, Request(uri, h1), now, later) == Bypassed
    ensures Gate(codec, Request(uri, h1), now, later) == Gate(codec, Request(uri, h2), now, later)
  {
  }

  /** Header contract: a missing header, or one that does not start with
      exactly "Bearer " (so "bearer x" or "Bearerx" too), is answered 401
      "Not token provided" and nothing reaches the validator. */
  lemma MissingOrForeignHeaderRejected(codec: Codec, request: Request, now: Millis, later: Millis)
    requires !ShouldNotFilter(request.uri)
    requires request.authorization.None? || !StartsWith(request.authorization.value, BearerPrefix)
    ensures Gate(codec, request, now, later) == Rejected(Unauthorized, NoTokenMessage)
    ensures ValidatorInput(request.authorization) == []
  {
  }

  /** The case of the scheme matters: "bearer " is refused. */
  lemma LowerCaseSchemeRejected(codec: Codec, token: Token, now: Millis, later: Millis)
    ensures Authenticate(codec, Some("bearer " + token), now, later) == Rejected(Unauthorized, NoTokenMessage)
  {

  }

  /** A well-formed header whose token fails validation is answered 401
      "Invalid token". */
  lemma InvalidTokenRejected(codec: Codec, request: Request, now: Millis, later: Millis)
    requires !ShouldNotFilter(request.uri) && HasBearerHeader(request.authorization)
    requires !ValidateToken(codec, BearerToken(request.authorization.value), now)
    ensures Gate(codec, request, now, later) == Rejected(Unauthorized, InvalidTokenMessage)
    ensures ValidatorInput(request.authorization) == [BearerToken(request.authorization.value)]
  {
  }

  /** Only a validated token authenticates, and the principal it yields is
      the token's username with the single authority "ROLE_" + its role claim
      (the text "null" when the claim is absent). */
  lemma AuthenticatedOnlyAfterValidation(codec: Codec, request: Request, now: Millis, later: Millis)
    requires Gate(codec, request, now, later).Authenticated?
    ensures !ShouldNotFilter(request.uri) && HasBearerHeader(request.authorization)
    ensures var token := BearerToken(request.authorization.value);
      var p := Gate(codec, request, now, later).principal;
      && ValidateToken(codec, token, now)
      && codec.parse(token, later).Some?
      && p.username == codec.parse(token, later).value.sub
      && p.authorities == [Authority(Text(codec.parse(token, later).value.role))]
      && |p.authorities| == 1 && StartsWith(p.authorities[0], RolePrefix)
  {
  }

  /** A validated token whose parse fails at the second clock reading is
      answered 401 with the process-error message and never authenticates. */
  lemma ExtractionFaultRejected(codec: Codec, request: Request, now: Millis, later: Millis)
    requires !ShouldNotFilter(request.uri) && HasBearerHeader(request.authorization)
    requires ValidateToken(codec, BearerToken(request.authorization.value), now)
    requires codec.parse(BearerToken(request.authorization.value), later).None?
    ensures Gate(codec, request, now, later) == Rejected(Unauthorized, ProcessErrorMessage)
  {
  }

  /** The state one request works on: the response being written, the
      security context, and a record of the calls made to the validator and
      to the rest of the filter chain. */
  class Exchange {
    const request: Request
    var status: int
    var contentType: Option<string>
    var characterEncoding: Option<string>
    var written: seq<ErrorBody>
    var authentication: Option<Principal>
    var validatorCalls: seq<Token>
    var chainCalls: nat

    constructor (request: Request)
      ensures this.request == request
      ensures status == 200 && contentType.None? && characterEncoding.None? && written == []
      ensures authentication.None? && validatorCalls == [] && chainCalls == 0
    {
      this.request := request;
      status := 200;
      contentType := None;
      characterEncoding := None;
      written := [];
      authentication := None;
      validatorCalls := [];
      chainCalls := 0;
    }

    /** `sendError`: sets the status and writes one JSON body whose `error`
        is the message and whose `status` is the same code. */
    method SendError(code: int, message: string)
      modifies this
      ensures status == code && contentType == Some(JsonContentType) && characterEncoding == Some(Utf8)
      ensures written == old(written) + [ErrorBody(message, code)]
      ensures authentication == old(authentication) && validatorCalls == old(validatorCalls)
      ensures chainCalls == old(chainCalls)
    {
      status := code;
      contentType := Some(JsonContentType);
      characterEncoding := Some(Utf8);
      written := written + [ErrorBody(message, code)];
    }

    /** `filterChain.doFilter(request, response)`. */
    method ForwardToChain()
      modifies this
      ensures chainCalls == old(chainCalls) + 1
      ensures status == old(status) && contentType == old(contentType)
      ensures characterEncoding == old(characterEncoding) && written == old(written)
      ensures authentication == old(authentication) && validatorCalls == old(validatorCalls)
    {
      chainCalls := chainCalls + 1;
    }

    /** `jwtService.validateToken(token)`, recorded. */
    method CallValidator(codec: Codec, token: Token, now: Millis) returns (valid: bool)
      modifies this
      ensures valid == ValidateToken(codec, token, now)
      ensures validatorCalls == old(validatorCalls) + [token]
      ensures status == old(status) && contentType == old(contentType)
      ensures characterEncoding == old(characterEncoding) && written == old(written)
      ensures authentication == old(authentication) && chainCalls == old(chainCalls)
    {
      valid := ValidateToken(codec, token, now);
      validatorCalls := validatorCalls + [token];
    }

    /** `doFilterInternal`: the new state follows `Authenticate`. The chain
        runs once on the authenticated path and never otherwise; a rejection
        writes exactly one error body; the context changes only on success. */
    method DoFilterInternal(codec: Codec, now: Millis, later: Millis)
      modifies this
      ensures var g := Authenticate(codec, request.authorization, now, later);
        && validatorCalls == old(validatorCalls) + ValidatorInput(request.authorization)
        && chainCalls == old(chainCalls) + (if g.Authenticated? then 1 else 0)
        && authentication == (if g.Authenticated? then Some(g.principal) else old(authentication))
        && (if g.Rejected?
            then status == g.status && contentType == Some(JsonContentType)
                 && characterEncoding == Some(Utf8) && written == old(written) + [ErrorBody(g.message, g.status)]
            else status == old(status) && contentType == old(contentType)
                 && characterEncoding == old(characterEncoding) && written == old(written))
    {
      var authHeader := request.authorization;
      if authHeader.None? || !StartsWith(authHeader.value, BearerPrefix) {
        SendError(Unauthorized, NoTokenMessage);
        return;
      }
      var token := authHeader.value[7..];
      var valid := CallValidator(codec, token, now);
      if !valid {
        SendError(Unauthorized, InvalidTokenMessage);
        return;
      }
      var username := ExtractUsername(codec, token, later);
      var role := ExtractRole(codec, token, later);
      if username.Failure? || role.Failure? {
        SendError(Unauthorized, ProcessErrorMessage);
        return;
      }
      authentication := Some(Principal(username.value, [Authority(Text(role.value))]));
      ForwardToChain();
    }

    /** The filter as a whole: a bypassed request goes straight down the
        chain, with no header check and no validation. */
    method DoFilter(codec: Codec, now: Millis, later: Millis)
      modifies this
      ensures var g := Gate(codec, request, now, later);
        && validatorCalls == old(validatorCalls) + (if g.Bypassed? then [] else ValidatorInput(request.authorization))
        && chainCalls == old(chainCalls) + (if g.Rejected? then 0 else 1)
        && authentication == (if g.Authenticated? then Some(g.principal) else old(authentication))
        && (if g.Rejected?
            then status == g.status && contentType == Some(JsonContentType)
                 && characterEncoding == Some(Utf8) && written == old(written) + [ErrorBody(g.message, g.status)]
            else status == old(status) && contentType == old(contentType)
                 && characterEncoding == old(characterEncoding) && written == old(written))
    {
      if ShouldNotFilter(request.uri) {
        ForwardToChain();
      } else {
        DoFilterInternal(codec, now, later);
      }
    }
  }

  /** A fresh exchange: after the filter, the chain has run at most once,
      at most one error body has been written, and exactly one of the two
      has happened. */
  method FilterOnce(codec: Codec, request: Request, now: Millis, later: Millis) returns (e: Exchange)
    ensures e.request == request
    ensures e.chainCalls <= 1 && |e.written| <= 1 && e.chainCalls + |e.written| == 1
    ensures e.chainCalls == 1 <==> !Gate(codec, request, now, later).Rejected?
    ensures e.authentication.Some? <==> Gate(codec, request, now, later).Authenticated?
  {
    e := new Exchange(request);
    e.DoFilter(codec, now, later);
  }
}
