/**
 * OpenID Connect login as oidc.js does it: the client metadata document,
 * the redirect to the provider's authorization endpoint (recording the
 * request under `oauth_state/<state>`), and the callback, which consumes the
 * state, exchanges the code, checks the ID token's issuer and audience and
 * writes the session. The ID token is only split and decoded, never
 * signature-checked (the source relies on HTTPS).
 */
module Oidc {
  import opened Wrappers
  import opened Strings
  import opened Json
  import opened Http
  import opened Records
  import opened Store

  const InvalidJwt: string := "Invalid JWT"
  const IssuerMismatch: string := "Issuer mismatch"
  const AudienceMismatch: string := "Audience mismatch"

  /** What `jwtText.split` throws when the token response's `id_token` is present but not a string. */
  const NotAString: string := "TypeError: jwtText.split is not a function"

  /** What `fetch` rejects with when the recorded request has no `tokenEndpoint`. */
  const NoTokenEndpoint: string := "TypeError: Failed to parse URL from undefined"

  // ---------------------------------------------------------------------
  // JWTs (compact serialization, section 7.1 of RFC 7515)

  /** `parseJwt`'s result: decoded header and claims, and the signature segment verbatim. */
  datatype Jwt = Jwt(header: Json, claims: Json, signature: string)

  /** `JSON.parse(atob(segment))`: a value, or the message of what either call throws. */
  type Decoder = string -> Result<Json>

  /** `parseJwt`: exactly three `.`-separated segments, the first two decoded in order. */
  function ParseJwt(jwtText: string, decode: Decoder): (r: Result<Jwt>)
    ensures |Split(jwtText, '.')| != 3 ==> r == Err(InvalidJwt)
    ensures r.Ok? ==> r.value.signature == Split(jwtText, '.')[2]
  {
    var parts := Split(jwtText, '.');
    if |parts| != 3 then Err(InvalidJwt)
    else match decode(parts[0])
      case Err(m) => Err(m)
      case Ok(header) =>
        match decode(parts[1])
        case Err(m) => Err(m)
        case Ok(claims) => Ok(Jwt(header, claims, parts[2]))
  }

  /**
   * A token is rejected as malformed exactly when it does not have two
   * dots; with two, the outcome is up to the decoder alone: the header's
   * error first, then the claims', else both decoded values and the third
   * segment.
   */
  lemma ParseJwtShape(jwtText: string, decode: Decoder)
    ensures |Split(jwtText, '.')| == Count(jwtText, '.') + 1
    ensures Count(jwtText, '.') != 2 ==> ParseJwt(jwtText, decode) == Err(InvalidJwt)
    ensures Count(jwtText, '.') == 2 ==>
      var parts := Split(jwtText, '.');
      ParseJwt(jwtText, decode)
        == if decode(parts[0]).Err? then Err(decode(parts[0]).message)
           else if decode(parts[1]).Err? then Err(decode(parts[1]).message)
           else Ok(Jwt(decode(parts[0]).value, decode(parts[1]).value, parts[2]))
  {
    SplitCount(jwtText, '.');
  }

  /** Three dot-free segments joined by dots parse back into those segments. */
  lemma ParseJwtCompose(header: string, claims: string, signature: string, decode: Decoder)
    requires '.' !in header && '.' !in claims && '.' !in signature
    requires decode(header).Ok? && decode(claims).Ok?
    ensures ParseJwt(header + "." + claims + "." + signature, decode)
      == Ok(Jwt(decode(header).value, decode(claims).value, signature))
  {
    SplitNoSep(signature, '.');
    SplitAt(claims, signature, '.');
    SplitAt(header, claims + "." + signature, '.');
    assert header + "." + claims + "." + signature == header + ['.'] + (claims + ['.'] + signature);
  }

  /**
   * The audience check: an array `aud` must hold the expected audience as
   * an element; anything else must be that very string.
   */
  predicate AudienceMatches(aud: Option<Json>, expectedAudience: string) {
    if aud.Some? && aud.value.JArr? then JStr(expectedAudience) in aud.value.items
    else StrictEquals(aud, Some(JStr(expectedAudience)))
  }

  /**
   * `parseAndVerifyJwt(tokenRes.id_token, issuer, clientId)`: `jwtText` is
   * the `id_token` read (`None` for `undefined`). Parse, then compare `iss`
   * to the expected issuer with `===`, then the audience.
   */
  function VerifyJwt(jwtText: Option<Json>, expectedIssuer: Option<Json>, expectedAudience: string,
                     decode: Decoder): Result<Jwt>
  {
    if jwtText.None? then Err(UndefinedPropertyError)
    else if jwtText.value.JNull? then Err(NullPropertyError)
    else if !jwtText.value.JStr? then Err(NotAString)
    else match ParseJwt(jwtText.value.s, decode)
      case Err(m) => Err(m)
      case Ok(jwt) =>
        match Member(jwt.claims, "iss")
        case Err(m) => Err(m)
        case Ok(iss) =>
          if !StrictEquals(expectedIssuer, iss) then Err(IssuerMismatch)
          else if !AudienceMatches(Prop(jwt.claims, "aud"), expectedAudience) then Err(AudienceMismatch)
          else Ok(jwt)
  }

  method ParseAndVerifyJwt(jwtText: Option<Json>, expectedIssuer: Option<Json>, expectedAudience: string,
                           decode: Decoder)
    returns (r: Result<Jwt>)
    ensures r == VerifyJwt(jwtText, expectedIssuer, expectedAudience, decode)
  {
    if jwtText.None? {
      return Err(UndefinedPropertyError);
    }
    if jwtText.value.JNull? {
      return Err(NullPropertyError);
    }
    if !jwtText.value.JStr? {
      return Err(NotAString);
    }
    var parsed := ParseJwt(jwtText.value.s, decode);
    if parsed.Err? {
      return Err(parsed.message);
    }
    var jwt := parsed.value;
    var iss := Member(jwt.claims, "iss");
    if iss.Err? {
      return Err(iss.message);
    }
    if !StrictEquals(expectedIssuer, iss.value) {
      return Err(IssuerMismatch);
    }
    var aud := Prop(jwt.claims, "aud");
    var audMatch := false;
    if aud.Some? && aud.value.JArr? {
      var items := aud.value.items;
      var i := 0;
      while i < |items|
        invariant 0 <= i <= |items|
        invariant !audMatch && JStr(expectedAudience) !in items[..i]
      {
        if items[i] == JStr(expectedAudience) {
          audMatch := true;
          break;
        }
        i := i + 1;
      }
      assert audMatch || items[..i] == items;
    } else {
      audMatch := StrictEquals(aud, Some(JStr(expectedAudience)));
    }
    if !audMatch {
      return Err(AudienceMismatch);
    }
    return Ok(jwt);
  }

  /**
   * The issuer is checked before the audience: a parsed token whose `iss`
   * is not (strictly) the expected issuer fails with "Issuer mismatch",
   * whatever its audience.
   */
  lemma VerifyIssuerFirst(token: string, expectedIssuer: Option<Json>, expectedAudience: string, decode: Decoder)
    requires ParseJwt(token, decode).Ok?
    requires var claims := ParseJwt(token, decode).value.claims;
      !claims.JNull? && !StrictEquals(expectedIssuer, Prop(claims, "iss"))
    ensures VerifyJwt(Some(JStr(token)), expectedIssuer, expectedAudience, decode) == Err(IssuerMismatch)
  {
  }

  /**
   * A token is accepted exactly when it is a string that parses, its claims
   * are not `null`, `iss === expectedIssuer`, and the audience matches: for
   * an array `aud` some element is the expected audience, otherwise `aud`
   * is it. The accepted token is returned as parsed.
   */
  lemma VerifyAccepts(jwtText: Option<Json>, expectedIssuer: Option<Json>, expectedAudience: string, decode: Decoder)
    ensures var r := VerifyJwt(jwtText, expectedIssuer, expectedAudience, decode);
      r.Ok? <==>
        && jwtText.Some? && jwtText.value.JStr?
        && ParseJwt(jwtText.value.s, decode).Ok?
        && var claims := ParseJwt(jwtText.value.s, decode).value.claims;
           && !claims.JNull?
           && StrictEquals(expectedIssuer, Prop(claims, "iss"))
           && var aud := Prop(claims, "aud");
              if aud.Some? && aud.value.JArr?
              then exists i :: 0 <= i < |aud.value.items| && aud.value.items[i] == JStr(expectedAudience)
              else aud == Some(JStr(expectedAudience))
    ensures var r := VerifyJwt(jwtText, expectedIssuer, expectedAudience, decode);
      r.Ok? ==> r == ParseJwt(jwtText.value.s, decode)
  {
  }

  // ---------------------------------------------------------------------
  // Client identity and metadata

  function ClientId(hostname: string, pathPrefix: string): string {
    "https://" + hostname + pathPrefix + "/oidc-client"
  }

  function RedirectUri(hostname: string, pathPrefix: string): string {
    "https://" + hostname + pathPrefix + "/oidc-callback"
  }

  /** `oidcClientMetadata`: the client metadata document, served as JSON. */
  function ClientMetadata(hostname: string, pathPrefix: string): Response {
    var meta := OidcClientMeta(
      ClientId(hostname, pathPrefix), "web", "Decent Auth Client", "https://" + hostname, true,
      ["authorization_code", "refresh_token"], [RedirectUri(hostname, pathPrefix)], ["code"],
      "openid email profile", "none");
    Response(200, None, None, Some("application/json"), OidcClientDocument(meta))
  }

  // ---------------------------------------------------------------------
  // Login

  /** The seven query fields of the authorization URL, in order. */
  function AuthorizeFields(clientId: string, redirectUri: string, state: string, codeChallenge: string): seq<string> {
    ["client_id=" + clientId, "redirect_uri=" + redirectUri, "state=" + state, "response_type=code",
     "scope=openid email profile", "code_challenge=" + codeChallenge, "code_challenge_method=S256"]
  }

  /** The authorization URL: the endpoint as rendered, `?`, then the fields joined by `&`. */
  function AuthorizeUrl(endpoint: string, clientId: string, redirectUri: string, state: string, codeChallenge: string): string {
    endpoint + "?" + Join(AuthorizeFields(clientId, redirectUri, state, codeChallenge), '&')
  }

  /**
   * `oidcLoginWithMeta`: `meta` is the provider's discovery document; the
   * PKCE verifier, its challenge and the state come from oauth4webapi and
   * are passed in. Redirect to the authorization endpoint and record the
   * request under the state.
   */
  function LoginStep(store: map<string, Value>, hostname: string, pathPrefix: string, meta: Json,
                     codeVerifier: string, codeChallenge: string, state: string): Step
  {
    var clientId, redirectUri := ClientId(hostname, pathPrefix), RedirectUri(hostname, pathPrefix);
    match Member(meta, "authorization_endpoint")
    case Err(m) => Step(Thrown(m), [], store)
    case Ok(endpoint) =>
      var authUri := AuthorizeUrl(Render(endpoint), clientId, redirectUri, state, codeChallenge);
      var request := OidcAuth(Prop(meta, "issuer"), clientId, redirectUri, Prop(meta, "token_endpoint"), codeVerifier);
      Step(Reply(Redirect(authUri)), [], store[StateKey(state) := AuthRecord(request)])
  }

  method LoginWithMeta(store: KvStore<Value>, hostname: string, pathPrefix: string, meta: Json,
                       codeVerifier: string, codeChallenge: string, state: string)
    returns (outcome: Outcome)
    requires store.Valid()
    modifies store
    ensures store.Valid()
    ensures Step(outcome, [], store.obj) == LoginStep(old(store.obj), hostname, pathPrefix, meta, codeVerifier, codeChallenge, state)
  {
    var clientId, redirectUri := ClientId(hostname, pathPrefix), RedirectUri(hostname, pathPrefix);
    var endpoint := Member(meta, "authorization_endpoint");
    if endpoint.Err? {
      return Thrown(endpoint.message);
    }
    var authUri := AuthorizeUrl(Render(endpoint.value), clientId, redirectUri, state, codeChallenge);
    var request := OidcAuth(Prop(meta, "issuer"), clientId, redirectUri, Prop(meta, "token_endpoint"), codeVerifier);
    store.Set(StateKey(state), AuthRecord(request));
    outcome := Reply(Redirect(authUri));
  }

  function DiscoveryUrl(providerUri: string): string {
    providerUri + "/.well-known/openid-configuration"
  }

  /** `oidcLogin`: fetch the discovery document (its JSON is `meta`), then log in with it. */
  function DiscoverStep(store: map<string, Value>, providerUri: string, hostname: string, pathPrefix: string,
                        meta: Json, codeVerifier: string, codeChallenge: string, state: string): Step
  {
    var login := LoginStep(store, hostname, pathPrefix, meta, codeVerifier, codeChallenge, state);
    Step(login.outcome, [Get(DiscoveryUrl(providerUri))] + login.calls, login.store)
  }

  method Login(store: KvStore<Value>, providerUri: string, hostname: string, pathPrefix: string, meta: Json,
               codeVerifier: string, codeChallenge: string, state: string)
    returns (outcome: Outcome, calls: seq<Fetch>)
    requires store.Valid()
    modifies store
    ensures store.Valid()
    ensures Step(outcome, calls, store.obj)
      == DiscoverStep(old(store.obj), providerUri, hostname, pathPrefix, meta, codeVerifier, codeChallenge, state)
  {
    calls := [Get(DiscoveryUrl(providerUri))];
    outcome := LoginWithMeta(store, hostname, pathPrefix, meta, codeVerifier, codeChallenge, state);
  }

  /**
   * A login that gets past the discovery document records `{issuer,
   * clientId, redirectUri, tokenEndpoint, codeVerifier}` under the state,
   * changes no other key, and redirects to the endpoint with the same
   * client id, redirect URI and state, the challenge and the method `S256`.
   */
  lemma LoginRecordsRequest(store: map<string, Value>, hostname: string, pathPrefix: string, meta: Json,
                            codeVerifier: string, codeChallenge: string, state: string)
    ensures var r := LoginStep(store, hostname, pathPrefix, meta, codeVerifier, codeChallenge, state);
      r.outcome.Reply? <==> !meta.JNull?
    ensures var r := LoginStep(store, hostname, pathPrefix, meta, codeVerifier, codeChallenge, state);
      var clientId, redirectUri := ClientId(hostname, pathPrefix), RedirectUri(hostname, pathPrefix);
      var endpoint := Render(Prop(meta, "authorization_endpoint"));
      r.outcome.Reply? ==>
        && r.calls == []
        && r.store == store[StateKey(state) := AuthRecord(OidcAuth(Prop(meta, "issuer"), clientId, redirectUri,
                                                                   Prop(meta, "token_endpoint"), codeVerifier))]
        && r.outcome.response == Redirect(AuthorizeUrl(endpoint, clientId, redirectUri, state, codeChallenge))
        && ('?' !in endpoint && '&' !in hostname + pathPrefix && '&' !in state && '&' !in codeChallenge ==>
              QueryFields(r.outcome.response.location.value)
                == ["client_id=" + clientId, "redirect_uri=" + redirectUri, "state=" + state, "response_type=code",
                    "scope=openid email profile", "code_challenge=" + codeChallenge, "code_challenge_method=S256"])
  {
    var clientId, redirectUri := ClientId(hostname, pathPrefix), RedirectUri(hostname, pathPrefix);
    var endpoint := Render(Prop(meta, "authorization_endpoint"));
    if !meta.JNull? && '?' !in endpoint && '&' !in hostname + pathPrefix && '&' !in state && '&' !in codeChallenge {
      AuthorizeUrlFields(endpoint, hostname, pathPrefix, state, codeChallenge);
    }
  }

  /** The client id and redirect URI hold no `&` unless the host or prefix does. */
  lemma ClientFieldsPlain(hostname: string, pathPrefix: string)
    requires '&' !in hostname + pathPrefix
    ensures '&' !in ClientId(hostname, pathPrefix) && '&' !in RedirectUri(hostname, pathPrefix)
  {
    assert ClientId(hostname, pathPrefix) == "https://" + (hostname + pathPrefix) + "/oidc-client";
    assert RedirectUri(hostname, pathPrefix) == "https://" + (hostname + pathPrefix) + "/oidc-callback";
  }

  /** The authorization URL's query is exactly its seven fields when no value contains `&`. */
  lemma AuthorizeUrlFields(endpoint: string, hostname: string, pathPrefix: string, state: string, codeChallenge: string)
    requires '?' !in endpoint && '&' !in hostname + pathPrefix && '&' !in state && '&' !in codeChallenge
    ensures var clientId, redirectUri := ClientId(hostname, pathPrefix), RedirectUri(hostname, pathPrefix);
      QueryFields(AuthorizeUrl(endpoint, clientId, redirectUri, state, codeChallenge))
        == ["client_id=" + clientId, "redirect_uri=" + redirectUri, "state=" + state, "response_type=code",
            "scope=openid email profile", "code_challenge=" + codeChallenge, "code_challenge_method=S256"]
  {
    var clientId, redirectUri := ClientId(hostname, pathPrefix), RedirectUri(hostname, pathPrefix);
    var fields := AuthorizeFields(clientId, redirectUri, state, codeChallenge);
    ClientFieldsPlain(hostname, pathPrefix);
    assert forall i :: 0 <= i < |fields| ==> '&' !in fields[i];
    QueryFieldsOf(endpoint, fields);
  }

  /**
   * The metadata document advertises as `client_id` and `redirect_uris[0]`
   * exactly the client id and redirect URI that a login for the same host
   * and prefix records and sends.
   */
  lemma MetadataMatchesLogin(store: map<string, Value>, hostname: string, pathPrefix: string, meta: Json,
                             codeVerifier: string, codeChallenge: string, state: string)
    ensures var doc := ClientMetadata(hostname, pathPrefix).body.oidcMeta;
      var r := LoginStep(store, hostname, pathPrefix, meta, codeVerifier, codeChallenge, state);
      r.outcome.Reply? ==>
        && |doc.redirectUris| == 1
        && r.store[StateKey(state)].request.clientId == doc.clientId
        && r.store[StateKey(state)].request.redirectUri == doc.redirectUris[0]
  {
  }

  // ---------------------------------------------------------------------
  // Callback

  /** The `tokenEndpoint` property of a stored value: present only on OIDC and ATProto requests. */
  function TokenEndpointOf(v: Value): (r: Option<Json>)
    ensures r.Some? ==> v.AuthRecord? && (v.request.OidcAuth? || v.request.AtprotoAuth?)
  {
    if v.AuthRecord? && (v.request.OidcAuth? || v.request.AtprotoAuth?) then v.request.tokenEndpoint else None
  }

  /**
   * The code exchange: a form POST to the recorded token endpoint with the
   * recorded client id, redirect URI and verifier (`undefined` for a request
   * recorded without one).
   */
  function TokenRequest(request: AuthRequest, code: string): Fetch
    requires request.OidcAuth? || request.AtprotoAuth?
  {
    PostForm(Render(request.tokenEndpoint),
      [("code", code), ("client_id", request.clientId), ("redirect_uri", request.redirectUri),
       ("grant_type", "authorization_code"),
       ("code_verifier", if request.OidcAuth? then request.codeVerifier else "undefined")])
  }

  /** The session's user: a truthy `email` claim, else a truthy `preferred_username`, else `undefined`. */
  function UserIdFromClaims(claims: Json): (userId: Option<Json>)
    ensures userId.Some? ==> TruthyOpt(userId)
    ensures TruthyOpt(Prop(claims, "email")) ==> userId == Prop(claims, "email")
    ensures !TruthyOpt(Prop(claims, "email")) ==>
      userId == (if TruthyOpt(Prop(claims, "preferred_username")) then Prop(claims, "preferred_username") else None)
  {
    var email := Prop(claims, "email");
    var username := Prop(claims, "preferred_username");
    if TruthyOpt(email) then email
    else if TruthyOpt(username) then username
    else None
  }

  /** The token as the session keeps it: `{header, claims, signature}`. */
  function JwtJson(jwt: Jwt): Json {
    JObj(map["header" := jwt.header, "claims" := jwt.claims, "signature" := JStr(jwt.signature)])
  }

  /**
   * `oidcCallback`: `tokenResponse` is the token endpoint's JSON and
   * `sessionKey` the oauth4webapi state generated for the session.
   */
  function CallbackStep(store: map<string, Value>, query: Query, tokenResponse: Json, decode: Decoder,
                        sessionKey: string): Step
  {
    var code, state := Param(query, "code"), Param(query, "state");
    if Missing(code) || Missing(state) then Step(Reply(Plain(400, MissingParams)), [], store)
    else
      var key := StateKey(state.value);
      var consumed := DropPrefixed(store, key);
      if key !in store then Step(Thrown(NoSuchAuthRequest), [], consumed)
      else if TokenEndpointOf(store[key]).None? then Step(Thrown(NoTokenEndpoint), [], consumed)
      else
        var request := store[key].request;
        var calls := [TokenRequest(request, code.value)];
        match Member(tokenResponse, "id_token")
        case Err(m) => Step(Thrown(m), calls, consumed)
        case Ok(idToken) =>
          match VerifyJwt(idToken, request.issuer, request.clientId, decode)
          case Err(m) => Step(Thrown(m), calls, consumed)
          case Ok(jwt) =>
            var session := Session("email", UserIdFromClaims(jwt.claims), JwtJson(jwt));
            Step(Reply(LoggedIn(sessionKey)), calls, consumed[SessionKey(sessionKey) := SessionRecord(session)])
  }

  method Callback(store: KvStore<Value>, query: Query, tokenResponse: Json, decode: Decoder, sessionKey: string)
    returns (outcome: Outcome, calls: seq<Fetch>)
    requires store.Valid()
    modifies store
    ensures store.Valid()
    ensures Step(outcome, calls, store.obj) == CallbackStep(old(store.obj), query, tokenResponse, decode, sessionKey)
  {
    calls := [];
    var code, state := Param(query, "code"), Param(query, "state");
    if Missing(code) || Missing(state) {
      return Reply(Plain(400, MissingParams)), calls;
    }
    var authReq := store.Get(StateKey(state.value));
    store.Delete(StateKey(state.value));
    if authReq.None? {
      return Thrown(NoSuchAuthRequest), calls;
    }
    if TokenEndpointOf(authReq.value).None? {
      return Thrown(NoTokenEndpoint), calls;
    }
    var request := authReq.value.request;
    calls := [TokenRequest(request, code.value)];
    var idToken := Member(tokenResponse, "id_token");
    if idToken.Err? {
      return Thrown(idToken.message), calls;
    }
    var jwt := ParseAndVerifyJwt(idToken.value, request.issuer, request.clientId, decode);
    if jwt.Err? {
      return Thrown(jwt.message), calls;
    }
    var session := Session("email", UserIdFromClaims(jwt.value.claims), JwtJson(jwt.value));
    store.Set(SessionKey(sessionKey), SessionRecord(session));
    outcome := Reply(LoggedIn(sessionKey));
  }

  /**
   * Without `code` or `state` the callback answers 400 and touches nothing;
   * otherwise it consumes its state: no key under `oauth_state/<state>`
   * survives, whatever happens next.
   */
  lemma CallbackConsumesState(store: map<string, Value>, query: Query, tokenResponse: Json, decode: Decoder,
                              sessionKey: string)
    ensures var r := CallbackStep(store, query, tokenResponse, decode, sessionKey);
      Missing(Param(query, "code")) || Missing(Param(query, "state")) ==>
        r == Step(Reply(Plain(400, MissingParams)), [], store)
    ensures var r := CallbackStep(store, query, tokenResponse, decode, sessionKey);
      !Missing(Param(query, "code")) && !Missing(Param(query, "state")) ==>
        forall k :: StartsWith(k, StateKey(Param(query, "state").value)) ==> k !in r.store
  {
    if !Missing(Param(query, "code")) && !Missing(Param(query, "state")) {
      SessionNotState(sessionKey, Param(query, "state").value);
    }
  }

  /** No session is written on any failure path: unless the callback logs in, the store only loses entries. */
  lemma CallbackNoSessionOnFailure(store: map<string, Value>, query: Query, tokenResponse: Json, decode: Decoder,
                                   sessionKey: string)
    ensures var r := CallbackStep(store, query, tokenResponse, decode, sessionKey);
      r.outcome != Reply(LoggedIn(sessionKey)) ==> forall k :: k in r.store ==> k in store && r.store[k] == store[k]
  {
  }

  /**
   * The callback logs in exactly when the state names a request with a
   * token endpoint and the token response's `id_token` verifies against the
   * recorded issuer and client id. Then the code was exchanged with the
   * recorded endpoint, client id, redirect URI and verifier, and the session
   * `{userIdType: 'email', userId, data: jwt}` sits under the cookie's key.
   */
  lemma CallbackSuccess(store: map<string, Value>, query: Query, tokenResponse: Json, decode: Decoder,
                        sessionKey: string)
    ensures var r := CallbackStep(store, query, tokenResponse, decode, sessionKey);
      var code, state := Param(query, "code"), Param(query, "state");
      r.outcome == Reply(LoggedIn(sessionKey)) <==>
        && !Missing(code) && !Missing(state)
        && StateKey(state.value) in store
        && TokenEndpointOf(store[StateKey(state.value)]).Some?
        && !tokenResponse.JNull?
        && var request := store[StateKey(state.value)].request;
           VerifyJwt(Prop(tokenResponse, "id_token"), request.issuer, request.clientId, decode).Ok?
    ensures var r := CallbackStep(store, query, tokenResponse, decode, sessionKey);
      var code, state := Param(query, "code"), Param(query, "state");
      r.outcome == Reply(LoggedIn(sessionKey)) ==>
        var request := store[StateKey(state.value)].request;
        var jwt := VerifyJwt(Prop(tokenResponse, "id_token"), request.issuer, request.clientId, decode).value;
        && r.calls == [PostForm(Render(request.tokenEndpoint),
                         [("code", code.value), ("client_id", request.clientId), ("redirect_uri", request.redirectUri),
                          ("grant_type", "authorization_code"),
                          ("code_verifier", if request.OidcAuth? then request.codeVerifier else "undefined")])]
        && SessionKey(sessionKey) in r.store
        && r.store[SessionKey(sessionKey)]
             == SessionRecord(Session("email", UserIdFromClaims(jwt.claims), JwtJson(jwt)))
  {
  }

  /** Replaying a callback with the same state fails: the state can be used once. */
  lemma CallbackReplayFails(store: map<string, Value>, query: Query, tokenResponse: Json, decode: Decoder,
                            sessionKey: string, tokenResponse2: Json, sessionKey2: string)
    requires !Missing(Param(query, "code")) && !Missing(Param(query, "state"))
    ensures var first := CallbackStep(store, query, tokenResponse, decode, sessionKey);
      CallbackStep(first.store, query, tokenResponse2, decode, sessionKey2)
        == Step(Thrown(NoSuchAuthRequest), [], first.store)
  {
    var first := CallbackStep(store, query, tokenResponse, decode, sessionKey);
    var key := StateKey(Param(query, "state").value);
    CallbackConsumesState(store, query, tokenResponse, decode, sessionKey);
    assert StartsWith(key, key);
    assert DropPrefixed(first.store, key) == first.store;
  }

  /**
   * The handshake composes: after a login with `state` against a discovery
   * document with a token endpoint, a callback with a code and that state
   * exchanges the code at that endpoint with the login's client id,
   * redirect URI and PKCE verifier, and logs in when the ID token verifies
   * against the document's issuer and the client id.
   */
  lemma LoginThenCallback(store: map<string, Value>, hostname: string, pathPrefix: string, meta: Json,
                          codeVerifier: string, codeChallenge: string, state: string,
                          code: string, tokenResponse: Json, decode: Decoder, sessionKey: string)
    requires state != "" && code != ""
    requires !meta.JNull? && Prop(meta, "token_endpoint").Some?
    ensures var login := LoginStep(store, hostname, pathPrefix, meta, codeVerifier, codeChallenge, state);
      var callback := CallbackStep(login.store, map["code" := code, "state" := state], tokenResponse, decode, sessionKey);
      var clientId, redirectUri := ClientId(hostname, pathPrefix), RedirectUri(hostname, pathPrefix);
      && callback.calls == [PostForm(Render(Prop(meta, "token_endpoint")),
                              [("code", code), ("client_id", clientId), ("redirect_uri", redirectUri),
                               ("grant_type", "authorization_code"), ("code_verifier", codeVerifier)])]
      && (callback.outcome == Reply(LoggedIn(sessionKey)) <==>
            !tokenResponse.JNull? && VerifyJwt(Prop(tokenResponse, "id_token"), Prop(meta, "issuer"), clientId, decode).Ok?)
  {
    var login := LoginStep(store, hostname, pathPrefix, meta, codeVerifier, codeChallenge, state);
    var query := map["code" := code, "state" := state];
    assert Param(query, "state") == Some(state) && Param(query, "code") == Some(code);
    assert login.store[StateKey(state)].request.OidcAuth?;
    CallbackSuccess(login.store, query, tokenResponse, decode, sessionKey);
  }
}
