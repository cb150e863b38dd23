/**
 * Mastodon login over the key-value store, as index.js and fediverse.js do
 * it: `parseFediverseId`, `getNodeInfo`, `fediversePage`,
 * `startMastodonLogin` and `completeMastodonLogin`. The two files differ only
 * in the key the app registration is cached under (`AppKeying`).
 *
 * Each handler is a pure step function from the store's old contents (and
 * the fetched JSON, passed in) to a `Step`, and a method over the `KvStore`
 * proved to do what the step function says.
 */
module Mastodon {
  import opened Wrappers
  import opened Strings
  import opened Json
  import opened Http
  import opened Random
  import opened Records
  import opened Store

  const ActivityPub: string := "activitypub"
  const NodeInfoSchema: string := "http://nodeinfo.diaspora.software/ns/schema/2.0"
  const InvalidId: string := "Invalid ID"
  const NotMastodon: string := "Not a mastodon server"

  // ---------------------------------------------------------------------
  // Fediverse IDs

  /** `parseFediverseId`'s result; `None` where the source leaves `type` and `server` undefined. */
  datatype FediverseId = FediverseId(id: string, idType: Option<string>, server: Option<string>)

  function ParseFediverseId(id: string): (r: Result<FediverseId>)
    ensures r.Err? <==> StartsWith(id, "@") && Count(id, '@') != 2
    ensures r.Err? ==> r.message == InvalidId
    ensures r.Ok? ==> r.value.id == id && (r.value.idType.Some? <==> StartsWith(id, "@"))
    ensures r.Ok? && r.value.idType.Some? ==>
      r.value.idType == Some(ActivityPub) && r.value.server.Some? && '@' !in r.value.server.value
    ensures r.Ok? && r.value.idType.None? ==> r.value.server.None?
  {
    var parts := Split(id, '@');
    SplitCount(id, '@');
    if StartsWith(id, "@") then
      if |parts| != 3 then Err(InvalidId)
      else
        SplitPartsNoSep(id, '@');
        Ok(FediverseId(id, Some(ActivityPub), Some(parts[2])))
    else Ok(FediverseId(id, None, None))
  }

  /** `id` is `@user@server` with neither part containing `@`. */
  predicate IsHandle(id: string, user: string, server: string) {
    '@' !in user && '@' !in server && id == "@" + user + "@" + server
  }

  /** Every `@user@server` handle parses as an ActivityPub id on `server`. */
  lemma ParseHandle(user: string, server: string)
    requires '@' !in user && '@' !in server
    ensures var id := "@" + user + "@" + server;
      ParseFediverseId(id) == Ok(FediverseId(id, Some(ActivityPub), Some(server)))
  {
    var id := "@" + user + "@" + server;
    assert id == "" + "@" + (user + "@" + server);
    SplitAt("", user + "@" + server, '@');
    SplitAt(user, server, '@');
    SplitNoSep(server, '@');
    assert Split(id, '@') == ["", user, server];
  }

  /** Conversely, an id that parses as ActivityPub is such a handle, and the server is its last part. */
  lemma ActivityPubIdIsHandle(id: string)
    requires ParseFediverseId(id).Ok? && ParseFediverseId(id).value.idType.Some?
    ensures exists user, server :: IsHandle(id, user, server) && ParseFediverseId(id).value.server == Some(server)
  {
    var parts := Split(id, '@');
    SplitPartsNoSep(id, '@');
    JoinSplit(id, '@');
    assert id[0] == '@';
    assert parts[0] == "";
    assert Join(parts, '@') == parts[0] + "@" + parts[1] + "@" + parts[2] by {
      assert parts[1..][1..] == [parts[2]];
      assert Join(parts[1..][1..], '@') == parts[2];
      assert Join(parts[1..], '@') == parts[1] + "@" + parts[2];
    }
    assert IsHandle(id, parts[1], parts[2]);
  }

  // ---------------------------------------------------------------------
  // NodeInfo

  /** `link.rel === 'http://nodeinfo.diaspora.software/ns/schema/2.0'`. */
  predicate IsSchemaLink(link: Json) {
    StrictEquals(Prop(link, "rel"), Some(JStr(NodeInfoSchema)))
  }

  /**
   * What the `for…of` loop over `wellKnownObj.links` leaves in `nodeInfoUri`:
   * the `href` of the first schema link (`undefined` when there is none);
   * reading `rel` of a `null` entry before it throws.
   */
  function SchemaHref(links: seq<Json>): (r: Result<Option<Json>>)
    ensures r.Err? ==> r.message == NullPropertyError
  {
    if |links| == 0 then Ok(None)
    else if links[0].JNull? then Err(NullPropertyError)
    else if IsSchemaLink(links[0]) then Ok(Prop(links[0], "href"))
    else SchemaHref(links[1..])
  }

  method SelectNodeInfoUri(links: seq<Json>) returns (r: Result<Option<Json>>)
    ensures r == SchemaHref(links)
  {
    var nodeInfoUri: Option<Json> := None;
    var i := 0;
    while i < |links|
      invariant 0 <= i <= |links|
      invariant SchemaHref(links) == SchemaHref(links[i..])
    {
      var link := links[i];
      assert links[i..][1..] == links[i + 1..];
      if link.JNull? {
        return Err(NullPropertyError);
      }
      if IsSchemaLink(link) {
        nodeInfoUri := Prop(link, "href");
        return Ok(nodeInfoUri);
      }
      i := i + 1;
    }
    return Ok(nodeInfoUri);
  }

  /** When entry `i` is the first schema link (and no `null` precedes it), its `href` is chosen. */
  lemma {:induction false} SchemaHrefFirst(links: seq<Json>, i: nat)
    requires i < |links| && IsSchemaLink(links[i])
    requires forall j :: 0 <= j < i ==> !links[j].JNull? && !IsSchemaLink(links[j])
    ensures SchemaHref(links) == Ok(Prop(links[i], "href"))
  {
    if i > 0 {
      assert !links[0].JNull? && !IsSchemaLink(links[0]);
      forall j | 0 <= j < i - 1
        ensures !links[1..][j].JNull? && !IsSchemaLink(links[1..][j])
      {
        assert links[1..][j] == links[j + 1];
      }
      SchemaHrefFirst(links[1..], i - 1);
    }
  }

  /** Without any schema link (and no `null` entry), nothing is chosen. */
  lemma {:induction false} SchemaHrefNone(links: seq<Json>)
    requires forall j :: 0 <= j < |links| ==> !links[j].JNull? && !IsSchemaLink(links[j])
    ensures SchemaHref(links) == Ok(None)
  {
    if |links| > 0 {
      assert !links[0].JNull? && !IsSchemaLink(links[0]);
      forall j | 0 <= j < |links| - 1
        ensures !links[1..][j].JNull? && !IsSchemaLink(links[1..][j])
      {
        assert links[1..][j] == links[j + 1];
      }
      SchemaHrefNone(links[1..]);
    }
  }

  function WellKnownNodeInfo(serverDomain: string): Fetch {
    Get("https://" + serverDomain + "/.well-known/nodeinfo")
  }

  /**
   * `getNodeInfo(serverDomain)`: `links` is the fetched `wellKnownObj.links`
   * and `nodeInfo` the document fetched from the chosen `href`; a falsy
   * `href` is an error, and then the second fetch does not happen.
   */
  function NodeInfoLookup(serverDomain: string, links: seq<Json>, nodeInfo: Json): (Result<Json>, seq<Fetch>) {
    var wellKnown := WellKnownNodeInfo(serverDomain);
    match SchemaHref(links)
    case Err(m) => (Err(m), [wellKnown])
    case Ok(uri) =>
      if !TruthyOpt(uri) then (Err("Failed to get nodeinfo for " + serverDomain), [wellKnown])
      else (Ok(nodeInfo), [wellKnown, Get(Render(uri))])
  }

  method GetNodeInfo(serverDomain: string, links: seq<Json>, nodeInfo: Json) returns (r: Result<Json>, calls: seq<Fetch>)
    ensures (r, calls) == NodeInfoLookup(serverDomain, links, nodeInfo)
  {
    calls := [WellKnownNodeInfo(serverDomain)];
    var nodeInfoUri := SelectNodeInfoUri(links);
    if nodeInfoUri.Err? {
      r := Err(nodeInfoUri.message);
      assert NodeInfoLookup(serverDomain, links, nodeInfo) == (r, calls);
      return;
    }
    if !TruthyOpt(nodeInfoUri.value) {
      r := Err("Failed to get nodeinfo for " + serverDomain);
      assert NodeInfoLookup(serverDomain, links, nodeInfo) == (r, calls);
      return;
    }
    calls := calls + [Get(Render(nodeInfoUri.value))];
    r := Ok(nodeInfo);
    assert calls == [WellKnownNodeInfo(serverDomain), Get(Render(nodeInfoUri.value))];
    assert SchemaHref(links) == Ok(nodeInfoUri.value);
  }

  /** No schema link (and no `null` entry) fails after the well-known fetch alone. */
  lemma NodeInfoWithoutSchemaLink(serverDomain: string, links: seq<Json>, nodeInfo: Json)
    requires forall j :: 0 <= j < |links| ==> !links[j].JNull? && !IsSchemaLink(links[j])
    ensures NodeInfoLookup(serverDomain, links, nodeInfo)
      == (Err("Failed to get nodeinfo for " + serverDomain), [WellKnownNodeInfo(serverDomain)])
  {
    SchemaHrefNone(links);
  }

  /** A first schema link whose `href` is falsy (missing, `""`, `null`, ...) fails after the well-known fetch alone. */
  lemma NodeInfoFalsyHref(serverDomain: string, links: seq<Json>, nodeInfo: Json, i: nat)
    requires i < |links| && IsSchemaLink(links[i]) && !TruthyOpt(Prop(links[i], "href"))
    requires forall j :: 0 <= j < i ==> !links[j].JNull? && !IsSchemaLink(links[j])
    ensures NodeInfoLookup(serverDomain, links, nodeInfo)
      == (Err("Failed to get nodeinfo for " + serverDomain), [WellKnownNodeInfo(serverDomain)])
  {
    SchemaHrefFirst(links, i);
  }

  /** A first schema link with a truthy `href` fetches that `href` second and yields its document. */
  lemma NodeInfoFound(serverDomain: string, links: seq<Json>, nodeInfo: Json, i: nat)
    requires i < |links| && IsSchemaLink(links[i]) && TruthyOpt(Prop(links[i], "href"))
    requires forall j :: 0 <= j < i ==> !links[j].JNull? && !IsSchemaLink(links[j])
    ensures NodeInfoLookup(serverDomain, links, nodeInfo)
      == (Ok(nodeInfo), [WellKnownNodeInfo(serverDomain), Get(Render(Prop(links[i], "href")))])
  {
    SchemaHrefFirst(links, i);
  }

  /** `nodeInfo.software.name`, which throws when `software` is missing or `null`. */
  function SoftwareName(nodeInfo: Json): Result<Option<Json>> {
    match Member(nodeInfo, "software")
    case Err(m) => Err(m)
    case Ok(software) => MemberOpt(software, "name")
  }

  // ---------------------------------------------------------------------
  // Login

  /** index.js caches one registration per server, fediverse.js one per server and request host. */
  datatype AppKeying = PerServer | PerServerAndHost

  function AppKey(keying: AppKeying, serverDomain: string, hostname: string): string {
    match keying
    case PerServer => "apps/" + serverDomain
    case PerServerAndHost => "apps/" + serverDomain + "/" + hostname
  }

  /** App keys are neither state nor session keys, nor under any state prefix. */
  lemma AppKeyApart(keying: AppKeying, serverDomain: string, hostname: string, state: string, sessionKey: string)
    ensures !StartsWith(AppKey(keying, serverDomain, hostname), StateKey(state))
    ensures AppKey(keying, serverDomain, hostname) != StateKey(state)
    ensures AppKey(keying, serverDomain, hostname) != SessionKey(sessionKey)
  {
    assert AppKey(keying, serverDomain, hostname)[0] == 'a';
    assert StateKey(state)[0] == 'o';
    assert SessionKey(sessionKey)[0] == 's';
  }

  /** `await kvStore.get(appKey)` as the login uses it: `None` when `!app`. */
  function CachedApp(store: map<string, Value>, appKey: string): Option<Json> {
    if appKey in store && store[appKey].AppRecord? && Truthy(store[appKey].app) then Some(store[appKey].app) else None
  }

  /** The app registration `POST https://<server>/api/v1/apps`. */
  function Registration(serverDomain: string, origin: string, pathPrefix: string): Fetch {
    PostForm("https://" + serverDomain + "/api/v1/apps",
      [("client_name", "LastLogin Client"), ("redirect_uris", origin + pathPrefix + "/callback"), ("scopes", "read:accounts")])
  }

  /** The five query fields of the authorization URL, in order. */
  function AuthorizeFields(clientId: string, redirectUri: string, state: string): seq<string> {
    ["client_id=" + clientId, "redirect_uri=" + redirectUri, "state=" + state, "response_type=code", "scope=read:accounts"]
  }

  /** The authorization URL: the server's authorize endpoint, `?`, then the fields joined by `&`. */
  function AuthorizeUrl(serverDomain: string, clientId: string, redirectUri: string, state: string): string {
    "https://" + serverDomain + "/oauth/authorize" + "?" + Join(AuthorizeFields(clientId, redirectUri, state), '&')
  }

  /**
   * `startMastodonLogin`: reuse the cached app or register one (`registered`
   * is the registration response) and cache it, then record the request
   * under the state and redirect to the server's authorization endpoint.
   */
  function LoginStep(store: map<string, Value>, keying: AppKeying, serverDomain: string, origin: string,
                     hostname: string, pathPrefix: string, registered: Json, state: string): Step
  {
    var appKey := AppKey(keying, serverDomain, hostname);
    var cached := CachedApp(store, appKey);
    var app := if cached.Some? then cached.value else registered;
    var calls := if cached.Some? then [] else [Registration(serverDomain, origin, pathPrefix)];
    var withApp := if cached.Some? then store else store[appKey := AppRecord(registered)];
    if app.JNull? then Step(Thrown(NullPropertyError), calls, withApp)
    else
      var location := AuthorizeUrl(serverDomain, Render(Prop(app, "client_id")), Render(Prop(app, "redirect_uri")), state);
      Step(Reply(Redirect(location)), calls, withApp[StateKey(state) := AuthRecord(MastodonAuth(serverDomain, app))])
  }

  method StartMastodonLogin(store: KvStore<Value>, keying: AppKeying, serverDomain: string, origin: string,
                            hostname: string, pathPrefix: string, registered: Json, draw: nat -> Draw)
    returns (outcome: Outcome, calls: seq<Fetch>)
    requires store.Valid()
    modifies store
    ensures store.Valid()
    ensures Step(outcome, calls, store.obj)
      == LoginStep(old(store.obj), keying, serverDomain, origin, hostname, pathPrefix, registered, RandomText(32, draw))
  {
    ghost var before := store.obj;
    var appKey := AppKey(keying, serverDomain, hostname);
    var stored := store.Get(appKey);
    ghost var cached := CachedApp(before, appKey);
    var app: Json;
    calls := [];
    if stored.Some? && stored.value.AppRecord? && Truthy(stored.value.app) {
      assert cached == Some(stored.value.app);
      app := stored.value.app;
    } else {
      assert cached == None;
      calls := [Registration(serverDomain, origin, pathPrefix)];
      app := registered;
      store.Set(appKey, AppRecord(app));
    }
    ghost var withApp := store.obj;
    assert withApp == if cached.Some? then before else before[appKey := AppRecord(registered)];
    var state := GenRandomText(32, draw);
    ghost var expected := LoginStep(before, keying, serverDomain, origin, hostname, pathPrefix, registered, state);
    if app.JNull? {
      outcome := Thrown(NullPropertyError);
      assert expected == Step(outcome, calls, withApp);
      return;
    }
    var authUri := AuthorizeUrl(serverDomain, Render(Prop(app, "client_id")), Render(Prop(app, "redirect_uri")), state);
    store.Set(StateKey(state), AuthRecord(MastodonAuth(serverDomain, app)));
    outcome := Reply(Redirect(authUri));
    assert expected == Step(outcome, calls, store.obj);
  }

  /**
   * The app cache: with a cached app nothing is registered and the entry
   * stays; without one exactly one registration happens and its response
   * is cached under exactly the app key. No other key but the state's changes.
   */
  lemma LoginAppCache(store: map<string, Value>, keying: AppKeying, serverDomain: string, origin: string,
                      hostname: string, pathPrefix: string, registered: Json, state: string)
    ensures var r := LoginStep(store, keying, serverDomain, origin, hostname, pathPrefix, registered, state);
      var appKey := AppKey(keying, serverDomain, hostname);
      && (CachedApp(store, appKey).Some? ==> r.calls == [] && appKey in r.store && r.store[appKey] == store[appKey])
      && (CachedApp(store, appKey).None? ==>
            r.calls == [Registration(serverDomain, origin, pathPrefix)] && appKey in r.store && r.store[appKey] == AppRecord(registered))
      && (forall k :: k != appKey && k != StateKey(state) ==> (k in r.store <==> k in store))
      && (forall k :: k != appKey && k != StateKey(state) && k in store ==> r.store[k] == store[k])
  {
    AppKeyApart(keying, serverDomain, hostname, state, "");
  }

  /**
   * A successful login records `{serverDomain, app}` under the state and
   * redirects to a URL whose query carries the app's `client_id` and
   * `redirect_uri`, the same state, `response_type=code` and the scope.
   */
  lemma LoginRecordsRequest(store: map<string, Value>, keying: AppKeying, serverDomain: string, origin: string,
                            hostname: string, pathPrefix: string, registered: Json, state: string)
    ensures var r := LoginStep(store, keying, serverDomain, origin, hostname, pathPrefix, registered, state);
      var cached := CachedApp(store, AppKey(keying, serverDomain, hostname));
      var app := if cached.Some? then cached.value else registered;
      r.outcome.Reply? <==> !app.JNull?
    ensures var r := LoginStep(store, keying, serverDomain, origin, hostname, pathPrefix, registered, state);
      var cached := CachedApp(store, AppKey(keying, serverDomain, hostname));
      var app := if cached.Some? then cached.value else registered;
      var clientId, redirectUri := Render(Prop(app, "client_id")), Render(Prop(app, "redirect_uri"));
      r.outcome.Reply? ==>
        && r.store[StateKey(state)] == AuthRecord(MastodonAuth(serverDomain, app))
        && r.outcome.response.location == Some(AuthorizeUrl(serverDomain, clientId, redirectUri, state))
        && ('?' !in serverDomain && '&' !in state && '&' !in clientId && '&' !in redirectUri ==>
              QueryFields(r.outcome.response.location.value)
                == ["client_id=" + clientId, "redirect_uri=" + redirectUri, "state=" + state,
                    "response_type=code", "scope=read:accounts"])
  {
    var cached := CachedApp(store, AppKey(keying, serverDomain, hostname));
    var app := if cached.Some? then cached.value else registered;
    var clientId, redirectUri := Render(Prop(app, "client_id")), Render(Prop(app, "redirect_uri"));
    if '?' !in serverDomain && '&' !in state && '&' !in clientId && '&' !in redirectUri {
      AuthorizeUrlFields(serverDomain, clientId, redirectUri, state);
    }
  }

  /** The authorization URL's query is exactly its five fields, when no value contains `&`. */
  lemma AuthorizeUrlFields(serverDomain: string, clientId: string, redirectUri: string, state: string)
    requires '?' !in serverDomain && '&' !in clientId && '&' !in redirectUri && '&' !in state
    ensures QueryFields(AuthorizeUrl(serverDomain, clientId, redirectUri, state))
      == ["client_id=" + clientId, "redirect_uri=" + redirectUri, "state=" + state,
          "response_type=code", "scope=read:accounts"]
  {
    var base := "https://" + serverDomain + "/oauth/authorize";
    var fields := AuthorizeFields(clientId, redirectUri, state);
    assert '?' !in base;
    assert forall i :: 0 <= i < |fields| ==> '&' !in fields[i];
    QueryFieldsOf(base, fields);
  }

  // ---------------------------------------------------------------------
  // Callback

  function TokenRequest(serverDomain: string, code: string, app: Json): Fetch {
    PostForm("https://" + serverDomain + "/oauth/token",
      [("code", code), ("client_id", Render(Prop(app, "client_id"))), ("client_secret", Render(Prop(app, "client_secret"))),
       ("redirect_uri", Render(Prop(app, "redirect_uri"))), ("grant_type", "authorization_code")])
  }

  function CredentialsRequest(serverDomain: string, tokenResponse: Json): Fetch {
    GetWithAuthorization("https://" + serverDomain + "/api/v1/accounts/verify_credentials",
      "Bearer " + Render(Prop(tokenResponse, "access_token")))
  }

  /** The session of a verified account: `@<username>@<server>`, with the account as its data. */
  function MastodonSession(serverDomain: string, account: Json): Session {
    Session("mastodon", Some(JStr("@" + Render(Prop(account, "username")) + "@" + serverDomain)), account)
  }

  /**
   * `completeMastodonLogin`: `tokenResponse` is the parsed token response,
   * `credStatus` and `account` the status and body of the
   * `verify_credentials` call, `sessionKey` the generated session key.
   */
  function CallbackStep(store: map<string, Value>, query: Query, tokenResponse: Json, credStatus: int,
                        account: Json, sessionKey: string): Step
  {
    var code, state := Param(query, "code"), Param(query, "state");
    if Missing(code) || Missing(state) then Step(Reply(Plain(400, MissingParams)), [], store)
    else
      var key := StateKey(state.value);
      var consumed := DropPrefixed(store, key);
      if key !in store then Step(Thrown(NoSuchAuthRequest), [], consumed)
      else if !(store[key].AuthRecord? && store[key].request.MastodonAuth?) then
        // `authReq.app.client_id` of a record without `app`
        Step(Thrown(UndefinedPropertyError), [], consumed)
      else
        var serverDomain, app := store[key].request.serverDomain, store[key].request.app;
        if app.JNull? then Step(Thrown(NullPropertyError), [], consumed)
        else
          var token := TokenRequest(serverDomain, code.value, app);
          if tokenResponse.JNull? then Step(Thrown(NullPropertyError), [token], consumed)
          else
            var calls := [token, CredentialsRequest(serverDomain, tokenResponse)];
            if credStatus != 200 then Step(Reply(Plain(401, "Unauthorized")), calls, consumed)
            else if account.JNull? then Step(Thrown(NullPropertyError), calls, consumed)
            else Step(Reply(LoggedIn(sessionKey)), calls,
                      consumed[SessionKey(sessionKey) := SessionRecord(MastodonSession(serverDomain, account))])
  }

  method CompleteMastodonLogin(store: KvStore<Value>, query: Query, tokenResponse: Json, credStatus: int,
                               account: Json, draw: nat -> Draw)
    returns (outcome: Outcome, calls: seq<Fetch>)
    requires store.Valid()
    modifies store
    ensures store.Valid()
    ensures Step(outcome, calls, store.obj)
      == CallbackStep(old(store.obj), query, tokenResponse, credStatus, account, RandomText(32, draw))
  {
    calls := [];
    var code, state := Param(query, "code"), Param(query, "state");
    if Missing(code) || Missing(state) {
      return Reply(Plain(400, MissingParams)), calls;
    }
    var authReq := store.Get(StateKey(state.value));
    store.Delete(StateKey(state.value));
    if authReq.None? {
      return Thrown(NoSuchAuthRequest), calls;
    }
    if !(authReq.value.AuthRecord? && authReq.value.request.MastodonAuth?) {
      return Thrown(UndefinedPropertyError), calls;
    }
    var serverDomain, app := authReq.value.request.serverDomain, authReq.value.request.app;
    if app.JNull? {
      return Thrown(NullPropertyError), calls;
    }
    calls := [TokenRequest(serverDomain, code.value, app)];
    if tokenResponse.JNull? {
      return Thrown(NullPropertyError), calls;
    }
    calls := calls + [CredentialsRequest(serverDomain, tokenResponse)];
    if credStatus != 200 {
      return Reply(Plain(401, "Unauthorized")), calls;
    }
    if account.JNull? {
      return Thrown(NullPropertyError), calls;
    }
    var sessionKey := GenRandomText(32, draw);
    store.Set(SessionKey(sessionKey), SessionRecord(MastodonSession(serverDomain, account)));
    outcome := Reply(LoggedIn(sessionKey));
  }

  /** A callback without `code` or `state` answers 400 and neither calls out nor touches the store. */
  lemma CallbackMissingParams(store: map<string, Value>, query: Query, tokenResponse: Json, credStatus: int,
                              account: Json, sessionKey: string)
    requires Missing(Param(query, "code")) || Missing(Param(query, "state"))
    ensures CallbackStep(store, query, tokenResponse, credStatus, account, sessionKey)
      == Step(Reply(Plain(400, MissingParams)), [], store)
  {
  }

  /**
   * Once past the parameter check, the callback consumes its state: no key
   * under `oauth_state/<state>` survives, whatever happens next, so every
   * pending request whose state extends this one is removed too.
   */
  lemma CallbackConsumesState(store: map<string, Value>, query: Query, tokenResponse: Json, credStatus: int,
                              account: Json, sessionKey: string)
    requires !Missing(Param(query, "code")) && !Missing(Param(query, "state"))
    ensures var r := CallbackStep(store, query, tokenResponse, credStatus, account, sessionKey);
      forall k :: StartsWith(k, StateKey(Param(query, "state").value)) ==> k !in r.store
  {
    SessionNotState(sessionKey, Param(query, "state").value);
  }

  /**
   * No session is written on any failure path: unless the callback logs the
   * user in, the store afterwards only lacks entries of the old one.
   */
  lemma CallbackNoSessionOnFailure(store: map<string, Value>, query: Query, tokenResponse: Json, credStatus: int,
                                   account: Json, sessionKey: string)
    ensures var r := CallbackStep(store, query, tokenResponse, credStatus, account, sessionKey);
      r.outcome != Reply(LoggedIn(sessionKey)) ==> forall k :: k in r.store ==> k in store && r.store[k] == store[k]
  {
  }

  /**
   * The callback logs in exactly when the state names a Mastodon request
   * and the credential check answers 200 (with non-null JSON throughout);
   * then it exchanged the code with the recorded app's credentials, and the
   * session `{userIdType: 'mastodon', userId: '@<username>@<server>'}` sits
   * under the same key the cookie carries.
   */
  lemma CallbackSuccess(store: map<string, Value>, query: Query, tokenResponse: Json, credStatus: int,
                        account: Json, sessionKey: string)
    ensures var r := CallbackStep(store, query, tokenResponse, credStatus, account, sessionKey);
      var code, state := Param(query, "code"), Param(query, "state");
      r.outcome == Reply(LoggedIn(sessionKey)) <==>
        && !Missing(code) && !Missing(state)
        && StateKey(state.value) in store
        && store[StateKey(state.value)].AuthRecord? && store[StateKey(state.value)].request.MastodonAuth?
        && !store[StateKey(state.value)].request.app.JNull?
        && !tokenResponse.JNull? && credStatus == 200 && !account.JNull?
    ensures var r := CallbackStep(store, query, tokenResponse, credStatus, account, sessionKey);
      var code, state := Param(query, "code"), Param(query, "state");
      r.outcome == Reply(LoggedIn(sessionKey)) ==>
        var request := store[StateKey(state.value)].request;
        && r.calls == [TokenRequest(request.serverDomain, code.value, request.app),
                       CredentialsRequest(request.serverDomain, tokenResponse)]
        && SessionKey(sessionKey) in r.store
        && r.store[SessionKey(sessionKey)] == SessionRecord(MastodonSession(request.serverDomain, account))
        && r.store[SessionKey(sessionKey)].session.userIdType == "mastodon"
  {
  }

  /** Replaying a callback with the same state fails: the state can be used once. */
  lemma CallbackReplayFails(store: map<string, Value>, query: Query, tokenResponse: Json, credStatus: int,
                            account: Json, sessionKey: string,
                            tokenResponse2: Json, credStatus2: int, account2: Json, sessionKey2: string)
    requires !Missing(Param(query, "code")) && !Missing(Param(query, "state"))
    ensures var first := CallbackStep(store, query, tokenResponse, credStatus, account, sessionKey);
      CallbackStep(first.store, query, tokenResponse2, credStatus2, account2, sessionKey2)
        == Step(Thrown(NoSuchAuthRequest), [], first.store)
  {
    var first := CallbackStep(store, query, tokenResponse, credStatus, account, sessionKey);
    var key := StateKey(Param(query, "state").value);
    CallbackConsumesState(store, query, tokenResponse, credStatus, account, sessionKey);
    assert StartsWith(key, key);
    assert DropPrefixed(first.store, key) == first.store;
  }

  /**
   * The handshake composes: after a successful login with `state`, a
   * callback carrying a code and the same state (with a 200 credential
   * check) logs in, exchanging the code with the app the login used.
   */
  lemma LoginThenCallback(store: map<string, Value>, keying: AppKeying, serverDomain: string, origin: string,
                          hostname: string, pathPrefix: string, registered: Json, state: string,
                          code: string, tokenResponse: Json, account: Json, sessionKey: string)
    requires state != "" && code != ""
    requires !tokenResponse.JNull? && !account.JNull?
    ensures var login := LoginStep(store, keying, serverDomain, origin, hostname, pathPrefix, registered, state);
      var cached := CachedApp(store, AppKey(keying, serverDomain, hostname));
      var app := if cached.Some? then cached.value else registered;
      var query := map["code" := code, "state" := state];
      login.outcome.Reply? ==>
        var callback := CallbackStep(login.store, query, tokenResponse, 200, account, sessionKey);
        && callback.outcome == Reply(LoggedIn(sessionKey))
        && callback.calls[0] == TokenRequest(serverDomain, code, app)
        && callback.store[SessionKey(sessionKey)] == SessionRecord(MastodonSession(serverDomain, account))
  {
    var login := LoginStep(store, keying, serverDomain, origin, hostname, pathPrefix, registered, state);
    var query := map["code" := code, "state" := state];
    if login.outcome.Reply? {
      assert Param(query, "state") == Some(state) && Param(query, "code") == Some(code);
      CallbackSuccess(login.store, query, tokenResponse, 200, account, sessionKey);
    }
  }

  // ---------------------------------------------------------------------
  // The `/fediverse` page

  /**
   * `fediversePage`: parse the `id` query parameter (`None` when absent,
   * where `id.split` throws); an ActivityPub id leads to NodeInfo discovery
   * and, for a Mastodon server only, to the login.
   */
  function FediverseStep(store: map<string, Value>, keying: AppKeying, id: Option<string>, origin: string,
                         hostname: string, pathPrefix: string, links: seq<Json>, nodeInfo: Json,
                         registered: Json, state: string): Step
  {
    if id.None? then Step(Thrown(NullPropertyError), [], store)
    else match ParseFediverseId(id.value)
      case Err(m) => Step(Thrown(m), [], store)
      case Ok(parsed) =>
        if parsed.idType != Some(ActivityPub) then Step(Reply(Html(HiTherePage)), [], store)
        else
          var serverDomain := parsed.server.value;
          var (found, lookups) := NodeInfoLookup(serverDomain, links, nodeInfo);
          if found.Err? then Step(Thrown(found.message), lookups, store)
          else match SoftwareName(found.value)
            case Err(m) => Step(Thrown(m), lookups, store)
            case Ok(name) =>
              if !StrictEquals(name, Some(JStr("mastodon"))) then Step(Thrown(NotMastodon), lookups, store)
              else
                var login := LoginStep(store, keying, serverDomain, origin, hostname, pathPrefix, registered, state);
                Step(login.outcome, lookups + login.calls, login.store)
  }

  method FediversePage(store: KvStore<Value>, keying: AppKeying, id: Option<string>, origin: string,
                       hostname: string, pathPrefix: string, links: seq<Json>, nodeInfo: Json,
                       registered: Json, draw: nat -> Draw)
    returns (outcome: Outcome, calls: seq<Fetch>)
    requires store.Valid()
    modifies store
    ensures store.Valid()
    ensures Step(outcome, calls, store.obj)
      == FediverseStep(old(store.obj), keying, id, origin, hostname, pathPrefix, links, nodeInfo, registered, RandomText(32, draw))
  {
    if id.None? {
      return Thrown(NullPropertyError), [];
    }
    var parsedId := ParseFediverseId(id.value);
    if parsedId.Err? {
      return Thrown(parsedId.message), [];
    }
    if parsedId.value.idType != Some(ActivityPub) {
      return Reply(Html(HiTherePage)), [];
    }
    var serverDomain := parsedId.value.server.value;
    var found;
    found, calls := GetNodeInfo(serverDomain, links, nodeInfo);
    if found.Err? {
      return Thrown(found.message), calls;
    }
    var name := SoftwareName(found.value);
    if name.Err? {
      return Thrown(name.message), calls;
    }
    if !StrictEquals(name.value, Some(JStr("mastodon"))) {
      return Thrown(NotMastodon), calls;
    }
    ghost var before := store.obj;
    var loginCalls;
    outcome, loginCalls := StartMastodonLogin(store, keying, serverDomain, origin, hostname, pathPrefix, registered, draw);
    FediverseReachesLogin(before, keying, id.value, origin, hostname, pathPrefix, links, nodeInfo, registered, RandomText(32, draw));
    calls := calls + loginCalls;
  }

  /** A Mastodon server named by an ActivityPub id goes on to the login, after the two NodeInfo fetches. */
  lemma FediverseReachesLogin(store: map<string, Value>, keying: AppKeying, id: string, origin: string,
                              hostname: string, pathPrefix: string, links: seq<Json>, nodeInfo: Json,
                              registered: Json, state: string)
    requires ParseFediverseId(id).Ok? && ParseFediverseId(id).value.idType == Some(ActivityPub)
    requires var lookup := NodeInfoLookup(ParseFediverseId(id).value.server.value, links, nodeInfo);
      && lookup.0.Ok? && SoftwareName(lookup.0.value).Ok?
      && StrictEquals(SoftwareName(lookup.0.value).value, Some(JStr("mastodon")))
    ensures var serverDomain := ParseFediverseId(id).value.server.value;
      var login := LoginStep(store, keying, serverDomain, origin, hostname, pathPrefix, registered, state);
      FediverseStep(store, keying, Some(id), origin, hostname, pathPrefix, links, nodeInfo, registered, state)
        == Step(login.outcome, NodeInfoLookup(serverDomain, links, nodeInfo).1 + login.calls, login.store)
  {
  }

  /** An id that does not start with `@` gets the "Hi there" page, with no call and no store change. */
  lemma FediverseNotActivityPub(store: map<string, Value>, keying: AppKeying, id: string, origin: string,
                                hostname: string, pathPrefix: string, links: seq<Json>, nodeInfo: Json,
                                registered: Json, state: string)
    requires !StartsWith(id, "@")
    ensures FediverseStep(store, keying, Some(id), origin, hostname, pathPrefix, links, nodeInfo, registered, state)
      == Step(Reply(Html(HiTherePage)), [], store)
  {
  }

  /**
   * A server whose NodeInfo does not name `mastodon` is refused before the
   * login runs: the store is untouched and the only calls are the two
   * NodeInfo fetches, so no app is registered.
   */
  lemma FediverseNotMastodon(store: map<string, Value>, keying: AppKeying, id: Option<string>, origin: string,
                             hostname: string, pathPrefix: string, links: seq<Json>, nodeInfo: Json,
                             registered: Json, state: string)
    ensures var r := FediverseStep(store, keying, id, origin, hostname, pathPrefix, links, nodeInfo, registered, state);
      r.outcome == Thrown(NotMastodon) ==>
        && r.store == store
        && |r.calls| == 2 && r.calls[0].Get? && r.calls[1].Get?
        && SoftwareName(nodeInfo).Ok? && !StrictEquals(SoftwareName(nodeInfo).value, Some(JStr("mastodon")))
  {
    var r := FediverseStep(store, keying, id, origin, hostname, pathPrefix, links, nodeInfo, registered, state);
    if r.outcome == Thrown(NotMastodon) {
      var parsed := ParseFediverseId(id.value).value;
      var (found, lookups) := NodeInfoLookup(parsed.server.value, links, nodeInfo);
    }
  }

  /**
   * The converse of `FediverseNotMastodon`: an ActivityPub id on a server
   * whose NodeInfo names anything but `mastodon` throws after the two
   * NodeInfo fetches, before the login can register an app or write a key.
   */
  lemma FediverseRefusesOthers(store: map<string, Value>, keying: AppKeying, id: string, origin: string,
                               hostname: string, pathPrefix: string, links: seq<Json>, nodeInfo: Json,
                               registered: Json, state: string)
    requires ParseFediverseId(id).Ok? && ParseFediverseId(id).value.idType == Some(ActivityPub)
    requires var lookup := NodeInfoLookup(ParseFediverseId(id).value.server.value, links, nodeInfo);
      && lookup.0.Ok? && SoftwareName(lookup.0.value).Ok?
      && !StrictEquals(SoftwareName(lookup.0.value).value, Some(JStr("mastodon")))
    ensures FediverseStep(store, keying, Some(id), origin, hostname, pathPrefix, links, nodeInfo, registered, state)
      == Step(Thrown(NotMastodon), NodeInfoLookup(ParseFediverseId(id).value.server.value, links, nodeInfo).1, store)
  {
  }
}
