/**
 * index.js's request handler: the sub-path under the mount prefix picks the
 * login page, logout, the `/fediverse` page or the Mastodon callback;
 * everything else is 404. Also `getSession`, which reads the session the
 * `session_key` cookie names.
 */
module Router {
  import opened Wrappers
  import opened Strings
  import opened Json
  import opened Http
  import opened Random
  import opened Records
  import opened Store
  import opened Cookies
  import opened Mastodon

  /** `url.pathname.slice(pathPrefix.length)`, or `/` when that is empty. */
  function SubPath(pathname: string, pathPrefix: string): string {
    var rest := if |pathPrefix| <= |pathname| then pathname[|pathPrefix|..] else "";
    if rest == "" then "/" else rest
  }

  /**
   * Only the prefix's LENGTH matters: whatever text of that length precedes
   * `rest`, the sub-path is `rest` (`/` when empty).
   */
  lemma SubPathCutsLength(lead: string, rest: string, pathPrefix: string)
    requires |lead| == |pathPrefix|
    ensures SubPath(lead + rest, pathPrefix) == if rest == "" then "/" else rest
  {
    assert (lead + rest)[|pathPrefix|..] == rest;
  }

  /** A pathname no longer than the prefix is the login page's `/`. */
  lemma SubPathShort(pathname: string, pathPrefix: string)
    requires |pathname| <= |pathPrefix|
    ensures SubPath(pathname, pathPrefix) == "/"
  {
  }

  datatype Route = LoginRoute | LogoutRoute | FediverseRoute | CallbackRoute | NotFoundRoute

  /** The `switch (path)` of the handler. */
  function RouteOf(path: string): (route: Route)
    ensures route == NotFoundRoute <==> path !in {"/", "/logout", "/fediverse", "/callback"}
  {
    if path == "/" then LoginRoute
    else if path == "/logout" then LogoutRoute
    else if path == "/fediverse" then FediverseRoute
    else if path == "/callback" then CallbackRoute
    else NotFoundRoute
  }

  const LogoutCookie: string := "session_key=''; Path=/; Max-Age=0; Secure; HttpOnly"

  /** `${sessionKey}` of what `getCookie` returned: `null`, `undefined` or the value. */
  function CookieText(found: CookieLookup): string {
    match found
    case NoCookieHeader => "null"
    case NoSuchCookie => "undefined"
    case Cookie(value) => value
  }

  /** Logout: delete the prefix `sessions/<cookie>` and redirect to `/` clearing the cookie. */
  function LogoutStep(store: map<string, Value>, cookieHeader: Option<string>): Step {
    var sessionKey := CookieText(Lookup(cookieHeader, "session_key"));
    Step(Reply(Response(303, Some("/"), Some(LogoutCookie), None, NoBody)), [],
         DropPrefixed(store, SessionKey(sessionKey)))
  }

  method Logout(store: KvStore<Value>, cookieHeader: Option<string>) returns (response: Response)
    requires store.Valid()
    modifies store
    ensures store.Valid()
    ensures Step(Reply(response), [], store.obj) == LogoutStep(old(store.obj), cookieHeader)
  {
    var sessionKey := GetCookie(cookieHeader, "session_key");
    store.Delete(SessionKey(CookieText(sessionKey)));
    response := Response(303, Some("/"), Some(LogoutCookie), None, NoBody);
  }

  /** `getSession`: what the store holds under `sessions/<cookie>`. */
  function SessionOf(store: map<string, Value>, cookieHeader: Option<string>): Option<Value> {
    var key := SessionKey(CookieText(Lookup(cookieHeader, "session_key")));
    if key in store then Some(store[key]) else None
  }

  method GetSession(store: KvStore<Value>, cookieHeader: Option<string>) returns (session: Option<Value>)
    requires store.Valid()
    ensures session == SessionOf(store.obj, cookieHeader)
  {
    var sessionKey := GetCookie(cookieHeader, "session_key");
    session := store.Get(SessionKey(CookieText(sessionKey)));
  }

  /** The white space `trim` removes lies outside the range of the key alphabet. */
  lemma WhitespaceOutsideAlphabet()
    ensures forall c :: c in JsWhitespace ==> c < '0' || c > 'z'
  {
  }

  /** Generated keys have no `;` or `=` and do not end in white space. */
  lemma RandomTextPlain(text: string)
    requires forall c :: c in text ==> c in Possible
    ensures ';' !in text && '=' !in text
    ensures text == "" || text[|text| - 1] !in JsWhitespace
  {
    AlphabetRange();
    WhitespaceOutsideAlphabet();
    if text != "" {
      var c := text[|text| - 1];
      assert c in Possible;
      assert '0' <= c <= 'z';
    }
  }

  /** A `session_key=<value>` header reads back as `value`. */
  lemma SessionCookieLookup(value: string)
    requires ';' !in value
    requires value == "" || value[|value| - 1] !in JsWhitespace
    ensures Lookup(Some("session_key=" + value), "session_key") == Cookie(value)
  {
    var name := "session_key";
    assert name[0] == 's' && 's' !in JsWhitespace;
    assert '=' !in name && ';' !in name;
    SetCookieReadBack(name, value);
    assert name + "=" + value == "session_key=" + value;
  }

  /** The cookie a callback sets reads back, through `getSession`, as the session it wrote. */
  lemma SessionCookieReadBack(store: map<string, Value>, sessionKey: string)
    requires forall c :: c in sessionKey ==> c in Possible
    ensures SessionOf(store, Some("session_key=" + sessionKey))
      == if SessionKey(sessionKey) in store then Some(store[SessionKey(sessionKey)]) else None
  {
    RandomTextPlain(sessionKey);
    SessionCookieLookup(sessionKey);
  }

  /** Logging out with a generated key removes that session (and every session whose key extends it) and nothing else. */
  lemma LogoutRemovesSession(store: map<string, Value>, sessionKey: string)
    requires forall c :: c in sessionKey ==> c in Possible
    ensures var after := LogoutStep(store, Some("session_key=" + sessionKey)).store;
      && SessionKey(sessionKey) !in after
      && forall k :: k in store && !StartsWith(k, SessionKey(sessionKey)) ==> k in after && after[k] == store[k]
  {
    RandomTextPlain(sessionKey);
    SessionCookieLookup(sessionKey);
    assert LogoutStep(store, Some("session_key=" + sessionKey)).store == DropPrefixed(store, SessionKey(sessionKey));
    assert StartsWith(SessionKey(sessionKey), SessionKey(sessionKey));
  }

  /** An empty `session_key=` cookie makes logout delete the prefix `sessions/`: every session of every user. */
  lemma LogoutEmptyCookieDropsAllSessions(store: map<string, Value>)
    ensures var after := LogoutStep(store, Some("session_key=")).store;
      forall k :: StartsWith(k, "sessions/") ==> k !in after
  {
    SessionCookieLookup("");
    assert "session_key=" + "" == "session_key=";
    assert SessionKey("") == "sessions/";
    assert LogoutStep(store, Some("session_key=")).store == DropPrefixed(store, "sessions/");
  }

  /**
   * Logout as evidently intended: only the session stored under the
   * cookie's key goes, as an exact-key delete (the one of kv.js) would do.
   */
  function LogoutExactStep(store: map<string, Value>, cookieHeader: Option<string>): Step {
    var sessionKey := CookieText(Lookup(cookieHeader, "session_key"));
    Step(Reply(Response(303, Some("/"), Some(LogoutCookie), None, NoBody)), [],
         store - {SessionKey(sessionKey)})
  }

  /** The exact-key logout removes the cookie's session and keeps every other key with its value, whatever the cookie. */
  lemma LogoutExactRemovesOnlyThatSession(store: map<string, Value>, cookieHeader: Option<string>)
    ensures var key := SessionKey(CookieText(Lookup(cookieHeader, "session_key")));
      var after := LogoutExactStep(store, cookieHeader).store;
      && key !in after
      && (forall k :: k in after ==> k in store)
      && forall k :: k in store && k != key ==> k in after && after[k] == store[k]
  {
  }

  /** With an empty `session_key=` cookie the exact-key logout keeps every real session. */
  lemma LogoutExactEmptyCookieKeepsSessions(store: map<string, Value>)
    ensures var after := LogoutExactStep(store, Some("session_key=")).store;
      forall k :: k in store && k != "sessions/" ==> k in after && after[k] == store[k]
  {
    SessionCookieLookup("");
    assert "session_key=" + "" == "session_key=";
    assert SessionKey("") == "sessions/";
  }

  /** A request: its pathname, query, `Cookie` header, origin and host name. */
  datatype Request = Request(pathname: string, query: Query, cookieHeader: Option<string>, origin: string, hostname: string)

  /** What the fetches a request leads to answer (see `FediverseStep` and `CallbackStep`). */
  datatype Network = Network(links: seq<Json>, nodeInfo: Json, registered: Json,
                             tokenResponse: Json, credStatus: int, account: Json)

  /** The handler `createHandler(pathPrefix, kvStore)` returns. */
  function HandleStep(store: map<string, Value>, pathPrefix: string, req: Request, net: Network,
                      state: string, sessionKey: string): Step
  {
    match RouteOf(SubPath(req.pathname, pathPrefix))
    case LoginRoute => Step(Reply(Html(LoginPage(pathPrefix))), [], store)
    case LogoutRoute => LogoutStep(store, req.cookieHeader)
    case FediverseRoute =>
      FediverseStep(store, PerServer, Param(req.query, "id"), req.origin, req.hostname, pathPrefix,
                    net.links, net.nodeInfo, net.registered, state)
    case CallbackRoute => CallbackStep(store, req.query, net.tokenResponse, net.credStatus, net.account, sessionKey)
    case NotFoundRoute => Step(Reply(Plain(404, "Not found")), [], store)
  }

  method Handle(store: KvStore<Value>, pathPrefix: string, req: Request, net: Network,
                stateDraw: nat -> Draw, sessionDraw: nat -> Draw)
    returns (outcome: Outcome, calls: seq<Fetch>)
    requires store.Valid()
    modifies store
    ensures store.Valid()
    ensures Step(outcome, calls, store.obj)
      == HandleStep(old(store.obj), pathPrefix, req, net, RandomText(32, stateDraw), RandomText(32, sessionDraw))
  {
    var path := SubPath(req.pathname, pathPrefix);
    match RouteOf(path)
    case LoginRoute =>
      outcome, calls := Reply(Html(LoginPage(pathPrefix))), [];
    case LogoutRoute =>
      var response := Logout(store, req.cookieHeader);
      outcome, calls := Reply(response), [];
    case FediverseRoute =>
      outcome, calls := FediversePage(store, PerServer, Param(req.query, "id"), req.origin, req.hostname, pathPrefix,
                                      net.links, net.nodeInfo, net.registered, stateDraw);
    case CallbackRoute =>
      outcome, calls := CompleteMastodonLogin(store, req.query, net.tokenResponse, net.credStatus, net.account, sessionDraw);
    case NotFoundRoute =>
      outcome, calls := Reply(Plain(404, "Not found")), [];
  }

  /** Every path but the four answers 404, calls nothing and leaves the store alone. */
  lemma HandleNotFound(store: map<string, Value>, pathPrefix: string, req: Request, net: Network,
                       state: string, sessionKey: string)
    requires SubPath(req.pathname, pathPrefix) !in {"/", "/logout", "/fediverse", "/callback"}
    ensures HandleStep(store, pathPrefix, req, net, state, sessionKey) == Step(Reply(Plain(404, "Not found")), [], store)
  {
  }

  /**
   * Sessions come only from a successful callback: after any request, a
   * session key that is new or changed is the generated one, and the
   * response is the login redirect carrying it.
   */
  lemma OnlyCallbackWritesSessions(store: map<string, Value>, pathPrefix: string, req: Request, net: Network,
                                   state: string, sessionKey: string)
    ensures var r := HandleStep(store, pathPrefix, req, net, state, sessionKey);
      forall k :: StartsWith(k, "sessions/") && k in r.store && !(k in store && r.store[k] == store[k]) ==>
        k == SessionKey(sessionKey) && r.outcome == Reply(LoggedIn(sessionKey))
  {
    var r := HandleStep(store, pathPrefix, req, net, state, sessionKey);
    match RouteOf(SubPath(req.pathname, pathPrefix))
    case FediverseRoute =>
      forall k | StartsWith(k, "sessions/") && k in r.store
        ensures k in store && r.store[k] == store[k]
      {
        FediverseKeepsSessions(store, Param(req.query, "id"), req.origin, req.hostname, pathPrefix,
                               net.links, net.nodeInfo, net.registered, state, k);
      }
    case CallbackRoute =>
      CallbackNoSessionOnFailure(store, req.query, net.tokenResponse, net.credStatus, net.account, sessionKey);
    case _ =>
  }

  /** The `/fediverse` page writes an app registration and a state, never a session. */
  lemma FediverseKeepsSessions(store: map<string, Value>, id: Option<string>, origin: string, hostname: string,
                               pathPrefix: string, links: seq<Json>, nodeInfo: Json, registered: Json,
                               state: string, k: string)
    requires StartsWith(k, "sessions/")
    ensures var r := FediverseStep(store, PerServer, id, origin, hostname, pathPrefix, links, nodeInfo, registered, state);
      k in r.store ==> k in store && r.store[k] == store[k]
  {
    assert k[0] == 's';
    assert StateKey(state)[0] == 'o';
    if id.Some? && ParseFediverseId(id.value).Ok? && ParseFediverseId(id.value).value.server.Some? {
      var serverDomain := ParseFediverseId(id.value).value.server.value;
      LoginAppCache(store, PerServer, serverDomain, origin, hostname, pathPrefix, registered, state);
      assert AppKey(PerServer, serverDomain, hostname)[0] == 'a';
    }
  }
}
