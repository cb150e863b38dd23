/**
 * ATProto (Bluesky) login as atproto.js does it: find the handle's DID in
 * the `_atproto.<domain>` TXT record over DNS-over-HTTPS, accept only
 * `did:plc` DIDs and fetch their document from the PLC directory, follow
 * the first service's protected-resource metadata to the first
 * authorization server's metadata, then redirect there, recording the
 * request under `oauth_state/<state>`. Also the client metadata document.
 *
 * Fetched JSON and the decoded TXT data are passed in; every step also
 * returns the calls it made, in order.
 */
module Atproto {
  import opened Wrappers
  import opened Strings
  import opened Json
  import opened Http
  import opened Random
  import opened Records
  import opened Store

  const DohServer: string := "https://cloudflare-dns.com"
  const DidNotFound: string := "DID not found"

  /** What `for (const record of res.Answer)` throws when the DNS answer has no `Answer` list. */
  const NotIterable: string := "TypeError: res.Answer is not iterable"

  // ---------------------------------------------------------------------
  // DID lookup from DNS

  /** One DNS answer record: its name and its `data` as `JSON.parse` decodes it. */
  datatype DnsAnswer = DnsAnswer(name: string, text: string)

  function DnsQueryUrl(domain: string, recordType: string): string {
    DohServer + "/dns-query?name=" + domain + "&type=" + recordType
  }

  function DidDomain(domain: string): string {
    "_atproto." + domain
  }

  /** The first record whose name is exactly `name`. */
  function FirstMatch(records: seq<DnsAnswer>, name: string): Option<DnsAnswer> {
    if |records| == 0 then None
    else if records[0].name == name then Some(records[0])
    else FirstMatch(records[1..], name)
  }

  /** `didTxt.split('=')[1]`: the second `=`-field, `undefined` when there is no `=`. */
  function DidOfText(text: string): (did: Option<string>)
    ensures did.Some? <==> '=' in text
  {
    SplitCount(text, '=');
    CountZero(text, '=');
    var parts := Split(text, '=');
    if |parts| >= 2 then Some(parts[1]) else None
  }

  /** `lookupDid`: `answers` is the DNS JSON's `Answer` list (`None` when absent). */
  function LookupDidResult(domain: string, answers: Option<seq<DnsAnswer>>): Result<string> {
    if answers.None? then Err(NotIterable)
    else
      var found := FirstMatch(answers.value, DidDomain(domain));
      var did := if found.Some? then DidOfText(found.value.text) else None;
      if did.None? || did.value == "" then Err(DidNotFound) else Ok(did.value)
  }

  method LookupDid(domain: string, answers: Option<seq<DnsAnswer>>) returns (r: Result<string>, calls: seq<Fetch>)
    ensures r == LookupDidResult(domain, answers)
    ensures calls == [Get(DnsQueryUrl(DidDomain(domain), "TXT"))]
  {
    var didDomain := DidDomain(domain);
    calls := [Get(DnsQueryUrl(didDomain, "TXT"))];
    if answers.None? {
      return Err(NotIterable), calls;
    }
    var records := answers.value;
    var did: Option<string> := None;
    var i := 0;
    while i < |records|
      invariant 0 <= i <= |records|
      invariant FirstMatch(records, didDomain) == FirstMatch(records[i..], didDomain)
      invariant did.None?
    {
      if records[i].name == didDomain {
        did := DidOfText(records[i].text);
        break;
      }
      i := i + 1;
    }
    if did.None? || did.value == "" {
      return Err(DidNotFound), calls;
    }
    r := Ok(did.value);
  }

  /** The first record named `name` is the match, whatever follows it. */
  lemma {:induction false} FirstMatchAt(records: seq<DnsAnswer>, name: string, i: nat)
    requires i < |records| && records[i].name == name
    requires forall j :: 0 <= j < i ==> records[j].name != name
    ensures FirstMatch(records, name) == Some(records[i])
  {
    if i > 0 {
      FirstMatchAt(records[1..], name, i - 1);
    }
  }

  /** Without a record of that name there is no match. */
  lemma {:induction false} FirstMatchNone(records: seq<DnsAnswer>, name: string)
    requires forall j :: 0 <= j < |records| ==> records[j].name != name
    ensures FirstMatch(records, name) == None
  {
    if |records| > 0 {
      FirstMatchNone(records[1..], name);
    }
  }

  /** Records of other names change nothing, wherever they come before the rest. */
  lemma {:induction false} FirstMatchSkips(others: seq<DnsAnswer>, records: seq<DnsAnswer>, name: string)
    requires forall j :: 0 <= j < |others| ==> others[j].name != name
    ensures FirstMatch(others + records, name) == FirstMatch(records, name)
  {
    if |others| == 0 {
      assert others + records == records;
    } else {
      assert (others + records)[0] == others[0];
      assert (others + records)[1..] == others[1..] + records;
      FirstMatchSkips(others[1..], records, name);
    }
  }

  /**
   * The DID comes from the first record named exactly `_atproto.<domain>`:
   * the second `=`-field of its text, and "DID not found" when that is
   * absent or empty, even if a later record of the name would have one.
   */
  lemma LookupDidFirst(domain: string, records: seq<DnsAnswer>, i: nat)
    requires i < |records| && records[i].name == DidDomain(domain)
    requires forall j :: 0 <= j < i ==> records[j].name != DidDomain(domain)
    ensures var parts := Split(records[i].text, '=');
      LookupDidResult(domain, Some(records))
        == if |parts| >= 2 && parts[1] != "" then Ok(parts[1]) else Err(DidNotFound)
  {
    FirstMatchAt(records, DidDomain(domain), i);
  }

  /** No record of the name: "DID not found". Records of other names are ignored. */
  lemma LookupDidIgnoresOthers(domain: string, others: seq<DnsAnswer>, records: seq<DnsAnswer>)
    requires forall j :: 0 <= j < |others| ==> others[j].name != DidDomain(domain)
    ensures LookupDidResult(domain, Some(others)) == Err(DidNotFound)
    ensures LookupDidResult(domain, Some(others + records)) == LookupDidResult(domain, Some(records))
  {
    FirstMatchNone(others, DidDomain(domain));
    FirstMatchSkips(others, records, DidDomain(domain));
  }

  /** A record `did=<did>` yields `<did>`, provided it has no further `=` and is not empty. */
  lemma DidRecord(did: string)
    requires '=' !in did && did != ""
    ensures DidOfText("did=" + did) == Some(did)
  {
    SplitAt("did", did, '=');
    SplitNoSep(did, '=');
    assert "did=" + did == "did" + ['='] + did;
  }

  // ---------------------------------------------------------------------
  // DID resolution

  const PlcDirectory: string := "https://plc.directory/"

  /**
   * `resolveDid`: look the DID up, reject any that does not start with
   * `did:plc`, and fetch its document (`didDoc`) from the PLC directory.
   */
  function ResolveDidResult(domain: string, answers: Option<seq<DnsAnswer>>, didDoc: Json): (Result<Json>, seq<Fetch>) {
    var lookup := [Get(DnsQueryUrl(DidDomain(domain), "TXT"))];
    match LookupDidResult(domain, answers)
    case Err(m) => (Err(m), lookup)
    case Ok(did) =>
      if !StartsWith(did, "did:plc") then (Err("Unsupported did type: " + did), lookup)
      else (Ok(didDoc), lookup + [Get(PlcDirectory + did)])
  }

  method ResolveDid(domain: string, answers: Option<seq<DnsAnswer>>, didDoc: Json) returns (r: Result<Json>, calls: seq<Fetch>)
    ensures (r, calls) == ResolveDidResult(domain, answers, didDoc)
  {
    var did;
    did, calls := LookupDid(domain, answers);
    if did.Err? {
      return Err(did.message), calls;
    }
    if !StartsWith(did.value, "did:plc") {
      return Err("Unsupported did type: " + did.value), calls;
    }
    calls := calls + [Get(PlcDirectory + did.value)];
    r := Ok(didDoc);
  }

  /**
   * The `did:plc` gate: a DID of any other method is rejected, naming it,
   * before anything is fetched from the directory; a `did:plc` DID is
   * fetched from exactly `https://plc.directory/<did>`.
   */
  lemma ResolveDidGate(domain: string, answers: Option<seq<DnsAnswer>>, didDoc: Json)
    requires LookupDidResult(domain, answers).Ok?
    ensures var did := LookupDidResult(domain, answers).value;
      var (r, calls) := ResolveDidResult(domain, answers, didDoc);
      && (!StartsWith(did, "did:plc") ==> r == Err("Unsupported did type: " + did) && |calls| == 1)
      && (StartsWith(did, "did:plc") ==> r == Ok(didDoc) && calls[1..] == [Get("https://plc.directory/" + did)])
  {
  }

  // ---------------------------------------------------------------------
  // Authorization server discovery

  const ResourceSuffix: string := "/.well-known/oauth-protected-resource"
  const ServerSuffix: string := "/.well-known/oauth-authorization-server"

  /** `v[0]` where `v` is itself a property read: throws on `undefined` and `null`. */
  function Index0(v: Option<Json>): (r: Result<Option<Json>>)
    ensures r.Err? <==> v.None? || v.value.JNull?
    ensures r.Ok? ==> r.value == First(v.value)
  {
    if v.None? then Err(UndefinedPropertyError)
    else if v.value.JNull? then Err(NullPropertyError)
    else Ok(First(v.value))
  }

  /**
   * `lookupAuthServer`: `didDoc.service[0].serviceEndpoint` names the
   * resource server, whose metadata (`resourceMeta`) names in
   * `authorization_servers[0]` the server whose metadata (`serverMeta`) is
   * the result.
   */
  function AuthServerResult(didDoc: Json, resourceMeta: Json, serverMeta: Json): (Result<Json>, seq<Fetch>) {
    var endpoint := match Member(didDoc, "service")
      case Err(m) => Err(m)
      case Ok(service) =>
        match Index0(service)
        case Err(m) => Err(m)
        case Ok(first) => MemberOpt(first, "serviceEndpoint");
    if endpoint.Err? then (Err(endpoint.message), [])
    else
      var resource := Get(Render(endpoint.value) + ResourceSuffix);
      var server := match Member(resourceMeta, "authorization_servers")
        case Err(m) => Err(m)
        case Ok(servers) => Index0(servers);
      if server.Err? then (Err(server.message), [resource])
      else (Ok(serverMeta), [resource, Get(Render(server.value) + ServerSuffix)])
  }

  /**
   * Only the first service and the first authorization server count:
   * whatever follows them, the calls go to the first service's endpoint and
   * the first server, each with its well-known suffix.
   */
  lemma AuthServerFirst(endpoint: string, otherServices: seq<Json>, server: string, otherServers: seq<Json>,
                        didFields: map<string, Json>, resourceFields: map<string, Json>, serverMeta: Json)
    requires "service" in didFields && didFields["service"] == JArr([JObj(map["serviceEndpoint" := JStr(endpoint)])] + otherServices)
    requires "authorization_servers" in resourceFields
    requires resourceFields["authorization_servers"] == JArr([JStr(server)] + otherServers)
    ensures AuthServerResult(JObj(didFields), JObj(resourceFields), serverMeta)
      == (Ok(serverMeta), [Get(endpoint + "/.well-known/oauth-protected-resource"),
                           Get(server + "/.well-known/oauth-authorization-server")])
  {
  }

  // ---------------------------------------------------------------------
  // Login

  function ClientId(hostname: string, pathPrefix: string): string {
    "https://" + hostname + pathPrefix + "/client-metadata.json"
  }

  function RedirectUri(hostname: string, pathPrefix: string): string {
    "https://" + hostname + pathPrefix + "/atproto-callback"
  }

  function AuthorizeFields(clientId: string, redirectUri: string, state: string): seq<string> {
    ["client_id=" + clientId, "redirect_uri=" + redirectUri, "state=" + state, "response_type=code", "scope=atproto"]
  }

  /** The authorization URL: the endpoint as rendered, `?`, then the fields joined by `&`. */
  function AuthorizeUrl(endpoint: string, clientId: string, redirectUri: string, state: string): string {
    endpoint + "?" + Join(AuthorizeFields(clientId, redirectUri, state), '&')
  }

  /** What the network answers during a login: DNS, the DID document and the two metadata documents. */
  datatype Discovery = Discovery(answers: Option<seq<DnsAnswer>>, didDoc: Json, resourceMeta: Json, serverMeta: Json)

  /**
   * `atprotoLogin`: the `id` query parameter is the handle (a missing one
   * is looked up as `null`). Resolve it to the authorization server's
   * metadata, then redirect to its authorization endpoint and record the
   * request under the state.
   */
  function LoginStep(store: map<string, Value>, hostname: string, pathPrefix: string, id: Option<string>,
                     net: Discovery, state: string): Step
  {
    var (didDoc, resolving) := ResolveDidResult(OrNull(id), net.answers, net.didDoc);
    if didDoc.Err? then Step(Thrown(didDoc.message), resolving, store)
    else
      var (meta, discovering) := AuthServerResult(didDoc.value, net.resourceMeta, net.serverMeta);
      var calls := resolving + discovering;
      if meta.Err? then Step(Thrown(meta.message), calls, store)
      else match Member(meta.value, "authorization_endpoint")
        case Err(m) => Step(Thrown(m), calls, store)
        case Ok(endpoint) =>
          var clientId, redirectUri := ClientId(hostname, pathPrefix), RedirectUri(hostname, pathPrefix);
          var request := AtprotoAuth(Prop(meta.value, "issuer"), clientId, redirectUri, Prop(meta.value, "token_endpoint"));
          Step(Reply(Redirect(AuthorizeUrl(Render(endpoint), clientId, redirectUri, state))), calls,
               store[StateKey(state) := AuthRecord(request)])
  }

  method Login(store: KvStore<Value>, hostname: string, pathPrefix: string, id: Option<string>,
               net: Discovery, draw: nat -> Draw)
    returns (outcome: Outcome, calls: seq<Fetch>)
    requires store.Valid()
    modifies store
    ensures store.Valid()
    ensures Step(outcome, calls, store.obj) == LoginStep(old(store.obj), hostname, pathPrefix, id, net, RandomText(32, draw))
  {
    var didDoc;
    didDoc, calls := ResolveDid(OrNull(id), net.answers, net.didDoc);
    if didDoc.Err? {
      return Thrown(didDoc.message), calls;
    }
    var (meta, discovering) := AuthServerResult(didDoc.value, net.resourceMeta, net.serverMeta);
    calls := calls + discovering;
    if meta.Err? {
      return Thrown(meta.message), calls;
    }
    var clientId, redirectUri := ClientId(hostname, pathPrefix), RedirectUri(hostname, pathPrefix);
    var state := GenRandomText(32, draw);
    var endpoint := Member(meta.value, "authorization_endpoint");
    if endpoint.Err? {
      return Thrown(endpoint.message), calls;
    }
    var authUri := AuthorizeUrl(Render(endpoint.value), clientId, redirectUri, state);
    store.Set(StateKey(state), AuthRecord(AtprotoAuth(Prop(meta.value, "issuer"), clientId, redirectUri,
                                                      Prop(meta.value, "token_endpoint"))));
    outcome := Reply(Redirect(authUri));
  }

  /** A login that fails writes nothing. */
  lemma LoginFailureWritesNothing(store: map<string, Value>, hostname: string, pathPrefix: string, id: Option<string>,
                                  net: Discovery, state: string)
    ensures var r := LoginStep(store, hostname, pathPrefix, id, net, state);
      r.outcome.Thrown? ==> r.store == store
  {
  }

  /**
   * A login that succeeds records `{issuer, clientId, redirectUri,
   * tokenEndpoint}` from the authorization server's metadata under the
   * state and nothing else, and redirects to its authorization endpoint.
   */
  lemma LoginRecordsRequest(store: map<string, Value>, hostname: string, pathPrefix: string, id: Option<string>,
                            net: Discovery, state: string)
    ensures var r := LoginStep(store, hostname, pathPrefix, id, net, state);
      var didDoc := ResolveDidResult(OrNull(id), net.answers, net.didDoc).0;
      var found := didDoc.Ok? && AuthServerResult(didDoc.value, net.resourceMeta, net.serverMeta).0.Ok?;
      r.outcome.Reply? <==> found && !net.serverMeta.JNull?
    ensures var r := LoginStep(store, hostname, pathPrefix, id, net, state);
      var clientId, redirectUri := ClientId(hostname, pathPrefix), RedirectUri(hostname, pathPrefix);
      var meta := net.serverMeta;
      r.outcome.Reply? ==>
        && r.store == store[StateKey(state) := AuthRecord(AtprotoAuth(Prop(meta, "issuer"), clientId, redirectUri,
                                                                     Prop(meta, "token_endpoint")))]
        && r.outcome.response
             == Redirect(AuthorizeUrl(Render(Prop(meta, "authorization_endpoint")), clientId, redirectUri, state))
  {
  }

  /**
   * The redirect carries the same client id, redirect URI and state,
   * `response_type=code` and `scope=atproto`, as its whole query, when no
   * value holds `&`.
   */
  lemma AuthorizeUrlFields(endpoint: string, hostname: string, pathPrefix: string, state: string)
    requires '?' !in endpoint && '&' !in hostname + pathPrefix && '&' !in state
    ensures var clientId, redirectUri := ClientId(hostname, pathPrefix), RedirectUri(hostname, pathPrefix);
      QueryFields(AuthorizeUrl(endpoint, clientId, redirectUri, state))
        == ["client_id=" + clientId, "redirect_uri=" + redirectUri, "state=" + state, "response_type=code", "scope=atproto"]
  {
    var clientId, redirectUri := ClientId(hostname, pathPrefix), RedirectUri(hostname, pathPrefix);
    ClientFieldsPlain(hostname, pathPrefix);
    var fields := AuthorizeFields(clientId, redirectUri, state);
    assert forall i :: 0 <= i < |fields| ==> '&' !in fields[i];
    QueryFieldsOf(endpoint, fields);
  }

  /** The client id and redirect URI hold no `&` when the hostname and prefix hold none. */
  lemma ClientFieldsPlain(hostname: string, pathPrefix: string)
    requires '&' !in hostname + pathPrefix
    ensures '&' !in ClientId(hostname, pathPrefix) && '&' !in RedirectUri(hostname, pathPrefix)
  {
    assert ClientId(hostname, pathPrefix) == "https://" + (hostname + pathPrefix) + "/client-metadata.json";
    assert RedirectUri(hostname, pathPrefix) == "https://" + (hostname + pathPrefix) + "/atproto-callback";
  }

  /** A DID that is not `did:plc` stops the login after the DNS lookup, before the directory. */
  lemma LoginRejectsOtherDids(store: map<string, Value>, hostname: string, pathPrefix: string, id: Option<string>,
                              net: Discovery, state: string)
    requires LookupDidResult(OrNull(id), net.answers).Ok?
    requires !StartsWith(LookupDidResult(OrNull(id), net.answers).value, "did:plc")
    ensures LoginStep(store, hostname, pathPrefix, id, net, state)
      == Step(Thrown("Unsupported did type: " + LookupDidResult(OrNull(id), net.answers).value),
              [Get(DnsQueryUrl(DidDomain(OrNull(id)), "TXT"))], store)
  {
  }

  // ---------------------------------------------------------------------
  // Client metadata

  /** `atprotoClientMetadata`: served at `pathname`, which is also the client id it advertises. */
  function ClientMetadata(hostname: string, pathname: string, pathPrefix: string): Response {
    var meta := AtprotoClientMeta("https://" + hostname + pathname, [RedirectUri(hostname, pathPrefix)]);
    Response(200, None, None, Some("application/json"), AtprotoClientDocument(meta))
  }

  /**
   * The document's `redirect_uris[0]` is the redirect URI a login records
   * and sends; its `client_id` is the login's client id when the document
   * is served where that id points, at `<prefix>/client-metadata.json`.
   */
  lemma MetadataMatchesLogin(store: map<string, Value>, hostname: string, pathname: string, pathPrefix: string,
                             id: Option<string>, net: Discovery, state: string)
    ensures var doc := ClientMetadata(hostname, pathname, pathPrefix).body.atprotoMeta;
      var r := LoginStep(store, hostname, pathPrefix, id, net, state);
      && (r.outcome.Reply? ==> |doc.redirectUris| == 1 && r.store[StateKey(state)].request.redirectUri == doc.redirectUris[0])
      && (pathname == pathPrefix + "/client-metadata.json" ==> doc.clientId == ClientId(hostname, pathPrefix))
  {
    if pathname == pathPrefix + "/client-metadata.json" {
      assert "https://" + hostname + pathname == "https://" + hostname + pathPrefix + "/client-metadata.json";
    }
  }
}
