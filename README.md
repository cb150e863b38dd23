# decent-auth, modelled in Dafny

decent-auth is a small JavaScript login library. It sits in front of a web
application and signs users in through the fediverse (Mastodon), OpenID
Connect, ATProto and, as a stub, IndieAuth. Every login method has the same
two-step shape:

- The login step writes an auth-request record under `oauth_state/<state>` and
  redirects the browser to the provider.
- The callback step reads that record, deletes it, and checks that it existed.
  It then exchanges the code with the provider. On success it writes
  `sessions/<key>` and answers `303` with a `session_key` cookie.

All of this state sits in a key-value store.

This project models that core and proves its properties:

- **Stores.** `Store.KvStore` is index.js's in-memory store. Its `delete`
  removes every key with a given prefix. `JsonStore.JsonKvStore` is kv.js's
  JSON store, which goes through `encode`/`decode` and deletes one exact key.
  Both are classes over a `map` field and a key-order field. Their methods
  state the whole new state.
- **Handlers.** Each handler is a pure step function
  `XStep(store, inputs…): Step` and is proved over three things:
  - the outcome: a response, or the error it throws;
  - the outbound requests, in order;
  - the new store.

  A method over `KvStore<Value>` performs the same reads, writes and deletes
  in the source's order. Its `ensures` ties its result to the step function.
  Network results are inputs.
- **Parsers.** These are:
  - the `Cookie` header lookup;
  - fediverse-ID parsing;
  - NodeInfo link selection;
  - DID TXT-record extraction and the `did:plc` gate;
  - compact JWT splitting, and the issuer and audience checks;
  - Link-header parsing;
  - base64url.

  Each is a function or a looping method. Lemmas relate it to its partner: a
  reference definition, an inverse, or the case split its caller depends on.

JavaScript's semantics are modelled where they matter:

- `undefined` versus `null`;
- truthiness;
- `===` on objects and arrays;
- `split`, `trim` and `replaceAll`;
- the text of template literals;
- reading a property of `null` or `undefined`. This throws the `TypeError`
  constants in `Json`.

Module by file:

- `wrappers.dfy`: Option and Result.
- `bytes.dfy`: bytes.
- `strings.dfy`: string primitives.
- `json.dfy`: JSON values.
- `http.dfy`: requests, responses and outbound calls.
- `records.dfy`: stored records and store keys.
- `store.dfy`: index.js `KvStore`.
- `jsonstore.dfy`: kv.js `JsonKvStore`.
- `random.dfy`: `genRandomText`.
- `cookies.dfy`: `getCookie`.
- `mastodon.dfy`: index.js and fediverse.js Mastodon flow.
- `router.dfy`: `createHandler`.
- `oidc.dfy`: oidc.js.
- `atproto.dfy`: atproto.js.
- `indieauth.dfy`: indieauth.js.
- `oauth2.dfy`: oauth2.js.

index.js and fediverse.js contain the same Mastodon flow, except for the key
of the app cache. `Mastodon` defines the flow once and takes the keying as a
parameter: `PerServer` gives `apps/<server>` and `PerServerAndHost` gives
`apps/<server>/<hostname>`.

## Model

| member | source | states |
|---|---|---|
| `Store.KvStore.Get` | index.js:6-8 | the value is present exactly when the key is, and it is the stored value |
| `Store.KvStore.Set` | index.js:10-13 | the map is the old map with `key` bound to `value`, and every other key is unchanged; a new key joins the end of the enumeration order |
| `Store.KvStore.List` | index.js:15-25 | the values, not the keys, of the entries whose key starts with the prefix, in enumeration order |
| `Store.ListedValues` | index.js:15-25 | a value is listed exactly when some key with the prefix holds it, and there is one listed value per such key |
| `Store.KvStore.Delete` | index.js:27-35 | the map loses exactly the keys that start with the prefix, and every other key keeps its value; the order loses the same keys |
| `Store.DropPrefixed` | index.js:27-32 | a key survives exactly when it is present and lacks the prefix, and survivors keep their values |
| `Store.EnumerateKeys` | index.js:28 | a `for…in` enumeration visits each key of the object once and nothing else |
| `JsonStore.InitialText` | kv.js:21-25 | an absent or empty file text becomes `{}`; any other text is kept |
| `JsonStore.JsonKvStore.constructor` | kv.js:7-29 | the map is the parse of the initial text, and it is empty for an absent or empty file; `ready` (the promise resolves) holds exactly when the text parses |
| `JsonStore.JsonKvStore.Get` | kv.js:35-37 | an empty byte array when the key is absent or its value is falsy, else the encoding of the stored value |
| `JsonStore.JsonKvStore.Set` | kv.js:39-42 | the key holds `decode(bytes)` and every other key is unchanged; a new key goes to the end of the key order; a following `Get` returns `encode(decode(bytes))` or empty bytes for a falsy value; undecodable bytes (a throwing `JSON.parse`) change nothing |
| `JsonStore.JsonKvStore.List` | kv.js:44-46 | exactly the keys, not the values, that start with the prefix, each once |
| `JsonStore.JsonKvStore.Delete` | kv.js:48-51 | removes only that exact key |
| `Random.RandomText` | index.js:371-381 | exactly `len` characters, each from the 34-character alphabet |
| `Random.GenRandomText` | index.js:374-378 | the loop builds `RandomText(len, draw)` for the drawn indices |
| `Random.RandomTextCovers` | index.js:376 | every string over the alphabet is produced by some sequence of draws |
| `Random.AlphabetRange` | index.js:372 | the alphabet holds only characters between `0` and `z`, and never `;` or `=` |
| `Cookies.GetCookie` | index.js:351-369 | the early-return loop computes `Lookup` |
| `Cookies.LookupOutcomes` | index.js:353-368 | `null` exactly when the header is absent or empty; a value exactly when some trimmed segment has the name, and then it is the value of the first such segment; `undefined` otherwise |
| `Cookies.FirstCookieFound` | index.js:361-368 | a value is found exactly when some segment carries the name |
| `Cookies.FirstCookieIsFirst` | index.js:361-368 | the found value belongs to the first segment with the name |
| `Cookies.CookieSegment` | index.js:362-366 | `name=value` yields that name and that value, with every later `=` kept in the value |
| `Cookies.SetCookieReadBack` | index.js:363-366 | a header `name=value` reads back as `value` |
| `Records.SessionNotState` | index.js:116 | neither a session key nor a state key is a prefix of the other |
| `Router.SubPathCutsLength` | index.js:105-106 | the sub-path drops as many characters as the prefix has and maps an empty rest to `/` |
| `Router.SubPathShort` | index.js:105-106 | a pathname no longer than the prefix routes as `/` |
| `Router.RouteOf` | index.js:108-141 | a path reaches the 404 case exactly when it is none of `/`, `/logout`, `/fediverse`, `/callback` |
| `Router.Logout` | index.js:113-124 | the method performs `LogoutStep`: delete `sessions/<cookie>` as a prefix, then answer 303 to `/` with a `Max-Age=0` cookie |
| `Router.GetSession` | index.js:94-97 | the stored value under `sessions/<cookie>` |
| `Router.RandomTextPlain` | index.js:371-381 | a generated key has no `;` or `=` and does not end in white space |
| `Router.SessionCookieLookup` | index.js:345 | the cookie the callback sets reads back as the same key |
| `Router.SessionCookieReadBack` | index.js:94-97 | the session the callback stored is the one `getSession` returns for the cookie it set |
| `Router.LogoutRemovesSession` | index.js:113-116 | logging out with a generated key removes `sessions/<key>`, and every key that does not start with it keeps its value |
| `Router.LogoutEmptyCookieDropsAllSessions` | index.js:115-116 | an empty `session_key=` cookie deletes every `sessions/` entry, because the delete is by prefix |
| `Router.LogoutExactRemovesOnlyThatSession` | index.js:113-116 | the exact-key logout removes only `sessions/<cookie>`; every other key keeps its value, whatever the cookie |
| `Router.LogoutExactEmptyCookieKeepsSessions` | index.js:113-116 | with an empty `session_key=` cookie the exact-key logout keeps every real session |
| `Router.WhitespaceOutsideAlphabet` | index.js:362 | every character `trim` removes is below `0` or above `z`, outside the key alphabet |
| `Router.Handle` | index.js:101-142 | the handler performs `HandleStep` on the store |
| `Router.HandleNotFound` | index.js:137-139 | any other sub-path answers `404 Not found` and leaves the store alone |
| `Router.OnlyCallbackWritesSessions` | index.js:108-141 | the only `sessions/` entry any route adds or changes is the new session key, on a successful callback |
| `Router.FediverseKeepsSessions` | fediverse.js:5-29 | the fediverse page leaves every `sessions/` entry as it was |
| `Mastodon.ParseFediverseId` | fediverse.js:31-53 | fails, with `Invalid ID`, exactly when the id starts with `@` and does not hold exactly two `@` (three `@`-parts); an `@`-id that parses has type `activitypub` and a server without `@`; any other id has neither type nor server |
| `Mastodon.ParseHandle` | fediverse.js:38-45 | `@user@server` parses to server `server` |
| `Mastodon.ActivityPubIdIsHandle` | fediverse.js:38-45 | every id typed `activitypub` is `@user@server` for its server |
| `Mastodon.SchemaHref` | fediverse.js:63-68 | a `null` link throws `TypeError` |
| `Mastodon.SelectNodeInfoUri` | fediverse.js:62-68 | the loop with `break` computes `SchemaHref` |
| `Mastodon.SchemaHrefFirst` | fediverse.js:63-67 | the `href` of the first link whose `rel` is the NodeInfo 2.0 schema |
| `Mastodon.SchemaHrefNone` | fediverse.js:62-68 | no matching link leaves the URI undefined |
| `Mastodon.GetNodeInfo` | fediverse.js:55-78 | the method performs `NodeInfoLookup`, whose outcomes the three lemmas below state |
| `Mastodon.NodeInfoWithoutSchemaLink` | fediverse.js:58-72 | no schema 2.0 link throws `Failed to get nodeinfo for <server>` after the well-known fetch alone |
| `Mastodon.NodeInfoFalsyHref` | fediverse.js:62-72 | a first schema link whose `href` is falsy (absent, `""`, `null`, `0`, `false`) throws the same error after the well-known fetch alone |
| `Mastodon.NodeInfoFound` | fediverse.js:58-77 | a first schema link with a truthy `href` is fetched second, and its document is the result |
| `Mastodon.AppKeyApart` | fediverse.js:84 | an app-cache key never collides with a state or session key |
| `Mastodon.StartMastodonLogin` | fediverse.js:80-123 | the method performs `LoginStep` with a 32-character random state |
| `Mastodon.LoginAppCache` | fediverse.js:84-105 | a cached app means no registration and an unchanged entry; an absent one means one registration call whose result is stored under exactly that key; no other key except the state key changes |
| `Mastodon.LoginRecordsRequest` | fediverse.js:107-115 | the login replies exactly when the cached or registered app is not `null`; on success `oauth_state/<state>` holds `{serverDomain, app}`, and the redirect URL carries the app's `client_id` and `redirect_uri`, the same state, `response_type=code` and `scope=read:accounts` |
| `Mastodon.AuthorizeUrlFields` | fediverse.js:108 | the authorization URL's query fields, in order |
| `Mastodon.CompleteMastodonLogin` | fediverse.js:125-194 | the method performs `CallbackStep` with a 32-character random session key |
| `Mastodon.CallbackMissingParams` | fediverse.js:132-136 | a missing or empty `code` or `state` answers 400 and leaves the store untouched |
| `Mastodon.CallbackConsumesState` | fediverse.js:138-139 | afterwards no key starting with `oauth_state/<state>` remains, whether or not the record existed |
| `Mastodon.CallbackNoSessionOnFailure` | fediverse.js:141-174 | on every outcome but success the store only loses keys, and no key is added or changed |
| `Mastodon.CallbackSuccess` | fediverse.js:145-193 | success happens exactly when both parameters are present, a Mastodon record with an app exists, and the credential check returns 200; then the token and credential requests are the calls, and `sessions/<key>` holds `{userIdType: 'mastodon', userId: '@'+username+'@'+server}` |
| `Mastodon.CallbackReplayFails` | fediverse.js:138-143 | a second callback with the same state throws `No such auth request` |
| `Mastodon.LoginThenCallback` | fediverse.js:107-185 | a callback with the state a login recorded posts the code with that app and logs in |
| `Mastodon.FediversePage` | fediverse.js:5-29 | the method performs `FediverseStep` |
| `Mastodon.FediverseNotActivityPub` | fediverse.js:13-28 | an id not starting with `@` answers the `Hi there` page with no call and no store change |
| `Mastodon.FediverseNotMastodon` | fediverse.js:15-19 | a `Not a mastodon server` throw comes only from a server whose `software.name` is not `mastodon`, after only the two NodeInfo fetches, with no registration and no store change |
| `Mastodon.FediverseRefusesOthers` | fediverse.js:14-21 | conversely, an ActivityPub id on a server whose NodeInfo names anything but `mastodon` throws `Not a mastodon server` after the two NodeInfo fetches, with the store unchanged and no login |
| `Mastodon.FediverseReachesLogin` | fediverse.js:14-22 | an ActivityPub id on a server whose NodeInfo names `mastodon` leads to the login, whose calls follow the two NodeInfo fetches and whose store change is the page's |
| `Oidc.ParseJwt` | oidc.js:171-187 | a token whose `.`-split does not have three parts is `Invalid JWT`; the signature is the third part verbatim |
| `Oidc.ParseJwtShape` | oidc.js:172-180 | three parts means exactly two dots, and then the header and claims are the decoded first and second parts |
| `Oidc.ParseJwtCompose` | oidc.js:171-187 | `header.claims.signature` parses back into its decoded pieces |
| `Oidc.ParseAndVerifyJwt` | oidc.js:143-168 | the loop with `audMatch` and `break` computes `VerifyJwt` |
| `Oidc.VerifyIssuerFirst` | oidc.js:146-148 | an issuer mismatch fails with `Issuer mismatch` whatever the audience |
| `Oidc.VerifyAccepts` | oidc.js:143-168 | acceptance holds exactly when the token parses, `iss` equals the expected issuer, and `aud` either is an array containing the audience or equals it; an accepted token is returned unchanged |
| `Oidc.LoginWithMeta` | oidc.js:41-71 | the method performs `LoginStep` |
| `Oidc.Login` | oidc.js:3-12 | fetch the discovery document first, then log in with it |
| `Oidc.LoginRecordsRequest` | oidc.js:53-63 | the step answers unless the metadata is `null`; it stores `{issuer, clientId, redirectUri, tokenEndpoint, codeVerifier}` under the state, and the redirect URL's seven fields carry the same state, the challenge and `code_challenge_method=S256` |
| `Oidc.ClientFieldsPlain` | oidc.js:46-47 | the client id and redirect URI hold no `&` when hostname and prefix hold none |
| `Oidc.AuthorizeUrlFields` | oidc.js:53 | the authorization URL's query fields, in order |
| `Oidc.MetadataMatchesLogin` | oidc.js:14-47 | the document `Oidc.ClientMetadata` serves (`oidcClientMetadata`) advertises as `client_id` and as its only `redirect_uris` entry the client id and redirect URI the login records |
| `Oidc.TokenEndpointOf` | oidc.js:96 | only an OIDC or ATProto record has a token endpoint |
| `Oidc.UserIdFromClaims` | oidc.js:115-123 | the email claim when truthy, else `preferred_username` when truthy, else undefined |
| `Oidc.Callback` | oidc.js:74-141 | the method performs `CallbackStep` |
| `Oidc.CallbackConsumesState` | oidc.js:81-92 | a missing parameter answers 400 with the store untouched; otherwise no key starting with `oauth_state/<state>` remains |
| `Oidc.CallbackNoSessionOnFailure` | oidc.js:90-113 | on every outcome but success the store only loses keys |
| `Oidc.CallbackSuccess` | oidc.js:96-139 | success happens exactly when the record exists, has a token endpoint, and the ID token verifies against its issuer and client id; the one call posts code, client id, redirect URI and verifier to the stored endpoint; the session is `{userIdType: 'email', userId, data: jwt}` |
| `Oidc.CallbackReplayFails` | oidc.js:87-92 | a second callback with the same state throws `No such auth request` |
| `Oidc.LoginThenCallback` | oidc.js:55-113 | the callback after a login posts the recorded endpoint, client, redirect URI and verifier, and it succeeds exactly when the ID token verifies |
| `Atproto.DidOfText` | atproto.js:93-94 | the second `=`-field is defined exactly when the text holds `=` |
| `Atproto.LookupDid` | atproto.js:83-104 | the loop with `break` computes `LookupDidResult`, after one DNS query for `_atproto.<domain>` TXT |
| `Atproto.FirstMatchAt` | atproto.js:89-96 | the first record carrying the exact name is the one chosen |
| `Atproto.FirstMatchNone` | atproto.js:89-97 | no record with the name means no match |
| `Atproto.FirstMatchSkips` | atproto.js:90 | records under other names are skipped |
| `Atproto.LookupDidFirst` | atproto.js:89-101 | the DID is the second `=`-field of the first matching record, and an absent or empty field is `DID not found` |
| `Atproto.LookupDidIgnoresOthers` | atproto.js:89-101 | other names alone give `DID not found`, and before matching records they change nothing |
| `Atproto.DidRecord` | atproto.js:93-94 | `did=<did>` yields `<did>` |
| `Atproto.ResolveDid` | atproto.js:68-81 | the method computes `ResolveDidResult` |
| `Atproto.ResolveDidGate` | atproto.js:72-77 | a DID not starting with `did:plc` fails before any directory fetch; otherwise the one further fetch is `https://plc.directory/<did>` |
| `Atproto.Index0` | atproto.js:57 | `x[0]` throws on `undefined` or `null` and is otherwise the first element |
| `Atproto.AuthServerFirst` | atproto.js:56-66 | only `service[0].serviceEndpoint` and `authorization_servers[0]` are used, each with its well-known suffix |
| `Atproto.Login` | atproto.js:23-54 | the method performs `LoginStep` with a 32-character random state |
| `Atproto.LoginFailureWritesNothing` | atproto.js:28-46 | a login that throws leaves the store as it was |
| `Atproto.LoginRecordsRequest` | atproto.js:30-46 | the login replies exactly when the DID resolves, the authorization server is found and its metadata is not `null`; on success `oauth_state/<state>` holds `{issuer, clientId, redirectUri, tokenEndpoint}`, and the redirect URL is built from the same values |
| `Atproto.AuthorizeUrlFields` | atproto.js:37 | the authorization URL's query fields, in order, with `scope=atproto` |
| `Atproto.ClientFieldsPlain` | atproto.js:33-34 | the client id and redirect URI hold no `&` when hostname and prefix hold none |
| `Atproto.LoginRejectsOtherDids` | atproto.js:72-74 | a DID of another method throws `Unsupported did type` after the DNS query alone, and writes nothing |
| `Atproto.MetadataMatchesLogin` | atproto.js:3-34 | the document `Atproto.ClientMetadata` serves (`atprotoClientMetadata`) has one `redirect_uris` entry, the redirect URI the login records; served at `<prefix>/client-metadata.json`, its `client_id` is the login's client id |
| `IndieAuth.CanonicalUrl` | indieauth.js:13-16 | `https://` + host + path, ending in `/`, with one `/` appended only when missing |
| `IndieAuth.ParseLink` | indieauth.js:71-77 | no `"`, `'`, `<` or `>` remains, and every other character value still occurs |
| `IndieAuth.ParseLinkOf` | indieauth.js:71-77 | a target written `<url>`, with no quote or angle bracket in `url`, gives back exactly `url` |
| `IndieAuth.ParseLinkIdempotent` | indieauth.js:71-77 | applying it twice equals applying it once |
| `IndieAuth.ParseRel` | indieauth.js:67-69 | throws exactly when the field is missing or has no `=`; otherwise there are no quotes in the result |
| `IndieAuth.ParseRelSplit` | indieauth.js:68 | `name=text`, alone or followed by `=` and anything, gives `text` (the text between the first and second `=`) with both quote characters removed |
| `IndieAuth.ParseRelOf` | indieauth.js:68 | `rel=v`, `rel="v"` and `rel='v'` all give `v` |
| `IndieAuth.TrimAll` | indieauth.js:49 | every part trimmed, one per part |
| `IndieAuth.ParseLinkHeaders` | indieauth.js:47-65 | the pushing loop computes `LinkHeaders` |
| `IndieAuth.ParseSegmentsInOrder` | indieauth.js:53-62 | parsing succeeds exactly when every segment does, and then entry `i` is the parse of segment `i` |
| `IndieAuth.SegmentIgnoresExtra` | indieauth.js:54 | fields after the second `;`-field are ignored |
| `IndieAuth.SegmentWithoutRel` | indieauth.js:54-56 | a segment with no rel field throws |
| `IndieAuth.LookupIndieAuthServer` | indieauth.js:11-45 | the HEAD, selection and fetch sequence computes `LookupServerResult` |
| `IndieAuth.LookupWithoutMetadataLink` | indieauth.js:24-34 | no `indieauth-metadata` entry gives `null` after the HEAD request alone |
| `IndieAuth.LookupUsesFirstLink` | indieauth.js:24-42 | otherwise the link of the first such entry is fetched |
| `IndieAuth.FirstLinkAt` | indieauth.js:25-29 | the first entry with the rel supplies the link |
| `IndieAuth.FirstLinkNone` | indieauth.js:24-30 | no such entry leaves the link undefined |
| `IndieAuth.LoginRefuses` | indieauth.js:2-9 | always 400, with no call and no store change, whatever the input |
| `OAuth2.Sextets` | oauth2.js:17 | `⌈4n/3⌉` six-bit groups for `n` bytes |
| `OAuth2.SextetsRange` | oauth2.js:17 | every group is below 64 |
| `OAuth2.Base64UrlNoPadShape` | oauth2.js:10-21 | `⌈4n/3⌉` characters, all letters, digits, `-` or `_` |
| `OAuth2.ShortVectors` | oauth2.js:17 | `f` and `fo` encode as in section 10 of RFC 4648 |
| `OAuth2.BlockVector` | oauth2.js:17 | `foo` encodes as in section 10 of RFC 4648 |
| `OAuth2.DigestLength` | oauth2.js:22-26 | a 32-byte digest encodes to 43 characters |
| `OAuth2.BinaryString` | oauth2.js:14-16 | one character per byte, with the byte as its code |
| `OAuth2.ToBinaryString` | oauth2.js:11-16 | the loop builds `BinaryString` |
| `OAuth2.Btoa` | oauth2.js:17 | succeeds exactly when every character is a single byte |
| `OAuth2.StripTrailing` | oauth2.js:20 | removes the whole trailing run and nothing else, so the result does not end in `=` |
| `OAuth2.Base64UrlEncode` | oauth2.js:10-21 | equals the reference: base64 with the URL-safe alphabet and no padding (section 5 of RFC 4648) |
| `OAuth2.AsWrittenIsReference` | oauth2.js:17-20 | `btoa` followed by the three replaces equals that reference |
| `OAuth2.AlphabetSwap` | oauth2.js:18-19 | the replaces turn each standard character into the URL-safe one for the same value |
| `OAuth2.UrlSafe` | oauth2.js:17-20 | the output never holds `+`, `/` or `=` |
| `OAuth2.GenerateChallengeData` | oauth2.js:28-32 | the verifier is 64 random characters, and the challenge is the 43-character base64url of its digest |
| `OAuth2.VerifierUnreserved` | oauth2.js:29 | the verifier is 43 to 128 unreserved characters, as section 4.1 of RFC 7636 requires |
| `Strings.JoinSplit` | index.js:363-366 | joining the `split` parts with their separator restores the text |
| `Strings.SplitJoin` | atproto.js:93 | splitting joined separator-free parts restores them |
| `Strings.SplitCount` | oidc.js:172-174 | `split` gives one part more than there are separators |
| `Strings.ReplaceChar` | oauth2.js:18-19 | each occurrence of the character is replaced, and every other character stays in place |
| `Strings.RemoveChar` | indieauth.js:72-76 | no occurrence of the character remains, every other character value still occurs, and the length drops by the number of occurrences |
| `Strings.RemoveCharAppend` | indieauth.js:72-76 | removal distributes over concatenation, so the other characters keep their order |
| `Json.Member` | oidc.js:116 | reading a property throws `TypeError` exactly on `null`, and otherwise gives the property or undefined |
| `Json.MemberOpt` | atproto.js:57 | reading a property of `undefined` or `null` throws |
| `Http.QueryFieldsOf` | oidc.js:53 | a URL `base?f1&…&fn` has exactly those query fields, in order |

## Left out

- **File and database I/O.** Left out are `persist`, the `readFile` at construction (its text is a parameter) and all of `SqliteKvStore`. The `ready` promise is the flag `JsonKvStore.ready`: true when the promise resolves, false when `JSON.parse` throws. The base `persist` of index.js throws only after the map is updated, so that throw is not modelled.
- **JsonKvStore file text that is JSON but not an object.** `parseObject` yields only objects, so such text counts as a failed parse: `ready` is false and the map empty. In kv.js, the text `null` instead sets `_obj` to `null` and `ready` resolves, after which every `get` throws. That case is not modelled.
- **Plugin hosting and mail.** wasm.js, main.js, worker.js, email.js and every file under `examples/` are not part of this model. They cover plugin hosting, worker messaging, promise registries, mail and server wiring.
- **utils.js.** Its `encode`/`decode` are function parameters of `JsonKvStore`. utils.js does not export `genRandomText`, although fediverse.js, atproto.js and oauth2.js import it from there. The model uses the one in index.js.
- **Key order.** The `for…in` order of an object is modelled as insertion order. JavaScript lists integer-like keys first, and that is not modelled.
- **Delete's working copy.** `KvStore.Delete` deletes during enumeration on a working copy that is written back at the end. The result is the same.
- **Network.** Every fetch, DNS-over-HTTPS query and PLC-directory lookup is an input: the parsed JSON or the status.
  - A rejected `fetch` and a throwing `res.json()` are not modelled.
  - The one exception: `oidcCallback` with a record that has no `tokenEndpoint` throws the `fetch(undefined)` error `NoTokenEndpoint`.
  - A recorded `tokenEndpoint` that is JSON `null` is not treated like an absent one. `fetch(null)` throws just as `fetch(undefined)` does, but the model posts to `null` and takes the response as an input, as it does for any other URL `fetch` would refuse.
  - `res.ok` and the JSON body in `lookupIndieAuthServer` are inputs.
- **Logging.** Four calls write to the console only and are left out: `console.log(authReq)` in `oidcCallback`, `console.log(url)` in `atprotoClientMetadata`, `console.log(e)` in the `JsonKvStore` constructor and `console.log(proto)` in indieauth.js.
- **URL parsing.** `new URL(req.url)` is not modelled. Hostname, origin, pathname and query parameters are given as strings.
- **Decoding.** `atob` with `JSON.parse` in `parseJwt` is the `Decoder` parameter. In `lookupDid`, the decoded TXT text is given as a string, so a record whose data is not a JSON string is not modelled.
- **Cryptography and randomness.**
  - SHA-256 is a parameter returning a 32-byte digest.
  - The oauth4webapi calls are parameters. These are `generateRandomCodeVerifier`, `calculatePKCECodeChallenge` and `generateRandomState`.
  - `Math.random` is a stream of indices below 34.
- **Page rendering.** The HTML templates and `sendHtml` pages are opaque page values.
- **Numbers.** JSON numbers are integers. Floating point is not modelled.
- **Features absent from the code.** DPoP, PAR, nonce retry, probe racing, the IndieAuth token exchange and identifier classification are not modelled.
- **Non-array links.** A `links`, `Answer` or Link header of the wrong type has only the `TypeError` outcomes the model names.
- **Error texts.** The `TypeError` messages are representative. Only their presence, and the step that throws them, are meant.
- **Oidc.AuthorizeUrl, Atproto.AuthorizeUrl and Mastodon.AuthorizeUrl.** All three are written as the endpoint, then `?`, then their fields joined by `&`. This is the same string as the source's template literal.
- **Mastodon.ParseFediverseId.** Its own contract gives the failure condition and that the server holds no `@`, not the server's text. The lemmas `ParseHandle` and `ActivityPubIdIsHandle` give that: a parsed `@user@server` id has exactly that `server`.
- **Mastodon.SchemaHref.** Its own contract states only its error case. The lemmas `SchemaHrefFirst` and `SchemaHrefNone` give the rest.

## Findings

| source | as written | input that shows it | evidently intended | confidence | as-written member | corrected member |
|---|---|---|---|---|---|---|
| index.js:115-116 | `/logout` deletes `sessions/<cookie>` through `KvStore.delete`, which removes every key starting with that text | the header `Cookie: session_key=` makes the prefix `sessions/`, so every session of every user is deleted | remove only the session under that exact key, as the `delete` of kv.js does | not executed | `Router.LogoutEmptyCookieDropsAllSessions` | `Router.LogoutExactRemovesOnlyThatSession` |

`Router.Handle` and `Router.Logout` still follow the source as written, with the prefix delete. `Router.LogoutExactStep` is the corrected step. The lemmas `LogoutExactRemovesOnlyThatSession` and `LogoutExactEmptyCookieKeepsSessions` are proved about it.
