/**
 * The records the handlers keep in the store, one variant per kind, and the
 * key namespaces they live under: `apps/…` (Mastodon app registrations),
 * `oauth_state/<state>` (pending authorization requests) and
 * `sessions/<key>` (sessions). Also what one handler step produces.
 */
module Records {
  import opened Wrappers
  import opened Strings
  import opened Json
  import opened Http

  /**
   * A pending authorization request, written by a login step and consumed by
   * its callback. Fields the source copies from fetched JSON (`app`, `issuer`,
   * `tokenEndpoint`) keep their JSON value; `None` is `undefined`.
   */
  datatype AuthRequest =
    | MastodonAuth(serverDomain: string, app: Json)
    | OidcAuth(issuer: Option<Json>, clientId: string, redirectUri: string, tokenEndpoint: Option<Json>, codeVerifier: string)
    | AtprotoAuth(issuer: Option<Json>, clientId: string, redirectUri: string, tokenEndpoint: Option<Json>)

  /** A session: who logged in (`userId` is `None` when the source leaves it `undefined`) and the provider's data. */
  datatype Session = Session(userIdType: string, userId: Option<Json>, data: Json)

  /** What the handlers store: a Mastodon app registration (the `POST /api/v1/apps` response), a request, a session. */
  datatype Value =
    | AppRecord(app: Json)
    | AuthRecord(request: AuthRequest)
    | SessionRecord(session: Session)

  function StateKey(state: string): string {
    "oauth_state/" + state
  }

  function SessionKey(sessionKey: string): string {
    "sessions/" + sessionKey
  }

  /** The 400 text of a callback without `code` or `state`. */
  const MissingParams: string := "Missing code or state param"

  /** What a callback throws when its state names no pending request. */
  const NoSuchAuthRequest: string := "No such auth request"

  /** What one handler invocation does: how it settles, the calls it makes in order, and the store afterwards. */
  datatype Step = Step(outcome: Outcome, calls: seq<Fetch>, store: map<string, Value>)

  /** Session keys never fall under a state prefix, so consuming a state never touches a session and vice versa. */
  lemma SessionNotState(sessionKey: string, state: string)
    ensures !StartsWith(SessionKey(sessionKey), StateKey(state))
    ensures !StartsWith(StateKey(state), SessionKey(sessionKey))
  {
    assert SessionKey(sessionKey)[0] == 's';
    assert StateKey(state)[0] == 'o';
  }
}
