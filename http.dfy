/**
 * The request/response vocabulary of the handlers: responses as the source
 * builds them, thrown errors, and the outbound `fetch` calls a handler makes
 * (recorded so that contracts can say which calls happen and with what).
 */
module Http {
  import opened Wrappers
  import opened Strings
  import opened Json

  /** Query parameters as `URLSearchParams.get` answers them. */
  type Query = map<string, string>

  function Param(query: Query, name: string): Option<string> {
    if name in query then Some(query[name]) else None
  }

  /** `!p` for a query parameter: absent (`null`) or empty. */
  predicate Missing(p: Option<string>) {
    p.None? || p.value == ""
  }

  /** A template literal's rendering of a value that may be `null`. */
  function OrNull(p: Option<string>): string {
    if p.Some? then p.value else "null"
  }

  /** An outbound call. */
  datatype Fetch =
    | Get(url: string)
    | GetWithAuthorization(url: string, authorization: string)
    | Head(url: string)
    | PostForm(url: string, form: seq<(string, string)>)

  /** The OAuth client metadata document that oidc.js serves. */
  datatype OidcClientMeta = OidcClientMeta(
    clientId: string,
    applicationType: string,
    clientName: string,
    clientUri: string,
    dpopBoundAccessTokens: bool,
    grantTypes: seq<string>,
    redirectUris: seq<string>,
    responseTypes: seq<string>,
    scope: string,
    tokenEndpointAuthMethod: string)

  /** The OAuth client metadata document that atproto.js serves. */
  datatype AtprotoClientMeta = AtprotoClientMeta(clientId: string, redirectUris: seq<string>)

  datatype Body =
    | NoBody
    | Text(text: string)
    | LoginPage(pathPrefix: string)
    | HiTherePage
    | OidcClientDocument(oidcMeta: OidcClientMeta)
    | AtprotoClientDocument(atprotoMeta: AtprotoClientMeta)

  datatype Response = Response(
    status: int,
    location: Option<string>,
    setCookie: Option<string>,
    contentType: Option<string>,
    body: Body)

  /** What an async handler settles with: a response, or the message of the error it throws. */
  datatype Outcome = Reply(response: Response) | Thrown(message: string)

  /** `new Response(null, {status: 303, headers: {Location}})`. */
  function Redirect(location: string): Response {
    Response(303, Some(location), None, None, NoBody)
  }

  /** `new Response(text, {status})`. */
  function Plain(status: int, text: string): Response {
    Response(status, None, None, None, Text(text))
  }

  /** `sendHtml(html)`. */
  function Html(page: Body): Response {
    Response(200, None, None, Some("text/html"), page)
  }

  /** The cookie a successful callback sets. */
  function SessionCookie(sessionKey: string): string {
    "session_key=" + sessionKey + "; Path=/; Max-Age=84600; Secure; HttpOnly"
  }

  /** The 303 to `/` with the session cookie that ends every successful callback. */
  function LoggedIn(sessionKey: string): Response {
    Response(303, Some("/"), Some(SessionCookie(sessionKey)), None, NoBody)
  }

  /** The `&`-separated fields of the query of `url`: the text after its first `?`. */
  function QueryFields(url: string): seq<string> {
    Split(Join(Split(url, '?')[1..], '?'), '&')
  }

  /**
   * A URL built as `base?f1&f2&…` with no `?` in `base` and no `&` in any
   * field has exactly those fields as its query, in that order.
   */
  lemma QueryFieldsOf(base: string, fields: seq<string>)
    requires '?' !in base
    requires |fields| >= 1
    requires forall i :: 0 <= i < |fields| ==> '&' !in fields[i]
    ensures QueryFields(base + "?" + Join(fields, '&')) == fields
  {
    var query := Join(fields, '&');
    SplitAt(base, query, '?');
    JoinSplit(query, '?');
    SplitJoin(fields, '&');
  }
}
