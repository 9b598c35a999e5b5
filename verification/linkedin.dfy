/** The LinkedIn connection: OAuth2 with the access token passed in the
    query string under the provider's own name `oauth2_access_token`
    (not `access_token` of section 2.3 of RFC 6750), its error message
    choice and its token endpoint. */
module LinkedIn {
  import opened Values
  import opened Requests
  import opened Paths

  const AuthUrl := "https://www.linkedin.com/uas/oauth2/authorization"

  /** The query parameter that carries the access token. */
  const TokenParam := "oauth2_access_token"

  /** A request after `initRequest`: with a truthy token, the token is set
      as `queryParams['oauth2_access_token']`; nothing else changes. */
  function Decorate(req: Req, token: Value): (r: Req)
    ensures Truthy(token) ==> Lookup(r.queryParams, TokenParam) == token
    ensures forall n :: n != TokenParam ==> Lookup(r.queryParams, n) == Lookup(req.queryParams, n)
    ensures r.verb == req.verb && r.url == req.url && r.params == req.params
    ensures !Truthy(token) ==> r == req
  {
    if Truthy(token) then req.(queryParams := Put(req.queryParams, TokenParam, token)) else req
  }

  /** Decorating twice is decorating once. */
  lemma DecorateIdempotent(req: Req, token: Value)
    ensures Decorate(Decorate(req, token), token) == Decorate(req, token)
  {
    if Truthy(token) {
      PutPut(req.queryParams, TokenParam, token, token);
    }
  }

  /** A token already in the query string is overwritten in its place; a
      new one is added after the other query parameters. */
  lemma DecorateOverwrites(req: Req, token: Value)
    requires Truthy(token)
    ensures TokenParam in Names(req.queryParams) ==> Names(Decorate(req, token).queryParams) == Names(req.queryParams)
    ensures TokenParam !in Names(req.queryParams) ==> Names(Decorate(req, token).queryParams) == Names(req.queryParams) + [TokenParam]
  {
    PutNames(req.queryParams, TokenParam, token);
  }

  /** The connection's state that `initRequest` reads: the access token the
      OAuth2 support stores (null when there is none). */
  class Connection {
    var accessToken: Value

    constructor (accessToken: Value)
      ensures this.accessToken == accessToken
    {
      this.accessToken := accessToken;
    }

    /** `initRequest` on the request the base connection initialised: the
        request object is changed in place. */
    method InitRequest(request: Request)
      modifies request
      ensures request.Snapshot() == Decorate(old(request.Snapshot()), accessToken)
    {
      if Truthy(accessToken) {
        request.queryParams := Put(request.queryParams, TokenParam, accessToken);
      }
    }
  }

  /** `httpError`: the `message` property of an object result when it is
      set, otherwise the base connection's message `parentError`. The
      message is never null. */
  function HttpError(result: Value, parentError: string): (m: Value)
    ensures m != Null
    ensures result.Obj? && IsSet(result.fields, "message") ==> m == Lookup(result.fields, "message")
    ensures !(result.Obj? && IsSet(result.fields, "message")) ==> m == Str(parentError)
  {
    if result.Obj? && IsSet(result.fields, "message") then Lookup(result.fields, "message") else Str(parentError)
  }

  /** The token endpoint, `dirname(authURL) . '/accessToken'`. */
  function AccessTokenUrl(): (u: string)
    ensures u == "https://www.linkedin.com/uas/oauth2/accessToken"
  {
    AccessTokenSpelling("https://www.linkedin.com/uas/oauth2", "authorization", "/accessToken");
    Dirname(AuthUrl) + "/accessToken"
  }

  /** The endpoint spelled out: the authorization URL's directory followed
      by `/accessToken`. */
  lemma AccessTokenSpelling(dir: string, name: string, tail: string)
    requires dir == "https://www.linkedin.com/uas/oauth2" && name == "authorization" && tail == "/accessToken"
    ensures Dirname(AuthUrl) + tail == "https://www.linkedin.com/uas/oauth2/accessToken"
  {
    AuthUrlParts(dir, name);
    DirnameChild(dir, name);
  }

  /** The authorization URL is its directory, a slash and a plain name. */
  lemma AuthUrlParts(dir: string, name: string)
    requires dir == "https://www.linkedin.com/uas/oauth2" && name == "authorization"
    ensures AuthUrl == dir + "/" + name
    ensures dir != "" && dir[|dir| - 1] != '/'
    ensures name != "" && forall i :: 0 <= i < |name| ==> name[i] != '/'
  {
  }

  /** `fetchAccessToken`: the parameters posted to the token endpoint. */
  function AccessTokenRequest(params: seq<Field>): (r: Req)
    ensures r.verb == "POST" && r.url == "https://www.linkedin.com/uas/oauth2/accessToken" && r.params == params
  {
    Req("POST", AccessTokenUrl(), params, [])
  }
}
