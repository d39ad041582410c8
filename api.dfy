/** The shared HTTP client (src/services/api.js): its base address, default
    headers, the list of public endpoints and the request interceptor that
    writes the bearer token into every other request. */
module Api {
  import opened Js
  import opened Text

  /** The client's `baseURL`; request paths are relative to it. */
  const BaseUrl: string := "http://127.0.0.1:8000/api/"

  /** The storage key the interceptor reads the token from. */
  const AccessTokenKey: string := "access_token"

  const AuthorizationHeader: string := "Authorization"
  const ContentTypeHeader: string := "Content-Type"

  /** The headers every request starts with. */
  const DefaultHeaders: map<string, string> := map[ContentTypeHeader := "application/json"]

  /** Path fragments of the endpoints that need no authentication. */
  const PublicEndpoints: seq<string> := ["/register/", "/token/", "/token/refresh/"]

  /** `endpoints.some(e => url.includes(e))` */
  function SomeIncluded(url: string, endpoints: seq<string>): bool {
    |endpoints| > 0 && (Includes(url, endpoints[0]) || SomeIncluded(url, endpoints[1..]))
  }

  /** The interceptor's public check, `config.url?.includes(endpoint)` for
      some listed endpoint; an absent URL is not public. */
  function IsPublic(url: Option<string>): bool {
    url.Some? && SomeIncluded(url.value, PublicEndpoints)
  }

  /** `some` holds exactly when one of the fragments is included. */
  lemma {:induction false} SomeIncludedIff(url: string, endpoints: seq<string>)
    ensures SomeIncluded(url, endpoints) <==> exists k :: 0 <= k < |endpoints| && Includes(url, endpoints[k])
  {
    if |endpoints| > 0 {
      SomeIncludedIff(url, endpoints[1..]);
      if exists k :: 0 <= k < |endpoints| && Includes(url, endpoints[k]) {
        var k :| 0 <= k < |endpoints| && Includes(url, endpoints[k]);
        if k > 0 {
          assert endpoints[1..][k - 1] == endpoints[k];
        }
      }
    }
  }

  /** A URL is public exactly when one of the three listed fragments occurs
      in it as a substring. */
  lemma IsPublicIffListedFragmentOccurs(url: Option<string>)
    ensures IsPublic(url) <==>
      url.Some? && exists k, i :: 0 <= k < |PublicEndpoints| && OccursAt(url.value, PublicEndpoints[k], i)
  {
    if url.Some? {
      var u := url.value;
      SomeIncludedIff(u, PublicEndpoints);
      forall k | 0 <= k < |PublicEndpoints|
        ensures Includes(u, PublicEndpoints[k]) <==> exists i :: OccursAt(u, PublicEndpoints[k], i)
      {
        IncludesIffOccurs(u, PublicEndpoints[k]);
      }
    }
  }

  /** The stored access token, when it is truthy (present and non-empty). */
  function StoredToken(storage: map<string, string>): (t: Option<string>)
    ensures t.Some? <==> AccessTokenKey in storage && storage[AccessTokenKey] != ""
    ensures t.Some? ==> t.value == storage[AccessTokenKey]
  {
    if AccessTokenKey in storage && storage[AccessTokenKey] != "" then Some(storage[AccessTokenKey]) else None
  }

  /** The headers the interceptor leaves on a request for `url`, given the
      headers it arrived with and the browser's durable storage. */
  function InterceptedHeaders(url: Option<string>, headers: map<string, string>, storage: map<string, string>)
    : (h: map<string, string>)
    ensures forall k :: k != AuthorizationHeader ==> Lookup(h, k) == Lookup(headers, k)
    ensures IsPublic(url) || StoredToken(storage).None? ==> h == headers
    ensures !IsPublic(url) && StoredToken(storage).Some? ==>
      AuthorizationHeader in h && h[AuthorizationHeader] == "Bearer " + storage[AccessTokenKey]
  {
    if IsPublic(url) then headers
    else match StoredToken(storage)
      case None => headers
      case Some(token) => headers[AuthorizationHeader := "Bearer " + token]
  }

  /** The request configuration object the interceptor receives and returns. */
  class RequestConfig {
    var verb: string
    var url: Option<string>
    var headers: map<string, string>
    var data: Option<Json>

    /** A request as the client creates it: the default headers and nothing
        else. */
    constructor (verb: string, url: Option<string>, data: Option<Json>)
      ensures this.verb == verb && this.url == url && this.data == data
      ensures headers == DefaultHeaders
    {
      this.verb := verb;
      this.url := url;
      this.data := data;
      headers := DefaultHeaders;
    }
  }

  /** The request interceptor: it changes the configuration in place (only
      its headers) and hands the same object on. */
  method Intercept(config: RequestConfig, storage: map<string, string>) returns (result: RequestConfig)
    modifies config`headers
    ensures result == config
    ensures config.headers == InterceptedHeaders(config.url, old(config.headers), storage)
  {
    if !IsPublic(config.url) {
      var token := StoredToken(storage);
      if token.Some? {
        config.headers := config.headers[AuthorizationHeader := "Bearer " + token.value];
      }
    }
    result := config;
  }

  /** Whatever the URL and the storage, the interceptor keeps the JSON
      content type of a freshly created request. */
  lemma ContentTypeKept(url: Option<string>, storage: map<string, string>)
    ensures Lookup(InterceptedHeaders(url, DefaultHeaders, storage), ContentTypeHeader) == Some("application/json")
  {
  }

  /** Every listed fragment is a `/` followed by `r` or `t`; a URL in which
      no `/` is followed by either letter is therefore not public. */
  lemma {:induction false} NoSlashBeforeROrTNotPublic(u: string)
    requires forall k :: 0 <= k < |u| - 1 && u[k] == '/' ==> u[k + 1] != 'r' && u[k + 1] != 't'
    ensures !IsPublic(Some(u))
  {
    IsPublicIffListedFragmentOccurs(Some(u));
    forall k, i | 0 <= k < |PublicEndpoints| && 0 <= i
      ensures !OccursAt(u, PublicEndpoints[k], i)
    {
      var e := PublicEndpoints[k];
      assert |e| >= 2 && e[0] == '/' && (e[1] == 'r' || e[1] == 't');
    }
  }

  /** The relative paths the session code posts to, `token/` and
      `register/`, are not public under this rule, because the listed
      fragments begin with a `/` they do not have. */
  lemma CallerPathsNotPublic()
    ensures !IsPublic(Some("token/"))
    ensures !IsPublic(Some("register/"))
  {
    NoSlashBeforeROrTNotPublic("token/");
    NoSlashBeforeROrTNotPublic("register/");
  }

  /** Paths written with a leading `/` would be public. */
  lemma AbsoluteEndpointPathsPublic()
    ensures IsPublic(Some("/token/"))
    ensures IsPublic(Some("/register/"))
    ensures IsPublic(Some("/token/refresh/"))
  {
    IsPublicIffListedFragmentOccurs(Some("/token/"));
    IsPublicIffListedFragmentOccurs(Some("/register/"));
    IsPublicIffListedFragmentOccurs(Some("/token/refresh/"));
    assert OccursAt("/token/", PublicEndpoints[1], 0);
    assert OccursAt("/register/", PublicEndpoints[0], 0);
    assert OccursAt("/token/refresh/", PublicEndpoints[2], 0);
  }

  /** Consequently a login or registration request made while a token is
      stored carries that token as a bearer credential. */
  lemma CallerPathsCarryStoredToken(storage: map<string, string>)
    requires StoredToken(storage).Some?
    ensures Lookup(InterceptedHeaders(Some("token/"), DefaultHeaders, storage), AuthorizationHeader)
      == Some("Bearer " + storage[AccessTokenKey])
    ensures Lookup(InterceptedHeaders(Some("register/"), DefaultHeaders, storage), AuthorizationHeader)
      == Some("Bearer " + storage[AccessTokenKey])
  {
    CallerPathsNotPublic();
  }
}
