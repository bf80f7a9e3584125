/**
 * The documented wire contract of the core API as seen by a client: every
 * call is a JSON POST to the path of the request's module, authenticated by
 * a JWT or by an API key and secret, with a `{type, params}` body; errors
 * come back as `{error, trace}`.
 */
module ClientApi {
  import opened Wrappers
  import opened Json
  import opened Http

  /** The modules requests are grouped in; the module fixes the HTTP path. */
  datatype ApiModule = AuthRequests | UserRequests | ReadRequests | WriteRequests | ExecuteRequests

  function PathOf(m: ApiModule): string {
    match m
    case AuthRequests => "/auth"
    case UserRequests => "/user"
    case ReadRequests => "/read"
    case WriteRequests => "/write"
    case ExecuteRequests => "/execute"
  }

  /** The module whose requests are served at `path`, if any. */
  function ModuleAt(path: string): (r: Option<ApiModule>)
    ensures r.Some? ==> PathOf(r.value) == path
  {
    if path == "/auth" then Some(AuthRequests)
    else if path == "/user" then Some(UserRequests)
    else if path == "/read" then Some(ReadRequests)
    else if path == "/write" then Some(WriteRequests)
    else if path == "/execute" then Some(ExecuteRequests)
    else None
  }

  /** Each module has its own path, and the path names the module back. */
  lemma PathRoundTrip(m: ApiModule)
    ensures ModuleAt(PathOf(m)) == Some(m)
  {
    match m
    case AuthRequests =>
    case UserRequests => assert PathOf(m) != "/auth";
    case ReadRequests => assert PathOf(m) != "/auth" && PathOf(m) != "/user";
    case WriteRequests => assert PathOf(m) != "/auth" && PathOf(m) != "/user" && PathOf(m) != "/read";
    case ExecuteRequests =>
  }

  lemma PathInjective(a: ApiModule, b: ApiModule)
    ensures PathOf(a) == PathOf(b) ==> a == b
  {
    PathRoundTrip(a);
    PathRoundTrip(b);
  }

  /** An ASCII letter in lower case; every other character unchanged. */
  function LowerChar(c: char): char {
    if 'A' <= c <= 'Z' then (c as int + 32) as char else c
  }

  /** A header name in lower case: HTTP header names are case-insensitive. */
  function Lower(name: string): (r: string)
    ensures |r| == |name|
    ensures forall i :: 0 <= i < |name| ==> r[i] == LowerChar(name[i])
  {
    if name == [] then [] else [LowerChar(name[0])] + Lower(name[1..])
  }

  /**
   * A header map. Names are stored in lower case, as the `http` crate's
   * `HeaderMap` stores them, so `Authorization` and `authorization` name
   * one header.
   */
  type Headers = map<string, string>

  /** The headers `h` with header `name`, in whatever case it is written, set to `value`. */
  function WithHeader(h: Headers, name: string, value: string): (r: Headers)
    ensures Lower(name) in r && r[Lower(name)] == value
    ensures forall k :: k != Lower(name) ==> (k in r <==> k in h) && (k in h ==> r[k] == h[k])
  {
    h[Lower(name) := value]
  }

  /**
   * The documented headers under their stored, lower-case names; the
   * documentation writes them `Content-Type`, `Authorization`, `X-Api-Key`
   * and `X-Api-Secret`.
   */
  const CONTENT_TYPE: string := "content-type"
  const JSON_CONTENT_TYPE: string := "application/json"
  const AUTHORIZATION: string := "authorization"
  const API_KEY: string := "x-api-key"
  const API_SECRET: string := "x-api-secret"

  /** The two ways of authenticating a call. */
  datatype Credentials = Jwt(token: string) | ApiKey(key: string, secret: string)

  /** The headers that carry the credentials. */
  function CredentialHeaders(c: Credentials): Headers {
    match c
    case Jwt(token) => map[AUTHORIZATION := token]
    case ApiKey(key, secret) => map[API_KEY := key, API_SECRET := secret]
  }

  /** The documented acceptance rule: a JWT, or both an API key and an API secret. */
  predicate Authenticates(h: Headers) {
    AUTHORIZATION in h || (API_KEY in h && API_SECRET in h)
  }

  /**
   * Reads the credentials of a request that uses exactly one scheme;
   * `None` when neither scheme is complete or both are present.
   */
  function CredentialsOf(h: Headers): (r: Option<Credentials>)
    ensures r.Some? ==> Authenticates(h)
    ensures Authenticates(h) && !(AUTHORIZATION in h && API_KEY in h && API_SECRET in h) ==> r.Some?
    ensures r.Some? && r.value.Jwt? ==> AUTHORIZATION in h && h[AUTHORIZATION] == r.value.token
    ensures r.Some? && r.value.ApiKey? ==>
      API_KEY in h && API_SECRET in h && h[API_KEY] == r.value.key && h[API_SECRET] == r.value.secret
  {
    var jwt := AUTHORIZATION in h;
    var pair := API_KEY in h && API_SECRET in h;
    if jwt && !pair then Some(Jwt(h[AUTHORIZATION]))
    else if pair && !jwt then Some(ApiKey(h[API_KEY], h[API_SECRET]))
    else None
  }

  /**
   * Credential headers authenticate whatever case their names are written
   * in: any spelling that folds to the stored name counts.
   */
  lemma AnySpellingAuthenticates(token: string, key: string, secret: string, jwtName: string, keyName: string, secretName: string)
    requires Lower(jwtName) == AUTHORIZATION && Lower(keyName) == API_KEY && Lower(secretName) == API_SECRET
    ensures CredentialsOf(WithHeader(map[], jwtName, token)) == Some(Jwt(token))
    ensures CredentialsOf(WithHeader(WithHeader(map[], keyName, key), secretName, secret)) == Some(ApiKey(key, secret))
  {
  }

  /** Headers built from credentials authenticate, and give back the same credentials. */
  lemma CredentialsRoundTrip(c: Credentials, extra: Headers)
    requires AUTHORIZATION !in extra && API_KEY !in extra && API_SECRET !in extra
    ensures Authenticates(extra + CredentialHeaders(c))
    ensures CredentialsOf(extra + CredentialHeaders(c)) == Some(c)
  {
  }

  /** An outgoing call. */
  datatype HttpRequest = HttpRequest(verb: Verb, path: string, headers: Headers, body: Json)

  /**
   * A call of request `typeName` with fields `params`, declared in module
   * `m`, sent with credentials `c`.
   */
  function BuildRequest(m: ApiModule, typeName: string, params: Json, c: Credentials): (r: HttpRequest)
    ensures r.verb == Post
    ensures CONTENT_TYPE in r.headers && r.headers[CONTENT_TYPE] == JSON_CONTENT_TYPE
    ensures Authenticates(r.headers) && CredentialsOf(r.headers) == Some(c)
    ensures ModuleAt(r.path) == Some(m)
    ensures Field(r.body, "type") == Some(JStr(typeName))
    ensures Field(r.body, "params") == Some(params)
  {
    var base := map[CONTENT_TYPE := JSON_CONTENT_TYPE];
    CredentialsRoundTrip(c, base);
    PathRoundTrip(m);
    HttpRequest(Post, PathOf(m), base + CredentialHeaders(c), TypedBody(typeName, params))
  }

  /** The documented example: reading one deployment by id. */
  lemma GetDeploymentExample(c: Credentials)
    ensures var r := BuildRequest(ReadRequests, "GetDeployment",
                                  JObj([Member("deployment", JStr("66113df3abe32960b87018dd"))]), c);
      && r.path == "/read"
      && Field(r.body, "type") == Some(JStr("GetDeployment"))
      && Field(r.body, "params") == Some(JObj([Member("deployment", JStr("66113df3abe32960b87018dd"))]))
  {
  }

  /** An error answer: the top-level message and the ordered trace behind it. */
  datatype ErrorBody = ErrorBody(error: string, trace: seq<string>)

  function EncodeError(e: ErrorBody): (j: Json)
    ensures Field(j, "error") == Some(JStr(e.error))
    ensures Field(j, "trace") == Some(Strings(e.trace))
  {
    PairFields("error", JStr(e.error), "trace", Strings(e.trace));
    Pair("error", JStr(e.error), "trace", Strings(e.trace))
  }

  /** Reads an error answer: a string `error` and a `trace` array of strings. */
  function DecodeError(j: Json): (r: Option<ErrorBody>)
    ensures r.Some? ==> Field(j, "error") == Some(JStr(r.value.error))
    ensures r.Some? ==> Field(j, "trace") == Some(Strings(r.value.trace))
  {
    var message := Field(j, "error");
    var trace := Field(j, "trace");
    if message.Some? && message.value.JStr? && trace.Some? && trace.value.JArr? then
      match AsStrings(trace.value.items)
      case Some(lines) =>
        assert Strings(lines).items == trace.value.items;
        Some(ErrorBody(message.value.s, lines))
      case None => None
    else None
  }

  /** Error answers read back exactly, trace order included. */
  lemma {:induction false} ErrorRoundTrip(e: ErrorBody)
    ensures DecodeError(EncodeError(e)) == Some(e)
  {
    StringsRoundTrip(e.trace);
  }
}
