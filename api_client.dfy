/**
 * `apiRequest`: every call to the backend goes through it. It builds the
 * headers (JSON content type, and a Bearer credential when the call needs
 * authentication and a token is stored), sends the request, and turns the
 * response into the envelope's data or a `RequestError`, clearing the
 * stored token when an authenticated call is answered 401.
 *
 * `fetch` and `response.json()` are not modelled: the response is a
 * parameter, with its JSON body already parsed (`None` for an absent or
 * unparseable body). The browser's storage is the `TokenStore` object.
 */
module ApiClient {
  import opened Base
  import opened Text

  datatype Method = Get | Post | Put | Delete

  /**
   * The options handed to `apiRequest`. Header names are kept as `Headers`
   * stores them, in lower case.
   */
  datatype RequestInit<B> = RequestInit(httpMethod: Method, headers: map<string, string>, body: Option<B>)

  /** One call of `apiRequest(path, init, authRequired)`. */
  datatype Request<B> = Request(path: string, init: RequestInit<B>, authRequired: bool)

  const DefaultBaseUrl := "http://localhost:8080"

  /** The URL fetched: the configured base (or the local default) followed by the path. */
  function Url(configuredBase: Option<string>, path: string): (u: string)
    ensures configuredBase.None? ==> u == DefaultBaseUrl + path
    ensures configuredBase.Some? ==> u == configuredBase.value + path
  {
    configuredBase.GetOr(DefaultBaseUrl) + path
  }

  /**
   * The base is chosen with `??`, not `||`: a configured but empty base is
   * kept, so the URL is then the bare path; only an unset base falls back to
   * the local default.
   */
  lemma EmptyBaseKept(path: string)
    ensures Url(Some(""), path) == path
    ensures Url(None, path) != path && |Url(None, path)| == |DefaultBaseUrl| + |path|
  {
    assert Url(Some(""), path) == "" + path;
  }

  /** What `fetch` is called with: the URL, and the method and body of `init`. The headers are the `Headers` object. */
  datatype FetchCall<B> = FetchCall(url: string, httpMethod: Method, body: Option<B>)

  /** The uniform envelope `{status, message, data, errorCode?}`; only `message` and `data` are read. */
  datatype Envelope<T> = Envelope(message: Option<string>, data: T)

  /** What `fetch` answered, with the JSON body already parsed. */
  datatype Response<T> = Response(status: int, statusText: string, body: Option<Envelope<T>>)

  datatype RequestError = RequestError(message: string, status: int)

  datatype Result<T> = Ok(value: T) | Err(error: RequestError)

  /** The Fetch Standard's "ok status": 200 to 299 inclusive. */
  predicate IsOkStatus(status: int) {
    200 <= status <= 299
  }

  /** `body?.message || response.statusText || "Request failed"`: the first non-empty of the three. */
  function ErrorMessage(bodyMessage: Option<string>, statusText: string): (m: string)
    ensures m != ""
    ensures bodyMessage.Some? && bodyMessage.value != "" ==> m == bodyMessage.value
    ensures (bodyMessage.None? || bodyMessage.value == "") && statusText != "" ==> m == statusText
    ensures m in {bodyMessage.GetOr(""), statusText, "Request failed"}
  {
    if bodyMessage.Some? && bodyMessage.value != "" then bodyMessage.value
    else if statusText != "" then statusText
    else "Request failed"
  }

  /** What `apiRequest` resolves to, or the error it throws. */
  function Classify<T>(response: Response<T>): (r: Result<T>)
    ensures r.Ok? <==> IsOkStatus(response.status) && response.body.Some?
    ensures r.Ok? ==> r.value == response.body.value.data
    ensures !IsOkStatus(response.status) ==>
              r.Err? && r.error.status == response.status
              && r.error.message == ErrorMessage(if response.body.Some? then response.body.value.message else None,
                                                 response.statusText)
    ensures IsOkStatus(response.status) && response.body.None? ==>
              r == Err(RequestError("Invalid empty response", 500))
  {
    if !IsOkStatus(response.status) then
      var bodyMessage := if response.body.Some? then response.body.value.message else None;
      Err(RequestError(ErrorMessage(bodyMessage, response.statusText), response.status))
    else if response.body.None? then
      Err(RequestError("Invalid empty response", 500))
    else
      Ok(response.body.value.data)
  }

  /** `clearToken()` runs: the call needed authentication and was refused with 401. */
  predicate ClearsToken<T>(response: Response<T>, authRequired: bool) {
    !IsOkStatus(response.status) && response.status == 401 && authRequired
  }

  /** The token is cleared only on a failed call, and that failure carries status 401. */
  lemma ClearOnlyOnUnauthorized<T>(response: Response<T>, authRequired: bool)
    ensures ClearsToken(response, authRequired) <==>
              (Classify(response).Err? && Classify(response).error.status == 401 && response.status == 401 && authRequired)
    ensures Classify(response).Ok? ==> !ClearsToken(response, authRequired)
  {
  }

  /** Every error has a message, and its status is the response's own unless the response was ok. */
  lemma ErrorsAreInformative<T>(response: Response<T>)
    ensures Classify(response).Err? ==> Classify(response).error.message != ""
    ensures Classify(response).Err? ==>
              Classify(response).error.status == (if IsOkStatus(response.status) then 500 else response.status)
  {
  }

  /**
   * The headers sent: the caller's, with `content-type` forced to JSON and,
   * for an authenticated call with a stored token, `authorization` set to the
   * Bearer credential of section 2.1 of RFC 6750.
   */
  function OutgoingHeaders(init: map<string, string>, authRequired: bool, token: string): (h: map<string, string>)
    ensures "content-type" in h && h["content-type"] == "application/json"
    ensures authRequired && token != "" ==> "authorization" in h && h["authorization"] == "Bearer " + token
    ensures h.Keys == init.Keys + {"content-type"} + (if authRequired && token != "" then {"authorization"} else {})
    ensures forall k :: k in init && k != "content-type" && !(k == "authorization" && authRequired && token != "")
                        ==> h[k] == init[k]
  {
    var withType := init["content-type" := "application/json"];
    if authRequired && token != "" then withType["authorization" := "Bearer " + token] else withType
  }

  /** The `Headers` object `apiRequest` fills in place. */
  class Headers {
    var entries: map<string, string>

    /** `new Headers(init)`. */
    constructor (init: map<string, string>)
      ensures entries == init
    {
      entries := init;
    }

    /** `headers.set(name, value)`: names are stored lower-cased; a previous value is replaced. */
    method Set(name: string, value: string)
      modifies this
      ensures entries == old(entries)[ToLower(name) := value]
    {
      entries := entries[ToLower(name) := value];
    }
  }

  /** The stored session token; "" means no token is stored. */
  class TokenStore {
    var token: string

    constructor (stored: string)
      ensures token == stored
    {
      token := stored;
    }

    /** `clearToken()`. */
    method Clear()
      modifies this
      ensures token == ""
    {
      token := "";
    }
  }

  lemma HeaderNamesLowered()
    ensures ToLower("Content-Type") == "content-type"
    ensures ToLower("Authorization") == "authorization"
  {
    var c, a := ToLower("Content-Type"), ToLower("Authorization");
    forall i | 0 <= i < |c| ensures c[i] == "content-type"[i] { }
    forall i | 0 <= i < |a| ensures a[i] == "authorization"[i] { }
  }

  /** The headers as `apiRequest` builds them before calling `fetch`. */
  method BuildHeaders(init: map<string, string>, authRequired: bool, token: string) returns (headers: Headers)
    ensures fresh(headers)
    ensures headers.entries == OutgoingHeaders(init, authRequired, token)
  {
    HeaderNamesLowered();
    headers := new Headers(init);
    headers.Set("Content-Type", "application/json");
    if authRequired {
      if token != "" {
        headers.Set("Authorization", "Bearer " + token);
      }
    }
  }

  /**
   * `apiRequest`: what it fetches and with which headers, what it resolves to
   * (or throws), and the token left in the store. `configuredBase` is the
   * configured base URL, if any; `response` stands for what `fetch` answered.
   */
  method ApiRequest<B, T>(configuredBase: Option<string>, request: Request<B>, store: TokenStore, response: Response<T>)
    returns (fetched: FetchCall<B>, sent: Headers, result: Result<T>)
    modifies store
    ensures fetched == FetchCall(Url(configuredBase, request.path), request.init.httpMethod, request.init.body)
    ensures fresh(sent)
    ensures sent.entries == OutgoingHeaders(request.init.headers, request.authRequired, old(store.token))
    ensures result == Classify(response)
    ensures store.token == if ClearsToken(response, request.authRequired) then "" else old(store.token)
  {
    var token := store.token;
    sent := BuildHeaders(request.init.headers, request.authRequired, token);
    fetched := FetchCall(Url(configuredBase, request.path), request.init.httpMethod, request.init.body);
    if !IsOkStatus(response.status) {
      if response.status == 401 && request.authRequired {
        store.Clear();
      }
    }
    result := Classify(response);
  }
}
