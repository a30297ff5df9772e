/** The shared axios client's two interceptors. The request interceptor reads
    the stored token and attaches it as a bearer credential; the response
    interceptor ends the session when the server answers 401. */
module ApiClient {
  import opened Common
  import opened Session
  import opened Payloads

  const AuthorizationHeader := "Authorization"
  const BearerPrefix := "Bearer "
  const LoginPath := "/login"

  /** The `Authorization` value a request carries for a stored token: one
      exactly when the token is truthy. */
  function BearerFor(token: Option<string>): (r: Option<string>)
    ensures r.Some? <==> Truthy(token)
    ensures r.Some? ==>
      && |r.value| > |BearerPrefix|
      && r.value[..|BearerPrefix|] == BearerPrefix
      && r.value[|BearerPrefix|..] == token.value
  {
    if Truthy(token) then Some(BearerPrefix + token.value) else None
  }

  /** JSON's insignificant whitespace. */
  predicate IsJsonSpace(c: char)
  {
    c == ' ' || c == '\t' || c == '\n' || c == '\r'
  }

  /** The characters a JSON value can begin with. */
  const JsonValueStarts := "{[\"-0123456789tfn"

  /** Whether the text, after leading JSON whitespace, begins as a JSON value
      can; `JSON.parse` fails on every text for which this is false. */
  predicate MayBeJson(text: string)
  {
    if text == [] then false
    else if IsJsonSpace(text[0]) then MayBeJson(text[1..])
    else text[0] in JsonValueStarts
  }

  /** axios's default response transform when the request sets no
      `responseType`: a text body is run through `JSON.parse`, and when that
      fails the text itself becomes `response.data`, without an error.
      `parse(text)` is the upload result a JSON text encodes, or None when
      `JSON.parse` fails on it. */
  function ResponseData(text: string, parse: string -> Option<ReportUploadResult>): (r: UploadBody)
    ensures !MayBeJson(text) ==> r == RawText(text)
    ensures r.Parsed? ==> parse(text) == Some(r.result)
  {
    if MayBeJson(text) && parse(text).Some? then Parsed(parse(text).value) else RawText(text)
  }

  /** An outgoing request's configuration; only its headers matter here. */
  class RequestConfig {
    var headers: map<string, string>

    constructor (headers: map<string, string>)
      ensures this.headers == headers
    {
      this.headers := headers;
    }
  }

  /** The request interceptor: with a truthy stored token the `Authorization`
      header becomes `Bearer <token>`; otherwise the configuration is passed on
      untouched. */
  method OnRequest(config: RequestConfig, storage: SessionStorage) returns (out: RequestConfig)
    modifies config
    ensures out == config
    ensures BearerFor(storage.token).Some? ==>
      config.headers == old(config.headers)[AuthorizationHeader := BearerFor(storage.token).value]
    ensures BearerFor(storage.token).None? ==> config.headers == old(config.headers)
  {
    var token := storage.token;
    if token.Some? && token.value != [] {
      config.headers := config.headers[AuthorizationHeader := BearerPrefix + token.value];
    }
    return config;
  }

  /** A successful response is handed on as it arrived. */
  method OnResponse<T>(response: T) returns (out: T)
    ensures out == response
  {
    return response;
  }

  /** The response interceptor's error path. A 401 answer clears both
      storage keys and sends the browser to the login page; any other failure
      (another status, or no response) leaves storage as it was. The error is
      rejected to the caller in every case. */
  method OnResponseError(e: HttpError, storage: SessionStorage) returns (rejected: HttpError, redirect: Option<string>)
    modifies storage
    ensures rejected == e
    ensures IsUnauthorized(e) ==>
      storage.token == None && storage.user == None && redirect == Some(LoginPath)
    ensures !IsUnauthorized(e) ==>
      storage.token == old(storage.token) && storage.user == old(storage.user) && redirect == None
  {
    redirect := None;
    if IsUnauthorized(e) {
      storage.Clear();
      redirect := Some(LoginPath);
    }
    return e, redirect;
  }
}
