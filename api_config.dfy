/** The shared HTTP client: default headers, the request interceptor that
    attaches the stored bearer token, and the response interceptor that drops
    the token on 401 and passes every error on to the caller. */
module ApiConfig {
  import opened Common
  import opened Browser

  /** The `response` part of a failed request: its status and the server's
      `data.message`, if any. */
  datatype ErrorResponse = ErrorResponse(status: int, message: Option<string>)

  /** What a failed call throws: an optional server response, and the
      `message` of the value when it is an `Error` instance (absent when a
      non-Error value was thrown). */
  datatype Thrown = Thrown(response: Option<ErrorResponse>, errorMessage: Option<string>)

  /** `err instanceof Error ? err.message : fallback`. */
  function ErrorText(err: Thrown, fallback: string): (r: string)
    ensures err.errorMessage.Some? ==> r == err.errorMessage.value
    ensures err.errorMessage.None? ==> r == fallback
  {
    if err.errorMessage.Some? then err.errorMessage.value else fallback
  }

  const AuthorizationHeader := "Authorization"

  /** The headers every request of the client starts from. */
  const DefaultHeaders: map<string, string> := map["Content-Type" := "application/json"]

  /** The headers after the request interceptor: `Authorization` becomes
      "Bearer " + token when a non-empty token is stored, and nothing else
      changes. */
  function WithBearer(headers: map<string, string>, token: Option<string>): (h: map<string, string>)
    ensures Truthy(token) ==> AuthorizationHeader in h && h[AuthorizationHeader] == "Bearer " + token.value
    ensures !Truthy(token) ==> h == headers
    ensures h.Keys == headers.Keys + (if Truthy(token) then {AuthorizationHeader} else {})
    ensures forall k :: k in headers && k != AuthorizationHeader ==> h[k] == headers[k]
  {
    if Truthy(token) then headers[AuthorizationHeader := "Bearer " + token.value] else headers
  }

  /** Whether the response interceptor drops the stored token for this error. */
  predicate IsUnauthorized(err: Thrown)
  {
    err.response.Some? && err.response.value.status == 401
  }

  /** A request being prepared: the interceptor edits its headers in place. */
  class RequestConfig {
    var httpMethod: string
    var url: string
    var headers: map<string, string>
    var body: Option<string>

    /** A request of the client: its own headers laid over the defaults. */
    constructor (httpMethod: string, url: string, headers: map<string, string>, body: Option<string>)
      ensures this.httpMethod == httpMethod && this.url == url && this.body == body
      ensures this.headers == DefaultHeaders + headers
    {
      this.httpMethod := httpMethod;
      this.url := url;
      this.headers := DefaultHeaders + headers;
      this.body := body;
    }
  }

  /** The request interceptor: reads the stored token and, when there is
      one, sets the bearer header on the outgoing request, which it returns. */
  method InterceptRequest(config: RequestConfig, storage: TokenStorage) returns (out: RequestConfig)
    modifies config`headers
    ensures out == config
    ensures config.headers == WithBearer(old(config.headers), storage.token)
    ensures config.httpMethod == old(config.httpMethod) && config.url == old(config.url)
    ensures config.body == old(config.body)
  {
    var token := storage.GetItem();
    if Truthy(token) {
      config.headers := config.headers[AuthorizationHeader := "Bearer " + token.value];
    }
    out := config;
  }

  /** The response interceptor applied to a settled call: a response passes
      through untouched; an error is handed back unchanged after removing the
      stored token when its status is 401. */
  method InterceptResponse<R>(outcome: Result<R, Thrown>, storage: TokenStorage) returns (settled: Result<R, Thrown>)
    modifies storage
    ensures settled == outcome
    ensures outcome.Failure? && IsUnauthorized(outcome.error) ==> storage.token == None
    ensures !(outcome.Failure? && IsUnauthorized(outcome.error)) ==> storage.token == old(storage.token)
  {
    if outcome.Failure? && IsUnauthorized(outcome.error) {
      storage.RemoveItem();
    }
    settled := outcome;
  }
}
