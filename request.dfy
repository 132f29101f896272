/**
 * The HTTP client wrapper (src/utils/request.ts): a token getter and a logout handler injected
 * by `initRequest`, a request interceptor that adds the bearer header, and a response
 * interceptor that unwraps 2xx bodies and turns every other outcome into one error message.
 */
module Request {

  import opened Wrappers
  import opened Text

  const AuthorizationHeader: string := "Authorization"

  const DefaultLoginFailure: string := "用户名或密码错误"
  const SessionExpired: string := "登录已过期，请重新登录"
  const Forbidden: string := "没有权限访问"
  const NotFound: string := "请求的资源不存在"
  const InternalError: string := "服务器内部错误"
  const NetworkFailure: string := "网络连接异常"

  /** An outgoing request: its URL and its headers, which the interceptor updates in place. */
  class RequestConfig {
    var url: Option<string>
    var headers: map<string, string>

    constructor (url: Option<string>, headers: map<string, string>)
      ensures this.url == url && this.headers == headers
    {
      this.url := url;
      this.headers := headers;
    }
  }

  /** How a request ended, as axios reports it to the interceptors. */
  datatype Outcome<D> =
    | Responded(status: int, data: D, dataMessage: Option<string>)  // `response.data?.message`
    | NoResponse(errorMessage: Option<string>)                      // `error.message`

  /**
   * A request as the stores and API helpers issue it through the client: the method, the URL,
   * and the query parameters or body fields they pass (a `Put` body maps each key it has to a
   * text or to null).
   */
  datatype Call =
    | Get(url: string, params: map<string, string>)
    | Post(url: string, fields: seq<(string, string)>)
    | Put(url: string, body: map<string, Option<string>>)

  /** What the caller's promise settles to. */
  datatype Settled<D> = Resolved(data: D) | Rejected(message: string)

  /** axios's default success range */
  predicate IsSuccess(status: int) {
    200 <= status < 300
  }

  /** The header map after the request interceptor, for the token the getter returned. */
  function WithBearer(headers: map<string, string>, token: Option<string>): (h: map<string, string>)
    ensures Truthy(token) ==> AuthorizationHeader in h && h[AuthorizationHeader] == "Bearer " + token.value
    ensures !Truthy(token) ==> h == headers
    ensures forall k :: k != AuthorizationHeader ==>
      (k in h <==> k in headers) && (k in h ==> h[k] == headers[k])
  {
    if Truthy(token) then headers[AuthorizationHeader := "Bearer " + token.value] else headers
  }

  /** A 401 from a URL containing '/auth/login' means bad credentials, not an expired session. */
  predicate IsLoginUrl(url: Option<string>) {
    url.Some? && Contains(url.value, "/auth/login")
  }

  /** The failure triggers `handleLogout`: a 401 from any URL but the login endpoint. */
  predicate LogsOut<D>(o: Outcome<D>, url: Option<string>) {
    o.Responded? && !IsSuccess(o.status) && o.status == 401 && !IsLoginUrl(url)
  }

  /** The message the error interceptor computes for a failed request. */
  function ErrorMessage<D>(o: Outcome<D>, url: Option<string>): (m: string)
    requires !(o.Responded? && IsSuccess(o.status))
    ensures m != ""
    ensures o.Responded? && o.status == 401 && IsLoginUrl(url) ==>
      m == (if Truthy(o.dataMessage) then o.dataMessage.value else DefaultLoginFailure)
    ensures LogsOut(o, url) ==> m == SessionExpired
    ensures o.Responded? && o.status == 403 ==> m == Forbidden
    ensures o.Responded? && o.status == 404 ==> m == NotFound
    ensures o.Responded? && o.status == 500 ==> m == InternalError
    ensures o.Responded? && o.status !in {401, 403, 404, 500} ==>
      m == (if Truthy(o.dataMessage) then o.dataMessage.value else "HTTP Error: " + IntToString(o.status))
    ensures o.NoResponse? ==>
      m == (if Truthy(o.errorMessage) then o.errorMessage.value else NetworkFailure)
  {
    match o
    case Responded(status, _, dataMessage) =>
      if status == 401 then
        if IsLoginUrl(url) then (if Truthy(dataMessage) then dataMessage.value else DefaultLoginFailure)
        else SessionExpired
      else if status == 403 then Forbidden
      else if status == 404 then NotFound
      else if status == 500 then InternalError
      else if Truthy(dataMessage) then dataMessage.value
      else "HTTP Error: " + IntToString(status)
    case NoResponse(errorMessage) =>
      if Truthy(errorMessage) then errorMessage.value else NetworkFailure
  }

  /** The response interceptors together: a 2xx resolves to exactly its body, anything else rejects. */
  function Settle<D>(o: Outcome<D>, url: Option<string>): (s: Settled<D>)
    ensures o.Responded? && IsSuccess(o.status) <==> s.Resolved?
    ensures s.Resolved? ==> s.data == o.data
    ensures s.Rejected? ==> s.message == ErrorMessage(o, url) && s.message != ""
  {
    if o.Responded? && IsSuccess(o.status) then Resolved(o.data) else Rejected(ErrorMessage(o, url))
  }

  /**
   * The axios instance with its injected collaborators. `getToken` is the token getter;
   * `logoutCalls` counts how often the injected logout handler has run.
   */
  class Service {
    var getToken: () -> Option<string>
    var logoutCalls: nat

    /** Before `initRequest` the getter returns `null`. */
    constructor ()
      ensures getToken() == None && logoutCalls == 0
    {
      getToken := () => None;
      logoutCalls := 0;
    }

    /** `initRequest`: installs the store's token getter. */
    method InitRequest(tokenGetter: () -> Option<string>)
      modifies this
      ensures getToken == tokenGetter && logoutCalls == old(logoutCalls)
    {
      getToken := tokenGetter;
    }

    /** The request interceptor: adds `Authorization: Bearer <token>` when there is a token. */
    method InterceptRequest(config: RequestConfig)
      modifies config
      ensures config.url == old(config.url)
      ensures config.headers == WithBearer(old(config.headers), getToken())
    {
      var token := getToken();
      if Truthy(token) {
        config.headers := config.headers[AuthorizationHeader := "Bearer " + token.value];
      }
    }

    /** The response interceptor: settles the promise and runs the logout handler once on an expired session. */
    method InterceptResponse<D>(o: Outcome<D>, url: Option<string>) returns (s: Settled<D>)
      modifies this
      ensures s == Settle(o, url)
      ensures getToken == old(getToken)
      ensures logoutCalls == old(logoutCalls) + (if LogsOut(o, url) then 1 else 0)
    {
      if o.Responded? && IsSuccess(o.status) {
        return Resolved(o.data);
      }
      if LogsOut(o, url) {
        logoutCalls := logoutCalls + 1;
      }
      s := Rejected(ErrorMessage(o, url));
    }
  }

  /** A login 401 never logs out, and an expired session is reported as such. */
  lemma LoginFailureKeepsSession<D>(o: Outcome<D>, url: Option<string>)
    requires o.Responded? && o.status == 401
    ensures IsLoginUrl(url) <==> !LogsOut(o, url)
    ensures !IsLoginUrl(url) ==> Settle(o, url) == Rejected(SessionExpired)
  {
  }
}
