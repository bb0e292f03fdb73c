/**
 * The admin site's HTTP client: the request interceptor that attaches
 * the bearer token, the global response interceptor, the error handler
 * every API wrapper calls, and the route guards of the router. A failed
 * call is described by what axios knows about it; the transport itself
 * is left out.
 */
module ApiClient {
  import opened Wrappers
  import opened Text
  import opened Session
  import RegionSelector

  /**
   * How a request failed: a response arrived (with the `error` and
   * `message` keys of its body, if any), only the request was sent, or it
   * never left.
   */
  datatype Failure = Responded(status: nat, dataError: Option<string>, dataMessage: Option<string>) | NoResponse | NotSent

  /**
   * The precedence both classifiers share: 401, 403, 404, any 5xx, then
   * the server's `error` text, then a generic message.
   */
  datatype Class = Unauthorized | Forbidden | Missing | ServerFault | Reported(text: string) | Unexplained
                 | Unreachable | Local

  function Classify(f: Failure): (c: Class)
    ensures c == Unauthorized <==> f.Responded? && f.status == 401
    ensures c == Forbidden <==> f.Responded? && f.status == 403
    ensures c == Missing <==> f.Responded? && f.status == 404
    ensures c == ServerFault <==> f.Responded? && f.status >= 500
    ensures c.Reported? <==> (f.Responded? && f.status !in {401, 403, 404} && f.status < 500 && Truthy(f.dataError))
    ensures c.Reported? ==> c.text == f.dataError.value
    ensures c == Unexplained <==> (f.Responded? && f.status !in {401, 403, 404} && f.status < 500 && !Truthy(f.dataError))
    ensures c == Unreachable <==> f.NoResponse?
    ensures c == Local <==> f.NotSent?
  {
    match f
    case Responded(status, dataError, _) =>
      if status == 401 then Unauthorized
      else if status == 403 then Forbidden
      else if status == 404 then Missing
      else if status >= 500 then ServerFault
      else if Truthy(dataError) then Reported(dataError.value)
      else Unexplained
    case NoResponse => Unreachable
    case NotSent => Local
  }

  /** A 500 whose body carries an `error` text still gets the fixed server message. */
  lemma StatusBeatsServerText(text: string)
    requires text != ""
    ensures Classify(Responded(500, Some(text), None)) == ServerFault
  {
  }

  /** The request's headers; only `Authorization` matters here. */
  type Headers = map<string, string>

  /** The request interceptor: a stored token becomes `Authorization: Bearer <token>`. */
  function InterceptRequest(headers: Headers, s: Storage): (r: Headers)
    ensures Truthy(s.token) ==> r == headers["Authorization" := "Bearer " + s.token.value]
    ensures !Truthy(s.token) ==> r == headers
  {
    if Truthy(s.token) then headers["Authorization" := "Bearer " + s.token.value] else headers
  }

  /** What the global interceptor shows, and whether it removed the token and left for /login. */
  datatype Reaction = Reaction(storage: Storage, notice: string, redirect: Option<string>)

  const SessionExpired: string := "登录已过期，请重新登录"

  /** The global response interceptor: one notice per failure, then the error is passed on. */
  function InterceptResponse(f: Failure, s: Storage): (r: Reaction)
    ensures Classify(f) == Unauthorized ==> r == Reaction(s.(token := None), SessionExpired, Some("/login"))
    ensures Classify(f) != Unauthorized ==> r.storage == s && r.redirect.None?
    ensures Classify(f).Reported? ==> r.notice == Classify(f).text
    ensures Classify(f) == ServerFault ==> r.notice == "服务器错误，请稍后重试"
  {
    match f
    case Responded(status, dataError, _) =>
      if status == 401 then Reaction(s.(token := None), SessionExpired, Some("/login"))
      else if status == 403 then Reaction(s, "没有权限访问", None)
      else if status == 404 then Reaction(s, "请求的资源不存在", None)
      else if status >= 500 then Reaction(s, "服务器错误，请稍后重试", None)
      else if Truthy(dataError) then Reaction(s, dataError.value, None)
      else Reaction(s, "网络错误，请稍后重试", None)
    case NoResponse => Reaction(s, "网络连接失败，请检查网络", None)
    case NotSent => Reaction(s, "请求失败，请稍后重试", None)
  }

  /** A 401 removes the token but keeps the stored user. */
  lemma UnauthorizedKeepsUser(f: Failure, s: Storage)
    requires Classify(f) == Unauthorized
    ensures InterceptResponse(f, s).storage.token.None?
    ensures InterceptResponse(f, s).storage.user == s.user
  {
  }

  const DefaultMessage: string := "操作失败"

  /** `handleError`: the same precedence, with the caller's message as the fallback; storage is not touched. */
  function HandleError(f: Failure, defaultMessage: string): (notice: string)
    ensures Classify(f).Reported? ==> notice == Classify(f).text
    ensures Classify(f) == Unexplained || Classify(f) == Local ==> notice == defaultMessage
    ensures Classify(f) == Unauthorized ==> notice == "未授权，请重新登录"
    ensures Classify(f) == ServerFault ==> notice == "服务器错误，请稍后重试"
  {
    match f
    case Responded(status, dataError, _) =>
      if status == 401 then "未授权，请重新登录"
      else if status == 403 then "没有权限执行此操作"
      else if status == 404 then "请求的资源不存在"
      else if status >= 500 then "服务器错误，请稍后重试"
      else if Truthy(dataError) then dataError.value
      else defaultMessage
    case NoResponse => "网络错误，请检查网络连接"
    case NotSent => defaultMessage
  }

  /** What the page sees of one wrapped API call. */
  datatype Call<T> = Call(storage: Storage, notices: seq<string>, redirect: Option<string>, outcome: Result<T, Failure>)

  /**
   * One API wrapper call: on success the wrapper's success message (if it
   * has one) follows the resolved request; on failure the interceptor and
   * then `handleError` each show a notice and the original error is rethrown.
   */
  function Wrapped<T>(reply: Result<T, Failure>, s: Storage, defaultMessage: string, success: Option<string>): (r: Call<T>)
    ensures reply.Ok? ==> r.storage == s && r.redirect.None? && r.outcome == reply
                          && r.notices == (if success.Some? then [success.value] else [])
    ensures reply.Err? ==> r.outcome == reply && |r.notices| == 2
                           && r.notices[0] == InterceptResponse(reply.error, s).notice
                           && r.notices[1] == HandleError(reply.error, defaultMessage)
  {
    match reply
    case Ok(_) => Call(s, if success.Some? then [success.value] else [], None, reply)
    case Err(f) =>
      var reaction := InterceptResponse(f, s);
      Call(reaction.storage, [reaction.notice, HandleError(f, defaultMessage)], reaction.redirect, reply)
  }

  /**
   * A failed wrapped call shows two notices, never one, and the two differ
   * in wording for 401 and 403.
   */
  lemma FailedCallNotifiesTwice<T>(f: Failure, s: Storage, defaultMessage: string, success: Option<string>)
    ensures var r := Wrapped<T>(Err(f), s, defaultMessage, success);
            |r.notices| == 2 && r.outcome == Err(f)
            && (Classify(f) == Unauthorized || Classify(f) == Forbidden ==> r.notices[0] != r.notices[1])
  {
  }

  /** The router's guards: without a token both send the user to /login; neither looks at the role. */
  datatype Screen = RedirectTo(path: string) | Render

  function ProtectedRoute(s: Storage): (r: Screen)
    ensures r == RedirectTo("/login") <==> !Truthy(s.token)
  {
    if !Truthy(s.token) then RedirectTo("/login") else Render
  }

  function AdminRoute(s: Storage): (r: Screen)
    ensures r == ProtectedRoute(s)
  {
    if !Truthy(s.token) then RedirectTo("/login") else Render
  }

  /** A stored non-admin user with a token reaches the admin pages. */
  lemma AdminRouteIgnoresRole(s: Storage)
    requires Truthy(s.token) && !IsAdmin(s)
    ensures AdminRoute(s) == Render
  {
  }

  /** The bundled region data, or an empty province list when it cannot be read. */
  datatype RegionData = RegionData(provinces: seq<RegionSelector.Place>)

  function LoadRegionData(fetched: Option<RegionData>): (r: RegionData)
    ensures fetched.Some? ==> r == fetched.value
    ensures fetched.None? ==> r.provinces == []
  {
    if fetched.Some? then fetched.value else RegionData([])
  }
}
