/**
 * The mini-program's app object: how `request` builds the URL and
 * headers and settles a reply, `logout`, `checkLoginStatus`, and the
 * default parameters of the two list calls. Storage and `globalData`
 * are one record; `wx.request` is the transport outcome passed in.
 */
module WxApp {
  import opened Wrappers
  import opened Text
  import opened Params

  const ApiBaseUrl: string := "https://your-api-domain.com/api"

  /** The stored user record; its contents are not inspected. */
  datatype UserInfo = UserInfo(id: nat, nickname: string)

  /** `wx` storage and `globalData` together; `None` is a missing or cleared entry. */
  datatype Session = Session(storedToken: Option<string>, storedUser: Option<UserInfo>,
                             token: Option<string>, userInfo: Option<UserInfo>)

  /** `fullUrl`: a URL starting with "http" is used as is, anything else is put after the base. */
  function FullUrl(base: string, url: string): (r: string)
    ensures HasPrefix(url, "http") ==> r == url
    ensures !HasPrefix(url, "http") ==> r == base + url
  {
    if HasPrefix(url, "http") then url else base + url
  }

  /** Building the URL twice changes nothing once the base itself starts with "http". */
  lemma FullUrlIdempotent(base: string, url: string)
    requires HasPrefix(base, "http")
    ensures FullUrl(base, FullUrl(base, url)) == FullUrl(base, url)
  {
    if !HasPrefix(url, "http") {
      assert (base + url)[..4] == base[..4];
    }
  }

  /**
   * The request headers: JSON content type, overridden by the caller's
   * headers, then a bearer `Authorization` whenever a token is set, which
   * overrides the caller's.
   */
  function Headers(caller: map<string, string>, token: Option<string>): (h: map<string, string>)
    ensures "content-type" in h
    ensures "content-type" !in caller ==> h["content-type"] == "application/json"
    ensures Truthy(token) ==> "Authorization" in h && h["Authorization"] == "Bearer " + token.value
    ensures !Truthy(token) ==> ("Authorization" in h <==> "Authorization" in caller)
    ensures forall k :: k in caller && k != "Authorization" ==> k in h && h[k] == caller[k]
  {
    var h := map["content-type" := "application/json"] + caller;
    if Truthy(token) then h["Authorization" := "Bearer " + token.value] else h
  }

  /** The error fields of a reply body. */
  datatype Body = Body(error: Option<string>, message: Option<string>)

  /** What `wx.request` reports: a reply with its status, or a failure to reach the server. */
  datatype Transport = Answered(statusCode: int, body: Body) | Unreachable

  datatype Outcome = Resolved(body: Body) | Rejected(reason: Option<Body>)

  const RequestFailed: string := "请求失败"
  const NetworkFailed: string := "网络请求失败"
  const HomePage: string := "/pages/index/index"

  /** The toast of a rejected reply: `error`, else `message`, else "请求失败". */
  function ErrorText(b: Body): (t: string)
    ensures t != ""
    ensures Truthy(b.error) ==> t == b.error.value
    ensures !Truthy(b.error) && Truthy(b.message) ==> t == b.message.value
    ensures !Truthy(b.error) && !Truthy(b.message) ==> t == RequestFailed
  {
    if Truthy(b.error) then b.error.value else if Truthy(b.message) then b.message.value else RequestFailed
  }

  /** `logout`: both storage entries and both `globalData` fields go, and the app relaunches at home. */
  function Logout(s: Session): (r: (Session, string))
    ensures r.0.storedToken.None? && r.0.storedUser.None? && r.0.token.None? && r.0.userInfo.None?
    ensures r.1 == HomePage
  {
    (Session(None, None, None, None), HomePage)
  }

  /** How a request settled: the session after it, the outcome, the toast shown and where the app went. */
  datatype Settled = Settled(session: Session, outcome: Outcome, toast: Option<string>, relaunch: Option<string>)

  /**
   * `request` settling: a 2xx status resolves with the body; any other
   * status rejects with the error text as toast, and a 401 also logs out;
   * an unreachable server rejects with the network text.
   */
  function Settle(s: Session, t: Transport, showToast: bool): (r: Settled)
    ensures r.outcome.Resolved? <==> t.Answered? && 200 <= t.statusCode < 300
    ensures r.outcome.Resolved? ==> r == Settled(s, Resolved(t.body), None, None)
    ensures t.Answered? && !(200 <= t.statusCode < 300) ==>
              r.outcome == Rejected(Some(t.body)) && r.toast == (if showToast then Some(ErrorText(t.body)) else None)
    ensures t.Answered? && t.statusCode == 401 ==> r.session == Logout(s).0 && r.relaunch == Some(HomePage)
    ensures !(t.Answered? && t.statusCode == 401) ==> r.session == s && r.relaunch.None?
    ensures t.Unreachable? ==> r == Settled(s, Rejected(None), if showToast then Some(NetworkFailed) else None, None)
  {
    match t
    case Unreachable => Settled(s, Rejected(None), if showToast then Some(NetworkFailed) else None, None)
    case Answered(code, body) =>
      if 200 <= code < 300 then Settled(s, Resolved(body), None, None)
      else
        var toast := if showToast then Some(ErrorText(body)) else None;
        if code == 401 then Settled(Logout(s).0, Rejected(Some(body)), toast, Some(HomePage))
        else Settled(s, Rejected(Some(body)), toast, None)
  }

  /** After a 401 the next request carries no token, unless the caller passes one itself. */
  lemma UnauthorizedDropsToken(s: Session, body: Body, caller: map<string, string>, showToast: bool)
    requires "Authorization" !in caller
    ensures var after := Settle(s, Answered(401, body), showToast).session;
            "Authorization" !in Headers(caller, after.token)
  {
  }

  /** `checkLoginStatus`: what it does at launch. */
  datatype LaunchStep = Restored | NeedsLogin

  /** Both stored entries present: copy them into `globalData`; otherwise start the login flow. */
  function CheckLoginStatus(s: Session): (r: (Session, LaunchStep))
    ensures r.1 == Restored <==> Truthy(s.storedToken) && s.storedUser.Some?
    ensures r.1 == Restored ==> r.0 == s.(token := s.storedToken, userInfo := s.storedUser)
    ensures r.1 == NeedsLogin ==> r.0 == s
  {
    if Truthy(s.storedToken) && s.storedUser.Some? then (s.(token := s.storedToken, userInfo := s.storedUser), Restored)
    else (s, NeedsLogin)
  }

  /** After a logout the next launch asks for a login again. */
  lemma LaunchAfterLogoutLogsIn(s: Session)
    ensures CheckLoginStatus(Logout(s).0).1 == NeedsLogin
  {
  }

  /** A restored session sends its token on every request. */
  lemma RestoredSessionSendsToken(s: Session, caller: map<string, string>)
    requires CheckLoginStatus(s).1 == Restored
    ensures var h := Headers(caller, CheckLoginStatus(s).0.token);
            "Authorization" in h && h["Authorization"] == "Bearer " + s.storedToken.value
  {
  }

  /** `getRecommendors`: page 1 of 10, by rating descending, unless the caller says otherwise. */
  function RecommendorListParams(params: Params): (r: Params)
    ensures forall k :: k in params ==> k in r && r[k] == params[k]
    ensures SameBut(r, params, {"page", "page_size", "sort_by", "sort_order"})
  {
    Spread(map["page" := Count(1), "page_size" := Count(10), "sort_by" := Str("rating"), "sort_order" := Str("desc")], params)
  }

  /** `getDestinations`: page 1 of 10 unless the caller says otherwise. */
  function DestinationListParams(params: Params): (r: Params)
    ensures forall k :: k in params ==> k in r && r[k] == params[k]
    ensures SameBut(r, params, {"page", "page_size"})
    ensures "page" !in params ==> "page" in r && r["page"] == Count(1)
    ensures "page_size" !in params ==> "page_size" in r && r["page_size"] == Count(10)
  {
    Spread(map["page" := Count(1), "page_size" := Count(10)], params)
  }

  /** With no caller parameters, the recommendor list asks for the defaults. */
  lemma RecommendorDefaults()
    ensures var r := RecommendorListParams(map[]);
            "page" in r && r["page"] == Count(1) && "page_size" in r && r["page_size"] == Count(10)
            && "sort_by" in r && r["sort_by"] == Str("rating") && "sort_order" in r && r["sort_order"] == Str("desc")
  {
    var d := map["page" := Count(1), "page_size" := Count(10), "sort_by" := Str("rating"), "sort_order" := Str("desc")];
    assert RecommendorListParams(map[]) == d;
  }
}
