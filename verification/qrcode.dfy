/**
 * QR code generation for recommendors: the web target URL, the
 * mini-program path and its page/scene split, the fallback payload, and
 * the data-URL wrapping of an encoded image. The QR encoder, base64 and
 * the WeChat HTTP calls are parameters.
 */
module QRCode {
  import opened Wrappers
  import opened Text

  /** Reference definition: the least occurrence at or after `i`, or -1. */
  function IndexFrom(s: string, sub: string, i: nat): (r: int)
    ensures r == -1 || (i <= r && OccursAt(s, sub, r))
    ensures forall j :: i <= j && (r == -1 || j < r) ==> !OccursAt(s, sub, j)
    decreases |s| + 1 - i
  {
    if i + |sub| > |s| then -1
    else if s[i..i + |sub|] == sub then i
    else IndexFrom(s, sub, i + 1)
  }

  function IndexOf(s: string, sub: string): (r: int)
    ensures r == -1 <==> forall j :: !OccursAt(s, sub, j)
    ensures r >= 0 ==> OccursAt(s, sub, r) && forall j :: 0 <= j < r ==> !OccursAt(s, sub, j)
  {
    IndexFrom(s, sub, 0)
  }

  /** The hand-written `index` helper: a left-to-right scan of every start position. */
  method Index(s: string, sub: string) returns (r: int)
    ensures r == -1 <==> forall j :: !OccursAt(s, sub, j)
    ensures r >= 0 ==> OccursAt(s, sub, r) && forall j :: 0 <= j < r ==> !OccursAt(s, sub, j)
    ensures r == IndexOf(s, sub)
  {
    var i := 0;
    while i <= |s| - |sub|
      invariant 0 <= i && (i <= |s| - |sub| + 1 || i == 0)
      invariant forall j :: 0 <= j < i ==> !OccursAt(s, sub, j)
    {
      if s[i..i + |sub|] == sub {
        assert OccursAt(s, sub, i);
        return i;
      }
      i := i + 1;
    }
    return -1;
  }

  lemma IndexOfEmpty(s: string)
    ensures IndexOf(s, "") == 0
  {
    assert OccursAt(s, "", 0);
  }

  lemma IndexOfTooLong(s: string, sub: string)
    requires |sub| > |s|
    ensures IndexOf(s, sub) == -1
  {
  }

  /** For a one-character pattern an occurrence is just that character. */
  lemma OccursAtChar(s: string, c: char, i: int)
    ensures OccursAt(s, [c], i) <==> 0 <= i < |s| && s[i] == c
  {
    if 0 <= i < |s| {
      assert s[i..i + 1] == [s[i]];
    }
  }

  /** The position of the first '?', or -1 when there is none. */
  lemma FirstQuestionMark(path: string)
    ensures var idx := IndexOf(path, "?");
            (idx == -1 <==> '?' !in path)
            && (idx != -1 ==> 0 <= idx < |path| && path[idx] == '?' && '?' !in path[..idx])
  {
    var idx := IndexOf(path, "?");
    if idx != -1 {
      OccursAtChar(path, '?', idx);
      forall j | 0 <= j < idx ensures path[j] != '?' {
        OccursAtChar(path, '?', j);
      }
    } else {
      forall j | 0 <= j < |path| ensures path[j] != '?' {
        OccursAtChar(path, '?', j);
      }
    }
  }

  /** The `page` and `scene` sent to the mini-program code API: split at the first '?'. */
  function SplitPagePath(path: string): (r: (string, string))
    ensures '?' !in path ==> r == (path, "")
    ensures '?' in path ==> r.0 + "?" + r.1 == path && '?' !in r.0
  {
    FirstQuestionMark(path);
    var idx := IndexOf(path, "?");
    if idx != -1 then
      assert path == path[..idx] + "?" + path[idx + 1..];
      (path[..idx], path[idx + 1..])
    else
      (path, "")
  }

  /** Splitting then re-joining gives back the path; the split is a left inverse of joining with '?'. */
  lemma SplitJoin(page: string, scene: string)
    requires '?' !in page
    ensures SplitPagePath(page + "?" + scene) == (page, scene)
  {
    var path := page + "?" + scene;
    assert '?' in path by { assert path[|page|] == '?'; }
    var r := SplitPagePath(path);
    var i := IndexOf(path, "?");
    OccursAtChar(path, '?', |page|);
    OccursAtChar(path, '?', i);
    assert i == |page|;
  }

  datatype QRCodeConfig = QRCodeConfig(baseURL: string, minAppID: string, minAppPath: string, minAppSecret: string)

  const DataURLPrefix: string := "data:image/png;base64,"
  const DetailPage: string := "/pages/recommendor/detail"
  const FallbackPrefix: string := "https://open.weixin.qq.com/connect/qrconnect?appid="

  /**
   * The QR image library followed by base64: the encoded PNG as base64
   * text, or the library's error message.
   */
  type Encoder = string -> Result<string, string>

  function GenerateWebQRCode(url: string, encode: Encoder): (r: Result<string, string>)
    ensures encode(url).Ok? <==> r.Ok?
    ensures r.Ok? ==> r.value == DataURLPrefix + encode(url).value
    ensures r.Err? ==> r.error == "failed to generate QR code: " + encode(url).error
  {
    match encode(url)
    case Ok(b64) => Ok(DataURLPrefix + b64)
    case Err(e) => Err("failed to generate QR code: " + e)
  }

  /** The fallback text encoded when no app secret is configured. */
  function FallbackPayload(appID: string, path: string): (r: string)
    ensures |r| == |FallbackPrefix| + |appID| + 6 + |path|
    ensures HasPrefix(r, FallbackPrefix) && HasSuffix(r, "&path=" + path)
    ensures r[|FallbackPrefix|..|FallbackPrefix| + |appID|] == appID
  {
    var r := FallbackPrefix + appID + "&path=" + path;
    assert r[..|FallbackPrefix|] == FallbackPrefix;
    assert r[|FallbackPrefix|..|FallbackPrefix| + |appID|] == appID;
    assert r[|r| - |"&path=" + path|..] == "&path=" + path;
    r
  }

  /** What the WeChat code API answered; `errCode` is 0 unless the body is a JSON error. */
  datatype ApiResponse = ApiResponse(callError: Option<string>, errCode: int, errMsg: string, contentType: string, bodyBase64: string)

  /**
   * The access-token fetch and the HTTP call to the code API. The call
   * receives the token, page and scene the generator computes.
   */
  datatype WeChatApi = WeChatApi(token: (string, string) -> Result<string, string>, call: (string, string, string) -> ApiResponse)

  /** Decimal text of an integer as Go's `%d` prints it. */
  function IntToString(n: int): string {
    if n < 0 then "-" + NatToString(-n) else NatToString(n)
  }

  /** `generateWxappCodeFromAPI` after its I/O: the checks applied to the API's answer, in order. */
  function GenerateWxappCodeFromAPI(appID: string, appSecret: string, path: string, api: WeChatApi): (r: Result<string, string>)
    ensures api.token(appID, appSecret).Err? ==> r == Err("failed to get access token: " + api.token(appID, appSecret).error)
    ensures api.token(appID, appSecret).Ok? ==>
              var (page, scene) := SplitPagePath(path);
              var resp := api.call(api.token(appID, appSecret).value, page, scene);
              (r.Ok? <==> resp.callError.None? && resp.errCode == 0 && (resp.contentType == "image/jpeg" || resp.contentType == "image/png"))
              && (r.Ok? ==> r.value == DataURLPrefix + resp.bodyBase64)
              && (resp.callError.Some? ==> r == Err("failed to call WeChat API: " + resp.callError.value))
              && (resp.callError.None? && resp.errCode != 0 ==>
                    r == Err("WeChat API error [" + IntToString(resp.errCode) + "]: " + resp.errMsg))
              && (resp.callError.None? && resp.errCode == 0 && resp.contentType != "image/jpeg" && resp.contentType != "image/png" ==>
                    r == Err("unexpected content type: " + resp.contentType + ", expected image"))
  {
    match api.token(appID, appSecret)
    case Err(e) => Err("failed to get access token: " + e)
    case Ok(token) =>
      var (page, scene) := SplitPagePath(path);
      var resp := api.call(token, page, scene);
      if resp.callError.Some? then Err("failed to call WeChat API: " + resp.callError.value)
      else if resp.errCode != 0 then Err("WeChat API error [" + IntToString(resp.errCode) + "]: " + resp.errMsg)
      else if resp.contentType != "image/jpeg" && resp.contentType != "image/png" then
        Err("unexpected content type: " + resp.contentType + ", expected image")
      else Ok(DataURLPrefix + resp.bodyBase64)
  }

  /** The API is used iff a secret is configured; otherwise the fallback payload is encoded. */
  function GenerateWxappQRCode(appID: string, appSecret: string, path: string, encode: Encoder, api: WeChatApi): (r: Result<string, string>)
    ensures appSecret != "" ==> r == GenerateWxappCodeFromAPI(appID, appSecret, path, api)
    ensures appSecret == "" && r.Ok? ==>
              encode(FallbackPayload(appID, path)).Ok? && r.value == DataURLPrefix + encode(FallbackPayload(appID, path)).value
    ensures appSecret == "" ==> (r.Ok? <==> encode(FallbackPayload(appID, path)).Ok?)
  {
    if appSecret != "" then GenerateWxappCodeFromAPI(appID, appSecret, path, api)
    else
      match encode(FallbackPayload(appID, path))
      case Ok(b64) => Ok(DataURLPrefix + b64)
      case Err(e) => Err("failed to generate fallback QR code: " + e)
  }

  /** The web link of a recommendor: the site's detail route, the id read back from the last segment. */
  function WebURL(config: QRCodeConfig, id: nat): (u: string)
    ensures var p := config.baseURL + "/recommendors/";
            HasPrefix(u, p) && AllDigits(u[|p|..]) && DigitsValue(u[|p|..]) == id
  {
    var p := config.baseURL + "/recommendors/";
    DigitsOfNat(id);
    assert (p + NatToString(id))[|p|..] == NatToString(id);
    p + NatToString(id)
  }

  /** The mini-program path of a recommendor: the detail page with the id read back from `?id=`. */
  function WxPath(config: QRCodeConfig, id: nat): (u: string)
    ensures var p := config.minAppPath + DetailPage + "?id=";
            HasPrefix(u, p) && AllDigits(u[|p|..]) && DigitsValue(u[|p|..]) == id
  {
    var p := config.minAppPath + DetailPage + "?id=";
    DigitsOfNat(id);
    assert (p + NatToString(id))[|p|..] == NatToString(id);
    p + NatToString(id)
  }

  datatype QRPair = QRPair(web: string, wxapp: string)

  /** Both codes, or an error and two empty strings. */
  function GenerateRecommendorQRs(config: QRCodeConfig, id: nat, encode: Encoder, api: WeChatApi): (r: (QRPair, Option<string>))
    ensures r.1.Some? ==> r.0 == QRPair("", "")
    ensures r.1.None? ==> HasPrefix(r.0.web, DataURLPrefix) && HasPrefix(r.0.wxapp, DataURLPrefix)
    ensures r.1.None? ==> encode(WebURL(config, id)).Ok? && r.0.web == DataURLPrefix + encode(WebURL(config, id)).value
    ensures r.1.None? <==> encode(WebURL(config, id)).Ok?
                           && GenerateWxappQRCode(config.minAppID, config.minAppSecret, WxPath(config, id), encode, api).Ok?
  {
    match GenerateWebQRCode(WebURL(config, id), encode)
    case Err(e) => (QRPair("", ""), Some("failed to generate web QR code: " + e))
    case Ok(web) =>
      match GenerateWxappQRCode(config.minAppID, config.minAppSecret, WxPath(config, id), encode, api)
      case Err(e) => (QRPair("", ""), Some("failed to generate Mini Program QR code: " + e))
      case Ok(wx) =>
        assert (DataURLPrefix + encode(WebURL(config, id)).value)[..|DataURLPrefix|] == DataURLPrefix;
        assert HasPrefix(wx, DataURLPrefix) by {
          var b := if config.minAppSecret != "" then api.call(api.token(config.minAppID, config.minAppSecret).value,
                     SplitPagePath(WxPath(config, id)).0, SplitPagePath(WxPath(config, id)).1).bodyBase64
                   else encode(FallbackPayload(config.minAppID, WxPath(config, id))).value;
          assert wx == DataURLPrefix + b;
          assert (DataURLPrefix + b)[..|DataURLPrefix|] == DataURLPrefix;
        }
        (QRPair(web, wx), None)
  }

  lemma DetailPageHasNoQuestionMark()
    ensures '?' !in DetailPage
  {
  }

  lemma IdSuffixShape(id: nat)
    ensures var t := "?id=" + NatToString(id);
            t[0] == '?' && t[1..] == "id=" + NatToString(id)
  {
  }

  /**
   * With a mini-program base path free of '?', the API receives the detail
   * page as `page` and `id=<id>` as `scene`.
   */
  lemma WxSceneCarriesId(config: QRCodeConfig, id: nat)
    requires '?' !in config.minAppPath
    ensures SplitPagePath(WxPath(config, id)) == (config.minAppPath + DetailPage, "id=" + NatToString(id))
  {
    DetailPageHasNoQuestionMark();
    var page := config.minAppPath + DetailPage;
    assert '?' !in page;
    IdSuffixShape(id);
    var t := "?id=" + NatToString(id);
    assert WxPath(config, id) == page + "?" + t[1..];
    SplitJoin(page, t[1..]);
  }
}
