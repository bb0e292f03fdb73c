/**
 * The admin site's upload helpers: the endpoint per kind of upload, the
 * message shown when an upload fails, the image check run before an
 * upload starts, and the extension helper.
 */
module UploadClient {
  import opened Wrappers
  import opened Text
  import opened Session
  import opened ApiClient
  import Upload

  /** The form field every upload posts its file under. */
  const FieldName: string := "file"

  /** `uploadAvatar`, `uploadImage`, `uploadDocument`: the path below the API base. */
  function EndpointFor(kind: Upload.Endpoint): (path: string)
    ensures HasPrefix(path, "/v1/upload/")
    ensures kind == Upload.Avatar <==> path == "/v1/upload/avatar"
    ensures kind == Upload.Image <==> path == "/v1/upload/image"
    ensures kind == Upload.Document <==> path == "/v1/upload/document"
  {
    match kind
    case Avatar => "/v1/upload/avatar"
    case Image => "/v1/upload/image"
    case Document => "/v1/upload/document"
  }

  const UploadFailed: string := "文件上传失败"
  const Uploaded: string := "文件上传成功"

  /** `error.response?.data?.error || error.response?.data?.message || '文件上传失败'`. */
  function UploadErrorText(f: Failure): (text: string)
    ensures f.Responded? && Truthy(f.dataError) ==> text == f.dataError.value
    ensures f.Responded? && !Truthy(f.dataError) && Truthy(f.dataMessage) ==> text == f.dataMessage.value
    ensures !(f.Responded? && (Truthy(f.dataError) || Truthy(f.dataMessage))) ==> text == UploadFailed
    ensures text != ""
  {
    if f.Responded? && Truthy(f.dataError) then f.dataError.value
    else if f.Responded? && Truthy(f.dataMessage) then f.dataMessage.value
    else UploadFailed
  }

  /**
   * `uploadFile`: success is announced once the request resolves; a
   * failure passes the global interceptor first and then shows the
   * upload's own text, and is rethrown.
   */
  function UploadFile<T>(reply: Result<T, Failure>, s: Storage): (r: Call<T>)
    ensures r.outcome == reply
    ensures reply.Ok? ==> r.notices == [Uploaded] && r.storage == s
    ensures reply.Err? ==> r.notices == [InterceptResponse(reply.error, s).notice, UploadErrorText(reply.error)]
                           && r.storage == InterceptResponse(reply.error, s).storage
  {
    match reply
    case Ok(_) => Call(s, [Uploaded], None, reply)
    case Err(f) =>
      var reaction := InterceptResponse(f, s);
      Call(reaction.storage, [reaction.notice, UploadErrorText(f)], reaction.redirect, reply)
  }

  /** The browser-side list of image types; membership is exact. */
  const ImageTypes: seq<string> := ["image/jpeg", "image/jpg", "image/png", "image/gif", "image/webp"]

  const TypeNotice: string := "只支持 JPG、PNG、GIF、WebP 格式的图片"

  function SizeNotice(maxSizeMB: nat): string {
    "文件大小不能超过 " + NatToString(maxSizeMB) + "MB"
  }

  /**
   * `validateImageFile`: the size bound first, then the exact type; each
   * refusal shows one notice, acceptance none.
   */
  function ValidateImageFile(size: nat, contentType: string, maxSizeMB: nat): (r: (bool, seq<string>))
    ensures r.0 <==> size <= maxSizeMB * 1024 * 1024 && contentType in ImageTypes
    ensures r.0 ==> r.1 == []
    ensures size > maxSizeMB * 1024 * 1024 ==> r.1 == [SizeNotice(maxSizeMB)]
    ensures size <= maxSizeMB * 1024 * 1024 && contentType !in ImageTypes ==> r.1 == [TypeNotice]
  {
    if size > maxSizeMB * 1024 * 1024 then (false, [SizeNotice(maxSizeMB)])
    else if contentType !in ImageTypes then (false, [TypeNotice])
    else (true, [])
  }

  /**
   * An image the browser accepts with the default 2 MB bound also passes
   * the server's avatar checks; the converse fails, since the server
   * matches types by prefix.
   */
  lemma ClientCheckImpliesServerCheck(size: nat, contentType: string)
    requires ValidateImageFile(size, contentType, 2).0
    ensures Upload.ValidateFileType(contentType, Upload.ConfigFor(Upload.Avatar).allowedTypes).None?
    ensures Upload.ValidateFileSize(size, Upload.ConfigFor(Upload.Avatar).maxSize).None?
  {
    var i :| 0 <= i < |ImageTypes| && ImageTypes[i] == contentType;
    assert ImageTypes == Upload.AllowedImageTypes;
    assert HasPrefix(contentType, Upload.AllowedImageTypes[i]);
  }

  lemma ServerAcceptsWhatClientRefuses()
    ensures !ValidateImageFile(10, "image/png; charset=binary", 2).0
    ensures Upload.ValidateFileType("image/png; charset=binary", Upload.ConfigFor(Upload.Avatar).allowedTypes).None?
  {
    Upload.ParameterisedTypeAccepted();
    assert "image/png; charset=binary" != ImageTypes[2];
  }

  /** JavaScript's `x >>> 0`: the integer taken modulo 2^32. */
  function ToUint32(x: int): (r: nat)
    ensures r < 0x1_0000_0000
    ensures 0 <= x < 0x1_0000_0000 ==> r == x
  {
    x % 0x1_0000_0000
  }

  /** `getFileExtension`: `filename.slice((filename.lastIndexOf('.') - 1 >>> 0) + 2)`. */
  function GetFileExtension(filename: string): (e: string)
    ensures HasSuffix(filename, e)
  {
    SliceFrom(filename, ToUint32(LastIndexOf(filename, '.') - 1) + 2)
  }

  /**
   * The text after the last dot; nothing when there is no dot or the only
   * dot leads the name (the subtraction wraps to 2^32 - 1 or 2^32 - 2).
   */
  lemma ExtensionAfterLastDot(filename: string)
    requires |filename| < 0x1_0000_0000
    ensures LastIndexOf(filename, '.') <= 0 ==> GetFileExtension(filename) == ""
    ensures LastIndexOf(filename, '.') >= 1 ==>
              GetFileExtension(filename) == filename[LastIndexOf(filename, '.') + 1..]
              && '.' !in GetFileExtension(filename)
  {
    var i := LastIndexOf(filename, '.');
    if i <= 0 {
      WrapNegative(i - 1);
    } else {
      var e := filename[i + 1..];
      assert GetFileExtension(filename) == e;
      assert forall k :: 0 <= k < |e| ==> e[k] == filename[i + 1 + k];
    }
  }

  /** A negative number above -2^32 wraps to itself plus 2^32. */
  lemma WrapNegative(x: int)
    requires -0x1_0000_0000 <= x < 0
    ensures ToUint32(x) == x + 0x1_0000_0000
  {
  }

  /**
   * For a plain file name with a dot past its first character, the
   * browser's extension is the server's `filepath.Ext` without the dot.
   */
  lemma {:induction false} ExtensionMatchesServer(filename: string)
    requires |filename| < 0x1_0000_0000
    requires '/' !in filename
    requires LastIndexOf(filename, '.') >= 1
    ensures "." + GetFileExtension(filename) == Upload.Ext(filename)
  {
    ExtensionAfterLastDot(filename);
    LastDotStartsExt(filename);
    var i := LastIndexOf(filename, '.');
    var e := Upload.Ext(filename);
    assert filename[i..] == e;
    assert e == [e[0]] + e[1..];
    assert e[1..] == filename[i + 1..];
  }

  /** With no '/' in the name, the server's extension starts at the last dot. */
  lemma LastDotStartsExt(filename: string)
    requires '/' !in filename
    requires LastIndexOf(filename, '.') >= 1
    ensures var e := Upload.Ext(filename); e != "" && |e| <= |filename| && |filename| - |e| == LastIndexOf(filename, '.')
  {
    var i := LastIndexOf(filename, '.');
    var e := Upload.Ext(filename);
    assert filename[i] == '.';
    assert e != "";
    var p := |filename| - |e|;
    assert filename[p..] == e;
    assert filename[p] == '.';
  }
}
