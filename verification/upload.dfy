/**
 * Server-side upload rules: content-type and size validation, generated
 * file names, the stored path and its public URL, and the three upload
 * endpoints with their configurations.
 */
module Upload {
  import opened Wrappers
  import opened Text
  import opened Http

  const AllowedImageTypes: seq<string> := ["image/jpeg", "image/jpg", "image/png", "image/gif", "image/webp"]

  const AllowedDocumentTypes: seq<string> := [
    "application/pdf",
    "application/msword",
    "application/vnd.openxmlformats-officedocument.wordprocessingml.document",
    "application/vnd.openxmlformats-officedocument.spreadsheetml.sheet",
    "application/vnd.ms-excel",
    "application/vnd.ms-powerpoint",
    "text/plain"
  ]

  const MiB: nat := 1024 * 1024
  const MaxFileSize: nat := 10 * MiB
  const MaxAvatarSize: nat := 2 * MiB

  const AvatarDir: string := "./uploads/avatars"
  const DocumentDir: string := "./uploads/documents"
  const ImageDir: string := "./uploads/images"

  datatype UploadConfig = UploadConfig(allowedTypes: seq<string>, maxSize: nat, directory: string, generateName: bool)

  /** The part of a multipart upload the server looks at. */
  datatype FileHeader = FileHeader(filename: string, contentType: string, size: nat)

  datatype UploadResult = UploadResult(fileName: string, filePath: string, fileSize: nat, contentType: string, url: string)

  predicate TypeAllowed(contentType: string, allowed: seq<string>) {
    exists i :: 0 <= i < |allowed| && HasPrefix(contentType, allowed[i])
  }

  /** The refusal names the content type: it reads back from between the fixed words. */
  function TypeError(contentType: string): (m: string)
    ensures |m| == |contentType| + 25 && HasPrefix(m, "file type ") && HasSuffix(m, " is not allowed")
    ensures m[10..|m| - 15] == contentType
  {
    var m := "file type " + contentType + " is not allowed";
    assert m[10..|m| - 15] == contentType;
    m
  }

  /** Scans the allowed list in order; a content type passes when some entry is a prefix of it. */
  function ValidateFileType(contentType: string, allowed: seq<string>): (r: Option<string>)
    ensures r.None? <==> TypeAllowed(contentType, allowed)
    ensures r.Some? ==> r.value == TypeError(contentType)
    decreases |allowed|
  {
    if |allowed| == 0 then Some(TypeError(contentType))
    else if HasPrefix(contentType, allowed[0]) then None
    else
      var rest := ValidateFileType(contentType, allowed[1..]);
      assert TypeAllowed(contentType, allowed) <==> TypeAllowed(contentType, allowed[1..]) by {
        if TypeAllowed(contentType, allowed) {
          var i :| 0 <= i < |allowed| && HasPrefix(contentType, allowed[i]);
          assert allowed[1..][i - 1] == allowed[i];
        }
        if TypeAllowed(contentType, allowed[1..]) {
          var i :| 0 <= i < |allowed[1..]| && HasPrefix(contentType, allowed[1..][i]);
          assert allowed[i + 1] == allowed[1..][i];
        }
      }
      rest
  }

  /** A parameterised content type is accepted, unlike the browser client's exact check. */
  lemma ParameterisedTypeAccepted()
    ensures ValidateFileType("image/png; charset=binary", AllowedImageTypes).None?
  {
    assert HasPrefix("image/png; charset=binary", AllowedImageTypes[2]);
  }

  /** The refusal names both sizes in decimal: the first number is the size, the last the limit. */
  function SizeError(size: nat, max: nat): (m: string)
    ensures |m| == 40 + |NatToString(size)| + |NatToString(max)| && HasPrefix(m, "file size ")
    ensures var d := m[10..10 + |NatToString(size)|]; AllDigits(d) && DigitsValue(d) == size
    ensures var e := m[|m| - |NatToString(max)|..]; AllDigits(e) && DigitsValue(e) == max
  {
    var a, b := NatToString(size), NatToString(max);
    var m := "file size " + a + " exceeds maximum allowed size " + b;
    DigitsOfNat(size);
    DigitsOfNat(max);
    assert m[10..10 + |a|] == a;
    assert m[|m| - |b|..] == b;
    m
  }

  function ValidateFileSize(size: nat, max: nat): (r: Option<string>)
    ensures r.None? <==> size <= max
    ensures r.Some? ==> r.value == SizeError(size, max)
  {
    if size > max then Some(SizeError(size, max)) else None
  }

  /**
   * `filepath.Ext`: the suffix from the last '.' of the final path element,
   * or "" when that element has no '.'.
   */
  function Ext(path: string): (e: string)
    ensures HasSuffix(path, e)
    ensures e != "" ==> e[0] == '.' && forall k :: 1 <= k < |e| ==> e[k] != '.' && e[k] != '/'
    ensures e == "" ==> forall k :: 0 <= k < |path| && path[k] == '.' ==> exists j :: k < j < |path| && path[j] == '/'
    decreases |path|
  {
    if |path| == 0 then ""
    else
      var c := path[|path| - 1];
      var init := path[..|path| - 1];
      assert path == init + [c];
      if c == '/' then ""
      else if c == '.' then "."
      else
        var e := Ext(init);
        if e == "" then
          assert forall k :: 0 <= k < |init| ==> path[k] == init[k];
          ""
        else
          assert init[|init| - |e|..] + [c] == path[|path| - |e| - 1..];
          e + [c]
  }

  predicate NoDotOrSlash(s: string) {
    forall k :: 0 <= k < |s| ==> s[k] != '.' && s[k] != '/'
  }

  /** Appending characters that are neither '.' nor '/' extends an extension, or keeps its absence. */
  lemma {:induction false} ExtExtend(x: string, y: string)
    requires NoDotOrSlash(y)
    ensures Ext(x + y) == (if Ext(x) == "" then "" else Ext(x) + y)
    decreases |y|
  {
    if |y| > 0 {
      var y' := y[..|y| - 1];
      assert x + y' == (x + y)[..|x + y| - 1];
      assert y == y' + [y[|y| - 1]];
      ExtExtend(x, y');
    } else {
      assert x + y == x;
    }
  }

  /** An extension-shaped suffix is exactly what `Ext` finds. */
  lemma {:induction false} ExtOfSuffix(x: string, e: string)
    requires |e| > 0 && e[0] == '.' && NoDotOrSlash(e[1..])
    ensures Ext(x + e) == e
  {
    ExtExtend(x + ".", e[1..]);
    assert x + e == (x + ".") + e[1..];
    assert (x + ".")[..|x + "."| - 1] == x;
    assert e == "." + e[1..];
  }

  /** `time.Now().Format("20060102_150405")`: eight digits, '_', six digits. */
  predicate IsTimestamp(stamp: string) {
    |stamp| == 15 && stamp[8] == '_'
    && (forall k :: 0 <= k < 8 ==> IsDigit(stamp[k]))
    && (forall k :: 9 <= k < 15 ==> IsDigit(stamp[k]))
  }

  /**
   * With `generateName` the stored name is `<stem>_<stamp><ext>`, the
   * extension taken from the original name; without it the name is kept.
   */
  function GenerateUniqueFileName(original: string, generateName: bool, stamp: string): (r: string)
    ensures !generateName ==> r == original
    ensures generateName ==> exists stem :: stem + Ext(original) == original && r == stem + "_" + stamp + Ext(original)
  {
    if !generateName then original
    else
      var ext := Ext(original);
      var name := TrimSuffix(original, ext);
      name + "_" + stamp + ext
  }

  /** A generated name keeps the original extension, so the stored file keeps its type. */
  lemma GeneratedNameKeepsExt(original: string, stamp: string)
    requires IsTimestamp(stamp)
    ensures Ext(GenerateUniqueFileName(original, true, stamp)) == Ext(original)
  {
    var ext := Ext(original);
    var name := TrimSuffix(original, ext);
    var tail := "_" + stamp;
    assert NoDotOrSlash(tail) by {
      forall k | 0 <= k < |tail| ensures tail[k] != '.' && tail[k] != '/' {
        if k > 0 { assert tail[k] == stamp[k - 1]; }
      }
    }
    assert name + "_" + stamp + ext == (name + tail) + ext;
    if ext == "" {
      assert name == original;
      assert (name + tail) + ext == original + tail;
      ExtExtend(original, tail);
    } else {
      ExtOfSuffix(name + tail, ext);
    }
  }

  /**
   * `filepath.Join` of one of the upload directories (`./a/b`) and a base
   * name: cleaning drops the leading "./".
   */
  function JoinUnderDir(dir: string, name: string): (p: string)
    requires HasPrefix(dir, "./")
    ensures p == TrimPrefix(dir, "./") + "/" + name
  {
    dir[2..] + "/" + name
  }

  /** The URL path stored in an upload result: one leading '.' dropped, backslashes made forward slashes. */
  function RelativeURL(filePath: string): (r: string)
    ensures |r| == |TrimPrefix(filePath, ".")|
    ensures '\\' !in r
  {
    ReplaceChar(TrimPrefix(filePath, "."), '\\', '/')
  }

  /** Saving the file; `ioError` stands for a failure to create, write or stat it. */
  function SaveFile(header: FileHeader, directory: string, generateName: bool, stamp: string, ioError: Option<string>): (r: Result<UploadResult, string>)
    requires HasPrefix(directory, "./")
    ensures ioError.Some? <==> r.Err?
    ensures r.Ok? ==> r.value.fileName == GenerateUniqueFileName(header.filename, generateName, stamp)
    ensures r.Ok? ==> r.value.filePath == TrimPrefix(directory, "./") + "/" + r.value.fileName
    ensures r.Ok? ==> r.value.fileSize == header.size && r.value.contentType == header.contentType
    ensures r.Ok? ==> r.value.url == RelativeURL(r.value.filePath)
  {
    if ioError.Some? then Err(ioError.value)
    else
      var fileName := GenerateUniqueFileName(header.filename, generateName, stamp);
      var filePath := JoinUnderDir(directory, fileName);
      Ok(UploadResult(fileName, filePath, header.size, header.contentType, RelativeURL(filePath)))
  }

  /** The type check (skipped for an empty list) runs before the size check, and both before saving. */
  function ValidateAndSaveFile(header: FileHeader, config: UploadConfig, stamp: string, ioError: Option<string>): (r: Result<UploadResult, string>)
    requires HasPrefix(config.directory, "./")
    ensures |config.allowedTypes| > 0 && !TypeAllowed(header.contentType, config.allowedTypes)
            ==> r == Err(TypeError(header.contentType))
    ensures (|config.allowedTypes| == 0 || TypeAllowed(header.contentType, config.allowedTypes)) && header.size > config.maxSize
            ==> r == Err(SizeError(header.size, config.maxSize))
    ensures r.Ok? <==> (|config.allowedTypes| == 0 || TypeAllowed(header.contentType, config.allowedTypes))
                       && header.size <= config.maxSize && ioError.None?
    ensures r.Ok? ==> r == SaveFile(header, config.directory, config.generateName, stamp, ioError)
  {
    var typeErr := if |config.allowedTypes| > 0 then ValidateFileType(header.contentType, config.allowedTypes) else None;
    if typeErr.Some? then Err(typeErr.value)
    else
      var sizeErr := ValidateFileSize(header.size, config.maxSize);
      if sizeErr.Some? then Err(sizeErr.value)
      else SaveFile(header, config.directory, config.generateName, stamp, ioError)
  }

  const AvatarConfig: UploadConfig := UploadConfig(AllowedImageTypes, MaxAvatarSize, AvatarDir, true)
  const DocumentConfig: UploadConfig := UploadConfig(AllowedDocumentTypes, MaxFileSize, DocumentDir, true)
  const ImageConfig: UploadConfig := UploadConfig(AllowedImageTypes, MaxFileSize, ImageDir, true)

  /** `GetFileURL`: the base URL without its trailing '/', then the relative URL. */
  function GetFileURL(filePath: string, baseURL: string): (r: string)
    ensures HasPrefix(r, TrimSuffix(baseURL, "/"))
    ensures '\\' !in r[|TrimSuffix(baseURL, "/")|..]
  {
    TrimSuffix(baseURL, "/") + RelativeURL(filePath)
  }

  /** For a "./"-relative path with forward slashes, the URL is the base followed by the path minus its dot. */
  lemma GetFileURLOfRelativePath(filePath: string, baseURL: string)
    requires HasPrefix(filePath, ".") && '\\' !in filePath
    ensures TrimSuffix(baseURL, "/") + "." + GetFileURL(filePath, baseURL)[|TrimSuffix(baseURL, "/")|..] == TrimSuffix(baseURL, "/") + filePath
  {
    var base := TrimSuffix(baseURL, "/");
    var rel := filePath[1..];
    assert "." + rel == filePath;
    assert '\\' !in rel;
    assert RelativeURL(filePath) == rel;
    assert GetFileURL(filePath, baseURL)[|base|..] == rel;
  }

  /** The endpoints under `/upload`. */
  datatype Endpoint = Avatar | Image | Document

  function ConfigFor(endpoint: Endpoint): (c: UploadConfig)
    ensures HasPrefix(c.directory, "./") && c.generateName
    ensures endpoint != Document ==> c.allowedTypes == AllowedImageTypes
    ensures endpoint == Document ==> c.allowedTypes == AllowedDocumentTypes
    ensures c.maxSize == if endpoint == Avatar then 2 * 1024 * 1024 else 10 * 1024 * 1024
  {
    match endpoint
    case Avatar => AvatarConfig
    case Image => ImageConfig
    case Document => DocumentConfig
  }

  /** The `file` field of the form: absent, present but unreadable, or readable. */
  datatype FormFile = Missing | Unopenable(header: FileHeader) | Present(header: FileHeader)

  /** `getFullURL`: scheme from TLS, the request host, and the path without one leading "./". */
  function FullURL(tls: bool, host: string, relativePath: string): (r: string)
    ensures HasPrefix(r, "https://") <==> tls
    ensures HasPrefix(r, if tls then "https://" else "http://")
    ensures var start := if tls then 8 else 7;
            |r| == start + |host| + 1 + |TrimPrefix(relativePath, "./")|
            && r[start..start + |host|] == host && r[start + |host|] == '/'
            && HasSuffix(r, TrimPrefix(relativePath, "./"))
  {
    var scheme := if tls then "https" else "http";
    var rest := TrimPrefix(relativePath, "./");
    var r := scheme + "://" + host + "/" + rest;
    var start := |scheme| + 3;
    assert !tls ==> r[4] == ':';
    assert r[..start] == scheme + "://";
    assert r[start..start + |host|] == host;
    assert r[|r| - |rest|..] == rest;
    r
  }

  /** The body of a successful upload: the saved result with the absolute URL. */
  datatype UploadReply = UploadReply(message: string, data: UploadResult)

  const NoFileMessage: string := "No file uploaded or invalid file"

  /** `UploadAvatar`, `UploadImage` and `UploadDocument`. */
  function HandleUpload(endpoint: Endpoint, form: FormFile, tls: bool, host: string, stamp: string, ioError: Option<string>): (r: Response<UploadReply>)
    ensures form.Missing? ==> r == Fail(StatusBadRequest, NoFileMessage)
    ensures form.Unopenable? ==> r == Fail(StatusInternalServerError, "Failed to open file")
    ensures form.Present? ==> match ValidateAndSaveFile(form.header, ConfigFor(endpoint), stamp, ioError)
                              case Err(e) => r == Fail(StatusBadRequest, e)
                              case Ok(res) => r == Reply(StatusOK, UploadReply("File uploaded successfully", res.(url := FullURL(tls, host, res.url))))
  {
    match form
    case Missing => Fail(StatusBadRequest, NoFileMessage)
    case Unopenable(_) => Fail(StatusInternalServerError, "Failed to open file")
    case Present(header) =>
      match ValidateAndSaveFile(header, ConfigFor(endpoint), stamp, ioError)
      case Err(e) => Fail(StatusBadRequest, e)
      case Ok(res) => Reply(StatusOK, UploadReply("File uploaded successfully", res.(url := FullURL(tls, host, res.url))))
  }

  lemma GeneratedNameNoBackslash(original: string, stamp: string)
    requires '\\' !in original && IsTimestamp(stamp)
    ensures '\\' !in GenerateUniqueFileName(original, true, stamp)
  {
    var ext := Ext(original);
    var stem := TrimSuffix(original, ext);
    assert original == stem + ext;
    assert forall k :: 0 <= k < |stem| ==> stem[k] == original[k];
    assert forall k :: 0 <= k < |ext| ==> ext[k] == original[|stem| + k];
    assert forall k :: 0 <= k < |stamp| ==> stamp[k] != '\\';
  }

  lemma RelativeURLOfPlainPath(path: string)
    requires |path| > 0 && path[0] != '.' && '\\' !in path
    ensures RelativeURL(path) == path
  {
  }

  /** An image type within 2 MiB passes the avatar checks. */
  lemma AvatarAccepted(header: FileHeader, stamp: string)
    requires TypeAllowed(header.contentType, AllowedImageTypes) && header.size <= MaxAvatarSize
    ensures ValidateAndSaveFile(header, AvatarConfig, stamp, None).Ok?
  {
  }

  lemma Assoc(a: string, b: string, c: string)
    ensures a + (b + c) == (a + b) + c
  {
  }

  lemma SlashAvatarPrefix()
    ensures "/" + "uploads/avatars/" == "/uploads/avatars/"
  {
  }

  lemma AvatarDirTrimmed()
    ensures TrimPrefix(AvatarDir, "./") == "uploads/avatars"
  {
  }

  lemma AvatarPathURL(name: string)
    requires '\\' !in name
    ensures RelativeURL("uploads/avatars" + "/" + name) == "uploads/avatars/" + name
  {
    var path := "uploads/avatars/" + name;
    assert "uploads/avatars" + "/" + name == path;
    assert path[0] == 'u';
    assert forall k :: 0 <= k < |path| ==> path[k] != '\\' by {
      forall k | 0 <= k < |path| ensures path[k] != '\\' {
        if k >= 16 { assert path[k] == name[k - 16]; }
      }
    }
    RelativeURLOfPlainPath(path);
  }

  /** A saved avatar is stored under uploads/avatars and its URL path is that stored path. */
  lemma AvatarStoredPath(header: FileHeader, stamp: string)
    requires '\\' !in header.filename && IsTimestamp(stamp)
    ensures var save := ValidateAndSaveFile(header, AvatarConfig, stamp, None);
            save.Ok? ==> save.value.url == "uploads/avatars/" + GenerateUniqueFileName(header.filename, true, stamp)
  {
    var save := ValidateAndSaveFile(header, AvatarConfig, stamp, None);
    if save.Ok? {
      var name := GenerateUniqueFileName(header.filename, true, stamp);
      GeneratedNameNoBackslash(header.filename, stamp);
      assert save == SaveFile(header, AvatarDir, true, stamp, None);
      AvatarDirTrimmed();
      assert save.value.filePath == "uploads/avatars" + "/" + name;
      AvatarPathURL(name);
    }
  }

  /**
   * End to end: an accepted avatar is served from
   * `<scheme>://<host>/uploads/avatars/<stem>_<stamp><ext>`.
   */
  lemma AvatarURLShape(header: FileHeader, tls: bool, host: string, stamp: string)
    requires TypeAllowed(header.contentType, AllowedImageTypes) && header.size <= MaxAvatarSize
    requires '\\' !in header.filename && IsTimestamp(stamp)
    ensures var r := HandleUpload(Avatar, Present(header), tls, host, stamp, None);
            r.Reply? && r.status == StatusOK
            && r.body.data.url == (if tls then "https" else "http") + "://" + host + "/uploads/avatars/" + GenerateUniqueFileName(header.filename, true, stamp)
  {
    var name := GenerateUniqueFileName(header.filename, true, stamp);
    AvatarAccepted(header, stamp);
    AvatarStoredPath(header, stamp);
    AvatarReplyURL(header, tls, host, stamp, "uploads/avatars/" + name);
    FullAvatarURL(tls, host, name);
  }

  /** An accepted avatar saved under `url` is answered with that URL made absolute. */
  lemma AvatarReplyURL(header: FileHeader, tls: bool, host: string, stamp: string, url: string)
    requires ValidateAndSaveFile(header, AvatarConfig, stamp, None).Ok?
    requires ValidateAndSaveFile(header, AvatarConfig, stamp, None).value.url == url
    ensures var r := HandleUpload(Avatar, Present(header), tls, host, stamp, None);
            r.Reply? && r.status == StatusOK && r.body.data.url == FullURL(tls, host, url)
  {
    assert ConfigFor(Avatar) == AvatarConfig;
    SavedReply(Avatar, header, tls, host, stamp);
  }

  /** A saved file is answered 200 with its result and the URL made absolute. */
  lemma SavedReply(endpoint: Endpoint, header: FileHeader, tls: bool, host: string, stamp: string)
    requires ValidateAndSaveFile(header, ConfigFor(endpoint), stamp, None).Ok?
    ensures var res := ValidateAndSaveFile(header, ConfigFor(endpoint), stamp, None).value;
            HandleUpload(endpoint, Present(header), tls, host, stamp, None)
            == Reply(StatusOK, UploadReply("File uploaded successfully", res.(url := FullURL(tls, host, res.url))))
  {
  }

  /** The absolute URL of a stored avatar name. */
  lemma FullAvatarURL(tls: bool, host: string, name: string)
    ensures FullURL(tls, host, "uploads/avatars/" + name)
            == (if tls then "https" else "http") + "://" + host + "/uploads/avatars/" + name
  {
    var url := "uploads/avatars/" + name;
    assert url[0] == 'u';
    assert TrimPrefix(url, "./") == url;
    var x := (if tls then "https" else "http") + "://" + host;
    Assoc(x + "/", "uploads/avatars/", name);
    Assoc(x, "/", "uploads/avatars/");
    SlashAvatarPrefix();
  }
}
