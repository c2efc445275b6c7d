/**
 * The helpers shared by every operation: request headers, the base URL, and the
 * download step that names a remote file and reads it as base64 text. The download
 * itself is an input: the outcome of parsing the URL, then the response headers and
 * the chunks the stream delivers, or the error it fails with.
 */
module Utils {
  import opened Wrappers
  import opened NodePath

  /** The credentials the host passes in; either field may be missing. */
  datatype AuthData = AuthData(apiKey: Option<string>, baseUrl: Option<string>)

  const DefaultBaseUrl := "https://api.vlm.run/v1"

  /** The configured base URL when it is truthy, otherwise the public endpoint. */
  function GetBaseUrl(auth: AuthData): (r: string)
    ensures auth.baseUrl.Some? && auth.baseUrl.value != "" ==> r == auth.baseUrl.value
    ensures auth.baseUrl.None? || auth.baseUrl.value == "" ==> r == DefaultBaseUrl
    ensures r != ""
  {
    if auth.baseUrl.Some? && auth.baseUrl.value != "" then auth.baseUrl.value else DefaultBaseUrl
  }

  /** `Bearer ${apiKey}`: a missing key is interpolated as the text `undefined`. */
  function BearerToken(apiKey: Option<string>): (r: string)
    ensures StartsWith(r, "Bearer ")
    ensures apiKey.Some? ==> r[7..] == apiKey.value
  {
    "Bearer " + apiKey.GetOr("undefined")
  }

  datatype ContentKind = JsonContent | FormContent

  /** The headers of every JSON call: a content type, `Accept: application/json` and the bearer token. */
  function GetCommonHeaders(auth: AuthData, kind: ContentKind): (h: map<string, string>)
    ensures h.Keys == {"Content-Type", "Accept", "Authorization"}
    ensures h["Accept"] == "application/json"
    ensures h["Authorization"] == BearerToken(auth.apiKey)
    ensures kind == JsonContent ==> h["Content-Type"] == "application/json"
    ensures kind == FormContent ==> h["Content-Type"] == "multipart/form-data"
  {
    map[
      "Content-Type" := if kind == JsonContent then "application/json" else "multipart/form-data",
      "Accept" := "application/json",
      "Authorization" := BearerToken(auth.apiKey)
    ]
  }

  /** The response of the download request: lower-cased header names, the data chunks, and a stream error if one ends it. */
  datatype StreamResponse = StreamResponse(headers: map<string, string>, chunks: seq<string>, streamError: Option<string>)

  /**
   * Everything the download step observes: the pathname of the parsed URL (or the
   * parse error), then the response (or the request error).
   */
  datatype DownloadReply = DownloadReply(pathname: Result<string, string>, response: Result<StreamResponse, string>)

  datatype DownloadResult = DownloadResult(stream: StreamResponse, fileName: string)

  /** A header's value when it is present and truthy (not the empty string). */
  function TruthyHeader(headers: map<string, string>, name: string): (r: Option<string>)
    ensures r.Some? <==> name in headers && headers[name] != ""
    ensures r.Some? ==> r.value == headers[name]
  {
    if name in headers && headers[name] != "" then Some(headers[name]) else None
  }

  const DefaultFileName := "downloaded_file"

  /** The name taken from the URL: its path's base name, or the placeholder when that is empty or `/`. */
  function UrlFileName(pathname: string): (r: string)
    ensures r != ""
  {
    var name := Basename(pathname);
    if name == "" || name == "/" then DefaultFileName else name
  }

  /**
   * The URL-derived name is the path's base name, unless the path is made only of
   * slashes; the test against `/` never fires, since a base name has no slash.
   */
  lemma UrlFileNameIsBasename(pathname: string)
    ensures (forall i :: 0 <= i < |pathname| ==> pathname[i] == '/') ==> UrlFileName(pathname) == DefaultFileName
    ensures !(forall i :: 0 <= i < |pathname| ==> pathname[i] == '/') ==> UrlFileName(pathname) == Basename(pathname)
    ensures UrlFileName(pathname) != "" && '/' !in UrlFileName(pathname)
  {
    BasenameShape(pathname);
    var name := Basename(pathname);
    assert '/' in "/";
    assert name != "/";
    assert '/' !in DefaultFileName;
  }

  /** What follows a trailing slash is the text after the last slash. */
  lemma {:induction false} AfterLastSlashSuffix(prefix: string, rest: string)
    requires |prefix| > 0 && prefix[|prefix| - 1] == '/' && '/' !in rest
    ensures AfterLastSlash(prefix + rest) == rest
  {
    if rest == [] {
      assert prefix + rest == prefix;
    } else {
      var shorter := rest[..|rest| - 1];
      assert (prefix + rest)[..|prefix + rest| - 1] == prefix + shorter;
      AfterLastSlashSuffix(prefix, shorter);
    }
  }

  /** The characters JavaScript's `.` does not match. */
  predicate IsLineTerminator(c: char) {
    c == '\n' || c == '\r' || c == '\U{2028}' || c == '\U{2029}'
  }

  /** A string on one line: no character that `.` refuses. */
  predicate OneLine(s: string) {
    forall k :: 0 <= k < |s| ==> !IsLineTerminator(s[k])
  }

  lemma OneLineJoin(a: string, b: string)
    requires OneLine(a) && OneLine(b)
    ensures OneLine(a + b)
  {
    forall k | 0 <= k < |a + b|
      ensures !IsLineTerminator((a + b)[k])
    {
      if k >= |a| {
        assert (a + b)[k] == b[k - |a|];
      }
    }
  }

  /** ASCII lower-casing, the only case folding a non-Unicode `/i` pattern applies to these letters. */
  function AsciiLower(c: char): char {
    if 'A' <= c <= 'Z' then (c as int + 32) as char else c
  }

  /** `filename=` occurs at `i`, its letters compared case-insensitively. */
  predicate KeyAt(h: string, i: nat) {
    i + 9 <= |h| &&
    AsciiLower(h[i]) == 'f' && AsciiLower(h[i + 1]) == 'i' && AsciiLower(h[i + 2]) == 'l' &&
    AsciiLower(h[i + 3]) == 'e' && AsciiLower(h[i + 4]) == 'n' && AsciiLower(h[i + 5]) == 'a' &&
    AsciiLower(h[i + 6]) == 'm' && AsciiLower(h[i + 7]) == 'e' && h[i + 8] == '='
  }

  /** The end of the line that starts at `k`: the first line terminator at or after it, or the end. */
  function LineEnd(h: string, k: nat): (e: nat)
    requires k <= |h|
    ensures k <= e <= |h|
    ensures forall j :: k <= j < e ==> !IsLineTerminator(h[j])
    ensures e < |h| ==> IsLineTerminator(h[e])
    decreases |h| - k
  {
    if k == |h| || IsLineTerminator(h[k]) then k else LineEnd(h, k + 1)
  }

  /** The group `"?(.+)` captures when matched at `j`: an optional opening quote, then the rest of the line. */
  function CaptureAt(h: string, j: nat): (r: Option<string>)
    requires j <= |h|
    ensures r.Some? ==> r.value != "" && OneLine(r.value)
  {
    if j + 1 < |h| && h[j] == '"' && !IsLineTerminator(h[j + 1]) then Some(h[j + 1..LineEnd(h, j + 1)])
    else if j < |h| && !IsLineTerminator(h[j]) then Some(h[j..LineEnd(h, j)])
    else None
  }

  /** The leftmost match of `/filename="?(.+)"?/i` at or after `i`, as its captured group. */
  function MatchFrom(h: string, i: nat): (r: Option<string>)
    ensures r.Some? ==> r.value != "" && OneLine(r.value)
    decreases |h| - i
  {
    if i + 9 > |h| then None
    else if KeyAt(h, i) && CaptureAt(h, i + 9).Some? then CaptureAt(h, i + 9)
    else MatchFrom(h, i + 1)
  }

  /** `contentDisposition.match(/filename="?(.+)"?/i)[1]`, or `None` when the pattern does not match. */
  function FilenameMatch(h: string): (r: Option<string>)
    ensures r.Some? ==> r.value != "" && OneLine(r.value)
  {
    MatchFrom(h, 0)
  }

  /** Every match starts at an occurrence of the key, and is the capture taken right after it. */
  lemma {:induction false} MatchHasKey(h: string, i: nat)
    ensures MatchFrom(h, i).Some? ==>
      exists k :: i <= k && KeyAt(h, k) && CaptureAt(h, k + 9) == MatchFrom(h, i)
    decreases |h| - i
  {
    if i + 9 <= |h| && !(KeyAt(h, i) && CaptureAt(h, i + 9).Some?) {
      MatchHasKey(h, i + 1);
    }
  }

  /** A header without `filename=` in any case does not match. */
  lemma NoKeyNoMatch(h: string)
    requires forall k :: 0 <= k ==> !KeyAt(h, k)
    ensures FilenameMatch(h) == None
  {
    MatchHasKey(h, 0);
  }

  lemma MatchFromStep(h: string, k: nat)
    requires k + 9 <= |h| && !KeyAt(h, k)
    ensures MatchFrom(h, k) == MatchFrom(h, k + 1)
  {
  }

  lemma {:induction false} MatchFromSkips(h: string, k: nat, i: nat)
    requires k <= i && i + 9 <= |h|
    requires forall j :: k <= j < i ==> !KeyAt(h, j)
    ensures MatchFrom(h, k) == MatchFrom(h, i)
    decreases i - k
  {
    if k < i {
      MatchFromStep(h, k);
      MatchFromSkips(h, k + 1, i);
    }
  }

  /**
   * On a one-line header whose first `filename=` is at `i` and is followed by text, the
   * capture is everything after it, less one opening quote: a closing quote is kept.
   */
  lemma MatchOnOneLine(h: string, i: nat)
    requires OneLine(h)
    requires KeyAt(h, i) && i + 9 < |h|
    requires forall k :: 0 <= k < i ==> !KeyAt(h, k)
    ensures FilenameMatch(h) == Some(if h[i + 9] == '"' && i + 10 < |h| then h[i + 10..] else h[i + 9..])
  {
    MatchFromSkips(h, 0, i);
    var j := i + 9;
    assert !IsLineTerminator(h[j]);
    if h[j] == '"' && j + 1 < |h| {
      assert !IsLineTerminator(h[j + 1]);
      var e := LineEnd(h, j + 1);
      assert e == |h|;
      assert h[j + 1..e] == h[j + 1..];
    } else {
      var e := LineEnd(h, j);
      assert e == |h|;
      assert h[j..e] == h[j..];
    }
    assert MatchFrom(h, i) == CaptureAt(h, j);
  }

  /**
   * A quoted file name keeps its closing quote: `attachment; filename="N"` captures `N"`
   * for every one-line name `N`, so `filename="invoice.csv"` gives `invoice.csv"`.
   */
  lemma QuotedFilenameKeepsClosingQuote(name: string)
    requires OneLine(name)
    ensures FilenameMatch("attachment; filename=\"" + name + "\"") == Some(name + "\"")
  {
    var h := "attachment; filename=\"" + name + "\"";
    assert StartsWith(h, "attachment; filename=");
    AttachmentKeyAtTwelve(h);
    QuotedHasOneLine(name);
    MatchOnOneLine(h, 12);
    assert h[22..] == name + "\"";
  }

  /** In a header that starts `attachment; filename=`, the first key is at index 12. */
  lemma AttachmentKeyAtTwelve(h: string)
    requires StartsWith(h, "attachment; filename=")
    ensures KeyAt(h, 12)
    ensures forall k :: 0 <= k < 12 ==> !KeyAt(h, k)
  {
    var prefix := "attachment; filename=";
    assert forall k :: 0 <= k < |prefix| ==> h[k] == prefix[k];
    forall k | 0 <= k < 12
      ensures !KeyAt(h, k)
    {
      assert h[k] == prefix[k];
      assert AsciiLower(prefix[k]) != 'f';
    }
  }

  lemma QuotedHasOneLine(name: string)
    requires OneLine(name)
    ensures var h := "attachment; filename=\"" + name + "\"";
      OneLine(h)
  {
    var h := "attachment; filename=\"" + name + "\"";
    forall k | 0 <= k < |h|
      ensures !IsLineTerminator(h[k])
    {
      if 22 <= k < |h| - 1 {
        assert h[k] == name[k - 22];
      }
    }
  }

  /** `contentType.split("/").pop()`: the text after the last slash, or all of it. */
  function ContentTypeExtension(contentType: string): (r: string)
    ensures '/' !in r
  {
    AfterLastSlash(contentType)
  }

  /** Appends `.` and the content type's last segment when the name has no extension and a content type is present. */
  function WithInferredExtension(name: string, contentType: Option<string>): (r: string)
    ensures |name| <= |r| && forall i :: 0 <= i < |name| ==> r[i] == name[i]
  {
    if Extname(name) == "" && contentType.Some? then name + "." + ContentTypeExtension(contentType.value)
    else name
  }

  /**
   * For a name without a slash, the inferred extension is the content type's last
   * segment when that segment has no dot, and adding it again changes nothing.
   */
  lemma InferredExtensionIsSubtype(name: string, contentType: string)
    requires name != "" && '/' !in name && Extname(name) == ""
    requires var sub := ContentTypeExtension(contentType); sub != "" && '.' !in sub
    ensures var named := WithInferredExtension(name, Some(contentType));
      Extname(named) == "." + ContentTypeExtension(contentType) &&
      WithInferredExtension(named, Some(contentType)) == named
  {
    ExtnameOfAppended(name, ContentTypeExtension(contentType));
  }

  /** A name that already has an extension, or a response without a content type, leaves the name alone. */
  lemma InferredExtensionKeepsName(name: string, contentType: Option<string>)
    requires Extname(name) != "" || contentType.None?
    ensures WithInferredExtension(name, contentType) == name
  {
  }

  /** The file name of a download: URL base name, overridden by Content-Disposition, completed from Content-Type. */
  function DownloadFileName(pathname: string, headers: map<string, string>): (r: string)
    ensures r != ""
  {
    var fromUrl := UrlFileName(pathname);
    var named :=
      match TruthyHeader(headers, "content-disposition")
      case Some(disposition) => FilenameMatch(disposition).GetOr(fromUrl)
      case None => fromUrl;
    WithInferredExtension(named, TruthyHeader(headers, "content-type"))
  }

  /** A disposition match wins over the URL: the URL then plays no part in the name. */
  lemma DispositionOverridesUrl(p1: string, p2: string, headers: map<string, string>)
    requires "content-disposition" in headers
    requires FilenameMatch(headers["content-disposition"]).Some?
    ensures DownloadFileName(p1, headers) == DownloadFileName(p2, headers)
  {
    assert FilenameMatch("") == None;
  }

  /** A URL whose base name has an extension names the file, when no disposition header matches. */
  lemma NameFromUrl(pathname: string, headers: map<string, string>)
    requires TruthyHeader(headers, "content-disposition").None?
    requires Extname(pathname) != ""
    ensures DownloadFileName(pathname, headers) == Basename(pathname)
  {
    var name := Basename(pathname);
    BasenameShape(pathname);
    assert name != "";
    UrlFileNameIsBasename(pathname);
    NoSlashBasename(name);
  }

  /** A quoted Content-Disposition name replaces the URL's name and keeps its closing quote. */
  lemma NameFromDisposition(pathname: string, headers: map<string, string>, name: string)
    requires OneLine(name)
    requires "content-disposition" in headers
    requires headers["content-disposition"] == "attachment; filename=\"" + name + "\""
    ensures DownloadFileName(pathname, headers) ==
      WithInferredExtension(name + "\"", TruthyHeader(headers, "content-type"))
  {
    var disposition := headers["content-disposition"];
    assert |disposition| > 0;
    assert TruthyHeader(headers, "content-disposition") == Some(disposition);
    QuotedFilenameKeepsClosingQuote(name);
    assert FilenameMatch(disposition) == Some(name + "\"");
  }

  /**
   * When the quoted name is a non-empty stem without slashes, a dot and a non-empty segment
   * without dots or slashes, the kept quote ends that extension, so no content-type extension
   * is added: `filename="invoice.csv"` names the file `invoice.csv"`.
   */
  lemma QuoteEndsExtension(stem: string, ext: string, contentType: Option<string>)
    requires stem != "" && '/' !in stem
    requires ext != "" && '.' !in ext && '/' !in ext
    ensures WithInferredExtension(stem + "." + ext + "\"", contentType) == stem + "." + ext + "\""
  {
    var tail := ext + "\"";
    NotInAppend('.', ext, "\"");
    NotInAppend('/', ext, "\"");
    assert stem + "." + ext + "\"" == stem + "." + tail;
    ExtensionKept(stem, tail, contentType);
  }

  /**
   * A name made of a non-empty stem without slashes, a dot and a non-empty segment without
   * dots or slashes keeps its name.
   */
  lemma ExtensionKept(stem: string, tail: string, contentType: Option<string>)
    requires stem != "" && '/' !in stem
    requires tail != "" && '.' !in tail && '/' !in tail
    ensures WithInferredExtension(stem + "." + tail, contentType) == stem + "." + tail
  {
    ExtnameOfAppended(stem, tail);
  }

  /** A base name without an extension takes the content type's last segment as one. */
  lemma NameFromContentType(pathname: string, headers: map<string, string>)
    requires TruthyHeader(headers, "content-disposition").None?
    requires "content-type" in headers && headers["content-type"] != ""
    requires !(forall i :: 0 <= i < |pathname| ==> pathname[i] == '/')
    requires Extname(pathname) == ""
    ensures DownloadFileName(pathname, headers) ==
      Basename(pathname) + "." + ContentTypeExtension(headers["content-type"])
  {
    UrlFileNameIsBasename(pathname);
    BasenameShape(pathname);
    NoSlashBasename(Basename(pathname));
  }

  /** What the download step resolves with: the stream and the derived name, or the error it rejects with. */
  function DownloadStream(d: DownloadReply): (r: Result<DownloadResult, string>)
    ensures r.Success? <==> d.pathname.Success? && d.response.Success?
    ensures r.Success? ==> r.value.stream == d.response.value && r.value.fileName != ""
  {
    match d.pathname
    case Failure(e) => Failure(e)
    case Success(pathname) =>
      match d.response
      case Failure(e) => Failure(e)
      case Success(res) => Success(DownloadResult(res, DownloadFileName(pathname, res.headers)))
  }

  /** The download step, naming the file in the order the source reassigns it. */
  method MakeDownloadStream(d: DownloadReply) returns (r: Result<DownloadResult, string>)
    ensures r == DownloadStream(d)
    ensures r.Success? ==> r.value.fileName != ""
  {
    if d.pathname.Failure? {
      return Failure(d.pathname.error);
    }
    var fileName := Basename(d.pathname.value);
    if fileName == "" || fileName == "/" {
      fileName := DefaultFileName;
    }
    if d.response.Failure? {
      return Failure(d.response.error);
    }
    var res := d.response.value;
    var disposition := TruthyHeader(res.headers, "content-disposition");
    if disposition.Some? {
      var found := FilenameMatch(disposition.value);
      if found.Some? {
        fileName := found.value;
      }
    }
    if Extname(fileName) == "" {
      var contentType := TruthyHeader(res.headers, "content-type");
      if contentType.Some? {
        fileName := fileName + "." + ContentTypeExtension(contentType.value);
      }
    }
    return Success(DownloadResult(res, fileName));
  }

  datatype InlinePayload = InlinePayload(mimeType: string, base64: string)

  const DefaultMimeType := "application/octet-stream"
  const DownloadFailedPrefix := "Failed to download and process the file: "

  /** The Content-Type header, or the generic binary type when it is absent or empty. */
  function MimeTypeOf(headers: map<string, string>): (r: string)
    ensures r != ""
  {
    TruthyHeader(headers, "content-type").GetOr(DefaultMimeType)
  }

  /** The chunks joined in arrival order. */
  function Concat(chunks: seq<string>): string {
    if chunks == [] then "" else Concat(chunks[..|chunks| - 1]) + chunks[|chunks| - 1]
  }

  /** Joining distributes over splitting the chunk sequence: no chunk is lost, repeated or moved. */
  lemma {:induction false} ConcatAppend(a: seq<string>, b: seq<string>)
    ensures Concat(a + b) == Concat(a) + Concat(b)
    decreases |b|
  {
    if b == [] {
      assert a + b == a;
    } else {
      var last := |b| - 1;
      assert (a + b)[..|a + b| - 1] == a + b[..last];
      ConcatAppend(a, b[..last]);
    }
  }

  /** The first chunk comes first. */
  lemma ConcatFirst(head: string, rest: seq<string>)
    ensures Concat([head] + rest) == head + Concat(rest)
  {
    ConcatAppend([head], rest);
    assert Concat([head]) == Concat([]) + head;
  }

  /** What reading the file inline yields: mime type and base64 text, or the error it fails with. */
  function InlinePayloadOf(d: DownloadReply): (r: Result<InlinePayload, string>)
    ensures DownloadStream(d).Failure? ==> r.Failure? && StartsWith(r.error, DownloadFailedPrefix)
    ensures r.Success? ==> r.value.mimeType != ""
  {
    match DownloadStream(d)
    case Failure(e) => Failure(DownloadFailedPrefix + e)
    case Success(download) =>
      match download.stream.streamError
      case Some(e) => Failure(e)
      case None => Success(InlinePayload(MimeTypeOf(download.stream.headers), Concat(download.stream.chunks)))
  }

  /**
   * Reads the file inline: a failure to open the download is reported with a prefix,
   * a stream error as it is; otherwise the chunks are appended in arrival order.
   */
  method GetMimeTypeAndBase64(d: DownloadReply) returns (r: Result<InlinePayload, string>)
    ensures r == InlinePayloadOf(d)
  {
    var download := MakeDownloadStream(d);
    if download.Failure? {
      return Failure(DownloadFailedPrefix + download.error);
    }
    var stream := download.value.stream;
    var mimeType := MimeTypeOf(stream.headers);
    if stream.streamError.Some? {
      return Failure(stream.streamError.value);
    }
    var data := "";
    for i := 0 to |stream.chunks|
      invariant data == Concat(stream.chunks[..i])
    {
      assert stream.chunks[..i + 1][..i] == stream.chunks[..i];
      data := data + stream.chunks[i];
    }
    assert stream.chunks[..|stream.chunks|] == stream.chunks;
    return Success(InlinePayload(mimeType, data));
  }
}
