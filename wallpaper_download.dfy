/**
 * `GET /api/wallpaper/download`: a download proxy. It fetches the `src`
 * image and streams it back as an attachment, named by the `filename`
 * parameter or after the last segment of the source path.
 */
module WallpaperDownload {

  import opened Wrappers
  import opened Strings
  import opened Js
  import opened Url
  import opened Filenames
  import opened UriEncoding

  const MissingSrc := "Missing required query param: src"
  const NotHttp := "Only http/https sources are allowed"
  const UpstreamFailed := "Failed to fetch image for download"
  const Failure := "Unable to download image"
  const DefaultName := "wallpaper"
  const DefaultContentType := "application/octet-stream"

  /** The query parameters `src` and `filename`; `None` when absent. */
  datatype Query = Query(src: Option<string>, filename: Option<string>)

  /** What `fetch` of the source gave: a throw, or a response with its status, whether it has a body, its `content-type` and its body. */
  datatype Upstream =
    | FetchThrew
    | Response(status: nat, hasBody: bool, contentType: Option<string>, body: seq<bv8>)

  /** `response.ok`: a status in the range 200–299. */
  predicate Ok(status: nat) { 200 <= status <= 299 }

  /** What the route sends: a JSON error with its status, or the streamed body with its headers. */
  datatype Reply =
    | Error(status: nat, error: string)
    | Stream(headers: map<string, string>, body: seq<bv8>)

  /** The response headers being filled. */
  class Headers {
    var entries: map<string, string>

    constructor ()
      ensures entries == map[]
    {
      entries := map[];
    }

    /** `headers.set(name, value)`: the value replaces any earlier one. */
    method Set(name: string, value: string)
      modifies this
      ensures entries == old(entries)[name := value]
    {
      entries := entries[name := value];
    }
  }

  /** The last non-empty segment of a path: `pathname.split("/").filter(Boolean).pop()`. */
  function LastSegment(path: string): (r: Option<string>)
  {
    var parts := Segments(path, '/');
    if parts == [] then None else Some(parts[|parts| - 1])
  }

  /** The name of the attachment: the parameter when it is non-empty, else the last path segment, else `wallpaper`. */
  function FilenameOf(q: Query, path: string): string
  {
    OrElse(q.filename, OrElse(LastSegment(path), DefaultName))
  }

  /** The route; `fetch` says what fetching each parsed source gives. */
  function GetSpec(q: Query, fetch: Url -> Upstream): Reply
  {
    if q.src.None? || q.src.value == [] then Error(400, MissingSrc)
    else
      match Parse(q.src.value)
      case None => Error(500, Failure)
      case Some(u) =>
        if u.scheme != "http" && u.scheme != "https" then Error(400, NotHttp)
        else Relay(q, u, fetch(u))
  }

  /** The reply to what fetching the parsed source `u` gave. */
  function Relay(q: Query, u: Url, up: Upstream): Reply
  {
    match up
    case FetchThrew => Error(500, Failure)
    case Response(status, hasBody, contentType, body) =>
      if !Ok(status) || !hasBody then Error(if status == 0 then 502 else status, UpstreamFailed)
      else
        var filename := FilenameOf(q, u.pathname);
        Stream(map["Content-Type" := OrElse(contentType, DefaultContentType),
                   "Content-Disposition" := ContentDisposition(filename)], body)
  }

  method Get(q: Query, fetch: Url -> Upstream) returns (r: Reply)
    ensures r == GetSpec(q, fetch)
  {
    if q.src.None? || q.src.value == [] {
      return Error(400, MissingSrc);
    }
    var srcUrl := Parse(q.src.value);
    if srcUrl.None? {
      return Error(500, Failure);
    }
    var u := srcUrl.value;
    if u.scheme != "http" && u.scheme != "https" {
      return Error(400, NotHttp);
    }
    var response := fetch(u);
    if response.FetchThrew? {
      return Error(500, Failure);
    }
    if !Ok(response.status) || !response.hasBody {
      return Error(if response.status == 0 then 502 else response.status, UpstreamFailed);
    }
    var contentType := OrElse(response.contentType, DefaultContentType);
    var derivedName := OrElse(LastSegment(u.pathname), DefaultName);
    var filename := OrElse(q.filename, derivedName);
    var headers := new Headers();
    headers.Set("Content-Type", contentType);
    headers.Set("Content-Disposition", ContentDisposition(filename));
    r := Stream(headers.entries, response.body);
  }

  /**
   * `r` stands at `k` in the path: it is non-empty and free of `/`, a `/` or
   * the start of the path comes before it, and only slashes follow it.
   */
  predicate SegmentAt(path: string, r: string, k: nat)
  {
    && r != [] && '/' !in r
    && k + |r| <= |path| && path[k..k + |r|] == r
    && (k == 0 || path[k - 1] == '/')
    && forall j :: k + |r| <= j < |path| ==> path[j] == '/'
  }

  /** `r` is the last run of characters other than `/` in the path. */
  ghost predicate IsLastSegment(path: string, r: string)
  {
    exists k: nat :: SegmentAt(path, r, k)
  }

  /** Only slashes. */
  predicate AllSlashes(s: string)
  {
    forall j :: 0 <= j < |s| ==> s[j] == '/'
  }

  /** One split step: the last segment of `b + "/" + rest` is the last of `rest`, or `b` when `rest` has none. */
  lemma LastSegmentStep(path: string, b: string, rest: string)
    requires After(path, '/') == Some(rest) && Before(path, '/') == b
    ensures path == b + "/" + rest && '/' !in b
    ensures LastSegment(path) ==
      if LastSegment(rest).Some? then LastSegment(rest) else if b != [] then Some(b) else None
  {
    assert Split(path, '/') == [b] + Split(rest, '/');
    var parts := Split(rest, '/');
    assert ([b] + parts)[1..] == parts;
  }

  /** A segment of `rest` stands, shifted, in `b + "/" + rest`. */
  lemma SegmentShift(b: string, rest: string, r: string, k: nat)
    requires SegmentAt(rest, r, k)
    ensures SegmentAt(b + "/" + rest, r, |b| + 1 + k)
  {
    var path := b + "/" + rest;
    var off := |b| + 1;
    assert path[off..] == rest;
    assert path[off + k..off + k + |r|] == rest[k..k + |r|];
    assert forall j :: off + k + |r| <= j < |path| ==> path[j] == rest[j - off];
  }

  /**
   * There is no segment exactly when the path is made of slashes only, and
   * otherwise the segment found is the last run of characters other than `/`.
   */
  lemma {:induction false} LastSegmentIsLast(path: string)
    ensures LastSegment(path).None? <==> AllSlashes(path)
    ensures LastSegment(path).Some? ==> IsLastSegment(path, LastSegment(path).value)
    decreases |path|
  {
    match After(path, '/')
    case None =>
      assert Split(path, '/') == [path];
      if path != [] {
        assert path[0] != '/';
        assert SegmentAt(path, path, 0);
      }
    case Some(rest) =>
      var b := Before(path, '/');
      LastSegmentStep(path, b, rest);
      LastSegmentIsLast(rest);
      if LastSegment(rest).Some? {
        var r := LastSegment(rest).value;
        var k: nat :| SegmentAt(rest, r, k);
        SegmentShift(b, rest, r, k);
      } else if b != [] {
        SegmentBeforeSlashes(b, rest);
      } else {
        SlashThen(rest);
      }
  }

  /** A name before a slash and nothing but slashes stands at the start. */
  lemma SegmentBeforeSlashes(b: string, rest: string)
    requires b != [] && '/' !in b && AllSlashes(rest)
    ensures SegmentAt(b + "/" + rest, b, 0)
  {
    var path := b + "/" + rest;
    assert path[..|b|] == b;
    forall j | |b| <= j < |path|
      ensures path[j] == '/'
    {
      if j > |b| {
        assert path[j] == rest[j - |b| - 1];
      }
    }
  }

  lemma SlashThen(rest: string)
    ensures AllSlashes("/" + rest) <==> AllSlashes(rest)
  {
    var path := "/" + rest;
    assert forall j :: 0 <= j < |rest| ==> rest[j] == path[j + 1];
    assert path[0] == '/';
  }

  /** A request refused by some check gets its status and message. */
  lemma GetRefusals(q: Query, fetch: Url -> Upstream)
    ensures q.src.None? || q.src == Some("") ==> GetSpec(q, fetch) == Error(400, MissingSrc)
    ensures q.src.Some? && q.src.value != [] && Parse(q.src.value).None? ==> GetSpec(q, fetch) == Error(500, Failure)
    ensures q.src.Some? && q.src.value != [] && Parse(q.src.value).Some? && !IsHttpUrl(q.src.value) ==>
      GetSpec(q, fetch) == Error(400, NotHttp)
    ensures q.src.Some? && IsHttpUrl(q.src.value) && fetch(Parse(q.src.value).value).FetchThrew? ==>
      GetSpec(q, fetch) == Error(500, Failure)
  {
  }

  /**
   * An upstream failure passes its status on, with 502 for status 0; an
   * upstream `ok` response without a body is answered with the error
   * message but status 200.
   */
  lemma UpstreamStatus(q: Query, fetch: Url -> Upstream)
    requires q.src.Some? && IsHttpUrl(q.src.value)
    requires var up := fetch(Parse(q.src.value).value); up.Response? && (!Ok(up.status) || !up.hasBody)
    ensures var up := fetch(Parse(q.src.value).value);
      && GetSpec(q, fetch).Error?
      && GetSpec(q, fetch).error == UpstreamFailed
      && GetSpec(q, fetch).status == (if up.status == 0 then 502 else up.status)
      && (Ok(up.status) ==> Ok(GetSpec(q, fetch).status))
      && GetSpec(q, fetch).status != 0
  {
  }

  /**
   * The body is streamed exactly when the source is an `http:`/`https:` URL
   * whose fetch answers `ok` with a body; it goes out untouched, under the
   * upstream content type (`application/octet-stream` when there is none)
   * and with only the two headers set.
   */
  lemma StreamIff(q: Query, fetch: Url -> Upstream)
    ensures GetSpec(q, fetch).Stream? <==>
      q.src.Some? && IsHttpUrl(q.src.value) && fetch(Parse(q.src.value).value).Response?
      && Ok(fetch(Parse(q.src.value).value).status) && fetch(Parse(q.src.value).value).hasBody
    ensures GetSpec(q, fetch).Stream? ==>
      var up := fetch(Parse(q.src.value).value);
      var h := GetSpec(q, fetch).headers;
      && GetSpec(q, fetch).body == up.body
      && h.Keys == {"Content-Type", "Content-Disposition"}
      && h["Content-Type"] == (if up.contentType.Some? && up.contentType.value != [] then up.contentType.value else "application/octet-stream")
  {
  }

  /**
   * The attachment is named by the `filename` parameter when it is
   * non-empty, else by the last non-empty segment of the source path, else
   * `wallpaper`; its printable ASCII characters, a double quote included,
   * reach the quoted `filename` parameter unchanged.
   */
  lemma AttachmentName(q: Query, path: string)
    ensures q.filename.Some? && q.filename.value != [] ==> FilenameOf(q, path) == q.filename.value
    ensures (q.filename.None? || q.filename.value == []) && LastSegment(path).Some? ==>
      IsLastSegment(path, FilenameOf(q, path))
    ensures (q.filename.None? || q.filename.value == []) && AllSlashes(path) ==>
      FilenameOf(q, path) == "wallpaper"
    ensures '"' in FilenameOf(q, path) ==> '"' in AsciiFallback(FilenameOf(q, path))
  {
    LastSegmentIsLast(path);
    if '"' in FilenameOf(q, path) {
      QuoteCopiedIntoFallback(FilenameOf(q, path));
    }
  }

  const RoutePath := "/api/wallpaper/download?"

  /**
   * The link the client components build to this route:
   * `/api/wallpaper/download?src={encoded src}&filename={encoded name}`.
   */
  function DownloadLink(src: string, filename: string): string
  {
    RoutePath + LinkQuery(src, filename)
  }

  function LinkQuery(src: string, filename: string): string
  {
    Param("src", src) + "&" + Param("filename", filename)
  }

  /** `{name}={encoded value}`. */
  function Param(name: string, value: string): string
  {
    name + "=" + EncodeURIComponent(value)
  }

  /** A parameter of a name without `&` has no `&`. */
  lemma ParamHasNoAmpersand(name: string, value: string)
    requires '&' !in name
    ensures '&' !in Param(name, value)
  {
    EncodedHasNoDelimiters(value);
    NoCharAppend(name, "=", '&');
    NoCharAppend(name + "=", EncodeURIComponent(value), '&');
  }

  /** An encoded component is free of the characters that delimit a query. */
  lemma EncodedHasNoDelimiters(s: string)
    ensures '&' !in EncodeURIComponent(s) && '=' !in EncodeURIComponent(s) && '?' !in EncodeURIComponent(s)
  {
    var e := EncodeURIComponent(s);
    assert forall i :: 0 <= i < |e| ==> e[i] != '&' && e[i] != '=' && e[i] != '?' by {
      forall i | 0 <= i < |e|
        ensures e[i] != '&' && e[i] != '=' && e[i] != '?'
      {
        assert IsEncodedChar(e[i]);
      }
    }
  }

  lemma ParamNamesHaveNoAmpersand()
    ensures '&' !in "src" && '&' !in "filename"
  {
  }

  /**
   * Whatever the source and the name, the link is this route's path and a
   * query of exactly two `&`-separated parameters, `src` then `filename`,
   * each carrying its encoded value.
   */
  lemma DownloadLinkParams(src: string, filename: string)
    ensures StartsWith(DownloadLink(src, filename), RoutePath)
    ensures Split(DownloadLink(src, filename)[|RoutePath|..], '&') == [Param("src", src), Param("filename", filename)]
  {
    ParamNamesHaveNoAmpersand();
    var a, b := Param("src", src), Param("filename", filename);
    ParamHasNoAmpersand("src", src);
    ParamHasNoAmpersand("filename", filename);
    assert DownloadLink(src, filename)[|RoutePath|..] == a + ['&'] + b;
    SplitAtFirst(a, b, '&');
    SplitNone(b, '&');
  }
}
