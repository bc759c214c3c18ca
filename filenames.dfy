/**
 * Download naming shared by the ZIP, PPTX and wallpaper download routes:
 * replacing runs of unwanted characters, `sanitizeFilename`, the
 * `Content-Disposition` header with an ASCII fallback and an RFC 8187 style
 * `filename*` parameter, and the layer file extension.
 */
module Filenames {

  import opened Wrappers
  import opened Strings
  import opened Js
  import opened UriEncoding

  /** The rest of `s` after its leading run of characters `keep` rejects. */
  function SkipRejected(s: string, keep: char -> bool): (r: string)
    ensures EndsWith(s, r)
    ensures r == [] || keep(r[0])
    ensures forall i :: 0 <= i < |s| - |r| ==> !keep(s[i])
  {
    if s != [] && !keep(s[0]) then SkipRejected(s[1..], keep) else s
  }

  /**
   * `s.replace(/[^…]+/g, "_")`: each maximal run of characters `keep`
   * rejects becomes a single `_`; kept characters stay in place.
   */
  function ReplaceRuns(s: string, keep: char -> bool): (r: string)
    ensures |r| <= |s|
    ensures s != [] ==> r != []
    ensures forall i :: 0 <= i < |r| ==> keep(r[i]) || r[i] == '_'
    decreases |s|
  {
    if s == [] then []
    else if keep(s[0]) then [s[0]] + ReplaceRuns(s[1..], keep)
    else "_" + ReplaceRuns(SkipRejected(s[1..], keep), keep)
  }

  /** A prefix of kept characters passes through unchanged. */
  lemma {:induction false} ReplaceRunsKeptPrefix(a: string, b: string, keep: char -> bool)
    requires forall i :: 0 <= i < |a| ==> keep(a[i])
    ensures ReplaceRuns(a + b, keep) == a + ReplaceRuns(b, keep)
  {
    if a == [] {
      assert a + b == b;
    } else {
      assert (a + b)[0] == a[0] && (a + b)[1..] == a[1..] + b;
      ReplaceRunsKeptPrefix(a[1..], b, keep);
    }
  }

  /** A whole run of rejected characters becomes exactly one `_`. */
  lemma {:induction false} ReplaceRunsRejectedRun(run: string, b: string, keep: char -> bool)
    requires run != [] && forall i :: 0 <= i < |run| ==> !keep(run[i])
    requires b == [] || keep(b[0])
    ensures ReplaceRuns(run + b, keep) == "_" + ReplaceRuns(b, keep)
  {
    var s := run + b;
    assert s[0] == run[0] && s[1..] == run[1..] + b;
    SkipRejectedRun(run[1..], b, keep);
  }

  lemma {:induction false} SkipRejectedRun(run: string, b: string, keep: char -> bool)
    requires forall i :: 0 <= i < |run| ==> !keep(run[i])
    requires b == [] || keep(b[0])
    ensures SkipRejected(run + b, keep) == b
  {
    if run == [] {
      assert run + b == b;
    } else {
      assert (run + b)[0] == run[0] && (run + b)[1..] == run[1..] + b;
      SkipRejectedRun(run[1..], b, keep);
    }
  }

  /** When every character is kept, nothing is replaced. */
  lemma ReplaceRunsIdentity(s: string, keep: char -> bool)
    requires forall i :: 0 <= i < |s| ==> keep(s[i])
    ensures ReplaceRuns(s, keep) == s
  {
    ReplaceRunsKeptPrefix(s, [], keep);
    assert s + [] == s;
  }

  /** Every kept character of the input survives in the output. */
  lemma {:induction false} ReplaceRunsKeepsKept(s: string, keep: char -> bool, c: char)
    requires keep(c) && c in s
    ensures c in ReplaceRuns(s, keep)
    decreases |s|
  {
    if s[0] == c {
      assert ReplaceRuns(s, keep)[0] == c;
    } else if keep(s[0]) {
      ReplaceRunsKeepsKept(s[1..], keep, c);
      assert ReplaceRuns(s, keep) == [s[0]] + ReplaceRuns(s[1..], keep);
    } else {
      var rest := SkipRejected(s[1..], keep);
      var i :| 0 <= i < |s| && s[i] == c;
      assert i >= 1 + (|s[1..]| - |rest|);
      assert rest[i - (|s| - |rest|)] == c;
      ReplaceRunsKeepsKept(rest, keep, c);
      assert ReplaceRuns(s, keep) == "_" + ReplaceRuns(rest, keep);
    }
  }

  /** The characters `sanitizeFilename` keeps: `\w`, `-` and `.`. */
  predicate IsFilenameChar(c: char) { IsWordChar(c) || c == '-' || c == '.' }

  /** `sanitizeFilename`: replace runs of other characters by `_`, keep at most 120 characters. */
  function SanitizeFilename(value: string): (r: string)
    ensures |r| <= 120
    ensures forall i :: 0 <= i < |r| ==> IsFilenameChar(r[i])
  {
    SliceTo(ReplaceRuns(value, IsFilenameChar), 120)
  }

  /** A non-empty name never sanitizes to the empty name. */
  lemma SanitizeNonEmpty(value: string)
    requires value != []
    ensures SanitizeFilename(value) != []
  {
  }

  /** Sanitizing a sanitized name changes nothing. */
  lemma SanitizeIdempotent(value: string)
    ensures SanitizeFilename(SanitizeFilename(value)) == SanitizeFilename(value)
  {
    var once := SanitizeFilename(value);
    ReplaceRunsIdentity(once, IsFilenameChar);
  }

  /** A name already inside the allowed alphabet and length is returned as is. */
  lemma SanitizeKeepsCleanNames(value: string)
    requires |value| <= 120 && forall i :: 0 <= i < |value| ==> IsFilenameChar(value[i])
    ensures SanitizeFilename(value) == value
  {
    ReplaceRunsIdentity(value, IsFilenameChar);
  }

  /** Printable ASCII, `\x20`–`\x7E`. */
  predicate IsPrintableAscii(c: char) { 0x20 <= c as int <= 0x7E }

  /** The ASCII fallback name: runs of characters outside printable ASCII become `_`. */
  function AsciiFallback(filename: string): (r: string)
    ensures forall i :: 0 <= i < |r| ==> IsPrintableAscii(r[i])
  {
    ReplaceRuns(filename, IsPrintableAscii)
  }

  /** `buildContentDisposition`. */
  function ContentDisposition(filename: string): (r: string)
    ensures StartsWith(r, "attachment; filename=\"")
  {
    "attachment; filename=\"" + AsciiFallback(filename) + "\"; filename*=UTF-8''" + EncodeURIComponent(filename)
  }

  /**
   * For a name made of `sanitizeFilename`'s characters both parameters carry
   * the name verbatim: the ASCII fallback replaces nothing and every such
   * character is unreserved.
   */
  lemma CleanDisposition(n: string)
    requires forall i :: 0 <= i < |n| ==> IsFilenameChar(n[i])
    ensures ContentDisposition(n) == "attachment; filename=\"" + n + "\"; filename*=UTF-8''" + n
  {
    ReplaceRunsIdentity(n, IsPrintableAscii);
    EncodeUnreservedIsIdentity(n);
  }

  /** In particular for a sanitized name. */
  lemma SanitizedDisposition(value: string)
    ensures var n := SanitizeFilename(value);
      ContentDisposition(n) == "attachment; filename=\"" + n + "\"; filename*=UTF-8''" + n
  {
    CleanDisposition(SanitizeFilename(value));
  }

  /**
   * A double quote is printable ASCII, so it is copied into the quoted
   * `filename` parameter without escaping.
   */
  lemma QuoteCopiedIntoFallback(filename: string)
    requires '"' in filename
    ensures '"' in AsciiFallback(filename)
  {
    ReplaceRunsKeepsKept(filename, IsPrintableAscii, '"');
  }

  /** `getExtension` of the ZIP route: content type first, then the URL, then `png`. */
  function LayerExtension(contentType: Option<string>, url: string): (r: string)
    ensures r == "png" || r == "webp" || r == "jpg"
    ensures contentType.Some? && Contains(contentType.value, "png") ==> r == "png"
  {
    if contentType.Some? && Contains(contentType.value, "png") then "png"
    else if contentType.Some? && Contains(contentType.value, "webp") then "webp"
    else if contentType.Some? && (Contains(contentType.value, "jpeg") || Contains(contentType.value, "jpg")) then "jpg"
    else if Contains(url, ".png") then "png"
    else if Contains(url, ".webp") then "webp"
    else if Contains(url, ".jpg") || Contains(url, ".jpeg") then "jpg"
    else "png"
  }

  /** With no recognisable content type and no extension in the URL the layer is a PNG. */
  lemma LayerExtensionDefault(url: string)
    requires !Contains(url, ".png") && !Contains(url, ".webp") && !Contains(url, ".jpg") && !Contains(url, ".jpeg")
    ensures LayerExtension(None, url) == "png"
  {
  }
}
