/**
 * What the two layer download routes (ZIP and PPTX) share: reading the
 * request body, the base name of the attachment, which entries are fetched,
 * what a fetch gives, and the header of the attachment that is sent back.
 */
module LayerDownload {

  import opened Wrappers
  import opened Strings
  import opened Js
  import opened Url
  import opened Filenames

  const DefaultBaseName := "qwen-image-layered"
  const NoImages := "No images provided"
  const NoneDownloaded := "No valid images downloaded"

  /** An element of `images`: its `url` and `name` fields (`Undefined` when absent or when the element is no object). */
  datatype Entry = Entry(url: Value, name: Value)

  /** The parsed body: `images` when it is an array, and `baseName`. */
  datatype Request = Request(images: Option<seq<Entry>>, baseName: Value)

  /** What `fetch(url)` and reading its body gave: a throw, a response that is not `ok`, or the bytes and the `content-type` header. */
  datatype Fetched = FetchThrew | NotOk | Received(contentType: Option<string>, bytes: seq<bv8>)

  /** What a route sends: a JSON error with its status, or the attachment. */
  datatype Download<T> =
    | Refused(status: nat, error: string)
    | Attachment(contentType: string, disposition: string, filename: string, content: T)

  /** `Array.isArray(body?.images) ? body.images : []`. */
  function ImagesOf(req: Request): (r: seq<Entry>)
    ensures req.images.None? ==> r == []
  {
    if req.images.Some? then req.images.value else []
  }

  /** `baseName` when it is a non-empty string, `qwen-image-layered` otherwise. */
  function BaseNameOf(v: Value): (r: string)
    ensures r != []
    ensures IsNonEmptyString(v) ==> r == v.s
    ensures !IsNonEmptyString(v) ==> r == DefaultBaseName
  {
    if IsNonEmptyString(v) then v.s else DefaultBaseName
  }

  /** The entry's `url` when it is a string, `""` otherwise. */
  function UrlOf(e: Entry): string
  {
    if e.url.Str? then e.url.s else ""
  }

  /** An entry is fetched only when its URL is a non-empty `http:` or `https:` URL. */
  predicate Fetchable(e: Entry)
  {
    UrlOf(e) != [] && IsHttpUrl(UrlOf(e))
  }

  /** What the loop meets at an entry: it is skipped, its fetch throws, or its body is received. */
  datatype Outcome = Skipped | Threw | Got(contentType: Option<string>, bytes: seq<bv8>)

  function OutcomeOf(e: Entry, fetch: string -> Fetched): (r: Outcome)
    ensures !Fetchable(e) ==> r == Skipped
    ensures r.Threw? <==> Fetchable(e) && fetch(UrlOf(e)).FetchThrew?
    ensures r.Got? <==> Fetchable(e) && fetch(UrlOf(e)).Received?
    ensures r.Got? ==> r.contentType == fetch(UrlOf(e)).contentType && r.bytes == fetch(UrlOf(e)).bytes
  {
    if !Fetchable(e) then Skipped
    else
      match fetch(UrlOf(e))
      case FetchThrew => Threw
      case NotOk => Skipped
      case Received(contentType, bytes) => Got(contentType, bytes)
  }

  /** The loop body's first half for entry `i`: check the URL, fetch it, read the body. */
  method FetchEntry(images: seq<Entry>, i: nat, fetch: string -> Fetched) returns (r: Outcome)
    requires i < |images|
    ensures r == OutcomesOf(images, fetch)[i]
  {
    var url := UrlOf(images[i]);
    if url == [] || !IsHttpUrl(url) {
      return Skipped;
    }
    var response := fetch(url);
    if response.FetchThrew? {
      return Threw;
    }
    if response.NotOk? {
      return Skipped;
    }
    r := Got(response.contentType, response.bytes);
  }

  /** The outcome of every entry, in order. */
  function OutcomesOf(entries: seq<Entry>, fetch: string -> Fetched): (r: seq<Outcome>)
    ensures |r| == |entries|
    ensures forall i :: 0 <= i < |entries| ==> r[i] == OutcomeOf(entries[i], fetch)
  {
    seq(|entries|, i requires 0 <= i < |entries| => OutcomeOf(entries[i], fetch))
  }

  /** An entry that was received, with its position in `images`. */
  datatype Accepted = Accepted(index: nat, contentType: Option<string>, bytes: seq<bv8>)

  /** The entries among the first `n` whose body was received, in order: the reference the loops are measured against. */
  function AcceptedFirst(outs: seq<Outcome>, n: nat): (r: seq<Accepted>)
    requires n <= |outs|
    ensures |r| <= n
    ensures forall k :: 0 <= k < |r| ==> r[k].index < n
    ensures forall k, l :: 0 <= k < l < |r| ==> r[k].index < r[l].index
  {
    if n == 0 then []
    else
      var prev := AcceptedFirst(outs, n - 1);
      if outs[n - 1].Got? then prev + [Accepted(n - 1, outs[n - 1].contentType, outs[n - 1].bytes)] else prev
  }

  /** Every listed entry was received, with the bytes and header listed. */
  lemma {:induction false} AcceptedFirstSound(outs: seq<Outcome>, n: nat)
    requires n <= |outs|
    ensures forall k :: 0 <= k < |AcceptedFirst(outs, n)| ==>
      outs[AcceptedFirst(outs, n)[k].index] == Got(AcceptedFirst(outs, n)[k].contentType, AcceptedFirst(outs, n)[k].bytes)
  {
    if n > 0 {
      AcceptedFirstSound(outs, n - 1);
      var prev := AcceptedFirst(outs, n - 1);
      if outs[n - 1].Got? {
        var acc := AcceptedFirst(outs, n);
        assert acc == prev + [Accepted(n - 1, outs[n - 1].contentType, outs[n - 1].bytes)];
        forall k | 0 <= k < |acc|
          ensures outs[acc[k].index] == Got(acc[k].contentType, acc[k].bytes)
        {
          if k < |prev| {
            assert acc[k] == prev[k];
          } else {
            assert acc[k] == Accepted(n - 1, outs[n - 1].contentType, outs[n - 1].bytes);
          }
        }
      }
    }
  }

  /** Every received entry among the first `n` is listed. */
  lemma {:induction false} AcceptedFirstComplete(outs: seq<Outcome>, n: nat, i: nat)
    requires i < n <= |outs| && outs[i].Got?
    ensures exists k :: 0 <= k < |AcceptedFirst(outs, n)| && AcceptedFirst(outs, n)[k].index == i
  {
    var prev := AcceptedFirst(outs, n - 1);
    var acc := AcceptedFirst(outs, n);
    if i == n - 1 {
      assert acc == prev + [Accepted(n - 1, outs[n - 1].contentType, outs[n - 1].bytes)];
      assert acc[|prev|].index == i;
    } else {
      AcceptedFirstComplete(outs, n - 1, i);
      var k :| 0 <= k < |prev| && prev[k].index == i;
      assert acc[k] == prev[k];
    }
  }
  /** Received entry `i` is listed at some position, with its content type and bytes. */
  lemma AcceptedAt(outs: seq<Outcome>, n: nat, i: nat) returns (k: nat)
    requires i < n <= |outs| && outs[i].Got?
    ensures k < |AcceptedFirst(outs, n)|
    ensures AcceptedFirst(outs, n)[k] == Accepted(i, outs[i].contentType, outs[i].bytes)
  {
    AcceptedFirstComplete(outs, n, i);
    AcceptedFirstSound(outs, n);
    k :| 0 <= k < |AcceptedFirst(outs, n)| && AcceptedFirst(outs, n)[k].index == i;
  }


  /** Some entry is listed exactly when some entry was received. */
  lemma AcceptedNonEmptyIff(outs: seq<Outcome>)
    ensures AcceptedFirst(outs, |outs|) != [] <==> exists i :: 0 <= i < |outs| && outs[i].Got?
  {
    var acc := AcceptedFirst(outs, |outs|);
    AcceptedFirstSound(outs, |outs|);
    if acc != [] {
      assert outs[acc[0].index].Got?;
    }
    if i :| 0 <= i < |outs| && outs[i].Got? {
      AcceptedFirstComplete(outs, |outs|, i);
    }
  }

  /** One more entry: received entries are appended, the others leave the list as it was. */
  lemma AcceptedFirstStep(outs: seq<Outcome>, i: nat)
    requires i < |outs|
    ensures AcceptedFirst(outs, i + 1) ==
      if outs[i].Got? then AcceptedFirst(outs, i) + [Accepted(i, outs[i].contentType, outs[i].bytes)] else AcceptedFirst(outs, i)
  {
  }

  /** The list only grows: the entries listed among the first `m` stay listed, in place, among the first `n`. */
  lemma {:induction false} AcceptedFirstPrefix(outs: seq<Outcome>, m: nat, n: nat)
    requires m <= n <= |outs|
    ensures AcceptedFirst(outs, m) <= AcceptedFirst(outs, n)
    decreases n
  {
    if m < n {
      AcceptedFirstPrefix(outs, m, n - 1);
    }
  }

  /** No entry among the first `n` has a fetch that throws. */
  predicate NoneThrew(outs: seq<Outcome>, n: nat)
    requires n <= |outs|
  {
    forall i :: 0 <= i < n ==> !outs[i].Threw?
  }

  lemma NoneThrewStep(outs: seq<Outcome>, i: nat)
    requires i < |outs| && NoneThrew(outs, i) && !outs[i].Threw?
    ensures NoneThrew(outs, i + 1)
  {
  }

  /** The attachment's name, `{sanitizeFilename(baseName)}` followed by the route's suffix (`.zip`, `.pptx`). */
  function AttachmentName(baseName: Value, suffix: string): (r: string)
    ensures StartsWith(r, SanitizeFilename(BaseNameOf(baseName)))
    ensures r[|SanitizeFilename(BaseNameOf(baseName))|..] == suffix
  {
    SanitizeFilename(BaseNameOf(baseName)) + suffix
  }

  /**
   * With a suffix of file-name characters, the attachment's name is
   * made of them only, so both parameters of the `Content-Disposition`
   * header carry it verbatim, and it is never empty.
   */
  lemma AttachmentDisposition(baseName: Value, suffix: string)
    requires forall i :: 0 <= i < |suffix| ==> IsFilenameChar(suffix[i])
    ensures var n := AttachmentName(baseName, suffix);
      && ContentDisposition(n) == "attachment; filename=\"" + n + "\"; filename*=UTF-8''" + n
      && SanitizeFilename(BaseNameOf(baseName)) != []
  {
    var s := SanitizeFilename(BaseNameOf(baseName));
    var n := AttachmentName(baseName, suffix);
    assert forall i :: 0 <= i < |n| ==> IsFilenameChar(n[i]) by {
      forall i | 0 <= i < |n|
        ensures IsFilenameChar(n[i])
      {
        if i < |s| {
          assert n[i] == s[i];
        } else {
          assert n[i] == suffix[i - |s|];
        }
      }
    }
    CleanDisposition(n);
    SanitizeNonEmpty(BaseNameOf(baseName));
  }

  /** Without a usable base name the attachment is `qwen-image-layered` and the suffix. */
  lemma DefaultAttachmentName(baseName: Value, suffix: string)
    requires !IsNonEmptyString(baseName)
    ensures AttachmentName(baseName, suffix) == DefaultBaseName + suffix
  {
    assert forall i :: 0 <= i < |DefaultBaseName| ==> IsFilenameChar(DefaultBaseName[i]);
    SanitizeKeepsCleanNames(DefaultBaseName);
  }
}
