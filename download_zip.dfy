/**
 * `POST /api/qwen-image-layered/download-zip`: fetch the listed layer
 * images and send them back as one ZIP archive. Entries without a usable
 * URL or whose response is not `ok` are skipped; a fetch that throws fails
 * the whole request.
 */
module DownloadZip {

  import opened Wrappers
  import opened Strings
  import opened Js
  import opened Url
  import opened Filenames
  import opened LayerDownload

  const Failure := "Unable to create ZIP"
  const ZipType := "application/zip"

  /** A file of the archive. */
  datatype ZipFile = ZipFile(name: string, data: seq<bv8>)

  /** The archive holds at most one file per name. */
  predicate DistinctNames(files: seq<ZipFile>)
  {
    forall i, j :: 0 <= i < j < |files| ==> files[i].name != files[j].name
  }

  predicate HasName(files: seq<ZipFile>, name: string)
  {
    exists i :: 0 <= i < |files| && files[i].name == name
  }

  /**
   * `zip.file(name, data)`: the archive keeps its files by name, so a name
   * it already holds has its data replaced where it stands, and a new name
   * is added last.
   */
  function WithFile(files: seq<ZipFile>, name: string, data: seq<bv8>): (r: seq<ZipFile>)
    requires DistinctNames(files)
    ensures DistinctNames(r)
    ensures |r| == if HasName(files, name) then |files| else |files| + 1
    ensures forall i :: 0 <= i < |files| && files[i].name != name ==> r[i] == files[i]
    ensures HasName(files, name) ==> forall i :: 0 <= i < |files| && files[i].name == name ==> r[i] == ZipFile(name, data)
    ensures !HasName(files, name) ==> r == files + [ZipFile(name, data)]
  {
    if HasName(files, name) then
      var r := seq(|files|, i requires 0 <= i < |files| => if files[i].name == name then ZipFile(name, data) else files[i]);
      assert forall i :: 0 <= i < |files| ==> r[i].name == files[i].name;
      r
    else
      var r := files + [ZipFile(name, data)];
      assert forall i :: 0 <= i < |files| ==> r[i] == files[i];
      r
  }

  /** The archive under construction. */
  class Zip {
    var files: seq<ZipFile>

    constructor ()
      ensures files == []
    {
      files := [];
    }

    method File(name: string, data: seq<bv8>)
      requires DistinctNames(files)
      modifies this
      ensures files == WithFile(old(files), name, data)
    {
      files := WithFile(files, name, data);
    }
  }

  // ---------------------------------------------------------------------------
  // The order `generateAsync` writes the files in
  // ---------------------------------------------------------------------------

  /**
   * A name JavaScript treats as an array index: `0`, or decimal digits
   * without a leading zero whose value is below 2^32 - 1.
   */
  predicate IsIndexName(name: string)
  {
    name != [] && AllDigits(name) && (name[0] == '0' ==> |name| == 1) && DigitsValue(name) < 0xFFFF_FFFF
  }

  /** The files whose names are array indices, in table order. */
  function IndexNamed(files: seq<ZipFile>): (r: seq<ZipFile>)
    ensures forall i :: 0 <= i < |r| ==> IsIndexName(r[i].name)
    ensures (forall i :: 0 <= i < |files| ==> !IsIndexName(files[i].name)) ==> r == []
  {
    if files == [] then []
    else (if IsIndexName(files[0].name) then [files[0]] else []) + IndexNamed(files[1..])
  }

  /** The other files, in table order. */
  function OtherNamed(files: seq<ZipFile>): (r: seq<ZipFile>)
    ensures forall i :: 0 <= i < |r| ==> !IsIndexName(r[i].name)
    ensures (forall i :: 0 <= i < |files| ==> !IsIndexName(files[i].name)) ==> r == files
  {
    if files == [] then []
    else
      assert files == [files[0]] + files[1..];
      (if IsIndexName(files[0].name) then [] else [files[0]]) + OtherNamed(files[1..])
  }

  /** Splitting the files by their names loses none and adds none. */
  lemma {:induction false} NamedPartition(files: seq<ZipFile>)
    ensures multiset(IndexNamed(files)) + multiset(OtherNamed(files)) == multiset(files)
  {
    if files != [] {
      NamedPartition(files[1..]);
      assert files == [files[0]] + files[1..];
    }
  }

  /** Files with array-index names, in ascending order of the index. */
  predicate IndexAscending(files: seq<ZipFile>)
  {
    && (forall i :: 0 <= i < |files| ==> IsIndexName(files[i].name))
    && (forall i, j :: 0 <= i < j < |files| ==> DigitsValue(files[i].name) <= DigitsValue(files[j].name))
  }

  /** `f` placed among index-named files in ascending order, before the first with a larger index. */
  function InsertByIndex(sorted: seq<ZipFile>, f: ZipFile): (r: seq<ZipFile>)
    requires IndexAscending(sorted) && IsIndexName(f.name)
    ensures IndexAscending(r)
    ensures multiset(r) == multiset(sorted) + multiset{f}
  {
    if sorted == [] || DigitsValue(f.name) <= DigitsValue(sorted[0].name) then [f] + sorted
    else
      var rest := InsertByIndex(sorted[1..], f);
      assert sorted == [sorted[0]] + sorted[1..];
      InsertedAbove(sorted, f, rest);
      AscendingCons(sorted[0], rest);
      [sorted[0]] + rest
  }

  /** What lands after the first file of an ascending sequence is no smaller than it. */
  lemma InsertedAbove(sorted: seq<ZipFile>, f: ZipFile, rest: seq<ZipFile>)
    requires IndexAscending(sorted) && sorted != [] && IsIndexName(f.name)
    requires DigitsValue(sorted[0].name) < DigitsValue(f.name)
    requires IndexAscending(rest) && multiset(rest) == multiset(sorted[1..]) + multiset{f}
    ensures forall j :: 0 <= j < |rest| ==> DigitsValue(sorted[0].name) <= DigitsValue(rest[j].name)
  {
    forall j | 0 <= j < |rest|
      ensures DigitsValue(sorted[0].name) <= DigitsValue(rest[j].name)
    {
      assert rest[j] in multiset(rest);
      if rest[j] != f {
        assert rest[j] in sorted[1..];
        var i :| 0 <= i < |sorted[1..]| && sorted[1..][i] == rest[j];
        assert sorted[i + 1] == rest[j];
      }
    }
  }

  /** A file no larger than every file of an ascending sequence can go in front of it. */
  lemma AscendingCons(x: ZipFile, rest: seq<ZipFile>)
    requires IsIndexName(x.name) && IndexAscending(rest)
    requires forall j :: 0 <= j < |rest| ==> DigitsValue(x.name) <= DigitsValue(rest[j].name)
    ensures IndexAscending([x] + rest)
  {
    var r := [x] + rest;
    assert forall i :: 0 < i < |r| ==> r[i] == rest[i - 1];
  }

  /** Index-named files in ascending order of the index. */
  function SortByIndex(files: seq<ZipFile>): (r: seq<ZipFile>)
    requires forall i :: 0 <= i < |files| ==> IsIndexName(files[i].name)
    ensures IndexAscending(r)
    ensures multiset(r) == multiset(files)
  {
    if files == [] then []
    else
      assert files == files[..|files| - 1] + [files[|files| - 1]];
      InsertByIndex(SortByIndex(files[..|files| - 1]), files[|files| - 1])
  }

  /**
   * `zip.generateAsync`: JSZip writes its files in the order `for…in`
   * enumerates its file table, so the array-index names come first in
   * ascending order, and the other names follow in the order they were
   * first added. The result holds the same files.
   */
  function Generated(files: seq<ZipFile>): (r: seq<ZipFile>)
    ensures multiset(r) == multiset(files)
    ensures var k := |IndexNamed(files)|;
      && k <= |r|
      && IndexAscending(r[..k])
      && r[k..] == OtherNamed(files)
  {
    var front := SortByIndex(IndexNamed(files));
    NamedPartition(files);
    assert |front| == |IndexNamed(files)| by {
      assert |multiset(front)| == |multiset(IndexNamed(files))|;
    }
    assert (front + OtherNamed(files))[..|front|] == front;
    front + OtherNamed(files)
  }

  /** Without array-index names the files are written in the order they were first added. */
  lemma GeneratedWithoutIndexNames(files: seq<ZipFile>)
    requires forall i :: 0 <= i < |files| ==> !IsIndexName(files[i].name)
    ensures Generated(files) == files
  {
    assert Generated(files)[0..] == Generated(files);
  }

  /** The written archive holds the files of the table, under the same names. */
  lemma GeneratedSameFiles(files: seq<ZipFile>)
    ensures forall f :: f in Generated(files) <==> f in files
    ensures forall n :: HasName(Generated(files), n) <==> HasName(files, n)
  {
    var r := Generated(files);
    forall f
      ensures f in r <==> f in files
    {
      assert f in r <==> f in multiset(r);
      assert f in files <==> f in multiset(files);
    }
    SameFilesSameNames(r, files);
  }

  lemma SameFilesSameNames(a: seq<ZipFile>, b: seq<ZipFile>)
    requires forall f :: f in a <==> f in b
    ensures forall n :: HasName(a, n) <==> HasName(b, n)
  {
    forall n | HasName(a, n)
      ensures HasName(b, n)
    {
      var i :| 0 <= i < |a| && a[i].name == n;
      assert a[i] in b;
    }
    forall n | HasName(b, n)
      ensures HasName(a, n)
    {
      var i :| 0 <= i < |b| && b[i].name == n;
      assert b[i] in a;
    }
  }

  /** A file with an array-index name added after one without is written first. */
  lemma IndexNameWrittenFirst(x: ZipFile, y: ZipFile)
    requires !IsIndexName(x.name) && IsIndexName(y.name)
    ensures Generated([x, y]) == [y, x]
  {
    SplitPair(x, y);
    SortOne(y);
    GeneratedParts([x, y]);
  }

  lemma SortOne(y: ZipFile)
    requires IsIndexName(y.name)
    ensures SortByIndex([y]) == [y]
  {
    assert [y][..0] == [];
  }

  /** `Generated` as the sorted index-named files followed by the others. */
  lemma GeneratedParts(files: seq<ZipFile>)
    ensures Generated(files) == SortByIndex(IndexNamed(files)) + OtherNamed(files)
  {
  }

  lemma SplitPair(x: ZipFile, y: ZipFile)
    requires !IsIndexName(x.name) && IsIndexName(y.name)
    ensures IndexNamed([x, y]) == [y] && OtherNamed([x, y]) == [x]
  {
    assert [x, y][1..] == [y];
    assert [y][1..] == [];
  }

  /** The layer `1` added after the layer `b` is written before it. */
  lemma LayerOneBeforeB(d: seq<bv8>, e: seq<bv8>)
    ensures Generated([ZipFile("b", d), ZipFile("1", e)]) == [ZipFile("1", e), ZipFile("b", d)]
  {
    assert DigitsValue("1") == 1;
    IndexNameWrittenFirst(ZipFile("b", d), ZipFile("1", e));
  }

  /** The name a layer gets when its entry has no non-empty string `name`. */
  function DefaultName(i: nat, extension: string): string
  {
    "layer-" + NatToString(i + 1) + "." + extension
  }

  /** The file name of entry `i`: its own name or the default one, sanitized. */
  function FileNameOf(e: Entry, i: nat, contentType: Option<string>): (r: string)
    ensures |r| <= 120
  {
    var candidate := if IsNonEmptyString(e.name) then e.name.s else DefaultName(i, LayerExtension(contentType, UrlOf(e)));
    SanitizeFilename(candidate)
  }

  /** The archive after `zip.file` of each addition in turn, starting from an empty archive. */
  function Archive(adds: seq<ZipFile>): (r: seq<ZipFile>)
    ensures DistinctNames(r) && |r| <= |adds|
  {
    if adds == [] then []
    else WithFile(Archive(adds[..|adds| - 1]), adds[|adds| - 1].name, adds[|adds| - 1].data)
  }

  lemma ArchiveSnoc(adds: seq<ZipFile>, f: ZipFile)
    ensures Archive(adds + [f]) == WithFile(Archive(adds), f.name, f.data)
  {
    assert (adds + [f])[..|adds|] == adds;
  }

  /** The name accepted entry `a` is stored under. */
  function NameAt(entries: seq<Entry>, a: Accepted): string
    requires a.index < |entries|
  {
    FileNameOf(entries[a.index], a.index, a.contentType)
  }

  /** The `zip.file` calls the accepted entries make, in order. */
  function AdditionsOf(entries: seq<Entry>, acc: seq<Accepted>): (r: seq<ZipFile>)
    requires forall k :: 0 <= k < |acc| ==> acc[k].index < |entries|
    ensures |r| == |acc|
    ensures forall k :: 0 <= k < |acc| ==> r[k] == ZipFile(NameAt(entries, acc[k]), acc[k].bytes)
  {
    seq(|acc|, k requires 0 <= k < |acc| => ZipFile(NameAt(entries, acc[k]), acc[k].bytes))
  }

  lemma AdditionsOfSnoc(entries: seq<Entry>, acc: seq<Accepted>, a: Accepted)
    requires forall k :: 0 <= k < |acc| ==> acc[k].index < |entries|
    requires a.index < |entries|
    ensures AdditionsOf(entries, acc + [a]) == AdditionsOf(entries, acc) + [ZipFile(NameAt(entries, a), a.bytes)]
  {
    var l, r := AdditionsOf(entries, acc + [a]), AdditionsOf(entries, acc) + [ZipFile(NameAt(entries, a), a.bytes)];
    assert forall k :: 0 <= k < |acc| ==> (acc + [a])[k] == acc[k];
    assert |l| == |r|;
    assert forall k :: 0 <= k < |l| ==> l[k] == r[k];
  }

  /**
   * The route. `req` is `None` when the body is not JSON; `fetch` says what
   * each URL's fetch gives.
   */
  function PostSpec(req: Option<Request>, fetch: string -> Fetched): Download<seq<ZipFile>>
  {
    if req.None? then Refused(500, Failure)
    else
      var images := ImagesOf(req.value);
      if images == [] then Refused(400, NoImages)
      else
        var outs := OutcomesOf(images, fetch);
        if !NoneThrew(outs, |outs|) then Refused(500, Failure)
        else
          var acc := AcceptedFirst(outs, |outs|);
          if acc == [] then Refused(400, NoneDownloaded)
          else
            var filename := AttachmentName(req.value.baseName, ".zip");
            Attachment(ZipType, ContentDisposition(filename), filename, Generated(Archive(AdditionsOf(images, acc))))
  }

  /**
   * The loop body for entry `i`: fetch it and, when its body was received,
   * add it to the archive. `threw` says whether the fetch threw, `added`
   * whether a file was added.
   */
  method AddLayer(zip: Zip, images: seq<Entry>, i: nat, fetch: string -> Fetched) returns (threw: bool, added: bool)
    requires i < |images|
    requires zip.files == Archive(AdditionsOf(images, AcceptedFirst(OutcomesOf(images, fetch), i)))
    modifies zip
    ensures threw == OutcomesOf(images, fetch)[i].Threw?
    ensures added == OutcomesOf(images, fetch)[i].Got?
    ensures !threw ==> zip.files == Archive(AdditionsOf(images, AcceptedFirst(OutcomesOf(images, fetch), i + 1)))
    ensures |AcceptedFirst(OutcomesOf(images, fetch), i + 1)| ==
      |AcceptedFirst(OutcomesOf(images, fetch), i)| + (if OutcomesOf(images, fetch)[i].Got? then 1 else 0)
  {
    ghost var outs := OutcomesOf(images, fetch);
    AcceptedFirstStep(outs, i);
    var outcome := FetchEntry(images, i, fetch);
    threw, added := outcome.Threw?, outcome.Got?;
    if outcome.Got? {
      ghost var prev := AcceptedFirst(outs, i);
      ghost var a := Accepted(i, outcome.contentType, outcome.bytes);
      AdditionsOfSnoc(images, prev, a);
      ArchiveSnoc(AdditionsOf(images, prev), ZipFile(NameAt(images, a), a.bytes));
      zip.File(FileNameOf(images[i], i, outcome.contentType), outcome.bytes);
    }
  }

  /**
   * The loop over the entries: `None` when a fetch throws, otherwise the
   * archive and the number of `zip.file` calls (`added`).
   */
  method AddLayers(images: seq<Entry>, fetch: string -> Fetched) returns (r: Option<(seq<ZipFile>, nat)>)
    ensures var outs := OutcomesOf(images, fetch);
      && (r.None? <==> !NoneThrew(outs, |outs|))
      && (r.Some? ==> r.value == (Archive(AdditionsOf(images, AcceptedFirst(outs, |outs|))), |AcceptedFirst(outs, |outs|)|))
  {
    var zip := new Zip();
    var added: nat := 0;
    ghost var outs := OutcomesOf(images, fetch);
    for i := 0 to |images|
      invariant NoneThrew(outs, i)
      invariant zip.files == Archive(AdditionsOf(images, AcceptedFirst(outs, i)))
      invariant added == |AcceptedFirst(outs, i)|
    {
      var threw, layerAdded := AddLayer(zip, images, i, fetch);
      if threw {
        return None;
      }
      NoneThrewStep(outs, i);
      if layerAdded {
        added := added + 1;
      }
    }
    r := Some((zip.files, added));
  }

  method Post(req: Option<Request>, fetch: string -> Fetched) returns (r: Download<seq<ZipFile>>)
    ensures r == PostSpec(req, fetch)
  {
    if req.None? {
      return Refused(500, Failure);
    }
    var images := ImagesOf(req.value);
    var baseName := BaseNameOf(req.value.baseName);
    if |images| == 0 {
      return Refused(400, NoImages);
    }
    var archive := AddLayers(images, fetch);
    if archive.None? {
      return Refused(500, Failure);
    }
    var (files, added) := archive.value;
    if added == 0 {
      return Refused(400, NoneDownloaded);
    }
    var filename := SanitizeFilename(baseName) + ".zip";
    r := Attachment(ZipType, ContentDisposition(filename), filename, Generated(files));
  }


  /** Every name added is in the archive. */
  lemma {:induction false} ArchiveHasEveryName(adds: seq<ZipFile>)
    ensures forall k :: 0 <= k < |adds| ==> HasName(Archive(adds), adds[k].name)
  {
    if adds != [] {
      var prev := adds[..|adds| - 1];
      var a := adds[|adds| - 1];
      var before := Archive(prev);
      var after := Archive(adds);
      ArchiveHasEveryName(prev);
      forall k | 0 <= k < |adds|
        ensures HasName(after, adds[k].name)
      {
        if adds[k].name == a.name {
          if HasName(before, a.name) {
            var i :| 0 <= i < |before| && before[i].name == a.name;
            assert after[i].name == a.name;
          } else {
            assert after[|before|].name == a.name;
          }
        } else {
          assert adds[k] == prev[k];
          var i :| 0 <= i < |before| && before[i].name == adds[k].name;
          assert after[i] == before[i];
        }
      }
    }
  }

  /** `f` is the addition at some position `k` and no later addition has its name. */
  predicate LastAddition(adds: seq<ZipFile>, f: ZipFile)
  {
    exists k :: 0 <= k < |adds| && f == adds[k] && forall l :: k < l < |adds| ==> adds[l].name != f.name
  }

  /**
   * Each file of the archive is the last addition with its name: a later
   * `zip.file` with the same name replaces an earlier one.
   */
  lemma {:induction false} ArchiveLastWins(adds: seq<ZipFile>)
    ensures forall f :: f in Archive(adds) ==> LastAddition(adds, f)
  {
    if adds != [] {
      var prev := adds[..|adds| - 1];
      ArchiveLastWins(prev);
      forall f | f in Archive(adds)
        ensures LastAddition(adds, f)
      {
        LastAdditionStep(prev, adds[|adds| - 1], f);
        assert prev + [adds[|adds| - 1]] == adds;
      }
    }
  }

  lemma LastAdditionStep(prev: seq<ZipFile>, a: ZipFile, f: ZipFile)
    requires forall g :: g in Archive(prev) ==> LastAddition(prev, g)
    requires f in WithFile(Archive(prev), a.name, a.data)
    ensures LastAddition(prev + [a], f)
  {
    var adds := prev + [a];
    var before := Archive(prev);
    var i :| 0 <= i < |WithFile(before, a.name, a.data)| && WithFile(before, a.name, a.data)[i] == f;
    if f.name == a.name {
      LastFileIsNew(before, a.name, a.data, i);
      assert f == adds[|adds| - 1];
    } else {
      OtherFileWasThere(before, a.name, a.data, i);
      assert f in before;
      var k :| 0 <= k < |prev| && f == prev[k] && forall l :: k < l < |prev| ==> prev[l].name != f.name;
      assert adds[k] == prev[k];
      forall l | k < l < |adds|
        ensures adds[l].name != f.name
      {
        if l < |prev| {
          assert adds[l] == prev[l];
        }
      }
    }
  }

  lemma LastFileIsNew(files: seq<ZipFile>, name: string, data: seq<bv8>, i: nat)
    requires DistinctNames(files)
    requires i < |WithFile(files, name, data)| && WithFile(files, name, data)[i].name == name
    ensures WithFile(files, name, data)[i] == ZipFile(name, data)
  {
  }

  lemma OtherFileWasThere(files: seq<ZipFile>, name: string, data: seq<bv8>, i: nat)
    requires DistinctNames(files)
    requires i < |WithFile(files, name, data)| && WithFile(files, name, data)[i].name != name
    ensures i < |files| && WithFile(files, name, data)[i] == files[i]
  {
  }

  /** Additions with distinct names give the archive of exactly those files, in order. */
  lemma {:induction false} ArchiveOfDistinct(adds: seq<ZipFile>)
    requires DistinctNames(adds)
    ensures Archive(adds) == adds
  {
    if adds != [] {
      var prev := adds[..|adds| - 1];
      var a := adds[|adds| - 1];
      ArchiveOfDistinct(prev);
      assert !HasName(prev, a.name) by {
        forall i | 0 <= i < |prev|
          ensures prev[i].name != a.name
        {
          assert prev[i] == adds[i];
        }
      }
      assert prev + [a] == adds;
    }
  }

  /** A request some check refuses gets its status and message. */
  lemma PostRefusals(req: Option<Request>, fetch: string -> Fetched)
    ensures req.None? ==> PostSpec(req, fetch) == Refused(500, Failure)
    ensures req.Some? && ImagesOf(req.value) == [] ==> PostSpec(req, fetch) == Refused(400, NoImages)
    ensures req.Some? && (exists i :: 0 <= i < |ImagesOf(req.value)| && Fetchable(ImagesOf(req.value)[i])
                                      && fetch(UrlOf(ImagesOf(req.value)[i])).FetchThrew?) ==>
      PostSpec(req, fetch) == Refused(500, Failure)
    ensures req.Some? && ImagesOf(req.value) != [] &&
            (forall i :: 0 <= i < |ImagesOf(req.value)| && Fetchable(ImagesOf(req.value)[i]) ==>
               fetch(UrlOf(ImagesOf(req.value)[i])).NotOk?) ==>
      PostSpec(req, fetch) == Refused(400, NoneDownloaded)
  {
    if req.Some? && ImagesOf(req.value) != [] {
      var images := ImagesOf(req.value);
      var outs := OutcomesOf(images, fetch);
      var acc := AcceptedFirst(outs, |outs|);
      AcceptedFirstSound(outs, |outs|);
      if acc != [] {
        assert outs[acc[0].index].Got?;
      }
    }
  }

  /**
   * The archive is sent exactly when the body is JSON, no fetch of a usable
   * URL throws and at least one such fetch is `ok`.
   */
  lemma AttachmentIff(req: Option<Request>, fetch: string -> Fetched)
    ensures PostSpec(req, fetch).Attachment? <==>
      && req.Some?
      && (forall i :: 0 <= i < |ImagesOf(req.value)| && Fetchable(ImagesOf(req.value)[i]) ==>
            !fetch(UrlOf(ImagesOf(req.value)[i])).FetchThrew?)
      && (exists i :: 0 <= i < |ImagesOf(req.value)| && Fetchable(ImagesOf(req.value)[i])
                      && fetch(UrlOf(ImagesOf(req.value)[i])).Received?)
  {
    if req.Some? {
      var images := ImagesOf(req.value);
      var outs := OutcomesOf(images, fetch);
      assert PostSpec(req, fetch).Attachment? <==> images != [] && NoneThrew(outs, |outs|) && AcceptedFirst(outs, |outs|) != [];
      OutcomesIff(images, fetch);
    }
  }

  /** No fetch threw, and some fetch was received, in terms of the entries. */
  lemma OutcomesIff(images: seq<Entry>, fetch: string -> Fetched)
    ensures var outs := OutcomesOf(images, fetch);
      && (NoneThrew(outs, |outs|) <==> forall i :: 0 <= i < |images| && Fetchable(images[i]) ==> !fetch(UrlOf(images[i])).FetchThrew?)
      && (AcceptedFirst(outs, |outs|) != [] <==> exists i :: 0 <= i < |images| && Fetchable(images[i]) && fetch(UrlOf(images[i])).Received?)
  {
    var outs := OutcomesOf(images, fetch);
    AcceptedNonEmptyIff(outs);
    assert (exists i :: 0 <= i < |outs| && outs[i].Got?) <==>
      exists i :: 0 <= i < |images| && Fetchable(images[i]) && fetch(UrlOf(images[i])).Received?;
  }

  /** The attachment's shape: what the request must satisfy and the archive it carries. */
  lemma AttachmentOf(req: Option<Request>, fetch: string -> Fetched)
    requires PostSpec(req, fetch).Attachment?
    ensures req.Some?
    ensures var images := ImagesOf(req.value);
      var outs := OutcomesOf(images, fetch);
      var acc := AcceptedFirst(outs, |outs|);
      var filename := AttachmentName(req.value.baseName, ".zip");
      && NoneThrew(outs, |outs|) && acc != []
      && PostSpec(req, fetch) == Attachment(ZipType, ContentDisposition(filename), filename, Generated(Archive(AdditionsOf(images, acc))))
  {
  }

  /** The attachment: a ZIP named after the sanitized base name (`qwen-image-layered.zip` by default), named verbatim in both header parameters. */
  lemma AttachmentHeader(req: Option<Request>, fetch: string -> Fetched)
    requires PostSpec(req, fetch).Attachment?
    ensures var d := PostSpec(req, fetch);
      && d.contentType == ZipType
      && d.filename == SanitizeFilename(BaseNameOf(req.value.baseName)) + ".zip"
      && d.disposition == "attachment; filename=\"" + d.filename + "\"; filename*=UTF-8''" + d.filename
      && (!IsNonEmptyString(req.value.baseName) ==> d.filename == DefaultBaseName + ".zip")
  {
    var d := PostSpec(req, fetch);
    var n := AttachmentName(req.value.baseName, ".zip");
    AttachmentOf(req, fetch);
    assert d.filename == n && d.disposition == ContentDisposition(n);
    ZipSuffixClean();
    AttachmentDisposition(req.value.baseName, ".zip");
    if !IsNonEmptyString(req.value.baseName) {
      DefaultAttachmentName(req.value.baseName, ".zip");
    }
  }

  lemma ZipSuffixClean()
    ensures forall i :: 0 <= i < |".zip"| ==> IsFilenameChar(".zip"[i])
  {
  }

  /**
   * What the archive holds: a file under the name of every received entry,
   * and each file is the body of a received entry under that entry's name,
   * with no later received entry of the same name (a later `zip.file` of a
   * name replaces the earlier data).
   */
  lemma ArchiveContents(req: Option<Request>, fetch: string -> Fetched)
    requires PostSpec(req, fetch).Attachment?
    ensures var images := ImagesOf(req.value);
      var content := PostSpec(req, fetch).content;
      && (forall i :: 0 <= i < |images| && OutcomeOf(images[i], fetch).Got? ==>
            HasName(content, FileNameOf(images[i], i, OutcomeOf(images[i], fetch).contentType)))
      && (forall f :: f in content ==> LatestReceived(images, fetch, f))
  {
    AttachmentOf(req, fetch);
    ReceivedArchive(ImagesOf(req.value), fetch);
    GeneratedSameFiles(Archive(AdditionsOf(ImagesOf(req.value), AcceptedFirst(OutcomesOf(ImagesOf(req.value), fetch), |ImagesOf(req.value)|))));
  }

  lemma ReceivedArchive(images: seq<Entry>, fetch: string -> Fetched)
    ensures var content := Archive(AdditionsOf(images, AcceptedFirst(OutcomesOf(images, fetch), |images|)));
      && (forall i :: 0 <= i < |images| && OutcomeOf(images[i], fetch).Got? ==>
            HasName(content, FileNameOf(images[i], i, OutcomeOf(images[i], fetch).contentType)))
      && (forall f :: f in content ==> LatestReceived(images, fetch, f))
  {
    ReceivedNamesKept(images, fetch);
    ReceivedFilesLatest(images, fetch);
  }

  lemma ReceivedNamesKept(images: seq<Entry>, fetch: string -> Fetched)
    ensures var content := Archive(AdditionsOf(images, AcceptedFirst(OutcomesOf(images, fetch), |images|)));
      forall i :: 0 <= i < |images| && OutcomeOf(images[i], fetch).Got? ==>
        HasName(content, FileNameOf(images[i], i, OutcomeOf(images[i], fetch).contentType))
  {
    var outs := OutcomesOf(images, fetch);
    var acc := AcceptedFirst(outs, |outs|);
    var adds := AdditionsOf(images, acc);
    ArchiveHasEveryName(adds);
    AcceptedFirstSound(outs, |outs|);
    forall i | 0 <= i < |images| && OutcomeOf(images[i], fetch).Got?
      ensures HasName(Archive(adds), FileNameOf(images[i], i, OutcomeOf(images[i], fetch).contentType))
    {
      AcceptedFirstComplete(outs, |outs|, i);
      var k :| 0 <= k < |acc| && acc[k].index == i;
      assert adds[k].name == NameAt(images, acc[k]);
    }
  }

  lemma ReceivedFilesLatest(images: seq<Entry>, fetch: string -> Fetched)
    ensures var content := Archive(AdditionsOf(images, AcceptedFirst(OutcomesOf(images, fetch), |images|)));
      forall f :: f in content ==> LatestReceived(images, fetch, f)
  {
    var outs := OutcomesOf(images, fetch);
    var acc := AcceptedFirst(outs, |outs|);
    var adds := AdditionsOf(images, acc);
    ArchiveLastWins(adds);
    forall f | f in Archive(adds)
      ensures LatestReceived(images, fetch, f)
    {
      var k := LastIndex(adds, f);
      LatestFromAddition(images, fetch, k, f);
    }
  }

  /** The position of the addition that left `f` in the archive. */
  lemma LastIndex(adds: seq<ZipFile>, f: ZipFile) returns (k: nat)
    requires LastAddition(adds, f)
    ensures k < |adds| && f == adds[k] && forall l :: k < l < |adds| ==> adds[l].name != f.name
  {
    k :| 0 <= k < |adds| && f == adds[k] && forall l :: k < l < |adds| ==> adds[l].name != f.name;
  }

  /** `f` is the body of received entry `i` under its name, and no later received entry has that name. */
  predicate LatestReceived(images: seq<Entry>, fetch: string -> Fetched, f: ZipFile)
  {
    exists i :: 0 <= i < |images| && OutcomeOf(images[i], fetch).Got?
      && f == ZipFile(FileNameOf(images[i], i, OutcomeOf(images[i], fetch).contentType), OutcomeOf(images[i], fetch).bytes)
      && forall j :: i < j < |images| && OutcomeOf(images[j], fetch).Got? ==>
           FileNameOf(images[j], j, OutcomeOf(images[j], fetch).contentType) != f.name
  }

  lemma LatestFromAddition(images: seq<Entry>, fetch: string -> Fetched, k: nat, f: ZipFile)
    requires var acc := AcceptedFirst(OutcomesOf(images, fetch), |images|);
      var adds := AdditionsOf(images, acc);
      && k < |adds| && f == adds[k] && forall l :: k < l < |adds| ==> adds[l].name != f.name
    ensures LatestReceived(images, fetch, f)
  {
    var outs := OutcomesOf(images, fetch);
    var acc := AcceptedFirst(outs, |images|);
    AcceptedFirstSound(outs, |images|);
    var i := acc[k].index;
    assert OutcomeOf(images[i], fetch) == Got(acc[k].contentType, acc[k].bytes);
    assert f == ZipFile(FileNameOf(images[i], i, OutcomeOf(images[i], fetch).contentType), OutcomeOf(images[i], fetch).bytes);
    forall j | i < j < |images| && OutcomeOf(images[j], fetch).Got?
      ensures FileNameOf(images[j], j, OutcomeOf(images[j], fetch).contentType) != f.name
    {
      var l := LaterAddition(images, fetch, k, j);
    }
  }

  /** A received entry after the `k`th listed one is listed after it, under its own name. */
  lemma LaterAddition(images: seq<Entry>, fetch: string -> Fetched, k: nat, j: nat) returns (l: nat)
    requires var acc := AcceptedFirst(OutcomesOf(images, fetch), |images|);
      && k < |acc| && acc[k].index < j < |images| && OutcomeOf(images[j], fetch).Got?
    ensures var acc := AcceptedFirst(OutcomesOf(images, fetch), |images|);
      var adds := AdditionsOf(images, acc);
      && k < l < |adds| && adds[l].name == FileNameOf(images[j], j, OutcomeOf(images[j], fetch).contentType)
  {
    var outs := OutcomesOf(images, fetch);
    var acc := AcceptedFirst(outs, |images|);
    l := AcceptedAt(outs, |images|, j);
    IndexOrder(acc, k, l);
    assert outs[j] == OutcomeOf(images[j], fetch);
    assert AdditionsOf(images, acc)[l] == ZipFile(NameAt(images, acc[l]), acc[l].bytes);
  }

  /** In a list of accepted entries with increasing indices, a larger index is listed later. */
  lemma IndexOrder(acc: seq<Accepted>, k: nat, l: nat)
    requires forall a, b :: 0 <= a < b < |acc| ==> acc[a].index < acc[b].index
    requires k < |acc| && l < |acc| && acc[k].index < acc[l].index
    ensures k < l
  {
  }

  /** The default names of two different positions differ, whatever their extensions. */
  lemma DefaultNamesDistinct(i: nat, j: nat, e1: string, e2: string)
    requires i != j && i < 999999 && j < 999999
    requires e1 in {"png", "webp", "jpg"} && e2 in {"png", "webp", "jpg"}
    ensures SanitizeFilename(DefaultName(i, e1)) != SanitizeFilename(DefaultName(j, e2))
  {
    DefaultNameIsClean(i, e1);
    DefaultNameIsClean(j, e2);
    DefaultNamesDiffer(i, j, e1, e2);
  }

  lemma DefaultNamesDiffer(i: nat, j: nat, e1: string, e2: string)
    requires i != j
    ensures DefaultName(i, e1) != DefaultName(j, e2)
  {
    assert DefaultName(i, e1) == "layer-" + NatToString(i + 1) + ("." + e1);
    assert DefaultName(j, e2) == "layer-" + NatToString(j + 1) + ("." + e2);
    if DefaultName(i, e1) == DefaultName(j, e2) {
      NumberedKeysDistinct("layer-", i + 1, j + 1, "." + e1, "." + e2);
    }
  }

  /** A default name is short and made of file-name characters, so sanitizing keeps it. */
  lemma DefaultNameIsClean(i: nat, e: string)
    requires i < 999999 && e in {"png", "webp", "jpg"}
    ensures SanitizeFilename(DefaultName(i, e)) == DefaultName(i, e)
  {
    var digits := NatToString(i + 1);
    assert Pow10(6) == 1000000;
    NatToStringLength(i + 1, 6);
    var n := DefaultName(i, e);
    assert n == "layer-" + digits + "." + e;
    forall k | 0 <= k < |n|
      ensures IsFilenameChar(n[k])
    {
      if k < 6 {
        assert n[k] == "layer-"[k];
      } else if k < 6 + |digits| {
        assert n[k] == digits[k - 6];
      } else if k > 6 + |digits| {
        assert n[k] == e[k - 7 - |digits|];
      }
    }
    SanitizeKeepsCleanNames(n);
  }

  /** A default name starts with `layer-`, so it is never an array index and keeps its place. */
  lemma DefaultNameNotIndex(i: nat, e: string)
    ensures !IsIndexName(DefaultName(i, e))
  {
    assert DefaultName(i, e)[0] == 'l';
  }

  /**
   * When no entry carries its own name (and there are fewer than 999999),
   * every received entry becomes its own file: the archive lists them in
   * order as `layer-{i + 1}.{extension}`.
   */
  lemma UnnamedLayersAllKept(req: Option<Request>, fetch: string -> Fetched)
    requires PostSpec(req, fetch).Attachment?
    requires |ImagesOf(req.value)| < 999999
    requires forall i :: 0 <= i < |ImagesOf(req.value)| ==> !IsNonEmptyString(ImagesOf(req.value)[i].name)
    ensures var images := ImagesOf(req.value);
      var acc := AcceptedFirst(OutcomesOf(images, fetch), |images|);
      var content := PostSpec(req, fetch).content;
      && |content| == |acc|
      && forall k :: 0 <= k < |acc| ==>
           content[k] == ZipFile(DefaultName(acc[k].index, LayerExtension(acc[k].contentType, UrlOf(images[acc[k].index]))), acc[k].bytes)
  {
    var images := ImagesOf(req.value);
    var acc := AcceptedFirst(OutcomesOf(images, fetch), |images|);
    AttachmentOf(req, fetch);
    UnnamedAdditions(images, acc);
    ArchiveOfDistinct(AdditionsOf(images, acc));
    var adds := AdditionsOf(images, acc);
    forall k | 0 <= k < |adds|
      ensures !IsIndexName(adds[k].name)
    {
      DefaultNameNotIndex(acc[k].index, LayerExtension(acc[k].contentType, UrlOf(images[acc[k].index])));
    }
    GeneratedWithoutIndexNames(adds);
  }

  /** Additions of unnamed entries at increasing positions carry their default names, all different. */
  lemma UnnamedAdditions(images: seq<Entry>, acc: seq<Accepted>)
    requires |images| < 999999
    requires forall i :: 0 <= i < |images| ==> !IsNonEmptyString(images[i].name)
    requires forall k :: 0 <= k < |acc| ==> acc[k].index < |images|
    requires forall k, l :: 0 <= k < l < |acc| ==> acc[k].index < acc[l].index
    ensures var adds := AdditionsOf(images, acc);
      && DistinctNames(adds)
      && forall k :: 0 <= k < |acc| ==>
           adds[k].name == DefaultName(acc[k].index, LayerExtension(acc[k].contentType, UrlOf(images[acc[k].index])))
  {
    var adds := AdditionsOf(images, acc);
    forall k | 0 <= k < |acc|
      ensures adds[k].name == DefaultName(acc[k].index, LayerExtension(acc[k].contentType, UrlOf(images[acc[k].index])))
    {
      DefaultNameIsClean(acc[k].index, LayerExtension(acc[k].contentType, UrlOf(images[acc[k].index])));
    }
    forall k, l | 0 <= k < l < |adds|
      ensures adds[k].name != adds[l].name
    {
      DefaultNamesDistinct(acc[k].index, acc[l].index,
        LayerExtension(acc[k].contentType, UrlOf(images[acc[k].index])),
        LayerExtension(acc[l].contentType, UrlOf(images[acc[l].index])));
    }
  }
}
