/**
 * The reference images an image studio holds (nano-banana-pro,
 * qwen-image-layered): the files it takes, what each comes to, the two
 * lists of data URLs and stored URLs kept in step, the error marks kept
 * per upload slot, and removing a position.
 */
module ReferenceImages {

  import opened Wrappers
  import opened Js
  import opened UploadClient

  /** A file chosen in the input: its size, its MIME type and what reading it as a data URL gives. */
  datatype UploadFile = UploadFile(size: nat, mimeType: string, contents: Result<string>)

  /** What one file comes to: refused by the component's own check, uploaded, or failing in the upload. */
  datatype FileOutcome = Rejected(error: string) | Added(uploaded: Uploaded) | Failed(error: string)

  /** `files.slice(0, limit - held)`: the files handled when `held` of `limit` images are already there. */
  function ToProcess(files: seq<UploadFile>, held: nat, limit: nat): (r: seq<UploadFile>)
    ensures r <= files
    ensures held <= limit ==> |r| == if |files| < limit - held then |files| else limit - held
    ensures held == limit ==> r == []
  {
    SliceTo(files, limit - held)
  }

  /** The reference images held: the data URLs shown, the stored URLs sent, the error per slot. */
  datatype References = References(images: seq<string>, urls: seq<string>, errors: map<nat, string>)

  const NoReferences := References([], [], map[])

  /** Both lists have the same length, at most `limit`. */
  predicate Aligned(refs: References, limit: nat)
  {
    |refs.images| == |refs.urls| <= limit
  }

  /**
   * One file at slot `k`: a refusal sets its error; an accepted file first
   * clears it, then either appends the image and URL or sets the upload's
   * message.
   */
  function StepRefs(refs: References, k: nat, o: FileOutcome): (r: References)
    ensures |r.images| <= |refs.images| + 1
    ensures |refs.images| == |refs.urls| ==> |r.images| == |r.urls|
  {
    match o
    case Rejected(m) => refs.(errors := refs.errors[k := m])
    case Added(u) => References(refs.images + [u.base64], refs.urls + [u.url], refs.errors - {k})
    case Failed(m) => refs.(errors := (refs.errors - {k})[k := m])
  }

  /** The files in order, the first at slot `base`. */
  function Uploads(refs: References, base: nat, outs: seq<FileOutcome>): References
    decreases |outs|
  {
    if outs == [] then refs
    else
      var n := |outs| - 1;
      StepRefs(Uploads(refs, base, outs[..n]), base + n, outs[n])
  }

  /** What `handleFileChange` leaves: the slots are numbered on from the images held. */
  function AfterUploads(refs: References, outs: seq<FileOutcome>): References
  {
    Uploads(refs, |refs.images|, outs)
  }

  /** `filter((_, i) => i !== index)`. */
  function Omit(s: seq<string>, index: nat): (r: seq<string>)
    ensures index < |s| ==> |r| == |s| - 1
    ensures index >= |s| ==> r == s
    ensures forall j :: 0 <= j < |r| ==> r[j] == if j < index then s[j] else s[j + 1]
  {
    if index < |s| then s[..index] + s[index + 1..] else s
  }

  /** `removeImage(index)`: the position leaves both lists, the error at that slot is dropped, other slots keep their numbers. */
  function Removed(refs: References, index: nat): References
  {
    References(Omit(refs.images, index), Omit(refs.urls, index), refs.errors - {index})
  }

  lemma UploadsSnoc(refs: References, base: nat, outs: seq<FileOutcome>, o: FileOutcome)
    ensures Uploads(refs, base, outs + [o]) == StepRefs(Uploads(refs, base, outs), base + |outs|, o)
  {
    assert (outs + [o])[..|outs|] == outs;
  }

  // ------------------------------------------------------------------ lemmas

  /** The uploads that succeeded, in order. */
  function AddedOf(outs: seq<FileOutcome>): (r: seq<Uploaded>)
    ensures |r| <= |outs|
    decreases |outs|
  {
    if outs == [] then []
    else
      var n := |outs| - 1;
      AddedOf(outs[..n]) + (if outs[n].Added? then [outs[n].uploaded] else [])
  }

  function Bases(us: seq<Uploaded>): (r: seq<string>)
    ensures |r| == |us| && forall i :: 0 <= i < |us| ==> r[i] == us[i].base64
  {
    seq(|us|, i requires 0 <= i < |us| => us[i].base64)
  }

  function Urls(us: seq<Uploaded>): (r: seq<string>)
    ensures |r| == |us| && forall i :: 0 <= i < |us| ==> r[i] == us[i].url
  {
    seq(|us|, i requires 0 <= i < |us| => us[i].url)
  }

  /**
   * The uploads that succeed are appended to both lists, in the order of
   * the files and at the same positions, so an image and its URL stay
   * together; refused and failed files add nothing.
   */
  lemma {:induction false} UploadsLists(refs: References, base: nat, outs: seq<FileOutcome>)
    ensures Uploads(refs, base, outs).images == refs.images + Bases(AddedOf(outs))
    ensures Uploads(refs, base, outs).urls == refs.urls + Urls(AddedOf(outs))
    decreases |outs|
  {
    if outs != [] {
      var n := |outs| - 1;
      UploadsLists(refs, base, outs[..n]);
      var a := AddedOf(outs[..n]);
      if outs[n].Added? {
        assert AddedOf(outs) == a + [outs[n].uploaded];
        assert Bases(a + [outs[n].uploaded]) == Bases(a) + [outs[n].uploaded.base64];
        assert Urls(a + [outs[n].uploaded]) == Urls(a) + [outs[n].uploaded.url];
      } else {
        assert AddedOf(outs) == a;
      }
    }
  }

  /**
   * After the files the slot of file `i` is `base + i`: it holds the
   * refusal or upload message exactly when the file was not added, and
   * the slots outside the files keep what they held.
   */
  lemma {:induction false} UploadsErrors(refs: References, base: nat, outs: seq<FileOutcome>)
    ensures forall i :: 0 <= i < |outs| ==>
      (base + i in Uploads(refs, base, outs).errors <==> !outs[i].Added?)
      && (!outs[i].Added? ==> Uploads(refs, base, outs).errors[base + i] == outs[i].error)
    ensures forall k: nat :: k < base || base + |outs| <= k ==>
      (k in Uploads(refs, base, outs).errors <==> k in refs.errors)
      && (k in refs.errors ==> Uploads(refs, base, outs).errors[k] == refs.errors[k])
    decreases |outs|
  {
    if outs != [] {
      var n := |outs| - 1;
      UploadsErrors(refs, base, outs[..n]);
      forall i | 0 <= i < n
        ensures outs[..n][i] == outs[i]
      {
      }
    }
  }

  /** With at most `limit - held` files the lists stay aligned and within the limit. */
  lemma UploadsStayAligned(refs: References, outs: seq<FileOutcome>, limit: nat)
    requires Aligned(refs, limit) && |refs.images| + |outs| <= limit
    ensures Aligned(AfterUploads(refs, outs), limit)
  {
    UploadsLists(refs, |refs.images|, outs);
  }

  /**
   * The error marks are kept by slot while the images are shown by
   * position: when the first of two files fails and the second is added,
   * the failure's message sits at slot 0, where the added image is shown.
   */
  lemma ErrorSlotIsNotImagePosition(m: string, u: Uploaded)
    ensures AfterUploads(NoReferences, [Failed(m), Added(u)]).images == [u.base64]
    ensures 0 in AfterUploads(NoReferences, [Failed(m), Added(u)]).errors
  {
    UploadsLists(NoReferences, 0, [Failed(m), Added(u)]);
    UploadsErrors(NoReferences, 0, [Failed(m), Added(u)]);
    assert AddedOf([Failed(m), Added(u)]) == [u] by {
      assert [Failed(m), Added(u)][..1] == [Failed(m)];
      assert [Failed(m)][..0] == [];
    }
  }

  /**
   * Removing a position takes it out of both lists, so each remaining
   * image keeps its own URL; a position past the end changes neither
   * list; only that slot's error is dropped.
   */
  lemma RemovedStaysAligned(refs: References, index: nat, limit: nat)
    requires Aligned(refs, limit)
    ensures Aligned(Removed(refs, index), limit)
    ensures index < |refs.images| ==> |Removed(refs, index).images| == |refs.images| - 1
    ensures forall j :: 0 <= j < |Removed(refs, index).images| ==>
      var from := if j < index then j else j + 1;
      Removed(refs, index).images[j] == refs.images[from] && Removed(refs, index).urls[j] == refs.urls[from]
    ensures index !in Removed(refs, index).errors
    ensures forall k :: k != index && k in refs.errors ==> k in Removed(refs, index).errors && Removed(refs, index).errors[k] == refs.errors[k]
  {
  }
}
