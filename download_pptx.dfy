/**
 * `POST /api/qwen-image-layered/download-pptx`: fetch the listed layer
 * images and send them back as a presentation with one full-slide picture
 * per image. WebP pictures are converted to PNG first. Entries without a
 * usable URL or whose response is not `ok` are skipped; a fetch or a
 * conversion that throws fails the whole request.
 */
module DownloadPptx {

  import opened Wrappers
  import opened Strings
  import opened Js
  import opened Filenames
  import opened LayerDownload

  const Failure := "Unable to create PPTX"
  const PptxType := "application/vnd.openxmlformats-officedocument.presentationml.presentation"
  const Layout := "LAYOUT_WIDE"
  const Author := "Qwen Image Layered"
  const DefaultType := "image/png"

  /** A picture placed on a slide: its data URI and its box, in inches. */
  datatype Image = Image(data: string, x: real, y: real, w: real, h: real)

  datatype Slide = Slide(images: seq<Image>)

  /** What `pptx.write` serialises. */
  datatype Deck = Deck(layout: string, author: string, slides: seq<Slide>)

  /** The presentation under construction. */
  class Presentation {
    var layout: string
    var author: string
    var slides: seq<Slide>

    constructor ()
      ensures slides == []
    {
      slides := [];
    }

    function Contents(): Deck
      reads this
    {
      Deck(layout, author, slides)
    }

    /** `pptx.addSlide()`: a new empty slide at the end. */
    method AddSlide()
      modifies this
      ensures Contents() == old(Contents()).(slides := old(slides) + [Slide([])])
    {
      slides := slides + [Slide([])];
    }

    /** `slide.addImage(...)` on the slide just added. */
    method AddImage(image: Image)
      requires slides != []
      modifies this
      ensures Contents() == old(Contents()).(slides := old(slides)[..|old(slides)| - 1] + [Slide(old(slides)[|old(slides)| - 1].images + [image])])
    {
      slides := slides[..|slides| - 1] + [Slide(slides[|slides| - 1].images + [image])];
    }
  }

  /** A picture ready for its data URI: the content type and the bytes. */
  datatype Picture = Picture(contentType: string, bytes: seq<bv8>)

  /** The header's content type, `image/png` when it is missing or empty. */
  function HeaderType(contentType: Option<string>): string
  {
    OrElse(contentType, DefaultType)
  }

  /**
   * The picture of a received entry: a content type mentioning `webp` is
   * converted with `toPng` (`None` when the conversion throws) and becomes
   * `image/png`; any other is kept with its bytes.
   */
  function PictureOf(header: Option<string>, bytes: seq<bv8>, toPng: seq<bv8> -> Option<seq<bv8>>): (r: Option<Picture>)
  {
    var t := HeaderType(header);
    if Contains(t, "webp") then
      match toPng(bytes)
      case None => None
      case Some(png) => Some(Picture(DefaultType, png))
    else Some(Picture(t, bytes))
  }

  function PictureOfAccepted(a: Accepted, toPng: seq<bv8> -> Option<seq<bv8>>): Option<Picture>
  {
    PictureOf(a.contentType, a.bytes, toPng)
  }

  /**
   * Only a failed WebP conversion gives no picture; no picture declares
   * WebP; a missing or empty type is PNG with the bytes as received.
   */
  lemma PictureTypes(header: Option<string>, bytes: seq<bv8>, toPng: seq<bv8> -> Option<seq<bv8>>)
    ensures PictureOf(header, bytes, toPng).None? <==> Contains(HeaderType(header), "webp") && toPng(bytes).None?
    ensures PictureOf(header, bytes, toPng).Some? ==> !Contains(PictureOf(header, bytes, toPng).value.contentType, "webp")
    ensures header.None? || header == Some("") ==> PictureOf(header, bytes, toPng) == Some(Picture("image/png", bytes))
    ensures Contains(HeaderType(header), "webp") && toPng(bytes).Some? ==>
      PictureOf(header, bytes, toPng) == Some(Picture("image/png", toPng(bytes).value))
  {
    PngIsNotWebp();
  }

  lemma PngIsNotWebp()
    ensures !Contains(DefaultType, "webp")
  {
    NotContainsFirst(DefaultType, "webp");
  }

  /** Every listed entry converts without a throw. */
  predicate AllConverted(acc: seq<Accepted>, toPng: seq<bv8> -> Option<seq<bv8>>)
  {
    forall k :: 0 <= k < |acc| ==> PictureOfAccepted(acc[k], toPng).Some?
  }

  /** `data:{contentType};base64,{base64}`, with `base64` the encoder of the bytes. */
  function DataUri(p: Picture, base64: seq<bv8> -> string): (r: string)
    ensures StartsWith(r, "data:" + p.contentType + ";base64,")
  {
    var prefix := "data:" + p.contentType + ";base64,";
    var r := prefix + base64(p.bytes);
    assert r[..|prefix|] == prefix;
    r
  }

  /** The slide of a picture: the whole 13.33 × 7.5 inch wide slide. */
  function SlideOf(p: Picture, base64: seq<bv8> -> string): Slide
  {
    Slide([Image(DataUri(p, base64), 0.0, 0.0, 13.33, 7.5)])
  }

  /** The slides of the listed entries, one each, in order. */
  function SlidesOf(acc: seq<Accepted>, toPng: seq<bv8> -> Option<seq<bv8>>, base64: seq<bv8> -> string): (r: seq<Slide>)
    requires AllConverted(acc, toPng)
    ensures |r| == |acc|
    ensures forall k :: 0 <= k < |acc| ==> r[k] == SlideOf(PictureOfAccepted(acc[k], toPng).value, base64)
  {
    seq(|acc|, k requires 0 <= k < |acc| => SlideOf(PictureOfAccepted(acc[k], toPng).value, base64))
  }

  lemma SlidesOfSnoc(acc: seq<Accepted>, a: Accepted, toPng: seq<bv8> -> Option<seq<bv8>>, base64: seq<bv8> -> string)
    requires AllConverted(acc, toPng) && PictureOfAccepted(a, toPng).Some?
    ensures AllConverted(acc + [a], toPng)
    ensures SlidesOf(acc + [a], toPng, base64) == SlidesOf(acc, toPng, base64) + [SlideOf(PictureOfAccepted(a, toPng).value, base64)]
  {
    assert forall k :: 0 <= k < |acc| ==> (acc + [a])[k] == acc[k];
    var l, r := SlidesOf(acc + [a], toPng, base64), SlidesOf(acc, toPng, base64) + [SlideOf(PictureOfAccepted(a, toPng).value, base64)];
    assert forall k :: 0 <= k < |l| ==> l[k] == r[k];
  }

  /**
   * The route. `req` is `None` when the body is not JSON; `fetch` says what
   * each URL's fetch gives, `toPng` what the WebP conversion gives and
   * `base64` is the encoder of the data URIs.
   */
  function PostSpec(req: Option<Request>, fetch: string -> Fetched, toPng: seq<bv8> -> Option<seq<bv8>>,
                    base64: seq<bv8> -> string): Download<Deck>
  {
    if req.None? then Refused(500, Failure)
    else
      var images := ImagesOf(req.value);
      if images == [] then Refused(400, NoImages)
      else
        var outs := OutcomesOf(images, fetch);
        var acc := AcceptedFirst(outs, |outs|);
        if !NoneThrew(outs, |outs|) || !AllConverted(acc, toPng) then Refused(500, Failure)
        else if acc == [] then Refused(400, NoneDownloaded)
        else
          var filename := AttachmentName(req.value.baseName, ".pptx");
          Attachment(PptxType, ContentDisposition(filename), filename, Deck(Layout, Author, SlidesOf(acc, toPng, base64)))
  }

  /**
   * The loop body for entry `i`: fetch it and, when its body was received,
   * convert it if it is WebP and add a slide with its picture. `failed`
   * says whether the fetch or the conversion threw, `added` whether a
   * slide was added.
   */
  method AddLayer(pptx: Presentation, images: seq<Entry>, i: nat, fetch: string -> Fetched,
                  toPng: seq<bv8> -> Option<seq<bv8>>, base64: seq<bv8> -> string) returns (failed: bool, added: bool)
    requires i < |images|
    requires AllConverted(AcceptedFirst(OutcomesOf(images, fetch), i), toPng)
    requires pptx.slides == SlidesOf(AcceptedFirst(OutcomesOf(images, fetch), i), toPng, base64)
    modifies pptx
    ensures pptx.layout == old(pptx.layout) && pptx.author == old(pptx.author)
    ensures var out := OutcomesOf(images, fetch)[i];
      failed <==> out.Threw? || (out.Got? && PictureOf(out.contentType, out.bytes, toPng).None?)
    ensures added <==> !failed && OutcomesOf(images, fetch)[i].Got?
    ensures !failed ==> (AllConverted(AcceptedFirst(OutcomesOf(images, fetch), i + 1), toPng)
                         && pptx.slides == SlidesOf(AcceptedFirst(OutcomesOf(images, fetch), i + 1), toPng, base64))
    ensures |AcceptedFirst(OutcomesOf(images, fetch), i + 1)| ==
      |AcceptedFirst(OutcomesOf(images, fetch), i)| + (if OutcomesOf(images, fetch)[i].Got? then 1 else 0)
  {
    ghost var outs := OutcomesOf(images, fetch);
    AcceptedFirstStep(outs, i);
    var outcome := FetchEntry(images, i, fetch);
    if outcome.Threw? {
      return true, false;
    }
    if outcome.Skipped? {
      return false, false;
    }
    ghost var a := Accepted(i, outcome.contentType, outcome.bytes);
    var picture := Convert(outcome.contentType, outcome.bytes, toPng);
    if picture.None? {
      return true, false;
    }
    SlidesOfSnoc(AcceptedFirst(outs, i), a, toPng, base64);
    AddPictureSlide(pptx, picture.value, base64);
    failed, added := false, true;
  }

  /** The conversion step: `buffer` and `contentType` are replaced when the type mentions `webp`. */
  method Convert(header: Option<string>, body: seq<bv8>, toPng: seq<bv8> -> Option<seq<bv8>>) returns (r: Option<Picture>)
    ensures r == PictureOf(header, body, toPng)
  {
    var buffer := body;
    var contentType := HeaderType(header);
    if Contains(contentType, "webp") {
      var png := toPng(buffer);
      if png.None? {
        return None;
      }
      buffer := png.value;
      contentType := DefaultType;
    }
    r := Some(Picture(contentType, buffer));
  }

  /** `pptx.addSlide()` and `slide.addImage(...)` with the picture's data URI over the whole slide. */
  method AddPictureSlide(pptx: Presentation, p: Picture, base64: seq<bv8> -> string)
    modifies pptx
    ensures pptx.Contents() == old(pptx.Contents()).(slides := old(pptx.slides) + [SlideOf(p, base64)])
  {
    var dataUri := "data:" + p.contentType + ";base64," + base64(p.bytes);
    pptx.AddSlide();
    ghost var withSlide := pptx.slides;
    assert withSlide[..|withSlide| - 1] == old(pptx.slides) && withSlide[|withSlide| - 1] == Slide([]);
    var image := Image(dataUri, 0.0, 0.0, 13.33, 7.5);
    assert withSlide[|withSlide| - 1].images + [image] == [image];
    pptx.AddImage(image);
    assert dataUri == DataUri(p, base64);
    assert pptx.slides == old(pptx.slides) + [SlideOf(p, base64)];
  }

  /**
   * The loop over the entries: `None` when a fetch or a conversion throws,
   * otherwise the deck and the number of slides added (`added`).
   */
  method AddLayers(images: seq<Entry>, fetch: string -> Fetched, toPng: seq<bv8> -> Option<seq<bv8>>,
                   base64: seq<bv8> -> string) returns (r: Option<(Deck, nat)>)
    ensures var outs := OutcomesOf(images, fetch);
      var acc := AcceptedFirst(outs, |outs|);
      && (r.None? <==> !NoneThrew(outs, |outs|) || !AllConverted(acc, toPng))
      && (r.Some? ==> r.value == (Deck(Layout, Author, SlidesOf(acc, toPng, base64)), |acc|))
  {
    var pptx := new Presentation();
    pptx.layout := Layout;
    pptx.author := Author;
    var added := FillSlides(pptx, images, fetch, toPng, base64);
    if added.None? {
      return None;
    }
    r := Some((pptx.Contents(), added.value));
  }

  /** The loop of `AddLayers`, on a deck without slides: the number of slides added, or `None` on a throw. */
  method FillSlides(pptx: Presentation, images: seq<Entry>, fetch: string -> Fetched, toPng: seq<bv8> -> Option<seq<bv8>>,
                    base64: seq<bv8> -> string) returns (added: Option<nat>)
    requires pptx.slides == []
    modifies pptx
    ensures pptx.layout == old(pptx.layout) && pptx.author == old(pptx.author)
    ensures added.None? <==>
      !NoneThrew(OutcomesOf(images, fetch), |images|) || !AllConverted(AcceptedFirst(OutcomesOf(images, fetch), |images|), toPng)
    ensures added.Some? ==>
      && pptx.slides == SlidesOf(AcceptedFirst(OutcomesOf(images, fetch), |images|), toPng, base64)
      && added.value == |AcceptedFirst(OutcomesOf(images, fetch), |images|)|
  {
    var count: nat := 0;
    ghost var outs := OutcomesOf(images, fetch);
    for i := 0 to |images|
      invariant pptx.layout == old(pptx.layout) && pptx.author == old(pptx.author)
      invariant NoneThrew(outs, i) && AllConverted(AcceptedFirst(outs, i), toPng)
      invariant pptx.slides == SlidesOf(AcceptedFirst(outs, i), toPng, base64)
      invariant count == |AcceptedFirst(outs, i)|
    {
      var failed, slideAdded := AddLayer(pptx, images, i, fetch, toPng, base64);
      if failed {
        FailureIsFinal(outs, i, toPng);
        return None;
      }
      NoneThrewStep(outs, i);
      if slideAdded {
        count := count + 1;
      }
    }
    added := Some(count);
  }

  /** A throw at entry `i` is seen in the whole list. */
  lemma FailureIsFinal(outs: seq<Outcome>, i: nat, toPng: seq<bv8> -> Option<seq<bv8>>)
    requires i < |outs|
    requires outs[i].Threw? || (outs[i].Got? && PictureOf(outs[i].contentType, outs[i].bytes, toPng).None?)
    ensures !NoneThrew(outs, |outs|) || !AllConverted(AcceptedFirst(outs, |outs|), toPng)
  {
    if outs[i].Got? {
      AcceptedFirstStep(outs, i);
      AcceptedFirstPrefix(outs, i + 1, |outs|);
      var k := |AcceptedFirst(outs, i)|;
      assert AcceptedFirst(outs, |outs|)[k] == AcceptedFirst(outs, i + 1)[k];
    }
  }

  method Post(req: Option<Request>, fetch: string -> Fetched, toPng: seq<bv8> -> Option<seq<bv8>>,
              base64: seq<bv8> -> string) returns (r: Download<Deck>)
    ensures r == PostSpec(req, fetch, toPng, base64)
  {
    if req.None? {
      return Refused(500, Failure);
    }
    var images := ImagesOf(req.value);
    var baseName := BaseNameOf(req.value.baseName);
    if |images| == 0 {
      return Refused(400, NoImages);
    }
    var deck := AddLayers(images, fetch, toPng, base64);
    if deck.None? {
      return Refused(500, Failure);
    }
    var (output, added) := deck.value;
    if added == 0 {
      return Refused(400, NoneDownloaded);
    }
    var filename := SanitizeFilename(baseName) + ".pptx";
    r := Attachment(PptxType, ContentDisposition(filename), filename, output);
  }

  /** The attachment's shape: what the request must satisfy and the deck it carries. */
  lemma AttachmentOf(req: Option<Request>, fetch: string -> Fetched, toPng: seq<bv8> -> Option<seq<bv8>>, base64: seq<bv8> -> string)
    requires PostSpec(req, fetch, toPng, base64).Attachment?
    ensures req.Some?
    ensures var images := ImagesOf(req.value);
      var outs := OutcomesOf(images, fetch);
      var acc := AcceptedFirst(outs, |outs|);
      var filename := AttachmentName(req.value.baseName, ".pptx");
      && NoneThrew(outs, |outs|) && AllConverted(acc, toPng) && acc != []
      && PostSpec(req, fetch, toPng, base64)
         == Attachment(PptxType, ContentDisposition(filename), filename, Deck(Layout, Author, SlidesOf(acc, toPng, base64)))
  {
  }

  /** Every conversion of a received entry succeeds exactly when every listed one does. */
  lemma AllConvertedIff(outs: seq<Outcome>, toPng: seq<bv8> -> Option<seq<bv8>>)
    ensures AllConverted(AcceptedFirst(outs, |outs|), toPng) <==>
      forall i :: 0 <= i < |outs| && outs[i].Got? ==> PictureOf(outs[i].contentType, outs[i].bytes, toPng).Some?
  {
    var acc := AcceptedFirst(outs, |outs|);
    AcceptedFirstSound(outs, |outs|);
    forall i | 0 <= i < |outs| && outs[i].Got? && AllConverted(acc, toPng)
      ensures PictureOf(outs[i].contentType, outs[i].bytes, toPng).Some?
    {
      AcceptedFirstComplete(outs, |outs|, i);
      var k :| 0 <= k < |acc| && acc[k].index == i;
      assert PictureOfAccepted(acc[k], toPng).Some?;
    }
  }

  /** A request some check refuses gets its status and message. */
  lemma PostRefusals(req: Option<Request>, fetch: string -> Fetched, toPng: seq<bv8> -> Option<seq<bv8>>, base64: seq<bv8> -> string)
    ensures req.None? ==> PostSpec(req, fetch, toPng, base64) == Refused(500, Failure)
    ensures req.Some? && ImagesOf(req.value) == [] ==> PostSpec(req, fetch, toPng, base64) == Refused(400, NoImages)
    ensures req.Some? && (exists i :: 0 <= i < |ImagesOf(req.value)| && OutcomeOf(ImagesOf(req.value)[i], fetch).Threw?) ==>
      PostSpec(req, fetch, toPng, base64) == Refused(500, Failure)
    ensures req.Some? && (exists i :: 0 <= i < |ImagesOf(req.value)| && OutcomeOf(ImagesOf(req.value)[i], fetch).Got?
                                      && Contains(HeaderType(OutcomeOf(ImagesOf(req.value)[i], fetch).contentType), "webp")
                                      && toPng(OutcomeOf(ImagesOf(req.value)[i], fetch).bytes).None?) ==>
      PostSpec(req, fetch, toPng, base64) == Refused(500, Failure)
    ensures req.Some? && ImagesOf(req.value) != [] &&
            (forall i :: 0 <= i < |ImagesOf(req.value)| ==> OutcomeOf(ImagesOf(req.value)[i], fetch).Skipped?) ==>
      PostSpec(req, fetch, toPng, base64) == Refused(400, NoneDownloaded)
  {
    if req.Some? {
      var images := ImagesOf(req.value);
      var outs := OutcomesOf(images, fetch);
      AllConvertedIff(outs, toPng);
      AcceptedNonEmptyIff(outs);
      if i :| 0 <= i < |images| && outs[i].Got? && Contains(HeaderType(outs[i].contentType), "webp") && toPng(outs[i].bytes).None? {
        PictureTypes(outs[i].contentType, outs[i].bytes, toPng);
      }
    }
  }

  /**
   * The deck is sent exactly when the body is JSON, no fetch throws, every
   * received WebP picture converts and at least one entry is received.
   */
  lemma AttachmentIff(req: Option<Request>, fetch: string -> Fetched, toPng: seq<bv8> -> Option<seq<bv8>>, base64: seq<bv8> -> string)
    ensures PostSpec(req, fetch, toPng, base64).Attachment? <==>
      && req.Some?
      && (forall i :: 0 <= i < |ImagesOf(req.value)| ==> !OutcomeOf(ImagesOf(req.value)[i], fetch).Threw?)
      && (forall i :: 0 <= i < |ImagesOf(req.value)| && OutcomeOf(ImagesOf(req.value)[i], fetch).Got? ==>
            PictureOf(OutcomeOf(ImagesOf(req.value)[i], fetch).contentType, OutcomeOf(ImagesOf(req.value)[i], fetch).bytes, toPng).Some?)
      && (exists i :: 0 <= i < |ImagesOf(req.value)| && OutcomeOf(ImagesOf(req.value)[i], fetch).Got?)
  {
    if req.Some? {
      var images := ImagesOf(req.value);
      var outs := OutcomesOf(images, fetch);
      assert PostSpec(req, fetch, toPng, base64).Attachment? <==>
        images != [] && NoneThrew(outs, |outs|) && AllConverted(AcceptedFirst(outs, |outs|), toPng) && AcceptedFirst(outs, |outs|) != [];
      ChecksIff(images, fetch, toPng);
    }
  }

  /** The route's checks, in terms of the entries. */
  lemma ChecksIff(images: seq<Entry>, fetch: string -> Fetched, toPng: seq<bv8> -> Option<seq<bv8>>)
    ensures var outs := OutcomesOf(images, fetch);
      var acc := AcceptedFirst(outs, |outs|);
      && (NoneThrew(outs, |outs|) <==> forall i :: 0 <= i < |images| ==> !OutcomeOf(images[i], fetch).Threw?)
      && (AllConverted(acc, toPng) <==>
            forall i :: 0 <= i < |images| && OutcomeOf(images[i], fetch).Got? ==>
              PictureOf(OutcomeOf(images[i], fetch).contentType, OutcomeOf(images[i], fetch).bytes, toPng).Some?)
      && (acc != [] <==> exists i :: 0 <= i < |images| && OutcomeOf(images[i], fetch).Got?)
  {
    var outs := OutcomesOf(images, fetch);
    AllConvertedIff(outs, toPng);
    AcceptedNonEmptyIff(outs);
  }

  /**
   * One slide per received entry, in the order of `images`: slide `k` shows
   * the picture of the `k`-th received entry, every received entry has its
   * slide, and the deck has the wide layout and the route's author.
   */
  lemma SlidePerImage(req: Option<Request>, fetch: string -> Fetched, toPng: seq<bv8> -> Option<seq<bv8>>, base64: seq<bv8> -> string)
    requires PostSpec(req, fetch, toPng, base64).Attachment?
    ensures var images := ImagesOf(req.value);
      var deck := PostSpec(req, fetch, toPng, base64).content;
      var acc := AcceptedFirst(OutcomesOf(images, fetch), |images|);
      && deck.layout == "LAYOUT_WIDE" && deck.author == "Qwen Image Layered"
      && |deck.slides| == |acc|
      && (forall k :: 0 <= k < |acc| ==>
            && OutcomeOf(images[acc[k].index], fetch) == Got(acc[k].contentType, acc[k].bytes)
            && deck.slides[k] == SlideOf(PictureOf(acc[k].contentType, acc[k].bytes, toPng).value, base64))
      && (forall k, l :: 0 <= k < l < |acc| ==> acc[k].index < acc[l].index)
      && (forall i :: 0 <= i < |images| && OutcomeOf(images[i], fetch).Got? ==> exists k :: 0 <= k < |acc| && acc[k].index == i)
  {
    AttachmentOf(req, fetch, toPng, base64);
    ListedAreReceived(ImagesOf(req.value), fetch);
  }

  lemma ListedAreReceived(images: seq<Entry>, fetch: string -> Fetched)
    ensures var acc := AcceptedFirst(OutcomesOf(images, fetch), |images|);
      && (forall k :: 0 <= k < |acc| ==> OutcomeOf(images[acc[k].index], fetch) == Got(acc[k].contentType, acc[k].bytes))
      && (forall i :: 0 <= i < |images| && OutcomeOf(images[i], fetch).Got? ==> exists k :: 0 <= k < |acc| && acc[k].index == i)
  {
    var outs := OutcomesOf(images, fetch);
    AcceptedFirstSound(outs, |outs|);
    forall i | 0 <= i < |images| && OutcomeOf(images[i], fetch).Got?
      ensures exists k :: 0 <= k < |AcceptedFirst(outs, |outs|)| && AcceptedFirst(outs, |outs|)[k].index == i
    {
      AcceptedFirstComplete(outs, |outs|, i);
    }
  }

  /** No slide's data URI declares WebP. */
  lemma NoWebpSlides(req: Option<Request>, fetch: string -> Fetched, toPng: seq<bv8> -> Option<seq<bv8>>, base64: seq<bv8> -> string)
    requires PostSpec(req, fetch, toPng, base64).Attachment?
    ensures var slides := PostSpec(req, fetch, toPng, base64).content.slides;
      forall k :: 0 <= k < |slides| ==> |slides[k].images| == 1 && exists t :: !Contains(t, "webp") && StartsWith(slides[k].images[0].data, "data:" + t + ";base64,")
  {
    AttachmentOf(req, fetch, toPng, base64);
    var acc := AcceptedFirst(OutcomesOf(ImagesOf(req.value), fetch), |ImagesOf(req.value)|);
    var slides := SlidesOf(acc, toPng, base64);
    forall k | 0 <= k < |slides|
      ensures |slides[k].images| == 1 && exists t :: !Contains(t, "webp") && StartsWith(slides[k].images[0].data, "data:" + t + ";base64,")
    {
      var p := PictureOfAccepted(acc[k], toPng).value;
      PictureTypes(acc[k].contentType, acc[k].bytes, toPng);
      assert slides[k].images[0].data == DataUri(p, base64);
    }
  }

  /** The attachment: a presentation named after the sanitized base name (`qwen-image-layered.pptx` by default), named verbatim in both header parameters. */
  lemma AttachmentHeader(req: Option<Request>, fetch: string -> Fetched, toPng: seq<bv8> -> Option<seq<bv8>>, base64: seq<bv8> -> string)
    requires PostSpec(req, fetch, toPng, base64).Attachment?
    ensures var d := PostSpec(req, fetch, toPng, base64);
      && d.contentType == PptxType
      && d.filename == SanitizeFilename(BaseNameOf(req.value.baseName)) + ".pptx"
      && d.disposition == "attachment; filename=\"" + d.filename + "\"; filename*=UTF-8''" + d.filename
      && (!IsNonEmptyString(req.value.baseName) ==> d.filename == DefaultBaseName + ".pptx")
  {
    var d := PostSpec(req, fetch, toPng, base64);
    var n := AttachmentName(req.value.baseName, ".pptx");
    AttachmentOf(req, fetch, toPng, base64);
    assert d.filename == n && d.disposition == ContentDisposition(n);
    PptxSuffixClean();
    AttachmentDisposition(req.value.baseName, ".pptx");
    if !IsNonEmptyString(req.value.baseName) {
      DefaultAttachmentName(req.value.baseName, ".pptx");
    }
  }

  lemma PptxSuffixClean()
    ensures forall i :: 0 <= i < |".pptx"| ==> IsFilenameChar(".pptx"[i])
  {
  }
}
