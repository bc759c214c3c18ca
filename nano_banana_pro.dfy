/**
 * The nano-banana-pro studio component: the reference images it uploads
 * (at most eight, each checked and posted to the upload route), removing
 * and clearing them, the generation request it sends to `/api/gen-outfit`
 * and what it does with the answer, the preview carousel, the saved
 * preferences and the download name.
 */
module NanoBananaPro {

  import opened Wrappers
  import opened Strings
  import opened Js
  import opened UploadClient
  import opened NanoBananaUtils
  import opened ReferenceImages

  const ModelName := "nano-banana-pro"
  const CarouselLength := 4
  const EnterPrompt := "errors.enter_prompt"
  const UploadReference := "errors.upload_reference"
  const GenerationFailed := "errors.generation_failed"

  /** The aspect ratios the API accepts. */
  const Square := "1:1"
  const Portrait := "3:4"
  const Landscape := "4:3"
  const Tall := "9:16"
  const Wide := "16:9"

  /** `ASPECT_RATIOS`: each label shown and the value sent to the API. */
  const AspectRatios: seq<(string, string)> := [
    ("Auto", Square), ("1:1", Square), ("2:3", Portrait), ("3:2", Landscape), ("3:4", Portrait), ("4:3", Landscape),
    ("4:5", Portrait), ("5:4", Landscape), ("9:16", Tall), ("16:9", Wide), ("21:9", Wide)]

  /** `RESOLUTIONS`: each label and its value. */
  const Resolutions: seq<(string, string)> := [("1K", "1K"), ("2K", "2K"), ("4K", "4K")]

  /** The value of the first entry with that label (`find`), or the default. */
  function Lookup(table: seq<(string, string)>, key: string, fallback: string): (r: string)
    ensures (exists i :: 0 <= i < |table| && table[i].0 == key) ==>
      exists i :: 0 <= i < |table| && table[i].0 == key && r == table[i].1 && (forall j :: 0 <= j < i ==> table[j].0 != key)
    ensures (forall i :: 0 <= i < |table| ==> table[i].0 != key) ==> r == fallback
  {
    if table == [] then fallback
    else if table[0].0 == key then table[0].1
    else
      var r := Lookup(table[1..], key, fallback);
      assert forall i :: 1 <= i < |table| ==> table[i] == table[1..][i - 1];
      r
  }

  /** The aspect ratio sent for a label; `1:1` for a label not listed. */
  function AspectValue(key: string): string
  {
    Lookup(AspectRatios, key, Square)
  }

  /** The resolution sent for a label; `2K` for a label not listed. */
  function ResolutionValue(key: string): string
  {
    Lookup(Resolutions, key, "2K")
  }

  // ---------------------------------------------------------------- carousel

  /** `(prev + 1) % CAROUSEL_IMAGES.length`. */
  function NextSlideOf(i: nat): (r: nat)
    ensures r < CarouselLength
  {
    (i + 1) % CarouselLength
  }

  /** `(prev - 1 + CAROUSEL_IMAGES.length) % CAROUSEL_IMAGES.length`. */
  function PrevSlideOf(i: nat): (r: nat)
    ensures r < CarouselLength
  {
    (i - 1 + CarouselLength) % CarouselLength
  }

  // ------------------------------------------------------------------ upload

  /** The options the studio uploads with: category `nano-banana-pro`, JPEG, PNG and WebP only. */
  const StudioUpload := Options(Some(ModelName), Some(["image/jpeg", "image/png", "image/webp"]))

  function OutcomeOf(file: UploadFile, post: UploadBody -> Response): FileOutcome
  {
    var v := ValidateFile(file.size, file.mimeType);
    if !v.valid then Rejected(v.error.value)
    else
      match UploadImageFile(file.mimeType, StudioUpload, file.contents, post).0
      case Ok(u) => Added(u)
      case Err(m) => Failed(m)
  }

  /** The outcome of every file, in order. */
  function Outcomes(files: seq<UploadFile>, post: UploadBody -> Response): (r: seq<FileOutcome>)
    ensures |r| == |files|
    ensures forall i :: 0 <= i < |files| ==> r[i] == OutcomeOf(files[i], post)
  {
    seq(|files|, i requires 0 <= i < |files| => OutcomeOf(files[i], post))
  }

  // -------------------------------------------------------------- generation

  datatype OutputFormat = Png | Jpg

  /** The form: mode, prompt, the labels chosen and the download format. */
  datatype Form = Form(mode: Mode, prompt: string, aspectRatio: string, resolution: string, outputFormat: OutputFormat)

  /** The JSON body posted to `/api/gen-outfit`. */
  datatype GenRequest = GenRequest(description: string, aspectRatio: string, resolution: string, baseImageUrl: Option<string>)

  /** The first outfit of the answer, with `created_at` already read as a time. */
  datatype Outfit = Outfit(uuid: string, imgUrl: string, description: string, createdAt: int)

  /** What the request gave: a throw (network or a body that is not JSON), or `code`, `message` and the first outfit (`Err` when reading it throws). */
  datatype GenResponse = Threw(thrown: string) | Answer(code: Value, message: Option<string>, outfit: Result<Outfit>)

  /** The toast that stops a generation before anything is sent, if any. */
  function Refusal(form: Form, urls: seq<string>): Option<string>
  {
    if Trim(form.prompt) == [] then Some(EnterPrompt)
    else if form.mode == ImageToImage && urls == [] then Some(UploadReference)
    else None
  }

  function RequestFor(form: Form, urls: seq<string>): GenRequest
  {
    GenRequest(form.prompt, AspectValue(form.aspectRatio), ResolutionValue(form.resolution),
      if form.mode == ImageToImage && |urls| > 0 then Some(urls[0]) else None)
  }

  /** The creation made from the answer, or the message shown. */
  function Generated(form: Form, response: GenResponse): Result<Creation>
  {
    match response
    case Threw(m) => Err(m)
    case Answer(code, message, outfit) =>
      if code != Num(0.0) then Err(OrElse(message, GenerationFailed))
      else
        match outfit
        case Err(m) => Err(m)
        case Ok(o) => Ok(Creation(o.uuid, o.imgUrl, o.description, o.createdAt, AspectValue(form.aspectRatio), ModelName, form.mode))
  }

  function FormatExtension(f: OutputFormat): string
  {
    Lower(if f == Png then "PNG" else "JPG")
  }

  /** `nano-banana-{now}.{format in lower case}`. */
  function DownloadName(f: OutputFormat, now: nat): string
  {
    "nano-banana-" + NatToString(now) + "." + FormatExtension(f)
  }

  /** The studio component. `storage` is the browser's local storage, `codec` its JSON. */
  class Studio {
    const storage: LocalStorage
    const codec: Codec
    var form: Form
    var refs: References
    var isGenerating: bool
    var generatedResult: Option<Creation>
    var generalError: string
    var currentSlide: nat
    /** The generation requests sent, in order. */
    var requests: seq<GenRequest>

    ghost predicate Valid()
      reads this
    {
      Aligned(refs, MaxReferenceImages) && currentSlide < CarouselLength
    }

    /** The initial state: mode, aspect ratio and resolution come from the saved preferences. */
    constructor (storage: LocalStorage, codec: Codec)
      ensures Valid()
      ensures this.storage == storage && this.codec == codec
      ensures var p := UserPreferences(storage.inBrowser, storage.items, codec);
        form == Form(p.mode, "", p.aspectRatio, p.resolution, Png)
      ensures refs == NoReferences && !isGenerating && generatedResult.None? && generalError == ""
      ensures currentSlide == 0 && requests == []
    {
      this.storage, this.codec := storage, codec;
      var p := UserPreferences(storage.inBrowser, storage.items, codec);
      form := Form(p.mode, "", p.aspectRatio, p.resolution, Png);
      refs, isGenerating, generatedResult, generalError := NoReferences, false, None, "";
      currentSlide, requests := 0, [];
    }

    method NextSlide()
      modifies this
      ensures currentSlide == NextSlideOf(old(currentSlide))
      ensures form == old(form) && refs == old(refs) && isGenerating == old(isGenerating)
      ensures generatedResult == old(generatedResult) && generalError == old(generalError) && requests == old(requests)
    {
      currentSlide := (currentSlide + 1) % CarouselLength;
    }

    method PrevSlide()
      modifies this
      ensures currentSlide == PrevSlideOf(old(currentSlide))
      ensures form == old(form) && refs == old(refs) && isGenerating == old(isGenerating)
      ensures generatedResult == old(generatedResult) && generalError == old(generalError) && requests == old(requests)
    {
      currentSlide := (currentSlide - 1 + CarouselLength) % CarouselLength;
    }

    /** The preference effect: the labels and mode are written whenever one of them changes. */
    method SavePreferences(writeFails: bool)
      modifies storage
      ensures storage.items ==
        if !storage.inBrowser || writeFails then old(storage.items)
        else old(storage.items)[PreferencesKey := codec.stringifyPreferences(Preferences(form.aspectRatio, form.resolution, form.mode))]
    {
      SaveUserPreferences(storage, Preferences(form.aspectRatio, form.resolution, form.mode), codec, writeFails);
    }

    /** `setMode`, then the preference effect. */
    method SetMode(mode: Mode, writeFails: bool)
      modifies this, storage
      ensures form == old(form).(mode := mode) && refs == old(refs) && currentSlide == old(currentSlide)
      ensures isGenerating == old(isGenerating) && generatedResult == old(generatedResult)
      ensures generalError == old(generalError) && requests == old(requests)
      ensures storage.items ==
        if !storage.inBrowser || writeFails then old(storage.items)
        else old(storage.items)[PreferencesKey := codec.stringifyPreferences(Preferences(form.aspectRatio, form.resolution, mode))]
    {
      form := form.(mode := mode);
      SavePreferences(writeFails);
    }

    /** `setAspectRatio(label)`, then the preference effect. */
    method SetAspectRatio(key: string, writeFails: bool)
      modifies this, storage
      ensures form == old(form).(aspectRatio := key) && refs == old(refs) && currentSlide == old(currentSlide)
      ensures isGenerating == old(isGenerating) && generatedResult == old(generatedResult)
      ensures generalError == old(generalError) && requests == old(requests)
      ensures storage.items ==
        if !storage.inBrowser || writeFails then old(storage.items)
        else old(storage.items)[PreferencesKey := codec.stringifyPreferences(Preferences(key, form.resolution, form.mode))]
    {
      form := form.(aspectRatio := key);
      SavePreferences(writeFails);
    }

    /** `setResolution(value)`, then the preference effect. */
    method SetResolution(value: string, writeFails: bool)
      modifies this, storage
      ensures form == old(form).(resolution := value) && refs == old(refs) && currentSlide == old(currentSlide)
      ensures isGenerating == old(isGenerating) && generatedResult == old(generatedResult)
      ensures generalError == old(generalError) && requests == old(requests)
      ensures storage.items ==
        if !storage.inBrowser || writeFails then old(storage.items)
        else old(storage.items)[PreferencesKey := codec.stringifyPreferences(Preferences(form.aspectRatio, value, form.mode))]
    {
      form := form.(resolution := value);
      SavePreferences(writeFails);
    }

    method SetPrompt(prompt: string)
      modifies this
      ensures form == old(form).(prompt := prompt) && refs == old(refs) && currentSlide == old(currentSlide)
      ensures isGenerating == old(isGenerating) && generatedResult == old(generatedResult)
      ensures generalError == old(generalError) && requests == old(requests)
    {
      form := form.(prompt := prompt);
    }

    method SetOutputFormat(f: OutputFormat)
      modifies this
      ensures form == old(form).(outputFormat := f) && refs == old(refs) && currentSlide == old(currentSlide)
      ensures isGenerating == old(isGenerating) && generatedResult == old(generatedResult)
      ensures generalError == old(generalError) && requests == old(requests)
    {
      form := form.(outputFormat := f);
    }

    /** The loop body for one file at slot `fileIndex`: check it, upload it, record what came of it. */
    method ProcessFile(file: UploadFile, fileIndex: nat, post: UploadBody -> Response) returns (ghost o: FileOutcome)
      modifies this
      ensures o == OutcomeOf(file, post)
      ensures refs == StepRefs(old(refs), fileIndex, o)
      ensures form == old(form) && currentSlide == old(currentSlide) && isGenerating == old(isGenerating)
      ensures generatedResult == old(generatedResult) && generalError == old(generalError) && requests == old(requests)
    {
      var validation := ValidateFile(file.size, file.mimeType);
      if !validation.valid {
        refs := refs.(errors := refs.errors[fileIndex := validation.error.value]);
        return Rejected(validation.error.value);
      }
      refs := refs.(errors := refs.errors - {fileIndex});
      var (result, _) := UploadImageFile(file.mimeType, StudioUpload, file.contents, post);
      if result.Ok? {
        refs := refs.(images := refs.images + [result.value.base64], urls := refs.urls + [result.value.url]);
        o := Added(result.value);
      } else {
        refs := refs.(errors := refs.errors[fileIndex := result.error]);
        o := Failed(result.error);
      }
    }

    /**
     * `handleFileChange`: the first `8 - held` files are taken in order and
     * the one at position `i` is handled at slot `held + i`. `post` answers
     * the uploads.
     */
    method HandleFileChange(files: seq<UploadFile>, post: UploadBody -> Response)
      requires Valid()
      modifies this
      ensures Valid()
      ensures refs == AfterUploads(old(refs), Outcomes(ToProcess(files, |old(refs.images)|, MaxReferenceImages), post))
      ensures form == old(form) && currentSlide == old(currentSlide) && isGenerating == old(isGenerating)
      ensures generatedResult == old(generatedResult) && generalError == old(generalError) && requests == old(requests)
    {
      if |files| == 0 {
        return;
      }
      ghost var start := refs;
      var held := |refs.images|;
      var toProcess := SliceTo(files, MaxReferenceImages - held);
      assert toProcess == ToProcess(files, held, MaxReferenceImages) && held + |toProcess| <= MaxReferenceImages;
      ghost var done: seq<FileOutcome> := [];
      for i := 0 to |toProcess|
        invariant |done| == i && refs == Uploads(start, held, done)
        invariant forall j :: 0 <= j < i ==> done[j] == OutcomeOf(toProcess[j], post)
        invariant |refs.images| <= held + i && |refs.images| == |refs.urls|
        invariant form == old(form) && currentSlide == old(currentSlide) && isGenerating == old(isGenerating)
        invariant generatedResult == old(generatedResult) && generalError == old(generalError) && requests == old(requests)
      {
        var o := ProcessFile(toProcess[i], held + i, post);
        UploadsSnoc(start, held, done, o);
        done := done + [o];
      }
      assert done == Outcomes(toProcess, post);
    }

    /** `removeImage(index)`. */
    method RemoveImage(index: nat)
      requires Valid()
      modifies this
      ensures Valid()
      ensures refs == Removed(old(refs), index)
      ensures form == old(form) && currentSlide == old(currentSlide) && isGenerating == old(isGenerating)
      ensures generatedResult == old(generatedResult) && generalError == old(generalError) && requests == old(requests)
    {
      refs := Removed(refs, index);
    }

    /** `clearImages`. */
    method ClearImages()
      requires Valid()
      modifies this
      ensures Valid()
      ensures refs == NoReferences
      ensures form == old(form) && currentSlide == old(currentSlide) && isGenerating == old(isGenerating)
      ensures generatedResult == old(generatedResult) && generalError == old(generalError) && requests == old(requests)
    {
      refs := NoReferences;
    }

    /** The part of `handleGenerate` after its checks: send the request, show the result or message, save a creation. */
    method Generate(response: GenResponse, writeFails: bool)
      modifies this, storage
      ensures form == old(form) && refs == old(refs) && currentSlide == old(currentSlide)
      ensures requests == old(requests) + [RequestFor(form, refs.urls)] && !isGenerating
      ensures Generated(form, response).Ok? ==>
        && generatedResult == Some(Generated(form, response).value) && generalError == ""
        && storage.items == ItemsAfterSave(storage.inBrowser, old(storage.items), codec, Generated(form, response).value, writeFails)
      ensures Generated(form, response).Err? ==>
        generatedResult.None? && generalError == Generated(form, response).error && storage.items == old(storage.items)
    {
      isGenerating, generatedResult, generalError := true, None, "";
      requests := requests + [RequestFor(form, refs.urls)];
      var result := Generated(form, response);
      if result.Ok? {
        generatedResult := Some(result.value);
        SaveCreation(storage, result.value, codec, writeFails);
      } else {
        generalError := result.error;
      }
      isGenerating := false;
    }

    /**
     * `handleGenerate`: a blank prompt, or image-to-image without a
     * reference, is refused with a toast and nothing else changes;
     * otherwise `Generate` runs (`writeFails`: the storage write throws).
     */
    method HandleGenerate(response: GenResponse, writeFails: bool) returns (refusal: Option<string>)
      requires Valid()
      modifies this, storage
      ensures Valid()
      ensures refusal == Refusal(form, refs.urls)
      ensures form == old(form) && refs == old(refs) && currentSlide == old(currentSlide)
      ensures refusal.Some? ==>
        && isGenerating == old(isGenerating) && generatedResult == old(generatedResult)
        && generalError == old(generalError) && requests == old(requests) && storage.items == old(storage.items)
      ensures refusal.None? ==>
        && requests == old(requests) + [RequestFor(form, refs.urls)] && !isGenerating
        && (Generated(form, response).Ok? ==>
              generatedResult == Some(Generated(form, response).value) && generalError == ""
              && storage.items == ItemsAfterSave(storage.inBrowser, old(storage.items), codec, Generated(form, response).value, writeFails))
        && (Generated(form, response).Err? ==>
              generatedResult.None? && generalError == Generated(form, response).error && storage.items == old(storage.items))
    {
      refusal := Refusal(form, refs.urls);
      if refusal.None? {
        Generate(response, writeFails);
      }
    }

    /** `handleDownload(url)` at time `now`: the link `downloadImage` clicks, named after the output format. */
    function HandleDownload(url: string, now: nat): Option<Link>
      reads this, storage
    {
      DownloadImage(storage.inBrowser, url, Some(DownloadName(form.outputFormat, now)), now)
    }
  }

  /** Every aspect ratio sent is one the API accepts; an unknown label is sent as `1:1`. */
  lemma AspectValueRange(key: string)
    ensures AspectValue(key) in [Square, Portrait, Landscape, Tall, Wide]
    ensures (forall i :: 0 <= i < |AspectRatios| ==> AspectRatios[i].0 != key) ==> AspectValue(key) == Square
  {
    assert forall i :: 0 <= i < |AspectRatios| ==> AspectRatios[i].1 in [Square, Portrait, Landscape, Tall, Wide];
  }

  /** The entry found is the first with that label. */
  lemma {:induction false} LookupAt(table: seq<(string, string)>, key: string, fallback: string, i: nat)
    requires i < |table| && table[i].0 == key
    requires forall j :: 0 <= j < i ==> table[j].0 != key
    ensures Lookup(table, key, fallback) == table[i].1
  {
    if i > 0 {
      LookupAt(table[1..], key, fallback, i - 1);
    }
  }

  /** `Auto` is sent as `1:1`. */
  lemma AutoIsSquare()
    ensures AspectValue("Auto") == Square
  {
    LookupAt(AspectRatios, "Auto", Square, 0);
  }

  /** `4:5`, which the API does not know, is sent as the nearest value it does, `3:4`. */
  lemma FourFiveIsPortrait()
    ensures AspectValue("4:5") == Portrait
  {
    LookupAt(AspectRatios, "4:5", Square, 6);
  }

  /** `21:9` is sent as `16:9`. */
  lemma UltraWideIsWide()
    ensures AspectValue("21:9") == Wide
  {
    LookupAt(AspectRatios, "21:9", Square, 10);
  }

  /** The resolution sent is the label itself for `1K`, `2K` and `4K`, and `2K` for anything else. */
  lemma ResolutionValues(key: string)
    ensures ResolutionValue(key) == if key in ["1K", "2K", "4K"] then key else "2K"
  {
    if key !in ["1K", "2K", "4K"] {
      assert forall i :: 0 <= i < |Resolutions| ==> Resolutions[i].0 != key;
    }
  }

  /** The carousel steps stay among the four slides and undo each other; four steps come back. */
  lemma SlidesCycle(i: nat)
    requires i < CarouselLength
    ensures PrevSlideOf(NextSlideOf(i)) == i && NextSlideOf(PrevSlideOf(i)) == i
    ensures NextSlideOf(NextSlideOf(NextSlideOf(NextSlideOf(i)))) == i
  {
  }

  /**
   * What happens to one file: over 10 MiB it is refused for its size, then
   * for a format other than JPEG, PNG or WebP; an accepted file is always
   * allowed by the upload helper too, is read, and is posted under the
   * category `nano-banana-pro`; code 0 adds the URL returned and the data
   * URL read, any other answer fails with the message given (or `Upload
   * failed`), and a failed read or request fails with its error.
   */
  lemma OutcomeCases(file: UploadFile, post: UploadBody -> Response)
    ensures file.size > MaxFileSize ==> OutcomeOf(file, post) == Rejected(TooLarge)
    ensures file.size <= MaxFileSize && file.mimeType !in SupportedFormats ==> OutcomeOf(file, post) == Rejected(UnsupportedFormat)
    ensures file.size <= MaxFileSize && file.mimeType in SupportedFormats ==>
      && ValidateImageFile(file.mimeType, StudioUpload).None?
      && (file.contents.Err? ==> OutcomeOf(file, post) == Failed(file.contents.error))
      && (file.contents.Ok? ==>
            var body := UploadBody(file.contents.value, ModelName);
            && (post(body).RequestThrew? ==> OutcomeOf(file, post) == Failed(post(body).error))
            && (post(body).Answer? && post(body).code == Num(0.0) ==>
                  OutcomeOf(file, post) == Added(Uploaded(post(body).url, file.contents.value)))
            && (post(body).Answer? && post(body).code != Num(0.0) ==>
                  OutcomeOf(file, post) == Failed(OrElse(post(body).message, UploadFailed))))
  {
    ValidateFileCases(file.size, file.mimeType);
  }

  /**
   * A generation goes ahead exactly when the prompt is not blank and, in
   * image-to-image mode, a reference URL is held; the request then carries
   * the prompt as written, the API's aspect ratio and resolution, and the
   * first reference URL exactly in image-to-image mode.
   */
  lemma RequestShape(form: Form, urls: seq<string>)
    ensures Refusal(form, urls).None? <==> Trim(form.prompt) != [] && (form.mode == TextToImage || urls != [])
    ensures Trim(form.prompt) == [] ==> Refusal(form, urls) == Some(EnterPrompt)
    ensures Refusal(form, urls).None? ==>
      var r := RequestFor(form, urls);
      && r.description == form.prompt
      && r.aspectRatio in [Square, Portrait, Landscape, Tall, Wide]
      && r.resolution in ["1K", "2K", "4K"]
      && (r.baseImageUrl.Some? <==> form.mode == ImageToImage)
      && (r.baseImageUrl.Some? ==> r.baseImageUrl.value == urls[0])
  {
    AspectValueRange(form.aspectRatio);
    ResolutionValues(form.resolution);
  }

  /**
   * An answer with code 0 and an outfit becomes a creation with the
   * outfit's id, image, description and time, the API aspect ratio (not
   * the label chosen), the `nano-banana-pro` model and the mode; any other
   * code shows the server's message or the generic failure.
   */
  lemma GeneratedCases(form: Form, response: GenResponse)
    ensures response.Threw? ==> Generated(form, response) == Err(response.thrown)
    ensures response.Answer? && response.code != Num(0.0) ==>
      Generated(form, response) == Err(OrElse(response.message, GenerationFailed))
    ensures response.Answer? && response.code == Num(0.0) && response.outfit.Ok? ==>
      var o := response.outfit.value;
      Generated(form, response) == Ok(Creation(o.uuid, o.imgUrl, o.description, o.createdAt, RequestFor(form, []).aspectRatio, ModelName, form.mode))
    ensures Generated(form, response).Ok? ==> Generated(form, response).value.model == ModelName
  {
  }

  /** A generated image, once saved in a browser, heads the creations list read back, which the gallery shows. */
  lemma GeneratedIsListed(items: map<string, string>, codec: Codec, form: Form, response: GenResponse)
    requires RoundTrips(codec) && Generated(form, response).Ok?
    ensures var after := ItemsAfterSave(true, items, codec, Generated(form, response).value, false);
      MyCreations(true, after, codec) == [Generated(form, response).value] + MyCreations(true, items, codec)
  {
    SaveThenRead(items, codec, Generated(form, response).value);
  }

  /** Preferences written in a browser are what the next studio starts with. */
  lemma PreferencesPersist(items: map<string, string>, codec: Codec, form: Form)
    requires RoundTrips(codec)
    ensures var p := Preferences(form.aspectRatio, form.resolution, form.mode);
      UserPreferences(true, items[PreferencesKey := codec.stringifyPreferences(p)], codec) == p
  {
    PreferencesRead(items, codec, Preferences(form.aspectRatio, form.resolution, form.mode));
  }

  /** The download is offered as `nano-banana-{now}.png` or `.jpg`, following the format chosen. */
  lemma DownloadNames(now: nat, url: string)
    ensures DownloadName(Png, now) == "nano-banana-" + NatToString(now) + ".png"
    ensures DownloadName(Jpg, now) == "nano-banana-" + NatToString(now) + ".jpg"
    ensures DownloadImage(true, url, Some(DownloadName(Jpg, now)), now).value.download == DownloadName(Jpg, now)
  {
    assert LowerChar('P') == 'p' && LowerChar('N') == 'n' && LowerChar('G') == 'g' && LowerChar('J') == 'j';
    assert Lower("PNG") == "png";
    assert Lower("JPG") == "jpg";
  }
}
