/**
 * The qwen-image-layered studio component: the single reference image it
 * uploads or takes from the examples, the layer count it clamps, the
 * generation request it sends to `/api/gen-outfit` and the layers it keeps
 * from the answer, and the PPTX and ZIP packages it asks for.
 */
module QwenLayeredStudio {

  import opened Wrappers
  import opened Strings
  import opened Js
  import opened Url
  import opened UploadClient
  import opened NanoBananaUtils
  import opened ReferenceImages
  import DownloadZip

  const MinNumLayers := 2.0
  const MaxNumLayers := 8.0
  const MaxSeed := 2147483647
  const ModelName := "qwen-image-layered"
  /** Only one reference image is kept. */
  const ReferenceLimit := 1
  const SignInPath := "/auth/signin"
  const UploadReference := "errors.upload_reference"
  const GenerationFailed := "errors.generation_failed"
  const PptxRoute := "/api/gen-outfit/download-pptx"
  const ZipRoute := "/api/gen-outfit/download-zip"

  /** `Math.min(MAX_NUM_LAYERS, Math.max(MIN_NUM_LAYERS, value))`. */
  function ClampNumLayers(value: real): real
  {
    if MaxNumLayers < (if MinNumLayers < value then value else MinNumLayers) then MaxNumLayers
    else if MinNumLayers < value then value
    else MinNumLayers
  }

  datatype OutputFormat = Webp | Png

  /** The format's name as the select shows it. */
  function FormatName(f: OutputFormat): string
  {
    if f == Webp then "WEBP" else "PNG"
  }

  /** `outputFormat.toLowerCase()`, written out; `FormatExtensions` shows it is the lowered name. */
  function FormatExtension(f: OutputFormat): string
  {
    if f == Webp then "webp" else "png"
  }

  /** The controls of the form. Number inputs are read with `Number(...)`, so they hold any number. */
  datatype Form = Form(
    prompt: string, negativePrompt: string, seed: real, randomizeSeed: bool, guidanceScale: real,
    inferenceSteps: real, cfgNormalization: bool, autoCaptionEn: bool, outputFormat: OutputFormat, numLayers: real)

  const InitialForm := Form("", "", 0.0, true, 4.0, 50.0, true, true, Webp, 4.0)

  // ------------------------------------------------------------------ upload

  /** The options the studio uploads with: category `qwen-image-layered`, JPEG, PNG and WebP only. */
  const StudioUpload := Options(Some(ModelName), Some(["image/jpeg", "image/png", "image/webp"]))

  /** What one file comes to; `validate` is the component's own file check, which returns its message. */
  function OutcomeOf(file: UploadFile, validate: UploadFile -> Option<string>, post: UploadBody -> Response): FileOutcome
  {
    match validate(file)
    case Some(e) => Rejected(e)
    case None =>
      match UploadImageFile(file.mimeType, StudioUpload, file.contents, post).0
      case Ok(u) => Added(u)
      case Err(m) => Failed(m)
  }

  /** The outcome of every file, in order. */
  function Outcomes(files: seq<UploadFile>, validate: UploadFile -> Option<string>, post: UploadBody -> Response): (r: seq<FileOutcome>)
    ensures |r| == |files|
    ensures forall i :: 0 <= i < |files| ==> r[i] == OutcomeOf(files[i], validate, post)
  {
    seq(|files|, i requires 0 <= i < |files| => OutcomeOf(files[i], validate, post))
  }

  // -------------------------------------------------------------- generation

  /** The JSON body posted to `/api/gen-outfit`. */
  datatype LayeredRequest = LayeredRequest(
    image: string, description: string, numLayers: real, goFast: bool, outputFormat: string, outputQuality: nat,
    seed: real, guidanceScale: real, inferenceSteps: real, cfgNormalization: bool, captionLanguage: string,
    negativePrompt: Option<string>)

  /** One outfit of the answer, with `created_at` already read as a time. */
  datatype LayerOutfit = LayerOutfit(uuid: string, imgUrl: string, imgDescription: Option<string>, createdAt: int)

  /** What the request gave: a throw, or `code`, `message` and `data.outfits` (`None` when it is no array). */
  datatype LayeredResponse =
    | Threw(thrown: string)
    | Answer(code: Value, message: Option<string>, outfits: Option<seq<LayerOutfit>>)

  /** Why `handleGenerate` stops before sending anything. */
  datatype Stop = SignIn(path: string) | Toast(key: string)

  function Refusal(authEnabled: bool, signedIn: bool, urls: seq<string>): Option<Stop>
  {
    if authEnabled && !signedIn then Some(SignIn(SignInPath))
    else if urls == [] then Some(Toast(UploadReference))
    else None
  }

  /** `prompt.trim() || 'auto'`. */
  function Description(prompt: string): string
  {
    if Trim(prompt) != [] then Trim(prompt) else "auto"
  }

  /** The seed sent: the random draw when randomizing, the seed entered otherwise. */
  function ResolvedSeed(form: Form, random: nat): real
  {
    if form.randomizeSeed then random as real else form.seed
  }

  function RequestFor(form: Form, urls: seq<string>, random: nat): LayeredRequest
    requires urls != []
  {
    var negative := Trim(form.negativePrompt);
    LayeredRequest(urls[0], Description(form.prompt), form.numLayers, true, FormatExtension(form.outputFormat), 95,
      ResolvedSeed(form, random), form.guidanceScale, form.inferenceSteps, form.cfgNormalization,
      if form.autoCaptionEn then "en" else "zh",
      if negative != [] then Some(negative) else None)
  }

  /** The creation kept for one outfit; the prompt falls back to the description sent. */
  function LayerOf(o: LayerOutfit, description: string, mode: Mode): Creation
  {
    Creation(o.uuid, o.imgUrl, OrElse(o.imgDescription, description), o.createdAt, "1:1", ModelName, mode)
  }

  function LayersOf(outfits: seq<LayerOutfit>, description: string, mode: Mode): (r: seq<Creation>)
    ensures |r| == |outfits|
    ensures forall i :: 0 <= i < |outfits| ==> r[i] == LayerOf(outfits[i], description, mode)
  {
    seq(|outfits|, i requires 0 <= i < |outfits| => LayerOf(outfits[i], description, mode))
  }

  /** The layers made from the answer, or the message shown. */
  function Generated(response: LayeredResponse, description: string, mode: Mode): Result<seq<Creation>>
  {
    match response
    case Threw(m) => Err(m)
    case Answer(code, message, outfits) =>
      if code != Num(0.0) then Err(OrElse(message, GenerationFailed))
      else if outfits.None? || outfits.value == [] then Err(GenerationFailed)
      else Ok(LayersOf(outfits.value, description, mode))
  }

  /** The layers shown after a generation: none when it failed. */
  function LayersAfter(g: Result<seq<Creation>>): seq<Creation>
  {
    if g.Ok? then g.value else []
  }

  /** The error shown after a generation: none when it succeeded. */
  function ErrorAfter(g: Result<seq<Creation>>): string
  {
    if g.Err? then g.error else ""
  }

  /** The name a single layer is downloaded under: `qwen-image-layered-{now}.{format}`. */
  function DownloadName(f: OutputFormat, now: nat): string
  {
    "qwen-image-layered-" + NatToString(now) + "." + FormatExtension(f)
  }

  // --------------------------------------------------------------- packaging

  datatype PackKind = Pptx | Zip

  /** An element of `images` in a package request. */
  datatype PackImage = PackImage(url: string, name: string)

  /** A package request: the route posted to, the images and the base name. */
  datatype PackRequest = PackRequest(route: string, images: seq<PackImage>, baseName: string)

  /** The slides are named after each layer's prompt; the ZIP entries are `layer-{i+1}.{format}`. */
  function PackImages(kind: PackKind, results: seq<Creation>, f: OutputFormat): (r: seq<PackImage>)
    ensures |r| == |results|
    ensures forall i :: 0 <= i < |results| ==> r[i].url == results[i].url
  {
    seq(|results|, i requires 0 <= i < |results| =>
      PackImage(results[i].url, if kind == Pptx then results[i].prompt else DownloadZip.DefaultName(i, FormatExtension(f))))
  }

  function PackRequestFor(kind: PackKind, results: seq<Creation>, f: OutputFormat): PackRequest
  {
    PackRequest(if kind == Pptx then PptxRoute else ZipRoute, PackImages(kind, results, f), ModelName)
  }

  /** The name the package is saved under: `qwen-image-layered-{now}.pptx` or `.zip`. */
  function PackageName(kind: PackKind, now: nat): string
  {
    "qwen-image-layered-" + NatToString(now) + (if kind == Pptx then ".pptx" else ".zip")
  }

  /** The studio component; `mode` comes from the saved preferences. */
  class Studio {
    const mode: Mode
    var form: Form
    var refs: References
    var isGenerating: bool
    var generatedResults: seq<Creation>
    var generalError: string
    var isPackaging: Option<PackKind>
    /** The generation requests sent, in order. */
    var requests: seq<LayeredRequest>
    /** The creations handed to `saveCreation`, in order. */
    var saved: seq<Creation>
    /** The package requests sent, in order. */
    var packRequests: seq<PackRequest>

    ghost predicate Valid()
      reads this
    {
      Aligned(refs, ReferenceLimit) && MinNumLayers <= form.numLayers <= MaxNumLayers
    }

    constructor (mode: Mode)
      ensures Valid()
      ensures this.mode == mode && form == InitialForm && refs == NoReferences
      ensures !isGenerating && generatedResults == [] && generalError == "" && isPackaging.None?
      ensures requests == [] && saved == [] && packRequests == []
    {
      this.mode := mode;
      form, refs := InitialForm, NoReferences;
      isGenerating, generatedResults, generalError, isPackaging := false, [], "", None;
      requests, saved, packRequests := [], [], [];
    }

    /** `handleNumLayersChange`: a number is clamped into [2, 8]; NaN changes nothing. */
    method HandleNumLayersChange(value: Number)
      requires Valid()
      modifies this
      ensures Valid()
      ensures value.NotANumber? ==> form == old(form)
      ensures value.Real? ==> form == old(form).(numLayers := ClampNumLayers(value.x))
      ensures refs == old(refs) && generatedResults == old(generatedResults) && generalError == old(generalError)
      ensures isGenerating == old(isGenerating) && isPackaging == old(isPackaging)
      ensures requests == old(requests) && saved == old(saved) && packRequests == old(packRequests)
    {
      if value.Real? {
        ClampRange(value.x);
        form := form.(numLayers := ClampNumLayers(value.x));
      }
    }

    /** The loop body of `handleFileChange` for one file at slot `fileIndex`. */
    method ProcessFile(file: UploadFile, fileIndex: nat, validate: UploadFile -> Option<string>, post: UploadBody -> Response)
      returns (ghost o: FileOutcome)
      modifies this
      ensures o == OutcomeOf(file, validate, post)
      ensures refs == StepRefs(old(refs), fileIndex, o)
      ensures form == old(form) && generatedResults == old(generatedResults) && generalError == old(generalError)
      ensures isGenerating == old(isGenerating) && isPackaging == old(isPackaging)
      ensures requests == old(requests) && saved == old(saved) && packRequests == old(packRequests)
    {
      var error := validate(file);
      if error.Some? {
        refs := refs.(errors := refs.errors[fileIndex := error.value]);
        return Rejected(error.value);
      }
      refs := refs.(errors := refs.errors - {fileIndex});
      var (result, _) := UploadImageFile(file.mimeType, StudioUpload, file.contents, post);
      if result.Ok? {
        refs := refs.(images := refs.images + [result.value.base64], urls := refs.urls + [result.value.url]);
        o := Added(result.value);
      } else {
        refs := refs.(errors := refs.errors[fileIndex := result.error]);
        o := Failed(result.error);
      }
    }

    /** `handleFileChange`: at most `1 - held` files are taken, the one at position `i` at slot `held + i`. */
    method HandleFileChange(files: seq<UploadFile>, validate: UploadFile -> Option<string>, post: UploadBody -> Response)
      requires Valid()
      modifies this
      ensures Valid()
      ensures refs == AfterUploads(old(refs), Outcomes(ToProcess(files, |old(refs.images)|, ReferenceLimit), validate, post))
      ensures form == old(form) && generatedResults == old(generatedResults) && generalError == old(generalError)
      ensures isGenerating == old(isGenerating) && isPackaging == old(isPackaging)
      ensures requests == old(requests) && saved == old(saved) && packRequests == old(packRequests)
    {
      if |files| == 0 {
        return;
      }
      ghost var start := refs;
      var held := |refs.images|;
      var toProcess := SliceTo(files, ReferenceLimit - held);
      ghost var done: seq<FileOutcome> := [];
      for i := 0 to |toProcess|
        invariant |done| == i && refs == Uploads(start, held, done)
        invariant forall j :: 0 <= j < i ==> done[j] == OutcomeOf(toProcess[j], validate, post)
        invariant |refs.images| <= held + i && |refs.images| == |refs.urls|
        invariant form == old(form) && generatedResults == old(generatedResults) && generalError == old(generalError)
        invariant isGenerating == old(isGenerating) && isPackaging == old(isPackaging)
        invariant requests == old(requests) && saved == old(saved) && packRequests == old(packRequests)
      {
        var o := ProcessFile(toProcess[i], held + i, validate, post);
        UploadsSnoc(start, held, done, o);
        done := done + [o];
      }
      assert done == Outcomes(toProcess, validate, post);
    }

    /** `removeImage(index)`. */
    method RemoveImage(index: nat)
      requires Valid()
      modifies this
      ensures Valid()
      ensures refs == Removed(old(refs), index)
      ensures form == old(form) && generatedResults == old(generatedResults) && generalError == old(generalError)
      ensures isGenerating == old(isGenerating) && isPackaging == old(isPackaging)
      ensures requests == old(requests) && saved == old(saved) && packRequests == old(packRequests)
    {
      RemovedStaysAligned(refs, index, ReferenceLimit);
      refs := Removed(refs, index);
    }

    /** `handleExampleSelect(src)`: the example, a root-relative path, replaces the reference; its URL is resolved against `origin`. */
    method HandleExampleSelect(src: string, origin: string)
      requires Valid()
      modifies this
      ensures Valid()
      ensures refs == References([src], [Resolve(src, origin)], map[]) && generalError == ""
      ensures form == old(form) && generatedResults == old(generatedResults)
      ensures isGenerating == old(isGenerating) && isPackaging == old(isPackaging)
      ensures requests == old(requests) && saved == old(saved) && packRequests == old(packRequests)
    {
      refs := References([src], [Resolve(src, origin)], map[]);
      generalError := "";
    }

    /**
     * The request half of `handleGenerate`: the body is posted and, when the
     * seed was drawn, the form shows it. Returns the description sent.
     * `random` is the draw `Math.floor(Math.random() * MAX_SEED)`.
     */
    method Send(random: nat) returns (description: string)
      requires refs.urls != []
      modifies this
      ensures description == Description(old(form).prompt)
      ensures form == old(form).(seed := ResolvedSeed(old(form), random))
      ensures requests == old(requests) + [RequestFor(old(form), old(refs.urls), random)]
      ensures refs == old(refs) && isPackaging == old(isPackaging) && packRequests == old(packRequests)
      ensures isGenerating && generatedResults == [] && generalError == "" && saved == old(saved)
    {
      var request := RequestFor(form, refs.urls, random);
      var seeded := form.(seed := ResolvedSeed(form, random));
      description := request.description;
      isGenerating, generatedResults, generalError := true, [], "";
      requests := requests + [request];
      // The seed is set only when it was drawn; otherwise it already holds the value sent.
      form := seeded;
    }

    /** The answer half of `handleGenerate`: the layers are kept and saved, or the error is shown. */
    method Receive(response: LayeredResponse, description: string)
      modifies this
      ensures generatedResults == LayersAfter(Generated(response, description, mode))
      ensures generalError == ErrorAfter(Generated(response, description, mode))
      ensures saved == old(saved) + generatedResults && !isGenerating
      ensures form == old(form) && refs == old(refs) && requests == old(requests)
      ensures isPackaging == old(isPackaging) && packRequests == old(packRequests)
    {
      var result := Generated(response, description, mode);
      generatedResults, generalError := LayersAfter(result), ErrorAfter(result);
      saved := saved + generatedResults;
      isGenerating := false;
    }

    /**
     * `handleGenerate`: with authentication on and nobody signed in it
     * sends the visitor to sign in; without a reference URL it toasts;
     * in both cases nothing else changes. Otherwise it sends and receives.
     */
    method HandleGenerate(authEnabled: bool, signedIn: bool, random: nat, response: LayeredResponse) returns (stop: Option<Stop>)
      requires Valid() && random < MaxSeed
      modifies this
      ensures Valid()
      ensures stop == Refusal(authEnabled, signedIn, old(refs.urls))
      ensures refs == old(refs) && isPackaging == old(isPackaging) && packRequests == old(packRequests)
      ensures stop.Some? ==>
        && form == old(form) && generatedResults == old(generatedResults) && generalError == old(generalError)
        && isGenerating == old(isGenerating) && requests == old(requests) && saved == old(saved)
      ensures stop.None? ==>
        && !isGenerating && form == old(form).(seed := ResolvedSeed(old(form), random))
        && requests == old(requests) + [RequestFor(old(form), refs.urls, random)]
        && generatedResults == LayersAfter(Generated(response, Description(old(form).prompt), mode))
        && generalError == ErrorAfter(Generated(response, Description(old(form).prompt), mode))
        && saved == old(saved) + generatedResults
    {
      stop := Refusal(authEnabled, signedIn, refs.urls);
      if stop.None? {
        var description := Send(random);
        Receive(response, description);
      }
    }

    /**
     * `handleDownloadPptx` and `handleDownloadZip`: nothing without layers or
     * while a package is being made; otherwise the request is sent and, when
     * the response is `ok`, the package is saved under the name returned.
     */
    method HandleDownloadPackage(kind: PackKind, ok: bool, now: nat) returns (download: Option<string>)
      modifies this
      ensures generatedResults == [] || old(isPackaging).Some? ==> packRequests == old(packRequests) && download.None?
      ensures generatedResults != [] && old(isPackaging).None? ==>
        && packRequests == old(packRequests) + [PackRequestFor(kind, generatedResults, form.outputFormat)]
        && download == (if ok then Some(PackageName(kind, now)) else None)
        && isPackaging.None?
      ensures isPackaging.Some? ==> isPackaging == old(isPackaging)
      ensures form == old(form) && refs == old(refs) && generatedResults == old(generatedResults)
      ensures generalError == old(generalError) && isGenerating == old(isGenerating)
      ensures requests == old(requests) && saved == old(saved)
    {
      download := None;
      if generatedResults == [] || isPackaging.Some? {
        return;
      }
      isPackaging := Some(kind);
      packRequests := packRequests + [PackRequestFor(kind, generatedResults, form.outputFormat)];
      if ok {
        download := Some(PackageName(kind, now));
      }
      isPackaging := None;
    }
  }

  // ------------------------------------------------------------------ lemmas

  /** The layer count is always within [2, 8], and a value already there is kept. */
  lemma ClampRange(value: real)
    ensures MinNumLayers <= ClampNumLayers(value) <= MaxNumLayers
    ensures MinNumLayers <= value <= MaxNumLayers ==> ClampNumLayers(value) == value
    ensures value < MinNumLayers ==> ClampNumLayers(value) == MinNumLayers
    ensures value > MaxNumLayers ==> ClampNumLayers(value) == MaxNumLayers
  {
  }

  /** Only the first file is taken, and only when no image is held yet. */
  lemma OneReferenceAtMost(files: seq<UploadFile>, held: nat)
    requires held <= ReferenceLimit
    ensures held == 0 && files != [] ==> ToProcess(files, held, ReferenceLimit) == [files[0]]
    ensures held == 1 ==> ToProcess(files, held, ReferenceLimit) == []
  {
  }

  /**
   * A file the component's check refuses is marked with its message and
   * never uploaded; a file it passes is posted under the category
   * `qwen-image-layered` and added when the answer's code is 0.
   */
  lemma OutcomeCases(file: UploadFile, validate: UploadFile -> Option<string>, post: UploadBody -> Response)
    ensures validate(file).Some? ==> OutcomeOf(file, validate, post) == Rejected(validate(file).value)
    ensures validate(file).None? && file.mimeType in ["image/jpeg", "image/png", "image/webp"] && file.contents.Ok? ==>
      var body := UploadBody(file.contents.value, ModelName);
      post(body).Answer? && post(body).code == Num(0.0) ==>
        OutcomeOf(file, validate, post) == Added(Uploaded(post(body).url, file.contents.value))
    ensures validate(file).None? && file.mimeType !in ["image/jpeg", "image/png", "image/webp"] ==>
      OutcomeOf(file, validate, post) == Failed(Unsupported)
  {
  }

  /**
   * Generating stops for a visitor who must sign in before it checks for
   * a reference; otherwise it goes ahead exactly when a reference URL is held.
   */
  lemma RefusalOrder(authEnabled: bool, signedIn: bool, urls: seq<string>)
    ensures authEnabled && !signedIn ==> Refusal(authEnabled, signedIn, urls) == Some(SignIn(SignInPath))
    ensures !(authEnabled && !signedIn) ==> (Refusal(authEnabled, signedIn, urls).None? <==> urls != [])
  {
  }

  /**
   * The request carries the first reference URL, the trimmed prompt or
   * `auto`, the format in lower case, the caption language `en` or `zh`,
   * and a negative prompt exactly when its trimmed text is not empty.
   */
  lemma RequestShape(form: Form, urls: seq<string>, random: nat)
    requires urls != []
    ensures var r := RequestFor(form, urls, random);
      && r.image == urls[0]
      && (Trim(form.prompt) == [] ==> r.description == "auto")
      && (Trim(form.prompt) != [] ==> r.description == Trim(form.prompt))
      && r.outputFormat in ["webp", "png"]
      && r.captionLanguage == (if form.autoCaptionEn then "en" else "zh")
      && (r.negativePrompt.Some? <==> Trim(form.negativePrompt) != [])
      && (r.negativePrompt.Some? ==> r.negativePrompt.value == Trim(form.negativePrompt))
      && (form.randomizeSeed ==> r.seed == random as real)
      && (!form.randomizeSeed ==> r.seed == form.seed)
  {
  }

  /** The extension is the format's name in lower case. */
  lemma FormatExtensions(f: OutputFormat)
    ensures FormatExtension(f) == Lower(FormatName(f))
  {
    assert LowerChar('W') == 'w' && LowerChar('E') == 'e' && LowerChar('B') == 'b' && LowerChar('P') == 'p';
    assert LowerChar('N') == 'n' && LowerChar('G') == 'g';
    assert Lower("WEBP") == "webp";
    assert Lower("PNG") == "png";
  }

  /**
   * A code other than 0, or an answer without outfits, is an error;
   * otherwise there is one layer per outfit, in order, each with the
   * outfit's id and image, its description or the description sent, and
   * the `1:1` aspect ratio.
   */
  lemma GeneratedCases(response: LayeredResponse, description: string, mode: Mode)
    ensures response.Answer? && response.code != Num(0.0) ==>
      Generated(response, description, mode) == Err(OrElse(response.message, GenerationFailed))
    ensures response.Answer? && response.code == Num(0.0) && (response.outfits.None? || response.outfits.value == []) ==>
      Generated(response, description, mode) == Err(GenerationFailed)
    ensures Generated(response, description, mode).Ok? ==>
      var outfits := response.outfits.value;
      var layers := Generated(response, description, mode).value;
      && |layers| == |outfits| > 0
      && forall i :: 0 <= i < |outfits| ==>
        && layers[i].id == outfits[i].uuid && layers[i].url == outfits[i].imgUrl
        && layers[i].prompt == OrElse(outfits[i].imgDescription, description)
        && layers[i].aspectRatio == "1:1" && layers[i].model == ModelName
  {
  }

  /** The ZIP entries are named `layer-1`, `layer-2`, ... in the order of the layers, so no two collide. */
  lemma ZipNamesDistinct(results: seq<Creation>, f: OutputFormat, i: nat, j: nat)
    requires i < |results| && j < |results| && i != j
    ensures PackImages(Zip, results, f)[i].name == "layer-" + NatToString(i + 1) + "." + FormatExtension(f)
    ensures PackImages(Zip, results, f)[i].name != PackImages(Zip, results, f)[j].name
  {
    DownloadZip.DefaultNamesDiffer(i, j, FormatExtension(f), FormatExtension(f));
  }

  /** The slides are named after the layers' prompts, in order. */
  lemma PptxNamesArePrompts(results: seq<Creation>, f: OutputFormat)
    ensures forall i :: 0 <= i < |results| ==> PackImages(Pptx, results, f)[i] == PackImage(results[i].url, results[i].prompt)
  {
  }
}
