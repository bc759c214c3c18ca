/**
 * The second AI image expander component: the file check, the target size
 * a chosen aspect ratio asks for, the upload, the credit check, the
 * generation request, the image shown and the download link.
 */
module ImageExpander {

  import opened Wrappers
  import opened Strings
  import opened Js
  import NanoBananaUtils
  import WallpaperDownload

  const MaxFileSize := 10 * 1024 * 1024
  const SupportedFormats := ["image/jpeg", "image/png", "image/gif", "image/webp"]
  const GenerationCost := 5
  const MaxImageDimension := 2048
  /** The description sent with every expansion: keep the content, change only the aspect ratio. */
  const Description := "图片的内容保持不变，只调整aspect_ratio"
  /** The format message: the subtypes of `SupportedFormats` joined by ", ". */
  const UnsupportedFormat := "Unsupported file format. Please choose: jpeg, png, gif, webp"
  const ChooseValidImage := "Please select a valid image file"

  // --------------------------------------------------------------- ratios

  datatype AspectRatio = AspectRatio(id: string, labelText: string, w: nat, h: nat)

  /** The ratios offered, in order; the first is the default. */
  const AspectRatios := [
    AspectRatio("1:1", "1:1", 1, 1), AspectRatio("2:3", "2:3", 2, 3), AspectRatio("3:2", "3:2", 3, 2),
    AspectRatio("16:9", "16:9", 16, 9), AspectRatio("9:16", "9:16", 9, 16), AspectRatio("3:4", "3:4", 3, 4),
    AspectRatio("4:3", "4:3", 4, 3)]

  predicate Positive(r: AspectRatio)
  {
    r.w > 0 && r.h > 0
  }

  lemma OfferedRatiosArePositive()
    ensures forall i :: 0 <= i < |AspectRatios| ==> Positive(AspectRatios[i])
  {
  }

  // ------------------------------------------------------------ file check

  datatype ImageFile = ImageFile(size: nat, mimeType: string)

  /** `Math.round` on an exact value: the nearest integer, halves rounded up. */
  function Round(x: real): int
  {
    (x + 0.5).Floor
  }

  /** `(size / 1024 / 1024).toFixed(1)`, on exact values: the megabytes to one decimal. */
  function Megabytes(size: nat): string
  {
    var tenths := Round(size as real * 10.0 / 1048576.0);
    assert tenths >= 0;
    NatToString(tenths / 10) + "." + NatToString(tenths % 10)
  }

  function TooLarge(size: nat): string
  {
    "File too large (" + Megabytes(size) + "MB). Please choose a file under 10.0MB"
  }

  /** `validateFile`: the format is checked first, then the size; `None` when both pass. */
  function ValidateFile(file: ImageFile): Option<string>
  {
    if file.mimeType !in SupportedFormats then Some(UnsupportedFormat)
    else if file.size > MaxFileSize then Some(TooLarge(file.size))
    else None
  }

  // ------------------------------------------------------------ target size

  datatype Dims = Dims(width: int, height: int)

  /**
   * The first step of `calculateTargetDimensions`: an original relatively
   * wider than the ratio keeps its width, any other keeps its height, and
   * the other side follows the ratio.
   */
  function Unscaled(ow: nat, oh: nat, r: AspectRatio): Dims
    requires Positive(r)
  {
    var target := r.w as real / r.h as real;
    if WiderThan(ow, oh, target) then Dims(ow, Round(ow as real / target))
    else Dims(Round(oh as real * target), oh)
  }

  /**
   * `originalWidth / originalHeight > target` in JavaScript: a zero height
   * divides to infinity when the width is positive (wider than any ratio)
   * and to NaN when it is zero (no comparison holds).
   */
  predicate WiderThan(ow: nat, oh: nat, target: real)
  {
    if oh == 0 then ow > 0 else ow as real / oh as real > target
  }

  /** `Math.min(max / width, max / height)`, where a zero side divides to infinity. */
  function ScaleFactor(d: Dims): real
    requires d.width > 0 || d.height > 0
  {
    var m := MaxImageDimension as real;
    if d.height <= 0 then m / d.width as real
    else if d.width <= 0 then m / d.height as real
    else if m / d.width as real < m / d.height as real then m / d.width as real
    else m / d.height as real
  }

  /** The second step: a size with a side over the maximum is scaled down by the smaller factor. */
  function Scaled(d: Dims): Dims
  {
    if d.width > MaxImageDimension || d.height > MaxImageDimension then
      Dims(Round(d.width as real * ScaleFactor(d)), Round(d.height as real * ScaleFactor(d)))
    else d
  }

  /** The last step: an odd side grows by one. */
  function MakeEven(x: int): int
  {
    if x % 2 == 0 then x else x + 1
  }

  /** The size `calculateTargetDimensions` returns, with the default maximum. */
  function TargetDimensions(ow: nat, oh: nat, r: AspectRatio): Dims
    requires Positive(r)
  {
    var s := Scaled(Unscaled(ow, oh, r));
    Dims(MakeEven(s.width), MakeEven(s.height))
  }

  /** The scaling step of `calculateTargetDimensions`. */
  method ScaleToMaximum(width: int, height: int) returns (scaledWidth: int, scaledHeight: int)
    ensures Dims(scaledWidth, scaledHeight) == Scaled(Dims(width, height))
  {
    scaledWidth, scaledHeight := width, height;
    if width > MaxImageDimension || height > MaxImageDimension {
      var scale := ScaleFactor(Dims(width, height));
      scaledWidth, scaledHeight := Round(width as real * scale), Round(height as real * scale);
    }
  }

  /** `calculateTargetDimensions(originalWidth, originalHeight, ratio)`, step by step. */
  method CalculateTargetDimensions(ow: nat, oh: nat, r: AspectRatio) returns (d: Dims)
    requires Positive(r)
    ensures d == TargetDimensions(ow, oh, r)
  {
    var targetRatio := r.w as real / r.h as real;
    var targetWidth: int, targetHeight: int;
    if WiderThan(ow, oh, targetRatio) {
      targetWidth := ow;
      targetHeight := Round(ow as real / targetRatio);
    } else {
      targetHeight := oh;
      targetWidth := Round(oh as real * targetRatio);
    }
    assert Dims(targetWidth, targetHeight) == Unscaled(ow, oh, r);
    targetWidth, targetHeight := ScaleToMaximum(targetWidth, targetHeight);
    targetWidth := if targetWidth % 2 == 0 then targetWidth else targetWidth + 1;
    targetHeight := if targetHeight % 2 == 0 then targetHeight else targetHeight + 1;
    d := Dims(targetWidth, targetHeight);
  }

  // ------------------------------------------------------------ component

  datatype ErrorKind = UploadError | ProcessingError | NetworkError | AuthError

  /** An `ErrorState`; the retry action is not modelled. */
  datatype ExpanderError = ExpanderError(kind: ErrorKind, message: string, suggestion: string)

  /** What `/api/get-user-credits` gave: a throw or a non-OK status, or the code and `data` (`None` when falsy). */
  datatype CreditsAnswer = CreditsFailed | CreditsAnswer(code: Value, credits: Option<int>)

  /** The JSON body posted to `/api/gen-outfit`. */
  datatype ExpandRequest = ExpandRequest(baseImageUrl: string, description: string, aspectRatio: string)

  /**
   * What the generation request gave: a throw, a non-OK status, or the
   * code, message and first outfit's `img_url` (`None` when missing).
   */
  datatype ExpandAnswer =
    | ExpandThrew(thrown: string)
    | NotOk(status: nat)
    | ExpandAnswer(code: Value, message: Option<string>, imgUrl: Option<string>)

  /** The image URL the answer gives, or the message its failure raises. */
  function ExpandResult(answer: ExpandAnswer): Result<string>
  {
    match answer
    case ExpandThrew(m) => Err(m)
    case NotOk(status) => Err("HTTP " + NatToString(status))
    case ExpandAnswer(code, message, imgUrl) =>
      if code != Num(0.0) then Err(OrElse(message, "Generation failed"))
      else if imgUrl.None? || imgUrl.value == [] then Err("No generated image URL received")
      else Ok(imgUrl.value)
  }

  /** The error shown when generation fails with `message`. */
  function GenerationError(message: string): ExpanderError
  {
    if Contains(Lower(message), "authenticated") || Contains(Lower(message), "credits") then
      ExpanderError(AuthError, "Please sign in first or insufficient credits", "Sign in and ensure you have enough credits")
    else
      ExpanderError(ProcessingError, "Image processing failed", "Please retry later or contact support")
  }

  /** The error shown when the upload fails with `message`. */
  function UploadFailure(message: string): ExpanderError
  {
    if Contains(Lower(message), "authenticated") then
      ExpanderError(AuthError, "Please sign in first", "Sign in to upload images")
    else
      ExpanderError(NetworkError, "Upload failed", "Check your network connection and retry")
  }

  function InsufficientCredits(credits: int): ExpanderError
  {
    ExpanderError(AuthError, "Insufficient credits",
      "You need " + NatToString(GenerationCost) + " credits but only have " + IntToString(credits) + ".")
  }

  /** A URL held in state counts only when it is a non-empty string. */
  predicate Held(url: Option<string>)
  {
    url.Some? && url.value != []
  }

  /** The name the expanded image is downloaded under, given the ISO time. */
  function DownloadFilename(labelText: string, iso: string): string
  {
    "ai-expanded-" + (if labelText != [] then labelText else "expanded") + "-" + SliceTo(iso, 10) + ".png"
  }

  /** `AIImageExpanderSecondState`; the constant generation cost is `GenerationCost`. */
  datatype ExpanderState = ExpanderState(
    originalImage: Option<ImageFile>, uploadedImageUrl: Option<string>, expandedImageUrl: Option<string>,
    originalDimensions: Option<Dims>, isUploading: bool, isGenerating: bool, selectedAspectRatio: AspectRatio,
    targetDimensions: Option<Dims>, showComparison: bool, userCredits: int, error: Option<ExpanderError>)

  /** The ratio is usable, and dimensions held are those of a loaded image. */
  predicate ValidState(s: ExpanderState)
  {
    && Positive(s.selectedAspectRatio)
    && (s.originalDimensions.Some? ==> s.originalDimensions.value.width >= 0 && s.originalDimensions.value.height >= 0)
  }

  /** The target size for the dimensions held, if any, and a ratio. */
  function TargetFor(dims: Option<Dims>, r: AspectRatio): Option<Dims>
    requires Positive(r) && (dims.Some? ==> dims.value.width >= 0 && dims.value.height >= 0)
  {
    if dims.Some? then Some(TargetDimensions(dims.value.width, dims.value.height, r)) else None
  }

  /** The credits after `fetchUserCredits`: only an answer with code 0 replaces them, by `data || 0`. */
  function CreditsAfter(credits: int, answer: CreditsAnswer): int
  {
    if answer.CreditsAnswer? && answer.code == Num(0.0) then answer.credits.GetOr(0) else credits
  }

  /**
   * The state after the generation answer: the expanded image, with the
   * credits fetched again, or the generation error.
   */
  function AfterAnswer(s: ExpanderState, answer: ExpandAnswer, credits: CreditsAnswer): ExpanderState
  {
    match ExpandResult(answer)
    case Ok(url) =>
      s.(expandedImageUrl := Some(url), isGenerating := false, showComparison := false,
         userCredits := CreditsAfter(s.userCredits, credits))
    case Err(m) => s.(isGenerating := false, error := Some(GenerationError(m)))
  }

  /** What `onImageGenerated` receives for an answer. */
  function Generated(answer: ExpandAnswer): seq<string>
  {
    if ExpandResult(answer).Ok? then [ExpandResult(answer).value] else []
  }

  /** What `onError` receives for an answer. */
  function Reported(answer: ExpandAnswer): seq<string>
  {
    if ExpandResult(answer).Err? then [ExpandResult(answer).error] else []
  }

  /** `getDisplayImage`. */
  function DisplayImage(s: ExpanderState): string
  {
    if Held(s.expandedImageUrl) then s.expandedImageUrl.value
    else if Held(s.uploadedImageUrl) then s.uploadedImageUrl.value
    else ""
  }

  /** `handleDownload`: with an expanded image, the link to the download proxy under the dated name. */
  function HandleDownload(s: ExpanderState, iso: string): (r: Option<NanoBananaUtils.Link>)
    ensures r.Some? <==> Held(s.expandedImageUrl)
  {
    if !Held(s.expandedImageUrl) then None
    else
      var name := DownloadFilename(s.selectedAspectRatio.labelText, iso);
      Some(NanoBananaUtils.Link(WallpaperDownload.DownloadLink(s.expandedImageUrl.value, name), name))
  }

  /** The component. `onImageGenerated` and `onError` calls are kept as logs. */
  class Expander {
    var state: ExpanderState
    /** The generation requests sent, in order. */
    var requests: seq<ExpandRequest>
    /** The URLs handed to `onImageGenerated`. */
    var generatedLog: seq<string>
    /** The messages handed to `onError`. */
    var errorLog: seq<string>

    constructor (initialImage: Option<ImageFile>, initialImageUrl: Option<string>, initialAspectRatio: Option<AspectRatio>)
      requires initialAspectRatio.Some? ==> Positive(initialAspectRatio.value)
      ensures ValidState(state)
      ensures state == ExpanderState(initialImage, if Held(initialImageUrl) then initialImageUrl else None, None, None,
        false, false, if initialAspectRatio.Some? then initialAspectRatio.value else AspectRatios[0], None, false, 0, None)
      ensures requests == [] && generatedLog == [] && errorLog == []
    {
      state := ExpanderState(initialImage, if Held(initialImageUrl) then initialImageUrl else None, None, None,
        false, false, if initialAspectRatio.Some? then initialAspectRatio.value else AspectRatios[0], None, false, 0, None);
      requests, generatedLog, errorLog := [], [], [];
    }

    /** `fetchUserCredits`: failures are silent. */
    method FetchUserCredits(answer: CreditsAnswer)
      modifies this
      ensures state == old(state).(userCredits := CreditsAfter(old(state).userCredits, answer))
      ensures requests == old(requests) && generatedLog == old(generatedLog) && errorLog == old(errorLog)
    {
      if answer.CreditsAnswer? && answer.code == Num(0.0) {
        state := state.(userCredits := answer.credits.GetOr(0));
      }
    }

    /**
     * `img.onload` of `handleInitialImage`, which the mount effect starts
     * when both an initial file and a non-empty URL are given: the size and
     * the target size for the selected ratio are set, nothing else.
     */
    method HandleInitialImage(width: nat, height: nat)
      requires ValidState(state)
      modifies this
      ensures ValidState(state)
      ensures state == old(state).(originalDimensions := Some(Dims(width, height)),
        targetDimensions := Some(TargetDimensions(width, height, old(state).selectedAspectRatio)))
      ensures requests == old(requests) && generatedLog == old(generatedLog) && errorLog == old(errorLog)
    {
      var d := CalculateTargetDimensions(width, height, state.selectedAspectRatio);
      state := state.(originalDimensions := Some(Dims(width, height)), targetDimensions := Some(d));
    }

    /** `clearError`. */
    method ClearError()
      modifies this
      ensures state == old(state).(error := None)
      ensures requests == old(requests) && generatedLog == old(generatedLog) && errorLog == old(errorLog)
    {
      state := state.(error := None);
    }

    /** `handleAspectRatioSelect`: the target size follows the new ratio when an image is loaded. */
    method HandleAspectRatioSelect(ratio: AspectRatio)
      requires ValidState(state) && Positive(ratio)
      modifies this
      ensures ValidState(state)
      ensures state == old(state).(selectedAspectRatio := ratio, targetDimensions := TargetFor(old(state).originalDimensions, ratio),
        showComparison := false, error := None)
      ensures requests == old(requests) && generatedLog == old(generatedLog) && errorLog == old(errorLog)
    {
      var target: Option<Dims> := None;
      if state.originalDimensions.Some? {
        var d := CalculateTargetDimensions(state.originalDimensions.value.width, state.originalDimensions.value.height, ratio);
        target := Some(d);
      }
      state := state.(selectedAspectRatio := ratio, targetDimensions := target, showComparison := false, error := None);
    }

    /**
     * The synchronous part of `handleFileSelect`: a file that fails the file check
     * only sets the upload error; an accepted one becomes the original and
     * starts uploading, clearing the expanded image.
     */
    method HandleFileSelect(file: Option<ImageFile>) returns (accepted: bool)
      requires ValidState(state)
      modifies this
      ensures ValidState(state)
      ensures accepted <==> file.Some? && ValidateFile(file.value).None?
      ensures file.None? ==> state == old(state)
      ensures file.Some? && !accepted ==>
        state == old(state).(error := Some(ExpanderError(UploadError, ValidateFile(file.value).value, ChooseValidImage)))
      ensures accepted ==>
        state == old(state).(originalImage := file, isUploading := true, expandedImageUrl := None, showComparison := false, error := None)
      ensures requests == old(requests) && generatedLog == old(generatedLog) && errorLog == old(errorLog)
    {
      if file.None? {
        return false;
      }
      state := state.(error := None);
      var validationError := ValidateFile(file.value);
      if validationError.Some? {
        state := state.(error := Some(ExpanderError(UploadError, validationError.value, ChooseValidImage)));
        return false;
      }
      state := state.(originalImage := file, isUploading := true, expandedImageUrl := None, showComparison := false, error := None);
      accepted := true;
    }

    /**
     * `img.onload` after a file was accepted: the size and target size are
     * set, then the upload's result (`uploadFileToR2`) decides between the
     * uploaded URL and an upload error that drops the original.
     */
    method OnImageLoad(width: nat, height: nat, upload: Result<string>)
      requires ValidState(state)
      modifies this
      ensures ValidState(state)
      ensures upload.Ok? ==> state == old(state).(originalDimensions := Some(Dims(width, height)),
        targetDimensions := Some(TargetDimensions(width, height, old(state).selectedAspectRatio)),
        uploadedImageUrl := Some(upload.value), isUploading := false)
      ensures upload.Err? ==> state == old(state).(originalDimensions := Some(Dims(width, height)),
        targetDimensions := Some(TargetDimensions(width, height, old(state).selectedAspectRatio)),
        originalImage := None, uploadedImageUrl := None, isUploading := false, error := Some(UploadFailure(upload.error)))
      ensures requests == old(requests) && generatedLog == old(generatedLog) && errorLog == old(errorLog)
    {
      var d := CalculateTargetDimensions(width, height, state.selectedAspectRatio);
      state := state.(originalDimensions := Some(Dims(width, height)), targetDimensions := Some(d));
      if upload.Ok? {
        state := state.(uploadedImageUrl := Some(upload.value), isUploading := false);
      } else {
        state := state.(originalImage := None, uploadedImageUrl := None, isUploading := false, error := Some(UploadFailure(upload.error)));
      }
    }

    /** `img.onerror`: the file could not be read as an image. */
    method OnImageError()
      modifies this
      ensures state == old(state).(originalImage := None, isUploading := false,
        error := Some(ExpanderError(UploadError, "File read failed", ChooseValidImage)))
      ensures requests == old(requests) && generatedLog == old(generatedLog) && errorLog == old(errorLog)
    {
      state := state.(originalImage := None, isUploading := false,
        error := Some(ExpanderError(UploadError, "File read failed", ChooseValidImage)));
    }

    /** `validateCredits`: passes exactly when the credits cover the cost; a failure sets the error. */
    method ValidateCredits() returns (ok: bool)
      modifies this
      ensures ok <==> old(state).userCredits >= GenerationCost
      ensures ok ==> state == old(state)
      ensures !ok ==> state == old(state).(error := Some(InsufficientCredits(old(state).userCredits)))
      ensures requests == old(requests) && generatedLog == old(generatedLog) && errorLog == old(errorLog)
    {
      if state.userCredits < GenerationCost {
        state := state.(error := Some(InsufficientCredits(state.userCredits)));
        return false;
      }
      ok := true;
    }

    /**
     * `handleGenerate`: nothing without an uploaded URL; with too few
     * credits only the error is set; otherwise the request for the uploaded
     * URL and the ratio's label is sent and its answer handled, with
     * `onImageGenerated` or `onError` called. Returns whether it was sent.
     */
    method HandleGenerate(answer: ExpandAnswer, credits: CreditsAnswer) returns (sent: bool)
      modifies this
      ensures sent <==> Held(old(state).uploadedImageUrl) && old(state).userCredits >= GenerationCost
      ensures !Held(old(state).uploadedImageUrl) ==> state == old(state)
      ensures Held(old(state).uploadedImageUrl) && !sent ==>
        state == old(state).(error := Some(InsufficientCredits(old(state).userCredits)))
      ensures !sent ==> requests == old(requests) && generatedLog == old(generatedLog) && errorLog == old(errorLog)
      ensures sent ==>
        && requests == old(requests) + [ExpandRequest(old(state).uploadedImageUrl.value, Description, old(state).selectedAspectRatio.labelText)]
        && state == AfterAnswer(old(state).(isGenerating := true, error := None), answer, credits)
        && generatedLog == old(generatedLog) + Generated(answer) && errorLog == old(errorLog) + Reported(answer)
    {
      if !Held(state.uploadedImageUrl) {
        return false;
      }
      var ok := ValidateCredits();
      if !ok {
        return false;
      }
      Send();
      Receive(answer, credits);
      sent := true;
    }

    /** The request for the uploaded URL and the ratio's label goes out with the generation flag set. */
    method Send()
      requires Held(state.uploadedImageUrl)
      modifies this
      ensures state == old(state).(isGenerating := true, error := None)
      ensures requests == old(requests) + [ExpandRequest(old(state).uploadedImageUrl.value, Description, old(state).selectedAspectRatio.labelText)]
      ensures generatedLog == old(generatedLog) && errorLog == old(errorLog)
    {
      var request := ExpandRequest(state.uploadedImageUrl.value, Description, state.selectedAspectRatio.labelText);
      state := state.(isGenerating := true, error := None);
      requests := requests + [request];
    }

    /** The answer is handled: the image and the credits fetched again, or the error; then the callback. */
    method Receive(answer: ExpandAnswer, credits: CreditsAnswer)
      modifies this
      ensures state == AfterAnswer(old(state), answer, credits)
      ensures generatedLog == old(generatedLog) + Generated(answer) && errorLog == old(errorLog) + Reported(answer)
      ensures requests == old(requests)
    {
      var result := ExpandResult(answer);
      if result.Ok? {
        state := state.(expandedImageUrl := Some(result.value), isGenerating := false, showComparison := false);
        FetchUserCredits(credits);
        generatedLog := generatedLog + [result.value];
      } else {
        state := state.(isGenerating := false, error := Some(GenerationError(result.error)));
        errorLog := errorLog + [result.error];
      }
    }
  }

  // ------------------------------------------------------------------ lemmas

  /**
   * An unsupported format is reported whatever the size; a supported file
   * over 10 MB is reported as too large; a file passes exactly when both
   * checks pass.
   */
  lemma ValidateFileOrder(file: ImageFile)
    ensures file.mimeType !in SupportedFormats ==> ValidateFile(file) == Some(UnsupportedFormat)
    ensures file.mimeType in SupportedFormats && file.size > MaxFileSize ==> ValidateFile(file) == Some(TooLarge(file.size))
    ensures ValidateFile(file).None? <==> file.mimeType in SupportedFormats && file.size <= MaxFileSize
  {
  }

  /** The displayed image is the expanded URL, else the uploaded one, else nothing. */
  lemma DisplayImageCases(s: ExpanderState)
    ensures Held(s.expandedImageUrl) ==> DisplayImage(s) == s.expandedImageUrl.value
    ensures !Held(s.expandedImageUrl) && Held(s.uploadedImageUrl) ==> DisplayImage(s) == s.uploadedImageUrl.value
    ensures DisplayImage(s) != "" <==> Held(s.expandedImageUrl) || Held(s.uploadedImageUrl)
  {
  }

  /**
   * After an answer the component is no longer generating; a success shows
   * the new image in place of the uploaded one and refreshes the credits, a
   * failure keeps the image shown and sets the generation error.
   */
  lemma AnswerOutcome(s: ExpanderState, answer: ExpandAnswer, credits: CreditsAnswer)
    ensures !AfterAnswer(s, answer, credits).isGenerating
    ensures ExpandResult(answer).Ok? ==>
      && DisplayImage(AfterAnswer(s, answer, credits)) == ExpandResult(answer).value
      && AfterAnswer(s, answer, credits).userCredits == CreditsAfter(s.userCredits, credits)
      && AfterAnswer(s, answer, credits).error == s.error
    ensures ExpandResult(answer).Err? ==>
      && DisplayImage(AfterAnswer(s, answer, credits)) == DisplayImage(s)
      && AfterAnswer(s, answer, credits).error == Some(GenerationError(ExpandResult(answer).error))
      && AfterAnswer(s, answer, credits).userCredits == s.userCredits
    ensures |Generated(answer)| + |Reported(answer)| == 1
  {
  }

  /** Only an answer with code 0 changes the credits, to its `data` or 0. */
  lemma CreditsAfterCases(credits: int, answer: CreditsAnswer)
    ensures answer.CreditsFailed? ==> CreditsAfter(credits, answer) == credits
    ensures answer.CreditsAnswer? && answer.code != Num(0.0) ==> CreditsAfter(credits, answer) == credits
    ensures answer == CreditsAnswer(Num(0.0), None) ==> CreditsAfter(credits, answer) == 0
  {
  }

  /** For positive values, `a / b > c / d` means `a / (c / d) > b`. */
  lemma WiderMeansTaller(a: real, b: real, c: real, d: real)
    requires a > 0.0 && b > 0.0 && c > 0.0 && d > 0.0
    requires a / b > c / d
    ensures a / (c / d) > b
  {
    var t := c / d;
    assert a > b * t by {
      assert a == (a / b) * b;
      assert (a / b) * b > t * b;
    }
    assert a / t * t == a;
  }

  /** For positive values, `a / b <= c / d` means `b * (c / d) >= a`. */
  lemma NarrowerMeansWider(a: real, b: real, c: real, d: real)
    requires a > 0.0 && b > 0.0 && c > 0.0 && d > 0.0
    requires a / b <= c / d
    ensures b * (c / d) >= a
  {
    assert a == (a / b) * b;
    assert (a / b) * b <= (c / d) * b;
  }

  /** Dividing by the larger of two positive values gives the smaller quotient. */
  lemma DivideByLarger(m: real, w: real, h: real)
    requires m > 0.0 && w >= h > 0.0
    ensures m / w <= m / h
  {
    assert m / w == (m / h) * (h / w);
    assert h / w <= 1.0;
    assert (m / h) * (h / w) <= (m / h) * 1.0;
  }

  /** Rounding a value over an integer gives at least that integer. */
  lemma RoundAtLeast(x: real, n: int)
    requires x >= n as real
    ensures Round(x) >= n
  {
  }

  /** Rounding a value under an integer gives at most that integer. */
  lemma RoundAtMost(x: real, n: int)
    requires x <= n as real
    ensures Round(x) <= n
  {
  }

  /**
   * Before any scaling, an original relatively wider than the ratio keeps
   * its width, any other keeps its height, and the size never cuts into
   * the original: both sides are at least the original's.
   */
  lemma UnscaledCoversOriginal(ow: nat, oh: nat, r: AspectRatio)
    requires Positive(r)
    ensures var u := Unscaled(ow, oh, r);
      && (WiderThan(ow, oh, r.w as real / r.h as real) ==> u.width == ow)
      && (!WiderThan(ow, oh, r.w as real / r.h as real) ==> u.height == oh)
      && u.width >= ow && u.height >= oh
  {
    var a, b, c, d := ow as real, oh as real, r.w as real, r.h as real;
    if oh == 0 {
      RoundAtLeast(a / (c / d), 0);
      RoundAtLeast(b * (c / d), 0);
    } else if ow == 0 {
      RoundAtLeast(b * (c / d), 0);
    } else if a / b > c / d {
      WiderMeansTaller(a, b, c, d);
      RoundAtLeast(a / (c / d), oh);
    } else {
      NarrowerMeansWider(a, b, c, d);
      RoundAtLeast(b * (c / d), ow);
    }
  }

  /** The factor of a size whose width is the larger side is the maximum over the width. */
  lemma WideFactor(d: Dims)
    requires d.width >= d.height >= 0 && d.width > 0
    ensures ScaleFactor(d) == MaxImageDimension as real / d.width as real
  {
    if d.height > 0 {
      DivideByLarger(MaxImageDimension as real, d.width as real, d.height as real);
    }
  }

  /** The factor of a size whose height is the larger side is the maximum over the height. */
  lemma TallFactor(d: Dims)
    requires d.height > d.width >= 0
    ensures ScaleFactor(d) == MaxImageDimension as real / d.height as real
  {
    var m, w, h := MaxImageDimension as real, d.width as real, d.height as real;
    if d.width > 0 {
      DivideByLarger(m, h, w);
      assert m / h != m / w by {
        assert m / h * h == m && m / w * w == m;
      }
    }
  }

  /** Scaling the larger side `big` and the other side `small` by `m / big` keeps both within `m`. */
  lemma ScaledSides(m: real, big: real, small: real)
    requires m > 0.0 && big >= small >= 0.0 && big > 0.0
    ensures big * (m / big) == m
    ensures 0.0 <= small * (m / big) <= m
  {
    assert small * (m / big) == (small / big) * m;
    assert small / big <= 1.0;
  }

  /** After scaling, both sides lie between 0 and the maximum. */
  lemma ScaledWithinMaximum(d: Dims)
    requires d.width >= 0 && d.height >= 0
    ensures Scaled(d).width <= MaxImageDimension && Scaled(d).height <= MaxImageDimension
    ensures Scaled(d).width >= 0 && Scaled(d).height >= 0
  {
    if d.width > MaxImageDimension || d.height > MaxImageDimension {
      var m := MaxImageDimension as real;
      var w, h := d.width as real, d.height as real;
      var s := ScaleFactor(d);
      if d.width >= d.height {
        WideFactor(d);
        ScaledSides(m, w, h);
      } else {
        TallFactor(d);
        ScaledSides(m, h, w);
      }
      assert 0.0 <= w * s <= m && 0.0 <= h * s <= m;
      RoundAtMost(w * s, MaxImageDimension);
      RoundAtMost(h * s, MaxImageDimension);
      RoundAtLeast(w * s, 0);
      RoundAtLeast(h * s, 0);
    }
  }

  /**
   * The target size has even sides, each the scaled side or one more, and
   * neither exceeds the 2048 maximum (which is even, so rounding up an odd
   * side never crosses it).
   */
  lemma TargetDimensionsShape(ow: nat, oh: nat, r: AspectRatio)
    requires Positive(r)
    ensures var t := TargetDimensions(ow, oh, r);
      var s := Scaled(Unscaled(ow, oh, r));
      && t.width % 2 == 0 && t.height % 2 == 0
      && (t.width == s.width || t.width == s.width + 1)
      && (t.height == s.height || t.height == s.height + 1)
      && 0 <= t.width <= MaxImageDimension && 0 <= t.height <= MaxImageDimension
  {
    UnscaledCoversOriginal(ow, oh, r);
    var s := Scaled(Unscaled(ow, oh, r));
    ScaledWithinMaximum(Unscaled(ow, oh, r));
    MakeEvenWithinMaximum(s.width);
    MakeEvenWithinMaximum(s.height);
  }

  /** A side within the maximum stays within it when made even, since the maximum is even. */
  lemma MakeEvenWithinMaximum(x: int)
    requires 0 <= x <= MaxImageDimension
    ensures MakeEven(x) % 2 == 0 && (MakeEven(x) == x || MakeEven(x) == x + 1) && 0 <= MakeEven(x) <= MaxImageDimension
  {
  }

  /** A size already within the maximum is not scaled: the target is the unscaled size made even. */
  lemma SmallSizeIsNotScaled(ow: nat, oh: nat, r: AspectRatio)
    requires Positive(r)
    requires Unscaled(ow, oh, r).width <= MaxImageDimension && Unscaled(ow, oh, r).height <= MaxImageDimension
    ensures TargetDimensions(ow, oh, r) == Dims(MakeEven(Unscaled(ow, oh, r).width), MakeEven(Unscaled(ow, oh, r).height))
    ensures TargetDimensions(ow, oh, r).width >= ow && TargetDimensions(ow, oh, r).height >= oh
  {
    UnscaledCoversOriginal(ow, oh, r);
  }

  /** A 1000 by 500 original asked for 1:1 keeps its width and becomes 1000 by 1000. */
  lemma WideToSquare()
    ensures TargetDimensions(1000, 500, AspectRatios[0]) == Dims(1000, 1000)
  {
    assert 1000.0 / 500.0 > 1.0 / 1.0;
    assert Round(1000.0 / (1.0 / 1.0)) == 1000;
  }

  /**
   * Sizes with a zero side, as an image without intrinsic size reports
   * them: 0 by 0 stays 0 by 0 (the ratio is NaN), and asked for 1:1 a zero
   * width follows the height while a zero height follows the width (the
   * ratio is infinite).
   */
  lemma ZeroSidedSizes(r: AspectRatio)
    requires Positive(r)
    ensures TargetDimensions(0, 0, r) == Dims(0, 0)
    ensures TargetDimensions(0, 500, AspectRatios[0]) == Dims(500, 500)
    ensures TargetDimensions(500, 0, AspectRatios[0]) == Dims(500, 500)
  {
    assert Round(0.0 * (r.w as real / r.h as real)) == 0;
    assert Round(500.0 * (1.0 / 1.0)) == 500;
    assert Round(500.0 / (1.0 / 1.0)) == 500;
  }

  /** The upload error is the sign-in one exactly when the message mentions authentication. */
  lemma UploadFailureKinds(message: string)
    ensures UploadFailure(message).kind == AuthError <==> Contains(Lower(message), "authenticated")
    ensures UploadFailure(message).kind != AuthError ==> UploadFailure(message).message == "Upload failed"
  {
  }

  /** A generation failure is an authentication error exactly when the message mentions authentication or credits. */
  lemma GenerationErrorKinds(message: string)
    ensures GenerationError(message).kind == AuthError <==>
      Contains(Lower(message), "authenticated") || Contains(Lower(message), "credits")
    ensures GenerationError(message).kind != AuthError ==> GenerationError(message).kind == ProcessingError
  {
  }

  /** A successful answer has code 0 and a non-empty image URL, which is what is shown. */
  lemma ExpandResultOk(answer: ExpandAnswer)
    ensures ExpandResult(answer).Ok? <==>
      answer.ExpandAnswer? && answer.code == Num(0.0) && answer.imgUrl.Some? && answer.imgUrl.value != []
    ensures ExpandResult(answer).Ok? ==> ExpandResult(answer).value == answer.imgUrl.value
    ensures answer.NotOk? ==> ExpandResult(answer) == Err("HTTP " + NatToString(answer.status))
  {
  }

  /**
   * The download name is `ai-expanded-{label}-{date}.png` with the first ten
   * characters of the ISO time, and the link asks the download proxy for
   * the expanded image under that name.
   */
  lemma DownloadTargets(s: ExpanderState, iso: string)
    requires Held(s.expandedImageUrl) && s.selectedAspectRatio.labelText != []
    ensures HandleDownload(s, iso).value.download == "ai-expanded-" + s.selectedAspectRatio.labelText + "-" + SliceTo(iso, 10) + ".png"
    ensures StartsWith(HandleDownload(s, iso).value.href, WallpaperDownload.RoutePath)
    ensures Split(HandleDownload(s, iso).value.href[|WallpaperDownload.RoutePath|..], '&')
      == [WallpaperDownload.Param("src", s.expandedImageUrl.value), WallpaperDownload.Param("filename", HandleDownload(s, iso).value.download)]
  {
    WallpaperDownload.DownloadLinkParams(s.expandedImageUrl.value, DownloadFilename(s.selectedAspectRatio.labelText, iso));
  }
}
