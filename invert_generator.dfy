/**
 * The colour-invert generator component: the file check, the upload that
 * follows it, and `handleGenerate`, which refuses without an image, refreshes
 * the credits just before the gate, then asks the invert route and reloads
 * the page on success.
 */
module InvertGenerator {

  import opened Wrappers
  import opened Strings
  import opened Js

  const ValidTypes := ["image/jpeg", "image/png", "image/gif", "image/webp"]
  const MaxSize := 10 * 1024 * 1024
  /** The description posted with every request. */
  const InvertDescription := "Invert the colors of the image while preserving the original resolution."

  // The toast messages: translation keys, or the literal texts of the source.
  const InvalidFormat := "errors.invalid_format"
  const FileTooLarge := "errors.file_too_large"
  const NoImage := "errors.no_image"
  const InsufficientCredits := "insufficient_credits"
  const GenerationFailed := "errors.generation_failed"
  const Generated := "success.generated"
  const SignInToUpload := "Please sign in to upload images."
  const ReadFailed := "Failed to read file"

  /** A chosen file, as far as the component reads it. */
  datatype File = File(name: string, size: nat, mimeType: string)

  /** `GeneratorState`. */
  datatype GeneratorState = GeneratorState(
    baseImage: Option<File>,
    imagePreview: Option<string>,
    baseImageUrl: Option<string>,
    isGenerating: bool,
    isUploading: bool,
    userCredits: int,
    generationCost: ParsedInt)

  const Initial := GeneratorState(None, None, None, false, false, 0, Int(5))

  /** The file check: the type is checked first, then the 10 MB limit; `None` when both pass. */
  function FileError(file: File): Option<string>
  {
    if file.mimeType !in ValidTypes then Some(InvalidFormat)
    else if file.size > MaxSize then Some(FileTooLarge)
    else None
  }

  /**
   * What `/api/get-user-credits` gave: a failure (a throw, including a body
   * without `data`), or the code and `data.left_credits` (`None` when falsy).
   */
  datatype CreditsAnswer = CreditsFailed | CreditsAnswer(code: Value, leftCredits: Option<int>)

  /** The credits an answer gives, when its code is 0: `left_credits || 0`. */
  function Fetched(answer: CreditsAnswer): Option<int>
  {
    if answer.CreditsAnswer? && answer.code == Num(0.0) then Some(answer.leftCredits.GetOr(0)) else None
  }

  /** `refreshCredits`: the fetched credits, or the cached ones when the refresh gives nothing. */
  function Latest(cached: int, answer: CreditsAnswer): int
  {
    Fetched(answer).GetOr(cached)
  }

  /** The generation cost from the environment variable, `parseInt(value || "5")`. */
  function CostFrom(env: Option<string>): ParsedInt
  {
    ParseInt(OrElse(env, "5"), None)
  }

  /** The message an upload failure shows: a sign-in hint for authentication failures. */
  function UploadToast(message: string): string
  {
    if Contains(Lower(message), "authenticated") then SignInToUpload else message
  }

  /** The body posted to `/api/invert-image`; the URL is `null` when none is held. */
  datatype InvertRequest = InvertRequest(baseImageUrl: Option<string>, description: string)

  /** What the invert request gave: a throw, a non-OK status, or the code of the answer. */
  datatype InvertAnswer = InvertThrew | NotOk | InvertAnswer(code: Value)

  /** The answer succeeds exactly when it came back OK with code 0. */
  predicate Succeeded(answer: InvertAnswer)
  {
    answer.InvertAnswer? && answer.code == Num(0.0)
  }

  /** How `handleGenerate` ended. */
  datatype Outcome = NoBaseImage | NotEnoughCredits | Failed | Reloaded

  /** The outcome of an answer once the request went out. */
  function AnswerOutcome(answer: InvertAnswer): Outcome
  {
    if Succeeded(answer) then Reloaded else Failed
  }

  /** The toast an answer shows once the request went out. */
  function AnswerToast(answer: InvertAnswer): string
  {
    if Succeeded(answer) then Generated else GenerationFailed
  }

  /** The component; the toasts shown and the requests sent are kept as logs. */
  class Generator {
    var state: GeneratorState
    var toasts: seq<string>
    var requests: seq<InvertRequest>

    constructor ()
      ensures state == Initial && toasts == [] && requests == []
    {
      state, toasts, requests := Initial, [], [];
    }

    /** The mount effect: the credits, when fetched, and the cost from the environment. */
    method Mount(answer: CreditsAnswer, env: Option<string>)
      modifies this
      ensures state == old(state).(userCredits := Latest(old(state).userCredits, answer), generationCost := CostFrom(env))
      ensures toasts == old(toasts) && requests == old(requests)
    {
      state := state.(generationCost := CostFrom(env));
      if answer.CreditsAnswer? && answer.code == Num(0.0) {
        state := state.(userCredits := answer.leftCredits.GetOr(0));
      }
    }

    /** `handleFileSelect` up to the read: a file that fails the file check only shows its toast. */
    method HandleFileSelect(file: File) returns (accepted: bool)
      modifies this
      ensures accepted <==> FileError(file).None?
      ensures !accepted ==> state == old(state) && toasts == old(toasts) + [FileError(file).value]
      ensures accepted ==> state == old(state).(isUploading := true) && toasts == old(toasts)
      ensures requests == old(requests)
    {
      if file.mimeType !in ValidTypes {
        toasts := toasts + [InvalidFormat];
        return false;
      }
      if file.size > MaxSize {
        toasts := toasts + [FileTooLarge];
        return false;
      }
      state := state.(isUploading := true);
      accepted := true;
    }

    /**
     * `reader.onload`: the file and its preview are held, then the upload's
     * result (`uploadFileToR2`; the error is the thrown message, or "Failed
     * to upload image") either adds the URL or drops the image.
     */
    method OnRead(file: File, preview: string, upload: Result<string>)
      modifies this
      ensures upload.Ok? ==> state == old(state).(baseImage := Some(file), imagePreview := Some(preview),
        baseImageUrl := Some(upload.value), isUploading := false)
      ensures upload.Ok? ==> toasts == old(toasts)
      ensures upload.Err? ==> state == old(state).(baseImage := None, imagePreview := None, baseImageUrl := None, isUploading := false)
      ensures upload.Err? ==> toasts == old(toasts) + [UploadToast(upload.error)]
      ensures requests == old(requests)
    {
      state := state.(baseImage := Some(file), imagePreview := Some(preview));
      if upload.Ok? {
        state := state.(baseImageUrl := Some(upload.value), isUploading := false);
      } else {
        var message := UploadToast(upload.error);
        toasts := toasts + [message];
        state := state.(baseImage := None, imagePreview := None, baseImageUrl := None, isUploading := false);
      }
    }

    /** `reader.onerror`. */
    method OnReadError()
      modifies this
      ensures state == old(state).(baseImage := None, imagePreview := None, baseImageUrl := None, isUploading := false)
      ensures toasts == old(toasts) + [ReadFailed] && requests == old(requests)
    {
      toasts := toasts + [ReadFailed];
      state := state.(baseImage := None, imagePreview := None, baseImageUrl := None, isUploading := false);
    }

    /** `handleDeleteImage`. */
    method HandleDeleteImage()
      modifies this
      ensures state == old(state).(baseImage := None, imagePreview := None, baseImageUrl := None, isUploading := false)
      ensures toasts == old(toasts) && requests == old(requests)
    {
      state := state.(baseImage := None, imagePreview := None, baseImageUrl := None, isUploading := false);
    }

    /**
     * `handleGenerate`: without a base image only its toast; otherwise the
     * credits are refreshed, and below the cost only the latest value is
     * stored; otherwise the request goes out and the answer either reloads
     * the page or clears the generating flag.
     */
    method HandleGenerate(credits: CreditsAnswer, answer: InvertAnswer) returns (outcome: Outcome)
      modifies this
      ensures old(state).baseImage.None? ==>
        outcome == NoBaseImage && state == old(state) && toasts == old(toasts) + [NoImage] && requests == old(requests)
      ensures old(state).baseImage.Some? && Less(Latest(old(state).userCredits, credits), old(state).generationCost) ==>
        && outcome == NotEnoughCredits
        && state == old(state).(userCredits := Latest(old(state).userCredits, credits))
        && toasts == old(toasts) + [InsufficientCredits] && requests == old(requests)
      ensures old(state).baseImage.Some? && !Less(Latest(old(state).userCredits, credits), old(state).generationCost) ==>
        && outcome == AnswerOutcome(answer)
        && state == old(state).(isGenerating := Succeeded(answer))
        && toasts == old(toasts) + [AnswerToast(answer)]
        && requests == old(requests) + [InvertRequest(old(state).baseImageUrl, InvertDescription)]
    {
      if state.baseImage.None? {
        toasts := toasts + [NoImage];
        return NoBaseImage;
      }
      var latest := Latest(state.userCredits, credits);
      if Less(latest, state.generationCost) {
        state := state.(userCredits := latest);
        toasts := toasts + [InsufficientCredits];
        return NotEnoughCredits;
      }
      outcome := Send(answer);
    }

    /** The request and its answer; a success leaves the generating flag set as the page reloads. */
    method Send(answer: InvertAnswer) returns (outcome: Outcome)
      modifies this
      ensures outcome == AnswerOutcome(answer)
      ensures state == old(state).(isGenerating := Succeeded(answer))
      ensures toasts == old(toasts) + [AnswerToast(answer)]
      ensures requests == old(requests) + [InvertRequest(old(state).baseImageUrl, InvertDescription)]
    {
      state := state.(isGenerating := true);
      requests := requests + [InvertRequest(state.baseImageUrl, InvertDescription)];
      if answer.InvertAnswer? && answer.code == Num(0.0) {
        toasts := toasts + [Generated];
        outcome := Reloaded;
      } else {
        toasts := toasts + [GenerationFailed];
        state := state.(isGenerating := false);
        outcome := Failed;
      }
    }
  }

  // ------------------------------------------------------------------ lemmas

  /**
   * A file passes exactly when its type is one of the four and it is at
   * most 10 MB; a file failing both checks is reported as the wrong format.
   */
  lemma FileErrorOrder(file: File)
    ensures FileError(file).None? <==> file.mimeType in ValidTypes && file.size <= MaxSize
    ensures file.mimeType !in ValidTypes ==> FileError(file) == Some(InvalidFormat)
    ensures file.mimeType in ValidTypes && file.size > MaxSize ==> FileError(file) == Some(FileTooLarge)
  {
  }

  /**
   * The refresh gives the fetched credits (0 when `left_credits` is falsy)
   * when the answer's code is 0, and the cached credits after a failure or
   * any other code.
   */
  lemma LatestCases(cached: int, answer: CreditsAnswer)
    ensures answer.CreditsFailed? ==> Latest(cached, answer) == cached
    ensures answer.CreditsAnswer? && answer.code != Num(0.0) ==> Latest(cached, answer) == cached
    ensures answer.CreditsAnswer? && answer.code == Num(0.0) ==> Latest(cached, answer) == answer.leftCredits.GetOr(0)
  {
  }

  /** Without the environment variable the cost is 5. */
  lemma DefaultCost()
    ensures CostFrom(None) == Int(5)
  {
    assert NatToString(5) == "5";
    ParseIntOfNatToString(5, None);
  }

  /** A cost that is not a number (the variable holds no digits) lets every balance through the gate. */
  lemma NaNCostAdmitsAll(env: string, latest: int)
    requires env != [] && !IsDigit(env[0]) && !IsSpace(env[0]) && env[0] != '-' && env[0] != '+'
    ensures CostFrom(Some(env)) == NaN
    ensures !Less(latest, CostFrom(Some(env)))
  {
    ParseIntOfNonDigitStart(env, None);
  }

  /** With a numeric cost the gate refuses exactly the balances below it. */
  lemma GateIff(latest: int, cost: int)
    ensures Less(latest, Int(cost)) <==> latest < cost
  {
  }

  /** Exactly one answer toast follows a sent request, and only a success reloads. */
  lemma AnswerToasts(answer: InvertAnswer)
    ensures AnswerOutcome(answer) == Reloaded <==> AnswerToast(answer) == Generated
    ensures AnswerOutcome(answer) == Failed <==> AnswerToast(answer) == GenerationFailed
    ensures answer.NotOk? || answer.InvertThrew? ==> AnswerOutcome(answer) == Failed
  {
    assert Generated != GenerationFailed by {
      assert Generated[0] != GenerationFailed[0];
    }
  }

  /** The upload toast asks to sign in exactly for a message that names authentication. */
  lemma UploadToastCases(message: string)
    ensures Contains(Lower(message), "authenticated") ==> UploadToast(message) == SignInToUpload
    ensures !Contains(Lower(message), "authenticated") ==> UploadToast(message) == message
  {
  }
}
