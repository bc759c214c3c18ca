/**
 * `ImageDescriber`: the history of descriptions kept in local storage
 * (at most ten, newest first), the prompt built for each option, and the
 * classification of a failed request.
 */
module ImageDescriber {

  import opened Wrappers
  import opened Strings
  import opened Js
  import opened GeminiService

  const HistoryLimit := 10
  const NoImage := "Please upload an image first"
  const ErrorResult := "Error encountered during generation. Please try again."
  const DefaultDescription := "Description generated successfully"

  datatype HistoryItem = HistoryItem(id: string, timestamp: string, imagePreview: string, option: DescribeOption, result: string)

  /** A stored element: something other than an object, or an item whose `id` and `result` may be empty. */
  datatype StoredEntry = NotAnObject | Stored(item: HistoryItem)

  /** What `JSON.parse` of the stored text gave. */
  datatype Parsed = Unparsable | NotAnArray | Entries(entries: seq<StoredEntry>)

  function Min(a: nat, b: nat): nat { if a <= b then a else b }

  /** `.filter(item => item && typeof item === 'object' && item.id && item.result)`. */
  function ValidItems(entries: seq<StoredEntry>): (r: seq<HistoryItem>)
    ensures |r| <= |entries|
    ensures forall k :: 0 <= k < |r| ==> r[k].id != [] && r[k].result != [] && Stored(r[k]) in entries
  {
    if entries == [] then []
    else
      var rest := ValidItems(entries[1..]);
      var e := entries[0];
      if e.Stored? && e.item.id != [] && e.item.result != [] then [e.item] + rest else rest
  }

  /** The history loaded: the valid items among the first ten stored. */
  function LoadedHistory(entries: seq<StoredEntry>): (r: seq<HistoryItem>)
    ensures |r| <= HistoryLimit
  {
    ValidItems(entries[..Min(HistoryLimit, |entries|)])
  }

  /** An item is loaded exactly when it is valid and among the first ten stored. */
  lemma {:induction false} ValidItemsMembers(entries: seq<StoredEntry>, item: HistoryItem)
    ensures item in ValidItems(entries) <==> item.id != [] && item.result != [] && Stored(item) in entries
    decreases |entries|
  {
    if entries != [] {
      ValidItemsMembers(entries[1..], item);
      assert entries == [entries[0]] + entries[1..];
    }
  }

  /** `[newItem, ...history].slice(0, 10)`. */
  function PushHistory(history: seq<HistoryItem>, item: HistoryItem): seq<HistoryItem>
  {
    ([item] + history)[..Min(HistoryLimit, |history| + 1)]
  }

  /** The new item comes first, followed by the newest nine of the old ones, in order. */
  lemma PushHistoryShape(history: seq<HistoryItem>, item: HistoryItem)
    ensures var r := PushHistory(history, item);
      && |r| == (if |history| < 10 then |history| + 1 else 10)
      && r[0] == item
      && r[1..] == history[..|r| - 1]
      && (|history| < 10 ==> r == [item] + history)
  {
    var r := PushHistory(history, item);
    assert r[1..] == ([item] + history)[1..|r|];
  }

  /** The history after a save: the push, or the new item alone when writing it to storage fails. */
  function SavedHistory(history: seq<HistoryItem>, item: HistoryItem, writeFails: bool): (r: seq<HistoryItem>)
    ensures 1 <= |r| <= HistoryLimit && r[0] == item
  {
    if writeFails then [item] else PushHistory(history, item)
  }

  datatype ErrorType = Validation | Auth | Credits | Generation

  datatype ErrorState = ErrorState(kind: ErrorType, message: string, suggestion: string)

  predicate IsAuthMessage(m: string)
  {
    Contains(Lower(m), "sign in") || Contains(Lower(m), "authenticated")
  }

  predicate IsCreditMessage(m: string)
  {
    Contains(Lower(m), "credit") || Contains(Lower(m), "insufficient")
  }

  /** The error shown for a failed request, from its message. */
  function Classify(errorMessage: string): ErrorState
  {
    if IsAuthMessage(errorMessage) then
      ErrorState(Auth, "Please sign in first", "Sign in to generate descriptions")
    else if IsCreditMessage(errorMessage) then
      ErrorState(Credits, errorMessage, "Purchase more credits to continue")
    else ErrorState(Generation, "Failed to generate description", "Check your connection and try again")
  }

  /**
   * A message about signing in is an authentication error even when it
   * also mentions credits; a message about credits only is a credit error
   * shown as it is; any other message is a generic generation error.
   */
  lemma ClassifyCases(m: string)
    ensures Classify(m).kind == Auth <==> IsAuthMessage(m)
    ensures Classify(m).kind == Credits <==> !IsAuthMessage(m) && IsCreditMessage(m)
    ensures Classify(m).kind == Generation <==> !IsAuthMessage(m) && !IsCreditMessage(m)
    ensures Classify(m).kind == Credits ==> Classify(m).message == m
    ensures Classify(m).kind != Validation
  {
  }

  /** Case does not matter: the message is lowered before it is searched. */
  lemma ClassifyIgnoresCase(m: string)
    ensures Classify(Lower(m)).kind == Classify(m).kind
  {
    LowerIdempotent(m);
  }

  lemma LowerIdempotent(m: string)
    ensures Lower(Lower(m)) == Lower(m)
  {
    assert forall i :: 0 <= i < |m| ==> LowerChar(LowerChar(m[i])) == LowerChar(m[i]);
  }

  /** The JSON body posted to `/api/image-text`. */
  datatype DescribeRequest = DescribeRequest(baseImageUrl: string, description: string)

  /** What the request gave: a throw, a response that is not `ok`, or the parsed `code`, `message` and `data.description`. */
  datatype Response =
    | RequestThrew(error: string)
    | NotOk
    | Answer(code: Value, message: Option<string>, description: Option<string>)

  /** The description text, or the message of the error thrown. */
  function OutcomeOf(response: Response): Result<string>
  {
    match response
    case RequestThrew(e) => Err(e)
    case NotOk => Err("Generate description failed")
    case Answer(code, message, description) =>
      if code != Num(0.0) then Err(if message.Some? then message.value else "")
      else Ok(OrElse(description, DefaultDescription))
  }

  /** The `description` the handler builds by its own `switch`, with the language instruction appended. */
  method DescriptionFor(option: DescribeOption, language: string, custom: string) returns (description: string)
    ensures description == FinalPrompt(PromptForOption(option, Some(custom)), language)
  {
    match option {
      case Detail => description := DetailPrompt;
      case Brief => description := BriefPrompt;
      case Person => description := PersonPrompt;
      case Objects => description := ObjectsPrompt;
      case ArtStyle => description := ArtStylePrompt;
      case ExtractText => description := ExtractTextPrompt;
      case GeneralPrompt => description := GeneralPromptPrompt;
      case FluxPrompt => description := FluxPromptPrompt;
      case Midjourney => description := MidjourneyPrompt;
      case StableDiffusion => description := StableDiffusionPrompt;
      case Custom => description := if custom != [] then custom else DefaultPrompt;
    }
    description := description + "\n\nIMPORTANT: Please provide the response in " + language + ".";
  }

  /** What the user chose: the image (as a data URL), its uploaded URL, the option, the language and the question. */
  datatype Form = Form(selectedImage: Option<string>, uploadedImageUrl: Option<string>, option: DescribeOption,
                       language: string, customQuestion: string)

  class Describer {
    var form: Form
    var isGenerating: bool
    var result: string
    var hasGenerated: bool
    var copied: bool
    var history: seq<HistoryItem>
    /** The text stored under `img_desc_history`. */
    var stored: Option<string>
    var error: Option<ErrorState>
    /** The requests sent, in order. */
    var requests: seq<DescribeRequest>
    /** Whether `abortControllerRef.current` holds a controller: nothing ever sets it. */
    var hasAbortController: bool

    predicate Valid()
      reads this
    {
      |history| <= HistoryLimit && !hasAbortController
    }

    constructor (stored: Option<string>)
      ensures Valid() && this.stored == stored && history == [] && requests == [] && error.None?
    {
      form := Form(None, None, Detail, "English", "");
      isGenerating, result, hasGenerated, copied := false, "", false, false;
      history, this.stored, error, requests := [], stored, None, [];
      hasAbortController := false;
    }

    /** The effect that loads the history; an unreadable store is cleared. */
    method LoadHistory(parse: string -> Parsed)
      requires Valid()
      modifies this
      ensures Valid()
      ensures old(stored).None? || old(stored) == Some("") ==> history == old(history) && stored == old(stored)
      ensures old(stored).Some? && old(stored).value != [] ==>
        match parse(old(stored).value)
        case Entries(entries) => history == LoadedHistory(entries) && stored == old(stored)
        case _ => history == [] && stored.None?
      ensures requests == old(requests) && error == old(error) && result == old(result) && form == old(form)
    {
      if stored.Some? && stored.value != [] {
        match parse(stored.value)
        case Entries(entries) =>
          history := ValidItems(entries[..Min(HistoryLimit, |entries|)]);
        case _ =>
          stored := None;
          history := [];
      }
    }

    /** `saveToHistory` once the item is built: push it and write the list, or keep it alone when the write fails. */
    method SaveToHistory(item: HistoryItem, writeFails: bool, stringify: seq<HistoryItem> -> string)
      requires Valid()
      modifies this
      ensures Valid()
      ensures history == SavedHistory(old(history), item, writeFails)
      ensures stored == Some(stringify(history))
      ensures requests == old(requests) && error == old(error) && result == old(result) && form == old(form)
      ensures isGenerating == old(isGenerating) && hasGenerated == old(hasGenerated)
    {
      var updatedHistory := ([item] + history)[..Min(HistoryLimit, |history| + 1)];
      history := updatedHistory;
      if writeFails {
        history := [item];
      }
      stored := Some(stringify(history));
    }

    /**
     * `handleGenerate`. `post` answers the request; `id`, `timestamp` and
     * `preview` make the history item; `writeFails` says whether storing it fails.
     */
    method Generate(post: DescribeRequest -> Response, id: string, timestamp: string, preview: string,
                    writeFails: bool, stringify: seq<HistoryItem> -> string)
      requires Valid()
      modifies this
      ensures Valid()
      ensures form == old(form)
      ensures form.uploadedImageUrl.None? || form.uploadedImageUrl == Some("") ==>
        && requests == old(requests) && history == old(history) && result == old(result)
        && error == Some(ErrorState(Validation, NoImage, "Upload an image to continue with description generation"))
      ensures form.uploadedImageUrl.Some? && form.uploadedImageUrl.value != [] ==>
        var body := DescribeRequest(form.uploadedImageUrl.value,
                                    FinalPrompt(PromptForOption(form.option, Some(form.customQuestion)), form.language));
        var outcome := OutcomeOf(post(body));
        && requests == old(requests) + [body]
        && hasGenerated && !isGenerating
        && (outcome.Ok? ==>
             && result == outcome.value && error.None?
             && history == (if form.selectedImage.Some? && form.selectedImage.value != []
                            then SavedHistory(old(history), HistoryItem(id, timestamp, preview, form.option, outcome.value), writeFails)
                            else old(history)))
        && (outcome.Err? ==> result == ErrorResult && error == Some(Classify(outcome.error)) && history == old(history))
    {
      error := None;
      if form.uploadedImageUrl.None? || form.uploadedImageUrl.value == [] {
        error := Some(ErrorState(Validation, NoImage, "Upload an image to continue with description generation"));
        return;
      }
      Run(form.uploadedImageUrl.value, post, id, timestamp, preview, writeFails, stringify);
    }

    /** `handleGenerate` once the image is known to be uploaded: build the prompt, send it and finish. */
    method Run(url: string, post: DescribeRequest -> Response, id: string, timestamp: string, preview: string,
               writeFails: bool, stringify: seq<HistoryItem> -> string)
      requires Valid() && error.None?
      modifies this
      ensures Valid() && form == old(form)
      ensures var body := DescribeRequest(url, FinalPrompt(PromptForOption(form.option, Some(form.customQuestion)), form.language));
        var outcome := OutcomeOf(post(body));
        && requests == old(requests) + [body]
        && hasGenerated && !isGenerating
        && (outcome.Ok? ==>
             && result == outcome.value && error.None?
             && history == (if form.selectedImage.Some? && form.selectedImage.value != []
                            then SavedHistory(old(history), HistoryItem(id, timestamp, preview, form.option, outcome.value), writeFails)
                            else old(history)))
        && (outcome.Err? ==> result == ErrorResult && error == Some(Classify(outcome.error)) && history == old(history))
    {
      isGenerating := true;
      result := "";
      hasGenerated := true;
      copied := false;
      var description := DescriptionFor(form.option, form.language, form.customQuestion);
      var body := DescribeRequest(url, description);
      requests := requests + [body];
      var outcome := OutcomeOf(post(body));
      Finish(outcome, id, timestamp, preview, writeFails, stringify);
    }

    /** The end of `handleGenerate`: show the description and save it, or show the classified error. */
    method Finish(outcome: Result<string>, id: string, timestamp: string, preview: string,
                  writeFails: bool, stringify: seq<HistoryItem> -> string)
      requires Valid()
      modifies this
      ensures Valid()
      ensures requests == old(requests) && hasGenerated == old(hasGenerated) && !isGenerating && form == old(form)
      ensures outcome.Ok? ==>
        && result == outcome.value && error == old(error)
        && history == (if form.selectedImage.Some? && form.selectedImage.value != []
                       then SavedHistory(old(history), HistoryItem(id, timestamp, preview, form.option, outcome.value), writeFails)
                       else old(history))
      ensures outcome.Err? ==> result == ErrorResult && error == Some(Classify(outcome.error)) && history == old(history)
    {
      if outcome.Ok? {
        result := outcome.value;
        if form.selectedImage.Some? && form.selectedImage.value != [] {
          SaveToHistory(HistoryItem(id, timestamp, preview, form.option, outcome.value), writeFails, stringify);
        }
      } else {
        error := Some(Classify(outcome.error));
        result := ErrorResult;
      }
      isGenerating := false;
    }

    /** `handleStop`: with no controller ever set, it changes nothing. */
    method HandleStop()
      requires Valid()
      modifies this
      ensures isGenerating == old(isGenerating) && result == old(result) && requests == old(requests)
    {
      if hasAbortController {
        // Dead: `Valid()` says no controller is ever set.
        assert false;
      }
    }
  }
}
