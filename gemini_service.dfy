/**
 * The Gemini description service: the prompt of each describe option, the
 * language instruction appended to it, and the inline image taken from a
 * data URL. The streamed answer is not modelled.
 */
module GeminiService {

  import opened Wrappers
  import opened Strings
  import opened Js

  /** The describe options of the image describer. */
  datatype DescribeOption =
    | Detail | Brief | Person | Objects | ArtStyle | ExtractText
    | GeneralPrompt | FluxPrompt | Midjourney | StableDiffusion | Custom

  const DefaultPrompt := "Describe this image."
  const DefaultMimeType := "image/jpeg"
  const Model := "gemini-2.5-flash-image"
  const MissingKey := "Gemini API Key is missing. Please set NEXT_PUBLIC_GEMINI_API_KEY or GEMINI_API_KEY in your environment variables."

  const DetailPrompt := "Describe this image in extreme detail. Include lighting, colors, composition, subjects, and atmosphere."
  const BriefPrompt := "Provide a brief, one-sentence caption for this image."
  const PersonPrompt := "Describe the people in this image. Focus on appearance, clothing, expressions, and actions. Do not hallucinate identities."
  const ObjectsPrompt := "List all the distinct objects visible in this image."
  const ArtStylePrompt := "Analyze the art style, medium, and technique used in this image."
  const ExtractTextPrompt := "Extract and transcribe all legible text found in this image."
  const GeneralPromptPrompt := "Write a high-quality text-to-image prompt that could be used to recreate this image."
  const FluxPromptPrompt := "Write a prompt optimized for the FLUX AI image generator based on this image."
  const MidjourneyPrompt := "Write a detailed Midjourney prompt (v6) for this image. Include aspect ratio parameters if applicable."
  const StableDiffusionPrompt := "Write a Stable Diffusion prompt for this image, including positive and negative prompts."

  /** The fixed prompt of each option other than the custom question. */
  function FixedPrompt(option: DescribeOption): (r: string)
    requires option != Custom
    ensures |r| > 0
  {
    match option
    case Detail => DetailPrompt
    case Brief => BriefPrompt
    case Person => PersonPrompt
    case Objects => ObjectsPrompt
    case ArtStyle => ArtStylePrompt
    case ExtractText => ExtractTextPrompt
    case GeneralPrompt => GeneralPromptPrompt
    case FluxPrompt => FluxPromptPrompt
    case Midjourney => MidjourneyPrompt
    case StableDiffusion => StableDiffusionPrompt
  }

  /** `getPromptForOption`: the custom question falls back to `Describe this image.` when empty. */
  function PromptForOption(option: DescribeOption, customQuestion: Option<string>): string
  {
    if option == Custom then OrElse(customQuestion, DefaultPrompt) else FixedPrompt(option)
  }

  /** Every option has a prompt, and only the custom one depends on the question. */
  lemma PromptForOptionTotal(option: DescribeOption, customQuestion: Option<string>)
    ensures PromptForOption(option, customQuestion) != []
    ensures option != Custom ==> PromptForOption(option, customQuestion) == PromptForOption(option, None)
    ensures option == Custom && (customQuestion.None? || customQuestion == Some("")) ==>
      PromptForOption(option, customQuestion) == "Describe this image."
    ensures option == Custom && customQuestion.Some? && customQuestion.value != [] ==>
      PromptForOption(option, customQuestion) == customQuestion.value
  {
  }

  const LanguagePrefix := "\n\nIMPORTANT: Please provide the response in "

  /** The prompt sent: the option's prompt, then the language instruction. */
  function FinalPrompt(basePrompt: string, language: string): (r: string)
  {
    basePrompt + LanguagePrefix + language + "."
  }

  /** The prompt can be split back into the option's prompt and the language. */
  lemma FinalPromptParts(basePrompt: string, language: string)
    ensures var r := FinalPrompt(basePrompt, language);
      && StartsWith(r, basePrompt)
      && r[|basePrompt|..|basePrompt| + |LanguagePrefix|] == LanguagePrefix
      && r[|basePrompt| + |LanguagePrefix|..|r| - 1] == language
      && r[|r| - 1] == '.'
  {
    var r := FinalPrompt(basePrompt, language);
    assert r == basePrompt + (LanguagePrefix + language + ".");
  }

  /** The longest prefix of word characters (`\w*`). */
  function WordPrefix(s: string): (r: string)
    ensures StartsWith(s, r)
    ensures forall i :: 0 <= i < |r| ==> IsWordChar(r[i])
    ensures |r| == |s| || !IsWordChar(s[|r|])
  {
    if s != [] && IsWordChar(s[0]) then [s[0]] + WordPrefix(s[1..]) else []
  }

  const ImagePrefix := "data:image/"
  const Base64Marker := ";base64,"

  /** `/^data:(image\/\w+);base64,/`: the captured MIME type and what follows the match. */
  function MatchDataUrl(s: string): Option<(string, string)>
  {
    if !StartsWith(s, ImagePrefix) then None
    else
      var w := WordPrefix(s[|ImagePrefix|..]);
      var tail := s[|ImagePrefix| + |w|..];
      if w == [] || !StartsWith(tail, Base64Marker) then None
      else Some(("image/" + w, tail[|Base64Marker|..]))
  }

  /** The inline data: the input with the data-URL prefix stripped, if it has one. */
  function Base64Data(s: string): string
  {
    match MatchDataUrl(s)
    case Some((_, rest)) => rest
    case None => s
  }

  /** The inline MIME type: the captured `image/<word>`, else `image/jpeg`. */
  function MimeType(s: string): string
  {
    match MatchDataUrl(s)
    case Some((mime, _)) => mime
    case None => DefaultMimeType
  }

  /**
   * A data URL `data:image/<word>;base64,<data>` is split into its MIME type
   * and its data, whatever the data holds.
   */
  lemma DataUrlRoundTrip(w: string, data: string)
    requires w != [] && forall i :: 0 <= i < |w| ==> IsWordChar(w[i])
    ensures Base64Data(ImagePrefix + w + Base64Marker + data) == data
    ensures MimeType(ImagePrefix + w + Base64Marker + data) == "image/" + w
  {
    var tail := Base64Marker + data;
    var s := ImagePrefix + (w + tail);
    assert ImagePrefix + w + Base64Marker + data == s;
    PrefixThenRest(ImagePrefix, w + tail);
    MarkerIsNotWord();
    WordPrefixOf(w, tail);
    assert (w + tail)[|w|..] == tail;
    assert s[|ImagePrefix| + |w|..] == tail;
    PrefixThenRest(Base64Marker, data);
  }

  lemma PrefixThenRest(p: string, t: string)
    ensures StartsWith(p + t, p) && (p + t)[|p|..] == t
  {
    assert (p + t)[..|p|] == p;
  }

  lemma MarkerIsNotWord()
    ensures Base64Marker != [] && !IsWordChar(Base64Marker[0])
  {
  }

  /** The word prefix of a word followed by a non-word character is that word. */
  lemma {:induction false} WordPrefixOf(w: string, rest: string)
    requires forall i :: 0 <= i < |w| ==> IsWordChar(w[i])
    requires rest != [] && !IsWordChar(rest[0])
    ensures WordPrefix(w + rest) == w
    decreases |w|
  {
    if w == [] {
      assert w + rest == rest;
    } else {
      assert (w + rest)[1..] == w[1..] + rest;
      WordPrefixOf(w[1..], rest);
    }
  }

  /** Input that does not start with `data:image/` is sent unchanged, as JPEG. */
  lemma OtherInputUnchanged(s: string)
    requires !StartsWith(s, ImagePrefix)
    ensures Base64Data(s) == s && MimeType(s) == "image/jpeg"
  {
  }

  /** The request made to the model. */
  datatype ModelRequest = ModelRequest(model: string, mimeType: string, data: string, text: string)

  /**
   * `streamImageDescription` up to the model call: the key (the public one,
   * else the server one) must be set, or nothing is asked.
   */
  function DescriptionRequest(publicKey: Option<string>, serverKey: Option<string>, imageBase64: string,
                              option: DescribeOption, language: string, customQuestion: Option<string>): Result<ModelRequest>
  {
    var apiKey := OrElse(publicKey, OrElse(serverKey, ""));
    if apiKey == [] then Err(MissingKey)
    else Ok(ModelRequest(Model, MimeType(imageBase64), Base64Data(imageBase64),
                         FinalPrompt(PromptForOption(option, customQuestion), language)))
  }

  /** Without a key the call throws before the model is asked; with one, the prompt and the image are as above. */
  lemma DescriptionRequestCases(publicKey: Option<string>, serverKey: Option<string>, imageBase64: string,
                                option: DescribeOption, language: string, customQuestion: Option<string>)
    ensures var r := DescriptionRequest(publicKey, serverKey, imageBase64, option, language, customQuestion);
      && (r.Err? <==> (publicKey.None? || publicKey == Some("")) && (serverKey.None? || serverKey == Some("")))
      && (r.Err? ==> r.error == MissingKey)
      && (r.Ok? ==> r.value.text == PromptForOption(option, customQuestion) + LanguagePrefix + language + "."
                    && r.value.data == Base64Data(imageBase64) && r.value.mimeType == MimeType(imageBase64))
  {
  }
}
