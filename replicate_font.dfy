/**
 * The font recognizer backed by a vision model: the model's raw output is
 * turned into text, the JSON object in it is cut out and parsed, and a
 * valid answer has its missing fields filled with defaults. Anything that
 * does not fit yields a fixed fallback with ten default fonts. Running the
 * model, its timeout and `JSON.parse` are inputs.
 */
module ReplicateFont {

  import opened Wrappers
  import opened Strings
  import opened Js
  import opened UriEncoding

  const Model := "google/gemini-3-pro"
  const Timeout := 60000
  const UnableToIdentify := "Unable to identify font"
  const SpecimenPrefix := "https://fonts.google.com/specimen/"

  /** What the model run resolved to, by its JavaScript type. */
  datatype Output =
    | OutString(text: string)
    | OutArray(parts: seq<string>)   // joined with no separator
    | OutObject(json: string)        // a non-null object, with its `JSON.stringify` text
    | OutOther                       // any other value, falsy objects included

  /** An element of a parsed `similarFonts` array: `null`/`undefined`, or a value whose fields are read. */
  datatype FontEntry =
    | Nullish
    | Fields(name: Option<string>, similarity: Value, category: Value, googleFontsUrl: Value)

  /** What `JSON.parse` gave for the candidate; `similarFonts` is `None` unless it is an array. */
  datatype Parsed = Parsed(detectedFont: Value, confidence: Value, similarFonts: Option<seq<FontEntry>>)

  datatype SimilarFont = SimilarFont(name: Option<string>, similarity: Value, category: Value, googleFontsUrl: Value)

  /** `FontRecognitionResult`. */
  datatype FontResult = FontResult(detectedFont: Value, confidence: Value, similarFonts: seq<SimilarFont>)

  /** How the model run ended: it threw (an `Error` with its message, or something else), timed out, or resolved. */
  datatype RunOutcome = RunThrew(message: Option<string>) | TimedOut | Resolved(output: Output)

  /** The text searched for JSON; `None` when the output has no usable type. */
  function ResponseText(out: Output): (r: Option<string>)
    ensures out.OutString? ==> r == Some(out.text)
    ensures out.OutArray? ==> r == Some(Concat(out.parts))
    ensures out.OutObject? ==> r == Some(out.json)
    ensures r.None? <==> out.OutOther?
  {
    match out
    case OutString(t) => Some(t)
    case OutArray(parts) => Some(Concat(parts))
    case OutObject(j) => Some(j)
    case OutOther => None
  }

  /**
   * The greedy match of `/\{[\s\S]*\}/`: from the first `{` to the last
   * `}`, provided that `}` comes after it.
   */
  function JsonCandidate(text: string): (r: Option<string>)
    ensures r.Some? ==>
      exists i, j :: 0 <= i < j < |text| && r.value == text[i..j + 1] && text[i] == '{' && '{' !in text[..i]
                     && text[j] == '}' && '}' !in text[j + 1..]
  {
    match IndexOf(text, '{')
    case None => None
    case Some(i) =>
      match LastIndexOf(text, '}')
      case None => None
      case Some(j) => if i < j then Some(text[i..j + 1]) else None
  }

  /** There is a candidate exactly when some `{` comes before some `}`. */
  lemma JsonCandidateExists(text: string)
    ensures JsonCandidate(text).Some? <==>
      exists i, j :: 0 <= i < j < |text| && text[i] == '{' && text[j] == '}'
  {
    forall i, j | 0 <= i < j < |text| && text[i] == '{' && text[j] == '}'
      ensures JsonCandidate(text).Some?
    {
      assert text[i] in text;
      assert text[j] in text;
    }
    if JsonCandidate(text).Some? {
      var i := IndexOf(text, '{').value;
      var j := LastIndexOf(text, '}').value;
      assert 0 <= i < j < |text| && text[i] == '{' && text[j] == '}';
    }
  }

  /** `getDefaultFonts`: ten sans-serif fonts with their specimen pages. */
  function DefaultFonts(): seq<SimilarFont>
  {
    [ Default("Roboto", 0.8, "Roboto"),
      Default("Open Sans", 0.75, "Open+Sans"),
      Default("Lato", 0.7, "Lato"),
      Default("Montserrat", 0.7, "Montserrat"),
      Default("Poppins", 0.65, "Poppins"),
      Default("Inter", 0.65, "Inter"),
      Default("Raleway", 0.6, "Raleway"),
      Default("Nunito", 0.6, "Nunito"),
      Default("Ubuntu", 0.55, "Ubuntu"),
      Default("Work Sans", 0.55, "Work+Sans") ]
  }

  function Default(name: string, similarity: real, page: string): SimilarFont
  {
    SimilarFont(Some(name), Num(similarity), Str("sans-serif"), Str(SpecimenPrefix + page))
  }

  /** The result when the output cannot be used. */
  function Fallback(): FontResult
  {
    FontResult(Str(UnableToIdentify), Num(0.5), DefaultFonts())
  }

  /** A name with each space written as `+`, as the default specimen pages are. */
  function PlusForSpace(s: string): (r: string)
    ensures |r| == |s|
    ensures forall k :: 0 <= k < |s| ==> r[k] == if s[k] == ' ' then '+' else s[k]
  {
    seq(|s|, k requires 0 <= k < |s| => if s[k] == ' ' then '+' else s[k])
  }

  /**
   * The ten defaults, in order, are all sans-serif, their similarities never
   * rise, and each page is the specimen prefix and the name with `+` for spaces.
   */
  lemma DefaultFontsShape()
    ensures |DefaultFonts()| == 10
    ensures forall k :: 0 <= k < 10 ==> DefaultFonts()[k].name.Some? && DefaultFonts()[k].category == Str("sans-serif")
    ensures forall k :: 0 <= k < 10 ==>
      DefaultFonts()[k].googleFontsUrl == Str(SpecimenPrefix + PlusForSpace(DefaultFonts()[k].name.value))
    ensures forall k :: 0 <= k < 9 ==> DefaultFonts()[k + 1].similarity.x <= DefaultFonts()[k].similarity.x
    ensures DefaultFonts()[0].name == Some("Roboto") && DefaultFonts()[9].name == Some("Work Sans")
  {
    var d := DefaultFonts();
    forall k | 0 <= k < 10
      ensures d[k].googleFontsUrl == Str(SpecimenPrefix + PlusForSpace(d[k].name.value))
    {
      var name := d[k].name.value;
      if k == 1 {
        assert PlusForSpace(name) == "Open+Sans";
      } else if k == 9 {
        assert PlusForSpace(name) == "Work+Sans";
      } else {
        assert ' ' !in name;
        assert PlusForSpace(name) == name;
      }
    }
  }

  /** One entry of the answer with its falsy fields defaulted. */
  function Normalize(f: FontEntry): (r: SimilarFont)
    requires f.Fields?
    ensures r.name == f.name
    ensures r.similarity == (if Truthy(f.similarity) then f.similarity else Num(0.8))
    ensures r.category == (if Truthy(f.category) then f.category else Str("sans-serif"))
    ensures !Truthy(f.googleFontsUrl) ==> r.googleFontsUrl == Str(SpecimenPrefix + EncodeURIComponent(Template(f.name)))
    ensures Truthy(f.googleFontsUrl) ==> r.googleFontsUrl == f.googleFontsUrl
  {
    SimilarFont(f.name, Or(f.similarity, Num(0.8)), Or(f.category, Str("sans-serif")),
                Or(f.googleFontsUrl, Str(SpecimenPrefix + EncodeURIComponent(Template(f.name)))))
  }

  /** The parsed answer passes validation, and no entry makes the field reads throw. */
  predicate Usable(p: Parsed)
  {
    Truthy(p.detectedFont) && p.similarFonts.Some?
    && forall k :: 0 <= k < |p.similarFonts.value| ==> p.similarFonts.value[k].Fields?
  }

  /** The parsed answer that `parseResponse` would use, if any. */
  function ParsedAnswer(out: Output, parse: string -> Option<Parsed>): Option<Parsed>
  {
    match ResponseText(out)
    case None => None
    case Some(text) =>
      match JsonCandidate(text)
      case None => None
      case Some(candidate) => parse(candidate)
  }

  /** `parseResponse`: every failure inside it is caught and answered with the fallback. */
  function ParseResponse(out: Output, parse: string -> Option<Parsed>): FontResult
  {
    match ParsedAnswer(out, parse)
    case None => Fallback()
    case Some(p) =>
      if !Usable(p) then Fallback()
      else
        var fonts := p.similarFonts.value;
        FontResult(p.detectedFont, Or(p.confidence, Num(0.8)),
                   seq(|fonts|, k requires 0 <= k < |fonts| => Normalize(fonts[k])))
  }

  /**
   * A usable answer is taken over: the detected font as given, the
   * confidence defaulted to 0.8, and the similar fonts in the same order,
   * one for one, each with its own defaults.
   */
  lemma UsableAnswerKept(out: Output, parse: string -> Option<Parsed>)
    requires ParsedAnswer(out, parse).Some? && Usable(ParsedAnswer(out, parse).value)
    ensures var p := ParsedAnswer(out, parse).value;
      var r := ParseResponse(out, parse);
      && r.detectedFont == p.detectedFont
      && r.confidence == (if Truthy(p.confidence) then p.confidence else Num(0.8))
      && |r.similarFonts| == |p.similarFonts.value|
      && forall k :: 0 <= k < |r.similarFonts| ==> r.similarFonts[k] == Normalize(p.similarFonts.value[k])
  {
  }

  /**
   * The fallback is the answer when the output has no usable type, holds no
   * `{`…`}` span, does not parse, lacks a truthy `detectedFont` or an array
   * `similarFonts`, or has a `null` entry among the fonts.
   */
  lemma FallbackCases(out: Output, parse: string -> Option<Parsed>)
    ensures out.OutOther? ==> ParseResponse(out, parse) == Fallback()
    ensures ResponseText(out).Some? && JsonCandidate(ResponseText(out).value).None? ==> ParseResponse(out, parse) == Fallback()
    ensures ParsedAnswer(out, parse).None? ==> ParseResponse(out, parse) == Fallback()
    ensures ParsedAnswer(out, parse).Some? ==>
      var p := ParsedAnswer(out, parse).value;
      (!Truthy(p.detectedFont) || p.similarFonts.None? || Nullish in p.similarFonts.value) ==>
        ParseResponse(out, parse) == Fallback()
  {
    if ParsedAnswer(out, parse).Some? {
      var p := ParsedAnswer(out, parse).value;
      if p.similarFonts.Some? && Nullish in p.similarFonts.value {
        var k :| 0 <= k < |p.similarFonts.value| && p.similarFonts.value[k] == Nullish;
        assert !Usable(p);
      }
    }
  }

  /** The fallback names no font, keeps confidence 0.5 and lists the ten defaults. */
  lemma FallbackShape()
    ensures Fallback().detectedFont == Str("Unable to identify font") && Fallback().confidence == Num(0.5)
    ensures |Fallback().similarFonts| == 10 && Fallback().similarFonts == DefaultFonts()
  {
  }

  const FailurePrefix := "Font recognition failed: "
  const TimeoutMessage := "Font recognition timeout"
  const UnknownError := "Unknown error"

  /**
   * `recognizeFont`: a run that throws or times out becomes an error whose
   * message is "Font recognition failed: " followed by the thrown message;
   * a run that resolves always yields a result, since parsing never fails.
   */
  function RecognizeFont(run: RunOutcome, parse: string -> Option<Parsed>): (r: Result<FontResult>)
    ensures r.Ok? <==> run.Resolved?
    ensures r.Ok? ==> r.value == ParseResponse(run.output, parse)
    ensures r.Err? ==> StartsWith(r.error, FailurePrefix)
    ensures run.TimedOut? ==> r == Err(FailurePrefix + TimeoutMessage)
    ensures run.RunThrew? && run.message.Some? ==> r == Err(FailurePrefix + run.message.value)
    ensures run.RunThrew? && run.message.None? ==> r == Err(FailurePrefix + UnknownError)
  {
    match run
    case Resolved(out) => Ok(ParseResponse(out, parse))
    case TimedOut =>
      StartsWithConcat(FailurePrefix, TimeoutMessage);
      Err(FailurePrefix + TimeoutMessage)
    case RunThrew(m) =>
      var text := if m.Some? then m.value else UnknownError;
      StartsWithConcat(FailurePrefix, text);
      Err(FailurePrefix + text)
  }
}
