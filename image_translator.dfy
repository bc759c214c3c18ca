/**
 * The image translator component: the language pair and its swap, the
 * upload of the picture, the translation request with the URL fallback of
 * its answer, and the name the translated picture is downloaded under.
 */
module ImageTranslator {

  import opened Wrappers
  import opened Strings
  import opened Js
  import UploadClient

  const UploadFirst := "Please upload an image first."
  const Uploaded := "Image uploaded."
  const TranslationComplete := "Translation complete."
  const TranslationFailed := "Failed to translate image."
  const DownloadFailed := "下载失败，请稍后重试。"

  /** An entry of the language list: the value kept in state and the label shown and sent. */
  datatype Language = Language(value: string, labelText: string)

  /** `getLanguageLabel`: the label of the first entry with that value, the value itself when there is none or the label is empty. */
  function LanguageLabel(languages: seq<Language>, value: string): (r: string)
  {
    if languages == [] then value
    else if languages[0].value == value then (if languages[0].labelText != [] then languages[0].labelText else value)
    else LanguageLabel(languages[1..], value)
  }

  /** The language pair after `handleSwap`. */
  function Swap(pair: (string, string)): (string, string)
  {
    (pair.1, pair.0)
  }

  /** The options `uploadImageFile` is called with: `{ type: "base" }` sets the category and keeps the default types. */
  const TranslatorUpload := UploadClient.Options(Some("base"), None)

  /** The body posted to `/api/gen-outfit`. */
  datatype TranslateRequest = TranslateRequest(baseImageUrl: string, description: string, targetLang: string)

  /** The request for an uploaded URL and the two labels. */
  function RequestFor(url: string, sourceLabel: string, targetLabel: string): TranslateRequest
  {
    TranslateRequest(url, "translate image from " + sourceLabel + " to " + targetLabel, targetLabel)
  }

  /**
   * What the translation request gave: a throw, a non-OK status, or the
   * code with `data.outfits[0].img_url` and `data.translated_image_url`
   * (each `None` when missing).
   */
  datatype TranslateAnswer =
    | TranslateThrew
    | NotOk
    | TranslateAnswer(code: Value, outfitUrl: Option<string>, translatedImageUrl: Option<string>)

  /** `outfitUrl || translatedImageUrl || null`. */
  function ResultUrl(outfitUrl: Option<string>, translatedImageUrl: Option<string>): (r: Option<string>)
  {
    if outfitUrl.Some? && outfitUrl.value != [] then outfitUrl
    else if translatedImageUrl.Some? && translatedImageUrl.value != [] then translatedImageUrl
    else None
  }

  /** The answer succeeds when it came back OK with code 0. */
  predicate Succeeded(answer: TranslateAnswer)
  {
    answer.TranslateAnswer? && answer.code == Num(0.0)
  }

  /** The extension a blob type gives: the text after the first `/` up to the next, else `png`. */
  function Extension(blobType: string): string
  {
    if blobType != [] && '/' in blobType then Split(blobType, '/')[1] else "png"
  }

  /** The download name: `translated-{fileName}`, or `translated-image.{extension}` without a name. */
  function DownloadName(fileName: Option<string>, blobType: string): string
  {
    if fileName.Some? && fileName.value != [] then "translated-" + fileName.value
    else "translated-image." + Extension(blobType)
  }

  /** The component; toasts and requests are kept as logs. */
  class Translator {
    const languages: seq<Language>
    var sourceLang: string
    var targetLang: string
    var fileName: Option<string>
    var baseImageUrl: Option<string>
    var imagePreview: Option<string>
    var translatedUrl: Option<string>
    var isProcessing: bool
    var toasts: seq<string>
    var requests: seq<TranslateRequest>

    constructor (languages: seq<Language>)
      ensures this.languages == languages
      ensures sourceLang == "en" && targetLang == "zh"
      ensures fileName == None && baseImageUrl == None && imagePreview == None && translatedUrl == None
      ensures !isProcessing && toasts == [] && requests == []
    {
      this.languages := languages;
      sourceLang, targetLang := "en", "zh";
      fileName, baseImageUrl, imagePreview, translatedUrl := None, None, None, None;
      isProcessing := false;
      toasts, requests := [], [];
    }

    /** `handleSwap`: the two languages change places, nothing else changes. */
    method HandleSwap()
      modifies this
      ensures (sourceLang, targetLang) == Swap((old(sourceLang), old(targetLang)))
      ensures fileName == old(fileName) && baseImageUrl == old(baseImageUrl) && imagePreview == old(imagePreview)
      ensures translatedUrl == old(translatedUrl) && isProcessing == old(isProcessing)
      ensures toasts == old(toasts) && requests == old(requests)
    {
      sourceLang, targetLang := targetLang, sourceLang;
    }

    /**
     * `handleFile`: a type that fails the file check shows its message; an upload
     * that fails shows its message and drops the name and URL held; one that
     * succeeds holds the name, URL and preview and clears the last result.
     * `read` is what reading the file gave and `post` answers the upload.
     */
    method HandleFile(name: string, mimeType: string, read: Result<string>, post: UploadClient.UploadBody -> UploadClient.Response)
      modifies this
      ensures var check := UploadClient.ValidateImageFile(mimeType, UploadClient.Options(None, None));
        var upload := UploadClient.UploadImageFile(mimeType, TranslatorUpload, read, post).0;
        && (check.Some? ==>
              toasts == old(toasts) + [check.value] && fileName == old(fileName) && baseImageUrl == old(baseImageUrl)
              && imagePreview == old(imagePreview) && translatedUrl == old(translatedUrl))
        && (check.None? && upload.Ok? ==>
              toasts == old(toasts) + [Uploaded] && fileName == Some(name) && baseImageUrl == Some(upload.value.url)
              && imagePreview == Some(upload.value.base64) && translatedUrl == None)
        && (check.None? && upload.Err? ==>
              toasts == old(toasts) + [upload.error] && fileName == None && baseImageUrl == None
              && imagePreview == old(imagePreview) && translatedUrl == old(translatedUrl))
      ensures sourceLang == old(sourceLang) && targetLang == old(targetLang) && isProcessing == old(isProcessing)
      ensures requests == old(requests)
    {
      var error := UploadClient.ValidateImageFile(mimeType, UploadClient.Options(None, None));
      if error.Some? {
        toasts := toasts + [error.value];
        return;
      }
      var upload := UploadClient.UploadImageFile(mimeType, TranslatorUpload, read, post).0;
      if upload.Ok? {
        fileName, baseImageUrl, imagePreview, translatedUrl := Some(name), Some(upload.value.url), Some(upload.value.base64), None;
        toasts := toasts + [Uploaded];
      } else {
        toasts := toasts + [upload.error];
        fileName, baseImageUrl := None, None;
      }
    }

    /**
     * `onStart`: without an uploaded URL only its toast; otherwise the
     * request names both labels, a success holds the fallback URL (or
     * nothing), and the processing flag is clear afterwards either way.
     */
    method OnStart(answer: TranslateAnswer)
      modifies this
      ensures old(baseImageUrl).None? || old(baseImageUrl).value == [] ==>
        && toasts == old(toasts) + [UploadFirst] && requests == old(requests)
        && translatedUrl == old(translatedUrl) && isProcessing == old(isProcessing)
      ensures old(baseImageUrl).Some? && old(baseImageUrl).value != [] ==>
        && requests == old(requests) + [RequestFor(old(baseImageUrl).value,
             LanguageLabel(languages, old(sourceLang)), LanguageLabel(languages, old(targetLang)))]
        && !isProcessing
        && (Succeeded(answer) ==>
              translatedUrl == ResultUrl(answer.outfitUrl, answer.translatedImageUrl)
              && toasts == old(toasts) + [TranslationComplete])
        && (!Succeeded(answer) ==> translatedUrl == old(translatedUrl) && toasts == old(toasts) + [TranslationFailed])
      ensures sourceLang == old(sourceLang) && targetLang == old(targetLang)
      ensures fileName == old(fileName) && baseImageUrl == old(baseImageUrl) && imagePreview == old(imagePreview)
    {
      if baseImageUrl.None? || baseImageUrl.value == [] {
        toasts := toasts + [UploadFirst];
        return;
      }
      var sourceLabel := LanguageLabel(languages, sourceLang);
      var targetLabel := LanguageLabel(languages, targetLang);
      isProcessing := true;
      requests := requests + [RequestFor(baseImageUrl.value, sourceLabel, targetLabel)];
      if answer.TranslateAnswer? && answer.code == Num(0.0) {
        translatedUrl := ResultUrl(answer.outfitUrl, answer.translatedImageUrl);
        toasts := toasts + [TranslationComplete];
      } else {
        toasts := toasts + [TranslationFailed];
      }
      isProcessing := false;
    }

    /** `reset`: the picture, its URL, its name and the result are dropped. */
    method Reset()
      modifies this
      ensures fileName == None && baseImageUrl == None && imagePreview == None && translatedUrl == None
      ensures sourceLang == old(sourceLang) && targetLang == old(targetLang) && isProcessing == old(isProcessing)
      ensures toasts == old(toasts) && requests == old(requests)
    {
      fileName, baseImageUrl, imagePreview, translatedUrl := None, None, None, None;
    }

    /**
     * `handleDownload`: nothing without a result; `blobType` is the type of
     * the fetched blob, `None` when the fetch failed, which shows the
     * failure toast. Returns the name the link downloads under.
     */
    method HandleDownload(blobType: Option<string>) returns (download: Option<string>)
      modifies this
      ensures translatedUrl.None? || translatedUrl.value == [] ==> download == None && toasts == old(toasts)
      ensures translatedUrl.Some? && translatedUrl.value != [] && blobType.None? ==>
        download == None && toasts == old(toasts) + [DownloadFailed]
      ensures translatedUrl.Some? && translatedUrl.value != [] && blobType.Some? ==>
        download == Some(DownloadName(fileName, blobType.value)) && toasts == old(toasts)
      ensures sourceLang == old(sourceLang) && targetLang == old(targetLang) && isProcessing == old(isProcessing)
      ensures fileName == old(fileName) && baseImageUrl == old(baseImageUrl) && imagePreview == old(imagePreview)
      ensures translatedUrl == old(translatedUrl) && requests == old(requests)
    {
      if translatedUrl.None? || translatedUrl.value == [] {
        return None;
      }
      if blobType.None? {
        toasts := toasts + [DownloadFailed];
        return None;
      }
      download := Some(DownloadName(fileName, blobType.value));
    }
  }

  // ------------------------------------------------------------------ lemmas

  /** Swapping twice gives the pair back. */
  lemma SwapInvolution(pair: (string, string))
    ensures Swap(Swap(pair)) == pair
    ensures Swap(pair).0 == pair.1 && Swap(pair).1 == pair.0
  {
  }

  /**
   * The label is the first matching entry's label when that is not empty,
   * and the value itself when no entry has that value.
   */
  lemma {:induction false} LanguageLabelCases(languages: seq<Language>, value: string)
    ensures (forall i :: 0 <= i < |languages| ==> languages[i].value != value) ==> LanguageLabel(languages, value) == value
    ensures forall k ::
      (0 <= k < |languages| && languages[k].value == value && languages[k].labelText != []
       && (forall j :: 0 <= j < k ==> languages[j].value != value))
      ==> LanguageLabel(languages, value) == languages[k].labelText
  {
    if languages != [] {
      LanguageLabelCases(languages[1..], value);
      forall k | 0 <= k < |languages| && languages[k].value == value && languages[k].labelText != []
        && (forall j :: 0 <= j < k ==> languages[j].value != value)
        ensures LanguageLabel(languages, value) == languages[k].labelText
      {
        if k > 0 {
          assert languages[1..][k - 1] == languages[k];
          forall j | 0 <= j < k - 1
            ensures languages[1..][j].value != value
          {
            assert languages[1..][j] == languages[j + 1];
          }
        }
      }
      if forall i :: 0 <= i < |languages| ==> languages[i].value != value {
        forall i | 0 <= i < |languages| - 1
          ensures languages[1..][i].value != value
        {
          assert languages[1..][i] == languages[i + 1];
        }
      }
    }
  }

  /**
   * The translated URL prefers the first outfit's URL, falls back to
   * `translated_image_url`, and is empty only when both are missing or
   * empty.
   */
  lemma ResultUrlFallback(outfitUrl: Option<string>, translatedImageUrl: Option<string>)
    ensures outfitUrl.Some? && outfitUrl.value != [] ==> ResultUrl(outfitUrl, translatedImageUrl) == outfitUrl
    ensures (outfitUrl.None? || outfitUrl.value == []) && translatedImageUrl.Some? && translatedImageUrl.value != [] ==>
      ResultUrl(outfitUrl, translatedImageUrl) == translatedImageUrl
    ensures ResultUrl(outfitUrl, translatedImageUrl).None? <==>
      (outfitUrl.None? || outfitUrl.value == []) && (translatedImageUrl.None? || translatedImageUrl.value == [])
    ensures ResultUrl(outfitUrl, translatedImageUrl).Some? ==> ResultUrl(outfitUrl, translatedImageUrl).value != []
  {
  }

  /**
   * The upload repeats the same type check, so after the component's own
   * check passes the upload never refuses the type.
   */
  lemma UploadRechecksSameTypes(mimeType: string, read: Result<string>, post: UploadClient.UploadBody -> UploadClient.Response)
    requires UploadClient.ValidateImageFile(mimeType, UploadClient.Options(None, None)).None?
    ensures read.Err? ==> UploadClient.UploadImageFile(mimeType, TranslatorUpload, read, post).0 == Err(read.error)
    ensures read.Ok? ==>
      UploadClient.UploadImageFile(mimeType, TranslatorUpload, read, post).1
      == [UploadClient.ReadFile, UploadClient.Posted(UploadClient.UploadBody(read.value, "base"))]
  {
  }

  /** A blob type with a slash gives its subtype; one without gives `png`. */
  lemma ExtensionCases(blobType: string)
    ensures '/' !in blobType ==> Extension(blobType) == "png"
    ensures '/' in blobType ==> Extension(blobType) == Before(After(blobType, '/').value, '/')
    ensures '/' !in Extension(blobType)
  {
    if '/' in blobType {
      assert Split(blobType, '/') == [Before(blobType, '/')] + Split(After(blobType, '/').value, '/');
    }
  }

  /** `image/webp` gives `webp`. */
  lemma WebpExtension()
    ensures Extension("image/webp") == "webp"
  {
    var t := "image/webp";
    SplitAtFirst("image", "webp", '/');
    assert t == "image" + ['/'] + "webp";
    SplitNone("webp", '/');
  }

  /**
   * A held, non-empty file name downloads as `translated-{name}`; without one
   * the name is `translated-image.` followed by the blob's subtype or `png`.
   */
  lemma DownloadNameCases(fileName: Option<string>, blobType: string)
    ensures fileName.Some? && fileName.value != [] ==> DownloadName(fileName, blobType) == "translated-" + fileName.value
    ensures fileName.None? || fileName.value == [] ==> DownloadName(fileName, blobType) == "translated-image." + Extension(blobType)
    ensures StartsWith(DownloadName(fileName, blobType), "translated-")
  {
    var r := DownloadName(fileName, blobType);
    if fileName.Some? && fileName.value != [] {
      assert r[..11] == "translated-";
    } else {
      assert r[..11] == "translated-";
    }
  }
}
