# A verified model of an image-generation SaaS front end

This project models, in Dafny, the deterministic core of a Next.js SaaS
front end that sells image tools (outfit and layer generation, colour
inversion, flipping, image-to-text, OCR and font recognition, wallpapers)
behind a credit balance. It covers four parts of the system.

1. **The API routes and their ledger.** Every route runs the same straight
   line: check the body, resolve the session user, compare `left_credits`
   with a cost, call the provider, store the result under a generated key,
   insert records, take the credits and wrap the answer in
   `{code, message, data}`.
   - `Ledger.Backend` is a class holding the server state: balances and the
     credit transactions behind them, generation and wallpaper records,
     stored objects, outbound provider calls, users and order updates.
   - Each route is a `Post` (or `Get`) method that changes the backend. It
     is proved equal to a pure `PostSpec` function of the old state, and the
     lemmas about `PostSpec` state what the route promises: gates
     short-circuit before any effect, credits are charged once and only on
     success, one record per output under deterministic keys, the uuid
     policy.
   - The routes differ where the code differs. gen-outfit charges after
     its inserts, and invert-image charges before its insert. flip-image
     never touches credits. recognize-text answers with HTTP statuses.
   - The session user, the uuid generator, the clock, the provider output,
     and fetch, upload and insert faults are inputs (the `Oracles` and
     `ModelOutput` parameters). Every path is therefore deterministic.
   - The new-user credit grant (`UserService`) and the payment callback's
     validation chain (`CreemCallback`) work on the same ledger.
2. **Filename, header and URL helpers.** These cover `sanitizeFilename`,
   the `Content-Disposition` header (section 4.3 of RFC 6266, with a
   `filename*` parameter in the style of section 3.2 of RFC 8187), the
   extension and content-type maps, download names, the public storage
   URL, landing-path detection, locale resolution and the slug limit.
3. **Client components.** The flip-result cache is a JavaScript `Map` that
   keeps insertion order and evicts its 25 oldest entries above 50. The
   other parts are:
   - the describer history, capped at ten;
   - the creations list in local storage;
   - the reference-image slots, whose two lists are kept in lockstep;
   - the carousel index and the layer-count clamp;
   - the request bodies the studios send, and the classification of their
     errors.

   Components that update one state object through `setState` are classes
   with a `state` field of a datatype type, plus logs of the requests and
   uploads they send.
4. **The font recognizer.** This covers the distinct annotation colours,
   the Baidu access-token cache and its three-attempt retry loop, the
   decoding of the OCR and font-model answers with their fallbacks, the
   crop box, and the hit test that picks the topmost text box.

Shared modules model the JavaScript behaviour the code relies on:
- `Js`: JSON values and truthiness, `||` on strings, `parseInt` and NaN
  comparisons, and `slice`;
- `Strings`: ASCII case folding, splitting, and trimming of JavaScript white space;
- `Url`: a simplified URL parser;
- `UriEncoding`: `encodeURIComponent` over UTF-8;
- `Wrappers`: `Option` and `Result`.

The model follows the code as written, within the library simplifications
listed under "Left out" (strings as code points, ASCII lower-casing, codecs
and image processing as parameters). Four places where the code behaves
differently from what its names suggest are stated as lemmas:
- in the reference-image slots, error marks are kept by slot while images are shown by
  position;
- the `Content-Disposition` fallback of the download routes copies a `"`
  unescaped into the quoted filename;
- the search term is trimmed for the blank test only;
- the ZIP route writes layers named like array indices (`1`, `42`) before
  all others, because JSZip enumerates its file table with `for…in`.

## Model

| member | source | states |
|---|---|---|
| BaiduOcr.TokenStepCache | src/lib/font-recognizer/BaiduOCRClient.ts:32-74 | the token endpoint is asked exactly when the cached token is missing or expired; a fresh token is cached to expire 300 seconds early, and a failure leaves the cache as it was |
| BaiduOcr.FreshTokenIsReused | src/lib/font-recognizer/BaiduOCRClient.ts:34-66 | a token fetched at `now` is reused without a request at every later time before its cached expiry |
| BaiduOcr.ParseOcrResponse | src/lib/font-recognizer/BaiduOCRClient.ts:146-170 | one coloured result per word entry, with its text, location and average confidence, or none without a `words_result` array |
| BaiduOcr.Delays | src/lib/font-recognizer/BaiduOCRClient.ts:89-93 | the wait before attempt `t + 1` is `RETRY_DELAY * (t + 1)` |
| BaiduOcr.RecognizeAttempts | src/lib/font-recognizer/BaiduOCRClient.ts:87-138 | at most three attempts, and fewer only when one succeeded |
| BaiduOcr.FirstSuccessIsReturned | src/lib/font-recognizer/BaiduOCRClient.ts:88-125 | a first attempt that succeeds is the answer, after one attempt and no wait |
| BaiduOcr.ThirdErrorIsThrown | src/lib/font-recognizer/BaiduOCRClient.ts:127-134 | three failed attempts in a row end in an error, after all three |
| BaiduOcr.Credentials | src/lib/font-recognizer/BaiduOCRClient.ts:176-185 | a client is made exactly when both credentials are non-empty; otherwise "Baidu OCR API credentials not configured" |
| BaiduOcr.BaiduOcrClient.constructor | src/lib/font-recognizer/BaiduOCRClient.ts:17-26 | a new client has no cached token and keeps its two credentials |
| BaiduOcr.BaiduOcrClient.GetAccessToken | src/lib/font-recognizer/BaiduOCRClient.ts:32-74 | the token, the new cache and whether the endpoint was asked are those of `TokenStep` |
| BaiduOcr.BaiduOcrClient.RecognizeText | src/lib/font-recognizer/BaiduOCRClient.ts:81-139 | the retry loop's result and cache are those of `Recognize`, and its waits are `Delays` of the attempts made |
| CreemCallback.Callback | src/app/api/pay/callback/creem/route.ts:8-65 | the handler's redirect and new backend state are exactly those of the specification `CallbackSpec` |
| CreemCallback.FailedChecksRedirectToFail | src/app/api/pay/callback/creem/route.ts:18-59 | missing parameters (before the provider is asked), a different request id, an unpaid or missing order, a bad customer or a failed update each redirect to the failure page or `/` and update no order |
| CreemCallback.ValidCheckoutUpdatesOrder | src/app/api/pay/callback/creem/route.ts:48-55 | a checkout passing every check updates its order once, numbered by the request id with the customer's e-mail, and redirects to the success page or `/` |
| CreemCallback.LocaleAndFrame | src/app/api/pay/callback/creem/route.ts:14-64 | the locale is the parameter or `en`; only orders and provider calls ever change |
| DownloadPptx.Presentation.constructor | src/app/api/qwen-image-layered/download-pptx/route.ts:40-42 | a new presentation has no slides |
| DownloadPptx.Presentation.AddSlide | src/app/api/qwen-image-layered/download-pptx/route.ts:68 | `addSlide` appends one empty slide and changes nothing else |
| DownloadPptx.Presentation.AddImage | src/app/api/qwen-image-layered/download-pptx/route.ts:69 | `addImage` adds the picture to the last slide and changes nothing else |
| DownloadPptx.PictureTypes | src/app/api/qwen-image-layered/download-pptx/route.ts:58-64 | only a failed WebP conversion gives no picture; no picture declares WebP; a missing or empty header gives `image/png` with the bytes as received |
| DownloadPptx.DataUri | src/app/api/qwen-image-layered/download-pptx/route.ts:66 | the slide data is a `data:{type};base64,` URI of the picture's own type |
| DownloadPptx.SlidesOf | src/app/api/qwen-image-layered/download-pptx/route.ts:46-71 | one slide per listed entry, in order, each showing that entry's picture |
| DownloadPptx.AddLayer | src/app/api/qwen-image-layered/download-pptx/route.ts:47-70 | the loop body reports a failure exactly when the fetch or the conversion threw, adds a slide exactly when a picture was made, and keeps the deck equal to the slides of the entries so far |
| DownloadPptx.Convert | src/app/api/qwen-image-layered/download-pptx/route.ts:61-64 | the conversion step gives exactly the picture `PictureOf` describes |
| DownloadPptx.AddPictureSlide | src/app/api/qwen-image-layered/download-pptx/route.ts:66-69 | one slide is appended, showing the picture's data URI, and nothing else changes |
| DownloadPptx.AddLayers | src/app/api/qwen-image-layered/download-pptx/route.ts:40-71 | the loop fails exactly when some fetch or conversion throws; otherwise it returns the wide deck by the route's author with one slide per received entry, and their count |
| DownloadPptx.FillSlides | src/app/api/qwen-image-layered/download-pptx/route.ts:44-71 | on a deck without slides, the loop leaves layout and author alone, fails exactly when a fetch or a conversion throws, and otherwise leaves one slide per received entry and returns their count |
| DownloadPptx.FailureIsFinal | src/app/api/qwen-image-layered/download-pptx/route.ts:46-91 | a throw at any entry means the whole request fails |
| DownloadPptx.Post | src/app/api/qwen-image-layered/download-pptx/route.ts:28-92 | the route's reply is exactly that of the specification `PostSpec` |
| DownloadPptx.AttachmentOf | src/app/api/qwen-image-layered/download-pptx/route.ts:73-87 | a sent deck means nothing threw, every conversion succeeded, some entry was received, and the reply carries the deck of those entries |
| DownloadPptx.AllConvertedIff | src/app/api/qwen-image-layered/download-pptx/route.ts:61-64 | every listed conversion succeeds exactly when the conversion of every received entry does |
| DownloadPptx.PostRefusals | src/app/api/qwen-image-layered/download-pptx/route.ts:30-38 | a body that is not JSON or a throwing fetch or conversion gives 500 "Unable to create PPTX"; no entries gives 400 "No images provided"; no received entry gives 400 "No valid images downloaded" (see also lines 73-75, 88-91) |
| DownloadPptx.AttachmentIff | src/app/api/qwen-image-layered/download-pptx/route.ts:36-87 | the deck is sent exactly when the body is JSON, no fetch throws, every received WebP picture converts and at least one entry is received |
| DownloadPptx.ChecksIff | src/app/api/qwen-image-layered/download-pptx/route.ts:46-71 | "no fetch threw", "every conversion succeeded" and "some entry was received" restated in terms of the entries |
| DownloadPptx.SlidePerImage | src/app/api/qwen-image-layered/download-pptx/route.ts:41-71 | the deck has the wide layout and author "Qwen Image Layered", and one slide per received entry in order: slide `k` shows the `k`-th received entry's picture |
| DownloadPptx.ListedAreReceived | src/app/api/qwen-image-layered/download-pptx/route.ts:53-59 | every listed entry is the received answer of its own position, and every received position is listed |
| DownloadPptx.NoWebpSlides | src/app/api/qwen-image-layered/download-pptx/route.ts:61-69 | every slide holds a single picture whose data URI does not declare WebP |
| DownloadPptx.AttachmentHeader | src/app/api/qwen-image-layered/download-pptx/route.ts:77-85 | a sent deck has the presentation content type and is named after the sanitized base name plus `.pptx` (`qwen-image-layered.pptx` by default), verbatim in both header parameters |
| DownloadZip.WithFile | src/app/api/qwen-image-layered/download-zip/route.ts:72 | `zip.file` keeps names distinct in JSZip's file table, listed in the order names were first added: a name already held has its data replaced where it stands with every other file unchanged, and a new name goes after all the others |
| DownloadZip.Zip.File | src/app/api/qwen-image-layered/download-zip/route.ts:72 | the archive's files become those of `WithFile` for the name and data given |
| DownloadZip.FileNameOf | src/app/api/qwen-image-layered/download-zip/route.ts:66-70 | a layer's file name is at most 120 characters long |
| DownloadZip.Archive | src/app/api/qwen-image-layered/download-zip/route.ts:49-72 | the file table built from the additions has distinct names and no more files than additions |
| DownloadZip.AdditionsOf | src/app/api/qwen-image-layered/download-zip/route.ts:66-72 | one `zip.file` call per received entry, in order, under that entry's name and with its bytes |
| DownloadZip.AddLayer | src/app/api/qwen-image-layered/download-zip/route.ts:53-73 | the loop body reports a throw exactly when the fetch threw, adds a file exactly when the body was received, and otherwise keeps the archive equal to the one built from the received entries so far |
| DownloadZip.AddLayers | src/app/api/qwen-image-layered/download-zip/route.ts:52-74 | the loop fails exactly when some fetch throws; otherwise it returns the file table of all received entries and their count |
| DownloadZip.Post | src/app/api/qwen-image-layered/download-zip/route.ts:37-92 | the route's reply is exactly that of the specification `PostSpec` |
| DownloadZip.ArchiveHasEveryName | src/app/api/qwen-image-layered/download-zip/route.ts:72 | every name added ends up in the file table |
| DownloadZip.ArchiveLastWins | src/app/api/qwen-image-layered/download-zip/route.ts:72 | each file of the table is the last addition under its name |
| DownloadZip.ArchiveOfDistinct | src/app/api/qwen-image-layered/download-zip/route.ts:72 | additions with distinct names give a file table of exactly those files, in the order they were added |
| DownloadZip.IndexNamed | src/app/api/qwen-image-layered/download-zip/route.ts:80 | the files whose names are array indices, all of them such names, and none when no name is one |
| DownloadZip.OtherNamed | src/app/api/qwen-image-layered/download-zip/route.ts:80 | the files whose names are not array indices, and all files when no name is one |
| DownloadZip.NamedPartition | src/app/api/qwen-image-layered/download-zip/route.ts:80 | the index-named and the other files together are exactly the table's files |
| DownloadZip.InsertByIndex | src/app/api/qwen-image-layered/download-zip/route.ts:80 | an index-named file placed among ascending index-named files keeps them ascending and adds exactly that file |
| DownloadZip.SortByIndex | src/app/api/qwen-image-layered/download-zip/route.ts:80 | index-named files rearranged into ascending order of their index, none lost or added |
| DownloadZip.Generated | src/app/api/qwen-image-layered/download-zip/route.ts:80 | `generateAsync` writes the table's files, the same ones, with the array-index names first in ascending order and then the other names in the order they were first added |
| DownloadZip.GeneratedWithoutIndexNames | src/app/api/qwen-image-layered/download-zip/route.ts:80 | with no array-index name, the files are written in the order they were first added |
| DownloadZip.GeneratedSameFiles | src/app/api/qwen-image-layered/download-zip/route.ts:80 | the ZIP written holds exactly the table's files, and the same names |
| DownloadZip.IndexNameWrittenFirst | src/app/api/qwen-image-layered/download-zip/route.ts:72-80 | a file whose name is an array index, added after one whose name is not, is written before it |
| DownloadZip.LayerOneBeforeB | src/app/api/qwen-image-layered/download-zip/route.ts:67-80 | a layer named `1` added after one named `b` is written before it |
| DownloadZip.DefaultNameNotIndex | src/app/api/qwen-image-layered/download-zip/route.ts:69 | a default name `layer-{i + 1}.{ext}` is never an array index |
| DownloadZip.PostRefusals | src/app/api/qwen-image-layered/download-zip/route.ts:39-91 | a body that is not JSON or a throwing fetch gives 500 "Unable to create ZIP"; no entries gives 400 "No images provided"; no received entry gives 400 "No valid images downloaded" |
| DownloadZip.AttachmentIff | src/app/api/qwen-image-layered/download-zip/route.ts:45-87 | the ZIP is sent exactly when the body is JSON, no fetch of a usable URL throws and at least one such fetch is `ok` |
| DownloadZip.OutcomesIff | src/app/api/qwen-image-layered/download-zip/route.ts:52-74 | "no fetch threw" and "some entry was received" restated in terms of the entries and the fetch |
| DownloadZip.AttachmentOf | src/app/api/qwen-image-layered/download-zip/route.ts:76-87 | a sent ZIP means nothing threw, some entry was received, and the reply carries the received entries' file table in the order `generateAsync` writes it, under the attachment name |
| DownloadZip.AttachmentHeader | src/app/api/qwen-image-layered/download-zip/route.ts:80-85 | a sent ZIP has type `application/zip` and is named after the sanitized base name plus `.zip` (`qwen-image-layered.zip` by default), verbatim in both header parameters |
| DownloadZip.ArchiveContents | src/app/api/qwen-image-layered/download-zip/route.ts:64-72 | the ZIP sent holds a file named after every received entry, and each file is the body of the last received entry with that name |
| DownloadZip.DefaultNamesDistinct | src/app/api/qwen-image-layered/download-zip/route.ts:67-70 | default names `layer-{i + 1}.{ext}` of two different positions stay different after sanitizing |
| DownloadZip.DefaultNameIsClean | src/app/api/qwen-image-layered/download-zip/route.ts:17-70 | sanitizing leaves a default layer name unchanged |
| DownloadZip.UnnamedLayersAllKept | src/app/api/qwen-image-layered/download-zip/route.ts:52-74 | when no entry names itself, every received entry becomes its own file `layer-{i + 1}.{ext}`, none is lost, and the ZIP lists them in entry order (no default name is an array index) |
| Filenames.SkipRejected | src/app/api/qwen-image-layered/download-zip/route.ts:18 | the rest after the leading run of replaced characters is a suffix of the input that starts with a kept character, and everything skipped is replaced |
| Filenames.ReplaceRuns | src/app/api/qwen-image-layered/download-zip/route.ts:18 | a global `replace` of runs: never longer than the input, empty only for the empty input, and every character is kept or `_` |
| Filenames.ReplaceRunsKeptPrefix | src/app/api/qwen-image-layered/download-zip/route.ts:18 | kept characters before anything else pass through unchanged |
| Filenames.ReplaceRunsRejectedRun | src/app/api/qwen-image-layered/download-zip/route.ts:18 | a whole maximal run of replaced characters becomes exactly one `_` |
| Filenames.ReplaceRunsIdentity | src/app/api/qwen-image-layered/download-zip/route.ts:18 | a string of kept characters is returned unchanged |
| Filenames.ReplaceRunsKeepsKept | src/app/api/qwen-image-layered/download-zip/route.ts:18 | every kept character of the input is still in the output |
| Filenames.SanitizeFilename | src/app/api/qwen-image-layered/download-zip/route.ts:17-19 | a sanitized name has at most 120 characters, each a word character, `-` or `.` |
| Filenames.SanitizeNonEmpty | src/app/api/qwen-image-layered/download-zip/route.ts:17-19 | a non-empty name never sanitizes to the empty name |
| Filenames.SanitizeIdempotent | src/app/api/qwen-image-layered/download-zip/route.ts:17-19 | sanitizing twice is sanitizing once |
| Filenames.SanitizeKeepsCleanNames | src/app/api/qwen-image-layered/download-zip/route.ts:17-19 | a name already within the alphabet and 120 characters is returned as is |
| Filenames.AsciiFallback | src/app/api/qwen-image-layered/download-zip/route.ts:22 | the fallback name holds only printable ASCII |
| Filenames.ContentDisposition | src/app/api/qwen-image-layered/download-zip/route.ts:21-25 | the header value starts with `attachment; filename="` |
| Filenames.CleanDisposition | src/app/api/qwen-image-layered/download-zip/route.ts:21-25 | for a name of file-name characters the fallback and the UTF-8 parameter both carry the name unchanged |
| Filenames.SanitizedDisposition | src/app/api/qwen-image-layered/download-zip/route.ts:17-25 | every sanitized name reaches both header parameters unchanged |
| Filenames.QuoteCopiedIntoFallback | src/app/api/qwen-image-layered/download-zip/route.ts:22-24 | a double quote in the name is copied into the quoted `filename` parameter without escaping |
| Filenames.LayerExtension | src/app/api/qwen-image-layered/download-zip/route.ts:27-35 | the extension is `png`, `webp` or `jpg`, and `png` whenever the content type mentions it |
| Filenames.LayerExtensionDefault | src/app/api/qwen-image-layered/download-zip/route.ts:27-35 | with no content type and no known extension in the URL a layer is a PNG |
| FlipImage.DescriptionOf | src/app/api/flip-image/route.ts:85 | the record's description falls back to `{flip_type} flipped image` only when the body's is absent or empty; `FlipImage.PostSucceeds` states that this is the description of the outfit recorded for a signed-in user |
| FlipImage.Post | src/app/api/flip-image/route.ts:14-110 | the route's reply and new backend state are exactly those of the specification `PostSpec` |
| FlipImage.PostGates | src/app/api/flip-image/route.ts:24-32 | a missing URL and a flip type other than `horizontal` or `vertical` each answer with their own message before the download, changing nothing |
| FlipImage.NeverTouchesCredits | src/app/api/flip-image/route.ts:14-110 | no balance and no transaction ever changes |
| FlipImage.IndependentOfCredits | src/app/api/flip-image/route.ts:34-35 | the reply is the same whatever the balances are |
| FlipImage.RecordIffUser | src/app/api/flip-image/route.ts:78-98 | a successful reply lists exactly the records appended: one, with the batch id as uuid, for a signed-in user, and none for an anonymous caller |
| FlipImage.PostSucceeds | src/app/api/flip-image/route.ts:41-105 | with download, decoding and upload succeeding, the mirrored PNG is stored under `gen/{batch}_{flip_type}_flip.png` and the reply names it, the original URL and the flip type |
| FontUtils.GenerateDistinctColors | src/lib/font-recognizer/utils.ts:15-28 | the loop pushes exactly the colours `DistinctColors` describes |
| FontUtils.DistinctColorsShape | src/lib/font-recognizer/utils.ts:15-28 | as many colours as asked for (none for a count that is not positive), saturation `75 + (i % 3) * 5` and lightness `55 + (i % 2) * 5` |
| FontUtils.HueIsFraction | src/lib/font-recognizer/utils.ts:17-20 | colour `i`'s hue is `i * 360 / count`, in `[0, 360)`: the modulo never wraps |
| FontUtils.HuesDistinct | src/lib/font-recognizer/utils.ts:15-28 | the hues strictly increase, so no two colours share one |
| FontUtils.AssignColors | src/lib/font-recognizer/utils.ts:111-117 | each OCR result keeps its fields and takes the colour of its index |
| FontUtils.ValidImageFormatIsExactMatch | src/lib/font-recognizer/utils.ts:53-56 | the whole MIME type must match, case-sensitively: `image/PNG`, `IMAGE/png`, `image/gif`, a bare `png` and a type with a parameter are refused, and every accepted type starts with `image/` |
| FontUtils.ValidImageSizeBoundary | src/lib/font-recognizer/utils.ts:65-68 | the size limit itself is accepted and one byte more is refused |
| GeminiService.FixedPrompt | src/services/geminiService.ts:6-26 | every option other than the custom question has its own non-empty prompt |
| GeminiService.PromptForOptionTotal | src/services/geminiService.ts:5-32 | every option has a non-empty prompt; only the custom one depends on the question, and a missing or empty question gives "Describe this image." |
| GeminiService.FinalPromptParts | src/services/geminiService.ts:47-48 | the final prompt splits back into the option's prompt, the language instruction, the language and a final `.` |
| GeminiService.WordPrefix | src/services/geminiService.ts:51-52 | the longest prefix of word characters (`\w*`) |
| GeminiService.DataUrlRoundTrip | src/services/geminiService.ts:51-52 | a `data:image/<word>;base64,<data>` input is split into `image/<word>` and its data, whatever the data holds |
| GeminiService.WordPrefixOf | src/services/geminiService.ts:51-52 | a word followed by a non-word character has that word as its word prefix |
| GeminiService.OtherInputUnchanged | src/services/geminiService.ts:51-52 | input not starting with `data:image/` is sent unchanged, as `image/jpeg` |
| GeminiService.DescriptionRequestCases | src/services/geminiService.ts:34-70 | without either API key the call fails with the missing-key message before the model is asked; with one, the request carries the prepared prompt, MIME type and data |
| GenOutfit.RequestOrigin | src/app/api/gen-outfit/route.ts:22-35 | a non-empty `origin` header wins; else the host is `x-forwarded-host`, or `host` when that is absent, and none when the chosen host is empty; the protocol is `x-forwarded-proto` or `http` |
| GenOutfit.ResolveImageUrl | src/app/api/gen-outfit/route.ts:37-51 | data URLs and absolute URLs are kept as given (the source's `new URL(value).toString()` normalization is not modelled), and so is any value when there is no origin |
| GenOutfit.AlnumSuffix | src/app/api/gen-outfit/route.ts:55 | the longest alphanumeric suffix: it ends the input, is all letters and digits, and the character before it is not one |
| GenOutfit.ExtensionFromUrl | src/app/api/gen-outfit/route.ts:53-67 | the extension read from a URL is always `png`, `webp` or `jpg` |
| GenOutfit.NormalizeExtension | src/app/api/gen-outfit/route.ts:57-66 | `jpeg` becomes `jpg`; `png`, `webp` and `jpg` stay; anything else is `png` |
| GenOutfit.PathBeforeQuery | src/app/api/gen-outfit/route.ts:54 | a query or fragment after the path is cut off |
| GenOutfit.ExtensionOfPath | src/app/api/gen-outfit/route.ts:53-67 | for a path ending in `.ext`, with or without a query or fragment, the lower-cased `ext` decides, normalized |
| GenOutfit.ContentTypeFor | src/app/api/gen-outfit/route.ts:69-80 | `png`, `webp` and `jpg` map to their image types, anything else to `application/octet-stream` |
| GenOutfit.EnsureRemoteSource | src/app/api/gen-outfit/route.ts:82-116 | an empty or data source is returned with nothing stored; only the objects can change; a thrown transfer changes nothing |
| GenOutfit.EnsureRemoteSourceCopiesOnlyLocal | src/app/api/gen-outfit/route.ts:92-115 | only a source on a local host is copied, into `input/{batch}_source.{ext}`, and replaced by that object's URL; any other comes back resolved with nothing stored |
| GenOutfit.EnsureRemoteSourceWritesInput | src/app/api/gen-outfit/route.ts:103-112 | the source step writes at most one object, under `input/`; every object outside `input/` is kept and none is added there |
| GenOutfit.EnsureRemoteSourceImage | src/app/api/gen-outfit/route.ts:82-116 | the step's result and new state are exactly those of `EnsureRemoteSource` |
| GenOutfit.LayeredParams | src/app/api/gen-outfit/route.ts:205-227 | the format is `png` exactly when the lower-cased `output_format` is `png`, and `webp` otherwise; numbers and booleans are taken only when they have that type, else their defaults (4 layers, quality 95, fast, safety checker disabled) |
| GenOutfit.OutputUrls | src/app/api/gen-outfit/route.ts:229-290 | mock mode gives the canned outputs; an edit keeps one output; a thrown or falsy model output fails |
| GenOutfit.JobOf | src/app/api/gen-outfit/route.ts:292-322 | the job is well formed and lists exactly the outputs given |
| GenOutfit.JobFor | src/app/api/gen-outfit/route.ts:288-322 | a job exists only with at least one output, and an edit has exactly one |
| GenOutfit.Generate | src/app/api/gen-outfit/route.ts:229-340 | a failed generation answers "generate outfit fail" |
| GenOutfit.Post | src/app/api/gen-outfit/route.ts:118-341 | the route's reply and new backend state are exactly those of the specification `PostSpec` |
| GenOutfit.PostGates | src/app/api/gen-outfit/route.ts:150-171 | an invalid source ("invalid image" or "invalid base_image_url" by request kind), a missing session and too few credits each answer before any effect |
| GenOutfit.PostMessages | src/app/api/gen-outfit/route.ts:155-170 | only the route's five messages occur, and a NaN cost never rejects for credits (see also lines 337-340) |
| GenOutfit.JobRecords | src/app/api/gen-outfit/route.ts:195-321 | the job lists exactly the model's outputs, with pairwise distinct keys and the content type `image/{ext}` of the format (`image/png` for an edit, `image/png` or `image/webp` for a layered request); record `i` is under `gen/{batch}_layer_{i}.{ext}` or `gen/{batch}_outfit.png`, with the session user, one timestamp, the resolved source and description, and the batch id as uuid exactly when there is one output |
| GenOutfit.GenerateSucceeds | src/app/api/gen-outfit/route.ts:292-336 | a success returns the job's records, all inserted, with every output's key present in storage; the cost is charged once, and neither wallpapers, users nor orders change (what the keys hold is `GenOutfit.GenerateObjects`) |
| GenOutfit.GenerateObjects | src/app/api/gen-outfit/route.ts:295-308 | after a successful generation key `i` holds the download of output `i` typed `image/{ext}`, and every object under any other key is unchanged or still absent |
| GenOutfit.OutputKeysUnderGen | src/app/api/gen-outfit/route.ts:297-298 | every storage key of a job begins with `gen/` |
| GenOutfit.GenerateStores | src/app/api/gen-outfit/route.ts:295-308 | after a successful generation the key `gen/{batch}…` of output `i` holds the download of that output typed `image/{ext}`, and no object outside `gen/` was added, changed or removed |
| GenOutfit.GenerateFailureNeverCharges | src/app/api/gen-outfit/route.ts:325-340 | a failed generation leaves credits and transactions as they were |
| GenOutfit.GenerateCalls | src/app/api/gen-outfit/route.ts:229-286 | the provider is called once unless mocked, and nothing else is called |
| GenOutfit.PostSucceeds | src/app/api/gen-outfit/route.ts:150-336 | a success passed all three gates, appended exactly the records it returns, charged the cost once and called the provider once unless mocked |
| GenOutfit.PostRecords | src/app/api/gen-outfit/route.ts:295-321 | an edit makes exactly one record; each record has the session user, the shared timestamp, the resolved description and active status, and the public URL of its output's key, which is present in storage (what it holds is `GenOutfit.PostStores`) |
| GenOutfit.PostStores | src/app/api/gen-outfit/route.ts:118-336 | after a successful request the key of output `i` holds the download of that output typed `image/{ext}` after the format, and outside `gen/` and `input/` (the copied source) no object was added, changed or removed |
| GenOutfit.PostFailureNeverCharges | src/app/api/gen-outfit/route.ts:325-340 | a failed request never charges, whatever threw |
| GenOutfit.PostMockSkipsProvider | src/app/api/gen-outfit/route.ts:192-245 | with `MOCK_OUTFIT_GENERATION=true` the provider is never called |
| GenOutfit.PostUuidPolicy | src/app/api/gen-outfit/route.ts:310 | with distinct fresh uuids, a record carries the batch id exactly when it is the only record |
| GenOutfit.LayerKeysDistinct | src/app/api/gen-outfit/route.ts:297-298 | two layers of a batch never share a storage key |
| GenOutfit.MockOutputs | src/app/api/gen-outfit/route.ts:229-244 | mock mode gives a layered request the four canned layers cut to `num_layers` (all four by default) and an edit the one canned image |
| GenQwenImageLayered.ParamsOf | src/app/api/gen-qwen-image-layered/route.ts:70-83 | the format is `png` exactly when the lower-cased `output_format` is `png`, else `webp`; numbers and booleans are taken only when they have that type, else the defaults |
| GenQwenImageLayered.OutputUrls | src/app/api/gen-qwen-image-layered/route.ts:85-112 | mock mode gives the four canned layers; a thrown or falsy model output fails |
| GenQwenImageLayered.JobFor | src/app/api/gen-qwen-image-layered/route.ts:114-149 | a job exists only with at least one output, and is well formed |
| GenQwenImageLayered.Generate | src/app/api/gen-qwen-image-layered/route.ts:85-164 | a failed generation answers "generate qwen-image-layered fail" |
| GenQwenImageLayered.Post | src/app/api/gen-qwen-image-layered/route.ts:22-165 | the route's reply and new backend state are exactly those of the specification `PostSpec` |
| GenQwenImageLayered.PostGates | src/app/api/gen-qwen-image-layered/route.ts:38-56 | a missing image, a missing session and too few credits each answer before any effect |
| GenQwenImageLayered.EmptyOutputStoresNothing | src/app/api/gen-qwen-image-layered/route.ts:107-116 | a thrown, falsy or empty output fails with nothing stored; at most the provider call was made |
| GenQwenImageLayered.JobRecords | src/app/api/gen-qwen-image-layered/route.ts:118-145 | the job lists exactly the model's outputs under pairwise distinct keys, all under `gen/`, with the content type `image/png` or `image/webp` of the format; record `i` is for `gen/{batch}_layer_{i}.{ext}`, takes the `(i + 1)`-th fresh uuid and keeps the raw input image as base |
| GenQwenImageLayered.GenerateSucceeds | src/app/api/gen-qwen-image-layered/route.ts:121-160 | a success charged once and made one record per output (four in mock mode); the key of output `i` holds that output's download typed after the format, and nothing outside `gen/` changed |
| GenQwenImageLayered.GenerateFailureNeverCharges | src/app/api/gen-qwen-image-layered/route.ts:152-164 | a failed generation never charges |
| GenQwenImageLayered.PostSucceeds | src/app/api/gen-qwen-image-layered/route.ts:38-160 | a success passed the gates and returns one record per output in order, appended, with the user charged once; the key of output `i` holds the download of that output typed `image/png` or `image/webp` after the format, and no object outside `gen/` was added, changed or removed |
| GenQwenImageLayered.NoRecordTakesTheBatchId | src/app/api/gen-qwen-image-layered/route.ts:58 | with distinct fresh uuids no record carries the batch id (see also lines 138) |
| GenQwenImageLayered.PostFailureNeverCharges | src/app/api/gen-qwen-image-layered/route.ts:152-164 | a failed request never charges |
| GenWallpaper.KeysDistinct | src/app/api/gen-wallpaper/route.ts:47-48 | two images of a batch never share a storage key |
| GenWallpaper.OwnerOf | src/app/api/gen-wallpaper/route.ts:66 | the owner is the body's `user_uuid` exactly when that is non-empty, and none otherwise |
| GenWallpaper.RecordsOf | src/app/api/gen-wallpaper/route.ts:45-70 | one record per image, in order |
| GenWallpaper.UploadAll | src/app/api/gen-wallpaper/route.ts:45-57 | the uploads leave the store as the specification `StoredFirst` says and report whether any upload threw |
| GenWallpaper.Post | src/app/api/gen-wallpaper/route.ts:11-83 | the route's reply and the new backend state are exactly those of the specification `PostSpec` |
| GenWallpaper.PostGates | src/app/api/gen-wallpaper/route.ts:15-17 | without a description the reply is "Description is required" and nothing is called or stored |
| GenWallpaper.WarningsFail | src/app/api/gen-wallpaper/route.ts:28-81 | any warning from the provider fails the request after the one model call, before anything is stored |
| GenWallpaper.StoredFirstObjects | src/app/api/gen-wallpaper/route.ts:47-56 | storing changes only the objects, and each successful upload stores image `i` as a PNG under its key |
| GenWallpaper.PostSucceeds | src/app/api/gen-wallpaper/route.ts:25-78 | a success repeats the prompt, has one active record per image in order (fresh uuid, the description, `STORAGE_DOMAIN/key`, the owner), inserts them in one call and leaves credits alone |
| GenWallpaper.FailureInsertsNothing | src/app/api/gen-wallpaper/route.ts:36-81 | a failure writes no record and is one of the route's two messages; credits are never touched |
| I18nRequest.ResolveLocale | src/i18n/request.ts:14-25 | the handler's three reassignments of `locale` give `NormalizeLocale` |
| I18nRequest.NormalizeLocaleCases | src/i18n/request.ts:14-25 | the locale is always configured or `en`, never `zh-CN`; a configured locale other than `zh-CN` is kept, `zh-CN` becomes `zh` (or `en` when `zh` is not configured), anything else the default |
| I18nRequest.PageResults | src/i18n/request.ts:33-37 | one settled import per page namespace, in order |
| I18nRequest.FallbackPaths | src/i18n/request.ts:55-63 | the fallback imports the English base messages, then each page namespace in English, in order |
| I18nRequest.MergePagesKeys | src/i18n/request.ts:39-44 | a key is merged exactly when some fulfilled namespace has it |
| I18nRequest.MergePagesLastWins | src/i18n/request.ts:39-44 | a merged key has the value of the last fulfilled namespace having it |
| I18nRequest.MergeAllFulfilled | src/i18n/request.ts:39-44 | with no rejected import the merge is the plain spread of the files in order |
| I18nRequest.MessagesOverride | src/i18n/request.ts:27-51 | when the base messages load, the locale is kept and the page namespaces' keys override the base messages, last namespace winning |
| I18nRequest.FallbackIsEnglish | src/i18n/request.ts:52-65 | when the base messages fail, the locale is `en` with the messages the normal path gives for `en` |
| I18nRequest.FallbackLoads | src/i18n/request.ts:52-65 | the fallback succeeds exactly when the English base file and every English page file load |
| I18nRequest.FallbackMessages | src/i18n/request.ts:55-63 | the fallback messages are the English base messages overlaid with the English page namespaces in order |
| ImageCanvas.CropBoxBounds | src/components/font-recognizer/ImageCanvas.tsx:131-136 | the crop stays inside the image, is at most the block padded by 10 on each side, and covers the whole block when the block lies inside the image |
| ImageCanvas.CropSelectedText | src/components/font-recognizer/ImageCanvas.tsx:112-173 | no canvas, no image or an index outside the results gives `null`; otherwise the rendering of the crop box, which `ImageCanvas.CropBoxBounds` keeps inside the image and around the block, and which `ImageCanvas.HandleCanvasClick` passes on for the block hit |
| ImageCanvas.HitTest | src/components/font-recognizer/ImageCanvas.tsx:190-197 | the block found contains the point and no later block does; no block found means none contains it |
| ImageCanvas.HandleCanvasClick | src/components/font-recognizer/ImageCanvas.tsx:178-205 | without a canvas nothing is selected; otherwise the selection is the last block containing the point, with its crop, and none when no block contains it |
| ImageDescriber.ValidItems | src/components/image-describer/ImageDescriber.tsx:42-44 | only stored items with an id and a result are kept, in order |
| ImageDescriber.LoadedHistory | src/components/image-describer/ImageDescriber.tsx:42-44 | a loaded history holds at most ten items |
| ImageDescriber.ValidItemsMembers | src/components/image-describer/ImageDescriber.tsx:42-44 | an item is kept exactly when it has an id and a result and was stored |
| ImageDescriber.PushHistoryShape | src/components/image-describer/ImageDescriber.tsx:93-119 | the new item comes first, followed by the newest nine of the old ones, in order |
| ImageDescriber.SavedHistory | src/components/image-describer/ImageDescriber.tsx:93-104 | after a save the history starts with the new item and holds one to ten items |
| ImageDescriber.ClassifyCases | src/components/image-describer/ImageDescriber.tsx:238-254 | a sign-in message is an authentication error even when it mentions credits; a credit message alone is a credit error shown verbatim; anything else is a generic generation error |
| ImageDescriber.ClassifyIgnoresCase | src/components/image-describer/ImageDescriber.tsx:239-240 | classification ignores letter case |
| ImageDescriber.DescriptionFor | src/components/image-describer/ImageDescriber.tsx:157-197 | the handler's own switch builds the same prompt as `getPromptForOption` with the language instruction appended |
| ImageDescriber.Describer.constructor | src/components/image-describer/ImageDescriber.tsx:18-34 | the describer starts with an empty history, no request and no error |
| ImageDescriber.Describer.LoadHistory | src/components/image-describer/ImageDescriber.tsx:36-52 | no stored history changes nothing; a parsable one loads its valid items among the first ten; an unparsable one clears both the store and the history |
| ImageDescriber.Describer.SaveToHistory | src/components/image-describer/ImageDescriber.tsx:84-104 | the history becomes the push of the new item (or the item alone when the write fails), and the store holds it |
| ImageDescriber.Describer.Generate | src/components/image-describer/ImageDescriber.tsx:125-267 | without an uploaded URL a validation error is set and nothing is sent; otherwise exactly one request with the prepared prompt is sent, and the result is the description saved to history, or the classified error with the error text |
| ImageDescriber.Describer.Run | src/components/image-describer/ImageDescriber.tsx:150-266 | one request with the prepared prompt is sent, and the result and history follow its outcome |
| ImageDescriber.Describer.Finish | src/components/image-describer/ImageDescriber.tsx:220-266 | a description is shown and saved when an image is selected; an error is classified and shown with the error text; generation ends |
| ImageDescriber.Describer.HandleStop | src/components/image-describer/ImageDescriber.tsx:34 | no controller is ever set, so stopping changes nothing (see also lines 269-274) |
| ImageExpander.OfferedRatiosArePositive | src/lib/ai-image-expander-config.ts:12-62 | every offered ratio has two positive sides, so every ratio can be used to compute a target size |
| ImageExpander.ScaleToMaximum | src/components/ai-image-expander-second/index.tsx:162-166 | the scaling step gives exactly the scaled size of the specification `Scaled` |
| ImageExpander.CalculateTargetDimensions | src/components/ai-image-expander-second/index.tsx:139-175 | the step-by-step computation returns the specification `TargetDimensions` of the original size and ratio |
| ImageExpander.HandleDownload | src/components/ai-image-expander-second/index.tsx:481-497 | a link is produced exactly when an expanded image is held |
| ImageExpander.Expander.constructor | src/components/ai-image-expander-second/index.tsx:117-130 | the initial state holds the initial file, the initial URL only when non-empty, the given ratio or the first one, 0 credits and nothing else |
| ImageExpander.Expander.FetchUserCredits | src/components/ai-image-expander-second/index.tsx:205-224 | only an answer with code 0 changes the state, and only the credits, to `data \|\| 0`; failures change nothing |
| ImageExpander.Expander.HandleInitialImage | src/components/ai-image-expander-second/index.tsx:177-233 | loading the initial image, of any size (a zero side included), sets its size and the target size for the selected ratio, nothing else |
| ImageExpander.Expander.ClearError | src/components/ai-image-expander-second/index.tsx:236-238 | only the error is cleared |
| ImageExpander.Expander.HandleAspectRatioSelect | src/components/ai-image-expander-second/index.tsx:241-258 | the new ratio is selected, the target size is recomputed for it when an image is loaded and dropped otherwise, and the comparison and error are cleared |
| ImageExpander.Expander.HandleFileSelect | src/components/ai-image-expander-second/index.tsx:276-303 | no file changes nothing; a refused file only sets the upload error with the file check's message; an accepted file becomes the original, starts uploading and clears the expanded image, comparison and error |
| ImageExpander.Expander.OnImageLoad | src/components/ai-image-expander-second/index.tsx:308-346 | the size (any, a zero side included) and target size are set; a successful upload holds the URL, a failed one drops the original and URL and sets the sign-in or network error; uploading ends either way |
| ImageExpander.Expander.OnImageError | src/components/ai-image-expander-second/index.tsx:348-360 | a read failure drops the original, ends uploading and sets "File read failed" |
| ImageExpander.Expander.ValidateCredits | src/components/ai-image-expander-second/index.tsx:381-395 | passes iff the credits reach the cost of 5; a failure sets the insufficient-credits error naming both numbers and changes nothing else |
| ImageExpander.Expander.HandleGenerate | src/components/ai-image-expander-second/index.tsx:398-478 | sends iff an uploaded URL is held and the credits cover the cost; without a URL nothing changes; with too few credits only the error is set; once sent, one request with the URL, the fixed description and the ratio's label, and the state and callbacks of `AfterAnswer`, `Generated` and `Reported` |
| ImageExpander.Expander.Send | src/components/ai-image-expander-second/index.tsx:408-430 | one request is logged and only the generating flag and error change |
| ImageExpander.Expander.Receive | src/components/ai-image-expander-second/index.tsx:432-477 | the new state is `AfterAnswer` of the answer and the credits fetched again, and exactly the matching callback is logged |
| ImageExpander.ValidateFileOrder | src/components/ai-image-expander-second/index.tsx:261-273 | an unsupported format is reported whatever the size, a supported file over 10 MB as too large, and a file passes iff both checks pass |
| ImageExpander.DisplayImageCases | src/components/ai-image-expander-second/index.tsx:369-378 | the image shown is the expanded URL, else the uploaded one, and is empty iff neither is held |
| ImageExpander.AnswerOutcome | src/components/ai-image-expander-second/index.tsx:446-477 | after an answer nothing is generating; a success shows the new image and refreshes the credits; a failure keeps the image shown, keeps the credits and sets the generation error; exactly one callback fires |
| ImageExpander.CreditsAfterCases | src/components/ai-image-expander-second/index.tsx:205-224 | a failed fetch or another code keeps the credits; code 0 without data gives 0 |
| ImageExpander.UnscaledCoversOriginal | src/components/ai-image-expander-second/index.tsx:147-160 | an original wider than the ratio keeps its width, any other keeps its height, and both sides are at least the original's; a zero height counts as wider when the width is positive (an infinite ratio) and not when both are zero (NaN) |
| ImageExpander.ScaledWithinMaximum | src/components/ai-image-expander-second/index.tsx:162-166 | after scaling, both sides are between 0 and 2048 |
| ImageExpander.TargetDimensionsShape | src/components/ai-image-expander-second/index.tsx:162-172 | the target sides are even, each is the scaled side or one more, and neither exceeds 2048 |
| ImageExpander.SmallSizeIsNotScaled | src/components/ai-image-expander-second/index.tsx:154-172 | a size within the maximum is only made even, and then covers the original |
| ImageExpander.WideToSquare | src/components/ai-image-expander-second/index.tsx:154-172 | a 1000x500 original asked for 1:1 becomes 1000x1000 |
| ImageExpander.ZeroSidedSizes | src/components/ai-image-expander-second/index.tsx:147-172 | a 0x0 image gets a 0x0 target for any ratio; asked for 1:1, a 0x500 image becomes 500x500 (its height kept) and a 500x0 image 500x500 (its width kept) |
| ImageExpander.UploadFailureKinds | src/components/ai-image-expander-second/index.tsx:326-340 | the upload error is the sign-in one iff the message mentions "authenticated" in any case |
| ImageExpander.GenerationErrorKinds | src/components/ai-image-expander-second/index.tsx:460-472 | a generation failure is an authentication error iff the message mentions "authenticated" or "credits" |
| ImageExpander.ExpandResultOk | src/components/ai-image-expander-second/index.tsx:432-444 | an answer succeeds only with an OK status, code 0 and a non-empty image URL, and the URL is what is kept |
| ImageExpander.DownloadTargets | src/components/ai-image-expander-second/index.tsx:481-497 | the name is `ai-expanded-{label}-{date}.png` with the ISO time's first ten characters, and the link asks the download route for the expanded image under that name |
| ImageFlipGenerator.Without | src/components/image-flip-generator/index.tsx:136 | Deleting a key from the insertion order keeps exactly the other keys and never lengthens the list |
| ImageFlipGenerator.Inserted | src/components/image-flip-generator/index.tsx:274 | After `imageCache.set` the key is present and the keys are exactly the old ones plus it |
| ImageFlipGenerator.WithoutAbsent | src/components/image-flip-generator/index.tsx:136 | Deleting a key that is not in the cache leaves the key order unchanged |
| ImageFlipGenerator.WithoutOldest | src/components/image-flip-generator/index.tsx:134-136 | With distinct keys, deleting the first entry of the insertion order drops exactly that entry |
| ImageFlipGenerator.ImageCache.constructor | src/components/image-flip-generator/index.tsx:59 | The module-level cache starts empty |
| ImageFlipGenerator.ImageCache.Get | src/components/image-flip-generator/index.tsx:231 | `get` finds a value exactly when the key is stored, and returns the stored value |
| ImageFlipGenerator.ImageCache.Set | src/components/image-flip-generator/index.tsx:274 | `set` replaces the key's value and appends a new key at the end of the insertion order |
| ImageFlipGenerator.ImageCache.Delete | src/components/image-flip-generator/index.tsx:136 | `delete` removes the key from both the values and the insertion order |
| ImageFlipGenerator.ImageCache.Trim | src/components/image-flip-generator/index.tsx:133-137 | Above 50 entries the 25 oldest keys are gone and the rest keep their order; at 50 or fewer nothing changes; a cache of at most 75 entries is left with at most 50; no surviving value changes |
| ImageFlipGenerator.TrimBound | src/components/image-flip-generator/index.tsx:133-137 | The keys a trim leaves are the newest ones in insertion order: 25 fewer above 50 entries, all of them at 50 or fewer, so a cache of at most 75 entries ends with at most 50 |
| ImageFlipGenerator.FlipTypeName | src/components/image-flip-generator/index.tsx:45 | Each flip type has a non-empty name |
| ImageFlipGenerator.Minus | src/components/image-flip-generator/index.tsx:440 | Subtracting two `parseInt` results is a number exactly when both are numbers, and then their difference; `ImageFlipGenerator.FlipRequested` states that a successful flip with credits on leaves this balance |
| ImageFlipGenerator.FlippedUrl | src/components/image-flip-generator/index.tsx:415-428 | A flipped URL is taken exactly when the response is OK, its code is 0 and `flipped_image_url` is a non-empty string, and it is that string; `ImageFlipGenerator.FlipRequested` states that exactly then it is cached and shown, the credits are charged and the flip type is set, and that otherwise the processing error is set and nothing is stored or charged |
| ImageFlipGenerator.FallbackBase | src/components/image-flip-generator/index.tsx:337-340 | The fallback base image is never empty |
| ImageFlipGenerator.BaseImage | src/components/image-flip-generator/index.tsx:341-342 | The base image of a flip is never empty, so the `!baseImageUrl` error at 359-369 cannot occur |
| ImageFlipGenerator.FlipGenerator.constructor | src/components/image-flip-generator/index.tsx:86-98 | The component starts in its initial state, with the default preview, 0 credits, and nothing uploaded or requested |
| ImageFlipGenerator.FlipGenerator.LoadCredits | src/components/image-flip-generator/index.tsx:100-122 | A code-0 answer sets the credits to `left_credits \|\| 0`; otherwise the state is unchanged; no upload or request is made |
| ImageFlipGenerator.FlipGenerator.HandleFileSelect | src/components/image-flip-generator/index.tsx:187-323 | The new state, the uploads sent and the cache entries stored are those of the file-selection specification; no flip request is made |
| ImageFlipGenerator.FlipGenerator.Load | src/components/image-flip-generator/index.tsx:227-322 | The cache lookup and the read-and-upload path follow the load specification; the upload log grows only by the upload it names |
| ImageFlipGenerator.FlipGenerator.HandleFlip | src/components/image-flip-generator/index.tsx:336-460 | The new state, the requests sent and the cache entries stored are those of the flip specification; nothing is uploaded |
| ImageFlipGenerator.FlipGenerator.Request | src/components/image-flip-generator/index.tsx:398-459 | The request and its answer follow the request specification: one request is sent, and a success is cached under the flip key |
| ImageFlipGenerator.FlipGenerator.PreviewChanged | src/components/image-flip-generator/index.tsx:125-139 | The cleanup run when the preview changes trims the cache: above 50 entries the 25 oldest go, otherwise nothing changes |
| ImageFlipGenerator.SelectRefusals | src/components/image-flip-generator/index.tsx:196-225 | A file of an unsupported type is refused with the format error, then an oversized one with the size error; a refused file changes only the error, and an upload happens only for a supported, uncached, readable file |
| ImageFlipGenerator.SelectCacheHit | src/components/image-flip-generator/index.tsx:229-250 | A file whose name-size-modified key is cached reuses the cached URL with no upload and no store, clears the flip and ends the uploading state |
| ImageFlipGenerator.SelectUpload | src/components/image-flip-generator/index.tsx:252-305 | An uncached file is uploaded, compressed when over 1 MiB; success stores its URL under its key and shows it; failure stores nothing, clears the image and reports the auth error exactly when the message mentions authentication |
| ImageFlipGenerator.FileKeysDiffer | src/components/image-flip-generator/index.tsx:230 | Two files with the same name but a different size or modification time have different cache keys |
| ImageFlipGenerator.FlipCacheHit | src/components/image-flip-generator/index.tsx:371-383 | A flip whose `{base}-{flipType}` key is cached sends no request and stores nothing; only the error, the flipped image and the flip type change |
| ImageFlipGenerator.FlipNeedsCredits | src/components/image-flip-generator/index.tsx:385-396 | With credits enabled and fewer credits than the cost, an uncached flip is refused with the credits error and sends no request |
| ImageFlipGenerator.FlipRequested | src/components/image-flip-generator/index.tsx:398-459 | Otherwise one request carries the base, the flip type and its description; a success is cached and becomes the flipped, uploaded and preview image and costs the processing cost; a failure clears the flip type and shows the processing error |
| ImageFlipGenerator.FlipFrame | src/components/image-flip-generator/index.tsx:336-460 | A flip never changes the chosen file or the uploading flag, and changes the credits only after a successful request with credits enabled |
| ImageFlipGenerator.GetExt | src/components/image-flip-generator/index.tsx:479-482 | The extension found never contains a dot, a slash, `?` or `#` |
| ImageFlipGenerator.StripExtension | src/components/image-flip-generator/index.tsx:496-499 | Stripping the extension never lengthens the name |
| ImageFlipGenerator.NoExtBeforeDot | src/components/image-flip-generator/index.tsx:480 | A dot followed later by another dot, in a name without `?` or `#`, does not start the extension match |
| ImageFlipGenerator.GetExtOfName | src/components/image-flip-generator/index.tsx:479-482 | The extension of `{name}.{ext}` is `ext`, for a name without `?` or `#` |
| ImageFlipGenerator.LastIndexOfAt | src/components/image-flip-generator/index.tsx:497 | The last occurrence of a character is at k when it is at k and nowhere after |
| ImageFlipGenerator.StripExtensionOfName | src/components/image-flip-generator/index.tsx:496-499 | Stripping `{name}.{ext}` gives back `name` when the extension has no slash or dot |
| ImageFlipGenerator.StripExtensionNoDot | src/components/image-flip-generator/index.tsx:496-499 | A name without a dot is kept as it is |
| ImageFlipGenerator.ResolvedSource | src/components/image-flip-generator/index.tsx:467-477 | An already absolute download source is kept as given (the source's `toString()` normalization is not modelled) |
| ImageFlipGenerator.DownloadSource | src/components/image-flip-generator/index.tsx:465-466 | The download source is never empty |
| ImageFlipGenerator.BaseName | src/components/image-flip-generator/index.tsx:496-499 | The base of the download name is never empty |
| ImageFlipGenerator.Extension | src/components/image-flip-generator/index.tsx:501-504 | The extension of the download name is always a non-empty extension |
| ImageFlipGenerator.NameOfFile | src/components/image-flip-generator/index.tsx:478-510 | A chosen file `{name}.{ext}` downloads as `{name}_{flipType}_flip.{ext}` after a flip and as itself before one, whatever the URL |
| ImageFlipGenerator.NameWithoutFile | src/components/image-flip-generator/index.tsx:484-510 | Without a chosen file the name is the URL's last segment `{name}.{ext}`, or `image.png` when there is none |
| ImageFlipGenerator.NameHasExtension | src/components/image-flip-generator/index.tsx:478-510 | Every download name is a non-empty base, a dot and a non-empty extension |
| ImageFlipGenerator.NameDefaultsToPng | src/components/image-flip-generator/index.tsx:501-504 | When neither name yields an extension the download name ends in `.png` |
| ImageText.InsufficientMessageNamesBoth | src/app/api/image-text/route.ts:36 | the refusal names both the cost and the balance |
| ImageText.TextOf | src/app/api/image-text/route.ts:52-79 | the fixed text in mock mode; an array output joined with no separator; another value as its string; a thrown or falsy run gives no text |
| ImageText.Post | src/app/api/image-text/route.ts:13-102 | the route's reply and new backend state are exactly those of the specification `PostSpec` |
| ImageText.PostGates | src/app/api/image-text/route.ts:19-37 | a missing URL, a missing session and too few credits answer before the model is called, the last with both numbers |
| ImageText.PostSucceeds | src/app/api/image-text/route.ts:39-97 | on success the reply carries the text, the batch id and the time, and the user is charged once; the only other effect is the model call |
| ImageText.ChargedIffSucceeded | src/app/api/image-text/route.ts:84-101 | the user is charged exactly when the reply is a success, and once; nothing is stored or recorded |
| ImageText.PostMessages | src/app/api/image-text/route.ts:21 | every error is one of the route's four messages (see also lines 27, 36, 100) |
| ImageTranslator.Translator.constructor | src/components/image-translator/index.tsx:23-31 | the component starts translating from "en" to "zh" with no file, URL, preview or result and not processing |
| ImageTranslator.Translator.HandleSwap | src/components/image-translator/index.tsx:36-39 | the two languages change places (the `Swap` of the old pair) and nothing else changes |
| ImageTranslator.Translator.HandleFile | src/components/image-translator/index.tsx:41-63 | a refused type only shows the file check's message; a successful upload holds the name, URL and preview, clears the result and shows "Image uploaded."; a failed one shows its message and drops the name and URL but keeps the preview |
| ImageTranslator.Translator.OnStart | src/components/image-translator/index.tsx:80-119 | without an uploaded URL only the upload-first toast; otherwise one request naming both labels, then the fallback URL of a code-0 answer and the completion toast, or the failure toast with the result kept; processing is off afterwards |
| ImageTranslator.Translator.Reset | src/components/image-translator/index.tsx:121-126 | the name, URL, preview and result are dropped; the languages stay |
| ImageTranslator.Translator.HandleDownload | src/components/image-translator/index.tsx:128-154 | no result: nothing; a failed fetch: the failure toast and no download; otherwise the download is named by `DownloadName`; the state is unchanged |
| ImageTranslator.SwapInvolution | src/components/image-translator/index.tsx:36-39 | swapping twice restores the pair, and one swap exchanges the two languages |
| ImageTranslator.LanguageLabelCases | src/components/image-translator/index.tsx:33-34 | the label is that of the first entry with the value when it is non-empty, and the value itself when no entry has it |
| ImageTranslator.ResultUrlFallback | src/components/image-translator/index.tsx:107-110 | the result is the first outfit's URL, else `translated_image_url`, and is null iff both are missing or empty; a result held is never empty |
| ImageTranslator.UploadRechecksSameTypes | src/components/image-translator/index.tsx:42-49 | once the component's own check passes, the upload does not refuse the type: a read failure is its error, otherwise the file is read and posted with category "base" |
| ImageTranslator.ExtensionCases | src/components/image-translator/index.tsx:139-142 | a blob type with a slash gives the text between the first and second slash, one without gives "png", and the result never holds a slash |
| ImageTranslator.WebpExtension | src/components/image-translator/index.tsx:139-142 | "image/webp" gives "webp" |
| ImageTranslator.DownloadNameCases | src/components/image-translator/index.tsx:143-145 | a non-empty file name gives `translated-{name}`, otherwise `translated-image.{extension}`; the name always starts with "translated-" |
| InvertGenerator.Generator.constructor | src/components/invert-generator/index.tsx:28-36 | the component starts with no image, not uploading or generating, 0 credits and a cost of 5 |
| InvertGenerator.Generator.Mount | src/components/invert-generator/index.tsx:39-64 | the credits become `left_credits \|\| 0` only for an answer with code 0, and the cost becomes `parseInt(env \|\| "5")`; nothing else changes |
| InvertGenerator.Generator.HandleFileSelect | src/components/invert-generator/index.tsx:67-92 | a file is accepted exactly when it passes the type-then-size check; a refused file only adds its toast; an accepted one only starts the upload |
| InvertGenerator.Generator.OnRead | src/components/invert-generator/index.tsx:96-132 | a successful upload holds the file, preview and URL; a failed one shows the sign-in hint or the message and drops image, preview and URL; either way uploading ends |
| InvertGenerator.Generator.OnReadError | src/components/invert-generator/index.tsx:133-143 | a read error shows "Failed to read file" and drops the image, preview and URL |
| InvertGenerator.Generator.HandleDeleteImage | src/components/invert-generator/index.tsx:176-184 | deleting drops image, preview and URL and ends uploading; credits, cost and flags stay |
| InvertGenerator.Generator.HandleGenerate | src/components/invert-generator/index.tsx:187-265 | without an image: only the no-image toast, no refresh; with the latest credits below the cost: only those credits stored and one toast, no request; otherwise one request with the held URL and the fixed description, followed by the answer's outcome |
| InvertGenerator.Generator.Send | src/components/invert-generator/index.tsx:233-264 | one request is logged; code 0 shows the success toast and leaves generating set for the reload; any other answer shows the failure toast and clears the flag |
| InvertGenerator.FileErrorOrder | src/components/invert-generator/index.tsx:73-90 | a file passes iff its type is one of the four and it is at most 10 MB; a bad type is reported before the size |
| InvertGenerator.LatestCases | src/components/invert-generator/index.tsx:198-222 | the refresh yields `left_credits \|\| 0` for code 0, and the cached credits after a failure or another code |
| InvertGenerator.DefaultCost | src/components/invert-generator/index.tsx:60-62 | without the environment variable the cost is 5 |
| InvertGenerator.NaNCostAdmitsAll | src/components/invert-generator/index.tsx:60-62 | a variable without leading digits gives NaN, and the gate then lets every balance through (see also lines 223) |
| InvertGenerator.GateIff | src/components/invert-generator/index.tsx:223 | with a numeric cost the gate refuses exactly the balances below it |
| InvertGenerator.AnswerToasts | src/components/invert-generator/index.tsx:247-264 | a non-OK or thrown answer fails; the page reloads exactly when the success toast is shown |
| InvertGenerator.UploadToastCases | src/components/invert-generator/index.tsx:118-123 | an upload error mentioning "authenticated" in any case shows the sign-in hint, any other shows its own message |
| InvertImage.DescriptionOf | src/app/api/invert-image/route.ts:21 | the description defaults to "Inverted image" only when absent; an empty string is kept |
| InvertImage.Post | src/app/api/invert-image/route.ts:19-110 | the route's reply and the new backend state are exactly those of the specification `PostSpec` |
| InvertImage.PostGates | src/app/api/invert-image/route.ts:28-45 | a missing or non-string URL, a missing user and a balance below the cost each answer with their own error and leave the state untouched, before any fetch |
| InvertImage.InvertMessages | src/app/api/invert-image/route.ts:51-109 | past the gates the only errors are "Failed to fetch base image" and "invert image fail" |
| InvertImage.PostMessages | src/app/api/invert-image/route.ts:30 | every error the route answers with is one of the five messages it writes (see also lines 35, 44, 57, 108) |
| InvertImage.FetchFailureNeverCharges | src/app/api/invert-image/route.ts:51-58 | a failed download answers "Failed to fetch base image" with only the fetch recorded: no charge, no object, no record |
| InvertImage.PostSucceeds | src/app/api/invert-image/route.ts:47-105 | when every step succeeds: one record whose uuid is the batch id, the negated image stored as `gen/{batch}_invert.png` with type image/png, and one debit of the cost |
| InvertImage.InsertFailureStillCharges | src/app/api/invert-image/route.ts:80-96 | the debit comes before the insert, so a failing insert answers the catch-all error with the user charged and no record |
| InvertImage.PostChargesIff | src/app/api/invert-image/route.ts:38-84 | the user is charged exactly when the gates pass and the fetch, decoding, upload and debit go through, and at most once |
| InvertImage.DataMeansRecordedAndCharged | src/app/api/invert-image/route.ts:80-105 | a data reply always carries exactly one outfit, with the batch uuid, stored as a new record, and exactly one new credit transaction |
| LandingTheme.StripChangesNoSegment | src/components/theme/landing-theme.tsx:15-16 | dropping one trailing `/` changes no segment |
| LandingTheme.LandingIff | src/components/theme/landing-theme.tsx:13-25 | a path is a landing path exactly when its segments are none, a locale alone, a locale then `posts`, or `posts` first when `posts` is not itself a locale |
| LandingTheme.NoPathIsNotLanding | src/components/theme/landing-theme.tsx:14 | a missing or empty path is not a landing path |
| LandingTheme.TrailingSlashIrrelevant | src/components/theme/landing-theme.tsx:15 | a trailing slash never changes the answer |
| LandingTheme.ClassesOnlyOnLanding | src/components/theme/landing-theme.tsx:31-36 | the theme classes and the caller's class name are applied only on landing paths, `landing-raphael dark` first |
| LayerDownload.ImagesOf | src/app/api/qwen-image-layered/download-zip/route.ts:40 | a body without an `images` array gives no entries |
| LayerDownload.BaseNameOf | src/app/api/qwen-image-layered/download-zip/route.ts:41-43 | the base name is the body's `baseName` exactly when that is a non-empty string, and `qwen-image-layered` otherwise; it is never empty |
| LayerDownload.OutcomeOf | src/app/api/qwen-image-layered/download-zip/route.ts:53-64 | an entry without a string http(s) URL is skipped; otherwise the fetch throws, answers not-`ok` (skipped), or is received with its header and bytes, and nothing else |
| LayerDownload.FetchEntry | src/app/api/qwen-image-layered/download-zip/route.ts:53-65 | the loop body's fetch gives the outcome of entry `i` in the reference list of outcomes |
| LayerDownload.OutcomesOf | src/app/api/qwen-image-layered/download-zip/route.ts:52-74 | one outcome per entry, in the entries' order |
| LayerDownload.AcceptedFirst | src/app/api/qwen-image-layered/download-zip/route.ts:52-74 | the received entries among the first `n` are listed at most once each, in increasing position |
| LayerDownload.AcceptedFirstSound | src/app/api/qwen-image-layered/download-zip/route.ts:59-65 | every listed entry was received, with the header and bytes it lists |
| LayerDownload.AcceptedFirstComplete | src/app/api/qwen-image-layered/download-zip/route.ts:59-73 | every received entry among the first `n` is listed |
| LayerDownload.AcceptedNonEmptyIff | src/app/api/qwen-image-layered/download-zip/route.ts:73-76 | some entry is listed exactly when some entry was received, so the empty-result refusal of both download routes fires exactly when nothing was received |
| LayerDownload.AcceptedFirstPrefix | src/app/api/qwen-image-layered/download-zip/route.ts:52-74 | later entries only extend the list: what is listed for the first `m` entries is a prefix of what is listed for the first `n` |
| LayerDownload.AttachmentName | src/app/api/qwen-image-layered/download-zip/route.ts:81 | the attachment name is the sanitized base name followed by the suffix |
| LayerDownload.AttachmentDisposition | src/app/api/qwen-image-layered/download-zip/route.ts:17-25 | after sanitizing, the name holds only file-name characters, so both `Content-Disposition` parameters carry it unchanged, and it is never empty (see also lines 81-85) |
| LayerDownload.DefaultAttachmentName | src/app/api/qwen-image-layered/download-zip/route.ts:41-81 | without a usable base name the attachment is `qwen-image-layered` followed by the suffix |
| Ledger.DebitedCredits | src/app/api/gen-outfit/route.ts:325-329 | a debit lowers only the user's balance, by the cost, and depends on nothing but the balances |
| Ledger.DefaultCostIsFive | src/app/api/gen-outfit/route.ts:164-166 | with no cost setting the cost is 5 |
| Ledger.Backend.constructor | src/app/api/gen-outfit/route.ts:118 | a backend starts in the given state |
| Ledger.Backend.Debit | src/app/api/gen-outfit/route.ts:325-329 | `decreaseCredits` changes the state as `Debited` says |
| Ledger.Backend.Credit | src/services/user.ts:31-36 | `increaseCredits` changes the state as `Credited` says |
| Ledger.Backend.Store | src/app/api/upload-image/route.ts:39-44 | an upload changes the state as `Stored` says |
| Ledger.Backend.Insert | src/app/api/gen-outfit/route.ts:320 | `insertOutfit` changes the state as `Inserted` says |
| Ledger.Backend.InsertWallpapers | src/app/api/gen-wallpaper/route.ts:73 | `insertWallpapers` changes the state as `WallpapersInserted` says |
| Ledger.Backend.Call | src/app/api/gen-outfit/route.ts:247-257 | a provider call is appended to the calls |
| Ledger.Backend.InsertUser | src/services/user.ts:28 | `insertUser` changes the state as `UserInserted` says |
| Ledger.Backend.UpdateOrder | src/app/api/pay/callback/creem/route.ts:52 | `updateOrder` changes the state as `OrderUpdated` says |
| Ledger.RecordsBetween | src/app/api/gen-outfit/route.ts:295-322 | one record per output between `k` and `j`, in order |
| Ledger.MaterializeLoop | src/app/api/gen-outfit/route.ts:295-329 | the generation loop's result and new state are exactly those of the specification `Materialize` |
| Ledger.MaterializeSucceeds | src/app/api/gen-outfit/route.ts:295-322 | a loop with no fault appends every output's record, in order, and leaves every output's key present in storage (what each holds is `Ledger.MaterializeStores`) |
| Ledger.MaterializeStores | src/app/api/gen-outfit/route.ts:295-308 | with distinct keys, a loop with no fault leaves under key `i` the download of output `i` with the job's content type and public URL, and every other key keeps its object or stays absent |
| Ledger.MaterializeChargesOnce | src/app/api/gen-outfit/route.ts:325-329 | a successful loop charges the user exactly once, after the last record |
| Ledger.MaterializeKeepsObjects | src/app/api/gen-outfit/route.ts:303-308 | an object once stored is never removed by the rest of the loop |
| Ledger.MaterializeFailureNeverCharges | src/app/api/gen-outfit/route.ts:295-340 | a thrown step leaves credits and transactions alone; the records inserted before it stay and are a prefix of the job's records |
| Ledger.MaterializeFrame | src/app/api/gen-outfit/route.ts:295-329 | the loop changes only objects, records, credits and transactions |
| Ledger.MaterializeSomeIsUnfaulted | src/app/api/gen-outfit/route.ts:295-329 | the loop succeeds only when no transfer, insert or charge threw |
| Ledger.MaterializeCommits | src/app/api/gen-outfit/route.ts:292-336 | a successful job replies with every record in order, appended, with every key present and one charge; calls, wallpapers, users and orders do not change; with distinct keys, key `i` holds output `i`'s download with the job's content type and no other object changes |
| NanoBananaCreations.Search | src/components/nano-banana-pro/my-creations.tsx:39-44 | The search never lengthens the list |
| NanoBananaCreations.Limit | src/components/nano-banana-pro/my-creations.tsx:46-49 | With `maxItems > 0` the first `min(maxItems, length)` entries, otherwise the whole list; always a prefix |
| NanoBananaCreations.Underscored | src/components/nano-banana-pro/my-creations.tsx:66 | Every character outside letters, digits and CJK ideographs becomes `_`; the length is kept |
| NanoBananaCreations.Gallery.constructor | src/components/nano-banana-pro/my-creations.tsx:23-24 | The gallery starts with the creations passed in, or none, and an empty search term |
| NanoBananaCreations.Gallery.Load | src/components/nano-banana-pro/my-creations.tsx:28-33 | Without creations passed in the list is read from storage; otherwise it is kept |
| NanoBananaCreations.Gallery.SetSearchTerm | src/components/nano-banana-pro/my-creations.tsx:100 | Typing sets the term and keeps the list |
| NanoBananaCreations.Gallery.HandleDelete | src/components/nano-banana-pro/my-creations.tsx:54-63 | The entries with that id are removed from the list held and from storage as `deleteCreation` does |
| Strings.TrimUnicodeSpace | src/components/nano-banana-pro/my-creations.tsx:39 | `trim` strips non-breaking and ideographic spaces, the byte order mark and the line separator, not only ASCII white space |
| NanoBananaCreations.BlankShowsAll | src/components/nano-banana-pro/my-creations.tsx:36-52 | A blank term shows every creation up to the limit, all of them without one |
| NanoBananaCreations.SearchMembers | src/components/nano-banana-pro/my-creations.tsx:39-44 | An entry is found exactly when it is listed and its prompt or model contains the lowercased term |
| NanoBananaCreations.SearchAppend | src/components/nano-banana-pro/my-creations.tsx:39-44 | The search keeps the order of the list: it distributes over concatenation |
| NanoBananaCreations.SearchShown | src/components/nano-banana-pro/my-creations.tsx:36-52 | A non-blank term shows a prefix of the matches, at most `maxItems` of them when it is positive, and nothing that does not match |
| NanoBananaCreations.UntrimmedTermMisses | src/components/nano-banana-pro/my-creations.tsx:39-43 | The term is trimmed only for the blank test: `" cat"` does not find a creation whose prompt is `cat` |
| NanoBananaCreations.DeletedNotShown | src/components/nano-banana-pro/my-creations.tsx:54-57 | After a delete no entry of that id is shown, whatever the term and limit |
| NanoBananaCreations.DownloadFilenameShape | src/components/nano-banana-pro/my-creations.tsx:65-66 | The download name is the first 30 prompt characters with every other character turned into `_`, then `_{id}.png` |
| NanoBananaPro.Lookup | src/components/nano-banana-pro/index.tsx:181-185 | `find` by label gives the value of the first entry with that label, or the default when no entry has it |
| NanoBananaPro.NextSlideOf | src/components/nano-banana-pro/index.tsx:67-69 | The next slide is always one of the four carousel slides |
| NanoBananaPro.PrevSlideOf | src/components/nano-banana-pro/index.tsx:71-73 | The previous slide is always one of the four carousel slides |
| NanoBananaPro.Outcomes | src/components/nano-banana-pro/index.tsx:100-140 | Each file of the batch has its own outcome, in order |
| NanoBananaPro.Studio.constructor | src/components/nano-banana-pro/index.tsx:43-61 | The studio starts with mode, aspect ratio and resolution from the saved preferences, an empty prompt, PNG, no references, no result and slide 0 |
| NanoBananaPro.Studio.NextSlide | src/components/nano-banana-pro/index.tsx:67-69 | The carousel moves to the next slide and nothing else changes |
| NanoBananaPro.Studio.PrevSlide | src/components/nano-banana-pro/index.tsx:71-73 | The carousel moves to the previous slide and nothing else changes |
| NanoBananaPro.Studio.SavePreferences | src/components/nano-banana-pro/index.tsx:83-90 | The current aspect ratio, resolution and mode are written to the preferences in a browser when the write succeeds; otherwise storage is unchanged |
| NanoBananaPro.Studio.SetMode | src/components/nano-banana-pro/index.tsx:253-273 | Only the mode changes, and the preferences are saved with it |
| NanoBananaPro.Studio.SetAspectRatio | src/components/nano-banana-pro/index.tsx:383 | Only the aspect-ratio label changes, and the preferences are saved with it |
| NanoBananaPro.Studio.SetResolution | src/components/nano-banana-pro/index.tsx:406 | Only the resolution changes, and the preferences are saved with it |
| NanoBananaPro.Studio.SetPrompt | src/components/nano-banana-pro/index.tsx:365 | Only the prompt changes |
| NanoBananaPro.Studio.SetOutputFormat | src/components/nano-banana-pro/index.tsx:427 | Only the output format changes |
| NanoBananaPro.Studio.ProcessFile | src/components/nano-banana-pro/index.tsx:101-139 | One file at its slot: its outcome is computed, and the references change only as that outcome says |
| NanoBananaPro.Studio.HandleFileChange | src/components/nano-banana-pro/index.tsx:93-146 | The first `8 - held` files are handled in order at slots `held + i` and the references become the result of their outcomes; the limit and the alignment of images and URLs are kept; nothing else changes |
| NanoBananaPro.Studio.RemoveImage | src/components/nano-banana-pro/index.tsx:148-156 | The position is removed from both lists and its error mark dropped; nothing else changes |
| NanoBananaPro.Studio.ClearImages | src/components/nano-banana-pro/index.tsx:158-162 | Both lists and the error marks are emptied; nothing else changes |
| NanoBananaPro.Studio.Generate | src/components/nano-banana-pro/index.tsx:175-235 | One request is sent; a success becomes the result and is saved as a creation; a failure shows its message; generating ends in both cases |
| NanoBananaPro.Studio.HandleGenerate | src/components/nano-banana-pro/index.tsx:164-236 | A refused generation changes nothing; otherwise exactly one request is sent and the result or error follows the answer |
| NanoBananaPro.AspectValueRange | src/components/nano-banana-pro/constants.ts:7-19 | Every aspect ratio sent is one the API accepts, and an unknown label is sent as `1:1` |
| NanoBananaPro.LookupAt | src/components/nano-banana-pro/index.tsx:181 | The entry found is the first with that label |
| NanoBananaPro.AutoIsSquare | src/components/nano-banana-pro/constants.ts:8 | `Auto` is sent as `1:1` |
| NanoBananaPro.FourFiveIsPortrait | src/components/nano-banana-pro/constants.ts:14 | `4:5` is sent as `3:4` |
| NanoBananaPro.UltraWideIsWide | src/components/nano-banana-pro/constants.ts:18 | `21:9` is sent as `16:9` |
| NanoBananaPro.ResolutionValues | src/components/nano-banana-pro/index.tsx:184-185 | The resolution sent is the label itself for `1K`, `2K` and `4K`, and `2K` for anything else |
| NanoBananaPro.SlidesCycle | src/components/nano-banana-pro/index.tsx:67-73 | Next and previous undo each other, and four steps return to the same slide |
| NanoBananaPro.OutcomeCases | src/components/nano-banana-pro/index.tsx:104-139 | Over 10 MiB a file is refused for size, then for a type other than JPEG, PNG or WebP; an accepted file passes the upload helper's check, is read and posted under `nano-banana-pro`; code 0 adds the returned URL and the data URL; any other answer or a failed read fails with its message |
| NanoBananaPro.RequestShape | src/components/nano-banana-pro/index.tsx:164-197 | A generation goes ahead exactly when the prompt is not blank and image-to-image mode holds a reference; the request carries the prompt, the API aspect ratio and resolution, and the first reference URL exactly in image-to-image mode |
| NanoBananaPro.GeneratedCases | src/components/nano-banana-pro/index.tsx:207-222 | Code 0 with an outfit gives a creation with the outfit's id, image, description and time, the API aspect ratio, the `nano-banana-pro` model and the mode; another code shows the server's message or the generic failure |
| NanoBananaPro.GeneratedIsListed | src/components/nano-banana-pro/index.tsx:224-225 | A generated image saved in a browser heads the creations list read back |
| NanoBananaPro.PreferencesPersist | src/components/nano-banana-pro/index.tsx:44-50 | Preferences written in a browser are what the next studio starts with |
| NanoBananaPro.DownloadNames | src/components/nano-banana-pro/index.tsx:238-240 | The download is named `nano-banana-{now}.png` or `.jpg` after the chosen format, and the link's name is the same |
| NanoBananaUtils.TooLargeFromConfig | src/components/nano-banana-pro/utils.ts:24 | The size message names the limit in MiB, computed from the 10 MiB limit of src/components/nano-banana-pro/constants.ts:35 |
| NanoBananaUtils.ValidateFile | src/components/nano-banana-pro/utils.ts:19-37 | A validation is valid exactly when it carries no error |
| NanoBananaUtils.ValidateFileCases | src/components/nano-banana-pro/utils.ts:19-37 | Over 10 MiB is refused for size whatever the format; within the limit only a type other than JPEG, PNG or WebP is refused; a file passes exactly when both hold |
| NanoBananaUtils.LocalStorage.constructor | src/components/nano-banana-pro/utils.ts:49 | The storage starts with the given items and browser flag |
| NanoBananaUtils.LocalStorage.SetItem | src/components/nano-banana-pro/utils.ts:69 | A successful write sets exactly that key; a refused write changes nothing |
| NanoBananaUtils.MyCreations | src/components/nano-banana-pro/utils.ts:42-55 | Outside a browser, or with nothing stored, the list is empty |
| NanoBananaUtils.WithoutId | src/components/nano-banana-pro/utils.ts:86 | Filtering by id never lengthens the list |
| NanoBananaUtils.SaveCreation | src/components/nano-banana-pro/utils.ts:60-73 | The stored items become those of a save: the new creation in front of the list read before, or unchanged outside a browser or on a failed write |
| NanoBananaUtils.DeleteCreation | src/components/nano-banana-pro/utils.ts:78-91 | The stored items become those of a delete: the list read before without that id, or unchanged outside a browser or on a failed write |
| NanoBananaUtils.UserPreferences | src/components/nano-banana-pro/utils.ts:96-121 | Outside a browser, or with nothing stored, the preferences are `{Auto, 1K, IMAGE_TO_IMAGE}` |
| NanoBananaUtils.SaveUserPreferences | src/components/nano-banana-pro/utils.ts:126-137 | A successful write in a browser stores the serialised preferences under their key; otherwise nothing changes |
| NanoBananaUtils.KeysDiffer | src/components/nano-banana-pro/constants.ts:42-45 | The creations key and the preferences key differ |
| NanoBananaUtils.SaveThenRead | src/components/nano-banana-pro/utils.ts:60-73 | After a successful save, reading gives the new creation followed by the list read before, and the preferences are unaffected |
| NanoBananaUtils.DeleteThenRead | src/components/nano-banana-pro/utils.ts:78-91 | After a successful delete, reading gives the list read before without the entries of that id |
| NanoBananaUtils.FailedWritesChangeNothing | src/components/nano-banana-pro/utils.ts:60-91 | A save or delete outside a browser or with a failed write leaves the storage unchanged |
| NanoBananaUtils.WithoutIdMembers | src/components/nano-banana-pro/utils.ts:86 | An entry survives the filter exactly when it was listed and its id differs |
| NanoBananaUtils.WithoutIdAppend | src/components/nano-banana-pro/utils.ts:86 | The filter keeps the order: it distributes over concatenation |
| NanoBananaUtils.WithoutAbsentId | src/components/nano-banana-pro/utils.ts:86 | An id no entry carries leaves the list as it is |
| NanoBananaUtils.PreferencesRead | src/components/nano-banana-pro/utils.ts:96-137 | The defaults come back outside a browser, without a stored value or with an unparsable one; saved preferences read back as saved |
| NanoBananaUtils.DownloadImage | src/components/nano-banana-pro/utils.ts:142-161 | A download link is made exactly in a browser |
| NanoBananaUtils.DownloadImageTargets | src/components/nano-banana-pro/utils.ts:149-154 | The link asks the download proxy for `url` under the given name, or `nano-banana-{now}.png` without one, and the anchor's name is the same |
| PostsSlugs.LimitOf | src/app/api/posts/slugs/route.ts:8-10 | the limit handed to the query is always positive |
| PostsSlugs.SlugsOf | src/app/api/posts/slugs/route.ts:13-15 | no more slugs than posts, and none empty |
| PostsSlugs.LimitCases | src/app/api/posts/slugs/route.ts:8-10 | an absent or empty `limit`, one that does not parse and one not positive all give 50; a positive decimal limit is used as parsed |
| PostsSlugs.SlugsOfAppend | src/app/api/posts/slugs/route.ts:13-15 | the slugs keep the posts' order |
| PostsSlugs.SlugsOfMembers | src/app/api/posts/slugs/route.ts:13-15 | a string is listed exactly when it is the non-empty slug of some post |
| PostsSlugs.GetAnswers | src/app/api/posts/slugs/route.ts:4-22 | the query asks page 1 of the locale (`en` when absent or empty) with the resolved limit; a throw or a null result gives no slugs, otherwise exactly the posts' slugs |
| QwenLayeredStudio.Outcomes | src/components/qwen-image-layered/index.tsx:118-157 | one outcome per file taken, in order, each the outcome of that file alone |
| QwenLayeredStudio.LayersOf | src/components/qwen-image-layered/index.tsx:257-265 | one layer per outfit in the answer, in order, each the mapping of that outfit |
| QwenLayeredStudio.PackImages | src/components/qwen-image-layered/index.tsx:290-323 | one package entry per layer, in order, each carrying that layer's URL |
| QwenLayeredStudio.Studio.constructor | src/components/qwen-image-layered/index.tsx:55-73 | the form starts with its defaults (empty prompts, seed 0 drawn at random, guidance 4, 50 steps, normalisation and English captions on, WEBP, 4 layers), no reference, no result, no error, not generating or packaging |
| QwenLayeredStudio.Studio.HandleNumLayersChange | src/components/qwen-image-layered/index.tsx:185-193 | a number sets the layer count to its clamp into [2, 8]; NaN changes nothing; nothing else changes |
| QwenLayeredStudio.Studio.ProcessFile | src/components/qwen-image-layered/index.tsx:118-157 | one file's step: its outcome is that of the file check and upload, and only the reference slots change, as `StepRefs` says |
| QwenLayeredStudio.Studio.HandleFileChange | src/components/qwen-image-layered/index.tsx:111-164 | at most `1 - held` files are taken, the i-th at slot `held + i`, and the references become those after their outcomes in order; the one-slot bound is kept |
| QwenLayeredStudio.Studio.RemoveImage | src/components/qwen-image-layered/index.tsx:166-174 | the image and URL at the index and the error at that slot are removed in lockstep; nothing else changes |
| QwenLayeredStudio.Studio.HandleExampleSelect | src/components/qwen-image-layered/index.tsx:176-183 | the example becomes the only reference, its URL resolved against the origin, with no upload state and no error |
| QwenLayeredStudio.Studio.Send | src/components/qwen-image-layered/index.tsx:205-245 | one request built from the old form and the first reference URL is logged, a drawn seed is shown in the form, results and error are cleared and generating is set; the description returned is the trimmed prompt or "auto" |
| QwenLayeredStudio.Studio.Receive | src/components/qwen-image-layered/index.tsx:247-280 | the results and error are those of the answer, the layers are saved in order, and generating ends |
| QwenLayeredStudio.Studio.HandleGenerate | src/components/qwen-image-layered/index.tsx:195-281 | the refusal is that of `Refusal`: sign-in first, then a missing reference, both changing nothing; otherwise one request from the old form and the layers or error of the answer, with generating off afterwards |
| QwenLayeredStudio.Studio.HandleDownloadPackage | src/components/qwen-image-layered/index.tsx:287-346 | without layers or while packaging: nothing sent, no download; otherwise one package request for the layers and format, a download named `qwen-image-layered-{now}` with the package's extension exactly when the answer is OK, and packaging off afterwards |
| QwenLayeredStudio.ClampRange | src/components/qwen-image-layered/index.tsx:185-187 | the clamped count is in [2, 8], equals the value inside that range, and is the nearest bound outside it |
| QwenLayeredStudio.OneReferenceAtMost | src/components/qwen-image-layered/index.tsx:113-116 | with no image held only the first file is taken; with one held none is |
| QwenLayeredStudio.OutcomeCases | src/components/qwen-image-layered/index.tsx:122-151 | a file that fails the file check is marked with its message and never uploaded; one that passes is posted under category qwen-image-layered and added when the answer's code is 0; a type outside jpeg, png, webp fails the upload's own check |
| QwenLayeredStudio.RefusalOrder | src/components/qwen-image-layered/index.tsx:196-204 | a visitor who must sign in is redirected before the reference check; otherwise generation goes ahead iff a reference URL is held |
| QwenLayeredStudio.RequestShape | src/components/qwen-image-layered/index.tsx:209-238 | the request carries the first reference URL, the trimmed prompt or "auto", a lower-case format, the caption language en or zh, the drawn or given seed, and a negative prompt iff its trimmed text is non-empty |
| QwenLayeredStudio.FormatExtensions | src/components/qwen-image-layered/index.tsx:226 | the extension used for the format is its name in lower case (see also lines 284, 321) |
| QwenLayeredStudio.GeneratedCases | src/components/qwen-image-layered/index.tsx:249-265 | a code other than 0 fails with its message or the fallback, an answer without outfits fails with the fallback; otherwise one layer per outfit, in order, with its id, image, description or the description sent, and aspect 1:1 |
| QwenLayeredStudio.ZipNamesDistinct | src/components/qwen-image-layered/index.tsx:320-323 | the ZIP entry names are layer-1, layer-2, ... with the format's extension, so no two collide |
| QwenLayeredStudio.PptxNamesArePrompts | src/components/qwen-image-layered/index.tsx:290 | the slides carry each layer's URL and are named after its prompt, in order |
| R2.ClientFor | src/lib/r2.ts:15-29 | a client exists exactly when endpoint, bucket and both keys are set; the endpoint and bucket are checked first, each check with its own message; the region defaults to `auto` |
| R2.PublicUrlCases | src/lib/r2.ts:31-39 | the public URL is under the domain when set, else under the endpoint without its trailing slash and the bucket, else the bare key; it always ends with the key |
| R2.PresignPut | src/lib/r2.ts:41-72 | presigning fails exactly when the client cannot be made, with the same message; a success names the key's public URL |
| R2.PresignSigns | src/lib/r2.ts:50-66 | the signed request is a `PUT` of `{endpoint}/{bucket}/{key}` with the content type, and 300 seconds unless told otherwise |
| R2PresignRoute.KeyOf | src/app/api/r2-presign/route.ts:12 | the key is `{prefix}/{uuid}_base.png`, with prefix `upload` by default, whatever the content type |
| R2PresignRoute.PostReply | src/app/api/r2-presign/route.ts:8-24 | a configured storage gives the key, an upload URL signed for a `PUT` of it with the type (`image/png` by default) for 300 seconds, and its public URL; otherwise "r2 presign failed" |
| RecognizeFontRoute.Post | src/app/api/recognize-font/route.ts:12-75 | the route's reply and new backend state are exactly those of the specification `PostSpec` |
| RecognizeFontRoute.PostGates | src/app/api/recognize-font/route.ts:19-38 | a missing image, a missing user and too few credits answer in that order, before the token is looked at, and change nothing |
| RecognizeFontRoute.UnconfiguredNeverCharges | src/app/api/recognize-font/route.ts:41-45 | a missing or empty token answers "Font recognition service not configured" without calling the model or charging |
| RecognizeFontRoute.PostSucceeds | src/app/api/recognize-font/route.ts:48-67 | a resolved run answers with the detected font, confidence and similar fonts, and the user is charged once |
| RecognizeFontRoute.RunFailurePassesThrough | src/app/api/recognize-font/route.ts:51-74 | a run that throws or times out passes its message through, without a charge |
| RecognizeFontRoute.ChargedIffSucceeded | src/app/api/recognize-font/route.ts:55-67 | the user is charged exactly when the reply is a success, and once; nothing is stored or recorded |
| RecognizeTextRoute.Post | src/app/api/recognize-text/route.ts:17-96 | the route's response and new backend state are exactly those of the specification `PostSpec` |
| RecognizeTextRoute.PostGates | src/app/api/recognize-text/route.ts:22-57 | a missing image (400), a missing session (401) and too few credits (403) answer with that status, the same code in the body, and change nothing |
| RecognizeTextRoute.StatusMatchesCode | src/app/api/recognize-text/route.ts:22-95 | every answer is a success (status 200, code 0, with results) or a failure whose body code equals its status, one of 400, 401, 403 and 500, without results |
| RecognizeTextRoute.PostFollowsOcr | src/app/api/recognize-text/route.ts:61-83 | past the gates, the answer is the OCR client's: its results with one charge, or its error message as a 500 without a charge |
| RecognizeTextRoute.MissingCredentials | src/app/api/recognize-text/route.ts:61-95 | missing OCR credentials are a 500 with their message, before the OCR service is called |
| RecognizeTextRoute.ChargedIffSucceeded | src/app/api/recognize-text/route.ts:69-83 | the user is charged exactly when the answer is a success, and once; nothing is stored or recorded |
| ReferenceImages.ToProcess | src/components/nano-banana-pro/index.tsx:96-98 | At most `limit - held` files are taken, a prefix of the selection, and none when the studio is full |
| ReferenceImages.StepRefs | src/components/nano-banana-pro/index.tsx:104-139 | One file adds at most one image, and the image and URL lists stay the same length |
| ReferenceImages.Omit | src/components/nano-banana-pro/index.tsx:149-150 | Removing a position inside the list shortens it by one and shifts the later entries; a position past the end changes nothing |
| ReferenceImages.AddedOf | src/components/nano-banana-pro/index.tsx:126-127 | The successful uploads never outnumber the files |
| ReferenceImages.Bases | src/components/nano-banana-pro/index.tsx:126 | The data URLs of the uploads, one per upload in order |
| ReferenceImages.Urls | src/components/nano-banana-pro/index.tsx:127 | The stored URLs of the uploads, one per upload in order |
| ReferenceImages.UploadsLists | src/components/nano-banana-pro/index.tsx:100-140 | Successful uploads are appended to both lists in the order of the files, so each image sits with its URL; refused and failed files add nothing |
| ReferenceImages.UploadsErrors | src/components/nano-banana-pro/index.tsx:102-131 | File i's slot is `held + i`: it holds the refusal or upload message exactly when the file was not added; other slots keep their marks |
| ReferenceImages.UploadsStayAligned | src/components/nano-banana-pro/index.tsx:96-140 | With at most `limit - held` files the two lists stay aligned and within the limit |
| ReferenceImages.ErrorSlotIsNotImagePosition | src/components/nano-banana-pro/index.tsx:102 | Error marks are kept by slot and images shown by position: a failed first file and an added second leave the failure's mark at position 0, under the added image |
| ReferenceImages.RemovedStaysAligned | src/components/nano-banana-pro/index.tsx:148-156 | Removing a position takes it out of both lists so each image keeps its URL; a position past the end changes neither list; only that slot's error is dropped |
| ReplicateFont.ResponseText | src/lib/font-recognizer/ReplicateFontClient.ts:96-106 | a string output is used as is, an array joined with no separator, an object as its JSON; any other output gives no text |
| ReplicateFont.JsonCandidate | src/lib/font-recognizer/ReplicateFontClient.ts:109 | the candidate runs from the first `{` to the last `}`, which comes after it |
| ReplicateFont.JsonCandidateExists | src/lib/font-recognizer/ReplicateFontClient.ts:109-112 | there is a candidate exactly when some `{` comes before some `}` |
| ReplicateFont.PlusForSpace | src/lib/font-recognizer/ReplicateFontClient.ts:146-209 | each space of a font name becomes `+` and nothing else changes |
| ReplicateFont.DefaultFontsShape | src/lib/font-recognizer/ReplicateFontClient.ts:146-209 | ten sans-serif defaults in order, with non-increasing similarities, and each page is the specimen prefix and the name with `+` for spaces |
| ReplicateFont.Normalize | src/lib/font-recognizer/ReplicateFontClient.ts:124-129 | a font keeps its name; a falsy similarity becomes 0.8, a falsy category `sans-serif`, a falsy URL the specimen page of the encoded name |
| ReplicateFont.UsableAnswerKept | src/lib/font-recognizer/ReplicateFontClient.ts:114-130 | a usable answer keeps its detected font, its confidence (0.8 when falsy) and its similar fonts one for one in order, each normalized |
| ReplicateFont.FallbackCases | src/lib/font-recognizer/ReplicateFontClient.ts:93-141 | the fallback answers when the output has no usable type, no `{`…`}` span, does not parse, lacks a truthy `detectedFont` or an array `similarFonts`, or holds a null font |
| ReplicateFont.FallbackShape | src/lib/font-recognizer/ReplicateFontClient.ts:135-139 | the fallback says "Unable to identify font" with confidence 0.5 and the ten defaults |
| ReplicateFont.RecognizeFont | src/lib/font-recognizer/ReplicateFontClient.ts:37-88 | a resolved run always yields the parsed result; a throw or a timeout becomes an error starting with "Font recognition failed: " |
| UploadClient.ValidateImageFile | src/lib/upload.ts:16-28 | A refusal always carries the unsupported-type message |
| UploadClient.ValidateIff | src/lib/upload.ts:16-28 | Without options a file is accepted exactly when its type is one of the five defaults; an allow-list given replaces the defaults entirely; size never matters |
| UploadClient.RejectedBeforeEffects | src/lib/upload.ts:43-46 | A type that is not allowed is thrown before the file is read or anything is posted |
| UploadClient.UploadOutcome | src/lib/upload.ts:39-77 | An accepted file is read and posted once with its category, `image` by default; a code other than 0 throws the server's message or `Upload failed`; code 0 returns the server's URL together with the data URL sent |
| UploadImage.Payload | src/app/api/upload-image/route.ts:35 | there is a payload exactly when the data URL has a comma |
| UploadImage.PayloadAfterFirstComma | src/app/api/upload-image/route.ts:35 | the payload is what follows the first comma, up to the next one |
| UploadImage.PayloadBetweenCommas | src/app/api/upload-image/route.ts:35 | for `prefix,payload` (and `prefix,payload,rest`) the payload is exactly the piece after the first comma |
| UploadImage.KeyOf | src/app/api/upload-image/route.ts:36 | the key is `upload/{batch}_…` and always ends in `.png` |
| UploadImage.Post | src/app/api/upload-image/route.ts:9-60 | the route's reply and new backend state are exactly those of the specification `PostSpec` |
| UploadImage.PostGates | src/app/api/upload-image/route.ts:18-28 | a missing image is refused before the session is read, an anonymous caller next; neither changes anything |
| UploadImage.PostSucceeds | src/app/api/upload-image/route.ts:30-55 | the decoded payload is stored as a PNG under `upload/{batch}_{type or "image"}.png`, and the reply carries `STORAGE_DOMAIN/key`, the key and the batch id |
| UploadImage.FailureChangesNothing | src/app/api/upload-image/route.ts:18-59 | every failure is one of the three messages and leaves the state unchanged; credits, transactions and records never change |
| UserService.User.constructor | src/services/user.ts:12 | a user object holds the fields it was made with |
| UserService.SaveUser | src/services/user.ts:12-53 | the result, the backend and the caller's user object end as the specification `SaveUserSpec` says |
| UserService.MissingEmailThrows | src/services/user.ts:14-16 | a user without e-mail is refused and nothing changes |
| UserService.ExistingUserUnchanged | src/services/user.ts:18-46 | a known e-mail returns the stored user, grants nothing and leaves the caller's object alone |
| UserService.NewUserGranted | src/services/user.ts:20-40 | a new e-mail is stored under a uuid (a fresh one, written into the caller's object, when it had none) and granted the new-user credits once, valid for a year |
| UserService.GrantOnlyForNewUsers | src/services/user.ts:20-36 | at most one grant per call, and only for a user whose e-mail was unknown |
| WallpaperDownload.Headers.constructor | src/app/api/wallpaper/download/route.ts:56 | new headers are empty |
| WallpaperDownload.Headers.Set | src/app/api/wallpaper/download/route.ts:57-58 | `headers.set` replaces any earlier value of that name and changes nothing else |
| WallpaperDownload.Get | src/app/api/wallpaper/download/route.ts:7-71 | the proxy's reply is exactly that of the specification `GetSpec` |
| WallpaperDownload.LastSegmentIsLast | src/app/api/wallpaper/download/route.ts:47-48 | there is no path segment exactly when the path is only slashes; otherwise the segment found is the last run of characters other than `/` |
| WallpaperDownload.GetRefusals | src/app/api/wallpaper/download/route.ts:12-69 | a missing or empty `src` gives 400, an unparsable one 500 "Unable to download image", a non-http(s) one 400 "Only http/https sources are allowed" |
| WallpaperDownload.UpstreamStatus | src/app/api/wallpaper/download/route.ts:33-43 | an upstream failure passes its status on (502 for status 0); an `ok` upstream without a body gets the error message with status 200 |
| WallpaperDownload.StreamIff | src/app/api/wallpaper/download/route.ts:33-63 | the body is streamed exactly when `src` is http(s) and the fetch is `ok` with a body; it goes out untouched, with the upstream content type or `application/octet-stream` and only the two headers |
| WallpaperDownload.AttachmentName | src/app/api/wallpaper/download/route.ts:47-54 | the name is the `filename` parameter when non-empty, else the last path segment, else `wallpaper`; a double quote in it reaches the quoted parameter unescaped |
| WallpaperDownload.ParamHasNoAmpersand | src/components/nano-banana-pro/utils.ts:150 | a query parameter with a name free of `&` has no `&` |
| WallpaperDownload.EncodedHasNoDelimiters | src/components/nano-banana-pro/utils.ts:150 | an encoded component has no `&`, `=` or `?` |
| WallpaperDownload.DownloadLinkParams | src/components/nano-banana-pro/utils.ts:150 | every link the callers build is this route's path and exactly the two parameters `src` then `filename`, whatever the values |

## Left out

- Rendering: JSX, styling, toasts, router navigation and the scheduling of React effects are not modelled. A toast or a redirect appears only where it decides the outcome, as a refusal value.
- Network and provider I/O: `fetch`, the Replicate, Baidu and Gemini SDKs, request signing and the R2 transfers are inputs. The model fixes what each answer means, not how it is obtained. The same holds for the session, the uuid generator and `Date.now()`.
- Image processing: sharp's flop, flip, negate and WebP-to-PNG conversion, canvas drawing and cropping, JPEG compression, and the bytes JSZip and PptxGenJS produce are functions given as parameters. The crop box is computed; its pixels are not.
- Floating point: JavaScript numbers are exact reals (or NaN). Rounding, `toFixed` and the size messages that print MiB with one decimal are not reproduced bit for bit. `formatFileSize` (a logarithm), the click-coordinate scaling and the before-after slider are not modelled.
- Library semantics: `JSON.parse` and `JSON.stringify` are codec parameters. The URL parser is a simplified reading of the WHATWG parser: `Url.Resolve` joins a protocol-relative reference `//host/x` to the origin as a path instead of switching host, and gives a string for an origin the parser rejects (such as `null`), where `new URL` throws; and regular expressions are written out as the string functions they compute. Lower-casing is ASCII only.
- Strings are sequences of Unicode code points. JavaScript's `length`, `slice` and regular expressions without the `u` flag count UTF-16 code units instead, so a character outside the Basic Multilingual Plane counts twice in the source and once in the model. Lone surrogates, which a JavaScript string can hold, are not represented.
- NanoBananaCreations.DownloadFilenameShape: the 30-character cut and the `_` replacement count code points. For a prompt with characters outside the Basic Multilingual Plane the source keeps fewer characters and writes two `_` for each such character: the prompt `😀` with id `x` gives `___x.png` in the source and `__x.png` in the model. The same holds for `NanoBananaCreations.Underscored`.
- `encodeURIComponent` leaves `'()*!` unescaped. The `filename*` parameter it builds is therefore in the style of section 3.2 of RFC 8187, and strict compliance is not claimed.
- Concurrency and time: the credit check followed by the decrement is not atomic in the source. The model is sequential and claims nothing about concurrent requests. Also not modelled:
  - the `Promise.race` timeout of the font model (a timeout is one more failing answer);
  - `Promise.all` in the wallpaper route (uploads run in order here);
  - the carousel's five-second auto-advance;
  - the two-second "copied" flag and other `setTimeout` waits. The Baidu retry loop records its waits instead of sleeping.
- `retryAction` closures on error states are not stored: they only re-run a handler that is modelled.
- The file input, drop and keyboard wrappers (`handleFileChange`, `handleDrop`, `handleKeyboardUpload`) are not modelled: they only pass the first file to the selection handlers, which are.
- `formatTimestamp`, `fileToBase64`, `fileToPreviewUrl` and `getThemeColor` are not modelled: they are browser or `Intl` calls with no logic of their own.
- `ImageDescriber` `handleCopy` and `handleClearHistory` are not modelled: they only reach the clipboard and empty the list.
- `ImageCanvas` `drawCanvas` is not modelled: it only paints.
- The single-image download handlers of the studios (`handleDownload`) are modelled only through `NanoBananaUtils.DownloadImage`, which they call with a timestamped name.
- src/components/qwen-image-layered/utils.ts is not part of this model. Its `validateFile` is a parameter of `QwenLayeredStudio`.
- The routing configuration, the `CreditsAmount` constants and the message files are not part of this model either. `locales`, `defaultLocale`, the new-user credit amount, the translator's language list and the loaded messages are parameters.
- Routing: the layered studio posts its packaging requests to `/api/gen-outfit/download-pptx` and `/api/gen-outfit/download-zip`. The handlers modelled are those under `src/app/api/qwen-image-layered/`, so the model covers the handlers and not the routing between them.
- Request bodies: FlipImage, InvertImage, ImageText, GenOutfit, GenQwenImageLayered, GenWallpaper, UploadImage, R2PresignRoute, RecognizeTextRoute and RecognizeFontRoute take the parsed body as a JSON object with the field types of their `Request` datatypes or parameters. A body that is not JSON, or is `null`, throws inside each route's `try` and gets its catch-all reply; that path is not modelled. Fields typed `string` or `Option<string>` there cannot hold another JSON value: a numeric wallpaper description, a non-string `description` for the flip and invert routes, a non-string `imageType`, a non-string `image` for text recognition, or a `null` presign `prefix` (which gives the key `null/{uuid}_base.png`) are not represented.
- GenWallpaper.Post: a generation with no images calls `insertWallpapers([])`, which the ORM may refuse with a throw and so the catch-all "generate wallpaper fail"; the model treats the empty insert like any other and replies with the prompt and no wallpapers.
- ImageFlipGenerator.FlippedUrl: a truthy `flipped_image_url` that is not a string (a number, an object) is taken as is by the source; the model counts it a failure. The same holds for the image URL of `ImageExpander.ExpandResult`, which the model holds only as a string.
- The ORM, the authentication library and the logger are not modelled. Inserts, balance reads and decrements act on `Ledger.Backend`. A failing insert is an input.
- The credit decrement for a NaN cost leaves the balance unchanged, because the credit service's arithmetic is not part of this model.
- DownloadZip.UnnamedLayersAllKept: stated for fewer than 999999 images. The proof that sanitizing keeps a default name `layer-{i + 1}.{ext}` bounds its number to six digits, which keeps the name far below the 120-character cut; longer lists are not covered.
- DownloadZip.DefaultNameIsClean: stated for positions below 999999, for the same reason.
- DownloadZip.DefaultNamesDistinct: stated for positions below 999999, for the same reason.
