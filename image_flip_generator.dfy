/**
 * The image flip component. It holds one UI state record, a module-level
 * URL cache shared by uploads and flips (a JavaScript `Map`, whose keys keep
 * their insertion order), the upload of a chosen file, the flip request with
 * its credit gate, the trimming of the cache, and the name offered for the
 * download.
 */
module ImageFlipGenerator {

  import opened Wrappers
  import opened Strings
  import opened Js
  import opened Url
  import WallpaperDownload

  /** The cache is trimmed when it holds more than this many entries... */
  const CacheLimit := 50
  /** ...by deleting this many of its oldest keys. */
  const EvictCount := 25
  const DefaultPreview := "/preview.png"
  /** Files larger than this are compressed before they are read and uploaded. */
  const CompressAbove := 1024 * 1024
  /** The error text used when an upload throws something that is not an `Error`. */
  const UploadFallbackMessage := "Failed to upload image"

  // ---------------------------------------------------------------------------
  // The cache
  // ---------------------------------------------------------------------------

  /** No key occurs twice. */
  predicate Distinct(keys: seq<string>)
  {
    forall i, j :: 0 <= i < j < |keys| ==> keys[i] != keys[j]
  }

  /** `keys` without `key`, the others in their order. */
  function Without(keys: seq<string>, key: string): (r: seq<string>)
    ensures |r| <= |keys|
    ensures forall k :: k in r <==> k in keys && k != key
  {
    if keys == [] then []
    else if keys[0] == key then Without(keys[1..], key)
    else [keys[0]] + Without(keys[1..], key)
  }

  /** The key order after `map.set(key, …)`: a new key goes last, a known key keeps its place. */
  function Inserted(keys: seq<string>, key: string): (r: seq<string>)
    ensures key in r
    ensures forall k :: k in r <==> k in keys || k == key
  {
    if key in keys then keys else keys + [key]
  }

  lemma {:induction false} WithoutDistinct(keys: seq<string>, key: string)
    requires Distinct(keys)
    ensures Distinct(Without(keys, key))
  {
    if keys != [] {
      WithoutDistinct(keys[1..], key);
      if keys[0] != key {
        var rest := Without(keys[1..], key);
        var r := [keys[0]] + rest;
        forall i, j | 0 <= i < j < |r|
          ensures r[i] != r[j]
        {
          if i == 0 {
            assert r[j] == rest[j - 1];
            assert rest[j - 1] in keys[1..];
          } else {
            assert r[i] == rest[i - 1] && r[j] == rest[j - 1];
          }
        }
      }
    }
  }

  /** Removing a key that is absent changes nothing. */
  lemma {:induction false} WithoutAbsent(keys: seq<string>, key: string)
    requires key !in keys
    ensures Without(keys, key) == keys
  {
    if keys != [] {
      WithoutAbsent(keys[1..], key);
      assert keys == [keys[0]] + keys[1..];
    }
  }

  /** In a map whose keys are distinct, deleting the oldest key drops exactly the first of them. */
  lemma WithoutOldest(keys: seq<string>)
    requires keys != [] && Distinct(keys)
    ensures Without(keys, keys[0]) == keys[1..]
  {
    assert keys[0] !in keys[1..];
    WithoutAbsent(keys[1..], keys[0]);
  }

  lemma InsertedDistinct(keys: seq<string>, key: string)
    requires Distinct(keys)
    ensures Distinct(Inserted(keys, key))
  {
  }

  /** The module-level `imageCache`. */
  class ImageCache {
    /** The keys in insertion order. */
    var keys: seq<string>
    var values: map<string, string>

    ghost predicate Valid()
      reads this
    {
      Distinct(keys) && forall k :: k in values <==> k in keys
    }

    constructor ()
      ensures Valid() && keys == [] && values == map[]
    {
      keys, values := [], map[];
    }

    method Get(key: string) returns (r: Option<string>)
      ensures r.Some? <==> key in values
      ensures r.Some? ==> r.value == values[key]
    {
      r := if key in values then Some(values[key]) else None;
    }

    /** `map.set`: the value is replaced, and a new key goes last. */
    method Set(key: string, value: string)
      requires Valid()
      modifies this
      ensures Valid()
      ensures values == old(values)[key := value]
      ensures keys == Inserted(old(keys), key)
    {
      InsertedDistinct(keys, key);
      keys := Inserted(keys, key);
      values := values[key := value];
    }

    /** `map.delete`. */
    method Delete(key: string)
      requires Valid()
      modifies this
      ensures Valid()
      ensures values == old(values) - {key}
      ensures keys == Without(old(keys), key)
    {
      WithoutDistinct(keys, key);
      keys := Without(keys, key);
      values := values - {key};
    }

    /**
     * The size limit: above 50 entries the 25 oldest keys are deleted one
     * by one; the others keep their values and their order.
     */
    method Trim()
      requires Valid()
      modifies this
      ensures Valid()
      ensures |old(keys)| > CacheLimit ==> keys == old(keys)[EvictCount..]
      ensures |old(keys)| <= CacheLimit ==> keys == old(keys)
      ensures keys == Trimmed(old(keys))
      ensures |old(keys)| <= CacheLimit + EvictCount ==> |keys| <= CacheLimit
      ensures forall k :: k in values ==> k in old(values) && values[k] == old(values)[k]
    {
      TrimBound(keys);
      if |keys| > CacheLimit {
        var toDelete := keys[..EvictCount];
        for i := 0 to EvictCount
          invariant Valid()
          invariant keys == old(keys)[i..]
          invariant forall k :: k in values ==> k in old(values) && values[k] == old(values)[k]
        {
          assert toDelete[i] == keys[0];
          WithoutOldest(keys);
          Delete(toDelete[i]);
        }
      }
    }
  }

  /** The insertion order a trim leaves: above 50 keys the 25 oldest are dropped. */
  function Trimmed(keys: seq<string>): seq<string>
  {
    if |keys| > CacheLimit then keys[EvictCount..] else keys
  }

  /**
   * A trim keeps the newest keys in their order, drops exactly 25 of them
   * above the limit, and brings a cache of at most 75 entries down to at
   * most 50.
   */
  lemma TrimBound(keys: seq<string>)
    ensures Trimmed(keys) == keys[|keys| - |Trimmed(keys)|..]
    ensures |keys| > CacheLimit ==> |Trimmed(keys)| == |keys| - EvictCount
    ensures |keys| <= CacheLimit ==> Trimmed(keys) == keys
    ensures |keys| <= CacheLimit + EvictCount ==> |Trimmed(keys)| <= CacheLimit
  {
  }

  // ---------------------------------------------------------------------------
  // State
  // ---------------------------------------------------------------------------

  datatype FlipType = Horizontal | Vertical

  function FlipTypeName(t: FlipType): (r: string)
    ensures r != []
  {
    match t
    case Horizontal => "horizontal"
    case Vertical => "vertical"
  }

  /** A chosen file, as far as the component reads it. */
  datatype File = File(name: string, size: nat, mimeType: string, lastModified: nat)

  datatype ErrorType = Upload | Processing | Network | Auth

  /** An error shown to the user: its type, and the message and suggestion (translation keys, or the credits text). */
  datatype ErrorState = ErrorState(kind: ErrorType, message: string, suggestion: string)

  /** The configuration read from the environment; the numbers are `parseInt` results. */
  datatype FlipConfig = FlipConfig(
    maxFileSize: ParsedInt,
    supportedFormats: seq<string>,
    processingCost: ParsedInt,
    enableCreditsSystem: bool)

  datatype FlipState = FlipState(
    originalImage: Option<File>,
    previewImageUrl: Option<string>,
    uploadedImageUrl: Option<string>,
    flippedImageUrl: Option<string>,
    isUploading: bool,
    isProcessing: bool,
    flipType: Option<FlipType>,
    error: Option<ErrorState>,
    userCredits: ParsedInt)

  /** The state the component starts with. */
  const Initial := FlipState(None, Some(DefaultPreview), None, None, false, false, None, None, Int(0))

  /** `a < b` on two `parseInt` results. */
  predicate Below(a: ParsedInt, b: ParsedInt)
  {
    a.Int? && b.Int? && a.n < b.n
  }

  /** `a - b` on two `parseInt` results. */
  function Minus(a: ParsedInt, b: ParsedInt): (r: ParsedInt)
    ensures r.Int? <==> a.Int? && b.Int?
    ensures r.Int? ==> r.n == a.n - b.n
  {
    if a.Int? && b.Int? then Int(a.n - b.n) else NaN
  }

  /** An upload error message names authentication when it contains `authenticated`, in any case. */
  predicate IsAuthMessage(message: string)
  {
    Contains(Lower(message), "authenticated")
  }

  const InvalidFormatError := ErrorState(Upload, "errors.invalidFormat", "errors.formatSuggestion")
  const TooLargeError := ErrorState(Upload, "errors.fileTooLarge", "errors.sizeSuggestion")
  const ReadError := ErrorState(Upload, "errors.fileReadError", "errors.fileReadSuggestion")
  const AuthError := ErrorState(Auth, "errors.authRequired", "errors.authSuggestion")
  const UploadError := ErrorState(Network, "errors.uploadFailed", "errors.uploadSuggestion")
  const ProcessingError := ErrorState(Processing, "errors.processingFailed", "errors.processingSuggestion")

  /** A `parseInt` result as a template string prints it. */
  function NumberText(n: ParsedInt): string
  {
    if n.Int? then IntToString(n.n) else "NaN"
  }

  function CreditsError(cost: ParsedInt, credits: ParsedInt): ErrorState
  {
    ErrorState(Auth, "credits.insufficient",
      "You need " + NumberText(cost) + " credits but only have " + NumberText(credits) + ".")
  }

  /** A file's cache key: `{name}-{size}-{lastModified}`. */
  function FileKey(f: File): string
  {
    f.name + "-" + NatToString(f.size) + "-" + NatToString(f.lastModified)
  }

  /** A flip's cache key: `{base}-{flipType}`. */
  function FlipKey(base: string, t: FlipType): string
  {
    base + "-" + FlipTypeName(t)
  }

  /** `cache.get(key)` is truthy. */
  predicate CachedIn(values: map<string, string>, key: string)
  {
    key in values && values[key] != []
  }

  // ---------------------------------------------------------------------------
  // Choosing a file
  // ---------------------------------------------------------------------------

  /** What a file selection does: the new state, the cache entry it stores, and the file it uploads. */
  datatype SelectOutcome = SelectOutcome(state: FlipState, stored: Option<(string, string)>, uploaded: Option<File>)

  /**
   * The file selection. `compressed` is what compressing the file gives,
   * `read` the data URL the reader produces (`None` when it fails) and
   * `upload` the uploaded URL or the thrown message.
   */
  function SelectSpec(
    st: FlipState, values: map<string, string>, config: FlipConfig,
    file: File, compressed: File, read: Option<string>, upload: Result<string>): SelectOutcome
  {
    var st0 := st.(error := None);
    if file.mimeType !in config.supportedFormats then SelectOutcome(st0.(error := Some(InvalidFormatError)), None, None)
    else if config.maxFileSize.Int? && file.size > config.maxFileSize.n then
      SelectOutcome(st0.(error := Some(TooLargeError)), None, None)
    else
      LoadSpec(st0.(isUploading := true), values, file, compressed, read, upload)
  }

  /** The second half of a file selection, once the file passed the checks and uploading started. */
  function LoadSpec(
    st: FlipState, values: map<string, string>, file: File, compressed: File, read: Option<string>, upload: Result<string>): SelectOutcome
  {
    var key := FileKey(file);
    if CachedIn(values, key) then
      match read
      case None => SelectOutcome(st, None, None)
      case Some(data) =>
        SelectOutcome(st.(originalImage := Some(file), previewImageUrl := Some(data), uploadedImageUrl := Some(values[key]),
                          flippedImageUrl := None, flipType := None, isUploading := false), None, None)
    else
      var processed := if file.size > CompressAbove then compressed else file;
      match read
      case None =>
        SelectOutcome(st.(originalImage := None, previewImageUrl := None, uploadedImageUrl := None,
                          isUploading := false, error := Some(ReadError)), None, None)
      case Some(data) =>
        var st2 := st.(originalImage := Some(file), previewImageUrl := Some(data), flippedImageUrl := None, flipType := None);
        match upload
        case Ok(url) =>
          SelectOutcome(st2.(uploadedImageUrl := Some(url), isUploading := false), Some((key, url)), Some(processed))
        case Err(message) =>
          SelectOutcome(st2.(originalImage := None, previewImageUrl := None, uploadedImageUrl := None, isUploading := false,
                             error := Some(if IsAuthMessage(message) then AuthError else UploadError)), None, Some(processed))
  }

  /** The flip request body. */
  datatype FlipRequest = FlipRequest(baseImageUrl: string, flipType: string, description: string)

  /** What `/api/flip-image` gave: a throw, a response that is not `ok`, or the JSON body's `code` and `data.flipped_image_url`. */
  datatype FlipResponse = FetchThrew | NotOk | Answer(code: Value, flippedImageUrl: Value)

  /** The flipped URL of a successful answer: `ok`, `code === 0` and a truthy URL string. */
  function FlippedUrl(response: FlipResponse): (r: Option<string>)
    ensures r.Some? <==> response.Answer? && response.code == Num(0.0) && IsNonEmptyString(response.flippedImageUrl)
    ensures r.Some? ==> r.value == response.flippedImageUrl.s
  {
    if response.Answer? && response.code == Num(0.0) && IsNonEmptyString(response.flippedImageUrl)
    then Some(response.flippedImageUrl.s) else None
  }

  /** The fallback base image: the default preview resolved against the page origin, or the bare path without a window. */
  function FallbackBase(origin: Option<string>): (r: string)
    ensures r != []
  {
    if origin.Some? then Resolve(DefaultPreview, origin.value) else DefaultPreview
  }

  /** The image a flip starts from: the flipped image, else the uploaded one, else the fallback. */
  function BaseImage(st: FlipState, origin: Option<string>): (r: string)
    ensures r != []
  {
    OrElse(st.flippedImageUrl, OrElse(st.uploadedImageUrl, FallbackBase(origin)))
  }

  /** What a flip does: the new state, the cache entry it stores, and the request it sends. */
  datatype FlipOutcome = FlipOutcome(state: FlipState, stored: Option<(string, string)>, request: Option<FlipRequest>)

  /**
   * The flip handler. The `!baseImageUrl` guard of the component never
   * fires, because the base always falls back to the default preview
   * (`BaseImage` is never empty), so it has no branch here.
   */
  function FlipSpec(
    st: FlipState, values: map<string, string>, config: FlipConfig,
    t: FlipType, origin: Option<string>, response: FlipResponse): FlipOutcome
  {
    var base := BaseImage(st, origin);
    var st0 := st.(error := None);
    var key := FlipKey(base, t);
    if CachedIn(values, key) then FlipOutcome(st0.(flippedImageUrl := Some(values[key]), flipType := Some(t)), None, None)
    else if config.enableCreditsSystem && Below(st.userCredits, config.processingCost) then
      FlipOutcome(st0.(error := Some(CreditsError(config.processingCost, st.userCredits))), None, None)
    else RequestSpec(st0, config, t, base, response)
  }

  /** The request half of a flip, from the state with its error cleared: the answer's URL is stored under `{base}-{flipType}`. */
  function RequestSpec(st: FlipState, config: FlipConfig, t: FlipType, base: string, response: FlipResponse): FlipOutcome
  {
    var st1 := st.(isProcessing := true, flipType := Some(t));
    var request := FlipRequest(base, FlipTypeName(t), FlipTypeName(t) + " flipped image");
    match FlippedUrl(response)
    case None => FlipOutcome(st1.(isProcessing := false, flipType := None, error := Some(ProcessingError)), None, Some(request))
    case Some(url) =>
      var credits := if config.enableCreditsSystem then Minus(st.userCredits, config.processingCost) else st.userCredits;
      FlipOutcome(st1.(flippedImageUrl := Some(url), uploadedImageUrl := Some(url), previewImageUrl := Some(url),
                       isProcessing := false, userCredits := credits),
                  Some((FlipKey(base, t), url)), Some(request))
  }

  /** The key order after storing an optional entry. */
  function StoredKeys(keys: seq<string>, stored: Option<(string, string)>): seq<string>
  {
    if stored.Some? then Inserted(keys, stored.value.0) else keys
  }

  function StoredValues(values: map<string, string>, stored: Option<(string, string)>): map<string, string>
  {
    if stored.Some? then values[stored.value.0 := stored.value.1] else values
  }

  function Sent<T>(request: Option<T>): seq<T>
  {
    if request.Some? then [request.value] else []
  }

  /** The component: its state, the files it uploaded and the flip requests it sent. */
  class FlipGenerator {
    var state: FlipState
    var uploads: seq<File>
    var requests: seq<FlipRequest>
    const cache: ImageCache
    const config: FlipConfig

    ghost predicate Valid()
      reads this, cache
    {
      cache.Valid()
    }

    constructor (cache: ImageCache, config: FlipConfig)
      requires cache.Valid()
      ensures Valid() && this.cache == cache && this.config == config
      ensures state == Initial && uploads == [] && requests == []
    {
      this.cache, this.config := cache, config;
      state, uploads, requests := Initial, [], [];
    }

    /** The credits fetched on mount: `data.left_credits || 0` when the answer's code is 0 (`answer` is `None` otherwise). */
    method LoadCredits(answer: Option<nat>)
      modifies this
      ensures answer.Some? ==> state == old(state).(userCredits := Int(answer.value))
      ensures answer.None? ==> state == old(state)
      ensures uploads == old(uploads) && requests == old(requests)
    {
      if answer.Some? {
        state := state.(userCredits := Int(answer.value));
      }
    }

    method HandleFileSelect(file: File, compressed: File, read: Option<string>, upload: Result<string>)
      requires Valid()
      modifies this, cache
      ensures Valid()
      ensures var o := SelectSpec(old(state), old(cache.values), config, file, compressed, read, upload);
        && state == o.state
        && uploads == old(uploads) + Sent(o.uploaded)
        && cache.values == StoredValues(old(cache.values), o.stored)
        && cache.keys == StoredKeys(old(cache.keys), o.stored)
      ensures requests == old(requests)
    {
      state := state.(error := None);
      if file.mimeType !in config.supportedFormats {
        state := state.(error := Some(InvalidFormatError));
        return;
      }
      if config.maxFileSize.Int? && file.size > config.maxFileSize.n {
        state := state.(error := Some(TooLargeError));
        return;
      }
      state := state.(isUploading := true);
      Load(file, compressed, read, upload);
    }

    /** Reuses a cached upload, or reads and uploads the file. */
    method Load(file: File, compressed: File, read: Option<string>, upload: Result<string>)
      requires Valid()
      modifies this, cache
      ensures Valid()
      ensures var o := LoadSpec(old(state), old(cache.values), file, compressed, read, upload);
        && state == o.state
        && uploads == old(uploads) + Sent(o.uploaded)
        && cache.values == StoredValues(old(cache.values), o.stored)
        && cache.keys == StoredKeys(old(cache.keys), o.stored)
      ensures requests == old(requests)
    {
      var key := FileKey(file);
      var cached := cache.Get(key);
      if cached.Some? && cached.value != [] {
        if read.Some? {
          state := state.(originalImage := Some(file), previewImageUrl := Some(read.value), uploadedImageUrl := cached,
                          flippedImageUrl := None, flipType := None, isUploading := false);
        }
        return;
      }
      var processed := if file.size > CompressAbove then compressed else file;
      if read.None? {
        state := state.(originalImage := None, previewImageUrl := None, uploadedImageUrl := None,
                        isUploading := false, error := Some(ReadError));
        return;
      }
      state := state.(originalImage := Some(file), previewImageUrl := read, flippedImageUrl := None, flipType := None);
      uploads := uploads + [processed];
      if upload.Ok? {
        cache.Set(key, upload.value);
        state := state.(uploadedImageUrl := Some(upload.value), isUploading := false);
      } else {
        var isAuth := IsAuthMessage(upload.error);
        state := state.(originalImage := None, previewImageUrl := None, uploadedImageUrl := None, isUploading := false,
                        error := Some(if isAuth then AuthError else UploadError));
      }
    }

    method HandleFlip(t: FlipType, origin: Option<string>, response: FlipResponse)
      requires Valid()
      modifies this, cache
      ensures Valid()
      ensures var o := FlipSpec(old(state), old(cache.values), config, t, origin, response);
        && state == o.state
        && requests == old(requests) + Sent(o.request)
        && cache.values == StoredValues(old(cache.values), o.stored)
        && cache.keys == StoredKeys(old(cache.keys), o.stored)
      ensures uploads == old(uploads)
    {
      var fallback := if origin.Some? then Resolve(DefaultPreview, origin.value) else DefaultPreview;
      var base := OrElse(state.flippedImageUrl, OrElse(state.uploadedImageUrl, fallback));
      var credits := state.userCredits;
      state := state.(error := None);
      var key := base + "-" + FlipTypeName(t);
      var cached := cache.Get(key);
      if cached.Some? && cached.value != [] {
        state := state.(flippedImageUrl := cached, flipType := Some(t));
        return;
      }
      if config.enableCreditsSystem && Below(credits, config.processingCost) {
        state := state.(error := Some(CreditsError(config.processingCost, credits)));
        return;
      }
      Request(t, base, response);
    }

    /** Sends the flip request and applies its answer. */
    method Request(t: FlipType, base: string, response: FlipResponse)
      requires Valid()
      modifies this, cache
      ensures Valid()
      ensures var o := RequestSpec(old(state), config, t, base, response);
        && state == o.state
        && requests == old(requests) + Sent(o.request)
        && cache.values == StoredValues(old(cache.values), o.stored)
        && cache.keys == StoredKeys(old(cache.keys), o.stored)
      ensures uploads == old(uploads)
    {
      var credits := state.userCredits;
      state := state.(isProcessing := true, flipType := Some(t));
      requests := requests + [FlipRequest(base, FlipTypeName(t), FlipTypeName(t) + " flipped image")];
      var url := FlippedUrl(response);
      if url.None? {
        state := state.(isProcessing := false, flipType := None, error := Some(ProcessingError));
        return;
      }
      cache.Set(base + "-" + FlipTypeName(t), url.value);
      state := state.(flippedImageUrl := url, uploadedImageUrl := url, previewImageUrl := url, isProcessing := false,
                      userCredits := if config.enableCreditsSystem then Minus(credits, config.processingCost) else credits);
    }

    /** The cleanup that runs when the preview changes: the cache is trimmed (revoking blob URLs is not modelled). */
    method PreviewChanged()
      requires Valid()
      modifies cache
      ensures Valid()
      ensures |old(cache.keys)| > CacheLimit ==> cache.keys == old(cache.keys)[EvictCount..]
      ensures |old(cache.keys)| <= CacheLimit ==> cache.keys == old(cache.keys)
      ensures |old(cache.keys)| <= CacheLimit + EvictCount ==> |cache.keys| <= CacheLimit
      ensures forall k :: k in cache.values ==> k in old(cache.values) && cache.values[k] == old(cache.values)[k]
    {
      cache.Trim();
    }
  }

  // ---------------------------------------------------------------------------
  // Properties of the handlers
  // ---------------------------------------------------------------------------

  /**
   * A file is refused on its type first and then on its size, and a refused
   * file changes only the error, uploads nothing and stores nothing.
   */
  lemma SelectRefusals(st: FlipState, values: map<string, string>, config: FlipConfig,
                       file: File, compressed: File, read: Option<string>, upload: Result<string>)
    ensures var o := SelectSpec(st, values, config, file, compressed, read, upload);
      && (file.mimeType !in config.supportedFormats ==> o == SelectOutcome(st.(error := Some(InvalidFormatError)), None, None))
      && (file.mimeType in config.supportedFormats && config.maxFileSize.Int? && file.size > config.maxFileSize.n ==>
            o == SelectOutcome(st.(error := Some(TooLargeError)), None, None))
      && (o.uploaded.Some? ==> file.mimeType in config.supportedFormats && !CachedIn(values, FileKey(file)) && read.Some?)
  {
  }

  /** A file met before (same name, size and modification time) reuses its cached URL: no upload, nothing stored. */
  lemma SelectCacheHit(st: FlipState, values: map<string, string>, config: FlipConfig,
                       file: File, compressed: File, data: string, upload: Result<string>)
    requires file.mimeType in config.supportedFormats && !(config.maxFileSize.Int? && file.size > config.maxFileSize.n)
    requires CachedIn(values, FileKey(file))
    ensures var o := SelectSpec(st, values, config, file, compressed, Some(data), upload);
      && o.uploaded.None? && o.stored.None?
      && o.state.uploadedImageUrl == Some(values[FileKey(file)])
      && o.state.originalImage == Some(file) && o.state.previewImageUrl == Some(data)
      && o.state.flippedImageUrl.None? && o.state.flipType.None? && !o.state.isUploading && o.state.error.None?
  {
  }

  /**
   * A new file is uploaded (compressed when larger than 1 MiB); success
   * stores its URL under its key, failure clears the image and reports an
   * auth error exactly when the message mentions authentication.
   */
  lemma SelectUpload(st: FlipState, values: map<string, string>, config: FlipConfig,
                     file: File, compressed: File, data: string, upload: Result<string>)
    requires file.mimeType in config.supportedFormats && !(config.maxFileSize.Int? && file.size > config.maxFileSize.n)
    requires !CachedIn(values, FileKey(file))
    ensures var o := SelectSpec(st, values, config, file, compressed, Some(data), upload);
      && o.uploaded == Some(if file.size > CompressAbove then compressed else file)
      && !o.state.isUploading
      && (upload.Ok? ==> o.stored == Some((FileKey(file), upload.value)) && o.state.uploadedImageUrl == Some(upload.value)
                         && o.state.error.None?)
      && (upload.Err? ==> o.stored.None? && o.state.originalImage.None? && o.state.uploadedImageUrl.None?
                          && (o.state.error == Some(AuthError) <==> IsAuthMessage(upload.error))
                          && o.state.error.Some?)
  {
  }

  /** Two files differing in size or modification time never share a cache key. */
  lemma FileKeysDiffer(a: File, b: File)
    requires a.name == b.name && (a.size != b.size || a.lastModified != b.lastModified)
    ensures FileKey(a) != FileKey(b)
  {
    var p := a.name + "-";
    assert FileKey(a) == p + NatToString(a.size) + ("-" + NatToString(a.lastModified));
    assert FileKey(b) == p + NatToString(b.size) + ("-" + NatToString(b.lastModified));
    if FileKey(a) == FileKey(b) {
      NumberedKeysDistinct(p, a.size, b.size, "-" + NatToString(a.lastModified), "-" + NatToString(b.lastModified));
      assert NatToString(a.lastModified) == ("-" + NatToString(a.lastModified))[1..];
      assert NatToString(b.lastModified) == ("-" + NatToString(b.lastModified))[1..];
      NatToStringInjective(a.lastModified, b.lastModified);
    }
  }

  /**
   * A flip already made from the same base is taken from the cache: no
   * request, no credit change, only the flipped image and its type change.
   */
  lemma FlipCacheHit(st: FlipState, values: map<string, string>, config: FlipConfig,
                     t: FlipType, origin: Option<string>, response: FlipResponse)
    requires CachedIn(values, FlipKey(BaseImage(st, origin), t))
    ensures var o := FlipSpec(st, values, config, t, origin, response);
      && o.request.None? && o.stored.None?
      && o.state == st.(error := None, flippedImageUrl := Some(values[FlipKey(BaseImage(st, origin), t)]), flipType := Some(t))
  {
  }

  /** With credits enabled and fewer credits than the cost, an uncached flip is refused without a request. */
  lemma FlipNeedsCredits(st: FlipState, values: map<string, string>, config: FlipConfig,
                         t: FlipType, origin: Option<string>, response: FlipResponse)
    requires !CachedIn(values, FlipKey(BaseImage(st, origin), t))
    requires config.enableCreditsSystem && Below(st.userCredits, config.processingCost)
    ensures var o := FlipSpec(st, values, config, t, origin, response);
      && o.request.None? && o.stored.None?
      && o.state == st.(error := Some(CreditsError(config.processingCost, st.userCredits)))
  {
  }

  /**
   * Otherwise the flip is requested from the current base. A successful
   * answer is cached under `{base}-{flipType}`, becomes the flipped,
   * uploaded and preview image (so the next flip starts from it), and costs
   * the credits exactly when credits are enabled; a failed one costs
   * nothing and clears the flip type.
   */
  lemma FlipRequested(st: FlipState, values: map<string, string>, config: FlipConfig,
                      t: FlipType, origin: Option<string>, response: FlipResponse)
    requires !CachedIn(values, FlipKey(BaseImage(st, origin), t))
    requires !(config.enableCreditsSystem && Below(st.userCredits, config.processingCost))
    ensures var o := FlipSpec(st, values, config, t, origin, response);
      var base := BaseImage(st, origin);
      && o.request == Some(FlipRequest(base, FlipTypeName(t), FlipTypeName(t) + " flipped image"))
      && !o.state.isProcessing
      && (FlippedUrl(response).Some? ==>
            var url := FlippedUrl(response).value;
            && o.stored == Some((FlipKey(base, t), url))
            && o.state.flippedImageUrl == Some(url) && o.state.uploadedImageUrl == Some(url)
            && o.state.previewImageUrl == Some(url) && o.state.flipType == Some(t)
            && BaseImage(o.state, origin) == url
            && (config.enableCreditsSystem ==> o.state.userCredits == Minus(st.userCredits, config.processingCost))
            && (!config.enableCreditsSystem ==> o.state.userCredits == st.userCredits))
      && (FlippedUrl(response).None? ==>
            && o.stored.None? && o.state.userCredits == st.userCredits
            && o.state.flipType.None? && o.state.error == Some(ProcessingError))
  {
  }

  /** A flip never touches the chosen file, and changes the credits only after a request that succeeded. */
  lemma FlipFrame(st: FlipState, values: map<string, string>, config: FlipConfig,
                  t: FlipType, origin: Option<string>, response: FlipResponse)
    ensures var o := FlipSpec(st, values, config, t, origin, response);
      && o.state.originalImage == st.originalImage && o.state.isUploading == st.isUploading
      && (o.state.userCredits != st.userCredits ==> o.request.Some? && o.stored.Some? && config.enableCreditsSystem)
  {
  }

  // ---------------------------------------------------------------------------
  // The download name
  // ---------------------------------------------------------------------------

  /** Characters an extension may hold: anything but `.`, `/`, `?` and `#`. */
  const ExtStops: set<char> := {'.', '/', '?', '#'}

  /** `s` starts with a dot followed by an extension that runs up to the end or to a `?` or `#`. */
  function ExtHere(s: string): (r: Option<string>)
    requires s != []
  {
    if s[0] != '.' then None
    else
      var run := Until(s[1..], ExtStops);
      if run != [] && (1 + |run| == |s| || s[1 + |run|] in {'?', '#'}) then Some(run) else None
  }

  /** `getExt`: the first match of `/\.([^.\/?#]+)(?:[?#]|$)/`, or `""`. */
  function GetExt(s: string): (r: string)
    ensures forall i :: 0 <= i < |r| ==> r[i] !in ExtStops
  {
    if s == [] then []
    else match ExtHere(s)
      case Some(e) => e
      case None => GetExt(s[1..])
  }

  /** `name.replace(/\.[^/.]+$/, "")`: the last extension is removed, when the text after the last dot is non-empty and has no `/`. */
  function StripExtension(s: string): (r: string)
    ensures |r| <= |s|
  {
    match LastIndexOf(s, '.')
    case None => s
    case Some(i) => if i + 1 < |s| && '/' !in s[i + 1..] then s[..i] else s
  }

  predicate IsExtension(e: string)
  {
    e != [] && forall i :: 0 <= i < |e| ==> e[i] !in ExtStops
  }

  lemma UntilAll(e: string)
    requires forall i :: 0 <= i < |e| ==> e[i] !in ExtStops
    ensures Until(e, ExtStops) == e
  {
  }

  /** A dot in a name that has no `?` or `#` is no extension when another dot follows later. */
  lemma NoExtBeforeDot(s: string)
    requires s != [] && '.' in s[1..] && '?' !in s && '#' !in s
    ensures ExtHere(s).None?
  {
    if s[0] == '.' {
      var run := Until(s[1..], ExtStops);
      assert |run| < |s[1..]|;
      assert s[1 + |run|] == s[1..][|run|];
    }
  }

  /** The extension of `{name}.{ext}` is `ext` when the name has no `?` or `#`. */
  lemma {:induction false} GetExtOfName(n: string, e: string)
    requires IsExtension(e) && '?' !in n && '#' !in n
    ensures GetExt(n + "." + e) == e
  {
    var s := n + "." + e;
    if n == [] {
      assert s[1..] == e;
      UntilAll(e);
    } else {
      assert s[1..] == n[1..] + "." + e;
      assert s[|n|] == '.';
      assert '.' in s[1..];
      assert forall i :: 0 <= i < |e| ==> e[i] != '?' && e[i] != '#';
      assert '?' !in s && '#' !in s by {
        forall i | 0 <= i < |s|
          ensures s[i] != '?' && s[i] != '#'
        {
          if i < |n| { assert s[i] == n[i]; }
          else if i > |n| { assert s[i] == e[i - |n| - 1]; }
        }
      }
      NoExtBeforeDot(s);
      GetExtOfName(n[1..], e);
    }
  }

  /** The last occurrence of `c` is at `k` when `s[k]` is `c` and no `c` follows. */
  lemma LastIndexOfAt(s: string, c: char, k: nat)
    requires k < |s| && s[k] == c && c !in s[k + 1..]
    ensures LastIndexOf(s, c) == Some(k)
  {
    assert s[k] in s;
    var i := LastIndexOf(s, c).value;
    assert forall j :: i < j < |s| ==> s[j] != c by {
      forall j | i < j < |s|
        ensures s[j] != c
      {
        assert s[j] == s[i + 1..][j - i - 1];
      }
    }
    assert forall j :: k < j < |s| ==> s[j] != c by {
      forall j | k < j < |s|
        ensures s[j] != c
      {
        assert s[j] == s[k + 1..][j - k - 1];
      }
    }
  }

  /** Stripping the extension of `{name}.{ext}` gives the name back, when the extension has no `/` or `.`. */
  lemma StripExtensionOfName(n: string, e: string)
    requires IsExtension(e)
    ensures StripExtension(n + "." + e) == n
  {
    var s := n + "." + e;
    assert s[|n|] == '.';
    assert s[|n| + 1..] == e;
    LastIndexOfAt(s, '.', |n|);
    assert s[..|n|] == n;
  }

  /** A name without a dot is kept as it is. */
  lemma StripExtensionNoDot(s: string)
    requires '.' !in s
    ensures StripExtension(s) == s
  {
  }

  /** `resolvedDownloadSource`: an absolute URL as it is, a path resolved against the origin when there is a window. */
  function ResolvedSource(source: string, origin: Option<string>): (r: string)
    ensures Parse(source).Some? ==> r == source
  {
    if Parse(source).Some? then source
    else if origin.Some? then Resolve(source, origin.value)
    else source
  }

  /** The source the download reads: the flipped image, else the uploaded one, else the default preview. */
  function DownloadSource(st: FlipState): (r: string)
    ensures r != []
  {
    OrElse(st.flippedImageUrl, OrElse(st.uploadedImageUrl, DefaultPreview))
  }

  /** `fallbackName`: the last non-empty path segment of the resolved source, or its last `/` part when it is no URL. */
  function FallbackName(resolved: string): string
  {
    match Parse(resolved)
    case Some(u) => OrElse(WallpaperDownload.LastSegment(u.pathname), "")
    case None =>
      var parts := Split(resolved, '/');
      parts[|parts| - 1]
  }

  function BaseName(originalName: string, fallbackName: string): (r: string)
    ensures r != []
  {
    var stripped := StripExtension(if originalName != [] then originalName else if fallbackName != [] then fallbackName else "image");
    if stripped == [] then "image" else stripped
  }

  function Extension(originalName: string, fallbackName: string): (r: string)
    ensures IsExtension(r)
  {
    if GetExt(originalName) != [] then GetExt(originalName)
    else if GetExt(fallbackName) != [] then GetExt(fallbackName)
    else "png"
  }

  /** The name built from the chosen file's name, the fallback name and the flip shown (if any). */
  function NameFor(originalName: string, fallbackName: string, flip: Option<FlipType>): string
  {
    FlippedStem(BaseName(originalName, fallbackName), flip) + "." + Extension(originalName, fallbackName)
  }

  /** `{base}_{flipType}_flip` after a flip, `{base}` otherwise: the name before its extension. */
  function FlippedStem(base: string, flip: Option<FlipType>): string
  {
    if flip.Some? then base + "_" + FlipTypeName(flip.value) + "_flip" else base
  }

  /** `downloadName`: `{base}_{flipType}_flip.{ext}` after a flip, `{base}.{ext}` otherwise. */
  function DownloadName(st: FlipState, origin: Option<string>): string
  {
    var originalName := if st.originalImage.Some? then st.originalImage.value.name else "";
    var flip := if OrElse(st.flippedImageUrl, "") != [] then st.flipType else None;
    NameFor(originalName, FallbackName(ResolvedSource(DownloadSource(st), origin)), flip)
  }

  /** The link to the download route, carrying the resolved source and the name. */
  function DownloadUrl(st: FlipState, origin: Option<string>): string
  {
    WallpaperDownload.DownloadLink(ResolvedSource(DownloadSource(st), origin), DownloadName(st, origin))
  }

  /**
   * A chosen file `{name}.{ext}` is offered under its own name before a
   * flip, and as `{name}_{flipType}_flip.{ext}` after one, whatever the
   * image's URL.
   */
  lemma NameOfFile(n: string, e: string, fallbackName: string, flip: Option<FlipType>)
    requires n != [] && IsExtension(e) && '?' !in n && '#' !in n
    ensures flip.Some? ==> NameFor(n + "." + e, fallbackName, flip) == n + "_" + FlipTypeName(flip.value) + "_flip" + "." + e
    ensures flip.None? ==> NameFor(n + "." + e, fallbackName, flip) == n + "." + e
  {
    GetExtOfName(n, e);
    StripExtensionOfName(n, e);
  }

  /** Without a chosen file, the name comes from the image's last path segment; `image.png` when that gives nothing. */
  lemma NameWithoutFile(fallbackName: string, flip: Option<FlipType>)
    ensures fallbackName == [] ==> NameFor("", fallbackName, None) == "image.png"
    ensures forall n, e :: n != [] && IsExtension(e) && '?' !in n && '#' !in n && fallbackName == n + "." + e ==>
      NameFor("", fallbackName, None) == n + "." + e
  {
    if fallbackName == [] {
      StripExtensionNoDot("image");
    }
    forall n, e | n != [] && IsExtension(e) && '?' !in n && '#' !in n && fallbackName == n + "." + e
      ensures NameFor("", fallbackName, None) == n + "." + e
    {
      GetExtOfName(n, e);
      StripExtensionOfName(n, e);
    }
  }

  /** Every download name is a non-empty base, a dot and a non-empty extension. */
  lemma NameHasExtension(originalName: string, fallbackName: string, flip: Option<FlipType>)
    ensures exists b, e :: NameFor(originalName, fallbackName, flip) == b + "." + e && IsExtension(e) && b != []
  {
    var b := FlippedStem(BaseName(originalName, fallbackName), flip);
    assert NameFor(originalName, fallbackName, flip) == b + "." + Extension(originalName, fallbackName);
    assert b != [];
  }

  /** When neither name yields an extension the download is a `.png`. */
  lemma NameDefaultsToPng(originalName: string, fallbackName: string, flip: Option<FlipType>)
    requires GetExt(originalName) == [] && GetExt(fallbackName) == []
    ensures EndsWith(NameFor(originalName, fallbackName, flip), ".png")
  {
    var b := FlippedStem(BaseName(originalName, fallbackName), flip);
    var ext := Extension(originalName, fallbackName);
    assert ext == "png";
    assert NameFor(originalName, fallbackName, flip) == b + ("." + ext);
    EndsWithConcat(b, "." + ext);
    DotPng();
  }

  lemma DotPng()
    ensures "." + "png" == ".png"
  {
  }
}
