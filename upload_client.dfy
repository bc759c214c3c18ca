/**
 * The browser-side upload helpers: `validateImageFile` checks the MIME type
 * against an allow-list (there is no size limit), and `uploadImageFile`
 * reads the file as a data URL and posts it to `/api/upload-image`.
 */
module UploadClient {

  import opened Wrappers
  import opened Js

  const DefaultAllowedTypes := ["image/jpeg", "image/png", "image/webp", "image/gif", "image/jpg"]
  const Unsupported := "Unsupported file type. Use JPG, PNG, WebP, or GIF."
  const UploadFailed := "Upload failed"
  const Endpoint := "/api/upload-image"

  /** The options: the upload category and a replacement allow-list; `None` when absent. */
  datatype Options = Options(category: Option<string>, allowedTypes: Option<seq<string>>)

  /** `validateImageFile`: the error message, or `None` when the type is allowed. */
  function ValidateImageFile(fileType: string, opts: Options): (r: Option<string>)
    ensures r.Some? ==> r.value == Unsupported
  {
    // An empty array is truthy, so any list given replaces the default one.
    var allowed := if opts.allowedTypes.Some? then opts.allowedTypes.value else DefaultAllowedTypes;
    if fileType !in allowed then Some(Unsupported) else None
  }

  /** The JSON body posted: the data URL and the category (`image` by default). */
  datatype UploadBody = UploadBody(image: string, category: string)

  /** What the upload request gave: a throw, or the parsed `code`, `message` and `data.url`. */
  datatype Response =
    | RequestThrew(error: string)
    | Answer(code: Value, message: Option<string>, url: string)

  /** The effects, in order: reading the file, posting the body. */
  datatype Effect = ReadFile | Posted(body: UploadBody)

  datatype Uploaded = Uploaded(url: string, base64: string)

  /**
   * `uploadImageFile`, with the effects it makes. `read` is what reading the
   * file as a data URL gave and `post` answers the request.
   */
  function UploadImageFile(fileType: string, opts: Options, read: Result<string>, post: UploadBody -> Response)
    : (Result<Uploaded>, seq<Effect>)
  {
    match ValidateImageFile(fileType, opts)
    case Some(e) => (Err(e), [])
    case None =>
      match read
      case Err(e) => (Err(e), [ReadFile])
      case Ok(base64) =>
        var body := UploadBody(base64, OrElse(opts.category, "image"));
        match post(body)
        case RequestThrew(e) => (Err(e), [ReadFile, Posted(body)])
        case Answer(code, message, url) =>
          if code != Num(0.0) then (Err(OrElse(message, UploadFailed)), [ReadFile, Posted(body)])
          else (Ok(Uploaded(url, base64)), [ReadFile, Posted(body)])
  }

  /**
   * Without options the file is accepted exactly when its type is one of
   * `image/jpeg`, `image/png`, `image/webp`, `image/gif` and `image/jpg`;
   * a list given replaces that one entirely, and the size never matters.
   */
  lemma ValidateIff(fileType: string, opts: Options)
    ensures opts.allowedTypes.None? ==>
      (ValidateImageFile(fileType, opts).None? <==>
         fileType == "image/jpeg" || fileType == "image/png" || fileType == "image/webp"
         || fileType == "image/gif" || fileType == "image/jpg")
    ensures opts.allowedTypes.Some? ==>
      (ValidateImageFile(fileType, opts).None? <==> fileType in opts.allowedTypes.value)
    ensures ValidateImageFile(fileType, opts.(allowedTypes := Some([]))) == Some(Unsupported)
  {
  }

  /** A type that is not allowed is thrown before the file is read or anything is sent. */
  lemma RejectedBeforeEffects(fileType: string, opts: Options, read: Result<string>, post: UploadBody -> Response)
    requires ValidateImageFile(fileType, opts).Some?
    ensures UploadImageFile(fileType, opts, read, post) == (Err(Unsupported), [])
  {
  }

  /**
   * An accepted file is posted once, as read, with its category; a code
   * other than 0 throws the server's message or `Upload failed`, and code
   * 0 returns the server's URL together with the very data URL sent.
   */
  lemma UploadOutcome(fileType: string, opts: Options, base64: string, post: UploadBody -> Response)
    requires ValidateImageFile(fileType, opts).None?
    ensures var (r, effects) := UploadImageFile(fileType, opts, Ok(base64), post);
      var body := UploadBody(base64, if opts.category.Some? && opts.category.value != [] then opts.category.value else "image");
      && effects == [ReadFile, Posted(body)]
      && (post(body).Answer? && post(body).code != Num(0.0) ==>
            r == Err(if post(body).message.Some? && post(body).message.value != [] then post(body).message.value else "Upload failed"))
      && (post(body).Answer? && post(body).code == Num(0.0) ==> r == Ok(Uploaded(post(body).url, base64)))
      && (r.Ok? ==> r.value.base64 == base64 && Posted(body) in effects)
  {
  }
}
