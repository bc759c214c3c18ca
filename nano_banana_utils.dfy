/**
 * The nano-banana-pro helpers: the upload check, the creations list and the
 * preferences kept in the browser's local storage, and the download link.
 * JSON text is produced and read by a codec given as a parameter.
 */
module NanoBananaUtils {

  import opened Wrappers
  import opened Strings
  import WallpaperDownload

  const MaxFileSize := 10 * 1024 * 1024
  const SupportedFormats := ["image/jpeg", "image/png", "image/webp"]
  const MaxReferenceImages := 8
  const CreationsKey := "my_creations"
  const PreferencesKey := "nano_banana_preferences"
  const TooLarge := "File size cannot exceed 10MB"
  /** The template with `SupportedFormats` joined by `, `. */
  const UnsupportedFormat := "Unsupported file format. Supported formats: image/jpeg, image/png, image/webp"

  /** The size message is the template filled with the limit in MiB. */
  lemma TooLargeFromConfig()
    ensures TooLarge == "File size cannot exceed " + NatToString(MaxFileSize / (1024 * 1024)) + "MB"
  {
    assert MaxFileSize / (1024 * 1024) == 10;
    assert NatToString(10) == NatToString(1) + ['0'];
  }

  /** `{ valid, error? }`. */
  datatype Validation = Validation(valid: bool, error: Option<string>)

  /** `validateFile`: the size is checked first, then the format. */
  function ValidateFile(size: nat, mimeType: string): (r: Validation)
    ensures r.valid <==> r.error.None?
  {
    if size > MaxFileSize then Validation(false, Some(TooLarge))
    else if mimeType !in SupportedFormats then Validation(false, Some(UnsupportedFormat))
    else Validation(true, None)
  }

  /**
   * A file over 10 MiB is refused for its size whatever its format; a file
   * within the limit is refused only for a format other than JPEG, PNG or
   * WebP; a file passes exactly when both hold.
   */
  lemma ValidateFileCases(size: nat, mimeType: string)
    ensures size > MaxFileSize ==> ValidateFile(size, mimeType) == Validation(false, Some(TooLarge))
    ensures size <= MaxFileSize && mimeType !in SupportedFormats ==>
      ValidateFile(size, mimeType) == Validation(false, Some(UnsupportedFormat))
    ensures ValidateFile(size, mimeType).valid <==>
      size <= 10485760 && (mimeType == "image/jpeg" || mimeType == "image/png" || mimeType == "image/webp")
  {
  }

  datatype Mode = TextToImage | ImageToImage

  /** A generated image as it is kept in the list. */
  datatype Creation = Creation(id: string, url: string, prompt: string, createdAt: int, aspectRatio: string, model: string, mode: Mode)

  datatype Preferences = Preferences(aspectRatio: string, resolution: string, mode: Mode)

  const DefaultPreferences := Preferences("Auto", "1K", ImageToImage)

  /** `JSON.parse` (`None` when it throws) and `JSON.stringify` for the two stored values. */
  datatype Codec = Codec(
    parseCreations: string -> Option<seq<Creation>>,
    stringifyCreations: seq<Creation> -> string,
    parsePreferences: string -> Option<Preferences>,
    stringifyPreferences: Preferences -> string)

  /** The codec reads back what it wrote, and never writes the empty string (`JSON.stringify` of a value never does). */
  ghost predicate RoundTrips(codec: Codec)
  {
    && (forall list :: codec.parseCreations(codec.stringifyCreations(list)) == Some(list))
    && (forall list :: codec.stringifyCreations(list) != [])
    && (forall p :: codec.parsePreferences(codec.stringifyPreferences(p)) == Some(p))
    && (forall p :: codec.stringifyPreferences(p) != [])
  }

  /** `localStorage`; `inBrowser` is `typeof window !== 'undefined'`. */
  class LocalStorage {
    const inBrowser: bool
    var items: map<string, string>

    constructor (inBrowser: bool, items: map<string, string>)
      ensures this.inBrowser == inBrowser && this.items == items
    {
      this.inBrowser, this.items := inBrowser, items;
    }

    /** `setItem`; `fails` says whether the browser refuses the write (the helpers catch it). */
    method SetItem(key: string, value: string, fails: bool)
      modifies this
      ensures items == if fails then old(items) else old(items)[key := value]
    {
      if !fails {
        items := items[key := value];
      }
    }
  }

  /** The stored text under `key`, when it is present and non-empty. */
  function StoredText(items: map<string, string>, key: string): Option<string>
  {
    if key in items && items[key] != [] then Some(items[key]) else None
  }

  /** `getMyCreations`: the parsed list, or `[]` outside a browser, when nothing is stored or the text does not parse. */
  function MyCreations(inBrowser: bool, items: map<string, string>, codec: Codec): (r: seq<Creation>)
    ensures !inBrowser || StoredText(items, CreationsKey).None? ==> r == []
  {
    if !inBrowser then []
    else match StoredText(items, CreationsKey)
      case None => []
      case Some(text) => codec.parseCreations(text).GetOr([])
  }

  /** The entries whose id differs from `id`, in their order. */
  function WithoutId(list: seq<Creation>, id: string): (r: seq<Creation>)
    ensures |r| <= |list|
  {
    if list == [] then []
    else if list[0].id == id then WithoutId(list[1..], id)
    else [list[0]] + WithoutId(list[1..], id)
  }

  /** The items after `saveCreation`: the new creation first, then the list as it was read. */
  function ItemsAfterSave(inBrowser: bool, items: map<string, string>, codec: Codec, creation: Creation, writeFails: bool)
    : map<string, string>
  {
    if !inBrowser || writeFails then items
    else items[CreationsKey := codec.stringifyCreations([creation] + MyCreations(inBrowser, items, codec))]
  }

  /** The items after `deleteCreation`: the list as it was read, without the entries with that id. */
  function ItemsAfterDelete(inBrowser: bool, items: map<string, string>, codec: Codec, id: string, writeFails: bool)
    : map<string, string>
  {
    if !inBrowser || writeFails then items
    else items[CreationsKey := codec.stringifyCreations(WithoutId(MyCreations(inBrowser, items, codec), id))]
  }

  method SaveCreation(storage: LocalStorage, creation: Creation, codec: Codec, writeFails: bool)
    modifies storage
    ensures storage.items == ItemsAfterSave(storage.inBrowser, old(storage.items), codec, creation, writeFails)
  {
    if !storage.inBrowser {
      return;
    }
    var existing := MyCreations(storage.inBrowser, storage.items, codec);
    var updated := [creation] + existing;
    storage.SetItem(CreationsKey, codec.stringifyCreations(updated), writeFails);
  }

  method DeleteCreation(storage: LocalStorage, id: string, codec: Codec, writeFails: bool)
    modifies storage
    ensures storage.items == ItemsAfterDelete(storage.inBrowser, old(storage.items), codec, id, writeFails)
  {
    if !storage.inBrowser {
      return;
    }
    var existing := MyCreations(storage.inBrowser, storage.items, codec);
    var updated := WithoutId(existing, id);
    storage.SetItem(CreationsKey, codec.stringifyCreations(updated), writeFails);
  }

  /** `getUserPreferences`: the parsed preferences, or `{Auto, 1K, IMAGE_TO_IMAGE}`. */
  function UserPreferences(inBrowser: bool, items: map<string, string>, codec: Codec): (r: Preferences)
    ensures !inBrowser || StoredText(items, PreferencesKey).None? ==> r == DefaultPreferences
  {
    if !inBrowser then DefaultPreferences
    else match StoredText(items, PreferencesKey)
      case None => DefaultPreferences
      case Some(text) => codec.parsePreferences(text).GetOr(DefaultPreferences)
  }

  method SaveUserPreferences(storage: LocalStorage, preferences: Preferences, codec: Codec, writeFails: bool)
    modifies storage
    ensures storage.items ==
      if !storage.inBrowser || writeFails then old(storage.items)
      else old(storage.items)[PreferencesKey := codec.stringifyPreferences(preferences)]
  {
    if storage.inBrowser {
      storage.SetItem(PreferencesKey, codec.stringifyPreferences(preferences), writeFails);
    }
  }

  /** The two storage keys differ, so each helper leaves the other value alone. */
  lemma KeysDiffer()
    ensures CreationsKey != PreferencesKey
  {
    assert CreationsKey[0] != PreferencesKey[0];
  }

  /**
   * Saving puts the creation in front of the list read before, which keeps
   * its order, once the write succeeds and the codec reads back what it
   * wrote; the preferences are unaffected.
   */
  lemma SaveThenRead(items: map<string, string>, codec: Codec, creation: Creation)
    requires RoundTrips(codec)
    ensures MyCreations(true, ItemsAfterSave(true, items, codec, creation, false), codec)
      == [creation] + MyCreations(true, items, codec)
    ensures UserPreferences(true, ItemsAfterSave(true, items, codec, creation, false), codec)
      == UserPreferences(true, items, codec)
  {
    var list := [creation] + MyCreations(true, items, codec);
    assert codec.parseCreations(codec.stringifyCreations(list)) == Some(list);
    assert codec.stringifyCreations(list) != [];
    KeysDiffer();
  }

  /** Deleting leaves the list read before without the entries with that id. */
  lemma DeleteThenRead(items: map<string, string>, codec: Codec, id: string)
    requires RoundTrips(codec)
    ensures MyCreations(true, ItemsAfterDelete(true, items, codec, id, false), codec)
      == WithoutId(MyCreations(true, items, codec), id)
  {
    var list := WithoutId(MyCreations(true, items, codec), id);
    assert codec.parseCreations(codec.stringifyCreations(list)) == Some(list);
    assert codec.stringifyCreations(list) != [];
  }

  /** Nothing is written outside a browser or when the write fails. */
  lemma FailedWritesChangeNothing(inBrowser: bool, items: map<string, string>, codec: Codec, creation: Creation, id: string)
    ensures ItemsAfterSave(false, items, codec, creation, false) == items
    ensures ItemsAfterDelete(inBrowser, items, codec, id, true) == items
    ensures ItemsAfterSave(inBrowser, items, codec, creation, true) == items
  {
  }

  /** An entry survives a delete exactly when it was listed and its id differs. */
  lemma {:induction false} WithoutIdMembers(list: seq<Creation>, id: string)
    ensures forall c :: c in WithoutId(list, id) <==> c in list && c.id != id
  {
    if list != [] {
      WithoutIdMembers(list[1..], id);
      assert list == [list[0]] + list[1..];
    }
  }

  /** The others keep their order: deleting distributes over concatenation. */
  lemma {:induction false} WithoutIdAppend(a: seq<Creation>, b: seq<Creation>, id: string)
    ensures WithoutId(a + b, id) == WithoutId(a, id) + WithoutId(b, id)
  {
    if a == [] {
      assert a + b == b;
    } else {
      assert (a + b)[0] == a[0] && (a + b)[1..] == a[1..] + b;
      WithoutIdAppend(a[1..], b, id);
    }
  }

  /** An id that no entry carries leaves the list as it is. */
  lemma {:induction false} WithoutAbsentId(list: seq<Creation>, id: string)
    requires forall i :: 0 <= i < |list| ==> list[i].id != id
    ensures WithoutId(list, id) == list
  {
    if list != [] {
      WithoutAbsentId(list[1..], id);
      assert list == [list[0]] + list[1..];
    }
  }

  /** Preferences fall back to `{Auto, 1K, IMAGE_TO_IMAGE}` whenever nothing readable is stored, and read back what was saved. */
  lemma PreferencesRead(items: map<string, string>, codec: Codec, p: Preferences)
    ensures UserPreferences(false, items, codec) == DefaultPreferences
    ensures PreferencesKey !in items ==> UserPreferences(true, items, codec) == DefaultPreferences
    ensures PreferencesKey in items && items[PreferencesKey] != [] && codec.parsePreferences(items[PreferencesKey]).None? ==>
      UserPreferences(true, items, codec) == DefaultPreferences
    ensures RoundTrips(codec) ==>
      UserPreferences(true, items[PreferencesKey := codec.stringifyPreferences(p)], codec) == p
  {
    if RoundTrips(codec) {
      assert codec.parsePreferences(codec.stringifyPreferences(p)) == Some(p);
      assert codec.stringifyPreferences(p) != [];
    }
  }

  /** The anchor `downloadImage` clicks: its `href` and `download` name. */
  datatype Link = Link(href: string, download: string)

  /** The name offered: the one given when non-empty, else `nano-banana-{now}.png`. */
  function DefaultFilename(filename: Option<string>, now: nat): string
  {
    if filename.Some? && filename.value != [] then filename.value else "nano-banana-" + NatToString(now) + ".png"
  }

  /** `downloadImage`: no link outside a browser; otherwise a link to the download proxy. `now` is `Date.now()`. */
  function DownloadImage(inBrowser: bool, url: string, filename: Option<string>, now: nat): (r: Option<Link>)
    ensures r.Some? <==> inBrowser
  {
    if !inBrowser then None
    else
      var name := DefaultFilename(filename, now);
      Some(Link(WallpaperDownload.DownloadLink(url, name), name))
  }

  /**
   * In a browser the link asks the download proxy for `url` under the given
   * name, or `nano-banana-{now}.png` without one; the anchor's own name is
   * the same.
   */
  lemma DownloadImageTargets(url: string, filename: Option<string>, now: nat)
    ensures var r := DownloadImage(true, url, filename, now).value;
      && (filename.Some? && filename.value != [] ==> r.download == filename.value)
      && (filename.None? || filename.value == [] ==> r.download == "nano-banana-" + NatToString(now) + ".png")
      && StartsWith(r.href, WallpaperDownload.RoutePath)
      && Split(r.href[|WallpaperDownload.RoutePath|..], '&')
         == [WallpaperDownload.Param("src", url), WallpaperDownload.Param("filename", r.download)]
  {
    WallpaperDownload.DownloadLinkParams(url, DefaultFilename(filename, now));
  }
}
