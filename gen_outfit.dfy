/**
 * `POST /api/gen-outfit`: one handler for two kinds of request. A body with
 * a string `image` is a layered request (the image is split into layers);
 * otherwise `base_image_url` is edited into a single image. Both check the
 * source, the session and the credits, copy a locally hosted source image
 * into storage, run the model (or use canned outputs in mock mode), store
 * every output, insert one record per output and charge the user once.
 */
module GenOutfit {

  import opened Wrappers
  import opened Strings
  import opened Js
  import Url
  import opened Ledger

  const Model := "qwen/qwen-image-layered"
  const Failure := "generate outfit fail"
  const DefaultFormat := "webp"
  const DefaultQuality := 95.0
  const DefaultNumLayers := 4.0

  /** Host names that the model provider cannot reach. */
  const LocalHostnames: set<string> := {"localhost", "127.0.0.1", "0.0.0.0", "::1"}

  const MockLayers: seq<string> := [
    "https://pub-f6dab13c3cbf4c8c95f916516af9779f.r2.dev/gen/3db8c30e-43bf-4888-aee8-7910f214690d_layer_0.webp",
    "https://pub-f6dab13c3cbf4c8c95f916516af9779f.r2.dev/gen/3db8c30e-43bf-4888-aee8-7910f214690d_layer_1.webp",
    "https://pub-f6dab13c3cbf4c8c95f916516af9779f.r2.dev/gen/3db8c30e-43bf-4888-aee8-7910f214690d_layer_2.webp",
    "https://pub-f6dab13c3cbf4c8c95f916516af9779f.r2.dev/gen/3db8c30e-43bf-4888-aee8-7910f214690d_layer_3.webp"]

  const MockOutfit := "https://pub-453ee7f62d7b43479f418b2674b1c1f0.r2.dev/gen/38d63328-01a4-409f-ba65-447a30ffba0c_outfit.png"

  datatype Request = Request(
    baseImageUrl: Value,
    image: Value,
    description: Value,
    aspectRatio: Value,
    resolutionInput: Value,
    numLayers: Value,
    goFast: Value,
    outputFormat: Value,
    outputQuality: Value,
    disableSafetyChecker: Value)

  predicate IsDataUrl(value: string) { StartsWith(value, "data:") }

  /**
   * `getRequestOrigin`: a non-empty `origin` header wins; otherwise the host
   * is `x-forwarded-host`, or `host` when that header is absent, with the
   * protocol from `x-forwarded-proto` or `http`.
   */
  function RequestOrigin(headers: map<string, string>): (r: Option<string>)
    ensures "origin" in headers && headers["origin"] != [] ==> r == Some(headers["origin"])
    ensures ("origin" !in headers || headers["origin"] == []) && "x-forwarded-host" in headers && headers["x-forwarded-host"] == [] ==> r.None?
    ensures ("origin" !in headers || headers["origin"] == []) && "x-forwarded-host" !in headers && "host" !in headers ==> r.None?
  {
    if "origin" in headers && headers["origin"] != [] then Some(headers["origin"])
    else
      var host := if "x-forwarded-host" in headers then Some(headers["x-forwarded-host"])
                  else if "host" in headers then Some(headers["host"]) else None;
      if host.None? || host.value == [] then None
      else
        var proto := if "x-forwarded-proto" in headers then headers["x-forwarded-proto"] else "http";
        Some(proto + "://" + host.value)
  }

  /** `resolveImageUrl`: data and absolute URLs stay; a relative path is joined to the origin when there is one. */
  function ResolveImageUrl(headers: map<string, string>, value: string): (r: string)
    ensures IsDataUrl(value) || Url.Parse(value).Some? ==> r == value
    ensures RequestOrigin(headers).None? ==> r == value
  {
    if IsDataUrl(value) || Url.Parse(value).Some? then value
    else match RequestOrigin(headers)
      case None => value
      case Some(origin) => Url.Resolve(value, origin)
  }

  predicate IsAlnum(c: char) { IsAsciiLetter(c) || IsDigit(c) }

  /** The longest suffix of `s` made of ASCII letters and digits. */
  function AlnumSuffix(s: string): (r: string)
    ensures EndsWith(s, r)
    ensures forall i :: 0 <= i < |r| ==> IsAlnum(r[i])
    ensures |r| < |s| ==> !IsAlnum(s[|s| - |r| - 1])
  {
    if s != [] && IsAlnum(s[|s| - 1]) then
      var init := s[..|s| - 1];
      var p := AlnumSuffix(init);
      assert s == init + [s[|s| - 1]];
      assert s[|s| - |p| - 1..] == init[|init| - |p|..] + [s[|s| - 1]] by {
        var n := |init| - |p|;
        assert s[n..] == (init + [s[|s| - 1]])[n..];
      }
      assert |p| < |init| ==> s[|init| - |p| - 1] == init[|init| - |p| - 1];
      p + [s[|s| - 1]]
    else []
  }

  /** `getExtensionFromUrl`: the final `.ext` of the path, `jpeg` read as `jpg`, anything else `png`. */
  function ExtensionFromUrl(value: string): (r: string)
    ensures r == "png" || r == "webp" || r == "jpg"
  {
    var path := Before(Before(value, '?'), '#');
    var tail := AlnumSuffix(path);
    if tail == [] || |tail| == |path| || path[|path| - |tail| - 1] != '.' then "png"
    else NormalizeExtension(Lower(tail))
  }

  /** `jpeg` is read as `jpg`; `png`, `webp` and `jpg` stay; anything else is `png`. */
  function NormalizeExtension(ext: string): (r: string)
    ensures r == "png" || r == "webp" || r == "jpg"
    ensures ext == "jpeg" ==> r == "jpg"
    ensures ext == "png" || ext == "webp" || ext == "jpg" ==> r == ext
    ensures ext !in {"jpeg", "png", "webp", "jpg"} ==> r == "png"
  {
    if ext == "jpeg" then "jpg"
    else if ext == "png" || ext == "webp" || ext == "jpg" then ext
    else "png"
  }

  lemma {:induction false} AlnumSuffixOf(a: string, b: string)
    requires a == [] || !IsAlnum(a[|a| - 1])
    requires forall i :: 0 <= i < |b| ==> IsAlnum(b[i])
    ensures AlnumSuffix(a + b) == b
  {
    if b == [] {
      assert a + b == a;
    } else {
      var b' := b[..|b| - 1];
      assert (a + b)[..|a + b| - 1] == a + b' && (a + b)[|a + b| - 1] == b[|b| - 1];
      AlnumSuffixOf(a, b');
      assert b' + [b[|b| - 1]] == b;
    }
  }

  /** A query or fragment after the path is cut off. */
  lemma PathBeforeQuery(path: string, tail: string)
    requires '?' !in path && '#' !in path
    requires tail == [] || tail[0] == '?' || tail[0] == '#'
    ensures Before(Before(path + tail, '?'), '#') == path
  {
    BeforeAppend(path, tail, '?');
    var t := Before(tail, '?');
    assert t == [] || t[0] == '#';
    BeforeAppend(path, t, '#');
    assert Before(t, '#') == [];
    assert path + [] == path;
  }

  /**
   * A path ending in `.{ext}`, with an optional query or fragment after it:
   * the query and fragment are ignored and the lower-cased `ext` decides,
   * `jpeg` being read as `jpg`.
   */
  lemma ExtensionOfPath(stem: string, ext: string, tail: string)
    requires ext != [] && forall i :: 0 <= i < |ext| ==> IsAlnum(ext[i])
    requires '?' !in stem && '#' !in stem
    requires tail == [] || tail[0] == '?' || tail[0] == '#'
    ensures ExtensionFromUrl(stem + "." + ext + tail) == NormalizeExtension(Lower(ext))
  {
    var path := stem + "." + ext;
    DottedSuffix(stem, ext);
    PathBeforeQuery(path, tail);
    DottedExtension(path + tail, path);
  }

  /** Once the query and fragment are cut off, a `.`-preceded alphanumeric run decides. */
  lemma DottedExtension(value: string, path: string)
    requires Before(Before(value, '?'), '#') == path
    requires var tail := AlnumSuffix(path); tail != [] && |tail| < |path| && path[|path| - |tail| - 1] == '.'
    ensures ExtensionFromUrl(value) == NormalizeExtension(Lower(AlnumSuffix(path)))
  {
  }

  /** `stem.ext` has no separator of its own and ends in the alphanumeric run `ext` after a dot. */
  lemma DottedSuffix(stem: string, ext: string)
    requires ext != [] && forall i :: 0 <= i < |ext| ==> IsAlnum(ext[i])
    requires '?' !in stem && '#' !in stem
    ensures var path := stem + "." + ext;
      && '?' !in path && '#' !in path
      && AlnumSuffix(path) == ext && |ext| < |path| && path[|path| - |ext| - 1] == '.'
  {
    var path := stem + "." + ext;
    assert '?' !in ext && '#' !in ext by {
      forall i | 0 <= i < |ext| ensures ext[i] != '?' && ext[i] != '#' {
        assert IsAlnum(ext[i]);
      }
    }
    assert path == stem + ("." + ext);
    AlnumSuffixOf(stem + ".", ext);
  }

  /** `getContentTypeForExtension`. */
  function ContentTypeFor(ext: string): (r: string)
    ensures ext == "png" ==> r == "image/png"
    ensures ext == "webp" ==> r == "image/webp"
    ensures ext == "jpg" ==> r == "image/jpeg"
    ensures ext != "png" && ext != "webp" && ext != "jpg" ==> r == "application/octet-stream"
  {
    if ext == "png" then "image/png"
    else if ext == "webp" then "image/webp"
    else if ext == "jpg" then "image/jpeg"
    else "application/octet-stream"
  }

  /** The storage key of a copied source, `input/{batch}_source.{ext}`. */
  function SourceKey(batch: string, ext: string): (key: string)
    ensures StartsWith(key, "input/")
  {
    assert ("input/" + batch + "_source." + ext)[..6] == "input/";
    "input/" + batch + "_source." + ext
  }

  /**
   * `ensureRemoteSourceImage`: a source on a local host is downloaded into
   * storage under `input/{batch}_source.{ext}` and replaced by its storage
   * URL; every other source is returned resolved but untouched. `None` is a
   * thrown transfer.
   */
  function EnsureRemoteSource(st: State, input: string, headers: map<string, string>, batch: string, o: Oracles)
    : (r: (Option<string>, State))
    ensures input == [] || IsDataUrl(input) ==> r == (Some(input), st)
    ensures r.1 == st.(objects := r.1.objects)
    ensures r.0.None? ==> r.1 == st
  {
    if input == [] || IsDataUrl(input) then (Some(input), st)
    else
      var resolved := ResolveImageUrl(headers, input);
      match Url.Parse(resolved)
      case None => (Some(resolved), st)
      case Some(u) =>
        if u.hostname !in LocalHostnames then (Some(resolved), st)
        else
          var ext := ExtensionFromUrl(u.pathname);
          var key := SourceKey(batch, ext);
          if key in o.faults.uploads then (None, st)
          else (Some(o.publicUrl(key)), st.Stored(key, StoredObject(Fetched(resolved), ContentTypeFor(ext), o.publicUrl(key))))
  }

  /**
   * Only a source on a local host is copied: every other source comes back
   * resolved with nothing stored, and a copied one comes back as the
   * storage URL of `input/{batch}_source.{ext}`, which now holds it.
   */
  lemma EnsureRemoteSourceCopiesOnlyLocal(st: State, input: string, headers: map<string, string>, batch: string, o: Oracles)
    requires input != [] && !IsDataUrl(input)
    ensures var r := EnsureRemoteSource(st, input, headers, batch, o);
      var resolved := ResolveImageUrl(headers, input);
      var u := Url.Parse(resolved);
      && (u.None? || u.value.hostname !in LocalHostnames ==> r == (Some(resolved), st))
      && (u.Some? && u.value.hostname in LocalHostnames && r.0.Some? ==>
            var key := SourceKey(batch, ExtensionFromUrl(u.value.pathname));
            r.0.value == o.publicUrl(key) && key in r.1.objects && r.1.objects[key].body == Fetched(resolved))
  {
  }

  /** Outside the `gen/` and `input/` folders the objects of `st'` are those of `st`. */
  predicate OtherObjectsKept(st: State, st': State)
  {
    && (forall key :: key in st'.objects && !StartsWith(key, "gen/") && !StartsWith(key, "input/") ==> key in st.objects)
    && (forall key :: key in st.objects && !StartsWith(key, "gen/") && !StartsWith(key, "input/") ==>
          key in st'.objects && st'.objects[key] == st.objects[key])
  }

  /** Outside the keys that begin with `folder` the objects of `st'` are those of `st`. */
  predicate OnlyFolderChanged(st: State, st': State, folder: string)
  {
    && (forall key :: key in st'.objects && !StartsWith(key, folder) ==> key in st.objects)
    && (forall key :: key in st.objects && !StartsWith(key, folder) ==> key in st'.objects && st'.objects[key] == st.objects[key])
  }

  /** The copy of a local source is the only object the source step can write, and it lies under `input/`. */
  lemma EnsureRemoteSourceWritesInput(st: State, input: string, headers: map<string, string>, batch: string, o: Oracles)
    ensures OnlyFolderChanged(st, EnsureRemoteSource(st, input, headers, batch, o).1, "input/")
  {
    var st' := EnsureRemoteSource(st, input, headers, batch, o).1;
    if input != [] && !IsDataUrl(input) {
      var resolved := ResolveImageUrl(headers, input);
      var u := Url.Parse(resolved);
      if u.Some? && u.value.hostname in LocalHostnames {
        var ext := ExtensionFromUrl(u.value.pathname);
        var key := SourceKey(batch, ext);
        if key !in o.faults.uploads {
          var obj := StoredObject(Fetched(resolved), ContentTypeFor(ext), o.publicUrl(key));
          assert st' == st.Stored(key, obj);
          StoredUnder(st, key, obj, "input/");
          return;
        }
      }
    }
    assert st' == st;
  }

  /** Storing one object under a key that begins with `folder` changes nothing outside it. */
  lemma StoredUnder(st: State, key: string, obj: StoredObject, folder: string)
    requires StartsWith(key, folder)
    ensures OnlyFolderChanged(st, st.Stored(key, obj), folder)
  {
  }

  /** A step that writes only under `input/` followed by one that writes only under `gen/` keeps every other object. */
  lemma FoldersChanged(st: State, st1: State, st': State)
    requires OnlyFolderChanged(st, st1, "input/") && OnlyFolderChanged(st1, st', "gen/")
    ensures OtherObjectsKept(st, st')
  {
  }

  method EnsureRemoteSourceImage(b: Backend, input: string, headers: map<string, string>, batch: string, o: Oracles)
    returns (r: Option<string>)
    modifies b
    ensures (r, b.Snapshot()) == EnsureRemoteSource(old(b.Snapshot()), input, headers, batch, o)
  {
    if input == [] || IsDataUrl(input) {
      return Some(input);
    }
    var resolved := ResolveImageUrl(headers, input);
    var parsed := Url.Parse(resolved);
    if parsed.None? || parsed.value.hostname !in LocalHostnames {
      return Some(resolved);
    }
    var ext := ExtensionFromUrl(parsed.value.pathname);
    var key := SourceKey(batch, ext);
    if key in o.faults.uploads {
      return None;
    }
    b.Store(key, StoredObject(Fetched(resolved), ContentTypeFor(ext), o.publicUrl(key)));
    r := Some(o.publicUrl(key));
  }

  /** The model parameters of a layered request after defaulting. */
  datatype Params = Params(format: string, quality: real, numLayers: real, goFast: bool, disableSafetyChecker: bool)

  /**
   * A layered request's parameters: the format is `png` exactly when the
   * lower-cased `output_format` is `png` and `webp` otherwise; numbers and
   * booleans are taken only when they have that type.
   */
  function LayeredParams(req: Request): (p: Params)
    ensures p.format == "png" || p.format == "webp"
    ensures p.format == "png" <==> IsNonEmptyString(req.outputFormat) && Lower(req.outputFormat.s) == "png"
    ensures !req.numLayers.Num? ==> p.numLayers == DefaultNumLayers
    ensures !req.outputQuality.Num? ==> p.quality == DefaultQuality
    ensures !req.goFast.Bool? ==> p.goFast
    ensures !req.disableSafetyChecker.Bool? ==> p.disableSafetyChecker
  {
    var requested := if IsNonEmptyString(req.outputFormat) then Lower(req.outputFormat.s) else DefaultFormat;
    Params(
      if requested == "png" then "png" else "webp",
      if req.outputQuality.Num? then req.outputQuality.x else DefaultQuality,
      if req.numLayers.Num? then req.numLayers.x else DefaultNumLayers,
      if req.goFast.Bool? then req.goFast.b else true,
      if req.disableSafetyChecker.Bool? then req.disableSafetyChecker.b else true)
  }

  /** `typeof description === "string" && description ? description : "auto"`. */
  function DescriptionOf(v: Value): string
  {
    if IsNonEmptyString(v) then v.s else "auto"
  }

  /** The input of the model run. */
  function InputOf(req: Request, layered: bool, source: string): ModelInput
  {
    var p := LayeredParams(req);
    if layered then LayeredInput(source, p.goFast, p.numLayers, DescriptionOf(req.description), p.format, p.quality, Some(p.disableSafetyChecker))
    else EditInput(source, DescriptionOf(req.description), req.aspectRatio, "png", req.resolutionInput)
  }

  /**
   * The output URLs: canned ones in mock mode (the layered ones cut to
   * `num_layers`), otherwise the model's array or single value; an edit
   * keeps only the first element. `None` is a thrown error.
   */
  function OutputUrls(layered: bool, numLayers: real, mock: bool, out: ModelOutput): (r: Option<seq<string>>)
    ensures mock && !layered ==> r == Some([MockOutfit])
    ensures !layered && r.Some? ==> |r.value| == 1
    ensures !mock && (out.Threw? || IsFalsyOutput(out)) ==> r.None?
  {
    if mock then Some(if layered then SliceTo(MockLayers, Trunc(numLayers)) else [MockOutfit])
    else match out
      case Threw => None
      case Falsy => None
      case Single(u) => if u == [] then None else Some([u])
      case Many(us) => if layered then Some(us) else if us == [] then None else Some([us[0]])
  }

  /** The storage key of output `i`. */
  function KeyOf(batch: string, layered: bool, i: nat, ext: string): string
  {
    "gen/" + batch + (if layered then "_layer_" + NatToString(i) else "_outfit") + "." + ext
  }

  /** Every output key lies under `gen/`. */
  lemma KeyUnderGen(batch: string, layered: bool, i: nat, ext: string)
    ensures StartsWith(KeyOf(batch, layered, i, ext), "gen/")
  {
    assert KeyOf(batch, layered, i, ext)[..4] == "gen/";
  }

  /** The job for a list of outputs: one record uuid is the batch id exactly when there is one output. */
  function JobOf(user: string, cost: ParsedInt, urls: seq<string>, layered: bool, ext: string, batch: string,
                 source: string, description: string, o: Oracles): (job: Job)
    ensures job.WellFormed() && job.urls == urls
  {
    var n := |urls|;
    Job(user, cost, urls,
        seq(n, i requires 0 <= i < n => KeyOf(batch, layered, i, ext)),
        if n == 1 then [batch] else seq(n, i requires 0 <= i < n => o.uuid(i + 1)),
        if layered then ContentTypeFor(ext) else "image/png",
        source, description, o.now)
  }

  /** The job for the outputs of a run; `None` when the run threw or returned nothing usable. */
  function JobFor(req: Request, layered: bool, source: string, mock: bool, out: ModelOutput,
                  o: Oracles, batch: string, cost: ParsedInt): (r: Option<Job>)
    ensures r.Some? ==> r.value.WellFormed() && r.value.urls != [] && (!layered ==> |r.value.urls| == 1)
  {
    var p := LayeredParams(req);
    match OutputUrls(layered, p.numLayers, mock, out)
    case None => None
    case Some(urls) =>
      if urls == [] then None
      else Some(JobOf(o.user, cost, urls, layered, if layered then p.format else "png", batch, source, DescriptionOf(req.description), o))
  }

  /** Everything after the source was resolved: the model run, then the job. */
  function Generate(st: State, req: Request, layered: bool, source: string, settings: Settings, out: ModelOutput,
                    o: Oracles, batch: string, cost: ParsedInt): (r: (Reply<seq<Outfit>>, State))
    ensures r.0.Error? ==> r.0.message == Failure
  {
    var mock := settings.mock == Some("true");
    var st1 := if mock then st else st.Called(RunModel(Model, InputOf(req, layered, source)));
    match JobFor(req, layered, source, mock, out, o, batch, cost)
    case None => (Error(Failure), st1)
    case Some(job) =>
      var (made, st2) := Materialize(st1, job, o, 0, []);
      (if made.Some? then Data(made.value) else Error(Failure), st2)
  }

  /** The request is layered exactly when `image` is a string; the source is then `image`, else `base_image_url`. */
  function SourceOf(req: Request): Value
  {
    if req.image.Str? then req.image else req.baseImageUrl
  }

  /** The whole request, from the body to the reply and the new state. */
  function PostSpec(st: State, req: Request, headers: map<string, string>, settings: Settings, out: ModelOutput, o: Oracles)
    : (Reply<seq<Outfit>>, State)
  {
    var layered := req.image.Str?;
    var source := SourceOf(req);
    var cost := CostOf(settings.cost);
    if !IsNonEmptyString(source) then (Error(if layered then "invalid image" else "invalid base_image_url"), st)
    else if o.user == [] then (Error("User not authenticated"), st)
    else if Less(st.Balance(o.user), cost) then (Error("Not enough credits"), st)
    else
      var batch := o.uuid(0);
      var (resolved, st1) := EnsureRemoteSource(st, source.s, headers, batch, o);
      if resolved.None? then (Error(Failure), st1)
      else Generate(st1, req, layered, resolved.value, settings, out, o, batch, cost)
  }

  method Post(b: Backend, req: Request, headers: map<string, string>, settings: Settings, out: ModelOutput, o: Oracles)
    returns (reply: Reply<seq<Outfit>>)
    modifies b
    ensures (reply, b.Snapshot()) == PostSpec(old(b.Snapshot()), req, headers, settings, out, o)
  {
    var layered := req.image.Str?;
    var source := if layered then req.image else req.baseImageUrl;
    if !IsNonEmptyString(source) {
      return Error(if layered then "invalid image" else "invalid base_image_url");
    }
    if o.user == [] {
      return Error("User not authenticated");
    }
    var cost := CostOf(settings.cost);
    if Less(b.Snapshot().Balance(o.user), cost) {
      return Error("Not enough credits");
    }
    var batch := o.uuid(0);
    var resolved := EnsureRemoteSourceImage(b, source.s, headers, batch, o);
    if resolved.None? {
      return Error(Failure);
    }
    reply := RunAndStore(b, req, layered, resolved.value, settings, out, o, batch, cost);
  }

  /** The second half of the handler: the model run, then the job's uploads and inserts. */
  method RunAndStore(b: Backend, req: Request, layered: bool, source: string, settings: Settings, out: ModelOutput,
                     o: Oracles, batch: string, cost: ParsedInt) returns (reply: Reply<seq<Outfit>>)
    modifies b
    ensures (reply, b.Snapshot()) == Generate(old(b.Snapshot()), req, layered, source, settings, out, o, batch, cost)
  {
    var mock := settings.mock == Some("true");
    if !mock {
      b.Call(RunModel(Model, InputOf(req, layered, source)));
    }
    var job := JobFor(req, layered, source, mock, out, o, batch, cost);
    if job.None? {
      return Error(Failure);
    }
    var made := MaterializeLoop(b, job.value, o);
    reply := if made.Some? then Data(made.value) else Error(Failure);
  }

  /**
   * The three gates answer before anything happens: an invalid source, a
   * missing session and too few credits each leave the state as it was.
   */
  lemma PostGates(st: State, req: Request, headers: map<string, string>, settings: Settings, out: ModelOutput, o: Oracles)
    ensures !IsNonEmptyString(SourceOf(req)) ==>
      PostSpec(st, req, headers, settings, out, o) == (Error(if req.image.Str? then "invalid image" else "invalid base_image_url"), st)
    ensures IsNonEmptyString(SourceOf(req)) && o.user == [] ==>
      PostSpec(st, req, headers, settings, out, o) == (Error("User not authenticated"), st)
    ensures IsNonEmptyString(SourceOf(req)) && o.user != [] && Less(st.Balance(o.user), CostOf(settings.cost)) ==>
      PostSpec(st, req, headers, settings, out, o) == (Error("Not enough credits"), st)
  {
  }

  /** Only the listed messages occur, and a NaN cost never rejects for credits. */
  lemma PostMessages(st: State, req: Request, headers: map<string, string>, settings: Settings, out: ModelOutput, o: Oracles)
    ensures var reply := PostSpec(st, req, headers, settings, out, o).0;
      reply.Error? ==> reply.message in {"invalid image", "invalid base_image_url", "User not authenticated", "Not enough credits", Failure}
    ensures CostOf(settings.cost).NaN? ==> PostSpec(st, req, headers, settings, out, o).0 != Error("Not enough credits")
  {
    if IsNonEmptyString(SourceOf(req)) && o.user != [] && !Less(st.Balance(o.user), CostOf(settings.cost)) {
      var (resolved, st1) := EnsureRemoteSource(st, SourceOf(req).s, headers, o.uuid(0), o);
      if resolved.Some? {
        var g := Generate(st1, req, req.image.Str?, resolved.value, settings, out, o, o.uuid(0), CostOf(settings.cost));
        assert PostSpec(st, req, headers, settings, out, o) == g;
      }
    }
  }

  /**
   * Record `i` of a job: the batch id as uuid when it is the only output, a
   * fresh uuid otherwise; the session user, one timestamp, the resolved
   * source and description, and the storage URL of its key.
   */
  lemma JobRecords(req: Request, layered: bool, source: string, mock: bool, out: ModelOutput, o: Oracles, batch: string, cost: ParsedInt)
    ensures var job := JobFor(req, layered, source, mock, out, o, batch, cost);
      var ext := if layered then LayeredParams(req).format else "png";
      job.Some? ==>
        && job.value.user == o.user && job.value.cost == cost
        && job.value.urls == OutputUrls(layered, LayeredParams(req).numLayers, mock, out).value
        && job.value.contentType == "image/" + ext
        && KeysDistinct(job.value)
        && (forall i :: 0 <= i < |job.value.urls| ==> job.value.keys[i] == KeyOf(batch, layered, i, ext))
        && forall i :: 0 <= i < |job.value.urls| ==>
             RecordsBetween(job.value, o, 0, |job.value.urls|)[i]
               == Outfit(if |job.value.urls| == 1 then batch else o.uuid(i + 1), o.user, o.now, source,
                         o.publicUrl(KeyOf(batch, layered, i, ext)), DescriptionOf(req.description), Active)
  {
    var job := JobFor(req, layered, source, mock, out, o, batch, cost);
    var ext := if layered then LayeredParams(req).format else "png";
    if job.Some? && layered {
      forall i, j | 0 <= i < j < |job.value.keys| ensures job.value.keys[i] != job.value.keys[j] {
        if job.value.keys[i] == job.value.keys[j] {
          LayerKeysDistinct(batch, i, j, ext);
        }
      }
    }
  }

  /**
   * A success reply is the job's records, all inserted, every output's key
   * is present in storage (`GenerateObjects` says what it holds), and the
   * user was charged once.
   */
  lemma GenerateSucceeds(st: State, req: Request, layered: bool, source: string, settings: Settings, out: ModelOutput,
                         o: Oracles, batch: string, cost: ParsedInt)
    ensures var (reply, st') := Generate(st, req, layered, source, settings, out, o, batch, cost);
      var mock := settings.mock == Some("true");
      var job := JobFor(req, layered, source, mock, out, o, batch, cost);
      var st1 := if mock then st else st.Called(RunModel(Model, InputOf(req, layered, source)));
      var ext := if layered then LayeredParams(req).format else "png";
      reply.Data? ==>
        && job.Some?
        && reply.value == RecordsBetween(job.value, o, 0, |job.value.urls|)
        && st'.outfits == st.outfits + reply.value
        && st'.transactions == st.transactions + [CreditTx(o.user, OutfitGeneration, Decrease(cost))]
        && st'.credits == st.Debited(o.user, cost).credits
        && st'.calls == st1.calls
        && st'.wallpapers == st.wallpapers && st'.users == st.users && st'.orders == st.orders
        && (forall i :: 0 <= i < |job.value.urls| ==> job.value.keys[i] in st'.objects)
  {
    var mock := settings.mock == Some("true");
    var job := JobFor(req, layered, source, mock, out, o, batch, cost);
    var st1 := if mock then st else st.Called(RunModel(Model, InputOf(req, layered, source)));
    if job.Some? {
      JobRecords(req, layered, source, mock, out, o, batch, cost);
      MaterializeCommits(st1, job.value, o);
    }
  }

  /**
   * What a successful generation stored: under the key of output `i` the
   * download of that output, typed `image/{ext}` after the format; every
   * object under any other key is unchanged, and none was added there.
   */
  lemma GenerateObjects(st: State, req: Request, layered: bool, source: string, settings: Settings, out: ModelOutput,
                        o: Oracles, batch: string, cost: ParsedInt)
    ensures var (reply, st') := Generate(st, req, layered, source, settings, out, o, batch, cost);
      var job := JobFor(req, layered, source, settings.mock == Some("true"), out, o, batch, cost);
      var ext := if layered then LayeredParams(req).format else "png";
      reply.Data? ==>
        && job.Some?
        && (forall i :: 0 <= i < |job.value.urls| ==>
              && job.value.keys[i] in st'.objects
              && st'.objects[job.value.keys[i]] == StoredObject(Fetched(job.value.urls[i]), "image/" + ext, o.publicUrl(job.value.keys[i])))
        && ObjectsKeptOutside(st, st', job.value.keys)
  {
    var mock := settings.mock == Some("true");
    var job := JobFor(req, layered, source, mock, out, o, batch, cost);
    var st1 := if mock then st else st.Called(RunModel(Model, InputOf(req, layered, source)));
    var ext := if layered then LayeredParams(req).format else "png";
    if job.Some? {
      var j := job.value;
      JobRecords(req, layered, source, mock, out, o, batch, cost);
      assert Generate(st, req, layered, source, settings, out, o, batch, cost) ==
        var (made, st2) := Materialize(st1, j, o, 0, []);
        (if made.Some? then Data(made.value) else Error(Failure), st2);
      MaterializeCommits(st1, j, o);
      var (made, st2) := Materialize(st1, j, o, 0, []);
      if made.Some? {
        assert st1.objects == st.objects;
        forall i | 0 <= i < |j.urls|
          ensures st2.objects[j.keys[i]] == StoredObject(Fetched(j.urls[i]), "image/" + ext, o.publicUrl(j.keys[i]))
        {
          assert st2.objects[j.keys[i]] == ObjectAt(j, o, i);
        }
      }
    }
  }

  /** A failed generation never charges. */
  lemma GenerateFailureNeverCharges(st: State, req: Request, layered: bool, source: string, settings: Settings, out: ModelOutput,
                                    o: Oracles, batch: string, cost: ParsedInt)
    ensures var (reply, st') := Generate(st, req, layered, source, settings, out, o, batch, cost);
      reply.Error? ==> st'.credits == st.credits && st'.transactions == st.transactions
  {
    var mock := settings.mock == Some("true");
    var job := JobFor(req, layered, source, mock, out, o, batch, cost);
    var st1 := if mock then st else st.Called(RunModel(Model, InputOf(req, layered, source)));
    if job.Some? {
      assert Generate(st, req, layered, source, settings, out, o, batch, cost) == 
        var (made, st2) := Materialize(st1, job.value, o, 0, []);
        (if made.Some? then Data(made.value) else Error(Failure), st2);
      MaterializeFailureNeverCharges(st1, job.value, o, 0, []);
    }
  }

  /** Generation calls the provider once unless mocked, and makes no other call. */
  lemma GenerateCalls(st: State, req: Request, layered: bool, source: string, settings: Settings, out: ModelOutput,
                      o: Oracles, batch: string, cost: ParsedInt)
    ensures var st' := Generate(st, req, layered, source, settings, out, o, batch, cost).1;
      st'.calls == if settings.mock == Some("true") then st.calls else st.calls + [RunModel(Model, InputOf(req, layered, source))]
  {
    var mock := settings.mock == Some("true");
    var job := JobFor(req, layered, source, mock, out, o, batch, cost);
    var st1 := if mock then st else st.Called(RunModel(Model, InputOf(req, layered, source)));
    if job.Some? {
      MaterializeFrame(st1, job.value, o, 0, []);
    }
  }

  /**
   * A successful request passed the three gates, appended exactly the
   * records it returns, charged the cost once, and called the provider once
   * unless mocked.
   */
  lemma PostSucceeds(st: State, req: Request, headers: map<string, string>, settings: Settings, out: ModelOutput, o: Oracles)
    ensures var (reply, st') := PostSpec(st, req, headers, settings, out, o);
      var cost := CostOf(settings.cost);
      reply.Data? ==>
        && IsNonEmptyString(SourceOf(req)) && o.user != [] && !Less(st.Balance(o.user), cost)
        && reply.value != []
        && st'.outfits == st.outfits + reply.value
        && st'.transactions == st.transactions + [CreditTx(o.user, OutfitGeneration, Decrease(cost))]
        && st'.credits == st.Debited(o.user, cost).credits
        && |st'.calls| == |st.calls| + (if settings.mock == Some("true") then 0 else 1)
        && st'.wallpapers == st.wallpapers && st'.users == st.users && st'.orders == st.orders
  {
    var (reply, st') := PostSpec(st, req, headers, settings, out, o);
    var cost := CostOf(settings.cost);
    PostGates(st, req, headers, settings, out, o);
    if IsNonEmptyString(SourceOf(req)) && o.user != [] && !Less(st.Balance(o.user), cost) {
      var layered := req.image.Str?;
      var batch := o.uuid(0);
      var (resolved, st1) := EnsureRemoteSource(st, SourceOf(req).s, headers, batch, o);
      if resolved.Some? {
        assert (reply, st') == Generate(st1, req, layered, resolved.value, settings, out, o, batch, cost);
        GenerateSucceeds(st1, req, layered, resolved.value, settings, out, o, batch, cost);
        GenerateCalls(st1, req, layered, resolved.value, settings, out, o, batch, cost);
        st.DebitedCredits(st1, o.user, cost);
      }
    }
  }

  /**
   * The records of a successful request: an edit makes exactly one; each
   * has the session user, the shared timestamp, the resolved description
   * and `active` status; its uuid is the batch id exactly when it is the
   * only record, and its image is the public URL of the key of output `i`,
   * `gen/{batch}_layer_{i}.{ext}` or `gen/{batch}_outfit.png`, which is
   * present in storage (`PostStores` states what that key holds).
   */
  lemma PostRecords(st: State, req: Request, headers: map<string, string>, settings: Settings, out: ModelOutput, o: Oracles)
    ensures var (reply, st') := PostSpec(st, req, headers, settings, out, o);
      var layered := req.image.Str?;
      var ext := if layered then LayeredParams(req).format else "png";
      reply.Data? ==>
        && (!layered ==> |reply.value| == 1)
        && forall i :: 0 <= i < |reply.value| ==>
             && reply.value[i].userUuid == o.user
             && reply.value[i].createdAt == o.now
             && reply.value[i].imgDescription == DescriptionOf(req.description)
             && reply.value[i].status == Active
             && reply.value[i].uuid == (if |reply.value| == 1 then o.uuid(0) else o.uuid(i + 1))
             && reply.value[i].imgUrl == o.publicUrl(KeyOf(o.uuid(0), layered, i, ext))
             && KeyOf(o.uuid(0), layered, i, ext) in st'.objects
  {
    var (reply, st') := PostSpec(st, req, headers, settings, out, o);
    var cost := CostOf(settings.cost);
    PostGates(st, req, headers, settings, out, o);
    if IsNonEmptyString(SourceOf(req)) && o.user != [] && !Less(st.Balance(o.user), cost) {
      var layered := req.image.Str?;
      var batch := o.uuid(0);
      var (resolved, st1) := EnsureRemoteSource(st, SourceOf(req).s, headers, batch, o);
      if resolved.Some? {
        assert (reply, st') == Generate(st1, req, layered, resolved.value, settings, out, o, batch, cost);
        GenerateSucceeds(st1, req, layered, resolved.value, settings, out, o, batch, cost);
        JobRecords(req, layered, resolved.value, settings.mock == Some("true"), out, o, batch, cost);
      }
    }
  }

  /** Under the key of output `i` lies the download of `urls[i]`, typed `image/{ext}`. */
  predicate OutputsStored(st: State, o: Oracles, batch: string, layered: bool, ext: string, urls: seq<string>)
  {
    forall i :: 0 <= i < |urls| ==>
      && KeyOf(batch, layered, i, ext) in st.objects
      && st.objects[KeyOf(batch, layered, i, ext)] == StoredObject(Fetched(urls[i]), "image/" + ext, o.publicUrl(KeyOf(batch, layered, i, ext)))
  }

  /**
   * What a successful generation stored: under the key of output `i` the
   * download of that output, typed after the format, and nothing outside
   * `gen/`.
   */
  lemma GenerateStores(st: State, req: Request, layered: bool, source: string, settings: Settings, out: ModelOutput,
                       o: Oracles, batch: string, cost: ParsedInt)
    ensures var (reply, st') := Generate(st, req, layered, source, settings, out, o, batch, cost);
      var ext := if layered then LayeredParams(req).format else "png";
      var urls := OutputUrls(layered, LayeredParams(req).numLayers, settings.mock == Some("true"), out);
      reply.Data? ==>
        && urls.Some? && |urls.value| == |reply.value|
        && OutputsStored(st', o, batch, layered, ext, urls.value)
        && OnlyFolderChanged(st, st', "gen/")
  {
    var (reply, st') := Generate(st, req, layered, source, settings, out, o, batch, cost);
    if reply.Data? {
      var mock := settings.mock == Some("true");
      GenerateSucceeds(st, req, layered, source, settings, out, o, batch, cost);
      GenerateObjects(st, req, layered, source, settings, out, o, batch, cost);
      JobRecords(req, layered, source, mock, out, o, batch, cost);
      OutputKeysUnderGen(req, layered, source, mock, out, o, batch, cost);
      var job := JobFor(req, layered, source, mock, out, o, batch, cost).value;
      var ext := if layered then LayeredParams(req).format else "png";
      assert |reply.value| == |job.urls|;
      forall i | 0 <= i < |job.urls|
        ensures && KeyOf(batch, layered, i, ext) in st'.objects
                && st'.objects[KeyOf(batch, layered, i, ext)]
                     == StoredObject(Fetched(job.urls[i]), "image/" + ext, o.publicUrl(KeyOf(batch, layered, i, ext)))
      {
        assert job.keys[i] == KeyOf(batch, layered, i, ext);
      }
      KeysUnderFolder(st, st', job.keys, "gen/");
    }
  }

  /** Writing only under keys that all begin with `folder` changes nothing outside it. */
  lemma KeysUnderFolder(st: State, st': State, keys: seq<string>, folder: string)
    requires ObjectsKeptOutside(st, st', keys)
    requires forall key :: key in keys ==> StartsWith(key, folder)
    ensures OnlyFolderChanged(st, st', folder)
  {
  }

  /**
   * What a successful request stored: under the key of output `i` the
   * download of that output, typed `image/png` or `image/webp` after the
   * format; outside `gen/` and `input/` no object was added, changed or
   * removed.
   */
  lemma PostStores(st: State, req: Request, headers: map<string, string>, settings: Settings, out: ModelOutput, o: Oracles)
    ensures var (reply, st') := PostSpec(st, req, headers, settings, out, o);
      var layered := req.image.Str?;
      var ext := if layered then LayeredParams(req).format else "png";
      var urls := OutputUrls(layered, LayeredParams(req).numLayers, settings.mock == Some("true"), out);
      reply.Data? ==>
        && urls.Some? && |urls.value| == |reply.value|
        && OutputsStored(st', o, o.uuid(0), layered, ext, urls.value)
        && OtherObjectsKept(st, st')
  {
    var (reply, st') := PostSpec(st, req, headers, settings, out, o);
    var cost := CostOf(settings.cost);
    PostGates(st, req, headers, settings, out, o);
    if IsNonEmptyString(SourceOf(req)) && o.user != [] && !Less(st.Balance(o.user), cost) {
      var batch := o.uuid(0);
      var (resolved, st1) := EnsureRemoteSource(st, SourceOf(req).s, headers, batch, o);
      if resolved.Some? {
        assert (reply, st') == Generate(st1, req, req.image.Str?, resolved.value, settings, out, o, batch, cost);
        GenerateStores(st1, req, req.image.Str?, resolved.value, settings, out, o, batch, cost);
        if reply.Data? {
          EnsureRemoteSourceWritesInput(st, SourceOf(req).s, headers, batch, o);
          FoldersChanged(st, st1, st');
        }
      }
    }
  }

  /** Every output key lies under `gen/`. */
  lemma OutputKeysUnderGen(req: Request, layered: bool, source: string, mock: bool, out: ModelOutput, o: Oracles, batch: string, cost: ParsedInt)
    ensures var job := JobFor(req, layered, source, mock, out, o, batch, cost);
      job.Some? ==> forall key :: key in job.value.keys ==> StartsWith(key, "gen/")
  {
    var job := JobFor(req, layered, source, mock, out, o, batch, cost);
    var ext := if layered then LayeredParams(req).format else "png";
    if job.Some? {
      forall key | key in job.value.keys ensures StartsWith(key, "gen/") {
        var i :| 0 <= i < |job.value.keys| && job.value.keys[i] == key;
        assert key == KeyOf(batch, layered, i, ext);
        KeyUnderGen(batch, layered, i, ext);
      }
    }
  }

  /** A failed request never charges: credits and transactions are as before, whatever threw. */
  lemma PostFailureNeverCharges(st: State, req: Request, headers: map<string, string>, settings: Settings, out: ModelOutput, o: Oracles)
    ensures var (reply, st') := PostSpec(st, req, headers, settings, out, o);
      reply.Error? ==> st'.credits == st.credits && st'.transactions == st.transactions
  {
    var cost := CostOf(settings.cost);
    PostGates(st, req, headers, settings, out, o);
    if IsNonEmptyString(SourceOf(req)) && o.user != [] && !Less(st.Balance(o.user), cost) {
      var (resolved, st1) := EnsureRemoteSource(st, SourceOf(req).s, headers, o.uuid(0), o);
      if resolved.Some? {
        assert PostSpec(st, req, headers, settings, out, o)
            == Generate(st1, req, req.image.Str?, resolved.value, settings, out, o, o.uuid(0), cost);
        GenerateFailureNeverCharges(st1, req, req.image.Str?, resolved.value, settings, out, o, o.uuid(0), cost);
      }
    }
  }

  /** A mocked request never calls the provider. */
  lemma PostMockSkipsProvider(st: State, req: Request, headers: map<string, string>, settings: Settings, out: ModelOutput, o: Oracles)
    requires settings.mock == Some("true")
    ensures PostSpec(st, req, headers, settings, out, o).1.calls == st.calls
  {
    var cost := CostOf(settings.cost);
    PostGates(st, req, headers, settings, out, o);
    if IsNonEmptyString(SourceOf(req)) && o.user != [] && !Less(st.Balance(o.user), cost) {
      var (resolved, st1) := EnsureRemoteSource(st, SourceOf(req).s, headers, o.uuid(0), o);
      if resolved.Some? {
        GenerateCalls(st1, req, req.image.Str?, resolved.value, settings, out, o, o.uuid(0), cost);
      }
    }
  }

  /** With distinct uuids, a record carries the batch id exactly when it is the only record. */
  lemma PostUuidPolicy(st: State, req: Request, headers: map<string, string>, settings: Settings, out: ModelOutput, o: Oracles)
    requires UuidsDistinct(o)
    ensures var reply := PostSpec(st, req, headers, settings, out, o).0;
      reply.Data? ==> forall i :: 0 <= i < |reply.value| ==> (reply.value[i].uuid == o.uuid(0) <==> |reply.value| == 1)
  {
    PostRecords(st, req, headers, settings, out, o);
    var reply := PostSpec(st, req, headers, settings, out, o).0;
    if reply.Data? {
      forall i | 0 <= i < |reply.value|
        ensures reply.value[i].uuid == o.uuid(0) <==> |reply.value| == 1
      {
        if |reply.value| != 1 {
          assert o.uuid(i + 1) != o.uuid(0);
        }
      }
    }
  }

  /** Distinct layers are stored under distinct keys. */
  lemma LayerKeysDistinct(batch: string, i: nat, j: nat, ext: string)
    requires KeyOf(batch, true, i, ext) == KeyOf(batch, true, j, ext)
    ensures i == j
  {
    var p := "gen/" + batch + "_layer_";
    assert KeyOf(batch, true, i, ext) == p + NatToString(i) + ("." + ext);
    assert KeyOf(batch, true, j, ext) == p + NatToString(j) + ("." + ext);
    NumberedKeysDistinct(p, i, j, "." + ext, "." + ext);
  }

  /** In mock mode a layered request gets the canned layers cut to `num_layers`, an edit the one canned image. */
  lemma MockOutputs(req: Request, out: ModelOutput)
    ensures OutputUrls(true, LayeredParams(req).numLayers, true, out) == Some(SliceTo(MockLayers, Trunc(LayeredParams(req).numLayers)))
    ensures !req.numLayers.Num? ==> OutputUrls(true, LayeredParams(req).numLayers, true, out) == Some(MockLayers)
    ensures OutputUrls(false, LayeredParams(req).numLayers, true, out) == Some([MockOutfit])
  {
    TruncOfInt(4);
    assert MockLayers[..4] == MockLayers;
  }
}
