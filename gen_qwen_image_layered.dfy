/**
 * `POST /api/gen-qwen-image-layered`: the layered-only variant of the
 * outfit route. The image is sent to the model as given (no local copy),
 * mock mode returns all four canned layers whatever `num_layers` says,
 * every record gets a fresh uuid, and each record keeps the raw input image
 * as its base image.
 */
module GenQwenImageLayered {

  import opened Wrappers
  import opened Js
  import opened Ledger
  import GenOutfit

  const Failure := "generate qwen-image-layered fail"

  datatype Request = Request(
    image: Value,
    description: Value,
    numLayers: Value,
    goFast: Value,
    outputFormat: Value,
    outputQuality: Value)

  /**
   * The same defaulting as the outfit route's layered mode; this route has
   * no `disable_safety_checker`, so that field is never sent.
   */
  function ParamsOf(req: Request): (p: GenOutfit.Params)
    ensures p.format == "png" <==> IsNonEmptyString(req.outputFormat) && Strings.Lower(req.outputFormat.s) == "png"
    ensures p.format == "png" || p.format == "webp"
    ensures !req.numLayers.Num? ==> p.numLayers == GenOutfit.DefaultNumLayers
    ensures !req.outputQuality.Num? ==> p.quality == GenOutfit.DefaultQuality
    ensures !req.goFast.Bool? ==> p.goFast
  {
    GenOutfit.LayeredParams(GenOutfit.Request(Undefined, req.image, req.description, Undefined, Undefined,
                                              req.numLayers, req.goFast, req.outputFormat, req.outputQuality, Undefined))
  }

  function InputOf(req: Request): ModelInput
    requires req.image.Str?
  {
    var p := ParamsOf(req);
    LayeredInput(req.image.s, p.goFast, p.numLayers, GenOutfit.DescriptionOf(req.description), p.format, p.quality, None)
  }

  /** The output URLs: all canned layers in mock mode, else the array or the single value; `None` is a throw. */
  function OutputUrls(mock: bool, out: ModelOutput): (r: Option<seq<string>>)
    ensures mock ==> r == Some(GenOutfit.MockLayers)
    ensures !mock && (out.Threw? || IsFalsyOutput(out)) ==> r.None?
  {
    if mock then Some(GenOutfit.MockLayers)
    else match out
      case Threw => None
      case Falsy => None
      case Single(u) => if u == [] then None else Some([u])
      case Many(us) => Some(us)
  }

  /** Output `i` goes to `gen/{batch}_layer_{i}.{ext}` and record `i` takes the `(i + 1)`-th uuid. */
  function JobFor(req: Request, mock: bool, out: ModelOutput, o: Oracles, batch: string, cost: ParsedInt): (r: Option<Job>)
    requires req.image.Str?
    ensures r.Some? ==> r.value.WellFormed() && r.value.urls != []
  {
    var p := ParamsOf(req);
    match OutputUrls(mock, out)
    case None => None
    case Some(urls) =>
      if urls == [] then None
      else
        var n := |urls|;
        Some(Job(o.user, cost, urls,
                 seq(n, i requires 0 <= i < n => GenOutfit.KeyOf(batch, true, i, p.format)),
                 seq(n, i requires 0 <= i < n => o.uuid(i + 1)),
                 GenOutfit.ContentTypeFor(p.format), req.image.s,
                 GenOutfit.DescriptionOf(req.description), o.now))
  }

  /** The model run and the job, after the gates. */
  function Generate(st: State, req: Request, mock: bool, out: ModelOutput, o: Oracles, cost: ParsedInt)
    : (r: (Reply<seq<Outfit>>, State))
    requires req.image.Str?
    ensures r.0.Error? ==> r.0.message == Failure
  {
    var st1 := if mock then st else st.Called(RunModel(GenOutfit.Model, InputOf(req)));
    match JobFor(req, mock, out, o, o.uuid(0), cost)
    case None => (Error(Failure), st1)
    case Some(job) =>
      var (made, st2) := Materialize(st1, job, o, 0, []);
      (if made.Some? then Data(made.value) else Error(Failure), st2)
  }

  function PostSpec(st: State, req: Request, settings: Settings, out: ModelOutput, o: Oracles)
    : (Reply<seq<Outfit>>, State)
  {
    var cost := CostOf(settings.cost);
    if !IsNonEmptyString(req.image) then (Error("invalid image"), st)
    else if o.user == [] then (Error("User not authenticated"), st)
    else if Less(st.Balance(o.user), cost) then (Error("Not enough credits"), st)
    else Generate(st, req, settings.mock == Some("true"), out, o, cost)
  }

  method Post(b: Backend, req: Request, settings: Settings, out: ModelOutput, o: Oracles)
    returns (reply: Reply<seq<Outfit>>)
    modifies b
    ensures (reply, b.Snapshot()) == PostSpec(old(b.Snapshot()), req, settings, out, o)
  {
    if !IsNonEmptyString(req.image) {
      return Error("invalid image");
    }
    if o.user == [] {
      return Error("User not authenticated");
    }
    var cost := CostOf(settings.cost);
    if Less(b.Snapshot().Balance(o.user), cost) {
      return Error("Not enough credits");
    }
    var mock := settings.mock == Some("true");
    if !mock {
      b.Call(RunModel(GenOutfit.Model, InputOf(req)));
    }
    var job := JobFor(req, mock, out, o, o.uuid(0), cost);
    if job.None? {
      return Error(Failure);
    }
    var made := MaterializeLoop(b, job.value, o);
    reply := if made.Some? then Data(made.value) else Error(Failure);
  }

  /** The gates answer before any effect. */
  lemma PostGates(st: State, req: Request, settings: Settings, out: ModelOutput, o: Oracles)
    ensures !IsNonEmptyString(req.image) ==> PostSpec(st, req, settings, out, o) == (Error("invalid image"), st)
    ensures IsNonEmptyString(req.image) && o.user == [] ==> PostSpec(st, req, settings, out, o) == (Error("User not authenticated"), st)
    ensures IsNonEmptyString(req.image) && o.user != [] && Less(st.Balance(o.user), CostOf(settings.cost)) ==>
      PostSpec(st, req, settings, out, o) == (Error("Not enough credits"), st)
    ensures var reply := PostSpec(st, req, settings, out, o).0;
      reply.Error? ==> reply.message in {"invalid image", "User not authenticated", "Not enough credits", Failure}
  {
  }

  /**
   * A falsy or empty provider output throws before anything is stored: the
   * only change is the provider call itself.
   */
  lemma EmptyOutputStoresNothing(st: State, req: Request, settings: Settings, out: ModelOutput, o: Oracles)
    requires settings.mock != Some("true")
    requires out.Threw? || IsFalsyOutput(out) || out == Many([])
    ensures var (reply, st') := PostSpec(st, req, settings, out, o);
      reply.Error? && (st' == st || st' == st.Called(RunModel(GenOutfit.Model, InputOf(req))))
  {
  }

  /**
   * The job lists the outputs with distinct keys and the format's content
   * type; record `i` has the `(i + 1)`-th uuid, the raw image as base and
   * the storage URL of output `i`'s key.
   */
  lemma JobRecords(req: Request, mock: bool, out: ModelOutput, o: Oracles, batch: string, cost: ParsedInt)
    requires req.image.Str?
    ensures var job := JobFor(req, mock, out, o, batch, cost);
      job.Some? ==>
        && job.value.urls == OutputUrls(mock, out).value
        && job.value.contentType == "image/" + ParamsOf(req).format
        && KeysDistinct(job.value)
        && (forall key :: key in job.value.keys ==> Strings.StartsWith(key, "gen/"))
        && forall i :: 0 <= i < |job.value.urls| ==>
          && job.value.keys[i] == GenOutfit.KeyOf(batch, true, i, ParamsOf(req).format)
          && RecordAt(job.value, o, i)
               == Outfit(o.uuid(i + 1), o.user, o.now, req.image.s,
                         o.publicUrl(GenOutfit.KeyOf(batch, true, i, ParamsOf(req).format)),
                         GenOutfit.DescriptionOf(req.description), Active)
  {
    var job := JobFor(req, mock, out, o, batch, cost);
    var ext := ParamsOf(req).format;
    if job.Some? {
      forall i, j | 0 <= i < j < |job.value.keys| ensures job.value.keys[i] != job.value.keys[j] {
        if job.value.keys[i] == job.value.keys[j] {
          GenOutfit.LayerKeysDistinct(batch, i, j, ext);
        }
      }
      forall key | key in job.value.keys ensures Strings.StartsWith(key, "gen/") {
        var i :| 0 <= i < |job.value.keys| && job.value.keys[i] == key;
        assert key == "gen/" + (batch + "_layer_" + Strings.NatToString(i) + "." + ext);
      }
    }
  }

  /**
   * A successful generation charged once and made one record per output;
   * the key of output `i` holds that output's download typed after the
   * format, and nothing outside `gen/` changed.
   */
  lemma GenerateSucceeds(st: State, req: Request, mock: bool, out: ModelOutput, o: Oracles, cost: ParsedInt)
    requires req.image.Str?
    ensures var (reply, st') := Generate(st, req, mock, out, o, cost);
      var job := JobFor(req, mock, out, o, o.uuid(0), cost);
      reply.Data? ==>
        && job.Some? && reply.value != []
        && (mock ==> |reply.value| == 4)
        && st'.outfits == st.outfits + reply.value
        && st'.transactions == st.transactions + [CreditTx(o.user, OutfitGeneration, Decrease(cost))]
        && st'.credits == st.Debited(o.user, cost).credits
        && |reply.value| == |job.value.urls|
        && (forall i :: 0 <= i < |reply.value| ==>
              reply.value[i] == RecordAt(job.value, o, i) && job.value.keys[i] in st'.objects)
        && GenOutfit.OutputsStored(st', o, o.uuid(0), true, ParamsOf(req).format, job.value.urls)
        && GenOutfit.OnlyFolderChanged(st, st', "gen/")
  {
    var st1 := if mock then st else st.Called(RunModel(GenOutfit.Model, InputOf(req)));
    var job := JobFor(req, mock, out, o, o.uuid(0), cost);
    if job.Some? {
      assert Generate(st, req, mock, out, o, cost) ==
        var (made, st2) := Materialize(st1, job.value, o, 0, []);
        (if made.Some? then Data(made.value) else Error(Failure), st2);
      MaterializeCommits(st1, job.value, o);
      st.DebitedCredits(st1, o.user, cost);
      JobRecords(req, mock, out, o, o.uuid(0), cost);
      var st2 := Materialize(st1, job.value, o, 0, []).1;
      if Materialize(st1, job.value, o, 0, []).0.Some? {
        JobStored(st1, st2, job.value, o, ParamsOf(req).format);
        GenOutfit.KeysUnderFolder(st1, st2, job.value.keys, "gen/");
      }
    }
  }

  /** The objects a committed job leaves, read through the route's keys. */
  lemma JobStored(st: State, st': State, job: Job, o: Oracles, ext: string)
    requires job.WellFormed() && job.contentType == "image/" + ext
    requires forall i :: 0 <= i < |job.urls| ==> job.keys[i] == GenOutfit.KeyOf(o.uuid(0), true, i, ext)
    requires forall i :: 0 <= i < |job.urls| ==> job.keys[i] in st'.objects && st'.objects[job.keys[i]] == ObjectAt(job, o, i)
    ensures GenOutfit.OutputsStored(st', o, o.uuid(0), true, ext, job.urls)
  {
  }

  /** A failed generation never charges. */
  lemma GenerateFailureNeverCharges(st: State, req: Request, mock: bool, out: ModelOutput, o: Oracles, cost: ParsedInt)
    requires req.image.Str?
    ensures var (reply, st') := Generate(st, req, mock, out, o, cost);
      reply.Error? ==> st'.credits == st.credits && st'.transactions == st.transactions
  {
    var st1 := if mock then st else st.Called(RunModel(GenOutfit.Model, InputOf(req)));
    var job := JobFor(req, mock, out, o, o.uuid(0), cost);
    if job.Some? {
      assert Generate(st, req, mock, out, o, cost) ==
        var (made, st2) := Materialize(st1, job.value, o, 0, []);
        (if made.Some? then Data(made.value) else Error(Failure), st2);
      MaterializeFailureNeverCharges(st1, job.value, o, 0, []);
    }
  }

  /**
   * A success reply is one record per output, in order: a fresh uuid each
   * (the `(i + 1)`-th), the raw input image as base, the public URL of
   * `gen/{batch}_layer_{i}.{ext}`; the records were appended and the user
   * was charged once. Key `i` holds the download of output `i`, typed
   * `image/png` or `image/webp` after the format, and no object outside
   * `gen/` was added, changed or removed.
   */
  lemma PostSucceeds(st: State, req: Request, settings: Settings, out: ModelOutput, o: Oracles)
    ensures var (reply, st') := PostSpec(st, req, settings, out, o);
      var cost := CostOf(settings.cost);
      reply.Data? ==>
        && IsNonEmptyString(req.image) && o.user != [] && !Less(st.Balance(o.user), cost)
        && reply.value != []
        && (settings.mock == Some("true") ==> |reply.value| == 4)
        && st'.outfits == st.outfits + reply.value
        && st'.transactions == st.transactions + [CreditTx(o.user, OutfitGeneration, Decrease(cost))]
        && st'.credits == st.Debited(o.user, cost).credits
        && (forall i :: 0 <= i < |reply.value| ==>
              && reply.value[i].uuid == o.uuid(i + 1)
              && reply.value[i].userUuid == o.user
              && reply.value[i].baseImageUrl == req.image.s
              && reply.value[i].imgUrl == o.publicUrl(GenOutfit.KeyOf(o.uuid(0), true, i, ParamsOf(req).format))
              && GenOutfit.KeyOf(o.uuid(0), true, i, ParamsOf(req).format) in st'.objects)
        && OutputUrls(settings.mock == Some("true"), out).Some?
        && GenOutfit.OutputsStored(st', o, o.uuid(0), true, ParamsOf(req).format, OutputUrls(settings.mock == Some("true"), out).value)
        && GenOutfit.OnlyFolderChanged(st, st', "gen/")
  {
    var cost := CostOf(settings.cost);
    PostGates(st, req, settings, out, o);
    if IsNonEmptyString(req.image) && o.user != [] && !Less(st.Balance(o.user), cost) {
      GenerateSucceeds(st, req, settings.mock == Some("true"), out, o, cost);
      JobRecords(req, settings.mock == Some("true"), out, o, o.uuid(0), cost);
    }
  }

  /** With distinct uuids no record ever carries the batch id. */
  lemma NoRecordTakesTheBatchId(st: State, req: Request, settings: Settings, out: ModelOutput, o: Oracles)
    requires UuidsDistinct(o)
    ensures var reply := PostSpec(st, req, settings, out, o).0;
      reply.Data? ==> forall i :: 0 <= i < |reply.value| ==> reply.value[i].uuid != o.uuid(0)
  {
    PostSucceeds(st, req, settings, out, o);
    var reply := PostSpec(st, req, settings, out, o).0;
    if reply.Data? {
      forall i | 0 <= i < |reply.value| ensures reply.value[i].uuid != o.uuid(0) {
        assert o.uuid(i + 1) != o.uuid(0);
      }
    }
  }

  /** A failed request never charges. */
  lemma PostFailureNeverCharges(st: State, req: Request, settings: Settings, out: ModelOutput, o: Oracles)
    ensures var (reply, st') := PostSpec(st, req, settings, out, o);
      reply.Error? ==> st'.credits == st.credits && st'.transactions == st.transactions
  {
    var cost := CostOf(settings.cost);
    PostGates(st, req, settings, out, o);
    if IsNonEmptyString(req.image) && o.user != [] && !Less(st.Balance(o.user), cost) {
      GenerateFailureNeverCharges(st, req, settings.mock == Some("true"), out, o, cost);
    }
  }
}
