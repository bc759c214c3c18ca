/**
 * `POST /api/invert-image`: fetch the base image, store its colour negative
 * as a PNG, charge the user and only then insert the single record. A
 * failing insert therefore leaves the user charged without a record.
 */
module InvertImage {

  import opened Wrappers
  import opened Js
  import opened Ledger

  const Failure := "invert image fail"
  const DefaultDescription := "Inverted image"

  /** The body: `description` is `None` when the field is absent. */
  datatype Request = Request(baseImageUrl: Value, description: Option<string>)

  /** The destructuring default applies only to an absent description; an empty one is kept. */
  function DescriptionOf(d: Option<string>): (r: string)
    ensures d.None? ==> r == DefaultDescription
    ensures d.Some? ==> r == d.value
  {
    match d
    case None => DefaultDescription
    case Some(s) => s
  }

  /** The storage key of the inverted image. */
  function KeyOf(batch: string): string
  {
    "gen/" + batch + "_invert.png"
  }

  /** The only record the route writes; it takes the batch id as its uuid. */
  function RecordOf(req: Request, o: Oracles): Outfit
    requires req.baseImageUrl.Str?
  {
    var batch := o.uuid(0);
    Outfit(batch, o.user, o.now, req.baseImageUrl.s, o.publicUrl(KeyOf(batch)), DescriptionOf(req.description), Active)
  }

  predicate GatesPass(st: State, req: Request, cost: ParsedInt, o: Oracles)
  {
    IsNonEmptyString(req.baseImageUrl) && o.user != [] && !Less(st.Balance(o.user), cost)
  }

  /**
   * The route after its gates. `fetchOk` is the base download's `ok`;
   * `decodable` says whether the image library could read the bytes (it
   * throws otherwise).
   */
  function Invert(st: State, req: Request, cost: ParsedInt, fetchOk: bool, decodable: bool, o: Oracles)
    : (Reply<seq<Outfit>>, State)
    requires req.baseImageUrl.Str?
  {
    var url := req.baseImageUrl.s;
    var key := KeyOf(o.uuid(0));
    var st1 := st.Called(FetchImage(url));
    if !fetchOk then (Error("Failed to fetch base image"), st1)
    else if !decodable || key in o.faults.uploads then (Error(Failure), st1)
    else
      var st2 := st1.Stored(key, StoredObject(Transformed("negate", url), "image/png", o.publicUrl(key)));
      if o.faults.charge then (Error(Failure), st2)
      else
        var st3 := st2.Debited(o.user, cost);
        var rec := RecordOf(req, o);
        if rec.uuid in o.faults.inserts then (Error(Failure), st3)
        else (Data([rec]), st3.Inserted(rec))
  }

  function PostSpec(st: State, req: Request, costSetting: Option<string>, fetchOk: bool, decodable: bool, o: Oracles)
    : (Reply<seq<Outfit>>, State)
  {
    var cost := CostOf(costSetting);
    if !IsNonEmptyString(req.baseImageUrl) then (Error("invalid base_image_url"), st)
    else if o.user == [] then (Error("User not authenticated"), st)
    else if Less(st.Balance(o.user), cost) then (Error("Not enough credits"), st)
    else Invert(st, req, cost, fetchOk, decodable, o)
  }

  method Post(b: Backend, req: Request, costSetting: Option<string>, fetchOk: bool, decodable: bool, o: Oracles)
    returns (reply: Reply<seq<Outfit>>)
    modifies b
    ensures (reply, b.Snapshot()) == PostSpec(old(b.Snapshot()), req, costSetting, fetchOk, decodable, o)
  {
    if !IsNonEmptyString(req.baseImageUrl) {
      return Error("invalid base_image_url");
    }
    if o.user == [] {
      return Error("User not authenticated");
    }
    var cost := CostOf(costSetting);
    if Less(b.Snapshot().Balance(o.user), cost) {
      return Error("Not enough credits");
    }
    var batch := o.uuid(0);
    var url := req.baseImageUrl.s;
    b.Call(FetchImage(url));
    if !fetchOk {
      return Error("Failed to fetch base image");
    }
    if !decodable {
      return Error(Failure);
    }
    var key := KeyOf(batch);
    if key in o.faults.uploads {
      return Error(Failure);
    }
    b.Store(key, StoredObject(Transformed("negate", url), "image/png", o.publicUrl(key)));
    if o.faults.charge {
      return Error(Failure);
    }
    b.Debit(o.user, cost);
    var rec := RecordOf(req, o);
    if rec.uuid in o.faults.inserts {
      return Error(Failure);
    }
    b.Insert(rec);
    reply := Data([rec]);
  }

  /** An invalid URL, a missing user and too few credits answer before the base image is fetched. */
  lemma PostGates(st: State, req: Request, costSetting: Option<string>, fetchOk: bool, decodable: bool, o: Oracles)
    ensures !IsNonEmptyString(req.baseImageUrl) ==>
      PostSpec(st, req, costSetting, fetchOk, decodable, o) == (Error("invalid base_image_url"), st)
    ensures IsNonEmptyString(req.baseImageUrl) && o.user == [] ==>
      PostSpec(st, req, costSetting, fetchOk, decodable, o) == (Error("User not authenticated"), st)
    ensures IsNonEmptyString(req.baseImageUrl) && o.user != [] && Less(st.Balance(o.user), CostOf(costSetting)) ==>
      PostSpec(st, req, costSetting, fetchOk, decodable, o) == (Error("Not enough credits"), st)
  {
  }

  /** After the gates, the only messages are the download failure and the catch-all. */
  lemma InvertMessages(st: State, req: Request, cost: ParsedInt, fetchOk: bool, decodable: bool, o: Oracles)
    requires req.baseImageUrl.Str?
    ensures var reply := Invert(st, req, cost, fetchOk, decodable, o).0;
      reply.Error? ==> reply.message == "Failed to fetch base image" || reply.message == Failure
  {
  }

  /** Every error message the route can answer with. */
  lemma PostMessages(st: State, req: Request, costSetting: Option<string>, fetchOk: bool, decodable: bool, o: Oracles)
    ensures var reply := PostSpec(st, req, costSetting, fetchOk, decodable, o).0;
      reply.Error? ==> reply.message in {"invalid base_image_url", "User not authenticated", "Not enough credits",
                                         "Failed to fetch base image", Failure}
  {
    if GatesPass(st, req, CostOf(costSetting), o) {
      InvertMessages(st, req, CostOf(costSetting), fetchOk, decodable, o);
    }
  }

  /** A failed download answers with its own message and charges nothing, stores nothing. */
  lemma FetchFailureNeverCharges(st: State, req: Request, costSetting: Option<string>, decodable: bool, o: Oracles)
    requires GatesPass(st, req, CostOf(costSetting), o)
    ensures var (reply, st') := PostSpec(st, req, costSetting, false, decodable, o);
      && reply == Error("Failed to fetch base image")
      && st' == st.Called(FetchImage(req.baseImageUrl.s))
  {
  }

  /**
   * With every external step succeeding the reply is the one record, taking
   * the batch id as uuid; the negative is stored as a PNG under
   * `gen/{batch}_invert.png` and the user is charged once.
   */
  lemma PostSucceeds(st: State, req: Request, costSetting: Option<string>, o: Oracles)
    requires GatesPass(st, req, CostOf(costSetting), o)
    requires KeyOf(o.uuid(0)) !in o.faults.uploads && !o.faults.charge && o.uuid(0) !in o.faults.inserts
    ensures var (reply, st') := PostSpec(st, req, costSetting, true, true, o);
      var key := "gen/" + o.uuid(0) + "_invert.png";
      && reply == Data([Outfit(o.uuid(0), o.user, o.now, req.baseImageUrl.s, o.publicUrl(key),
                                DescriptionOf(req.description), Active)])
      && st'.outfits == st.outfits + reply.value
      && st'.objects == st.objects[key := StoredObject(Transformed("negate", req.baseImageUrl.s), "image/png", o.publicUrl(key))]
      && st'.transactions == st.transactions + [CreditTx(o.user, OutfitGeneration, Decrease(CostOf(costSetting)))]
      && st'.credits == st.Debited(o.user, CostOf(costSetting)).credits
  {
  }

  /** The charge comes before the insert: a failing insert leaves the user charged and no record. */
  lemma InsertFailureStillCharges(st: State, req: Request, costSetting: Option<string>, o: Oracles)
    requires GatesPass(st, req, CostOf(costSetting), o)
    requires KeyOf(o.uuid(0)) !in o.faults.uploads && !o.faults.charge && o.uuid(0) in o.faults.inserts
    ensures var (reply, st') := PostSpec(st, req, costSetting, true, true, o);
      && reply == Error(Failure)
      && st'.outfits == st.outfits
      && st'.transactions == st.transactions + [CreditTx(o.user, OutfitGeneration, Decrease(CostOf(costSetting)))]
  {
  }

  /**
   * The user is charged exactly when the gates pass and the download, the
   * decoding, the upload and the charge itself go through; never more than once.
   */
  lemma PostChargesIff(st: State, req: Request, costSetting: Option<string>, fetchOk: bool, decodable: bool, o: Oracles)
    ensures var st' := PostSpec(st, req, costSetting, fetchOk, decodable, o).1;
      && (st'.transactions != st.transactions <==>
            GatesPass(st, req, CostOf(costSetting), o) && fetchOk && decodable
            && KeyOf(o.uuid(0)) !in o.faults.uploads && !o.faults.charge)
      && (st'.transactions == st.transactions
          || st'.transactions == st.transactions + [CreditTx(o.user, OutfitGeneration, Decrease(CostOf(costSetting)))])
  {
  }

  /** A successful reply always comes with exactly one new record and one charge. */
  lemma DataMeansRecordedAndCharged(st: State, req: Request, costSetting: Option<string>, fetchOk: bool, decodable: bool, o: Oracles)
    ensures var (reply, st') := PostSpec(st, req, costSetting, fetchOk, decodable, o);
      reply.Data? ==>
        && |reply.value| == 1 && reply.value[0].uuid == o.uuid(0)
        && st'.outfits == st.outfits + reply.value
        && |st'.transactions| == |st.transactions| + 1
  {
  }
}
