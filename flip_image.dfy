/**
 * `POST /api/flip-image`: mirror the base image horizontally or vertically
 * and store it as a PNG. Signing in is optional: the record is written only
 * for a signed-in user, and credits are never read or changed.
 */
module FlipImage {

  import opened Wrappers
  import opened Js
  import opened Ledger

  const Failure := "flip image fail"
  const InvalidFlipType := "invalid flip_type, must be 'horizontal' or 'vertical'"

  datatype Request = Request(baseImageUrl: Value, flipType: Value, description: Option<string>)

  /** What a successful reply carries. */
  datatype Flipped = Flipped(flippedImageUrl: string, originalImageUrl: string, flipType: string, outfits: seq<Outfit>)

  /** `flip_type` is truthy and one of the two listed strings. */
  predicate IsFlipType(v: Value)
  {
    v == Str("horizontal") || v == Str("vertical")
  }

  /** The image operation: `flop` mirrors left to right, `flip` top to bottom. */
  function OperationOf(flipType: string): string
  {
    if flipType == "horizontal" then "flop" else "flip"
  }

  function KeyOf(batch: string, flipType: string): string
  {
    "gen/" + batch + "_" + flipType + "_flip.png"
  }

  /** `description || "{flip_type} flipped image"`. */
  function DescriptionOf(d: Option<string>, flipType: string): (r: string)
    ensures d.Some? && d.value != [] ==> r == d.value
    ensures d.None? || d.value == [] ==> r == flipType + " flipped image"
  {
    OrElse(d, flipType + " flipped image")
  }

  function RecordOf(req: Request, o: Oracles): Outfit
    requires req.baseImageUrl.Str? && req.flipType.Str?
  {
    var batch := o.uuid(0);
    var flip := req.flipType.s;
    Outfit(batch, o.user, o.now, req.baseImageUrl.s, o.publicUrl(KeyOf(batch, flip)), DescriptionOf(req.description, flip), Active)
  }

  /** The route after validation; `fetchOk` and `decodable` as in the invert route. */
  function Flip(st: State, req: Request, fetchOk: bool, decodable: bool, o: Oracles): (Reply<Flipped>, State)
    requires req.baseImageUrl.Str? && req.flipType.Str?
  {
    var url := req.baseImageUrl.s;
    var flip := req.flipType.s;
    var key := KeyOf(o.uuid(0), flip);
    var st1 := st.Called(FetchImage(url));
    if !fetchOk then (Error("Failed to fetch base image"), st1)
    else if !decodable || key in o.faults.uploads then (Error(Failure), st1)
    else
      var st2 := st1.Stored(key, StoredObject(Transformed(OperationOf(flip), url), "image/png", o.publicUrl(key)));
      if o.user == [] then (Data(Flipped(o.publicUrl(key), url, flip, [])), st2)
      else
        var rec := RecordOf(req, o);
        if rec.uuid in o.faults.inserts then (Error(Failure), st2)
        else (Data(Flipped(o.publicUrl(key), url, flip, [rec])), st2.Inserted(rec))
  }

  function PostSpec(st: State, req: Request, fetchOk: bool, decodable: bool, o: Oracles): (Reply<Flipped>, State)
  {
    if !IsNonEmptyString(req.baseImageUrl) then (Error("invalid base_image_url"), st)
    else if !IsFlipType(req.flipType) then (Error(InvalidFlipType), st)
    else Flip(st, req, fetchOk, decodable, o)
  }

  method Post(b: Backend, req: Request, fetchOk: bool, decodable: bool, o: Oracles) returns (reply: Reply<Flipped>)
    modifies b
    ensures (reply, b.Snapshot()) == PostSpec(old(b.Snapshot()), req, fetchOk, decodable, o)
  {
    if !IsNonEmptyString(req.baseImageUrl) {
      return Error("invalid base_image_url");
    }
    if !IsFlipType(req.flipType) {
      return Error(InvalidFlipType);
    }
    var batch := o.uuid(0);
    var url := req.baseImageUrl.s;
    var flip := req.flipType.s;
    b.Call(FetchImage(url));
    if !fetchOk {
      return Error("Failed to fetch base image");
    }
    if !decodable {
      return Error(Failure);
    }
    var key := KeyOf(batch, flip);
    if key in o.faults.uploads {
      return Error(Failure);
    }
    b.Store(key, StoredObject(Transformed(OperationOf(flip), url), "image/png", o.publicUrl(key)));
    var outfits: seq<Outfit> := [];
    if o.user != [] {
      var rec := RecordOf(req, o);
      if rec.uuid in o.faults.inserts {
        return Error(Failure);
      }
      b.Insert(rec);
      outfits := [rec];
    }
    reply := Data(Flipped(o.publicUrl(key), url, flip, outfits));
  }

  /** A bad URL or flip type answers before the download. */
  lemma PostGates(st: State, req: Request, fetchOk: bool, decodable: bool, o: Oracles)
    ensures !IsNonEmptyString(req.baseImageUrl) ==> PostSpec(st, req, fetchOk, decodable, o) == (Error("invalid base_image_url"), st)
    ensures IsNonEmptyString(req.baseImageUrl) && !IsFlipType(req.flipType) ==>
      PostSpec(st, req, fetchOk, decodable, o) == (Error(InvalidFlipType), st)
    ensures IsNonEmptyString(req.baseImageUrl) && IsFlipType(req.flipType) && !fetchOk ==>
      PostSpec(st, req, fetchOk, decodable, o).0 == Error("Failed to fetch base image")
  {
  }

  /** Whatever happens, no balance is read into a decision and none changes. */
  lemma NeverTouchesCredits(st: State, req: Request, fetchOk: bool, decodable: bool, o: Oracles)
    ensures var st' := PostSpec(st, req, fetchOk, decodable, o).1;
      st'.credits == st.credits && st'.transactions == st.transactions
  {
  }

  /** The outcome is the same whatever the balances are: credits are not consulted. */
  lemma IndependentOfCredits(st: State, req: Request, fetchOk: bool, decodable: bool, o: Oracles, credits: map<string, int>)
    ensures PostSpec(st.(credits := credits), req, fetchOk, decodable, o).0 == PostSpec(st, req, fetchOk, decodable, o).0
  {
  }

  /**
   * A successful reply lists the new records, which are exactly those
   * appended: one, with the batch id as uuid, for a signed-in user and none
   * for an anonymous caller.
   */
  lemma RecordIffUser(st: State, req: Request, fetchOk: bool, decodable: bool, o: Oracles)
    ensures var (reply, st') := PostSpec(st, req, fetchOk, decodable, o);
      reply.Data? ==>
        && st'.outfits == st.outfits + reply.value.outfits
        && (|reply.value.outfits| == 1 <==> o.user != [])
        && (o.user == [] ==> reply.value.outfits == [])
        && (o.user != [] ==> reply.value.outfits[0].uuid == o.uuid(0))
  {
  }

  /**
   * With the download, decoding and upload succeeding, the mirrored image is
   * stored under `gen/{batch}_{flip_type}_flip.png` and the reply names it,
   * the original URL and the flip type.
   */
  lemma PostSucceeds(st: State, req: Request, o: Oracles)
    requires IsNonEmptyString(req.baseImageUrl) && IsFlipType(req.flipType)
    requires KeyOf(o.uuid(0), req.flipType.s) !in o.faults.uploads && o.uuid(0) !in o.faults.inserts
    ensures var (reply, st') := PostSpec(st, req, true, true, o);
      var flip := req.flipType.s;
      var key := "gen/" + o.uuid(0) + "_" + flip + "_flip.png";
      && reply.Data?
      && reply.value.flippedImageUrl == o.publicUrl(key)
      && reply.value.originalImageUrl == req.baseImageUrl.s
      && reply.value.flipType == flip
      && st'.objects == st.objects[key := StoredObject(Transformed(if flip == "horizontal" then "flop" else "flip", req.baseImageUrl.s),
                                                       "image/png", o.publicUrl(key))]
      && (o.user != [] ==>
            reply.value.outfits == [Outfit(o.uuid(0), o.user, o.now, req.baseImageUrl.s, o.publicUrl(key), DescriptionOf(req.description, flip), Active)])
  {
  }
}
