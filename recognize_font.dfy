/**
 * `POST /api/recognize-font`: identify the font in an uploaded image with
 * the vision model. The gates are the image, the user and the credits; the
 * service token is checked after them; the user is charged once, after a
 * recognition that went through. Any error's message is the reply.
 */
module RecognizeFontRoute {

  import opened Wrappers
  import opened Strings
  import opened Js
  import opened Ledger
  import opened ReplicateFont

  const ImageRequired := "Image is required"
  const NotConfigured := "Font recognition service not configured"
  /** What the runtime throws when `image.substring` is called on a truthy non-string. */
  const NotAString := "image.substring is not a function"

  predicate GatesPass(st: State, image: Value, cost: ParsedInt, o: Oracles)
  {
    Truthy(image) && image.Str? && o.user != [] && !Less(st.Balance(o.user), cost)
  }

  /** The service token is present and non-empty. */
  predicate Configured(apiToken: Option<string>)
  {
    apiToken.Some? && apiToken.value != []
  }

  /**
   * The route. `apiToken` is `REPLICATE_API_TOKEN`; `run` is how the model
   * run ends and `parse` stands for `JSON.parse`; `chargeError` is the
   * message `decreaseCredits` throws with when `o.faults.charge` holds.
   */
  function PostSpec(st: State, image: Value, costSetting: Option<string>, apiToken: Option<string>,
                    run: RunOutcome, parse: string -> Option<Parsed>, o: Oracles, chargeError: string)
    : (Reply<FontResult>, State)
  {
    var cost := CostOf(costSetting);
    if !Truthy(image) then (Error(ImageRequired), st)
    else if !image.Str? then (Error(NotAString), st)
    else if o.user == [] then (Error("User not authenticated"), st)
    else if Less(st.Balance(o.user), cost) then (Error("Not enough credits"), st)
    else if !Configured(apiToken) then (Error(NotConfigured), st)
    else
      var st1 := st.Called(RunModel(ReplicateFont.Model, FontInput(image.s)));
      match RecognizeFont(run, parse)
      case Err(m) => (Error(m), st1)
      case Ok(result) =>
        if o.faults.charge then (Error(chargeError), st1)
        else (Data(result), st1.Debited(o.user, cost))
  }

  method Post(b: Backend, image: Value, costSetting: Option<string>, apiToken: Option<string>,
              run: RunOutcome, parse: string -> Option<Parsed>, o: Oracles, chargeError: string)
    returns (reply: Reply<FontResult>)
    modifies b
    ensures (reply, b.Snapshot()) == PostSpec(old(b.Snapshot()), image, costSetting, apiToken, run, parse, o, chargeError)
  {
    if !Truthy(image) {
      return Error(ImageRequired);
    }
    if !image.Str? {
      return Error(NotAString);
    }
    if o.user == [] {
      return Error("User not authenticated");
    }
    var cost := CostOf(costSetting);
    if Less(b.Snapshot().Balance(o.user), cost) {
      return Error("Not enough credits");
    }
    if apiToken.None? || apiToken.value == [] {
      return Error(NotConfigured);
    }
    b.Call(RunModel(ReplicateFont.Model, FontInput(image.s)));
    var result := RecognizeFont(run, parse);
    if result.Err? {
      return Error(result.error);
    }
    if o.faults.charge {
      return Error(chargeError);
    }
    b.Debit(o.user, cost);
    reply := Data(result.value);
  }

  /**
   * A missing image, a missing user and too few credits answer in that
   * order, and all before the token is looked at; none of them changes anything.
   */
  lemma PostGates(st: State, image: Value, costSetting: Option<string>, apiToken: Option<string>,
                  run: RunOutcome, parse: string -> Option<Parsed>, o: Oracles, chargeError: string)
    ensures !Truthy(image) ==>
      PostSpec(st, image, costSetting, apiToken, run, parse, o, chargeError) == (Error(ImageRequired), st)
    ensures image.Str? && image.s != [] && o.user == [] ==>
      PostSpec(st, image, costSetting, apiToken, run, parse, o, chargeError) == (Error("User not authenticated"), st)
    ensures image.Str? && image.s != [] && o.user != [] && Less(st.Balance(o.user), CostOf(costSetting)) ==>
      PostSpec(st, image, costSetting, apiToken, run, parse, o, chargeError) == (Error("Not enough credits"), st)
  {
  }

  /** A missing or empty token answers after the gates without calling the model or charging. */
  lemma UnconfiguredNeverCharges(st: State, image: Value, costSetting: Option<string>, apiToken: Option<string>,
                                 run: RunOutcome, parse: string -> Option<Parsed>, o: Oracles, chargeError: string)
    requires GatesPass(st, image, CostOf(costSetting), o) && !Configured(apiToken)
    ensures PostSpec(st, image, costSetting, apiToken, run, parse, o, chargeError) == (Error(NotConfigured), st)
  {
  }

  /**
   * With the gates passed and the token set, a resolved run is answered with
   * the detected font, the confidence and the similar fonts of the parsed
   * output, and the user is charged once.
   */
  lemma PostSucceeds(st: State, image: Value, costSetting: Option<string>, apiToken: Option<string>,
                     output: Output, parse: string -> Option<Parsed>, o: Oracles, chargeError: string)
    requires GatesPass(st, image, CostOf(costSetting), o) && Configured(apiToken) && !o.faults.charge
    ensures var (reply, st') := PostSpec(st, image, costSetting, apiToken, Resolved(output), parse, o, chargeError);
      && reply == Data(ParseResponse(output, parse))
      && st' == st.Called(RunModel(ReplicateFont.Model, FontInput(image.s))).Debited(o.user, CostOf(costSetting))
  {
  }

  /**
   * A run that throws or times out passes its wrapped message through, after
   * the model call and without a charge.
   */
  lemma RunFailurePassesThrough(st: State, image: Value, costSetting: Option<string>, apiToken: Option<string>,
                                run: RunOutcome, parse: string -> Option<Parsed>, o: Oracles, chargeError: string)
    requires GatesPass(st, image, CostOf(costSetting), o) && Configured(apiToken) && !run.Resolved?
    ensures var (reply, st') := PostSpec(st, image, costSetting, apiToken, run, parse, o, chargeError);
      && reply.Error? && StartsWith(reply.message, "Font recognition failed: ")
      && reply == Error(RecognizeFont(run, parse).error)
      && st' == st.Called(RunModel(ReplicateFont.Model, FontInput(image.s)))
  {
  }

  /**
   * The user is charged exactly when the reply is a success, and then once;
   * no record and no stored object are ever written.
   */
  lemma ChargedIffSucceeded(st: State, image: Value, costSetting: Option<string>, apiToken: Option<string>,
                            run: RunOutcome, parse: string -> Option<Parsed>, o: Oracles, chargeError: string)
    ensures var (reply, st') := PostSpec(st, image, costSetting, apiToken, run, parse, o, chargeError);
      && (st'.transactions != st.transactions <==> reply.Data?)
      && (reply.Data? ==> st'.transactions == st.transactions + [CreditTx(o.user, OutfitGeneration, Decrease(CostOf(costSetting)))])
      && st'.outfits == st.outfits && st'.objects == st.objects
  {
    var cost := CostOf(costSetting);
    if GatesPass(st, image, cost, o) && Configured(apiToken) {
      var st1 := st.Called(RunModel(ReplicateFont.Model, FontInput(image.s)));
      assert st1.transactions == st.transactions && st1.outfits == st.outfits && st1.objects == st.objects;
      if RecognizeFont(run, parse).Ok? && !o.faults.charge {
        assert |st1.Debited(o.user, cost).transactions| == |st.transactions| + 1;
      }
    }
  }
}
