/**
 * `POST /api/image-text`: ask a language model to describe an image. The
 * route charges once after the text is obtained and writes no generation
 * record; its refusal of a poor user names both the cost and the balance.
 */
module ImageText {

  import opened Wrappers
  import opened Strings
  import opened Js
  import opened Ledger

  const Model := "openai/gpt-5-nano"
  const Failure := "generate image-text fail"
  const SignIn := "Please sign in to use this feature"
  const MockText := "这是一个测试描述文本。图像显示了一个美丽的场景，包含丰富的细节和色彩。"

  datatype Request = Request(baseImageUrl: Value, description: Value)

  datatype Described = Described(description: string, batchId: string, createdAt: string)

  const NeedPrefix := "Insufficient credits. You need "
  const HaveInfix := " credits but only have "
  const PurchaseSuffix := ". Please purchase more credits."

  /** The refusal for too few credits, with the cost and the balance written in. */
  function InsufficientMessage(cost: int, balance: int): string
  {
    NeedPrefix + IntToString(cost) + HaveInfix + IntToString(balance) + PurchaseSuffix
  }

  /** The refusal carries both numbers. */
  lemma InsufficientMessageNamesBoth(cost: int, balance: int)
    ensures Contains(InsufficientMessage(cost, balance), IntToString(cost))
    ensures Contains(InsufficientMessage(cost, balance), IntToString(balance))
  {
    var c, b := IntToString(cost), IntToString(balance);
    assert InsufficientMessage(cost, balance) == NeedPrefix + c + (HaveInfix + b + PurchaseSuffix);
    ContainsMiddle(NeedPrefix, c, HaveInfix + b + PurchaseSuffix);
    ContainsMiddle(NeedPrefix + c + HaveInfix, b, PurchaseSuffix);
  }

  /**
   * The generated text: the fixed text in mock mode, an array joined with
   * no separator, another value as its string; a falsy output or a thrown
   * run is `None`.
   */
  function TextOf(mock: bool, out: ModelOutput): (r: Option<string>)
    ensures mock ==> r == Some(MockText)
    ensures !mock && out.Many? ==> r == Some(Concat(out.items))
    ensures !mock && out.Single? && out.item != [] ==> r == Some(out.item)
    ensures !mock && (out.Threw? || IsFalsyOutput(out)) ==> r.None?
  {
    if mock then Some(MockText)
    else match out
      case Threw => None
      case Falsy => None
      case Single(t) => if t == [] then None else Some(t)
      case Many(parts) => Some(Concat(parts))
  }

  /** The route after its gates. */
  function Describe(st: State, req: Request, cost: ParsedInt, mock: bool, out: ModelOutput, o: Oracles)
    : (Reply<Described>, State)
    requires req.baseImageUrl.Str?
  {
    var st1 := if mock then st else st.Called(RunModel(Model, CaptionInput([req.baseImageUrl.s], req.description)));
    match TextOf(mock, out)
    case None => (Error(Failure), st1)
    case Some(text) =>
      if o.faults.charge then (Error(Failure), st1)
      else (Data(Described(text, o.uuid(0), o.now)), st1.Debited(o.user, cost))
  }

  function PostSpec(st: State, req: Request, settings: Settings, out: ModelOutput, o: Oracles): (Reply<Described>, State)
  {
    var cost := CostOf(settings.cost);
    if !IsNonEmptyString(req.baseImageUrl) then (Error("invalid base_image_url"), st)
    else if o.user == [] then (Error(SignIn), st)
    else if Less(st.Balance(o.user), cost) then (Error(InsufficientMessage(cost.n, st.Balance(o.user))), st)
    else Describe(st, req, cost, settings.mock == Some("true"), out, o)
  }

  method Post(b: Backend, req: Request, settings: Settings, out: ModelOutput, o: Oracles) returns (reply: Reply<Described>)
    modifies b
    ensures (reply, b.Snapshot()) == PostSpec(old(b.Snapshot()), req, settings, out, o)
  {
    if !IsNonEmptyString(req.baseImageUrl) {
      return Error("invalid base_image_url");
    }
    if o.user == [] {
      return Error(SignIn);
    }
    var cost := CostOf(settings.cost);
    var balance := b.Snapshot().Balance(o.user);
    if Less(balance, cost) {
      return Error(InsufficientMessage(cost.n, balance));
    }
    var batch := o.uuid(0);
    var mock := settings.mock == Some("true");
    if !mock {
      b.Call(RunModel(Model, CaptionInput([req.baseImageUrl.s], req.description)));
    }
    var text := TextOf(mock, out);
    if text.None? {
      return Error(Failure);
    }
    if o.faults.charge {
      return Error(Failure);
    }
    b.Debit(o.user, cost);
    reply := Data(Described(text.value, batch, o.now));
  }

  /** The gates answer before the model is called; the credit refusal names the numbers. */
  lemma PostGates(st: State, req: Request, settings: Settings, out: ModelOutput, o: Oracles)
    ensures !IsNonEmptyString(req.baseImageUrl) ==> PostSpec(st, req, settings, out, o) == (Error("invalid base_image_url"), st)
    ensures IsNonEmptyString(req.baseImageUrl) && o.user == [] ==> PostSpec(st, req, settings, out, o) == (Error(SignIn), st)
    ensures IsNonEmptyString(req.baseImageUrl) && o.user != [] && Less(st.Balance(o.user), CostOf(settings.cost)) ==>
      var (reply, st') := PostSpec(st, req, settings, out, o);
      && st' == st
      && reply == Error(InsufficientMessage(CostOf(settings.cost).n, st.Balance(o.user)))
      && Contains(reply.message, IntToString(CostOf(settings.cost).n))
      && Contains(reply.message, IntToString(st.Balance(o.user)))
  {
    if IsNonEmptyString(req.baseImageUrl) && o.user != [] && Less(st.Balance(o.user), CostOf(settings.cost)) {
      InsufficientMessageNamesBoth(CostOf(settings.cost).n, st.Balance(o.user));
    }
  }

  /**
   * On success the reply carries the text, the batch id and the time, and
   * the user is charged once; the only other effect is the model call.
   */
  lemma PostSucceeds(st: State, req: Request, settings: Settings, out: ModelOutput, o: Oracles)
    requires IsNonEmptyString(req.baseImageUrl) && o.user != [] && !Less(st.Balance(o.user), CostOf(settings.cost))
    requires TextOf(settings.mock == Some("true"), out).Some? && !o.faults.charge
    ensures var (reply, st') := PostSpec(st, req, settings, out, o);
      var mock := settings.mock == Some("true");
      && reply == Data(Described(TextOf(mock, out).value, o.uuid(0), o.now))
      && st' == (if mock then st else st.Called(RunModel(Model, CaptionInput([req.baseImageUrl.s], req.description))))
                  .Debited(o.user, CostOf(settings.cost))
  {
  }

  /**
   * Charged exactly when the reply is a success, once; no record and no
   * stored object in any case.
   */
  lemma ChargedIffSucceeded(st: State, req: Request, settings: Settings, out: ModelOutput, o: Oracles)
    ensures var (reply, st') := PostSpec(st, req, settings, out, o);
      && (st'.transactions != st.transactions <==> reply.Data?)
      && (reply.Data? ==> st'.transactions == st.transactions + [CreditTx(o.user, OutfitGeneration, Decrease(CostOf(settings.cost)))])
      && st'.outfits == st.outfits && st'.objects == st.objects
  {
    var cost := CostOf(settings.cost);
    if IsNonEmptyString(req.baseImageUrl) && o.user != [] && !Less(st.Balance(o.user), cost) {
      var mock := settings.mock == Some("true");
      var st1 := if mock then st else st.Called(RunModel(Model, CaptionInput([req.baseImageUrl.s], req.description)));
      assert st1.transactions == st.transactions && st1.outfits == st.outfits && st1.objects == st.objects;
      if TextOf(mock, out).Some? && !o.faults.charge {
        assert |st1.Debited(o.user, cost).transactions| == |st.transactions| + 1;
      }
    }
  }

  /** Every error message the route can answer with. */
  lemma PostMessages(st: State, req: Request, settings: Settings, out: ModelOutput, o: Oracles)
    ensures var reply := PostSpec(st, req, settings, out, o).0;
      reply.Error? ==>
        reply.message == "invalid base_image_url" || reply.message == SignIn || reply.message == Failure
        || reply.message == InsufficientMessage(CostOf(settings.cost).n, st.Balance(o.user))
  {
  }
}
