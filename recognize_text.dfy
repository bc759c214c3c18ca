/**
 * `POST /api/recognize-text`: recognise the text in an image with the OCR
 * client. Unlike the other routes it answers with HTTP statuses: 400, 401
 * and 403 for the gates, 500 for any thrown error, and 200 with body code 0
 * on success. The user is charged once, after the OCR results are in.
 */
module RecognizeTextRoute {

  import opened Wrappers
  import opened Js
  import opened Ledger
  import opened FontUtils
  import opened BaiduOcr

  /** The HTTP status and the JSON body `{code, message, data: {results}}`. */
  datatype Response = Response(status: int, code: int, message: string, results: Option<seq<OcrResult>>)

  function Fail(status: int, message: string): Response
  {
    Response(status, status, message, None)
  }

  predicate GatesPass(st: State, image: string, cost: ParsedInt, o: Oracles)
  {
    image != [] && o.user != [] && !Less(st.Balance(o.user), cost)
  }

  /**
   * The route. The client is created per request, so its token cache starts
   * empty; `attempts` are what its attempts meet; `chargeError` is the
   * message `decreaseCredits` throws with when `o.faults.charge` holds.
   */
  function PostSpec(st: State, image: string, costSetting: Option<string>, apiKey: Option<string>, secretKey: Option<string>,
                    attempts: nat -> Attempt, o: Oracles, chargeError: string): (Response, State)
  {
    var cost := CostOf(costSetting);
    if image == [] then (Fail(400, "Missing image data"), st)
    else if o.user == [] then (Fail(401, "User not authenticated"), st)
    else if Less(st.Balance(o.user), cost) then (Fail(403, "Not enough credits"), st)
    else match Credentials(apiKey, secretKey)
      case Err(m) => (Fail(500, m), st)
      case Ok(_) =>
        var st1 := st.Called(OcrRequest(image));
        match Recognize(TokenCache(None, 0), attempts, 0).0
        case Err(m) => (Fail(500, m), st1)
        case Ok(results) =>
          if o.faults.charge then (Fail(500, chargeError), st1)
          else (Response(200, 0, "Success", Some(results)), st1.Debited(o.user, cost))
  }

  method Post(b: Backend, image: string, costSetting: Option<string>, apiKey: Option<string>, secretKey: Option<string>,
              attempts: nat -> Attempt, o: Oracles, chargeError: string) returns (resp: Response)
    modifies b
    ensures (resp, b.Snapshot()) == PostSpec(old(b.Snapshot()), image, costSetting, apiKey, secretKey, attempts, o, chargeError)
  {
    if image == [] {
      return Fail(400, "Missing image data");
    }
    if o.user == [] {
      return Fail(401, "User not authenticated");
    }
    var cost := CostOf(costSetting);
    if Less(b.Snapshot().Balance(o.user), cost) {
      return Fail(403, "Not enough credits");
    }
    var credentials := Credentials(apiKey, secretKey);
    if credentials.Err? {
      return Fail(500, credentials.error);
    }
    var client := new BaiduOcrClient(credentials.value.0, credentials.value.1);
    b.Call(OcrRequest(image));
    var results, _ := client.RecognizeText(image, attempts);
    if results.Err? {
      return Fail(500, results.error);
    }
    if o.faults.charge {
      return Fail(500, chargeError);
    }
    b.Debit(o.user, cost);
    resp := Response(200, 0, "Success", Some(results.value));
  }

  /** The three gates answer with their own status, the same in the body, and change nothing. */
  lemma PostGates(st: State, image: string, costSetting: Option<string>, apiKey: Option<string>, secretKey: Option<string>,
                  attempts: nat -> Attempt, o: Oracles, chargeError: string)
    ensures image == [] ==>
      PostSpec(st, image, costSetting, apiKey, secretKey, attempts, o, chargeError) == (Response(400, 400, "Missing image data", None), st)
    ensures image != [] && o.user == [] ==>
      PostSpec(st, image, costSetting, apiKey, secretKey, attempts, o, chargeError) == (Response(401, 401, "User not authenticated", None), st)
    ensures image != [] && o.user != [] && Less(st.Balance(o.user), CostOf(costSetting)) ==>
      PostSpec(st, image, costSetting, apiKey, secretKey, attempts, o, chargeError) == (Response(403, 403, "Not enough credits", None), st)
  {
  }

  /**
   * Every answer is either a success (status 200, code 0, with results) or
   * a failure whose body code equals its status, one of 400, 401, 403 and 500,
   * without results.
   */
  lemma StatusMatchesCode(st: State, image: string, costSetting: Option<string>, apiKey: Option<string>, secretKey: Option<string>,
                          attempts: nat -> Attempt, o: Oracles, chargeError: string)
    ensures var resp := PostSpec(st, image, costSetting, apiKey, secretKey, attempts, o, chargeError).0;
      || (resp.status == 200 && resp.code == 0 && resp.message == "Success" && resp.results.Some?)
      || (resp.status == resp.code && (resp.status == 400 || resp.status == 401 || resp.status == 403 || resp.status == 500) && resp.results.None?)
  {
    var cost := CostOf(costSetting);
    if GatesPass(st, image, cost, o) && Credentials(apiKey, secretKey).Ok? {
      var ocr := Recognize(TokenCache(None, 0), attempts, 0).0;
      if ocr.Ok? && !o.faults.charge {
        assert PostSpec(st, image, costSetting, apiKey, secretKey, attempts, o, chargeError).0
          == Response(200, 0, "Success", Some(ocr.value));
      } else {
        assert PostSpec(st, image, costSetting, apiKey, secretKey, attempts, o, chargeError).0.status == 500;
      }
    }
  }

  /**
   * With the gates passed and credentials set, the answer is the OCR client's
   * result: its results with a charge, or its error as a 500 without one.
   */
  lemma PostFollowsOcr(st: State, image: string, costSetting: Option<string>, apiKey: Option<string>, secretKey: Option<string>,
                       attempts: nat -> Attempt, o: Oracles, chargeError: string)
    requires GatesPass(st, image, CostOf(costSetting), o) && Credentials(apiKey, secretKey).Ok? && !o.faults.charge
    ensures var (resp, st') := PostSpec(st, image, costSetting, apiKey, secretKey, attempts, o, chargeError);
      var ocr := Recognize(TokenCache(None, 0), attempts, 0).0;
      && (ocr.Ok? ==> resp == Response(200, 0, "Success", Some(ocr.value))
                      && st' == st.Called(OcrRequest(image)).Debited(o.user, CostOf(costSetting)))
      && (ocr.Err? ==> resp == Response(500, 500, ocr.error, None) && st' == st.Called(OcrRequest(image)))
  {
  }

  /** Missing credentials are a 500 with their message, before the OCR service is reached. */
  lemma MissingCredentials(st: State, image: string, costSetting: Option<string>, apiKey: Option<string>, secretKey: Option<string>,
                           attempts: nat -> Attempt, o: Oracles, chargeError: string)
    requires GatesPass(st, image, CostOf(costSetting), o)
    requires apiKey.None? || secretKey == Some("")
    ensures PostSpec(st, image, costSetting, apiKey, secretKey, attempts, o, chargeError)
      == (Response(500, 500, "Baidu OCR API credentials not configured", None), st)
  {
  }

  /**
   * The user is charged exactly when the answer is a success, and then
   * once; no record and no stored object are ever written.
   */
  lemma ChargedIffSucceeded(st: State, image: string, costSetting: Option<string>, apiKey: Option<string>, secretKey: Option<string>,
                            attempts: nat -> Attempt, o: Oracles, chargeError: string)
    ensures var (resp, st') := PostSpec(st, image, costSetting, apiKey, secretKey, attempts, o, chargeError);
      && (st'.transactions != st.transactions <==> resp.status == 200)
      && (resp.status == 200 ==> st'.transactions == st.transactions + [CreditTx(o.user, OutfitGeneration, Decrease(CostOf(costSetting)))])
      && st'.outfits == st.outfits && st'.objects == st.objects
  {
    var cost := CostOf(costSetting);
    if GatesPass(st, image, cost, o) && Credentials(apiKey, secretKey).Ok? {
      var st1 := st.Called(OcrRequest(image));
      assert st1.transactions == st.transactions && st1.outfits == st.outfits && st1.objects == st.objects;
      if Recognize(TokenCache(None, 0), attempts, 0).0.Ok? && !o.faults.charge {
        assert |st1.Debited(o.user, cost).transactions| == |st.transactions| + 1;
      }
    }
  }
}
