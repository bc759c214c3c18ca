/**
 * The Baidu OCR client: an access token cached until shortly before it
 * expires, text recognition retried up to three times with growing waits,
 * and the translation of the OCR answer into coloured results. The token
 * endpoint's and the OCR endpoint's answers, and the clock, are inputs.
 */
module BaiduOcr {

  import opened Wrappers
  import opened FontUtils

  const MaxRetries := 3
  const RetryDelay := 1000
  /** The token is treated as expired this many seconds early. */
  const ExpirySafetySeconds := 300

  datatype TokenCache = TokenCache(accessToken: Option<string>, tokenExpiry: int)

  /** What the token endpoint answered: a thrown fetch, a non-OK status, or a JSON body. */
  datatype TokenAnswer =
    | TokenThrew(message: string)
    | TokenNotOk(statusText: string)
    | TokenBody(accessToken: Option<string>, expiresIn: int)

  /** One entry of `words_result`. */
  datatype Word = Word(words: string, location: Location, average: Option<real>)

  /** What the OCR endpoint answered; `words` is `None` when `words_result` is missing or not an array. */
  datatype OcrAnswer =
    | OcrThrew(message: string)
    | OcrNotOk(statusText: string)
    | OcrBody(words: Option<seq<Word>>)

  /** Everything one attempt meets: the clock, the token answer (if asked) and the OCR answer. */
  datatype Attempt = Attempt(now: int, token: TokenAnswer, ocr: OcrAnswer)

  /** The cached token is used while it is set, non-empty and not yet expired. */
  predicate CacheValid(c: TokenCache, now: int)
  {
    c.accessToken.Some? && c.accessToken.value != [] && c.tokenExpiry > now
  }

  /** `getAccessToken`: the token, the new cache, and whether the endpoint was asked. */
  function TokenStep(c: TokenCache, now: int, answer: TokenAnswer): (Result<string>, TokenCache, bool)
  {
    if CacheValid(c, now) then (Ok(c.accessToken.value), c, false)
    else match answer
      case TokenThrew(m) => (Err(m), c, true)
      case TokenNotOk(t) => (Err("Failed to get access token: " + t), c, true)
      case TokenBody(token, expiresIn) =>
        if token.None? || token.value == [] then (Err("No access token in response"), c, true)
        else (Ok(token.value), TokenCache(token, now + (expiresIn - ExpirySafetySeconds) * 1000), true)
  }

  /**
   * The endpoint is asked exactly when the cache is not valid; a fresh
   * token is stored with its expiry, and a failure leaves the cache as it was.
   */
  lemma TokenStepCache(c: TokenCache, now: int, answer: TokenAnswer)
    ensures var (r, c', asked) := TokenStep(c, now, answer);
      && (asked <==> !CacheValid(c, now))
      && (!asked ==> r == Ok(c.accessToken.value) && c' == c)
      && (asked && r.Ok? ==> answer.TokenBody? && c' == TokenCache(Some(r.value), now + (answer.expiresIn - 300) * 1000))
      && (r.Err? ==> c' == c)
  {
  }

  /** A token that lives longer than the safety margin is reused, without a request, until its expiry. */
  lemma FreshTokenIsReused(c: TokenCache, now: int, token: string, expiresIn: int, later: int, answer: TokenAnswer)
    requires !CacheValid(c, now) && token != []
    requires now <= later < now + (expiresIn - ExpirySafetySeconds) * 1000
    ensures var c1 := TokenStep(c, now, TokenBody(Some(token), expiresIn)).1;
      TokenStep(c1, later, answer) == (Ok(token), c1, false)
  {
  }

  /** `parseOCRResponse`: one coloured result per word entry, or none without a `words_result` array. */
  function ParseOcrResponse(words: Option<seq<Word>>): (r: seq<OcrResult>)
    ensures words.None? ==> r == []
    ensures words.Some? ==> |r| == |words.value| && forall i :: 0 <= i < |r| ==>
      && r[i].text == words.value[i].words && r[i].location == words.value[i].location
      && r[i].confidence == words.value[i].average
      && r[i].color == DistinctColors(|r|)[i]
  {
    match words
    case None => []
    case Some(ws) => AssignColors(seq(|ws|, i requires 0 <= i < |ws| => Block(ws[i].words, ws[i].location, ws[i].average)))
  }

  /** One attempt: the token, then the OCR request with it. */
  function AttemptStep(c: TokenCache, a: Attempt): (Result<seq<OcrResult>>, TokenCache)
  {
    var (token, c1, _) := TokenStep(c, a.now, a.token);
    if token.Err? then (Err(token.error), c1)
    else match a.ocr
      case OcrThrew(m) => (Err(m), c1)
      case OcrNotOk(t) => (Err("OCR API request failed: " + t), c1)
      case OcrBody(words) => (Ok(ParseOcrResponse(words)), c1)
  }

  /**
   * `recognizeText` from attempt `k` on: the first success is returned, and
   * the last attempt's error is thrown. The third component counts the
   * attempts made.
   */
  function Recognize(c: TokenCache, attempts: nat -> Attempt, k: nat): (Result<seq<OcrResult>>, TokenCache, nat)
    requires k < MaxRetries
    decreases MaxRetries - k
  {
    var (r, c1) := AttemptStep(c, attempts(k));
    if r.Ok? || k == MaxRetries - 1 then (r, c1, 1)
    else
      var (r2, c2, n) := Recognize(c1, attempts, k + 1);
      (r2, c2, n + 1)
  }

  /** The waits before attempts 2 and 3 when `made` attempts were made: `RETRY_DELAY * attempt`. */
  function Delays(made: nat): (r: seq<int>)
    requires made >= 1
    ensures |r| == made - 1
    ensures forall t :: 0 <= t < |r| ==> r[t] == RetryDelay * (t + 1)
  {
    seq(made - 1, t requires 0 <= t < made - 1 => RetryDelay * (t + 1))
  }

  /**
   * At most three attempts; fewer only when one succeeded, so an error is
   * always the third attempt's.
   */
  lemma {:induction false} RecognizeAttempts(c: TokenCache, attempts: nat -> Attempt, k: nat)
    requires k < MaxRetries
    ensures var (r, _, made) := Recognize(c, attempts, k);
      && 1 <= made <= MaxRetries - k
      && (made < MaxRetries - k ==> r.Ok?)
    decreases MaxRetries - k
  {
    var (r, c1) := AttemptStep(c, attempts(k));
    if !(r.Ok? || k == MaxRetries - 1) {
      RecognizeAttempts(c1, attempts, k + 1);
    }
  }

  /** A first attempt that succeeds is the answer, with no wait. */
  lemma FirstSuccessIsReturned(c: TokenCache, attempts: nat -> Attempt)
    requires AttemptStep(c, attempts(0)).0.Ok?
    ensures Recognize(c, attempts, 0) == (AttemptStep(c, attempts(0)).0, AttemptStep(c, attempts(0)).1, 1)
  {
  }

  /** Three failed OCR requests in a row end in an error, after all three attempts. */
  lemma ThirdErrorIsThrown(c: TokenCache, attempts: nat -> Attempt)
    requires forall k: nat :: k < MaxRetries ==> attempts(k).ocr.OcrThrew?
    ensures Recognize(c, attempts, 0).0.Err? && Recognize(c, attempts, 0).2 == 3
  {
  }

  /** `createBaiduOCRClient`: both credentials must be non-empty. */
  function Credentials(apiKey: Option<string>, secretKey: Option<string>): (r: Result<(string, string)>)
    ensures r.Ok? <==> apiKey.Some? && apiKey.value != [] && secretKey.Some? && secretKey.value != []
    ensures r.Ok? ==> r.value == (apiKey.value, secretKey.value)
    ensures r.Err? ==> r.error == "Baidu OCR API credentials not configured"
  {
    var key := if apiKey.Some? then apiKey.value else "";
    var secret := if secretKey.Some? then secretKey.value else "";
    if key == [] || secret == [] then Err("Baidu OCR API credentials not configured") else Ok((key, secret))
  }

  class BaiduOcrClient {
    var accessToken: Option<string>
    var tokenExpiry: int
    const apiKey: string
    const secretKey: string

    constructor (apiKey: string, secretKey: string)
      ensures Cache() == TokenCache(None, 0)
      ensures this.apiKey == apiKey && this.secretKey == secretKey
    {
      this.apiKey := apiKey;
      this.secretKey := secretKey;
      accessToken := None;
      tokenExpiry := 0;
    }

    function Cache(): TokenCache
      reads this
    {
      TokenCache(accessToken, tokenExpiry)
    }

    method GetAccessToken(now: int, answer: TokenAnswer) returns (r: Result<string>, asked: bool)
      modifies this
      ensures (r, Cache(), asked) == TokenStep(old(Cache()), now, answer)
    {
      if accessToken.Some? && accessToken.value != [] && tokenExpiry > now {
        return Ok(accessToken.value), false;
      }
      asked := true;
      match answer {
        case TokenThrew(m) =>
          r := Err(m);
        case TokenNotOk(t) =>
          r := Err("Failed to get access token: " + t);
        case TokenBody(token, expiresIn) =>
          if token.None? || token.value == [] {
            r := Err("No access token in response");
          } else {
            accessToken := token;
            tokenExpiry := now + (expiresIn - ExpirySafetySeconds) * 1000;
            r := Ok(token.value);
          }
      }
    }

    /** The retry loop; `delays` are the waits it set before each retry. */
    method RecognizeText(image: string, attempts: nat -> Attempt) returns (r: Result<seq<OcrResult>>, delays: seq<int>)
      modifies this
      ensures var (spec, cache, made) := Recognize(old(Cache()), attempts, 0);
        r == spec && Cache() == cache && delays == Delays(made)
    {
      var attempt := 0;
      delays := [];
      while attempt < MaxRetries
        invariant 0 <= attempt < MaxRetries
        invariant delays == Delays(if attempt == 0 then 1 else attempt)
        invariant var (spec, cache, made) := Recognize(old(Cache()), attempts, 0);
          var (rest, restCache, restMade) := Recognize(Cache(), attempts, attempt);
          spec == rest && cache == restCache && made == attempt + restMade
        decreases MaxRetries - attempt
      {
        if attempt > 0 {
          delays := delays + [RetryDelay * attempt];
        }
        var a := attempts(attempt);
        var token, _ := GetAccessToken(a.now, a.token);
        var outcome: Result<seq<OcrResult>>;
        if token.Err? {
          outcome := Err(token.error);
        } else {
          match a.ocr {
            case OcrThrew(m) => outcome := Err(m);
            case OcrNotOk(t) => outcome := Err("OCR API request failed: " + t);
            case OcrBody(words) => outcome := Ok(ParseOcrResponse(words));
          }
        }
        if outcome.Ok? || attempt == MaxRetries - 1 {
          return outcome, delays;
        }
        attempt := attempt + 1;
      }
      assert false;
    }
  }
}
