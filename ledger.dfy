/**
 * The server-side state the API routes read and change: credit balances and
 * the credit transactions behind them, generation records ("outfits"),
 * wallpaper records, stored objects by key, outbound calls to providers,
 * users by e-mail and order updates; plus the oracles that stand for the
 * session, the uuid generator, the clock, the storage client and failing
 * external calls, and the generation loop shared by the two layered routes.
 */
module Ledger {

  import opened Wrappers
  import opened Js

  datatype Status = Active

  /** A generation record as `insertOutfit` stores it. */
  datatype Outfit = Outfit(
    uuid: string,
    userUuid: string,
    createdAt: string,
    baseImageUrl: string,
    imgUrl: string,
    imgDescription: string,
    status: Status)

  /** A wallpaper record as `insertWallpapers` stores it. */
  datatype Wallpaper = Wallpaper(
    uuid: string,
    createdAt: string,
    imgDescription: string,
    imgUrl: string,
    userUuid: Option<string>,
    status: Status)

  /** What a stored object holds: bytes fetched from a URL, decoded base64 text, or a transformed image. */
  datatype Body =
    | Fetched(url: string)
    | Decoded(base64: string)
    | Transformed(operation: string, source: string)

  datatype StoredObject = StoredObject(body: Body, contentType: string, url: string)

  datatype TransType = NewUser | OutfitGeneration

  datatype Amount = Decrease(cost: ParsedInt) | Increase(credits: int, expiresAt: string)

  datatype CreditTx = CreditTx(userUuid: string, transType: TransType, amount: Amount)

  /** Inputs sent to the image models. */
  datatype ModelInput =
    | LayeredInput(image: string, goFast: bool, numLayers: real, description: string,
                   outputFormat: string, outputQuality: real, disableSafetyChecker: Option<bool>)
    | EditInput(source: string, prompt: string, aspectRatio: Value, format: string, resolution: Value)
    | CaptionInput(imageInput: seq<string>, question: Value)
    | WallpaperInput(text: string, n: nat, ratio: string, quality: nat)
    | FontInput(image: string)

  /** An outbound call that leaves no trace in the other parts of the state. */
  datatype Call =
    | RunModel(model: string, input: ModelInput)
    | FetchImage(url: string)
    | RetrieveCheckout(checkoutId: string)
    | OcrRequest(image: string)

  datatype UserRow = UserRow(uuid: string, email: string, nickname: string, avatarUrl: string)

  datatype OrderUpdate = OrderUpdate(orderNo: string, paidEmail: Option<string>, paidDetail: string)

  datatype State = State(
    credits: map<string, int>,
    transactions: seq<CreditTx>,
    outfits: seq<Outfit>,
    wallpapers: seq<Wallpaper>,
    objects: map<string, StoredObject>,
    calls: seq<Call>,
    users: map<string, UserRow>,
    orders: seq<OrderUpdate>)
  {
    /** `getUserCredits(u).left_credits`, defaulting to 0. */
    function Balance(u: string): int
    {
      if u in credits then credits[u] else 0
    }

    /**
     * `decreaseCredits`: one transaction; the balance drops by the cost.
     * What the credit service stores for a NaN cost is not visible, so the
     * balance is left as it is then.
     */
    function Debited(u: string, cost: ParsedInt): State
    {
      var balance := if cost.Int? then credits[u := Balance(u) - cost.n] else credits;
      this.(credits := balance, transactions := transactions + [CreditTx(u, OutfitGeneration, Decrease(cost))])
    }

    /** The balances after a debit depend only on the balances before it. */
    lemma DebitedCredits(other: State, u: string, cost: ParsedInt)
      requires other.credits == credits
      ensures other.Debited(u, cost).credits == Debited(u, cost).credits
      ensures Debited(u, cost).credits == if cost.Int? then credits[u := Balance(u) - cost.n] else credits
    {
    }

    /** `increaseCredits` for a new user. */
    function Credited(u: string, amount: int, expiresAt: string): State
    {
      this.(credits := credits[u := Balance(u) + amount],
            transactions := transactions + [CreditTx(u, NewUser, Increase(amount, expiresAt))])
    }

    function Stored(key: string, obj: StoredObject): State
    {
      this.(objects := objects[key := obj])
    }

    function Inserted(o: Outfit): State
    {
      this.(outfits := outfits + [o])
    }

    function WallpapersInserted(ws: seq<Wallpaper>): State
    {
      this.(wallpapers := wallpapers + ws)
    }

    function Called(c: Call): State
    {
      this.(calls := calls + [c])
    }

    function UserInserted(row: UserRow): State
    {
      this.(users := users[row.email := row])
    }

    function OrderUpdated(u: OrderUpdate): State
    {
      this.(orders := orders + [u])
    }
  }

  /** External calls that throw. */
  datatype Faults = Faults(
    uploads: set<string>,   // storage keys whose upload throws
    inserts: set<string>,   // record uuids whose insert throws
    charge: bool)           // `decreaseCredits` throws

  /** Everything a route learns from outside the request. */
  datatype Oracles = Oracles(
    user: string,                 // `getUserUuid()`; empty when nobody is signed in
    uuid: nat -> string,          // the k-th call of `getUuid()`
    now: string,                  // `getIsoTimestr()`
    publicUrl: string -> string,  // the URL the storage client returns for a key
    faults: Faults)

  ghost predicate UuidsDistinct(o: Oracles)
  {
    forall i: nat, j: nat :: i != j ==> o.uuid(i) != o.uuid(j)
  }

  /** What a model run returned: a thrown error, a falsy value, one value or an array. */
  datatype ModelOutput = Threw | Falsy | Single(item: string) | Many(items: seq<string>)

  /** `!output` after a run that returned. */
  predicate IsFalsyOutput(out: ModelOutput)
  {
    out.Falsy? || (out.Single? && out.item == [])
  }

  /** A route's JSON reply: `respData(value)` or `respErr(message)`. */
  datatype Reply<T> = Data(value: T) | Error(message: string)

  /** `parseInt(setting || "5")`: the per-generation credit cost. */
  function CostOf(setting: Option<string>): ParsedInt
  {
    ParseInt(OrElse(setting, "5"), None)
  }

  /**
   * The environment a generation route reads: `NEXT_PUBLIC_OUTFIT_GENERATION_COST`
   * and `MOCK_OUTFIT_GENERATION`.
   */
  datatype Settings = Settings(cost: Option<string>, mock: Option<string>)

  lemma DefaultCostIsFive()
    ensures CostOf(None) == Int(5)
  {
    assert Strings.NatToString(5) == "5";
    ParseIntOfNatToString(5, None);
  }

  /** The database, the object storage and the outbound calls, updated in place by the routes. */
  class Backend {
    var credits: map<string, int>
    var transactions: seq<CreditTx>
    var outfits: seq<Outfit>
    var wallpapers: seq<Wallpaper>
    var objects: map<string, StoredObject>
    var calls: seq<Call>
    var users: map<string, UserRow>
    var orders: seq<OrderUpdate>

    constructor (init: State)
      ensures Snapshot() == init
    {
      credits, transactions, outfits, wallpapers := init.credits, init.transactions, init.outfits, init.wallpapers;
      objects, calls, users, orders := init.objects, init.calls, init.users, init.orders;
    }

    function Snapshot(): State
      reads this
    {
      State(credits, transactions, outfits, wallpapers, objects, calls, users, orders)
    }

    method Debit(u: string, cost: ParsedInt)
      modifies this
      ensures Snapshot() == old(Snapshot()).Debited(u, cost)
    {
      if cost.Int? {
        credits := credits[u := Snapshot().Balance(u) - cost.n];
      }
      transactions := transactions + [CreditTx(u, OutfitGeneration, Decrease(cost))];
    }

    method Credit(u: string, amount: int, expiresAt: string)
      modifies this
      ensures Snapshot() == old(Snapshot()).Credited(u, amount, expiresAt)
    {
      credits := credits[u := Snapshot().Balance(u) + amount];
      transactions := transactions + [CreditTx(u, NewUser, Increase(amount, expiresAt))];
    }

    method Store(key: string, obj: StoredObject)
      modifies this
      ensures Snapshot() == old(Snapshot()).Stored(key, obj)
    {
      objects := objects[key := obj];
    }

    method Insert(o: Outfit)
      modifies this
      ensures Snapshot() == old(Snapshot()).Inserted(o)
    {
      outfits := outfits + [o];
    }

    method InsertWallpapers(ws: seq<Wallpaper>)
      modifies this
      ensures Snapshot() == old(Snapshot()).WallpapersInserted(ws)
    {
      wallpapers := wallpapers + ws;
    }

    method Call(c: Call)
      modifies this
      ensures Snapshot() == old(Snapshot()).Called(c)
    {
      calls := calls + [c];
    }

    method InsertUser(row: UserRow)
      modifies this
      ensures Snapshot() == old(Snapshot()).UserInserted(row)
    {
      users := users[row.email := row];
    }

    method UpdateOrder(u: OrderUpdate)
      modifies this
      ensures Snapshot() == old(Snapshot()).OrderUpdated(u)
    {
      orders := orders + [u];
    }
  }

  /**
   * One generation request after the provider answered: the user, the
   * cost, the output URLs and, per output, its storage key and record uuid.
   */
  datatype Job = Job(
    user: string,
    cost: ParsedInt,
    urls: seq<string>,
    keys: seq<string>,
    uuids: seq<string>,
    contentType: string,
    baseImageUrl: string,
    description: string,
    createdAt: string)
  {
    predicate WellFormed() { |keys| == |urls| && |uuids| == |urls| }
  }

  /** The record stored for output `i`. */
  function RecordAt(job: Job, o: Oracles, i: nat): Outfit
    requires job.WellFormed() && i < |job.urls|
  {
    Outfit(job.uuids[i], job.user, job.createdAt, job.baseImageUrl, o.publicUrl(job.keys[i]), job.description, Active)
  }

  /** The records of outputs `k` up to `j`. */
  function RecordsBetween(job: Job, o: Oracles, k: nat, j: nat): (r: seq<Outfit>)
    requires job.WellFormed() && k <= j <= |job.urls|
    ensures |r| == j - k
    ensures forall t :: 0 <= t < j - k ==> r[t] == RecordAt(job, o, k + t)
  {
    seq(j - k, t requires 0 <= t < j - k => RecordAt(job, o, k + t))
  }

  /** What output `i` is stored as: its download, with the job's content type, at its key's public URL. */
  function ObjectAt(job: Job, o: Oracles, i: nat): StoredObject
    requires job.WellFormed() && i < |job.urls|
  {
    StoredObject(Fetched(job.urls[i]), job.contentType, o.publicUrl(job.keys[i]))
  }

  /** No two outputs of the job share a storage key. */
  predicate KeysDistinct(job: Job)
  {
    forall i, j :: 0 <= i < j < |job.keys| ==> job.keys[i] != job.keys[j]
  }

  /** The objects of `st'` are those of `st` except under the keys `keys`. */
  predicate ObjectsKeptOutside(st: State, st': State, keys: seq<string>)
  {
    && (forall key :: key in st'.objects && key !in keys ==> key in st.objects)
    && (forall key :: key in st.objects && key !in keys ==> key in st'.objects && st'.objects[key] == st.objects[key])
  }

  /** No transfer, insert or charge of the job throws. */
  predicate Unfaulted(job: Job, o: Oracles)
    requires job.WellFormed()
  {
    !o.faults.charge
    && (forall i :: 0 <= i < |job.keys| ==> job.keys[i] !in o.faults.uploads)
    && (forall i :: 0 <= i < |job.uuids| ==> job.uuids[i] !in o.faults.inserts)
  }

  /**
   * Outputs `k..` in order: download the output into storage under its key,
   * insert its record, and once all are stored charge the user once. `None`
   * is the thrown error; the steps done before it stay done.
   */
  function Materialize(st: State, job: Job, o: Oracles, k: nat, made: seq<Outfit>): (r: (Option<seq<Outfit>>, State))
    requires job.WellFormed() && k <= |job.urls|
    decreases |job.urls| - k
  {
    if k == |job.urls| then
      if o.faults.charge then (None, st) else (Some(made), st.Debited(job.user, job.cost))
    else
      var key := job.keys[k];
      if key in o.faults.uploads then (None, st)
      else
        var st1 := st.Stored(key, ObjectAt(job, o, k));
        var rec := RecordAt(job, o, k);
        if rec.uuid in o.faults.inserts then (None, st1)
        else Materialize(st1.Inserted(rec), job, o, k + 1, made + [rec])
  }

  /** The generation loop itself, proved to do what `Materialize` says. */
  method MaterializeLoop(b: Backend, job: Job, o: Oracles) returns (r: Option<seq<Outfit>>)
    requires job.WellFormed()
    modifies b
    ensures (r, b.Snapshot()) == Materialize(old(b.Snapshot()), job, o, 0, [])
  {
    var made: seq<Outfit> := [];
    var index := 0;
    while index < |job.urls|
      invariant 0 <= index <= |job.urls|
      invariant Materialize(old(b.Snapshot()), job, o, 0, []) == Materialize(b.Snapshot(), job, o, index, made)
      decreases |job.urls| - index
    {
      var key := job.keys[index];
      if key in o.faults.uploads {
        return None;
      }
      b.Store(key, ObjectAt(job, o, index));
      var rec := RecordAt(job, o, index);
      if rec.uuid in o.faults.inserts {
        return None;
      }
      b.Insert(rec);
      made := made + [rec];
      index := index + 1;
    }
    if o.faults.charge {
      return None;
    }
    b.Debit(job.user, job.cost);
    r := Some(made);
  }

  /** On success every output got its record, in order, and its key is present in storage (`MaterializeStores` says what it holds). */
  lemma {:induction false} MaterializeSucceeds(st: State, job: Job, o: Oracles, k: nat, made: seq<Outfit>)
    requires job.WellFormed() && k <= |job.urls| && Unfaulted(job, o)
    ensures var (r, st') := Materialize(st, job, o, k, made);
      && r == Some(made + RecordsBetween(job, o, k, |job.urls|))
      && st'.outfits == st.outfits + RecordsBetween(job, o, k, |job.urls|)
      && (forall i :: k <= i < |job.urls| ==> job.keys[i] in st'.objects)
    decreases |job.urls| - k
  {
    if k == |job.urls| {
      assert made + RecordsBetween(job, o, k, |job.urls|) == made;
    } else {
      var key := job.keys[k];
      var st1 := st.Stored(key, ObjectAt(job, o, k));
      var rec := RecordAt(job, o, k);
      assert rec.uuid == job.uuids[k];
      MaterializeSucceeds(st1.Inserted(rec), job, o, k + 1, made + [rec]);
      assert RecordsBetween(job, o, k, |job.urls|) == [rec] + RecordsBetween(job, o, k + 1, |job.urls|);
      assert made + [rec] + RecordsBetween(job, o, k + 1, |job.urls|) == made + RecordsBetween(job, o, k, |job.urls|);
      MaterializeKeepsObjects(st1.Inserted(rec), job, o, k + 1, made + [rec], key);
    }
  }

  /**
   * On success, with distinct keys, the key of output `i` holds that
   * output's download under the job's content type, and every other key
   * keeps the object it had (or stays absent).
   */
  lemma {:induction false} MaterializeStores(st: State, job: Job, o: Oracles, k: nat, made: seq<Outfit>)
    requires job.WellFormed() && k <= |job.urls| && Unfaulted(job, o) && KeysDistinct(job)
    ensures var st' := Materialize(st, job, o, k, made).1;
      && (forall i :: k <= i < |job.urls| ==> job.keys[i] in st'.objects && st'.objects[job.keys[i]] == ObjectAt(job, o, i))
      && ObjectsKeptOutside(st, st', job.keys[k..])
    decreases |job.urls| - k
  {
    if k < |job.urls| {
      var key := job.keys[k];
      var st1 := st.Stored(key, ObjectAt(job, o, k));
      var rec := RecordAt(job, o, k);
      assert rec.uuid == job.uuids[k];
      MaterializeStores(st1.Inserted(rec), job, o, k + 1, made + [rec]);
      assert job.keys[k..] == [key] + job.keys[k + 1..];
      assert key !in job.keys[k + 1..] by {
        forall t | k + 1 <= t < |job.keys| ensures job.keys[t] != key {
        }
      }
    }
  }

  /** On success the user was charged exactly once, after the last record. */
  lemma {:induction false} MaterializeChargesOnce(st: State, job: Job, o: Oracles, k: nat, made: seq<Outfit>)
    requires job.WellFormed() && k <= |job.urls| && Unfaulted(job, o)
    ensures var st' := Materialize(st, job, o, k, made).1;
      && st'.transactions == st.transactions + [CreditTx(job.user, OutfitGeneration, Decrease(job.cost))]
      && st'.credits == st.Debited(job.user, job.cost).credits
    decreases |job.urls| - k
  {
    if k < |job.urls| {
      var key := job.keys[k];
      var st1 := st.Stored(key, ObjectAt(job, o, k));
      var rec := RecordAt(job, o, k);
      assert rec.uuid == job.uuids[k];
      MaterializeChargesOnce(st1.Inserted(rec), job, o, k + 1, made + [rec]);
      st.DebitedCredits(st1.Inserted(rec), job.user, job.cost);
    }
  }

  /** Objects once stored are not removed by the rest of the loop. */
  lemma {:induction false} MaterializeKeepsObjects(st: State, job: Job, o: Oracles, k: nat, made: seq<Outfit>, key: string)
    requires job.WellFormed() && k <= |job.urls| && key in st.objects
    ensures key in Materialize(st, job, o, k, made).1.objects
    decreases |job.urls| - k
  {
    if k < |job.urls| && job.keys[k] !in o.faults.uploads {
      var st1 := st.Stored(job.keys[k], ObjectAt(job, o, k));
      var rec := RecordAt(job, o, k);
      if rec.uuid !in o.faults.inserts {
        MaterializeKeepsObjects(st1.Inserted(rec), job, o, k + 1, made + [rec], key);
      }
    }
  }

  /**
   * A thrown step leaves credits and transactions untouched: the charge
   * comes last. The records inserted before it stay, and they are a prefix
   * of the records the job would have made.
   */
  lemma {:induction false} MaterializeFailureNeverCharges(st: State, job: Job, o: Oracles, k: nat, made: seq<Outfit>)
    requires job.WellFormed() && k <= |job.urls|
    ensures var (r, st') := Materialize(st, job, o, k, made);
      r.None? ==>
        && st'.credits == st.credits && st'.transactions == st.transactions
        && st'.calls == st.calls && st'.wallpapers == st.wallpapers
        && exists j :: k <= j <= |job.urls| && st'.outfits == st.outfits + RecordsBetween(job, o, k, j)
    decreases |job.urls| - k
  {
    var (r, st') := Materialize(st, job, o, k, made);
    if r.None? {
      if k == |job.urls| || job.keys[k] in o.faults.uploads {
        assert st'.outfits == st.outfits + RecordsBetween(job, o, k, k);
      } else {
        var key := job.keys[k];
        var st1 := st.Stored(key, ObjectAt(job, o, k));
        var rec := RecordAt(job, o, k);
        if rec.uuid in o.faults.inserts {
          assert st'.outfits == st.outfits + RecordsBetween(job, o, k, k);
        } else {
          MaterializeFailureNeverCharges(st1.Inserted(rec), job, o, k + 1, made + [rec]);
          var j :| k + 1 <= j <= |job.urls| && st'.outfits == st1.Inserted(rec).outfits + RecordsBetween(job, o, k + 1, j);
          assert RecordsBetween(job, o, k, j) == [rec] + RecordsBetween(job, o, k + 1, j);
          assert st'.outfits == st.outfits + RecordsBetween(job, o, k, j);
        }
      }
    }
  }

  /** Whatever happens, the loop changes only objects, outfits, credits and transactions. */
  lemma {:induction false} MaterializeFrame(st: State, job: Job, o: Oracles, k: nat, made: seq<Outfit>)
    requires job.WellFormed() && k <= |job.urls|
    ensures var st' := Materialize(st, job, o, k, made).1;
      st'.calls == st.calls && st'.wallpapers == st.wallpapers && st'.users == st.users && st'.orders == st.orders
    decreases |job.urls| - k
  {
    if k < |job.urls| && job.keys[k] !in o.faults.uploads {
      var st1 := st.Stored(job.keys[k], ObjectAt(job, o, k));
      var rec := RecordAt(job, o, k);
      if rec.uuid !in o.faults.inserts {
        MaterializeFrame(st1.Inserted(rec), job, o, k + 1, made + [rec]);
      }
    }
  }

  /** The loop succeeds only when none of its transfers, inserts or the charge threw. */
  lemma {:induction false} MaterializeSomeIsUnfaulted(st: State, job: Job, o: Oracles, k: nat, made: seq<Outfit>)
    requires job.WellFormed() && k <= |job.urls|
    requires Materialize(st, job, o, k, made).0.Some?
    ensures !o.faults.charge
    ensures forall i :: k <= i < |job.urls| ==> job.keys[i] !in o.faults.uploads && job.uuids[i] !in o.faults.inserts
    decreases |job.urls| - k
  {
    if k < |job.urls| {
      var key := job.keys[k];
      var st1 := st.Stored(key, ObjectAt(job, o, k));
      var rec := RecordAt(job, o, k);
      MaterializeSomeIsUnfaulted(st1.Inserted(rec), job, o, k + 1, made + [rec]);
    }
  }

  /**
   * A whole job that succeeded: its reply is every record in order, those
   * records were appended, every key is stored and the user was charged
   * once; calls, wallpapers, users and orders did not change. With distinct
   * keys, key `i` holds output `i` as `ObjectAt` says and no other object
   * changed.
   */
  lemma MaterializeCommits(st: State, job: Job, o: Oracles)
    requires job.WellFormed()
    ensures var (r, st') := Materialize(st, job, o, 0, []);
      r.Some? ==>
        && r.value == RecordsBetween(job, o, 0, |job.urls|)
        && st'.outfits == st.outfits + r.value
        && st'.transactions == st.transactions + [CreditTx(job.user, OutfitGeneration, Decrease(job.cost))]
        && st'.credits == st.Debited(job.user, job.cost).credits
        && st'.calls == st.calls && st'.wallpapers == st.wallpapers && st'.users == st.users && st'.orders == st.orders
        && (forall i :: 0 <= i < |job.urls| ==> job.keys[i] in st'.objects)
        && (KeysDistinct(job) ==>
              && (forall i :: 0 <= i < |job.urls| ==> st'.objects[job.keys[i]] == ObjectAt(job, o, i))
              && ObjectsKeptOutside(st, st', job.keys))
  {
    if Materialize(st, job, o, 0, []).0.Some? {
      MaterializeSomeIsUnfaulted(st, job, o, 0, []);
      MaterializeSucceeds(st, job, o, 0, []);
      if KeysDistinct(job) {
        MaterializeStores(st, job, o, 0, []);
        assert job.keys[0..] == job.keys;
      }
      MaterializeChargesOnce(st, job, o, 0, []);
      MaterializeFrame(st, job, o, 0, []);
      assert [] + RecordsBetween(job, o, 0, |job.urls|) == RecordsBetween(job, o, 0, |job.urls|);
    }
  }
}
