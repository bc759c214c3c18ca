/**
 * `POST /api/gen-wallpaper`: generate wallpapers from a description, store
 * each image under a numbered key and insert all records in one call. The
 * route asks for no session and charges no credits; the user id, if any,
 * comes from the body.
 */
module GenWallpaper {

  import opened Wrappers
  import opened Strings
  import opened Js
  import opened Ledger

  const Model := "black-forest-labs/flux-schnell"
  const Failure := "generate wallpaper fail"
  const PromptPrefix := "generate  a wallpaper with the following description:"

  /** The body: the description (empty when missing) and the optional `user_uuid`. */
  datatype Request = Request(description: string, userUuid: Option<string>)

  /** What `generateImage` gave: a throw, or the images' base64 texts and the number of warnings. */
  datatype Generation = GenerationThrew | Generated(images: seq<string>, warnings: nat)

  datatype WallpaperReply = WallpaperReply(prompt: string, wallpapers: seq<Wallpaper>)

  function PromptOf(description: string): string
  {
    PromptPrefix + description
  }

  /** The key of image `i`: `gen/replicate_image_{batch}_{i}.png`. */
  function KeyOf(batch: string, i: nat): string
  {
    "gen/replicate_image_" + batch + "_" + NatToString(i) + ".png"
  }

  /** Different images never share a key. */
  lemma KeysDistinct(batch: string, i: nat, j: nat)
    requires KeyOf(batch, i) == KeyOf(batch, j)
    ensures i == j
  {
    var p := "gen/replicate_image_" + batch + "_";
    assert KeyOf(batch, i) == p + NatToString(i) + ".png";
    assert KeyOf(batch, j) == p + NatToString(j) + ".png";
    NumberedKeysDistinct(p, i, j, ".png", ".png");
  }

  /** `user_uuid || null`. */
  function OwnerOf(userUuid: Option<string>): (r: Option<string>)
    ensures r.Some? <==> userUuid.Some? && userUuid.value != []
    ensures r.Some? ==> r == userUuid
  {
    if userUuid.Some? && userUuid.value != [] then userUuid else None
  }

  /** The record of image `i`; its uuid is the generator's `i + 1`-th value, after the batch id. */
  function RecordOf(req: Request, storageDomain: Option<string>, batch: string, i: nat, o: Oracles): Wallpaper
  {
    Wallpaper(o.uuid(i + 1), o.now, req.description, Template(storageDomain) + "/" + KeyOf(batch, i), OwnerOf(req.userUuid), Active)
  }

  function RecordsOf(req: Request, storageDomain: Option<string>, batch: string, n: nat, o: Oracles): (r: seq<Wallpaper>)
    ensures |r| == n
    ensures forall i :: 0 <= i < n ==> r[i] == RecordOf(req, storageDomain, batch, i, o)
  {
    seq(n, i requires 0 <= i < n => RecordOf(req, storageDomain, batch, i, o))
  }

  /** The storage after the uploads of the first `n` images: each one whose upload does not fail is stored. */
  function StoredFirst(st: State, images: seq<string>, batch: string, o: Oracles, n: nat): State
    requires n <= |images|
  {
    if n == 0 then st
    else
      var prev := StoredFirst(st, images, batch, o, n - 1);
      var key := KeyOf(batch, n - 1);
      if key in o.faults.uploads then prev
      else prev.Stored(key, StoredObject(Decoded(images[n - 1]), "image/png", o.publicUrl(key)))
  }

  /** Some upload among the images fails. */
  predicate AnyUploadFails(images: seq<string>, batch: string, o: Oracles)
  {
    exists i :: 0 <= i < |images| && KeyOf(batch, i) in o.faults.uploads
  }

  /** `insertWallpapers` throws when it meets a record whose insert fails. */
  predicate InsertFails(ws: seq<Wallpaper>, o: Oracles)
  {
    exists i :: 0 <= i < |ws| && ws[i].uuid in o.faults.inserts
  }

  /**
   * The route. The uploads all start together; each that fails makes the
   * whole request fail, but the others are stored all the same.
   */
  function PostSpec(st: State, req: Request, storageDomain: Option<string>, gen: Generation, o: Oracles)
    : (Reply<WallpaperReply>, State)
  {
    if req.description == [] then (Error("Description is required"), st)
    else
      var prompt := PromptOf(req.description);
      var st1 := st.Called(RunModel(Model, WallpaperInput(prompt, 1, "16:9", 90)));
      match gen
      case GenerationThrew => (Error(Failure), st1)
      case Generated(images, warnings) =>
        if warnings > 0 then (Error(Failure), st1)
        else
          var batch := o.uuid(0);
          var st2 := StoredFirst(st1, images, batch, o, |images|);
          if AnyUploadFails(images, batch, o) then (Error(Failure), st2)
          else
            var ws := RecordsOf(req, storageDomain, batch, |images|, o);
            if InsertFails(ws, o) then (Error(Failure), st2)
            else (Data(WallpaperReply(prompt, ws)), st2.WallpapersInserted(ws))
  }

  /** The uploads, one image after the other; `failed` says whether any of them threw. */
  method UploadAll(b: Backend, images: seq<string>, batch: string, o: Oracles) returns (failed: bool)
    modifies b
    ensures b.Snapshot() == StoredFirst(old(b.Snapshot()), images, batch, o, |images|)
    ensures failed == AnyUploadFails(images, batch, o)
  {
    ghost var st := b.Snapshot();
    failed := false;
    var i := 0;
    while i < |images|
      invariant 0 <= i <= |images|
      invariant b.Snapshot() == StoredFirst(st, images, batch, o, i)
      invariant failed <==> exists k :: 0 <= k < i && KeyOf(batch, k) in o.faults.uploads
    {
      var key := KeyOf(batch, i);
      if key in o.faults.uploads {
        failed := true;
      } else {
        b.Store(key, StoredObject(Decoded(images[i]), "image/png", o.publicUrl(key)));
      }
      i := i + 1;
    }
  }

  method Post(b: Backend, req: Request, storageDomain: Option<string>, gen: Generation, o: Oracles)
    returns (reply: Reply<WallpaperReply>)
    modifies b
    ensures (reply, b.Snapshot()) == PostSpec(old(b.Snapshot()), req, storageDomain, gen, o)
  {
    if req.description == [] {
      return Error("Description is required");
    }
    var prompt := PromptOf(req.description);
    b.Call(RunModel(Model, WallpaperInput(prompt, 1, "16:9", 90)));
    if gen.GenerationThrew? || gen.warnings > 0 {
      return Error(Failure);
    }
    var batch := o.uuid(0);
    var failed := UploadAll(b, gen.images, batch, o);
    if failed {
      return Error(Failure);
    }
    var ws := RecordsOf(req, storageDomain, batch, |gen.images|, o);
    if InsertFails(ws, o) {
      return Error(Failure);
    }
    b.InsertWallpapers(ws);
    reply := Data(WallpaperReply(prompt, ws));
  }

  /** Without a description nothing is generated or stored. */
  lemma PostGates(st: State, req: Request, storageDomain: Option<string>, gen: Generation, o: Oracles)
    ensures req.description == [] ==> PostSpec(st, req, storageDomain, gen, o) == (Error("Description is required"), st)
  {
  }

  /** Any warning from the provider fails the request before anything is stored. */
  lemma WarningsFail(st: State, req: Request, storageDomain: Option<string>, images: seq<string>, warnings: nat, o: Oracles)
    requires req.description != [] && warnings > 0
    ensures PostSpec(st, req, storageDomain, Generated(images, warnings), o)
      == (Error(Failure), st.Called(RunModel(Model, WallpaperInput(PromptOf(req.description), 1, "16:9", 90))))
  {
  }

  /** Storing the first `n` images changes only the objects, and puts image `i` under its key when its upload succeeds. */
  lemma {:induction false} StoredFirstObjects(st: State, images: seq<string>, batch: string, o: Oracles, n: nat)
    requires n <= |images|
    ensures var st' := StoredFirst(st, images, batch, o, n);
      && st' == st.(objects := st'.objects)
      && (forall i :: 0 <= i < n && KeyOf(batch, i) !in o.faults.uploads ==>
            KeyOf(batch, i) in st'.objects
            && st'.objects[KeyOf(batch, i)] == StoredObject(Decoded(images[i]), "image/png", o.publicUrl(KeyOf(batch, i))))
      && (forall key :: key in st'.objects && key !in st.objects ==> exists i :: 0 <= i < n && key == KeyOf(batch, i))
  {
    if n > 0 {
      StoredFirstObjects(st, images, batch, o, n - 1);
      forall i | 0 <= i < n - 1 && KeyOf(batch, i) == KeyOf(batch, n - 1)
        ensures false
      {
        KeysDistinct(batch, i, n - 1);
      }
    }
  }

  /**
   * A successful reply repeats the prompt and lists one record per image,
   * in order: a fresh uuid, the description, `STORAGE_DOMAIN/key`, the body's
   * user or none, active. They are inserted in one call, and each image is
   * stored as a PNG under its key; credits are untouched.
   */
  lemma PostSucceeds(st: State, req: Request, storageDomain: Option<string>, gen: Generation, o: Oracles)
    ensures var (reply, st') := PostSpec(st, req, storageDomain, gen, o);
      reply.Data? ==>
        && gen.Generated? && gen.warnings == 0
        && reply.value.prompt == PromptPrefix + req.description
        && |reply.value.wallpapers| == |gen.images|
        && st'.wallpapers == st.wallpapers + reply.value.wallpapers
        && st'.credits == st.credits && st'.transactions == st.transactions && st'.outfits == st.outfits
        && forall i :: 0 <= i < |gen.images| ==>
             var key := "gen/replicate_image_" + o.uuid(0) + "_" + NatToString(i) + ".png";
             && reply.value.wallpapers[i] == Wallpaper(o.uuid(i + 1), o.now, req.description, Template(storageDomain) + "/" + key,
                                                      OwnerOf(req.userUuid), Active)
             && key in st'.objects && st'.objects[key] == StoredObject(Decoded(gen.images[i]), "image/png", o.publicUrl(key))
  {
    if req.description != [] && gen.Generated? && gen.warnings == 0 {
      var st1 := st.Called(RunModel(Model, WallpaperInput(PromptOf(req.description), 1, "16:9", 90)));
      StoredFirstObjects(st1, gen.images, o.uuid(0), o, |gen.images|);
    }
  }

  /** A failed upload or insert writes no record; the uploads that went through stay stored. */
  lemma FailureInsertsNothing(st: State, req: Request, storageDomain: Option<string>, gen: Generation, o: Oracles)
    ensures var (reply, st') := PostSpec(st, req, storageDomain, gen, o);
      && (reply.Error? ==> st'.wallpapers == st.wallpapers && reply.message in {"Description is required", Failure})
      && st'.credits == st.credits && st'.transactions == st.transactions
  {
    if req.description != [] && gen.Generated? && gen.warnings == 0 {
      var st1 := st.Called(RunModel(Model, WallpaperInput(PromptOf(req.description), 1, "16:9", 90)));
      StoredFirstObjects(st1, gen.images, o.uuid(0), o, |gen.images|);
    }
  }
}
