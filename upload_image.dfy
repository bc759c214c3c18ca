/**
 * `POST /api/upload-image`: store a data URL's base64 payload under
 * `upload/{batch}_{type}.png` and answer with its public address. No
 * credits are involved.
 */
module UploadImage {

  import opened Wrappers
  import opened Strings
  import opened Js
  import opened Ledger

  const Failure := "upload image fail"

  /** The body: `image` as sent, `type` when it is present. */
  datatype Request = Request(image: Value, imageType: Option<string>)

  datatype Uploaded = Uploaded(url: string, key: string, batch: string)

  /** `image.split(",")[1]`: the text between the first and the second comma; `None` without a comma. */
  function Payload(image: string): (r: Option<string>)
    ensures r.None? <==> ',' !in image
  {
    var parts := Split(image, ',');
    if |parts| >= 2 then Some(parts[1]) else None
  }

  /** The payload is what follows the first comma, up to the next one. */
  lemma PayloadAfterFirstComma(image: string)
    requires ',' in image
    ensures Payload(image) == Some(Before(After(image, ',').value, ','))
  {
    var after := After(image, ',').value;
    assert Split(image, ',') == [Before(image, ',')] + Split(after, ',');
    assert Split(after, ',')[0] == Before(after, ',');
  }

  /** What follows the first comma of `prefix,t`, for a comma-free prefix, is `t`. */
  lemma AfterCommaFreePrefix(prefix: string, t: string)
    requires ',' !in prefix
    ensures After(prefix + "," + t, ',') == Some(t)
  {
    var s := prefix + "," + t;
    assert s == prefix + ("," + t);
    BeforeAppend(prefix, "," + t, ',');
    assert Before("," + t, ',') == [];
    assert |After(s, ',').value| == |t|;
    assert After(s, ',').value == s[|prefix| + 1..] == t;
  }

  /** For `prefix,payload` and `prefix,payload,rest` the payload is the piece after the first comma. */
  lemma PayloadBetweenCommas(prefix: string, payload: string, rest: string)
    requires ',' !in prefix && ',' !in payload
    requires rest == [] || rest[0] == ','
    ensures Payload(prefix + "," + payload + rest) == Some(payload)
  {
    var s := prefix + "," + payload + rest;
    assert s == prefix + "," + (payload + rest);
    AfterCommaFreePrefix(prefix, payload + rest);
    PayloadAfterFirstComma(s);
    BeforeAppend(payload, rest, ',');
    if rest != [] {
      assert rest[0] == ',';
      assert Before(rest, ',') == [];
    }
    assert Before(payload + rest, ',') == payload + Before(rest, ',') == payload;
  }

  /** The storage key: the type, or `image` when it is missing or empty; always `.png`. */
  function KeyOf(batch: string, imageType: Option<string>): (r: string)
    ensures StartsWith(r, "upload/" + batch + "_") && EndsWith(r, ".png")
  {
    var key := "upload/" + batch + "_" + OrElse(imageType, "image") + ".png";
    assert key == ("upload/" + batch + "_") + (OrElse(imageType, "image") + ".png");
    key
  }

  /** `storageDomain` is `STORAGE_DOMAIN`, rendered as `undefined` when unset. */
  function PostSpec(st: State, req: Request, storageDomain: Option<string>, o: Oracles): (Reply<Uploaded>, State)
  {
    if !Truthy(req.image) then (Error("Missing image"), st)
    else if o.user == [] then (Error("User not authenticated"), st)
    else if !req.image.Str? then (Error(Failure), st)
    else
      var batch := o.uuid(0);
      match Payload(req.image.s)
      case None => (Error(Failure), st)
      case Some(payload) =>
        var key := KeyOf(batch, req.imageType);
        if key in o.faults.uploads then (Error(Failure), st)
        else (Data(Uploaded(Template(storageDomain) + "/" + key, key, batch)),
              st.Stored(key, StoredObject(Decoded(payload), "image/png", o.publicUrl(key))))
  }

  method Post(b: Backend, req: Request, storageDomain: Option<string>, o: Oracles) returns (reply: Reply<Uploaded>)
    modifies b
    ensures (reply, b.Snapshot()) == PostSpec(old(b.Snapshot()), req, storageDomain, o)
  {
    if !Truthy(req.image) {
      return Error("Missing image");
    }
    if o.user == [] {
      return Error("User not authenticated");
    }
    var batch := o.uuid(0);
    if !req.image.Str? {
      return Error(Failure);
    }
    var payload := Payload(req.image.s);
    if payload.None? {
      return Error(Failure);
    }
    var key := KeyOf(batch, req.imageType);
    if key in o.faults.uploads {
      return Error(Failure);
    }
    b.Store(key, StoredObject(Decoded(payload.value), "image/png", o.publicUrl(key)));
    reply := Data(Uploaded(Template(storageDomain) + "/" + key, key, batch));
  }

  /** A missing image is refused before the session is read, an anonymous caller next; neither changes anything. */
  lemma PostGates(st: State, req: Request, storageDomain: Option<string>, o: Oracles)
    ensures !Truthy(req.image) ==> PostSpec(st, req, storageDomain, o) == (Error("Missing image"), st)
    ensures Truthy(req.image) && o.user == [] ==> PostSpec(st, req, storageDomain, o) == (Error("User not authenticated"), st)
  {
  }

  /**
   * An upload stores the decoded payload as a PNG under
   * `upload/{batch}_{type or "image"}.png`, and the reply carries
   * `STORAGE_DOMAIN/key`, the key and the batch id; nothing else changes.
   */
  lemma PostSucceeds(st: State, prefix: string, payload: string, imageType: Option<string>, storageDomain: Option<string>, o: Oracles)
    requires ',' !in prefix && ',' !in payload && o.user != []
    requires KeyOf(o.uuid(0), imageType) !in o.faults.uploads
    ensures var (reply, st') := PostSpec(st, Request(Str(prefix + "," + payload), imageType), storageDomain, o);
      var key := "upload/" + o.uuid(0) + "_" + (if imageType.Some? && imageType.value != [] then imageType.value else "image") + ".png";
      && reply == Data(Uploaded(Template(storageDomain) + "/" + key, key, o.uuid(0)))
      && st' == st.(objects := st.objects[key := StoredObject(Decoded(payload), "image/png", o.publicUrl(key))])
  {
    PayloadBetweenCommas(prefix, payload, []);
    assert prefix + "," + payload + [] == prefix + "," + payload;
  }

  /** Every failure after the gates is the catch-all, and leaves the state as it was. */
  lemma FailureChangesNothing(st: State, req: Request, storageDomain: Option<string>, o: Oracles)
    ensures var (reply, st') := PostSpec(st, req, storageDomain, o);
      && (reply.Error? ==> st' == st && reply.message in {"Missing image", "User not authenticated", Failure})
      && st'.credits == st.credits && st'.transactions == st.transactions && st'.outfits == st.outfits
  {
  }
}
