/**
 * `POST /api/r2-presign`: hand the browser a presigned upload URL for a
 * fresh key under a prefix, with the public URL the object will have.
 */
module R2PresignRoute {

  import opened Wrappers
  import opened Strings
  import opened Ledger
  import opened R2

  const Failure := "r2 presign failed"

  /** The body's `type` and `prefix`; the destructuring defaults apply when a field is absent. */
  datatype Request = Request(contentType: Option<string>, prefix: Option<string>)

  datatype PresignReply = PresignReply(uploadUrl: string, key: string, publicUrl: string)

  /** `{prefix}/{uuid}_base.png`, whatever the content type. */
  function KeyOf(prefix: Option<string>, id: string): (r: string)
    ensures EndsWith(r, "_base.png")
    ensures prefix.None? ==> r == "upload/" + id + "_base.png"
    ensures prefix.Some? ==> r == prefix.value + "/" + id + "_base.png"
  {
    var p := if prefix.Some? then prefix.value else "upload";
    var key := p + "/" + id + "_base.png";
    assert key == (p + "/" + id) + "_base.png";
    key
  }

  function Post(cfg: Config, req: Request, sign: SignRequest -> string, o: Oracles): (r: Reply<PresignReply>)
  {
    var key := KeyOf(req.prefix, o.uuid(0));
    match PresignPut(cfg, key, req.contentType.GetOr("image/png"), Some(60 * 5), sign)
    case Err(_) => Error(Failure)
    case Ok(p) => Data(PresignReply(p.uploadUrl, key, p.publicUrl))
  }

  /**
   * With the storage configured, the reply names a key under the prefix
   * (`upload` by default), the URL signed for a `PUT` of it with the
   * content type (`image/png` by default) for 300 seconds, and the key's
   * public URL; otherwise it is the one failure message.
   */
  lemma PostReply(cfg: Config, req: Request, sign: SignRequest -> string, o: Oracles)
    ensures var r := Post(cfg, req, sign, o);
      var prefix := if req.prefix.Some? then req.prefix.value else "upload";
      var key := prefix + "/" + o.uuid(0) + "_base.png";
      && (r.Data? <==> ClientFor(cfg).Ok?)
      && (r.Error? ==> r.message == Failure)
      && (r.Data? ==>
            && r.value.key == key
            && r.value.publicUrl == PublicUrl(cfg, key)
            && r.value.uploadUrl == sign(SignRequest(ClientFor(cfg).value, StripTrailingSlash(cfg.endpoint.value) + "/" + cfg.bucket.value + "/" + key,
                                                     "PUT", if req.contentType.Some? then req.contentType.value else "image/png", 300)))
  {
    var key := KeyOf(req.prefix, o.uuid(0));
    if ClientFor(cfg).Ok? {
      PresignSigns(cfg, key, req.contentType.GetOr("image/png"), Some(60 * 5), sign);
    }
  }
}
