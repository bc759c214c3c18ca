/**
 * The object-storage helpers: the public URL of a key, the signing client's
 * configuration checks, and presigned uploads. The storage settings are
 * the `STORAGE_*` environment variables; the signature itself is an input.
 */
module R2 {

  import opened Wrappers
  import opened Strings
  import opened Js

  const ConfigMissing := "R2 config missing: STORAGE_ENDPOINT or STORAGE_BUCKET"
  const CredentialsMissing := "R2 credentials missing"
  const DefaultExpiry := 300

  /** `STORAGE_ENDPOINT`, `STORAGE_BUCKET`, `STORAGE_ACCESS_KEY`, `STORAGE_SECRET_KEY`, `STORAGE_REGION`, `STORAGE_DOMAIN`. */
  datatype Config = Config(
    endpoint: Option<string>,
    bucket: Option<string>,
    accessKey: Option<string>,
    secretKey: Option<string>,
    region: Option<string>,
    domain: Option<string>)

  /** A setting is used when it is present and non-empty. */
  predicate IsSet(v: Option<string>)
  {
    v.Some? && v.value != []
  }

  /** The signing client's settings. */
  datatype SigningClient = SigningClient(accessKeyId: string, secretAccessKey: string, service: string, region: string)

  /** What is signed for an upload: a `PUT` of `url` with its content type, valid for `expires` seconds. */
  datatype SignRequest = SignRequest(client: SigningClient, url: string, method_: string, contentType: string, expires: int)

  datatype Presigned = Presigned(uploadUrl: string, publicUrl: string)

  /** `getR2Client`: the endpoint and bucket are checked before the credentials; the region defaults to `auto`. */
  function ClientFor(cfg: Config): (r: Result<SigningClient>)
    ensures r.Ok? <==> IsSet(cfg.endpoint) && IsSet(cfg.bucket) && IsSet(cfg.accessKey) && IsSet(cfg.secretKey)
    ensures !(IsSet(cfg.endpoint) && IsSet(cfg.bucket)) ==> r == Err(ConfigMissing)
    ensures IsSet(cfg.endpoint) && IsSet(cfg.bucket) && !(IsSet(cfg.accessKey) && IsSet(cfg.secretKey)) ==> r == Err(CredentialsMissing)
    ensures r.Ok? ==> r.value == SigningClient(cfg.accessKey.value, cfg.secretKey.value, "s3", OrElse(cfg.region, "auto"))
  {
    if !IsSet(cfg.endpoint) || !IsSet(cfg.bucket) then Err(ConfigMissing)
    else if !IsSet(cfg.accessKey) || !IsSet(cfg.secretKey) then Err(CredentialsMissing)
    else Ok(SigningClient(cfg.accessKey.value, cfg.secretKey.value, "s3", OrElse(cfg.region, "auto")))
  }

  /** `buildR2PublicUrl`. */
  function PublicUrl(cfg: Config, key: string): string
  {
    if IsSet(cfg.domain) then cfg.domain.value + "/" + key
    else if IsSet(cfg.endpoint) && IsSet(cfg.bucket) then StripTrailingSlash(cfg.endpoint.value) + "/" + cfg.bucket.value + "/" + key
    else key
  }

  /**
   * The public URL is under the domain when one is set; otherwise under the
   * endpoint (without its trailing slash) and the bucket when both are
   * set; otherwise it is the bare key. In every case it ends with the key.
   */
  lemma PublicUrlCases(cfg: Config, key: string)
    ensures IsSet(cfg.domain) ==> PublicUrl(cfg, key) == cfg.domain.value + "/" + key
    ensures !IsSet(cfg.domain) && IsSet(cfg.endpoint) && IsSet(cfg.bucket) && EndsWith(cfg.endpoint.value, "/") ==>
      PublicUrl(cfg, key) == cfg.endpoint.value[..|cfg.endpoint.value| - 1] + "/" + cfg.bucket.value + "/" + key
    ensures !IsSet(cfg.domain) && !(IsSet(cfg.endpoint) && IsSet(cfg.bucket)) ==> PublicUrl(cfg, key) == key
    ensures EndsWith(PublicUrl(cfg, key), key)
  {
    var u := PublicUrl(cfg, key);
    if IsSet(cfg.domain) {
      assert u == (cfg.domain.value + "/") + key;
    } else if IsSet(cfg.endpoint) && IsSet(cfg.bucket) {
      var e := cfg.endpoint.value;
      assert u == (StripTrailingSlash(e) + "/" + cfg.bucket.value + "/") + key;
      if EndsWith(e, "/") {
        assert StripTrailingSlash(e) + "/" == e;
        assert |StripTrailingSlash(e)| == |e| - 1;
        assert StripTrailingSlash(e) == e[..|e| - 1];
      }
    } else {
      assert u[|u| - |key|..] == key;
    }
  }

  /**
   * `presignR2Put`: sign a `PUT` of `{endpoint}/{bucket}/{key}`, with the
   * expiry defaulting to 300 seconds, and name the public URL of the same key.
   */
  function PresignPut(cfg: Config, key: string, contentType: string, expires: Option<int>,
                      sign: SignRequest -> string): (r: Result<Presigned>)
    ensures r.Err? <==> ClientFor(cfg).Err?
    ensures r.Err? ==> r.error == ClientFor(cfg).error
    ensures r.Ok? ==> r.value.publicUrl == PublicUrl(cfg, key)
  {
    match ClientFor(cfg)
    case Err(e) => Err(e)
    case Ok(client) =>
      var baseUrl := StripTrailingSlash(cfg.endpoint.value) + "/" + cfg.bucket.value + "/" + key;
      var request := SignRequest(client, baseUrl, "PUT", contentType, expires.GetOr(DefaultExpiry));
      Ok(Presigned(sign(request), PublicUrl(cfg, key)))
  }

  /** The signed request is a `PUT` of the key in the bucket, with the given content type and 300 seconds by default. */
  lemma PresignSigns(cfg: Config, key: string, contentType: string, expires: Option<int>, sign: SignRequest -> string)
    requires ClientFor(cfg).Ok?
    ensures PresignPut(cfg, key, contentType, expires, sign).value.uploadUrl
      == sign(SignRequest(ClientFor(cfg).value, StripTrailingSlash(cfg.endpoint.value) + "/" + cfg.bucket.value + "/" + key,
                          "PUT", contentType, if expires.Some? then expires.value else 300))
  {
  }
}
