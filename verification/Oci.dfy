/**
 * Pulling an OCI dependency: the content-addressed cache, the layer a manifest
 * offers, the keyed cosign check and the lock's pin (host/src/oci.effect.ts,
 * host/src/cosign.ts).
 */
module Oci {
  import opened Common
  import Der

  /** An unpacked tree: POSIX path to contents. */
  type Files = map<string, Bytes>

  datatype Layer = Layer(mediaType: string, digest: string, size: Option<nat>, annotations: map<string, string>)

  datatype Manifest = Manifest(layers: seq<Layer>, annotations: map<string, string>)

  /** What the `source.toml` of generated schemas says of their source. */
  datatype Provenance = Provenance(dependency: string, source: string, version: string, crds: string, digest: string)

  /**
   * Foreign code, arbitrary: hashing, signature arithmetic, decoders and
   * unpackers; `scope` enters the one directory an archive may consist of,
   * `generate` turns a dependency's files and a selector into schemas.
   */
  datatype World = World(
    sha256: Bytes -> string,
    keyRef: string -> Option<string>,
    decodeManifest: Bytes -> Option<Manifest>,
    base64: string -> Option<Bytes>,
    claimedDigest: Bytes -> Option<string>,
    ecdsa: (string, Bytes, Bytes) -> bool,
    unpack: (Bytes, bool) -> Option<Files>,
    treeDigest: Files -> string,
    canonicalGit: string -> string,
    urlFileName: string -> string,
    kclIdent: string -> string,
    scope: Files -> Files,
    generate: (string, Files, string) -> Option<Files>,
    readProvenance: Bytes -> Option<Provenance>,
    writeProvenance: Provenance -> Bytes)

  /** What the registries answer during one command: by reference and tag, and by reference and digest. */
  datatype Registry = Registry(manifests: map<(string, string), Bytes>, blobs: map<(string, string), Bytes>)

  const HELM_LAYER := "application/vnd.cncf.helm.chart.content.v1.tar+gzip"
  const AKUA_LAYER := "application/vnd.akua.package.content.v1.tar+gzip"
  const KCL_LAYER := "application/vnd.oci.image.layer.v1.tar"
  const KCL_LAYER_GZIP := "application/vnd.oci.image.layer.v1.tar+gzip"
  const KCL_ANNOTATIONS := ["org.kcllang.package.name", "org.kclpkg.package.name", "dev.akua.package.name"]
  const COSIGN_LAYER := "application/vnd.dev.cosign.simplesigning.v1+json"
  const COSIGN_SIGNATURE := "dev.cosignproject.cosign/signature"
  const MAX_BLOB_BYTES := 1024 * 1024 * 1024

  // ---------------------------------------------------------------- layers

  /** `layers.find(...)`: the first layer whose media type is among `types`. */
  function FindLayer(layers: seq<Layer>, types: set<string>): (found: Option<Layer>)
    ensures found.None? <==> forall l :: l in layers ==> l.mediaType !in types
    ensures found.Some? ==> found.value in layers && found.value.mediaType in types
  {
    if layers == [] then None
    else if layers[0].mediaType in types then Some(layers[0])
    else
      assert layers == [layers[0]] + layers[1..];
      FindLayer(layers[1..], types)
  }

  /** The layer to unpack: media types in order of preference, KCL ones only under an annotation. */
  function PackageLayer(m: Manifest): (layer: Option<Layer>)
    ensures layer.Some? ==> layer.value in m.layers
  {
    OrElse(FindLayer(m.layers, {HELM_LAYER}), OrElse(FindLayer(m.layers, {AKUA_LAYER}),
      if exists k | k in KCL_ANNOTATIONS :: k in m.annotations
      then FindLayer(m.layers, {KCL_LAYER, KCL_LAYER_GZIP}) else None))
  }

  predicate IsArchive(mediaType: string) {
    exists dot | dot in [".", "+", "/"] ::
      exists gz | gz in ["", "+gzip", ".gz"] :: EndsWith(mediaType, dot + "tar" + gz)
  }

  function SelectLayer(m: Manifest, anyArchive: bool): (layer: Option<Layer>)
    ensures layer.Some? ==> layer.value in m.layers
  {
    OrElse(PackageLayer(m),
      if anyArchive && |m.layers| == 1 && IsArchive(m.layers[0].mediaType) then Some(m.layers[0]) else None)
  }

  // ---------------------------------------------------------------- signatures

  /** `verifyKeyed`: the payload names this manifest, and its signature is the key's. */
  predicate VerifyKeyed(w: World, pem: string, payload: Bytes, signature: string, manifestDigest: string) {
    var bytes := w.base64(signature);
    bytes.Some? &&
    var raw := Der.SelectRaw(bytes.value);
    raw.Some? && w.claimedDigest(payload) == Some(manifestDigest) && w.ecdsa(pem, raw.value, payload)
  }

  /**
   * One check that really happened: `pem`, whose reference is `ref`, signed a
   * payload naming the fetched `manifest`, whose selected layer is `digest`.
   */
  datatype Evidence = Evidence(
    pem: string, ref: string, manifest: Bytes, payload: Bytes, signature: string, anyArchive: bool, digest: string)

  ghost predicate Genuine(w: World, e: Evidence) {
    && w.keyRef(e.pem) == Some(e.ref)
    && VerifyKeyed(w, e.pem, e.payload, e.signature, w.sha256(e.manifest))
    && var m := w.decodeManifest(e.manifest);
       m.Some? && var layer := SelectLayer(m.value, e.anyArchive); layer.Some? && layer.value.digest == e.digest
  }

  ghost predicate AllGenuine(w: World, log: set<Evidence>) {
    forall e :: e in log ==> Genuine(w, e)
  }

  /** The key with reference `ref` verified the artifact with blob `digest`. */
  ghost predicate Attested(log: set<Evidence>, ref: string, digest: string) {
    exists e :: e in log && e.ref == ref && e.digest == digest
  }

  datatype PullError = PullError(code: string, offline: bool, drift: bool)

  const UNRESOLVED := PullError("E_DEP_RESOLVE", false, false)

  function SidecarTag(manifestDigest: string): string {
    "sha256-" + (if StartsWith(manifestDigest, "sha256:") then manifestDigest[7..] else manifestDigest) + ".sig"
  }

  /** `verifySignature`: the payload and signature it checked, or the code it failed with. */
  function VerifySignature(w: World, net: Registry, reference: string, manifestDigest: string, pem: string)
    : (r: Result<(Bytes, string), PullError>)
    ensures r.Ok? ==> VerifyKeyed(w, pem, r.value.0, r.value.1, manifestDigest)
  {
    var missing := Err(PullError("E_COSIGN_SIG_MISSING", false, false));
    var at := (reference, SidecarTag(manifestDigest));
    if at !in net.manifests then missing
    else
      var m := w.decodeManifest(net.manifests[at]);
      if m.None? then missing
      else
        var layer := FindLayer(m.value.layers, {COSIGN_LAYER});
        if layer.None? || COSIGN_SIGNATURE !in layer.value.annotations then missing
        else
          var signature := layer.value.annotations[COSIGN_SIGNATURE];
          var blob := (reference, layer.value.digest);
          if blob !in net.blobs then missing
          else if !VerifyKeyed(w, pem, net.blobs[blob], signature, manifestDigest)
          then Err(PullError("E_COSIGN_VERIFY", false, false))
          else Ok((net.blobs[blob], signature))
  }

  // ---------------------------------------------------------------- pull

  datatype PullRequest = PullRequest(
    reference: string, version: string, pin: Option<string>, offline: bool,
    key: Option<string>, lockedSignature: Option<string>, anyArchive: bool)

  datatype Pulled = Pulled(digest: string, signature: Option<string>, files: Files)

  datatype Download = Download(digest: string, files: Files, evidence: Option<Evidence>)

  predicate ValidReference(reference: string) {
    && StartsWith(reference, "oci://")
    && exists i | 6 < i < |reference| - 1 :: reference[i] == '/' && forall j | 6 <= j < i :: reference[j] != '/'
  }

  /** The online half of `pull`, up to the write of the cache slot. */
  function Fetch(w: World, net: Registry, req: PullRequest): Result<Download, PullError> {
    var at := (req.reference, req.version);
    if at !in net.manifests then Err(UNRESOLVED)
    else
      var bytes := net.manifests[at];
      var m := w.decodeManifest(bytes);
      if m.None? then Err(UNRESOLVED)
      else
        var checked := if req.key.None? then Ok(([], "")) else
                         VerifySignature(w, net, req.reference, w.sha256(bytes), req.key.value);
        if checked.Err? then Err(checked.error)
        else
          var layer := SelectLayer(m.value, req.anyArchive);
          if layer.None? || (layer.value.size.Some? && layer.value.size.value > MAX_BLOB_BYTES) then Err(UNRESOLVED)
          else
            var blob := (req.reference, layer.value.digest);
            if blob !in net.blobs || w.sha256(net.blobs[blob]) != layer.value.digest then Err(UNRESOLVED)
            else if req.pin.Some? && layer.value.digest != req.pin.value
            then Err(PullError("E_DEP_RESOLVE", false, true))
            else
              var plain := layer.value.mediaType == KCL_LAYER || EndsWith(layer.value.mediaType, ".tar");
              var files := w.unpack(net.blobs[blob], !plain);
              var ref := if req.key.None? then None else w.keyRef(req.key.value);
              if files.None? then Err(UNRESOLVED)
              else Ok(Download(layer.value.digest, files.value,
                if ref.None? then None
                else Some(Evidence(
                  req.key.value, ref.value, bytes, checked.value.0, checked.value.1, req.anyArchive,
                  layer.value.digest))))
  }

  /** A slot is content-addressed: it holds what some blob with that digest unpacks to. */
  ghost predicate Addressed(w: World, digest: string, files: Files) {
    exists blob, gz :: w.sha256(blob) == digest && w.unpack(blob, gz) == Some(files)
  }

  ghost predicate CacheSound(w: World, cache: map<string, Files>) {
    forall d :: d in cache ==> Addressed(w, d, cache[d])
  }

  datatype Outcome = Outcome(result: Result<Pulled, PullError>, cache: map<string, Files>, log: set<Evidence>)

  predicate Vouched(ref: Option<string>, req: PullRequest) {
    ref.None? || req.lockedSignature == ref
  }

  /** `pull`: what it returns, and the cache and the record of checks it leaves. */
  function Pull(w: World, net: Registry, cache: map<string, Files>, log: set<Evidence>, req: PullRequest): Outcome {
    var ref := if req.key.None? then None else w.keyRef(req.key.value);
    if !ValidReference(req.reference) then Outcome(Err(UNRESOLVED), cache, log)
    else if req.key.Some? && ref.None? then Outcome(Err(PullError("E_COSIGN_VERIFY", false, false)), cache, log)
    else if req.pin.Some? && req.pin.value in cache && Vouched(ref, req) then
      Outcome(Ok(Pulled(req.pin.value, ref, cache[req.pin.value])), cache, log)
    else if req.offline then
      var code := if req.pin.Some? && req.pin.value in cache then "E_COSIGN_SIG_MISSING" else "E_DEP_RESOLVE";
      Outcome(Err(PullError(code, true, false)), cache, log)
    else
      var d := Fetch(w, net, req);
      if d.Err? then Outcome(Err(d.error), cache, log)
      else
        var cache' := Stored(cache, d.value);
        Outcome(Ok(Pulled(d.value.digest, ref, cache'[d.value.digest])), cache', Noted(log, d.value))
  }

  lemma FetchSound(w: World, net: Registry, req: PullRequest)
    requires Fetch(w, net, req).Ok?
    ensures var d := Fetch(w, net, req).value;
            && Addressed(w, d.digest, d.files)
            && (req.pin.Some? ==> d.digest == req.pin.value)
            && (d.evidence.Some? ==> Genuine(w, d.evidence.value) && d.evidence.value.digest == d.digest)
            && (req.key.Some? && w.keyRef(req.key.value).Some? ==>
                  d.evidence.Some? && Some(d.evidence.value.ref) == w.keyRef(req.key.value))
  {
  }

  /**
   * Whatever the registry serves, a pull keeps the cache content-addressed and
   * the record genuine; under a pin it returns the pinned blob; and with a key
   * it returns the key's reference next to a digest that key verified.
   */
  lemma PullSound(w: World, net: Registry, cache: map<string, Files>, log: set<Evidence>, req: PullRequest)
    requires CacheSound(w, cache) && AllGenuine(w, log)
    requires req.pin.Some? && req.lockedSignature.Some? ==> Attested(log, req.lockedSignature.value, req.pin.value)
    ensures var o := Pull(w, net, cache, log, req);
            && CacheSound(w, o.cache) && AllGenuine(w, o.log) && log <= o.log && cache.Keys <= o.cache.Keys
            && (o.result.Ok? ==>
                  && Addressed(w, o.result.value.digest, o.result.value.files)
                  && (req.pin.Some? ==> o.result.value.digest == req.pin.value)
                  && (req.key.None? ==> o.result.value.signature.None?)
                  && (req.key.Some? ==>
                        && o.result.value.signature == w.keyRef(req.key.value)
                        && o.result.value.signature.Some?
                        && Attested(o.log, o.result.value.signature.value, o.result.value.digest)))
  {
    var o := Pull(w, net, cache, log, req);
    if o.result.Ok? && !FromCache(w, cache, req) {
      FetchSound(w, net, req);
      Recorded(w, cache, log, Fetch(w, net, req).value);
    } else if o.result.Ok? {
      assert Addressed(w, req.pin.value, cache[req.pin.value]);
    }
  }

  predicate FromCache(w: World, cache: map<string, Files>, req: PullRequest) {
    req.pin.Some? && req.pin.value in cache && Vouched(if req.key.None? then None else w.keyRef(req.key.value), req)
  }

  function Stored(cache: map<string, Files>, d: Download): map<string, Files> {
    if d.digest in cache then cache else cache[d.digest := d.files]
  }

  function Noted(log: set<Evidence>, d: Download): set<Evidence> {
    if d.evidence.None? then log else log + {d.evidence.value}
  }

  /** Storing a checked download and noting its evidence. */
  lemma Recorded(w: World, cache: map<string, Files>, log: set<Evidence>, d: Download)
    requires CacheSound(w, cache) && AllGenuine(w, log) && Addressed(w, d.digest, d.files)
    requires d.evidence.Some? ==> Genuine(w, d.evidence.value) && d.evidence.value.digest == d.digest
    ensures CacheSound(w, Stored(cache, d)) && cache.Keys <= Stored(cache, d).Keys
    ensures Addressed(w, d.digest, Stored(cache, d)[d.digest])
    ensures AllGenuine(w, Noted(log, d)) && log <= Noted(log, d)
    ensures d.evidence.Some? ==> Attested(Noted(log, d), d.evidence.value.ref, d.digest)
  {
    if d.evidence.Some? {
      assert d.evidence.value in Noted(log, d);
    }
  }

  /** The registry client: the cache directory is the state its pulls write. */
  class OciRegistry {
    var cache: map<string, Files>
    var checks: set<Evidence>

    constructor ()
      ensures cache == map[] && checks == {}
    {
      cache, checks := map[], {};
    }

    method PullInto(w: World, net: Registry, req: PullRequest) returns (r: Result<Pulled, PullError>)
      modifies this
      ensures Outcome(r, cache, checks) == Pull(w, net, old(cache), old(checks), req)
    {
      if !ValidReference(req.reference) {
        return Err(UNRESOLVED);
      }
      var signature: Option<string> := None;
      if req.key.Some? {
        signature := w.keyRef(req.key.value);
        if signature.None? {
          return Err(PullError("E_COSIGN_VERIFY", false, false));
        }
      }
      if req.pin.Some? {
        var hit := req.pin.value in cache;
        var vouched := signature.None? || req.lockedSignature == signature;
        if hit && vouched {
          return Ok(Pulled(req.pin.value, signature, cache[req.pin.value]));
        }
        if hit && req.offline {
          return Err(PullError("E_COSIGN_SIG_MISSING", true, false));
        }
      }
      if req.offline {
        return Err(PullError("E_DEP_RESOLVE", true, false));
      }
      var fetched := Fetch(w, net, req);
      if fetched.Err? {
        return Err(fetched.error);
      }
      var d := fetched.value;
      if d.evidence.Some? {
        checks := checks + {d.evidence.value};
      }
      if d.digest !in cache {
        cache := cache[d.digest := d.files];
      }
      r := Ok(Pulled(d.digest, signature, cache[d.digest]));
    }
  }
}
