/**
 * What a registry must serve for a pull to succeed, and what the pull then
 * returns (host/src/oci.effect.ts): stated on manifests, layers, sidecars and
 * blobs, in both directions.
 */
module OciServed {
  import opened Common
  import opened Oci
  import Der

  // ---------------------------------------------------------------- layers

  ghost predicate IsFirstOf(layers: seq<Layer>, types: set<string>, layer: Layer) {
    exists k :: 0 <= k < |layers| && layers[k] == layer && layer.mediaType in types
                && forall j :: 0 <= j < k ==> layers[j].mediaType !in types
  }

  ghost predicate HasType(layers: seq<Layer>, types: set<string>) {
    exists l :: l in layers && l.mediaType in types
  }

  const HELM: set<string> := {"application/vnd.cncf.helm.chart.content.v1.tar+gzip"}
  const AKUA: set<string> := {"application/vnd.akua.package.content.v1.tar+gzip"}
  const KCL: set<string> :=
    {"application/vnd.oci.image.layer.v1.tar", "application/vnd.oci.image.layer.v1.tar+gzip"}

  ghost predicate IsAnnotated(m: Manifest) {
    || "org.kcllang.package.name" in m.annotations
    || "org.kclpkg.package.name" in m.annotations
    || "dev.akua.package.name" in m.annotations
  }

  const ARCHIVES: set<string> :=
    {".tar", ".tar+gzip", ".tar.gz", "+tar", "+tar+gzip", "+tar.gz", "/tar", "/tar+gzip", "/tar.gz"}

  ghost predicate IsArchiveName(mediaType: string) {
    exists suffix :: suffix in ARCHIVES && EndsWith(mediaType, suffix)
  }

  /** Helm wins, then Akua, then annotated KCL modules; where any archive will do, the only layer. */
  ghost predicate IsChosen(m: Manifest, anyArchive: bool, layer: Layer) {
    if HasType(m.layers, HELM) then IsFirstOf(m.layers, HELM, layer)
    else if HasType(m.layers, AKUA) then IsFirstOf(m.layers, AKUA, layer)
    else if IsAnnotated(m) && HasType(m.layers, KCL) then IsFirstOf(m.layers, KCL, layer)
    else anyArchive && m.layers == [layer] && IsArchiveName(layer.mediaType)
  }

  lemma {:induction false} FoundIsFirst(layers: seq<Layer>, types: set<string>)
    ensures FindLayer(layers, types).Some? <==> HasType(layers, types)
    ensures forall l :: FindLayer(layers, types) == Some(l) <==> IsFirstOf(layers, types, l)
  {
    if layers != [] && layers[0].mediaType !in types {
      FoundIsFirst(layers[1..], types);
      forall l ensures IsFirstOf(layers[1..], types, l) <==> IsFirstOf(layers, types, l) {
        FirstInTail(layers, types, l);
      }
    } else if layers != [] {
      assert IsFirstOf(layers, types, layers[0]);
    }
  }

  lemma FirstInTail(layers: seq<Layer>, types: set<string>, l: Layer)
    requires layers != [] && layers[0].mediaType !in types
    ensures IsFirstOf(layers[1..], types, l) <==> IsFirstOf(layers, types, l)
  {
    var rest := layers[1..];
    if IsFirstOf(rest, types, l) {
      var k :| 0 <= k < |rest| && rest[k] == l && l.mediaType in types
        && forall j :: 0 <= j < k ==> rest[j].mediaType !in types;
      assert layers[k + 1] == l;
      assert forall j :: 0 < j < k + 1 ==> layers[j] == rest[j - 1];
    }
    if IsFirstOf(layers, types, l) {
      var k :| 0 <= k < |layers| && layers[k] == l && l.mediaType in types
               && forall j :: 0 <= j < k ==> layers[j].mediaType !in types;
      assert rest[k - 1] == l;
      assert forall j :: 0 <= j < k - 1 ==> rest[j] == layers[j + 1];
    }
  }

  lemma ArchiveNames(mediaType: string)
    ensures IsArchive(mediaType) <==> IsArchiveName(mediaType)
  {
    assert "." + "tar" + "" == ".tar" && "." + "tar" + "+gzip" == ".tar+gzip" && "." + "tar" + ".gz" == ".tar.gz";
    assert "+" + "tar" + "" == "+tar" && "+" + "tar" + "+gzip" == "+tar+gzip" && "+" + "tar" + ".gz" == "+tar.gz";
    assert "/" + "tar" + "" == "/tar" && "/" + "tar" + "+gzip" == "/tar+gzip" && "/" + "tar" + ".gz" == "/tar.gz";
    if IsArchiveName(mediaType) {
      var suffix :| suffix in ARCHIVES && EndsWith(mediaType, suffix);
      SuffixParts(suffix);
    }
  }

  lemma SuffixParts(suffix: string)
    requires suffix in ARCHIVES
    ensures exists dot | dot in [".", "+", "/"] :: exists gz | gz in ["", "+gzip", ".gz"] :: suffix == dot + "tar" + gz
  {
    var dots, gzs := [".", "+", "/"], ["", "+gzip", ".gz"];
    var tars := [dots[0] + "tar", dots[1] + "tar", dots[2] + "tar"];
    assert tars[0] + gzs[0] == ".tar" && tars[0] + gzs[1] == ".tar+gzip" && tars[0] + gzs[2] == ".tar.gz";
    assert tars[1] + gzs[0] == "+tar" && tars[1] + gzs[1] == "+tar+gzip" && tars[1] + gzs[2] == "+tar.gz";
    assert tars[2] + gzs[0] == "/tar" && tars[2] + gzs[1] == "/tar+gzip" && tars[2] + gzs[2] == "/tar.gz";
  }

  lemma SelectedIsChosen(m: Manifest, anyArchive: bool, layer: Layer)
    ensures SelectLayer(m, anyArchive) == Some(layer) <==> IsChosen(m, anyArchive, layer)
  {
    FoundIsFirst(m.layers, HELM);
    FoundIsFirst(m.layers, AKUA);
    FoundIsFirst(m.layers, KCL);
    Annotated(m);
    if |m.layers| == 1 {
      ArchiveNames(m.layers[0].mediaType);
      assert m.layers == [m.layers[0]];
    }
  }

  lemma Annotated(m: Manifest)
    ensures (exists k | k in KCL_ANNOTATIONS :: k in m.annotations) <==> IsAnnotated(m)
  {
    assert KCL_ANNOTATIONS[0] in KCL_ANNOTATIONS;
    assert KCL_ANNOTATIONS[1] in KCL_ANNOTATIONS;
    assert KCL_ANNOTATIONS[2] in KCL_ANNOTATIONS;
  }

  // ---------------------------------------------------------------- signatures

  /** Beside the manifest lies a cosign signature of it by the key. */
  ghost predicate IsSigned(w: World, net: Registry, reference: string, digest: string, pem: string) {
    var at := (reference, "sha256-" + (if StartsWith(digest, "sha256:") then digest[7..] else digest) + ".sig");
    && at in net.manifests
    && var sidecar := w.decodeManifest(net.manifests[at]);
       && sidecar.Some?
       && exists layer ::
            && IsFirstOf(sidecar.value.layers, {"application/vnd.dev.cosign.simplesigning.v1+json"}, layer)
            && "dev.cosignproject.cosign/signature" in layer.annotations
            && (reference, layer.digest) in net.blobs
            && IsKeyed(w, pem, net.blobs[(reference, layer.digest)],
                 layer.annotations["dev.cosignproject.cosign/signature"], digest)
  }

  /** The payload names the digest, and the key made the signature, raw or DER, of that payload. */
  ghost predicate IsKeyed(w: World, pem: string, payload: Bytes, signature: string, digest: string) {
    && w.claimedDigest(payload) == Some(digest)
    && w.base64(signature).Some?
    && exists raw :: Der.SelectRaw(w.base64(signature).value) == Some(raw) && w.ecdsa(pem, raw, payload)
  }

  lemma SignedExactly(w: World, net: Registry, reference: string, digest: string, pem: string)
    ensures VerifySignature(w, net, reference, digest, pem).Ok? <==> IsSigned(w, net, reference, digest, pem)
  {
    var at := (reference, SidecarTag(digest));
    if at in net.manifests && w.decodeManifest(net.manifests[at]).Some? {
      FoundIsFirst(w.decodeManifest(net.manifests[at]).value.layers, {COSIGN_LAYER});
    }
  }

  // ---------------------------------------------------------------- what is served

  /** A layer of a plain tar; all others are compressed. */
  ghost predicate IsPlainTar(mediaType: string) {
    EndsWith(mediaType, ".tar")
  }

  /**
   * The registry serves, for the version asked for, an artifact whose chosen
   * layer has this digest and unpacks to `files`.
   */
  ghost predicate Serves(w: World, net: Registry, req: PullRequest, digest: string, files: Files) {
    && (req.reference, req.version) in net.manifests
    && var bytes := net.manifests[(req.reference, req.version)];
       && w.decodeManifest(bytes).Some?
       && (req.key.Some? ==> IsSigned(w, net, req.reference, w.sha256(bytes), req.key.value))
       && exists layer ::
            && IsChosen(w.decodeManifest(bytes).value, req.anyArchive, layer)
            && ServesLayer(w, net, req, layer, digest, files)
  }

  ghost predicate ServesLayer(w: World, net: Registry, req: PullRequest, layer: Layer, digest: string, files: Files) {
    && layer.digest == digest && (layer.size.Some? ==> layer.size.value <= 1024 * 1024 * 1024)
    && (req.pin.Some? ==> req.pin.value == digest)
    && (req.reference, digest) in net.blobs && w.sha256(net.blobs[(req.reference, digest)]) == digest
    && w.unpack(net.blobs[(req.reference, digest)], !IsPlainTar(layer.mediaType)) == Some(files)
  }

  lemma FetchedIsServed(w: World, net: Registry, req: PullRequest)
    requires Fetch(w, net, req).Ok?
    ensures Serves(w, net, req, Fetch(w, net, req).value.digest, Fetch(w, net, req).value.files)
  {
    var d := Fetch(w, net, req).value;
    var bytes := net.manifests[(req.reference, req.version)];
    var m := w.decodeManifest(bytes).value;
    if req.key.Some? {
      SignedExactly(w, net, req.reference, w.sha256(bytes), req.key.value);
    }
    var layer := SelectLayer(m, req.anyArchive).value;
    SelectedIsChosen(m, req.anyArchive, layer);
    PlainTars();
    assert ServesLayer(w, net, req, layer, d.digest, d.files);
  }

  lemma LayerIsFetched(w: World, net: Registry, req: PullRequest, bytes: Bytes, layer: Layer, files: Files)
    requires (req.reference, req.version) in net.manifests && bytes == net.manifests[(req.reference, req.version)]
    requires w.decodeManifest(bytes).Some?
    requires req.key.Some? ==> VerifySignature(w, net, req.reference, w.sha256(bytes), req.key.value).Ok?
    requires SelectLayer(w.decodeManifest(bytes).value, req.anyArchive) == Some(layer)
    requires ServesLayer(w, net, req, layer, layer.digest, files)
    ensures Fetch(w, net, req).Ok?
    ensures Fetch(w, net, req).value.digest == layer.digest && Fetch(w, net, req).value.files == files
  {
    PlainTars();
  }

  lemma ServedIsFetched(w: World, net: Registry, req: PullRequest, digest: string, files: Files)
    requires Serves(w, net, req, digest, files)
    ensures var r := Fetch(w, net, req); r.Ok? && r.value.digest == digest && r.value.files == files
  {
    var bytes := net.manifests[(req.reference, req.version)];
    var m := w.decodeManifest(bytes).value;
    var layer :| IsChosen(m, req.anyArchive, layer) && ServesLayer(w, net, req, layer, digest, files);
    assert SelectLayer(m, req.anyArchive) == Some(layer) by {
      SelectedIsChosen(m, req.anyArchive, layer);
    }
    assert req.key.Some? ==> VerifySignature(w, net, req.reference, w.sha256(bytes), req.key.value).Ok? by {
      if req.key.Some? {
        SignedExactly(w, net, req.reference, w.sha256(bytes), req.key.value);
      }
    }
    LayerIsFetched(w, net, req, bytes, layer, files);
  }

  /** A download succeeds, with this digest and these files, exactly when they are served. */
  lemma FetchExactly(w: World, net: Registry, req: PullRequest, digest: string, files: Files)
    ensures var d := Fetch(w, net, req);
            (d.Ok? && d.value.digest == digest && d.value.files == files) <==> Serves(w, net, req, digest, files)
  {
    if Fetch(w, net, req).Ok? {
      FetchedIsServed(w, net, req);
    }
    if Serves(w, net, req, digest, files) {
      ServedIsFetched(w, net, req, digest, files);
    }
  }

  lemma PlainTars()
    ensures IsPlainTar(KCL_LAYER)
  {
  }

  /**
   * Online, with nothing cached under the pin: a pull succeeds exactly when the
   * artifact is served, and then leaves its digest in the cache; files that were
   * cached before stay and are returned.
   */
  lemma PullExactly(
    w: World, net: Registry, cache: map<string, Files>, log: set<Evidence>, req: PullRequest, digest: string)
    requires !req.offline && ValidReference(req.reference) && (req.key.Some? ==> w.keyRef(req.key.value).Some?)
    requires req.pin.Some? ==> req.pin.value !in cache
    ensures var o := Pull(w, net, cache, log, req);
            && ((o.result.Ok? && o.result.value.digest == digest) <==>
                  exists files :: Serves(w, net, req, digest, files))
            && (o.result.Ok? && o.result.value.digest == digest ==>
                  && digest in o.cache && o.result.value.files == o.cache[digest]
                  && (digest in cache ==> o.cache == cache)
                  && (digest !in cache ==> o.cache == cache[digest := o.result.value.files]
                                           && Serves(w, net, req, digest, o.result.value.files)))
  {
    var d := Fetch(w, net, req);
    if d.Ok? {
      FetchedIsServed(w, net, req);
    }
    if files :| Serves(w, net, req, digest, files) {
      ServedIsFetched(w, net, req, digest, files);
    }
  }
}
