/**
 * The lock and trust machine: how a dependency is resolved from a fork, a
 * vendored tree, generated schemas, a cache or the network; how the lock
 * records it; and what later runs may conclude from that record
 * (host/src/dependencies.effect.ts, host/src/cli/{lock,update,vendor}.ts).
 */
module Trust {
  import opened Common
  import opened Lockfile
  import opened Oci

  // ---------------------------------------------------------------- declarations

  datatype GitRef = Tag(tag: string) | Rev(rev: string)

  datatype Spec =
    | Path(path: string)
    | Oci(oci: string, version: string)
    | Git(git: string, tag: Option<string>, rev: Option<string>)
    | Helm(repo: string, chart: string, requirement: string)
    | Url(url: string)

  /** One `[dependencies]` entry: its source, its `crds` selector, and its `replace` path. */
  datatype Dependency = Dependency(spec: Spec, crds: Option<string>, replace: Option<string>)

  /** A dependency's fields in the lock, its digests aside. */
  datatype Record = Record(source: string, version: string, replaced: Option<string>, signature: Option<string>)

  function LockRecord(
    w: World, spec: Spec, gitFallback: string, replaced: Option<string>, helmVersion: Option<string>): (r: Record)
    ensures r.signature.None?
  {
    match spec
    case Path(path) => Record("path+file://" + path, "local", replaced, None)
    case Oci(oci, version) => Record(oci, version, replaced, None)
    case Git(git, tag, rev) =>
      var ref := if OrElse(tag, rev).Some? then OrElse(tag, rev).value else gitFallback;
      Record("git+" + w.canonicalGit(git) + "@" + ref, ref, replaced, None)
    case Helm(repo, chart, requirement) =>
      Record("helm+" + repo + "#" + chart, if helmVersion.Some? then helmVersion.value else requirement, replaced, None)
    case Url(url) => Record("url+" + url, "url", replaced, None)
  }

  function Declared(w: World, spec: Spec): (r: Record)
    ensures r.signature.None?
  {
    LockRecord(w, spec, "vendored", None, None)
  }

  /** `lockEntryFor`: the first entry for the source and version declared now. */
  function LockEntryFor(w: World, entries: seq<Entry>, name: string, d: Dependency): (found: Option<Entry>)
    ensures found.Some? ==>
              var declared := Declared(w, d.spec);
              && found.value in entries && found.value.name == name && found.value.source == declared.source
              && (d.spec.Helm? || found.value.version == declared.version)
    ensures found.None? <==>
              var declared := Declared(w, d.spec);
              forall e :: e in entries ==>
                !(e.name == name && e.source == declared.source && (d.spec.Helm? || e.version == declared.version))
  {
    if entries == [] then None
    else
      var declared := Declared(w, d.spec);
      var e := entries[0];
      assert entries == [e] + entries[1..];
      if e.name == name && e.source == declared.source && (d.spec.Helm? || e.version == declared.version)
      then Some(e) else LockEntryFor(w, entries[1..], name, d)
  }

  // ---------------------------------------------------------------- state

  datatype Signing = NoKey | Unreadable | Key(pem: string)

  /** What the user controls: the manifest, local trees, `.akua/vendor` and `.akua/crds`. */
  datatype Workspace = Workspace(
    signing: Signing,
    dependencies: seq<(string, Dependency)>,
    paths: map<string, Files>,
    vendor: map<string, Files>,
    generated: map<string, Files>,
    rejectReplace: bool)

  datatype HelmOffer = HelmOffer(version: string, tarball: Bytes)

  datatype GitOffer = GitOffer(commit: string, files: Files)

  /** What every remote answers during one command. */
  datatype Network = Network(
    registry: Registry,
    helm: map<(string, string, string), HelmOffer>,
    git: map<(string, GitRef), GitOffer>,
    urls: map<string, Bytes>)

  datatype Caches = Caches(
    oci: map<string, Files>, helm: map<string, Files>, git: map<string, Files>, url: map<string, Files>)

  /** `log` is not part of the program: it collects the signature checks that really happened. */
  datatype State = State(ws: Workspace, lock: Lock, caches: Caches, log: set<Evidence>)

  datatype PinScope = AllPins | OciPins | NoPins

  datatype Options = Options(offline: bool, verifySignatures: bool, pins: PinScope, regenerateCrds: bool)

  datatype Request = Request(
    name: string, dependency: Dependency, pinned: Option<Entry>, locked: Option<Entry>,
    key: Option<string>, trusted: Option<string>, options: Options)

  datatype Resolved = Resolved(name: string, files: Files, digest: string, locked: Record, crds: Option<string>)

  /** A failure code, or a value with the state it was computed in. */
  datatype Resolution<+T> = Resolution(result: Result<T, string>, state: State)

  // ---------------------------------------------------------------- fetchers

  datatype Fetched = Fetched(digest: string, version: string, files: Files)

  function Install(cache: map<string, Files>, slot: string, files: Files): map<string, Files> {
    if slot in cache then cache else cache[slot := files]
  }

  predicate HasChart(cache: map<string, Files>, digest: string, chart: string) {
    digest in cache && (chart + "/Chart.yaml" in cache[digest] || "Chart.yaml" in cache[digest])
  }

  function FetchHelm(w: World, net: Network, cache: map<string, Files>, s: Spec, pin: Option<string>, offline: bool)
    : (Result<Fetched, string>, map<string, Files>)
    requires s.Helm?
  {
    var at := (s.repo, s.chart, s.requirement);
    if pin.Some? && HasChart(cache, pin.value, s.chart) then
      (Ok(Fetched(pin.value, s.requirement, cache[pin.value])), cache)
    else if offline || at !in net.helm then (Err("E_DEP_RESOLVE"), cache)
    else
      var offer := net.helm[at];
      var digest := w.sha256(offer.tarball);
      var files := w.unpack(offer.tarball, true);
      if (pin.Some? && pin.value != digest) || files.None? then (Err("E_DEP_RESOLVE"), cache)
      else
        var cache' := Install(cache, digest, files.value);
        if HasChart(cache', digest, s.chart) then (Ok(Fetched(digest, offer.version, cache'[digest])), cache')
        else (Err("E_DEP_RESOLVE"), cache')
  }

  /** Only a `git:` digest pins a commit; any other pin is dropped. */
  function GitPin(pin: Option<string>): Option<string> {
    if pin.Some? && StartsWith(pin.value, "git:") then Some(pin.value[4..]) else None
  }

  function FetchGit(net: Network, cache: map<string, Files>, s: Spec, commit: Option<string>, offline: bool)
    : (Result<Fetched, string>, map<string, Files>)
    requires s.Git?
  {
    var ref := if s.tag.Some? then Tag(s.tag.value) else Rev(if s.rev.Some? then s.rev.value else "");
    if commit.Some? && commit.value in cache then
      (Ok(Fetched("git:" + commit.value, "", cache[commit.value])), cache)
    else if offline || (s.git, ref) !in net.git then (Err("E_DEP_RESOLVE"), cache)
    else
      var offer := net.git[(s.git, ref)];
      if commit.Some? && commit.value != offer.commit then (Err("E_DEP_RESOLVE"), cache)
      else
        var cache' := Install(cache, offer.commit, offer.files);
        (Ok(Fetched("git:" + offer.commit, "", cache'[offer.commit])), cache')
  }

  function FetchUrl(w: World, net: Network, cache: map<string, Files>, s: Spec, pin: Option<string>, offline: bool)
    : (Result<Fetched, string>, map<string, Files>)
    requires s.Url?
  {
    var name := w.urlFileName(s.url);
    if pin.Some? && pin.value in cache && name in cache[pin.value] then
      (Ok(Fetched(pin.value, "", cache[pin.value])), cache)
    else if offline || s.url !in net.urls || !StartsWith(s.url, "https://") then (Err("E_DEP_RESOLVE"), cache)
    else
      var digest := w.sha256(net.urls[s.url]);
      if pin.Some? && pin.value != digest then (Err("E_DEP_RESOLVE"), cache)
      else
        var cache' := Install(cache, digest, map[name := net.urls[s.url]]);
        (Ok(Fetched(digest, "", cache'[digest])), cache')
  }

  function OciRequest(req: Request): PullRequest
    requires req.dependency.spec.Oci?
  {
    PullRequest(
      req.dependency.spec.oci, req.dependency.spec.version,
      if req.pinned.Some? then Some(req.pinned.value.digest) else None,
      req.options.offline, req.key,
      if req.pinned.Some? then req.pinned.value.signature else None,
      req.dependency.crds.Some?)
  }

  /**
   * A dependency found as the tree `files`. For schemas the files of a git,
   * path or URL source stay as they are: their selector starts at the root.
   */
  function Entered(w: World, req: Request, files: Files, digest: string, locked: Record): Resolved {
    var d := req.dependency;
    var inside := if d.crds.None? || d.spec.Oci? || d.spec.Helm? then w.scope(files) else files;
    Resolved(req.name, inside, digest, locked, d.crds)
  }

  function FetchOci(w: World, net: Network, st: State, req: Request): Resolution<Resolved>
    requires req.dependency.spec.Oci?
  {
    var o := Pull(w, net.registry, st.caches.oci, st.log, OciRequest(req));
    var st' := st.(caches := st.caches.(oci := o.cache), log := o.log);
    if o.result.Err? then Resolution(Err(o.result.error.code), st')
    else
      var record := Declared(w, req.dependency.spec).(signature := o.result.value.signature);
      Resolution(Ok(Entered(w, req, o.result.value.files, o.result.value.digest, record)), st')
  }

  /** Helm repositories, git remotes and plain URLs have no signing layer. */
  function FetchUnsigned(w: World, net: Network, st: State, req: Request): Resolution<Resolved>
    requires !req.dependency.spec.Path? && !req.dependency.spec.Oci?
  {
    var s, c := req.dependency.spec, st.caches;
    var pin := if req.pinned.Some? then Some(req.pinned.value.digest) else None;
    var (r, caches) :=
      match s
      case Helm(_, _, _) =>
        var (r, cache) := FetchHelm(w, net, c.helm, s, pin, req.options.offline);
        (r, c.(helm := cache))
      case Git(_, _, _) =>
        var (r, cache) := FetchGit(net, c.git, s, GitPin(pin), req.options.offline);
        (r, c.(git := cache))
      case Url(_) =>
        var (r, cache) := FetchUrl(w, net, c.url, s, pin, req.options.offline);
        (r, c.(url := cache));
    var st' := st.(caches := caches);
    if r.Err? then Resolution(Err(r.error), st')
    else
      var record := LockRecord(w, s, "vendored", None, if s.Helm? then Some(r.value.version) else None);
      Resolution(Ok(Entered(w, req, r.value.files, r.value.digest, record)), st')
  }

  /** The network half of `resolveSourceTree`: the `switch` on the source. */
  function FetchSource(w: World, net: Network, st: State, req: Request): Resolution<Resolved>
    requires !req.dependency.spec.Path?
  {
    if req.dependency.spec.Oci? then FetchOci(w, net, st, req) else FetchUnsigned(w, net, st, req)
  }

  // ---------------------------------------------------------------- resolution

  /** The digest a vendored tree stands for: its source's, when `vendor add` pinned this very tree. */
  function VendoredDigest(w: World, spec: Spec, locked: Option<Entry>, files: Files): string {
    var tree := w.treeDigest(files);
    if locked.Some? && locked.value.vendorDigest == Some(tree) then locked.value.digest
    else if spec.Git? then "git:" + Drop(tree, 7)
    else tree
  }

  function FromWorkspacePath(w: World, st: State, req: Request, path: string, locked: Record): Resolution<Resolved> {
    if path in st.ws.paths
    then Resolution(Ok(Entered(w, req, st.ws.paths[path], w.treeDigest(st.ws.paths[path]), locked)), st)
    else Resolution(Err("E_DEP_RESOLVE"), st)
  }

  /** A vendored tree; under a key, only when the lock ties it to that key's signature. */
  function FromVendor(w: World, st: State, req: Request): Resolution<Resolved>
    requires req.name in st.ws.vendor
  {
    var d := req.dependency;
    var files := st.ws.vendor[req.name];
    var digest := VendoredDigest(w, d.spec, req.locked, files);
    if d.spec.Oci? && req.trusted.Some? then
      if req.locked.None? || req.locked.value.signature != req.trusted || req.locked.value.digest != digest
      then Resolution(Err("E_COSIGN_SIG_MISSING"), st)
      else Resolution(Ok(Entered(w, req, files, digest, Declared(w, d.spec).(signature := req.trusted))), st)
    else Resolution(Ok(Entered(w, req, files, digest, Declared(w, d.spec))), st)
  }

  function ResolveSourceTree(w: World, net: Network, st: State, req: Request): Resolution<Resolved> {
    var d := req.dependency;
    if d.replace.Some? then
      if st.ws.rejectReplace then Resolution(Err("E_DEP_RESOLVE"), st)
      else FromWorkspacePath(w, st, req, d.replace.value, LockRecord(w, d.spec, "HEAD", d.replace, None))
    else if !d.spec.Helm? && req.name in st.ws.vendor then FromVendor(w, st, req)
    else if d.spec.Path? then FromWorkspacePath(w, st, req, d.spec.path, Declared(w, d.spec))
    else FetchSource(w, net, st, req)
  }

  const PROVENANCE_FILE := "source.toml"

  /** A tree of generated schemas, `source.toml` included, is not what the manifest and the lock pin. */
  predicate Stale(w: World, req: Request, files: Files, p: Provenance)
    requires req.dependency.crds.Some?
  {
    var declared := Declared(w, req.dependency.spec);
    || p.dependency != req.name
    || p.source != declared.source
    || (!req.dependency.spec.Helm? && p.version != declared.version)
    || p.crds != req.dependency.crds.value
    || req.locked.None?
    || req.locked.value.digest != p.digest
    || req.locked.value.crdsDigest != Some(w.treeDigest(files))
  }

  /** Schemas generated before are looked at: their directory has a `source.toml`. */
  predicate UsesGenerated(w: World, st: State, req: Request) {
    && req.dependency.crds.Some? && !req.dependency.spec.Path? && req.dependency.replace.None?
    && !req.options.regenerateCrds
    && w.kclIdent(req.name) in st.ws.generated && PROVENANCE_FILE in st.ws.generated[w.kclIdent(req.name)]
  }

  function FromGenerated(w: World, st: State, req: Request, files: Files): Resolution<Resolved>
    requires req.dependency.crds.Some? && PROVENANCE_FILE in files
  {
    var p := w.readProvenance(files[PROVENANCE_FILE]);
    if p.None? then Resolution(Err("E_CRDS_INVALID"), st)
    else if Stale(w, req, files, p.value) then Resolution(Err("E_CRDS_STALE"), st)
    else
      var signature := req.locked.value.signature;
      if req.dependency.spec.Oci? && req.trusted.Some? && signature != req.trusted
      then Resolution(Err("E_COSIGN_SIG_MISSING"), st)
      else
        var record := Declared(w, req.dependency.spec).(version := p.value.version, signature := signature);
        Resolution(Ok(Resolved(req.name, files, p.value.digest, record, req.dependency.crds)), st)
  }

  function ResolveDependency(w: World, net: Network, st: State, req: Request): Resolution<Resolved> {
    if UsesGenerated(w, st, req) then FromGenerated(w, st, req, st.ws.generated[w.kclIdent(req.name)])
    else ResolveSourceTree(w, net, st, req)
  }

  /** The lock as a command reads it: a broken one counts as absent. */
  ghost function Loaded(lock: Lock): seq<Entry> {
    if Accepted(lock) then lock.packages else []
  }

  ghost function RequestFor(
    w: World, st: State, o: Options, name: string, d: Dependency, key: Option<string>): Request
  {
    var entries := Loaded(st.lock);
    var pins := if o.pins.NoPins? then [] else PinnedEntries(entries, o.pins.OciPins?);
    Request(name, d, LockEntryFor(w, pins, name, d), LockEntryFor(w, entries, name, d),
            key, if key.Some? then w.keyRef(key.value) else None, o)
  }

  ghost function ResolveAll(
    w: World, net: Network, st: State, o: Options, deps: seq<(string, Dependency)>, key: Option<string>
  ): Resolution<seq<Resolved>>
    decreases |deps|
  {
    if deps == [] then Resolution(Ok([]), st)
    else
      var first := ResolveDependency(w, net, st, RequestFor(w, st, o, deps[0].0, deps[0].1, key));
      if first.result.Err? then Resolution(Err(first.result.error), first.state)
      else
        var rest := ResolveAll(w, net, first.state, o, deps[1..], key);
        if rest.result.Err? then rest
        else Resolution(Ok([first.result.value] + rest.result.value), rest.state)
  }

  /** The key a command checks signatures with. */
  function ActiveKey(ws: Workspace, o: Options): Option<string> {
    if o.verifySignatures && ws.signing.Key? then Some(ws.signing.pem) else None
  }

  /** `resolvePackage`. */
  ghost function ResolvePackage(w: World, net: Network, st: State, o: Options): Resolution<seq<Resolved>> {
    var key := ActiveKey(st.ws, o);
    if o.verifySignatures && st.ws.signing.Unreadable? then Resolution(Err("E_COSIGN_VERIFY"), st)
    else if key.Some? && w.keyRef(key.value).None? then Resolution(Err("E_COSIGN_VERIFY"), st)
    else ResolveAll(w, net, st, o, st.ws.dependencies, key)
  }

  // ---------------------------------------------------------------- soundness

  /** Every recorded signature stands next to a digest its key really verified. */
  ghost predicate EntriesSound(log: set<Evidence>, entries: seq<Entry>) {
    forall e :: e in entries && e.signature.Some? ==> Attested(log, e.signature.value, e.digest)
  }

  ghost predicate Sound(w: World, st: State) {
    && EntriesSound(st.log, st.lock.packages)
    && AllGenuine(w, st.log)
    && CacheSound(w, st.caches.oci)
  }

  /** A resolution may only fill caches and add checks. */
  ghost predicate OnlyFetched(before: State, after: State) {
    after.ws == before.ws && after.lock == before.lock && before.log <= after.log
  }

  ghost predicate RecordSound(log: set<Evidence>, r: Resolved) {
    r.locked.signature.Some? ==> Attested(log, r.locked.signature.value, r.digest)
  }

  ghost predicate RequestSound(w: World, st: State, req: Request) {
    && (req.pinned.Some? ==> req.pinned.value in st.lock.packages)
    && (req.locked.Some? ==> req.locked.value in st.lock.packages)
    && req.trusted == (if req.key.Some? then w.keyRef(req.key.value) else None)
    && (req.key.Some? ==> req.trusted.Some?)
  }

  lemma FetchOciSound(w: World, net: Network, st: State, req: Request)
    requires Sound(w, st) && RequestSound(w, st, req) && req.dependency.spec.Oci?
    ensures var r := FetchOci(w, net, st, req);
            && Sound(w, r.state) && OnlyFetched(st, r.state)
            && (r.result.Ok? ==>
                  RecordSound(r.state.log, r.result.value) && r.result.value.locked.signature == req.trusted)
  {
    var pull := OciRequest(req);
    assert pull.pin.Some? && pull.lockedSignature.Some? ==>
      Attested(st.log, pull.lockedSignature.value, pull.pin.value);
    PullSound(w, net.registry, st.caches.oci, st.log, pull);
    var o := Pull(w, net.registry, st.caches.oci, st.log, pull);
    var st' := FetchOci(w, net, st, req).state;
    assert st' == st.(caches := st.caches.(oci := o.cache), log := o.log);
    assert EntriesSound(st'.log, st'.lock.packages);
  }

  lemma FetchUnsignedSound(w: World, net: Network, st: State, req: Request)
    requires !req.dependency.spec.Path? && !req.dependency.spec.Oci?
    ensures var r := FetchUnsigned(w, net, st, req);
            && r.state == st.(caches := r.state.caches) && r.state.caches.oci == st.caches.oci
            && (r.result.Ok? ==> r.result.value.locked.signature.None?)
  {
  }

  lemma FetchSourceSound(w: World, net: Network, st: State, req: Request)
    requires Sound(w, st) && RequestSound(w, st, req) && !req.dependency.spec.Path?
    ensures var r := FetchSource(w, net, st, req);
            && Sound(w, r.state) && OnlyFetched(st, r.state)
            && (r.result.Ok? ==> RecordSound(r.state.log, r.result.value))
            && (r.result.Ok? && req.dependency.spec.Oci? ==> r.result.value.locked.signature == req.trusted)
  {
    if req.dependency.spec.Oci? {
      FetchOciSound(w, net, st, req);
    } else {
      FetchUnsignedSound(w, net, st, req);
    }
  }

  /**
   * One resolution from a sound state: the state stays sound, any signature it
   * reports was verified for the digest it reports, and an OCI dependency that
   * is not a fork carries the configured key's reference, wherever its bytes
   * came from.
   */
  lemma ResolveDependencySound(w: World, net: Network, st: State, req: Request)
    requires Sound(w, st) && RequestSound(w, st, req)
    ensures var r := ResolveDependency(w, net, st, req);
            && Sound(w, r.state) && OnlyFetched(st, r.state)
            && (r.result.Ok? ==> RecordSound(r.state.log, r.result.value))
            && (r.result.Ok? && req.dependency.spec.Oci? && req.dependency.replace.None? && req.trusted.Some? ==>
                  r.result.value.locked.signature == req.trusted)
  {
    if !UsesGenerated(w, st, req) {
      ResolveSourceTreeSound(w, net, st, req);
    } else {
      GeneratedSound(w, net, st, req);
    }
  }

  lemma ResolveSourceTreeSound(w: World, net: Network, st: State, req: Request)
    requires Sound(w, st) && RequestSound(w, st, req)
    ensures var r := ResolveSourceTree(w, net, st, req);
            && Sound(w, r.state) && OnlyFetched(st, r.state)
            && (r.result.Ok? ==> RecordSound(r.state.log, r.result.value))
            && (r.result.Ok? && req.dependency.spec.Oci? && req.dependency.replace.None? && req.trusted.Some? ==>
                  r.result.value.locked.signature == req.trusted)
  {
    var d := req.dependency;
    if d.replace.None? && !d.spec.Helm? && req.name in st.ws.vendor {
      FromVendorSound(w, st, req);
    } else if d.replace.None? && !d.spec.Path? {
      FetchSourceSound(w, net, st, req);
    }
  }

  lemma FromVendorSound(w: World, st: State, req: Request)
    requires Sound(w, st) && RequestSound(w, st, req) && req.name in st.ws.vendor
    ensures var r := FromVendor(w, st, req);
            && r.state == st
            && (r.result.Ok? ==> RecordSound(r.state.log, r.result.value))
            && (r.result.Ok? && req.dependency.spec.Oci? && req.trusted.Some? ==>
                  r.result.value.locked.signature == req.trusted)
  {
  }

  lemma GeneratedSound(w: World, net: Network, st: State, req: Request)
    requires Sound(w, st) && RequestSound(w, st, req) && UsesGenerated(w, st, req)
    ensures var r := ResolveDependency(w, net, st, req);
            && r.state == st
            && (r.result.Ok? ==> RecordSound(r.state.log, r.result.value))
            && (r.result.Ok? && req.dependency.spec.Oci? && req.trusted.Some? ==>
                  r.result.value.locked.signature == req.trusted)
  {
  }

  lemma RequestForSound(w: World, st: State, o: Options, name: string, d: Dependency, key: Option<string>)
    requires key.Some? ==> w.keyRef(key.value).Some?
    ensures RequestSound(w, st, RequestFor(w, st, o, name, d, key))
  {
  }

  /** What a whole resolution returns for each dependency, in manifest order. */
  ghost predicate ResolvedAs(
    w: World, log: set<Evidence>, dep: (string, Dependency), key: Option<string>, r: Resolved)
  {
    && r.name == dep.0
    && RecordSound(log, r)
    && (dep.1.spec.Oci? && dep.1.replace.None? && key.Some? ==>
          r.locked.signature == w.keyRef(key.value) && r.locked.signature.Some?
          && Attested(log, r.locked.signature.value, r.digest))
  }

  lemma {:induction false} ResolveAllSound(
    w: World, net: Network, st: State, o: Options, deps: seq<(string, Dependency)>, key: Option<string>)
    requires Sound(w, st) && (key.Some? ==> w.keyRef(key.value).Some?)
    ensures var r := ResolveAll(w, net, st, o, deps, key);
            && Sound(w, r.state) && OnlyFetched(st, r.state)
            && (r.result.Ok? ==>
                  && |r.result.value| == |deps|
                  && forall i :: 0 <= i < |deps| ==> ResolvedAs(w, r.state.log, deps[i], key, r.result.value[i]))
    decreases |deps|
  {
    if deps != [] {
      var req := RequestFor(w, st, o, deps[0].0, deps[0].1, key);
      RequestForSound(w, st, o, deps[0].0, deps[0].1, key);
      ResolveDependencySound(w, net, st, req);
      var first := ResolveDependency(w, net, st, req);
      if first.result.Ok? {
        ResolvedName(w, net, st, req);
        ResolveAllSound(w, net, first.state, o, deps[1..], key);
      }
    }
  }

  lemma ResolvedName(w: World, net: Network, st: State, req: Request)
    ensures var r := ResolveDependency(w, net, st, req).result; r.Ok? ==> r.value.name == req.name
  {
  }

  /**
   * With a signing key configured, every OCI dependency a package resolves to,
   * unless it is a local fork, carries that key's reference and a digest the
   * key verified: from the vendor directory, generated schemas, the cache or a
   * registry, online or offline, whatever they hold.
   */
  lemma OciDependenciesAreVerified(w: World, net: Network, st: State, o: Options)
    requires Sound(w, st)
    ensures var r := ResolvePackage(w, net, st, o);
            && Sound(w, r.state) && OnlyFetched(st, r.state)
            && (r.result.Ok? ==>
                  && |r.result.value| == |st.ws.dependencies|
                  && forall i :: 0 <= i < |st.ws.dependencies| ==>
                       ResolvedAs(w, r.state.log, st.ws.dependencies[i], ActiveKey(st.ws, o), r.result.value[i]))
  {
    var key := ActiveKey(st.ws, o);
    if key.Some? ==> w.keyRef(key.value).Some? {
      ResolveAllSound(w, net, st, o, st.ws.dependencies, key);
    }
  }

  // ---------------------------------------------------------------- pins

  /**
   * A fetch under a pin returns exactly the pinned digest, but for one case: a
   * git dependency whose lock entry holds a digest that is not a `git:` commit.
   * That pin is dropped, and the fetch then never returns it.
   */
  lemma PinnedFetchIsExact(w: World, net: Network, st: State, req: Request)
    requires !req.dependency.spec.Path? && req.pinned.Some?
    requires FetchSource(w, net, st, req).result.Ok?
    ensures FetchSource(w, net, st, req).result.value.digest == req.pinned.value.digest
       <==> (req.dependency.spec.Git? ==> StartsWith(req.pinned.value.digest, "git:"))
  {
    var pin := req.pinned.value.digest;
    var digest := FetchSource(w, net, st, req).result.value.digest;
    if req.dependency.spec.Git? {
      assert StartsWith(digest, "git:");
      if StartsWith(pin, "git:") {
        assert pin == pin[..4] + pin[4..];
      }
    }
  }

  /** A workspace with one git dependency, and a lock that pins it by a digest that is no commit. */
  ghost function MispinnedState(w: World, spec: Spec): State {
    var record := Declared(w, spec);
    var entry := Entry(
      "d", record.version, record.source, "sha256:0", None, None, None, None, None, None, None, None, None);
    var ws := Workspace(NoKey, [("d", Dependency(spec, None, None))], map[], map[], map[], false);
    State(ws, Lock(LOCK_VERSION, [entry]), Caches(map[], map[], map[], map[]), {})
  }

  /**
   * The exception happens: the lock is accepted, its entry pins the
   * dependency, and a render resolves it to another digest all the same.
   */
  lemma IgnoredPinExample(w: World)
    ensures var spec := Git("https://h/r", Some("v1"), None);
            var st := MispinnedState(w, spec);
            var offers := map[("https://h/r", Tag("v1")) := GitOffer("c", map[])];
            var net := Network(Registry(map[], map[]), map[], offers, map[]);
            var o := Options(false, true, AllPins, false);
            var r := ResolvePackage(w, net, st, o).result;
            && Accepted(st.lock)
            && RequestFor(w, st, o, "d", Dependency(spec, None, None), None).pinned == Some(st.lock.packages[0])
            && st.lock.packages[0].digest == "sha256:0"
            && r.Ok? && |r.value| == 1 && r.value[0].name == "d" && r.value[0].digest == "git:c"
  {
    var spec := Git("https://h/r", Some("v1"), None);
    var st := MispinnedState(w, spec);
    var d := Dependency(spec, None, None);
    var o := Options(false, true, AllPins, false);
    var offers := map[("https://h/r", Tag("v1")) := GitOffer("c", map[])];
    var net := Network(Registry(map[], map[]), map[], offers, map[]);
    MispinnedIsPinned(w, spec, o);
    var req := RequestFor(w, st, o, "d", d, None);
    assert "git:" + "c" == "git:c";
    assert "sha256:0"[0] != "git:"[0];
    var r := ResolveDependency(w, net, st, req);
    assert r.result.Ok? && r.result.value.digest == "git:c" && r.result.value.name == "d";
    assert ResolveAll(w, net, r.state, o, [], None) == Resolution(Ok([]), r.state);
    assert [("d", d)][1..] == [];
  }

  lemma MispinnedIsPinned(w: World, spec: Spec, o: Options)
    requires spec.Git? && o.pins.AllPins?
    ensures var st := MispinnedState(w, spec);
            && Accepted(st.lock)
            && RequestFor(w, st, o, "d", Dependency(spec, None, None), None).pinned == Some(st.lock.packages[0])
  {
    var st := MispinnedState(w, spec);
    var entry := st.lock.packages[0];
    assert "sha256:0"[..7] == "sha256:";
    assert entry.source[0] == 'g';
    assert st.lock.packages[1..] == [];
    assert PinnedEntries([], false) == [];
  }

  // ---------------------------------------------------------------- commands

  /** The schemas a command generates for a dependency: with the `source.toml` that says where they come from. */
  function Schemas(w: World, r: Resolved): Option<Files> {
    if r.crds.None? then None
    else
      var files := w.generate(r.name, r.files, r.crds.value);
      if files.None? then None else Some(Stamped(w, files.value, ProvenanceOf(r)))
  }

  function ProvenanceOf(r: Resolved): Provenance
    requires r.crds.Some?
  {
    Provenance(r.name, r.locked.source, r.locked.version, r.crds.value, r.digest)
  }

  function Stamped(w: World, files: Files, p: Provenance): Files {
    files[PROVENANCE_FILE := w.writeProvenance(p)]
  }

  /** `generateCrds` succeeds for each dependency with a selector. */
  predicate Generates(w: World, resolved: seq<Resolved>) {
    forall r | r in resolved :: r.crds.Some? ==> Schemas(w, r).Some?
  }

  /** `lockUpdates`: the digest recorded for schemas covers their `source.toml`. */
  function UpdateOf(w: World, r: Resolved): Update {
    var schemas := Schemas(w, r);
    Update(r.name, r.locked.version, r.locked.source, r.digest, r.locked.replaced, r.locked.signature,
           if schemas.Some? then Some(w.treeDigest(schemas.value)) else None)
  }

  function UpdatesOf(w: World, resolved: seq<Resolved>): (us: seq<Update>)
    ensures |us| == |resolved|
    ensures forall i :: 0 <= i < |us| ==> us[i] == UpdateOf(w, resolved[i])
  {
    seq(|resolved|, i requires 0 <= i < |resolved| => UpdateOf(w, resolved[i]))
  }

  /** `writeGeneratedCrds`: one directory per dependency with schemas, the last one's where their names collide. */
  function WriteSchemas(w: World, resolved: seq<Resolved>, generated: map<string, Files>): map<string, Files>
    decreases |resolved|
  {
    if resolved == [] then generated
    else
      var schemas := Schemas(w, resolved[0]);
      WriteSchemas(w, resolved[1..],
        if schemas.None? then generated else generated[w.kclIdent(resolved[0].name) := schemas.value])
  }

  function Selected(resolved: seq<Resolved>, dep: Option<string>): (s: seq<Resolved>)
    ensures forall r :: r in s ==> r in resolved
  {
    if dep.None? then resolved
    else if resolved == [] then []
    else (if resolved[0].name == dep.value then [resolved[0]] else []) + Selected(resolved[1..], dep)
  }

  /**
   * Commands and edits. `Edit` is any change to the manifest, the key, local
   * trees, vendored trees or generated schemas; `add` is an `Edit` and a
   * `LockCommand`.
   */
  datatype Step =
    | Edit(ws: Workspace)
    | RenderCommand(net: Network, offline: bool)
    | LockCommand(net: Network)
    | UpdateCommand(net: Network, dep: Option<string>)
    | VendorAdd(net: Network, name: string, dependency: Dependency)
    | Remove(name: string)

  /** What a write merges into: nothing, when `akua.lock` is absent or does not parse. */
  ghost function Prior(lock: Lock): Lock {
    if Accepted(lock) then lock else EMPTY_LOCK
  }

  ghost function WriteLock(w: World, st: State, net: Network, pins: PinScope, dep: Option<string>): State {
    var r := ResolvePackage(w, net, st, Options(false, true, pins, true));
    if r.result.Err? || !Generates(w, Selected(r.result.value, dep)) then r.state
    else
      var chosen := Selected(r.result.value, dep);
      var generated := WriteSchemas(w, chosen, if dep.None? then map[] else st.ws.generated);
      r.state.(ws := st.ws.(generated := generated), lock := Merge(Prior(st.lock), UpdatesOf(w, chosen)))
  }

  function Undeclared(deps: seq<(string, Dependency)>, name: string): seq<(string, Dependency)> {
    if deps == [] then []
    else (if deps[0].0 == name then [] else [deps[0]]) + Undeclared(deps[1..], name)
  }

  function Unlisted(packages: seq<Entry>, name: string): (r: seq<Entry>)
    ensures forall e :: e in r <==> e in packages && e.name != name
  {
    if packages == [] then []
    else
      assert packages == [packages[0]] + packages[1..];
      (if packages[0].name == name then [] else [packages[0]]) + Unlisted(packages[1..], name)
  }

  /**
   * `remove`: the manifest first; then, if the lock loads, its entries of that
   * name, written in order if there were any, and the generated schemas.
   */
  ghost function RemoveDependency(w: World, st: State, name: string): State {
    if forall d :: d in st.ws.dependencies ==> d.0 != name then st
    else
      var ws := st.ws.(dependencies := Undeclared(st.ws.dependencies, name));
      if !Accepted(st.lock) then st.(ws := ws)
      else
        var kept := Unlisted(st.lock.packages, name);
        var lock := if |kept| == |st.lock.packages| then st.lock else Lock(st.lock.version, Sort(kept));
        var ident := w.kclIdent(name);
        var written := ident in ws.generated && PROVENANCE_FILE in ws.generated[ident];
        st.(ws := if written then ws.(generated := ws.generated - {ident}) else ws, lock := lock)
  }

  /** `lockedEntry`: by name and source prefix alone. */
  function LockedByPrefix(entries: seq<Entry>, name: string, prefix: string): (found: Option<Entry>)
    ensures found.Some? ==> found.value in entries
  {
    if entries == [] then None
    else if entries[0].name == name && StartsWith(entries[0].source, prefix) then Some(entries[0])
    else LockedByPrefix(entries[1..], name, prefix)
  }

  /** What `vendor add` found: the digest to pin, the key that verified it, and the tree to copy. */
  datatype Source = Source(digest: string, signature: Option<string>, files: Files)

  /** The sources of `vendor add` that have no signing layer; it does not take Helm charts. */
  ghost function VendorFetch(
    w: World, st: State, net: Network, name: string, s: Spec): (Result<Fetched, string>, Caches)
    requires !s.Oci?
  {
    var c := st.caches;
    match s
    case Path(path) =>
      if path in st.ws.paths then (Ok(Fetched(w.treeDigest(st.ws.paths[path]), "", st.ws.paths[path])), c)
      else (Err("E_DEP_RESOLVE"), c)
    case Git(_, _, _) =>
      var locked := LockedByPrefix(Loaded(st.lock), name, "git+");
      var commit := if locked.None? then None else Some(CommitOf(locked.value.digest));
      var (r, cache) := FetchGit(net, c.git, s, commit, false);
      (r, c.(git := cache))
    case Url(_) =>
      var locked := LockedByPrefix(Loaded(st.lock), name, "url+");
      var (r, cache) := FetchUrl(w, net, c.url, s, if locked.None? then None else Some(locked.value.digest), false);
      (r, c.(url := cache))
    case Helm(_, _, _) => (Err("E_DEP_RESOLVE"), c)
  }

  function CommitOf(digest: string): string {
    if StartsWith(digest, "git:") then digest[4..] else digest
  }

  /** `vendor add` pulls an OCI dependency itself, under the key; the rest is fetched. */
  ghost function VendorSource(w: World, st: State, net: Network, name: string, d: Dependency): Resolution<Source> {
    if st.ws.signing.Unreadable? then Resolution(Err("E_COSIGN_VERIFY"), st)
    else if !d.spec.Oci? then
      var (r, caches) := VendorFetch(w, st, net, name, d.spec);
      var st' := st.(caches := caches);
      if r.Err? then Resolution(Err(r.error), st') else Resolution(Ok(Source(r.value.digest, None, r.value.files)), st')
    else
      var o := Pull(w, net.registry, st.caches.oci, st.log, VendorRequest(st, name, d));
      var st' := st.(caches := st.caches.(oci := o.cache), log := o.log);
      if o.result.Err? then Resolution(Err(o.result.error.code), st')
      else Resolution(Ok(Source(o.result.value.digest, o.result.value.signature, w.scope(o.result.value.files))), st')
  }

  ghost function VendorRequest(st: State, name: string, d: Dependency): PullRequest
    requires d.spec.Oci?
  {
    var locked := LockedByPrefix(Loaded(st.lock), name, "oci://");
    PullRequest(
      d.spec.oci, d.spec.version, if locked.Some? then Some(locked.value.digest) else None, false,
      if st.ws.signing.Key? then Some(st.ws.signing.pem) else None,
      if locked.Some? then locked.value.signature else None, false)
  }

  function VendorUpdate(w: World, lock: Lock, name: string, d: Dependency, s: Source): Update {
    var record := Declared(w, d.spec);
    var update := Update(name, record.version, record.source, s.digest, None, s.signature, None);
    var held := Previous(lock.packages, update);
    update.(crdsDigest := if held.Some? then held.value.crdsDigest else None)
  }

  /** `vendor add`: copy the tree, pin the source's digest, and the tree's beside it. */
  ghost function Vendor(w: World, st: State, net: Network, name: string, d: Dependency): State {
    var r := VendorSource(w, st, net, name, d);
    if r.result.Err? then r.state
    else
      var ws := st.ws.(vendor := st.ws.vendor[name := r.result.value.files]);
      if !Accepted(st.lock) then r.state.(ws := ws)
      else
        var update := VendorUpdate(w, st.lock, name, d, r.result.value);
        var merged := Merge(st.lock, [update]);
        var tree := w.treeDigest(r.result.value.files);
        r.state.(ws := ws, lock := merged.(packages := PinTree(merged.packages, update, tree)))
  }

  /** The tree's digest goes beside the blob's, when the two differ. */
  function PinTree(entries: seq<Entry>, u: Update, tree: string): (r: seq<Entry>)
    ensures |r| == |entries|
    ensures forall i :: 0 <= i < |r| ==> r[i].digest == entries[i].digest && r[i].signature == entries[i].signature
  {
    seq(|entries|, i requires 0 <= i < |entries| =>
      if u.digest != tree && Matches(entries[i], u) then entries[i].(vendorDigest := Some(tree)) else entries[i])
  }

  /** `--dep` must name a declared dependency. */
  ghost predicate Declares(ws: Workspace, dep: Option<string>) {
    dep.None? || exists d :: d in ws.dependencies && d.0 == dep.value
  }

  ghost function Apply(w: World, st: State, step: Step): State {
    match step
    case Edit(ws) => st.(ws := ws)
    case RenderCommand(net, offline) => ResolvePackage(w, net, st, Options(offline, true, AllPins, false)).state
    case LockCommand(net) => WriteLock(w, st, net, OciPins, None)
    case UpdateCommand(net, dep) => if Declares(st.ws, dep) then WriteLock(w, st, net, NoPins, dep) else st
    case VendorAdd(net, name, d) => Vendor(w, st, net, name, d)
    case Remove(name) => RemoveDependency(w, st, name)
  }

  ghost function Run(w: World, st: State, steps: seq<Step>): State
    decreases |steps|
  {
    if steps == [] then st else Run(w, Apply(w, st, steps[0]), steps[1..])
  }

  // ---------------------------------------------------------------- runs

  lemma UpsertSound(log: set<Evidence>, packages: seq<Entry>, u: Update)
    requires EntriesSound(log, packages)
    requires u.signature.Some? ==> Attested(log, u.signature.value, u.digest)
    ensures EntriesSound(log, Upsert(packages, u))
  {
    var r := Upsert(packages, u);
    forall e | e in r && e.signature.Some? ensures Attested(log, e.signature.value, e.digest) {
      var i :| 0 <= i < |r| && r[i] == e;
      if i < |packages| && r[i] == packages[i] {
        assert packages[i] in packages;
      } else {
        assert e == Merged(Previous(packages, u), u);
      }
    }
  }

  lemma {:induction false} UpsertAllSound(log: set<Evidence>, packages: seq<Entry>, updates: seq<Update>)
    requires EntriesSound(log, packages)
    requires forall u :: u in updates && u.signature.Some? ==> Attested(log, u.signature.value, u.digest)
    ensures EntriesSound(log, UpsertAll(packages, updates))
  {
    if updates != [] {
      var n := |updates| - 1;
      UpsertAllSound(log, packages, updates[..n]);
      assert updates[n] in updates;
      UpsertSound(log, UpsertAll(packages, updates[..n]), updates[n]);
    }
  }

  /** No merge pairs one digest with a signature for another: repeated names and keys included. */
  lemma MergeSound(log: set<Evidence>, lock: Lock, updates: seq<Update>)
    requires EntriesSound(log, lock.packages)
    requires forall u :: u in updates && u.signature.Some? ==> Attested(log, u.signature.value, u.digest)
    ensures EntriesSound(log, Merge(lock, updates).packages)
  {
    KeepMembers(lock.packages, updates);
    UpsertAllSound(log, Keep(lock.packages, updates), updates);
    SortKeepsEntries(UpsertAll(Keep(lock.packages, updates), updates));
  }

  lemma WriteLockSound(w: World, st: State, net: Network, pins: PinScope, dep: Option<string>)
    requires Sound(w, st)
    ensures Sound(w, WriteLock(w, st, net, pins, dep)) && st.log <= WriteLock(w, st, net, pins, dep).log
  {
    var o := Options(false, true, pins, true);
    OciDependenciesAreVerified(w, net, st, o);
    var r := ResolvePackage(w, net, st, o);
    if r.result.Ok? {
      var chosen := Selected(r.result.value, dep);
      var updates := UpdatesOf(w, chosen);
      forall u | u in updates && u.signature.Some? ensures Attested(r.state.log, u.signature.value, u.digest) {
        var i :| 0 <= i < |updates| && updates[i] == u;
        assert chosen[i] in r.result.value;
        var j :| 0 <= j < |r.result.value| && r.result.value[j] == chosen[i];
        assert ResolvedAs(w, r.state.log, st.ws.dependencies[j], ActiveKey(st.ws, o), r.result.value[j]);
      }
      MergeSound(r.state.log, Prior(st.lock), updates);
    }
  }

  lemma RemoveSound(w: World, st: State, name: string)
    requires Sound(w, st)
    ensures Sound(w, RemoveDependency(w, st, name)) && st.log <= RemoveDependency(w, st, name).log
  {
    SortKeepsEntries(Unlisted(st.lock.packages, name));
  }

  /** What `vendor add` finds: a signature only with a digest that was checked, and nothing but caches changed. */
  lemma VendorSourceSound(w: World, st: State, net: Network, name: string, d: Dependency)
    requires Sound(w, st)
    ensures var r := VendorSource(w, st, net, name, d);
            && Sound(w, r.state) && OnlyFetched(st, r.state)
            && (r.result.Ok? && r.result.value.signature.Some? ==>
                  Attested(r.state.log, r.result.value.signature.value, r.result.value.digest))
  {
    if d.spec.Oci? {
      PullSound(w, net.registry, st.caches.oci, st.log, VendorRequest(st, name, d));
    }
  }

  lemma VendorSound(w: World, st: State, net: Network, name: string, d: Dependency)
    requires Sound(w, st)
    ensures Sound(w, Vendor(w, st, net, name, d)) && st.log <= Vendor(w, st, net, name, d).log
  {
    VendorSourceSound(w, st, net, name, d);
    var r := VendorSource(w, st, net, name, d);
    if r.result.Ok? && Accepted(st.lock) {
      var update := VendorUpdate(w, st.lock, name, d, r.result.value);
      MergeSound(r.state.log, st.lock, [update]);
      PinTreeSound(r.state.log, Merge(st.lock, [update]).packages, update, w.treeDigest(r.result.value.files));
    }
  }

  lemma PinTreeSound(log: set<Evidence>, entries: seq<Entry>, u: Update, tree: string)
    requires EntriesSound(log, entries)
    ensures EntriesSound(log, PinTree(entries, u, tree))
  {
    forall e | e in PinTree(entries, u, tree) && e.signature.Some? ensures Attested(log, e.signature.value, e.digest) {
      var i :| 0 <= i < |entries| && PinTree(entries, u, tree)[i] == e;
      assert entries[i] in entries;
    }
  }

  lemma StepSound(w: World, st: State, step: Step)
    requires Sound(w, st)
    ensures Sound(w, Apply(w, st, step)) && st.log <= Apply(w, st, step).log
  {
    match step
    case Edit(ws) =>
    case RenderCommand(net, offline) => OciDependenciesAreVerified(w, net, st, Options(offline, true, AllPins, false));
    case LockCommand(net) => WriteLockSound(w, st, net, OciPins, None);
    case UpdateCommand(net, dep) => WriteLockSound(w, st, net, NoPins, dep);
    case VendorAdd(net, name, d) => VendorSound(w, st, net, name, d);
    case Remove(name) => RemoveSound(w, st, name);
  }

  /**
   * Over every sequence of edits and commands, with
   * registries free to answer differently each time: every signature the lock
   * records stands next to a digest its key really verified.
   */
  lemma {:induction false} RunsKeepTheLockSound(w: World, st: State, steps: seq<Step>)
    requires Sound(w, st)
    ensures Sound(w, Run(w, st, steps)) && st.log <= Run(w, st, steps).log
    decreases |steps|
  {
    if steps != [] {
      StepSound(w, st, steps[0]);
      RunsKeepTheLockSound(w, Apply(w, st, steps[0]), steps[1..]);
    }
  }

  /** A workspace with no lock and no caches is sound, so every state a run reaches from it is. */
  lemma FreshWorkspaceIsSound(w: World, ws: Workspace, steps: seq<Step>)
    ensures Sound(w, Run(w, State(ws, EMPTY_LOCK, Caches(map[], map[], map[], map[]), {}), steps))
  {
    RunsKeepTheLockSound(w, State(ws, EMPTY_LOCK, Caches(map[], map[], map[], map[]), {}), steps);
  }
}
