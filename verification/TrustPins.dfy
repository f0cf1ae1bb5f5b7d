/**
 * Which lock entry a resolution goes by, and what that entry decides: the
 * digest a pull returns, the digest a vendored tree stands for, and the
 * generated schemas that are used. Entries are described by the fields a
 * manifest declares and by their place in the lock.
 */
module TrustPins {
  import opened Common
  import opened Lockfile
  import opened Oci
  import opened Trust

  // ---------------------------------------------------------------- the entry of a dependency

  /** `e` is an entry for `name` as the manifest declares it; a Helm entry records the version it selected. */
  ghost predicate EntryOf(w: World, e: Entry, name: string, spec: Spec) {
    e.name == name &&
    match spec
    case Path(path) => e.source == "path+file://" + path && e.version == "local"
    case Oci(oci, version) => e.source == oci && e.version == version
    case Git(git, tag, rev) =>
      var ref := if tag.Some? then tag.value else if rev.Some? then rev.value else "vendored";
      e.source == "git+" + w.canonicalGit(git) + "@" + ref && e.version == ref
    case Helm(repo, chart, _) => e.source == "helm+" + repo + "#" + chart
    case Url(url) => e.source == "url+" + url && e.version == "url"
  }

  ghost predicate IsFirst(w: World, packages: seq<Entry>, name: string, spec: Spec, k: nat) {
    && k < |packages| && EntryOf(w, packages[k], name, spec)
    && forall j :: 0 <= j < k ==> !EntryOf(w, packages[j], name, spec)
  }

  ghost predicate HasNone(w: World, packages: seq<Entry>, name: string, spec: Spec) {
    forall e :: e in packages ==> !EntryOf(w, e, name, spec)
  }

  lemma {:induction false} FirstIsFound(w: World, packages: seq<Entry>, name: string, d: Dependency, k: nat)
    requires IsFirst(w, packages, name, d.spec, k)
    ensures LockEntryFor(w, packages, name, d) == Some(packages[k])
  {
    if k > 0 {
      assert !EntryOf(w, packages[0], name, d.spec);
      assert packages[1..][k - 1] == packages[k];
      assert forall j :: 0 <= j < k - 1 ==> packages[1..][j] == packages[j + 1];
      FirstIsFound(w, packages[1..], name, d, k - 1);
    }
  }

  lemma FoundIsFirst(w: World, packages: seq<Entry>, name: string, d: Dependency) returns (k: nat)
    requires LockEntryFor(w, packages, name, d).Some?
    ensures IsFirst(w, packages, name, d.spec, k) && LockEntryFor(w, packages, name, d) == Some(packages[k])
  {
    if EntryOf(w, packages[0], name, d.spec) {
      k := 0;
    } else {
      var j := FoundIsFirst(w, packages[1..], name, d);
      k := j + 1;
      assert forall i :: 0 < i < |packages| ==> packages[i] == packages[1..][i - 1];
    }
    FirstIsFound(w, packages, name, d, k);
  }

  lemma NoneIsFound(w: World, packages: seq<Entry>, name: string, d: Dependency)
    ensures LockEntryFor(w, packages, name, d).None? <==> HasNone(w, packages, name, d.spec)
  {
    if HasNone(w, packages, name, d.spec) && LockEntryFor(w, packages, name, d).Some? {
      var e := LockEntryFor(w, packages, name, d).value;
      assert EntryOf(w, e, name, d.spec);
    }
    if LockEntryFor(w, packages, name, d).None? {
      forall e | e in packages ensures !EntryOf(w, e, name, d.spec) {
      }
    }
  }

  /** The sources whose entries pin a fetch. */
  ghost predicate IsPinned(w: World, spec: Spec, ociOnly: bool) {
    match spec
    case Path(_) => false
    case Oci(oci, _) => if ociOnly then StartsWith(oci, "oci://") else !StartsWith(oci, "path+file://")
    case _ => !ociOnly
  }

  lemma OtherPrefixes(w: World, spec: Spec, source: string)
    requires source == Declared(w, spec).source && !spec.Oci?
    ensures !StartsWith(source, "oci://")
    ensures StartsWith(source, "path+file://") <==> spec.Path?
  {
    assert spec.Path? ==> source[..12] == "path+file://";
    assert source[0] == if spec.Path? then 'p' else if spec.Git? then 'g' else if spec.Helm? then 'h' else 'u';
    StartsDifferently(source, "oci://");
    if !spec.Path? {
      StartsDifferently(source, "path+file://");
    }
  }

  lemma StartsDifferently(s: string, prefix: string)
    requires s != [] && prefix != [] && s[0] != prefix[0]
    ensures !StartsWith(s, prefix)
  {
    if |prefix| <= |s| {
      assert s[..|prefix|][0] == s[0];
    }
  }

  lemma PinsAgree(w: World, e: Entry, ociOnly: bool, d: Dependency)
    requires e.source == Declared(w, d.spec).source
    ensures Pins(e, ociOnly) <==> IsPinned(w, d.spec, ociOnly)
  {
    if !d.spec.Oci? {
      OtherPrefixes(w, d.spec, e.source);
    }
  }

  lemma HeadIsTried(w: World, e: Entry, rest: seq<Entry>, name: string, d: Dependency)
    ensures LockEntryFor(w, [e] + rest, name, d)
         == if EntryOf(w, e, name, d.spec) then Some(e) else LockEntryFor(w, rest, name, d)
  {
    assert ([e] + rest)[1..] == rest;
  }

  /** Dropping the entries that pin nothing drops all entries of a dependency, or none. */
  lemma {:induction false} PinIsFound(w: World, packages: seq<Entry>, ociOnly: bool, name: string, d: Dependency)
    ensures LockEntryFor(w, PinnedEntries(packages, ociOnly), name, d)
         == if IsPinned(w, d.spec, ociOnly) then LockEntryFor(w, packages, name, d) else None
  {
    if packages != [] {
      var e, rest := packages[0], packages[1..];
      var pins := PinnedEntries(rest, ociOnly);
      PinIsFound(w, rest, ociOnly, name, d);
      assert packages == [e] + rest && [] + pins == pins;
      HeadIsTried(w, e, rest, name, d);
      HeadIsTried(w, e, pins, name, d);
      if EntryOf(w, e, name, d.spec) {
        PinsAgree(w, e, ociOnly, d);
      }
    }
  }

  // ---------------------------------------------------------------- one dependency of a resolution

  ghost predicate Grew(a: map<string, Files>, b: map<string, Files>) {
    forall d :: d in a ==> d in b && b[d] == a[d]
  }

  ghost predicate CachesGrew(a: Caches, b: Caches) {
    Grew(a.oci, b.oci) && Grew(a.helm, b.helm) && Grew(a.git, b.git) && Grew(a.url, b.url)
  }

  /** A resolution reads the workspace and the lock, and fills caches. */
  ghost predicate OnlyFills(before: State, after: State) {
    after.ws == before.ws && after.lock == before.lock && CachesGrew(before.caches, after.caches)
  }

  lemma HelmFills(w: World, net: Network, cache: map<string, Files>, s: Spec, pin: Option<string>, offline: bool)
    requires s.Helm?
    ensures Grew(cache, FetchHelm(w, net, cache, s, pin, offline).1)
  {
  }

  lemma GitFills(net: Network, cache: map<string, Files>, s: Spec, commit: Option<string>, offline: bool)
    requires s.Git?
    ensures Grew(cache, FetchGit(net, cache, s, commit, offline).1)
  {
  }

  lemma UrlFills(w: World, net: Network, cache: map<string, Files>, s: Spec, pin: Option<string>, offline: bool)
    requires s.Url?
    ensures Grew(cache, FetchUrl(w, net, cache, s, pin, offline).1)
  {
  }

  lemma PullFills(w: World, net: Registry, cache: map<string, Files>, log: set<Evidence>, req: PullRequest)
    ensures Grew(cache, Pull(w, net, cache, log, req).cache)
  {
  }

  function PinOf(req: Request): Option<string> {
    if req.pinned.Some? then Some(req.pinned.value.digest) else None
  }

  /** The part of a tree a dependency sees. */
  function Inside(w: World, d: Dependency, files: Files): Files {
    if d.crds.None? || d.spec.Oci? || d.spec.Helm? then w.scope(files) else files
  }

  lemma UnsignedFills(w: World, net: Network, st: State, req: Request)
    requires !req.dependency.spec.Path? && !req.dependency.spec.Oci?
    ensures OnlyFills(st, FetchUnsigned(w, net, st, req).state)
  {
    var s, c := req.dependency.spec, st.caches;
    if s.Helm? {
      HelmFills(w, net, c.helm, s, PinOf(req), req.options.offline);
    } else if s.Git? {
      GitFills(net, c.git, s, GitPin(PinOf(req)), req.options.offline);
    } else {
      UrlFills(w, net, c.url, s, PinOf(req), req.options.offline);
    }
  }

  lemma OciFills(w: World, net: Network, st: State, req: Request)
    requires req.dependency.spec.Oci?
    ensures OnlyFills(st, FetchOci(w, net, st, req).state)
  {
    PullFills(w, net.registry, st.caches.oci, st.log, OciRequest(req));
  }

  lemma FetchFills(w: World, net: Network, st: State, req: Request)
    requires !req.dependency.spec.Path?
    ensures OnlyFills(st, FetchSource(w, net, st, req).state)
  {
    if req.dependency.spec.Oci? {
      OciFills(w, net, st, req);
    } else {
      UnsignedFills(w, net, st, req);
    }
  }

  lemma SourceFills(w: World, net: Network, st: State, req: Request)
    ensures OnlyFills(st, ResolveSourceTree(w, net, st, req).state)
  {
    if req.dependency.replace.None? && !(!req.dependency.spec.Helm? && req.name in st.ws.vendor)
       && !req.dependency.spec.Path?
    {
      FetchFills(w, net, st, req);
    }
  }

  lemma ResolveFills(w: World, net: Network, st: State, req: Request)
    ensures OnlyFills(st, ResolveDependency(w, net, st, req).state)
    ensures var r := ResolveDependency(w, net, st, req).result; r.Ok? ==> r.value.name == req.name
  {
    ResolvedName(w, net, st, req);
    if !UsesGenerated(w, st, req) {
      SourceFills(w, net, st, req);
    }
  }

  /** What the `i`-th result of a resolution comes from: a request built from the first state, in a fuller cache. */
  ghost predicate CameFrom(
    w: World, net: Network, st: State, o: Options, dep: (string, Dependency), key: Option<string>, mid: State,
    last: State, r: Resolved)
  {
    && OnlyFills(st, mid)
    && ResolveDependency(w, net, mid, RequestFor(w, st, o, dep.0, dep.1, key)).result == Ok(r)
    && OnlyFills(ResolveDependency(w, net, mid, RequestFor(w, st, o, dep.0, dep.1, key)).state, last)
  }

  lemma {:induction false} EachComesFrom(
    w: World, net: Network, st: State, o: Options, deps: seq<(string, Dependency)>, key: Option<string>, i: nat)
    returns (mid: State)
    requires ResolveAll(w, net, st, o, deps, key).result.Ok? && i < |deps|
    ensures |ResolveAll(w, net, st, o, deps, key).result.value| == |deps|
    ensures CameFrom(w, net, st, o, deps[i], key, mid, ResolveAll(w, net, st, o, deps, key).state,
      ResolveAll(w, net, st, o, deps, key).result.value[i])
    decreases |deps|
  {
    var req := RequestFor(w, st, o, deps[0].0, deps[0].1, key);
    var first := ResolveDependency(w, net, st, req);
    var rest := ResolveAll(w, net, first.state, o, deps[1..], key);
    ResolveFills(w, net, st, req);
    AllFill(w, net, first.state, o, deps[1..], key);
    assert ResolveAll(w, net, st, o, deps, key) == Resolution(Ok([first.result.value] + rest.result.value), rest.state);
    if i == 0 {
      mid := st;
    } else {
      assert deps[1..][i - 1] == deps[i];
      mid := EachComesFrom(w, net, first.state, o, deps[1..], key, i - 1);
      assert RequestFor(w, st, o, deps[i].0, deps[i].1, key)
          == RequestFor(w, first.state, o, deps[i].0, deps[i].1, key);
    }
  }

  lemma {:induction false} AllFill(
    w: World, net: Network, st: State, o: Options, deps: seq<(string, Dependency)>, key: Option<string>)
    ensures var r := ResolveAll(w, net, st, o, deps, key);
            OnlyFills(st, r.state) && (r.result.Ok? ==> |r.result.value| == |deps|)
    decreases |deps|
  {
    if deps != [] {
      var req := RequestFor(w, st, o, deps[0].0, deps[0].1, key);
      ResolveFills(w, net, st, req);
      var first := ResolveDependency(w, net, st, req);
      if first.result.Ok? {
        AllFill(w, net, first.state, o, deps[1..], key);
      }
    }
  }

  lemma PackageResults(w: World, net: Network, st: State, o: Options, i: nat) returns (mid: State)
    requires ResolvePackage(w, net, st, o).result.Ok? && i < |st.ws.dependencies|
    ensures |ResolvePackage(w, net, st, o).result.value| == |st.ws.dependencies|
    ensures CameFrom(w, net, st, o, st.ws.dependencies[i], ActiveKey(st.ws, o), mid,
      ResolvePackage(w, net, st, o).state, ResolvePackage(w, net, st, o).result.value[i])
  {
    mid := EachComesFrom(w, net, st, o, st.ws.dependencies, ActiveKey(st.ws, o), i);
  }

  // ---------------------------------------------------------------- which way a dependency goes

  /** Its schemas were generated before and are looked at. */
  ghost predicate SchemasAreThere(w: World, ws: Workspace, o: Options, dep: (string, Dependency)) {
    && dep.1.crds.Some? && !dep.1.spec.Path? && dep.1.replace.None? && !o.regenerateCrds
    && w.kclIdent(dep.0) in ws.generated && "source.toml" in ws.generated[w.kclIdent(dep.0)]
  }

  ghost predicate IsVendored(w: World, ws: Workspace, o: Options, dep: (string, Dependency)) {
    !SchemasAreThere(w, ws, o, dep) && dep.1.replace.None? && !dep.1.spec.Helm? && dep.0 in ws.vendor
  }

  /** Neither fork, schemas nor vendored tree: a registry is asked, or its cache. */
  ghost predicate IsPulled(w: World, ws: Workspace, o: Options, dep: (string, Dependency)) {
    dep.1.spec.Oci? && !SchemasAreThere(w, ws, o, dep) && dep.1.replace.None? && dep.0 !in ws.vendor
  }

  /** No key is configured, or the entry records that key's signature. */
  ghost predicate IsTrusted(w: World, key: Option<string>, e: Entry) {
    key.None? || (w.keyRef(key.value).Some? && e.signature == w.keyRef(key.value))
  }

  lemma PulledRequest(w: World, st: State, o: Options, dep: (string, Dependency), key: Option<string>, k: nat)
    requires Accepted(st.lock) && !o.pins.NoPins? && IsPulled(w, st.ws, o, dep)
    requires ValidReference(dep.1.spec.oci) && IsFirst(w, st.lock.packages, dep.0, dep.1.spec, k)
    ensures RequestFor(w, st, o, dep.0, dep.1, key).pinned == Some(st.lock.packages[k])
  {
    FirstIsFound(w, st.lock.packages, dep.0, dep.1, k);
    PinIsFound(w, st.lock.packages, o.pins.OciPins?, dep.0, dep.1);
    var source := dep.1.spec.oci;
    assert source[..6][0] == 'o';
    StartsDifferently(source, "path+file://");
  }

  /**
   * The lock pins an OCI dependency. Under an accepted lock with an entry for
   * its name, source and version, a resolution that honours pins returns the
   * digest of the first such entry, whatever the registry serves for the tag
   * now; when that digest is cached and trusted, it returns the cached tree.
   */
  lemma PullsGoByTheLock(w: World, net: Network, st: State, o: Options, i: nat, k: nat)
    requires Accepted(st.lock) && !o.pins.NoPins? && i < |st.ws.dependencies|
    requires IsPulled(w, st.ws, o, st.ws.dependencies[i])
    requires IsFirst(w, st.lock.packages, st.ws.dependencies[i].0, st.ws.dependencies[i].1.spec, k)
    requires ResolvePackage(w, net, st, o).result.Ok?
    ensures var r := ResolvePackage(w, net, st, o).result.value;
            var e := st.lock.packages[k];
            && |r| == |st.ws.dependencies| && r[i].digest == e.digest
            && (e.digest in st.caches.oci && IsTrusted(w, ActiveKey(st.ws, o), e) ==>
                  r[i].files == w.scope(st.caches.oci[e.digest]))
  {
    var dep, key := st.ws.dependencies[i], ActiveKey(st.ws, o);
    var mid := PackageResults(w, net, st, o, i);
    var req := RequestFor(w, st, o, dep.0, dep.1, key);
    assert ResolveDependency(w, net, mid, req) == FetchOci(w, net, mid, req);
    PullIsValid(w, net.registry, mid.caches.oci, mid.log, OciRequest(req));
    PulledRequest(w, st, o, dep, key, k);
    PullIsPinned(w, net, mid, req);
  }

  lemma PullIsValid(w: World, net: Registry, cache: map<string, Files>, log: set<Evidence>, req: PullRequest)
    requires Pull(w, net, cache, log, req).result.Ok?
    ensures ValidReference(req.reference) && (req.key.Some? ==> w.keyRef(req.key.value).Some?)
  {
  }

  lemma PullIsPinned(w: World, net: Network, st: State, req: Request)
    requires req.dependency.spec.Oci? && req.pinned.Some? && FetchOci(w, net, st, req).result.Ok?
    ensures var r := FetchOci(w, net, st, req).result.value;
            var e := req.pinned.value;
            && r.digest == e.digest
            && (e.digest in st.caches.oci && IsTrusted(w, req.key, e) ==> r.files == w.scope(st.caches.oci[e.digest]))
  {
    var pull := OciRequest(req);
    var e := req.pinned.value;
    PullIsValid(w, net.registry, st.caches.oci, st.log, pull);
    if e.digest in st.caches.oci && IsTrusted(w, req.key, e) {
      CacheHit(w, net.registry, st.caches.oci, st.log, pull);
    } else if Fetch(w, net.registry, pull).Ok? {
      FetchSound(w, net.registry, pull);
    }
  }

  /** Nothing but the lock and the cache is needed. */
  ghost predicate AtHand(w: World, st: State, o: Options, dep: (string, Dependency)) {
    && IsPulled(w, st.ws, o, dep) && ValidReference(dep.1.spec.oci)
    && exists k: nat ::
         && IsFirst(w, st.lock.packages, dep.0, dep.1.spec, k) && st.lock.packages[k].digest in st.caches.oci
         && IsTrusted(w, ActiveKey(st.ws, o), st.lock.packages[k])
  }

  lemma OneIsAtHand(w: World, net: Network, st: State, o: Options, dep: (string, Dependency))
    requires Accepted(st.lock) && !o.pins.NoPins? && AtHand(w, st, o, dep)
    ensures var r := ResolveDependency(w, net, st, RequestFor(w, st, o, dep.0, dep.1, ActiveKey(st.ws, o)));
            r.result.Ok? && r.state == st
  {
    var key := ActiveKey(st.ws, o);
    var k: nat :| IsFirst(w, st.lock.packages, dep.0, dep.1.spec, k) && st.lock.packages[k].digest in st.caches.oci
      && IsTrusted(w, key, st.lock.packages[k]);
    PulledRequest(w, st, o, dep, key, k);
    var req := RequestFor(w, st, o, dep.0, dep.1, key);
    CacheHit(w, net.registry, st.caches.oci, st.log, OciRequest(req));
    assert st.(caches := st.caches.(oci := st.caches.oci), log := st.log) == st;
    assert ResolveDependency(w, net, st, req) == FetchOci(w, net, st, req);
  }

  lemma CacheHit(w: World, net: Registry, cache: map<string, Files>, log: set<Evidence>, req: PullRequest)
    requires ValidReference(req.reference) && (req.key.Some? ==> w.keyRef(req.key.value).Some?)
    requires FromCache(w, cache, req)
    ensures Pull(w, net, cache, log, req) ==
      Outcome(Ok(Pulled(req.pin.value, if req.key.None? then None else w.keyRef(req.key.value), cache[req.pin.value])),
        cache, log)
  {
  }

  /**
   * A Package whose OCI dependencies are locked, cached and trusted resolves
   * without any network, online or not, and changes nothing.
   */
  lemma LockedAndCachedIsEnough(w: World, net: Network, st: State, o: Options)
    requires Accepted(st.lock) && !o.pins.NoPins? && !st.ws.signing.Unreadable?
    requires ActiveKey(st.ws, o).Some? ==> w.keyRef(ActiveKey(st.ws, o).value).Some?
    requires forall d :: d in st.ws.dependencies ==> AtHand(w, st, o, d)
    ensures ResolvePackage(w, net, st, o).result.Ok? && ResolvePackage(w, net, st, o).state == st
  {
    AllAtHand(w, net, st, o, st.ws.dependencies);
  }

  lemma {:induction false} AllAtHand(w: World, net: Network, st: State, o: Options, deps: seq<(string, Dependency)>)
    requires Accepted(st.lock) && !o.pins.NoPins?
    requires forall d :: d in deps ==> AtHand(w, st, o, d)
    ensures var r := ResolveAll(w, net, st, o, deps, ActiveKey(st.ws, o)); r.result.Ok? && r.state == st
    decreases |deps|
  {
    if deps != [] {
      assert deps[0] in deps;
      OneIsAtHand(w, net, st, o, deps[0]);
      AllAtHand(w, net, st, o, deps[1..]);
    }
  }

  /** The digest a vendored tree stands for: that of the first entry, if the entry pins this very tree. */
  ghost predicate StandsFor(w: World, packages: seq<Entry>, dep: (string, Dependency), tree: string, digest: string) {
    if exists k: nat :: IsFirst(w, packages, dep.0, dep.1.spec, k) && packages[k].vendorDigest == Some(tree)
    then exists k: nat :: IsFirst(w, packages, dep.0, dep.1.spec, k) && digest == packages[k].digest
    else digest == if dep.1.spec.Git? then "git:" + Drop(tree, 7) else tree
  }

  /** A vendored tree is reported under the digest the lock ties it to, else under its own. */
  lemma VendoredGoesByTheLock(w: World, net: Network, st: State, o: Options, i: nat)
    requires i < |st.ws.dependencies| && IsVendored(w, st.ws, o, st.ws.dependencies[i])
    requires ResolvePackage(w, net, st, o).result.Ok?
    ensures var r := ResolvePackage(w, net, st, o).result.value;
            var dep := st.ws.dependencies[i];
            && |r| == |st.ws.dependencies|
            && StandsFor(w, Loaded(st.lock), dep, w.treeDigest(st.ws.vendor[dep.0]), r[i].digest)
  {
    var dep, key := st.ws.dependencies[i], ActiveKey(st.ws, o);
    var mid := PackageResults(w, net, st, o, i);
    var packages := Loaded(st.lock);
    if LockEntryFor(w, packages, dep.0, dep.1).Some? {
      var k := FoundIsFirst(w, packages, dep.0, dep.1);
      assert forall j: nat :: IsFirst(w, packages, dep.0, dep.1.spec, j) ==> j == k;
    } else {
      NoneIsFound(w, packages, dep.0, dep.1);
      assert forall j :: 0 <= j < |packages| ==> packages[j] in packages;
    }
  }

  /** The schemas' file says what the manifest declares, and the first entry pins its source and the schemas. */
  ghost predicate AreCurrent(
    w: World, packages: seq<Entry>, key: Option<string>, dep: (string, Dependency), files: Files, p: Provenance, k: nat)
  {
    && IsFirst(w, packages, dep.0, dep.1.spec, k) && "source.toml" in files
    && w.readProvenance(files["source.toml"]) == Some(p)
    && p.dependency == dep.0 && dep.1.crds == Some(p.crds) && p.source == packages[k].source
    && (!dep.1.spec.Helm? ==> p.version == packages[k].version)
    && p.digest == packages[k].digest && packages[k].crdsDigest == Some(w.treeDigest(files))
    && (dep.1.spec.Oci? ==> IsTrusted(w, key, packages[k]))
  }

  /**
   * A dependency whose generated schemas are there resolves exactly when they
   * are current in that sense; then it is their directory as it is, under the
   * digest they were made from.
   */
  lemma SchemasExactly(
    w: World, net: Network, st: State, o: Options, dep: (string, Dependency), key: Option<string>)
    requires SchemasAreThere(w, st.ws, o, dep) && (key.Some? ==> w.keyRef(key.value).Some?)
    ensures var r := ResolveDependency(w, net, st, RequestFor(w, st, o, dep.0, dep.1, key)).result;
            var files := st.ws.generated[w.kclIdent(dep.0)];
            && (r.Ok? <==> exists p, k :: AreCurrent(w, Loaded(st.lock), key, dep, files, p, k))
            && (r.Ok? ==> r.value.files == files
                          && exists p, k :: AreCurrent(w, Loaded(st.lock), key, dep, files, p, k)
                                            && r.value.digest == p.digest && r.value.locked.version == p.version)
  {
    var packages, files := Loaded(st.lock), st.ws.generated[w.kclIdent(dep.0)];
    var r := ResolveDependency(w, net, st, RequestFor(w, st, o, dep.0, dep.1, key)).result;
    if r.Ok? {
      var k := FoundIsFirst(w, packages, dep.0, dep.1);
      var p := w.readProvenance(files["source.toml"]).value;
      assert AreCurrent(w, packages, key, dep, files, p, k);
    }
    if p, k :| AreCurrent(w, packages, key, dep, files, p, k) {
      FirstIsFound(w, packages, dep.0, dep.1, k);
    }
  }

  /**
   * Generated schemas that are used are the directory as it is, and the first
   * entry of the lock pins both their digest and the digest they came from.
   */
  lemma SchemasGoByTheLock(w: World, net: Network, st: State, o: Options, i: nat) returns (k: nat)
    requires i < |st.ws.dependencies| && SchemasAreThere(w, st.ws, o, st.ws.dependencies[i])
    requires ResolvePackage(w, net, st, o).result.Ok?
    ensures var r := ResolvePackage(w, net, st, o).result.value;
            var dep := st.ws.dependencies[i];
            var files := st.ws.generated[w.kclIdent(dep.0)];
            && |r| == |st.ws.dependencies|
            && r[i].files == files
            && IsFirst(w, Loaded(st.lock), dep.0, dep.1.spec, k)
            && Loaded(st.lock)[k].digest == r[i].digest
            && Loaded(st.lock)[k].crdsDigest == Some(w.treeDigest(files))
            && (dep.1.spec.Oci? ==> IsTrusted(w, ActiveKey(st.ws, o), Loaded(st.lock)[k]))
  {
    var dep, key := st.ws.dependencies[i], ActiveKey(st.ws, o);
    var mid := PackageResults(w, net, st, o, i);
    k := FoundIsFirst(w, Loaded(st.lock), dep.0, dep.1);
  }
}
