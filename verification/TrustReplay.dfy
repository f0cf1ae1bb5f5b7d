/**
 * `lock`, then `render`: what the lock records is enough to resolve the same
 * digests again, whatever remotes serve by then, and offline.
 */
module TrustReplay {
  import opened Common
  import opened Lockfile
  import opened Oci
  import opened Trust
  import opened TrustPins
  import opened TrustRecords
  import TrustFiles

  /** Digests carry the name of their hash. */
  ghost predicate DigestsAreTagged(w: World) {
    && (forall blob :: StartsWith(w.sha256(blob), "sha256:"))
    && (forall files :: StartsWith(w.treeDigest(files), "sha256:"))
  }

  // ---------------------------------------------------------------- what a lock-time resolution returns

  /** A request as `lock` and `update` make it: from an accepted lock, past generated schemas. */
  ghost predicate AtLockTime(prior: seq<Entry>, req: Request) {
    && req.options.regenerateCrds && !req.options.offline
    && (req.pinned.Some? ==> GoodDigest(req.pinned.value.digest))
    && (req.locked.Some? ==> GoodDigest(req.locked.value.digest) && req.locked.value in prior)
  }

  lemma AcceptedDigests(lock: Lock)
    ensures forall e :: e in Loaded(lock) ==> GoodDigest(e.digest)
  {
    forall e | e in Loaded(lock) ensures GoodDigest(e.digest) {
      var i :| 0 <= i < |lock.packages| && lock.packages[i] == e;
      assert EntryProblem(lock.packages, i).None?;
    }
  }

  lemma LockTimeRequest(w: World, st: State, pins: PinScope, dep: (string, Dependency), key: Option<string>)
    ensures AtLockTime(Loaded(st.lock), RequestFor(w, st, Options(false, true, pins, true), dep.0, dep.1, key))
  {
    AcceptedDigests(st.lock);
  }

  lemma FetchedDigest(w: World, net: Network, st: State, req: Request)
    requires DigestsAreTagged(w) && !req.dependency.spec.Path?
    requires req.pinned.Some? ==> GoodDigest(req.pinned.value.digest)
    requires FetchSource(w, net, st, req).result.Ok?
    ensures GoodDigest(FetchSource(w, net, st, req).result.value.digest)
    ensures req.dependency.spec.Git? ==> StartsWith(FetchSource(w, net, st, req).result.value.digest, "git:")
  {
    if req.dependency.spec.Oci? {
      var pull := OciRequest(req);
      if Fetch(w, net.registry, pull).Ok? {
        FetchSound(w, net.registry, pull);
      }
    }
  }

  lemma LockTimeDigest(w: World, net: Network, st: State, prior: seq<Entry>, req: Request)
    requires DigestsAreTagged(w) && AtLockTime(prior, req) && ResolveDependency(w, net, st, req).result.Ok?
    ensures GoodDigest(ResolveDependency(w, net, st, req).result.value.digest)
  {
    var d := req.dependency;
    if d.replace.None? && !(!d.spec.Helm? && req.name in st.ws.vendor) && !d.spec.Path? {
      FetchedDigest(w, net, st, req);
    }
  }

  /** What is recorded of a dependency that is not a fork is what the manifest declares. */
  lemma LockTimeRecord(w: World, net: Network, st: State, req: Request)
    requires req.options.regenerateCrds && req.dependency.replace.None? && ResolveDependency(w, net, st, req).result.Ok?
    ensures var r := ResolveDependency(w, net, st, req).result.value;
            var declared := Declared(w, req.dependency.spec);
            && r.locked.source == declared.source
            && (!req.dependency.spec.Helm? ==> r.locked.version == declared.version)
            && r.crds == req.dependency.crds
  {
  }

  lemma LockTimeSelector(w: World, net: Network, st: State, req: Request)
    requires req.options.regenerateCrds && ResolveDependency(w, net, st, req).result.Ok?
    ensures ResolveDependency(w, net, st, req).result.value.crds == req.dependency.crds
  {
  }

  // ---------------------------------------------------------------- the lock afterwards

  /** Resolution and generation succeeded, so the lock was written. */
  ghost predicate Succeeds(w: World, st: State, net: Network, pins: PinScope) {
    var r := Resolving(w, st, net, pins).result;
    r.Ok? && forall x :: x in r.value ==> CanGenerate(w, x)
  }

  /** What the entry `e` of the new lock has to do with the result `r`. */
  ghost predicate Noted(w: World, prior: seq<Entry>, r: Resolved, e: Entry) {
    CanGenerate(w, r) && Records(prior, Wanted(w, r), e)
  }

  lemma NotedFields(w: World, prior: seq<Entry>, r: Resolved, e: Entry)
    requires Noted(w, prior, r, e)
    ensures e.name == r.name && e.version == r.locked.version && e.source == r.locked.source && e.digest == r.digest
    ensures r.locked.signature.Some? ==> e.signature == r.locked.signature
    ensures e.crdsDigest == if r.crds.Some? then Some(w.treeDigest(SchemaTree(w, r))) else None
  {
    var u := Wanted(w, r);
    WrittenRecords(prior, u);
    var s := Slot(prior, u);
    if s < |prior| {
      assert IsFirstOf(prior, u, s);
    } else {
      forall p | p in prior ensures !(p.name == u.name && p.version == u.version) {
        var j :| 0 <= j < |prior| && prior[j] == p;
        assert !Matches(prior[j], u);
      }
    }
  }

  /** An entry of the same key and digest hands its vendor digest on. */
  lemma NotedVendorDigest(w: World, prior: seq<Entry>, r: Resolved, e: Entry, p: Entry)
    requires Noted(w, prior, r, e) && KeyOnce(prior, Wanted(w, r)) && p in prior
    requires p.name == r.name && p.version == r.locked.version && p.digest == r.digest
    ensures e.vendorDigest == p.vendorDigest
  {
    var u := Wanted(w, r);
    var k :| 0 <= k < |prior| && prior[k] == p;
    forall j | 0 <= j < k ensures !(prior[j].name == u.name && prior[j].version == u.version) {
      assert !(Matches(prior[j], u) && Matches(prior[k], u));
    }
    assert IsFirstOf(prior, u, k);
  }

  /** The new lock parses, and it has one entry for each name. */
  ghost predicate HasOne(packages: seq<Entry>, name: string, e: Entry) {
    e in packages && e.name == name && forall x :: x in packages && x.name == name ==> x == e
  }

  /** The lock a command writes parses exactly when the entries it keeps repeat no key. */
  lemma LockedWell(w: World, st: State, net: Network, pins: PinScope)
    requires DigestsAreTagged(w) && DistinctNames(st.ws.dependencies) && Succeeds(w, st, net, pins)
    ensures var updates := UpdatesOf(w, Resolving(w, st, net, pins).result.value);
            Accepted(WriteLock(w, st, net, pins, None).lock) <==> UniqueKeys(Keep(Loaded(st.lock), updates))
    ensures WriteLock(w, st, net, pins, None).lock ==
            Merge(Prior(st.lock), UpdatesOf(w, Resolving(w, st, net, pins).result.value))
    ensures UniqueNames(UpdatesOf(w, Resolving(w, st, net, pins).result.value))
  {
    var r := Resolving(w, st, net, pins).result.value;
    ResultsAreNamed(w, st, net, pins);
    ChosenGenerate(w, r, None);
    MergeRecordsAll(w, Prior(st.lock), r);
    var updates := UpdatesOf(w, r);
    forall u | u in updates ensures GoodDigest(u.digest) {
      var i :| 0 <= i < |updates| && updates[i] == u;
      var o := Options(false, true, pins, true);
      var mid := PackageResults(w, net, st, o, i);
      var dep := st.ws.dependencies[i];
      LockTimeRequest(w, st, pins, dep, ActiveKey(st.ws, o));
      LockTimeDigest(w, net, mid, Loaded(st.lock), RequestFor(w, st, o, dep.0, dep.1, ActiveKey(st.ws, o)));
    }
    MergeIsAcceptedExactly(Prior(st.lock), updates);
  }

  lemma EntryAfter(w: World, st: State, net: Network, pins: PinScope, i: nat) returns (e: Entry)
    requires DigestsAreTagged(w) && DistinctNames(st.ws.dependencies) && i < |st.ws.dependencies|
    requires Succeeds(w, st, net, pins) && Accepted(WriteLock(w, st, net, pins, None).lock)
    ensures |Resolving(w, st, net, pins).result.value| == |st.ws.dependencies|
    ensures Noted(w, Loaded(st.lock), Resolving(w, st, net, pins).result.value[i], e)
    ensures KeyOnce(Loaded(st.lock), Wanted(w, Resolving(w, st, net, pins).result.value[i]))
    ensures HasOne(WriteLock(w, st, net, pins, None).lock.packages, st.ws.dependencies[i].0, e)
  {
    var r := Resolving(w, st, net, pins).result.value;
    ResultsAreNamed(w, st, net, pins);
    LockedWell(w, st, net, pins);
    var updates := UpdatesOf(w, r);
    var u := updates[i];
    assert u in updates && r[i] in r;
    WantedIsUpdate(w, r[i]);
    KeepOnce(Loaded(st.lock), updates, u);
    e := MergeRecords(Prior(st.lock), updates, u);
    MergeRecordsOnly(Prior(st.lock), updates, u, e) by {
      NameOfRecorded(Prior(st.lock).packages, u, e);
    }
    NameOfRecorded(Prior(st.lock).packages, u, e);
    forall x | x in Merge(Prior(st.lock), updates).packages && x.name == u.name ensures x == e {
      MergeRecordsOnly(Prior(st.lock), updates, u, x);
    }
  }

  lemma NameOfRecorded(packages: seq<Entry>, u: Update, e: Entry)
    requires Records(packages, u, e)
    ensures e.name == u.name
  {
    var s := Slot(packages, u);
    if s < |packages| {
      assert IsFirstOf(packages, u, s);
    } else {
      forall p | p in packages ensures !(p.name == u.name && p.version == u.version) {
        var j :| 0 <= j < |packages| && packages[j] == p;
        assert !Matches(packages[j], u);
      }
    }
  }

  /** The one entry of a name is found when it is for the declared source and version. */
  lemma OneIsFound(w: World, packages: seq<Entry>, name: string, d: Dependency, e: Entry)
    requires HasOne(packages, name, e) && EntryOf(w, e, name, d.spec)
    ensures LockEntryFor(w, packages, name, d) == Some(e)
  {
    NoneIsFound(w, packages, name, d);
  }

  // ---------------------------------------------------------------- one dependency, resolved again

  function LockOptions(pins: PinScope): Options {
    Options(false, true, pins, true)
  }

  function RenderOptions(offline: bool): Options {
    Options(offline, true, AllPins, false)
  }

  ghost function KeyOf(st: State): Option<string> {
    ActiveKey(st.ws, LockOptions(OciPins))
  }

  ghost function LockRequest(w: World, st: State, pins: PinScope, dep: (string, Dependency)): Request {
    RequestFor(w, st, LockOptions(pins), dep.0, dep.1, KeyOf(st))
  }

  ghost function RenderRequest(w: World, st: State, offline: bool, dep: (string, Dependency)): Request {
    RequestFor(w, st, RenderOptions(offline), dep.0, dep.1, KeyOf(st))
  }

  /** `dep` was resolved to `r` in the state `mid` of a command that turned `st` into `st1`, with the entry `e`. */
  ghost predicate WasLocked(
    w: World, st: State, net: Network, pins: PinScope, dep: (string, Dependency), mid: State, r: Resolved, e: Entry,
    st1: State)
  {
    && OnlyFills(st, mid)
    && ResolveDependency(w, net, mid, LockRequest(w, st, pins, dep)).result == Ok(r)
    && CachesGrew(ResolveDependency(w, net, mid, LockRequest(w, st, pins, dep)).state.caches, st1.caches)
    && st1.ws == st.ws.(generated := st1.ws.generated)
    && Accepted(st1.lock) && HasOne(st1.lock.packages, dep.0, e)
    && Noted(w, Loaded(st.lock), r, e) && KeyOnce(Loaded(st.lock), Wanted(w, r))
  }

  lemma RenderEntry(
    w: World, st: State, net: Network, pins: PinScope, dep: (string, Dependency), mid: State, r: Resolved, e: Entry,
    st1: State, offline: bool)
    requires WasLocked(w, st, net, pins, dep, mid, r, e, st1) && dep.1.replace.None?
    ensures EntryOf(w, e, dep.0, dep.1.spec) && e.digest == r.digest
    ensures RenderRequest(w, st1, offline, dep).locked == Some(e)
    ensures RenderRequest(w, st1, offline, dep).pinned == if IsPinned(w, dep.1.spec, false) then Some(e) else None
    ensures r.locked.signature.Some? ==> e.signature == r.locked.signature
  {
    LockTimeRecord(w, net, mid, LockRequest(w, st, pins, dep));
    NotedFields(w, Loaded(st.lock), r, e);
    OneIsFound(w, st1.lock.packages, dep.0, dep.1, e);
    PinIsFound(w, st1.lock.packages, false, dep.0, dep.1);
  }

  /** A vendored tree stands for the same digest under the entry just written. */
  lemma VendoredAgain(
    w: World, st: State, net: Network, pins: PinScope, dep: (string, Dependency), mid: State, r: Resolved, e: Entry,
    st1: State)
    requires WasLocked(w, st, net, pins, dep, mid, r, e, st1)
    requires dep.1.replace.None? && !dep.1.spec.Helm? && dep.0 in st.ws.vendor
    ensures VendoredDigest(w, dep.1.spec, Some(e), st.ws.vendor[dep.0]) == r.digest
  {
    var req := LockRequest(w, st, pins, dep);
    var tree := w.treeDigest(st.ws.vendor[dep.0]);
    LockTimeRecord(w, net, mid, req);
    NotedFields(w, Loaded(st.lock), r, e);
    ResolveFills(w, net, mid, req);
    if e.vendorDigest != Some(tree) && req.locked.Some? && req.locked.value.vendorDigest == Some(tree) {
      NotedVendorDigest(w, Loaded(st.lock), r, e, req.locked.value);
    }
  }

  /** Whatever remotes and caches hold by then, a render that succeeds resolves the digest that was locked. */
  lemma SameDigest(
    w: World, st: State, net: Network, pins: PinScope, dep: (string, Dependency), mid: State, r: Resolved, e: Entry,
    st1: State, net1: Network, now: State, offline: bool)
    requires DigestsAreTagged(w) && WasLocked(w, st, net, pins, dep, mid, r, e, st1) && OnlyFills(st1, now)
    requires ResolveDependency(w, net1, now, RenderRequest(w, st1, offline, dep)).result.Ok?
    ensures ResolveDependency(w, net1, now, RenderRequest(w, st1, offline, dep)).result.value.digest == r.digest
  {
    var d, req1 := dep.1, RenderRequest(w, st1, offline, dep);
    if d.replace.None? {
      RenderEntry(w, st, net, pins, dep, mid, r, e, st1, offline);
      if UsesGenerated(w, now, req1) {
      } else if !d.spec.Helm? && dep.0 in st.ws.vendor {
        VendoredAgain(w, st, net, pins, dep, mid, r, e, st1);
      } else if !d.spec.Path? {
        FetchedAgain(w, st, net, pins, dep, mid, r, e, st1, net1, now, offline);
      }
    }
  }

  lemma FetchedAgain(
    w: World, st: State, net: Network, pins: PinScope, dep: (string, Dependency), mid: State, r: Resolved, e: Entry,
    st1: State, net1: Network, now: State, offline: bool)
    requires DigestsAreTagged(w) && WasLocked(w, st, net, pins, dep, mid, r, e, st1) && OnlyFills(st1, now)
    requires dep.1.replace.None? && !(!dep.1.spec.Helm? && dep.0 in st.ws.vendor) && !dep.1.spec.Path?
    requires FetchSource(w, net1, now, RenderRequest(w, st1, offline, dep)).result.Ok?
    ensures FetchSource(w, net1, now, RenderRequest(w, st1, offline, dep)).result.value.digest == r.digest
  {
    var req, req1 := LockRequest(w, st, pins, dep), RenderRequest(w, st1, offline, dep);
    RenderEntry(w, st, net, pins, dep, mid, r, e, st1, offline);
    if dep.1.spec.Oci? {
      assert FetchSource(w, net1, now, req1) == FetchOci(w, net1, now, req1);
      PullIsValid(w, net1.registry, now.caches.oci, now.log, OciRequest(req1));
      assert dep.1.spec.oci[..6][0] == 'o';
      StartsDifferently(dep.1.spec.oci, "path+file://");
    }
    LockTimeRequest(w, st, pins, dep, KeyOf(st));
    assert ResolveDependency(w, net, mid, req) == FetchSource(w, net, mid, req);
    FetchedDigest(w, net, mid, req);
    PinnedFetchIsExact(w, net1, now, req1);
  }

  /**
   * After a command that recorded what it resolved in a lock that parses
   * (`LockedWell` says when), every render that succeeds resolves every
   * dependency to the digest just recorded, whatever is served or cached by
   * then, online or not.
   */
  lemma RenderReplaysTheLock(w: World, st: State, net: Network, pins: PinScope, net1: Network, offline: bool, i: nat)
    requires DigestsAreTagged(w) && DistinctNames(st.ws.dependencies) && i < |st.ws.dependencies|
    requires Succeeds(w, st, net, pins) && Accepted(WriteLock(w, st, net, pins, None).lock)
    ensures var st1 := WriteLock(w, st, net, pins, None);
            var r := Resolving(w, st, net, pins).result.value;
            var r1 := ResolvePackage(w, net1, st1, RenderOptions(offline)).result;
            r1.Ok? ==> |r1.value| == |r| == |st.ws.dependencies| && r1.value[i].digest == r[i].digest
  {
    var st1 := WriteLock(w, st, net, pins, None);
    if ResolvePackage(w, net1, st1, RenderOptions(offline)).result.Ok? {
      var mid, e := LockedAs(w, st, net, pins, i);
      var now := PackageResults(w, net1, st1, RenderOptions(offline), i);
      SameDigest(w, st, net, pins, st.ws.dependencies[i], mid, Resolving(w, st, net, pins).result.value[i], e, st1,
        net1, now, offline);
    }
  }

  lemma LockedAs(w: World, st: State, net: Network, pins: PinScope, i: nat) returns (mid: State, e: Entry)
    requires DigestsAreTagged(w) && DistinctNames(st.ws.dependencies) && i < |st.ws.dependencies|
    requires Succeeds(w, st, net, pins) && Accepted(WriteLock(w, st, net, pins, None).lock)
    ensures |Resolving(w, st, net, pins).result.value| == |st.ws.dependencies|
    ensures WriteLock(w, st, net, pins, None).ws.dependencies == st.ws.dependencies
    ensures WasLocked(w, st, net, pins, st.ws.dependencies[i], mid, Resolving(w, st, net, pins).result.value[i], e,
      WriteLock(w, st, net, pins, None))
  {
    mid := PackageResults(w, net, st, LockOptions(pins), i);
    e := EntryAfter(w, st, net, pins, i);
    LockedWell(w, st, net, pins);
    ChosenGenerate(w, Resolving(w, st, net, pins).result.value, None);
    ResolvingKeeps(w, st, net, pins);
  }

  // ---------------------------------------------------------------- offline, from the caches alone

  /** The schemas a command generated are used by the next render. */
  ghost predicate UsesSchemas(dep: (string, Dependency)) {
    dep.1.crds.Some? && !dep.1.spec.Path? && dep.1.replace.None?
  }

  /** A URL's slot, shared by all URLs with that content, may lack its file name. */
  ghost predicate FileIsThere(w: World, st1: State, dep: (string, Dependency), digest: string) {
    && dep.1.spec.Url? && dep.1.replace.None? && dep.0 !in st1.ws.vendor && dep.1.crds.None?
    ==> digest in st1.caches.url && w.urlFileName(dep.1.spec.url) in st1.caches.url[digest]
  }

  /** What the offline render returns for a dependency, if it can. */
  ghost predicate Replays(w: World, st1: State, net1: Network, dep: (string, Dependency), r: Resolved) {
    var o := ResolveDependency(w, net1, st1, RenderRequest(w, st1, true, dep));
    && o.state == st1
    && (o.result.Ok? <==> FileIsThere(w, st1, dep, r.digest))
    && (o.result.Ok? ==>
          && o.result.value.digest == r.digest
          && o.result.value.files == ReplayedFiles(w, dep, r))
  }

  ghost function ReplayedFiles(w: World, dep: (string, Dependency), r: Resolved): Files {
    if UsesSchemas(dep) && r.crds.Some? && CanGenerate(w, r) then SchemaTree(w, r) else r.files
  }

  lemma OciReplays(
    w: World, st: State, net: Network, pins: PinScope, dep: (string, Dependency), mid: State, r: Resolved, e: Entry,
    st1: State, net1: Network)
    requires WasLocked(w, st, net, pins, dep, mid, r, e, st1)
    requires dep.1.replace.None? && dep.1.spec.Oci? && dep.0 !in st.ws.vendor
    ensures var o := FetchSource(w, net1, st1, RenderRequest(w, st1, true, dep));
            o.state == st1 && o.result.Ok? && o.result.value.digest == r.digest && o.result.value.files == r.files
  {
    var req, req1 := LockRequest(w, st, pins, dep), RenderRequest(w, st1, true, dep);
    RenderEntry(w, st, net, pins, dep, mid, r, e, st1, true);
    assert ResolveDependency(w, net, mid, req) == FetchOci(w, net, mid, req);
    PullLeaves(w, net.registry, mid.caches.oci, mid.log, OciRequest(req));
    PullIsValid(w, net.registry, mid.caches.oci, mid.log, OciRequest(req));
    assert dep.1.spec.oci[..6][0] == 'o';
    StartsDifferently(dep.1.spec.oci, "path+file://");
    CacheHit(w, net1.registry, st1.caches.oci, st1.log, OciRequest(req1));
    assert st1.(caches := st1.caches.(oci := st1.caches.oci), log := st1.log) == st1;
  }

  lemma PullLeaves(w: World, net: Registry, cache: map<string, Files>, log: set<Evidence>, req: PullRequest)
    requires Pull(w, net, cache, log, req).result.Ok?
    ensures var o := Pull(w, net, cache, log, req);
            && o.result.value.digest in o.cache && o.cache[o.result.value.digest] == o.result.value.files
            && o.result.value.signature == if req.key.None? then None else w.keyRef(req.key.value)
  {
  }

  lemma HelmReplays(
    w: World, st: State, net: Network, pins: PinScope, dep: (string, Dependency), mid: State, r: Resolved, e: Entry,
    st1: State, net1: Network)
    requires WasLocked(w, st, net, pins, dep, mid, r, e, st1) && dep.1.replace.None? && dep.1.spec.Helm?
    ensures var o := FetchSource(w, net1, st1, RenderRequest(w, st1, true, dep));
            o.state == st1 && o.result.Ok? && o.result.value.digest == r.digest && o.result.value.files == r.files
  {
    var req := LockRequest(w, st, pins, dep);
    RenderEntry(w, st, net, pins, dep, mid, r, e, st1, true);
    assert ResolveDependency(w, net, mid, req) == FetchUnsigned(w, net, mid, req);
    var (f, cache) := FetchHelm(w, net, mid.caches.helm, dep.1.spec, PinOf(req), false);
    HelmLeaves(w, net, mid.caches.helm, dep.1.spec, PinOf(req));
    assert HasChart(st1.caches.helm, r.digest, dep.1.spec.chart);
    assert st1.(caches := st1.caches.(helm := st1.caches.helm)) == st1;
  }

  lemma HelmLeaves(w: World, net: Network, cache: map<string, Files>, s: Spec, pin: Option<string>)
    requires s.Helm? && FetchHelm(w, net, cache, s, pin, false).0.Ok?
    ensures var (f, cache') := FetchHelm(w, net, cache, s, pin, false);
            HasChart(cache', f.value.digest, s.chart) && f.value.files == cache'[f.value.digest]
  {
  }

  lemma GitLocked(w: World, net: Network, mid: State, req: Request)
    requires req.dependency.spec.Git? && !req.options.offline && FetchUnsigned(w, net, mid, req).result.Ok?
    ensures var o := FetchUnsigned(w, net, mid, req);
            var d := o.result.value.digest;
            && StartsWith(d, "git:") && d == "git:" + d[4..] && d[4..] in o.state.caches.git
            && o.result.value.files == Inside(w, req.dependency, o.state.caches.git[d[4..]])
  {
    GitLeaves(net, mid.caches.git, req.dependency.spec, GitPin(PinOf(req)));
  }

  lemma GitHit(w: World, net: Network, st: State, req: Request, digest: string)
    requires req.dependency.spec.Git? && PinOf(req) == Some(digest)
    requires StartsWith(digest, "git:") && digest == "git:" + digest[4..] && digest[4..] in st.caches.git
    ensures var o := FetchUnsigned(w, net, st, req);
            && o.state == st && o.result.Ok? && o.result.value.digest == digest
            && o.result.value.files == Inside(w, req.dependency, st.caches.git[digest[4..]])
  {
    assert st.(caches := st.caches.(git := st.caches.git)) == st;
  }

  lemma GitReplays(
    w: World, st: State, net: Network, pins: PinScope, dep: (string, Dependency), mid: State, r: Resolved, e: Entry,
    st1: State, net1: Network)
    requires WasLocked(w, st, net, pins, dep, mid, r, e, st1)
    requires dep.1.replace.None? && dep.1.spec.Git? && dep.0 !in st.ws.vendor
    ensures var o := FetchSource(w, net1, st1, RenderRequest(w, st1, true, dep));
            o.state == st1 && o.result.Ok? && o.result.value.digest == r.digest && o.result.value.files == r.files
  {
    var req := LockRequest(w, st, pins, dep);
    assert ResolveDependency(w, net, mid, req) == FetchUnsigned(w, net, mid, req);
    GitLocked(w, net, mid, req);
    RenderEntry(w, st, net, pins, dep, mid, r, e, st1, true);
    GitHit(w, net1, st1, RenderRequest(w, st1, true, dep), r.digest);
  }

  lemma GitLeaves(net: Network, cache: map<string, Files>, s: Spec, commit: Option<string>)
    requires s.Git? && FetchGit(net, cache, s, commit, false).0.Ok?
    ensures var (f, cache') := FetchGit(net, cache, s, commit, false);
            && StartsWith(f.value.digest, "git:") && f.value.digest == "git:" + f.value.digest[4..]
            && f.value.digest[4..] in cache' && f.value.files == cache'[f.value.digest[4..]]
  {
  }

  lemma UrlLocked(w: World, net: Network, mid: State, req: Request)
    requires req.dependency.spec.Url? && !req.options.offline && FetchUnsigned(w, net, mid, req).result.Ok?
    ensures var o := FetchUnsigned(w, net, mid, req);
            && o.result.value.digest in o.state.caches.url
            && o.result.value.files == Inside(w, req.dependency, o.state.caches.url[o.result.value.digest])
  {
    UrlLeaves(w, net, mid.caches.url, req.dependency.spec, PinOf(req));
  }

  lemma UrlHit(w: World, net: Network, st: State, req: Request, digest: string)
    requires req.dependency.spec.Url? && req.options.offline
    requires PinOf(req) == Some(digest) && digest in st.caches.url
    ensures var o := FetchUnsigned(w, net, st, req);
            && o.state == st
            && (o.result.Ok? <==> w.urlFileName(req.dependency.spec.url) in st.caches.url[digest])
            && (o.result.Ok? ==>
                  && o.result.value.digest == digest
                  && o.result.value.files == Inside(w, req.dependency, st.caches.url[digest]))
  {
    assert st.(caches := st.caches.(url := st.caches.url)) == st;
  }

  lemma UrlIsCached(
    w: World, st: State, net: Network, pins: PinScope, dep: (string, Dependency), mid: State, r: Resolved, e: Entry,
    st1: State)
    requires WasLocked(w, st, net, pins, dep, mid, r, e, st1)
    requires dep.1.replace.None? && dep.1.spec.Url? && dep.0 !in st.ws.vendor
    ensures r.digest in st1.caches.url && r.files == Inside(w, dep.1, st1.caches.url[r.digest])
  {
    var req := LockRequest(w, st, pins, dep);
    assert ResolveDependency(w, net, mid, req) == FetchUnsigned(w, net, mid, req);
    UrlLocked(w, net, mid, req);
  }

  lemma UrlReplays(
    w: World, st: State, net: Network, pins: PinScope, dep: (string, Dependency), mid: State, r: Resolved, e: Entry,
    st1: State, net1: Network)
    requires WasLocked(w, st, net, pins, dep, mid, r, e, st1)
    requires dep.1.replace.None? && dep.1.spec.Url? && dep.0 !in st.ws.vendor
    ensures var o := FetchSource(w, net1, st1, RenderRequest(w, st1, true, dep));
            && o.state == st1
            && (o.result.Ok? <==>
                  r.digest in st1.caches.url && w.urlFileName(dep.1.spec.url) in st1.caches.url[r.digest])
            && (o.result.Ok? ==> o.result.value.digest == r.digest && o.result.value.files == r.files)
  {
    UrlIsCached(w, st, net, pins, dep, mid, r, e, st1);
    RenderEntry(w, st, net, pins, dep, mid, r, e, st1, true);
    UrlHit(w, net1, st1, RenderRequest(w, st1, true, dep), r.digest);
  }

  lemma UrlLeaves(w: World, net: Network, cache: map<string, Files>, s: Spec, pin: Option<string>)
    requires s.Url? && FetchUrl(w, net, cache, s, pin, false).0.Ok?
    ensures var (f, cache') := FetchUrl(w, net, cache, s, pin, false);
            f.value.digest in cache' && f.value.files == cache'[f.value.digest]
  {
  }

  lemma VendorServes(w: World, st: State, req: Request)
    requires req.name in st.ws.vendor
    ensures var o := FromVendor(w, st, req);
            var files := st.ws.vendor[req.name];
            var digest := VendoredDigest(w, req.dependency.spec, req.locked, files);
            && o.state == st
            && (o.result.Ok? <==>
                  (req.dependency.spec.Oci? && req.trusted.Some? ==>
                     req.locked.Some? && req.locked.value.signature == req.trusted
                     && req.locked.value.digest == digest))
            && (o.result.Ok? ==>
                  && o.result.value.digest == digest && o.result.value.files == Inside(w, req.dependency, files)
                  && (req.dependency.spec.Oci? && req.trusted.Some? ==>
                        o.result.value.locked.signature == req.trusted))
  {
  }

  lemma VendorReplays(
    w: World, st: State, net: Network, pins: PinScope, dep: (string, Dependency), mid: State, r: Resolved, e: Entry,
    st1: State)
    requires WasLocked(w, st, net, pins, dep, mid, r, e, st1)
    requires dep.1.replace.None? && !dep.1.spec.Helm? && dep.0 in st.ws.vendor
    ensures var o := FromVendor(w, st1, RenderRequest(w, st1, true, dep));
            o.state == st1 && o.result.Ok? && o.result.value.digest == r.digest && o.result.value.files == r.files
  {
    var req := LockRequest(w, st, pins, dep);
    assert ResolveDependency(w, net, mid, req) == FromVendor(w, mid, req);
    VendorServes(w, mid, req);
    RenderEntry(w, st, net, pins, dep, mid, r, e, st1, true);
    VendoredAgain(w, st, net, pins, dep, mid, r, e, st1);
    VendorServes(w, st1, RenderRequest(w, st1, true, dep));
  }

  /** The directory of schemas the command left for a dependency. */
  ghost predicate SchemasWritten(w: World, dep: (string, Dependency), r: Resolved, st1: State) {
    UsesSchemas(dep) ==>
      && CanGenerate(w, r) && r.crds.Some?
      && w.kclIdent(dep.0) in st1.ws.generated && st1.ws.generated[w.kclIdent(dep.0)] == SchemaTree(w, r)
  }

  lemma SchemasReplay(
    w: World, st: State, net: Network, pins: PinScope, dep: (string, Dependency), mid: State, r: Resolved, e: Entry,
    st1: State)
    requires TrustFiles.ProvenanceReads(w) && WasLocked(w, st, net, pins, dep, mid, r, e, st1)
    requires UsesSchemas(dep) && SchemasWritten(w, dep, r, st1)
    ensures UsesGenerated(w, st1, RenderRequest(w, st1, true, dep))
    ensures var o := FromGenerated(w, st1, RenderRequest(w, st1, true, dep), st1.ws.generated[w.kclIdent(dep.0)]);
            && o.state == st1 && o.result.Ok?
            && o.result.value.digest == r.digest && o.result.value.files == SchemaTree(w, r)
  {
    var req, req1 := LockRequest(w, st, pins, dep), RenderRequest(w, st1, true, dep);
    RenderEntry(w, st, net, pins, dep, mid, r, e, st1, true);
    LockTimeRecord(w, net, mid, req);
    ResolveFills(w, net, mid, req);
    NotedFields(w, Loaded(st.lock), r, e);
    var p := Provenance(r.name, r.locked.source, r.locked.version, r.crds.value, r.digest);
    assert w.readProvenance(SchemaTree(w, r)[PROVENANCE_FILE]) == Some(p);
    assert !Stale(w, req1, SchemaTree(w, r), p);
    if dep.1.spec.Oci? && req1.trusted.Some? {
      LockTimeSignature(w, net, mid, req);
    }
  }

  /** With a key, what is recorded of an OCI dependency is that key's signature. */
  lemma LockTimeSignature(w: World, net: Network, st: State, req: Request)
    requires req.options.regenerateCrds && req.dependency.replace.None? && req.dependency.spec.Oci?
    requires req.trusted.Some? && req.key.Some? && req.trusted == w.keyRef(req.key.value)
    requires ResolveDependency(w, net, st, req).result.Ok?
    ensures ResolveDependency(w, net, st, req).result.value.locked.signature == req.trusted
  {
    if req.name !in st.ws.vendor {
      PullLeaves(w, net.registry, st.caches.oci, st.log, OciRequest(req));
      assert ResolveDependency(w, net, st, req) == FetchOci(w, net, st, req);
    }
  }

  lemma OneReplays(
    w: World, st: State, net: Network, pins: PinScope, dep: (string, Dependency), mid: State, r: Resolved, e: Entry,
    st1: State, net1: Network)
    requires TrustFiles.ProvenanceReads(w) && WasLocked(w, st, net, pins, dep, mid, r, e, st1)
    requires SchemasWritten(w, dep, r, st1)
    ensures Replays(w, st1, net1, dep, r)
  {
    var d, req, req1 := dep.1, LockRequest(w, st, pins, dep), RenderRequest(w, st1, true, dep);
    if UsesSchemas(dep) {
      SchemasReplay(w, st, net, pins, dep, mid, r, e, st1);
    } else if d.replace.Some? {
      ForkReplays(w, st, net, pins, dep, mid, r, e, st1, net1);
    } else if !d.spec.Helm? && dep.0 in st.ws.vendor {
      VendorReplays(w, st, net, pins, dep, mid, r, e, st1);
    } else if d.spec.Path? {
      ForkReplays(w, st, net, pins, dep, mid, r, e, st1, net1);
    } else {
      assert ResolveDependency(w, net1, st1, req1) == FetchSource(w, net1, st1, req1);
      match d.spec {
        case Oci(_, _) => OciReplays(w, st, net, pins, dep, mid, r, e, st1, net1);
        case Helm(_, _, _) => HelmReplays(w, st, net, pins, dep, mid, r, e, st1, net1);
        case Git(_, _, _) => GitReplays(w, st, net, pins, dep, mid, r, e, st1, net1);
        case Url(_) => UrlReplays(w, st, net, pins, dep, mid, r, e, st1, net1);
      }
    }
  }

  lemma LocalServes(w: World, net: Network, st: State, req: Request, path: string)
    requires var d := req.dependency;
             || d.replace == Some(path)
             || (d.replace.None? && d.spec == Path(path) && req.name !in st.ws.vendor)
    ensures var o := ResolveDependency(w, net, st, req);
            && o.state == st
            && (o.result.Ok? <==> path in st.ws.paths && !(req.dependency.replace.Some? && st.ws.rejectReplace))
            && (o.result.Ok? ==>
                  && o.result.value.digest == w.treeDigest(st.ws.paths[path])
                  && o.result.value.files == Inside(w, req.dependency, st.ws.paths[path]))
  {
    assert ResolveDependency(w, net, st, req) == ResolveSourceTree(w, net, st, req);
  }

  lemma ForkReplays(
    w: World, st: State, net: Network, pins: PinScope, dep: (string, Dependency), mid: State, r: Resolved, e: Entry,
    st1: State, net1: Network)
    requires WasLocked(w, st, net, pins, dep, mid, r, e, st1)
    requires dep.1.replace.Some? || (dep.1.spec.Path? && dep.0 !in st.ws.vendor)
    ensures Replays(w, st1, net1, dep, r)
  {
    var path := if dep.1.replace.Some? then dep.1.replace.value else dep.1.spec.path;
    LocalServes(w, net, mid, LockRequest(w, st, pins, dep), path);
    LocalServes(w, net1, st1, RenderRequest(w, st1, true, dep), path);
  }

  /** Dependencies with schemas have directories of their own. */
  ghost predicate DistinctIdents(w: World, resolved: seq<Resolved>) {
    forall i, j :: 0 <= i < j < |resolved| && resolved[i].crds.Some? && resolved[j].crds.Some? ==>
      w.kclIdent(resolved[i].name) != w.kclIdent(resolved[j].name)
  }

  lemma {:induction false} SchemasAreKept(
    w: World, resolved: seq<Resolved>, generated: map<string, Files>, ident: string)
    requires forall i :: 0 <= i < |resolved| && resolved[i].crds.Some? ==> w.kclIdent(resolved[i].name) != ident
    ensures ident in WriteSchemas(w, resolved, generated) <==> ident in generated
    ensures ident in generated ==> WriteSchemas(w, resolved, generated)[ident] == generated[ident]
    decreases |resolved|
  {
    if resolved != [] {
      var schemas := Schemas(w, resolved[0]);
      var more := if schemas.None? then generated else generated[w.kclIdent(resolved[0].name) := schemas.value];
      SchemasAreKept(w, resolved[1..], more, ident);
    }
  }

  lemma {:induction false} SchemasAreWritten(w: World, resolved: seq<Resolved>, generated: map<string, Files>, i: nat)
    requires DistinctIdents(w, resolved) && i < |resolved| && resolved[i].crds.Some? && CanGenerate(w, resolved[i])
    ensures var written := WriteSchemas(w, resolved, generated);
            && w.kclIdent(resolved[i].name) in written
            && written[w.kclIdent(resolved[i].name)] == SchemaTree(w, resolved[i])
    decreases |resolved|
  {
    var schemas := Schemas(w, resolved[0]);
    var more := if schemas.None? then generated else generated[w.kclIdent(resolved[0].name) := schemas.value];
    var rest := resolved[1..];
    assert forall j :: 0 <= j < |rest| ==> rest[j] == resolved[j + 1];
    if i == 0 {
      WantedIsUpdate(w, resolved[0]);
      SchemasAreKept(w, rest, more, w.kclIdent(resolved[0].name));
    } else {
      SchemasAreWritten(w, rest, more, i - 1);
    }
  }

  lemma LockedSchemas(w: World, st: State, net: Network, pins: PinScope, i: nat, mid: State, e: Entry)
    requires Succeeds(w, st, net, pins) && i < |st.ws.dependencies| == |Resolving(w, st, net, pins).result.value|
    requires DistinctIdents(w, Resolving(w, st, net, pins).result.value)
    requires WasLocked(w, st, net, pins, st.ws.dependencies[i], mid, Resolving(w, st, net, pins).result.value[i], e,
      WriteLock(w, st, net, pins, None))
    ensures SchemasWritten(w, st.ws.dependencies[i], Resolving(w, st, net, pins).result.value[i],
      WriteLock(w, st, net, pins, None))
  {
    var r, dep := Resolving(w, st, net, pins).result.value, st.ws.dependencies[i];
    var req := LockRequest(w, st, pins, dep);
    LockTimeSelector(w, net, mid, req);
    ResolveFills(w, net, mid, req);
    ChosenGenerate(w, r, None);
    assert r[i] in r;
    if UsesSchemas(dep) {
      SchemasAreWritten(w, r, map[], i);
    }
  }

  /** Every file an offline render of these dependencies needs is there. */
  ghost predicate FilesAreThere(w: World, st1: State, deps: seq<(string, Dependency)>, resolved: seq<Resolved>)
    requires |deps| == |resolved|
  {
    forall i :: 0 <= i < |deps| ==> FileIsThere(w, st1, deps[i], resolved[i].digest)
  }

  /** `again` repeats the digests and trees of `resolved`. */
  ghost predicate AreReplayed(
    w: World, deps: seq<(string, Dependency)>, resolved: seq<Resolved>, again: seq<Resolved>)
    requires |deps| == |resolved|
  {
    && |again| == |resolved|
    && forall i :: 0 <= i < |deps| ==>
         again[i].digest == resolved[i].digest && again[i].files == ReplayedFiles(w, deps[i], resolved[i])
  }

  lemma FilesOfRest(w: World, st1: State, deps: seq<(string, Dependency)>, resolved: seq<Resolved>)
    requires |deps| == |resolved| && deps != []
    ensures FilesAreThere(w, st1, deps, resolved) <==>
            FileIsThere(w, st1, deps[0], resolved[0].digest) && FilesAreThere(w, st1, deps[1..], resolved[1..])
  {
    var later, before := deps[1..], resolved[1..];
    if FilesAreThere(w, st1, deps, resolved) {
      forall i | 0 <= i < |later| ensures FileIsThere(w, st1, later[i], before[i].digest) {
        assert FileIsThere(w, st1, deps[i + 1], resolved[i + 1].digest);
      }
    }
    if FileIsThere(w, st1, deps[0], resolved[0].digest) && FilesAreThere(w, st1, later, before) {
      forall i | 0 <= i < |deps| ensures FileIsThere(w, st1, deps[i], resolved[i].digest) {
        assert i > 0 ==> FileIsThere(w, st1, later[i - 1], before[i - 1].digest);
      }
    }
  }

  lemma ReplayOfRest(
    w: World, deps: seq<(string, Dependency)>, resolved: seq<Resolved>, r: Resolved, rest: seq<Resolved>)
    requires |deps| == |resolved| && deps != [] && AreReplayed(w, deps[1..], resolved[1..], rest)
    requires r.digest == resolved[0].digest && r.files == ReplayedFiles(w, deps[0], resolved[0])
    ensures AreReplayed(w, deps, resolved, [r] + rest)
  {
    var all := [r] + rest;
    forall i | 0 <= i < |deps|
      ensures all[i].digest == resolved[i].digest && all[i].files == ReplayedFiles(w, deps[i], resolved[i])
    {
      if i > 0 {
        assert all[i] == rest[i - 1] && deps[1..][i - 1] == deps[i] && resolved[1..][i - 1] == resolved[i];
      }
    }
  }

  lemma {:induction false} AllReplay(
    w: World, st1: State, net1: Network, deps: seq<(string, Dependency)>, resolved: seq<Resolved>)
    requires |deps| == |resolved|
    requires forall i :: 0 <= i < |deps| ==> Replays(w, st1, net1, deps[i], resolved[i])
    ensures var o := ResolveAll(w, net1, st1, RenderOptions(true), deps, KeyOf(st1));
            && o.state == st1
            && (o.result.Ok? <==> FilesAreThere(w, st1, deps, resolved))
            && (o.result.Ok? ==> AreReplayed(w, deps, resolved, o.result.value))
    decreases |deps|
  {
    if deps != [] {
      var rest := deps[1..];
      forall i | 0 <= i < |rest| ensures Replays(w, st1, net1, rest[i], resolved[1..][i]) {
        assert Replays(w, st1, net1, deps[i + 1], resolved[i + 1]);
      }
      AllReplay(w, st1, net1, rest, resolved[1..]);
      assert Replays(w, st1, net1, deps[0], resolved[0]);
      var o := ResolveAll(w, net1, st1, RenderOptions(true), rest, KeyOf(st1));
      var first := ResolveDependency(w, net1, st1, RenderRequest(w, st1, true, deps[0]));
      FilesOfRest(w, st1, deps, resolved);
      if first.result.Ok? && o.result.Ok? {
        ReplayOfRest(w, deps, resolved, first.result.value, o.result.value);
      }
    }
  }

  /**
   * After a command that recorded what it resolved, an offline render needs no
   * remote: it changes nothing, and it succeeds, with the same digests and
   * files and with the schemas just generated, exactly when every plain URL
   * dependency's file is in the slot of its digest (a slot filled for another
   * URL with the same content holds that URL's file name only).
   */
  lemma OfflineReplaysTheLock(w: World, st: State, net: Network, pins: PinScope, net1: Network)
    requires DigestsAreTagged(w) && TrustFiles.ProvenanceReads(w)
    requires DistinctNames(st.ws.dependencies) && Succeeds(w, st, net, pins)
    requires Accepted(WriteLock(w, st, net, pins, None).lock)
    requires DistinctIdents(w, Resolving(w, st, net, pins).result.value)
    ensures var st1 := WriteLock(w, st, net, pins, None);
            var r, o := Resolving(w, st, net, pins).result.value, ResolvePackage(w, net1, st1, RenderOptions(true));
            var deps := st.ws.dependencies;
            && |r| == |deps| && o.state == st1
            && (o.result.Ok? <==> FilesAreThere(w, st1, deps, r))
            && (o.result.Ok? ==> AreReplayed(w, deps, r, o.result.value))
  {
    var st1 := WriteLock(w, st, net, pins, None);
    var r, deps := Resolving(w, st, net, pins).result.value, st.ws.dependencies;
    ResultsAreNamed(w, st, net, pins);
    forall i | 0 <= i < |deps| ensures Replays(w, st1, net1, deps[i], r[i]) {
      var mid, e := LockedAs(w, st, net, pins, i);
      LockedSchemas(w, st, net, pins, i, mid, e);
      OneReplays(w, st, net, pins, deps[i], mid, r[i], e, st1, net1);
    }
    AllReplay(w, st1, net1, deps, r);
    SameWorkspace(w, st, net, pins);
  }

  lemma SameWorkspace(w: World, st: State, net: Network, pins: PinScope)
    ensures var st1 := WriteLock(w, st, net, pins, None);
            st1.ws == st.ws.(generated := st1.ws.generated)
  {
    ResolvingKeeps(w, st, net, pins);
  }

  /** In the terms of commands: `lock`, then `render` with whatever is served by then. */
  lemma LockThenRender(w: World, st: State, net: Network, net1: Network, offline: bool, i: nat)
    requires DigestsAreTagged(w) && DistinctNames(st.ws.dependencies) && i < |st.ws.dependencies|
    requires Succeeds(w, st, net, OciPins) && Accepted(Apply(w, st, LockCommand(net)).lock)
    ensures var st1 := Apply(w, st, LockCommand(net));
            var r := Resolving(w, st, net, OciPins).result.value;
            var r1 := ResolvePackage(w, net1, st1, RenderOptions(offline)).result;
            r1.Ok? ==> |r1.value| == |r| == |st.ws.dependencies| && r1.value[i].digest == r[i].digest
  {
    RenderReplaysTheLock(w, st, net, OciPins, net1, offline, i);
  }

  lemma LockThenRenderOffline(w: World, st: State, net: Network, net1: Network)
    requires DigestsAreTagged(w) && TrustFiles.ProvenanceReads(w)
    requires DistinctNames(st.ws.dependencies) && Succeeds(w, st, net, OciPins)
    requires Accepted(Apply(w, st, LockCommand(net)).lock)
    requires DistinctIdents(w, Resolving(w, st, net, OciPins).result.value)
    requires forall d :: d in st.ws.dependencies ==> !d.1.spec.Url?
    ensures var st1 := Apply(w, st, LockCommand(net));
            && ResolvePackage(w, net1, st1, RenderOptions(true)).result.Ok?
            && Apply(w, st1, RenderCommand(net1, true)) == st1
  {
    OfflineReplaysTheLock(w, st, net, OciPins, net1);
    forall i | 0 <= i < |st.ws.dependencies| ensures !st.ws.dependencies[i].1.spec.Url? {
      assert st.ws.dependencies[i] in st.ws.dependencies;
    }
  }
}
