/**
 * What a lock entry says of the place its bytes came from: whether a registry
 * ever offered its digest at its own source and version, over every run of
 * commands (host/src/dependencies.effect.ts, host/src/cli/vendor.ts).
 */
module TrustVersions {
  import opened Common
  import opened Lockfile
  import opened Oci
  import opened Trust
  import TrustFiles

  // ---------------------------------------------------------------- vocabulary

  /** The registry's manifest at that reference and version selects a layer with that digest. */
  ghost predicate Offers(w: World, registry: Registry, source: string, version: string, digest: string) {
    exists anyArchive :: Selects(w, registry, source, version, digest, anyArchive)
  }

  predicate Selects(w: World, registry: Registry, source: string, version: string, digest: string, anyArchive: bool) {
    && (source, version) in registry.manifests
    && var m := w.decodeManifest(registry.manifests[(source, version)]);
       m.Some? && var layer := SelectLayer(m.value, anyArchive); layer.Some? && layer.value.digest == digest
  }

  /** Some tree has this digest: what a fork or an edited vendored tree is recorded with. */
  ghost predicate IsTree(w: World, digest: string) {
    exists files :: w.treeDigest(files) == digest
  }

  /** One of the registries met so far offered the digest there, or it is a local tree's own. */
  ghost predicate Placed(w: World, met: seq<Registry>, source: string, version: string, digest: string) {
    IsTree(w, digest) || exists registry :: registry in met && Offers(w, registry, source, version, digest)
  }

  predicate IsOci(source: string) {
    StartsWith(source, "oci://")
  }

  ghost predicate EntryPlaced(w: World, met: seq<Registry>, e: Entry) {
    IsOci(e.source) ==> Placed(w, met, e.source, e.version, e.digest)
  }

  ghost predicate EntriesPlaced(w: World, met: seq<Registry>, packages: seq<Entry>) {
    forall e :: e in packages ==> EntryPlaced(w, met, e)
  }

  ghost predicate LockPlaced(w: World, met: seq<Registry>, lock: Lock) {
    Accepted(lock) ==> EntriesPlaced(w, met, lock.packages)
  }

  lemma PlacedLater(w: World, met: seq<Registry>, more: seq<Registry>, source: string, version: string, digest: string)
    requires Placed(w, met, source, version, digest)
    ensures Placed(w, met + more, source, version, digest)
  {
    if !IsTree(w, digest) {
      var registry :| registry in met && Offers(w, registry, source, version, digest);
      assert registry in met + more;
    }
  }

  lemma EntriesPlacedLater(w: World, met: seq<Registry>, more: seq<Registry>, packages: seq<Entry>)
    requires EntriesPlaced(w, met, packages)
    ensures EntriesPlaced(w, met + more, packages)
  {
    forall e | e in packages && IsOci(e.source) ensures Placed(w, met + more, e.source, e.version, e.digest) {
      assert EntryPlaced(w, met, e);
      PlacedLater(w, met, more, e.source, e.version, e.digest);
    }
  }

  lemma OfferIsPlaced(w: World, met: seq<Registry>, registry: Registry, source: string, version: string, digest: string)
    requires Offers(w, registry, source, version, digest)
    ensures Placed(w, met + [registry], source, version, digest)
  {
    assert registry in met + [registry];
  }

  // ---------------------------------------------------------------- pulls

  /** A pull that goes online returns what the registry offers there; any other returns its pin. */
  lemma PullOffers(w: World, net: Registry, cache: map<string, Files>, log: set<Evidence>, req: PullRequest)
    requires Pull(w, net, cache, log, req).result.Ok?
    ensures var digest := Pull(w, net, cache, log, req).result.value.digest;
            if FromCache(w, cache, req) then req.pin == Some(digest)
            else Offers(w, net, req.reference, req.version, digest)
  {
    if !FromCache(w, cache, req) {
      assert Fetch(w, net, req).Ok?;
      assert Selects(w, net, req.reference, req.version, Fetch(w, net, req).value.digest, req.anyArchive);
    }
  }

  // ---------------------------------------------------------------- resolution

  ghost predicate ResolvedPlaced(w: World, met: seq<Registry>, r: Resolved) {
    IsOci(r.locked.source) ==> Placed(w, met, r.locked.source, r.locked.version, r.digest)
  }

  lemma OtherSources(w: World, spec: Spec, gitFallback: string, replaced: Option<string>, helmVersion: Option<string>)
    requires !spec.Oci?
    ensures !IsOci(LockRecord(w, spec, gitFallback, replaced, helmVersion).source)
  {
    var source := LockRecord(w, spec, gitFallback, replaced, helmVersion).source;
    assert source[0] != "oci://"[0];
  }

  /** A pinned or locked entry is one of this very source and version. */
  ghost predicate OwnEntries(st: State, req: Request) {
    && req.dependency.spec.Oci?
    && (req.pinned.Some? ==> OwnEntry(st, req, req.pinned.value))
    && (req.locked.Some? ==> OwnEntry(st, req, req.locked.value))
  }

  ghost predicate OwnEntry(st: State, req: Request, e: Entry)
    requires req.dependency.spec.Oci?
  {
    && Accepted(st.lock) && e in st.lock.packages
    && e.source == req.dependency.spec.oci && e.version == req.dependency.spec.version
  }

  lemma RequestsOwnEntries(w: World, st: State, o: Options, name: string, d: Dependency, key: Option<string>)
    requires d.spec.Oci?
    ensures OwnEntries(st, RequestFor(w, st, o, name, d, key))
  {
  }

  lemma FetchIsPlaced(w: World, net: Network, st: State, req: Request, met: seq<Registry>)
    requires OwnEntries(st, req) && LockPlaced(w, met, st.lock) && FetchOci(w, net, st, req).result.Ok?
    ensures ResolvedPlaced(w, met + [net.registry], FetchOci(w, net, st, req).result.value)
  {
    var pull := OciRequest(req);
    PullOffers(w, net.registry, st.caches.oci, st.log, pull);
    var digest := Pull(w, net.registry, st.caches.oci, st.log, pull).result.value.digest;
    if IsOci(pull.reference) {
      if FromCache(w, st.caches.oci, pull) {
        assert EntryPlaced(w, met, req.pinned.value);
        PlacedLater(w, met, [net.registry], pull.reference, pull.version, digest);
      } else {
        OfferIsPlaced(w, met, net.registry, pull.reference, pull.version, digest);
      }
    }
  }

  lemma VendoredIsPlaced(w: World, st: State, req: Request, met: seq<Registry>)
    requires OwnEntries(st, req) && LockPlaced(w, met, st.lock)
    requires req.name in st.ws.vendor && FromVendor(w, st, req).result.Ok?
    ensures ResolvedPlaced(w, met, FromVendor(w, st, req).result.value)
  {
    var files := st.ws.vendor[req.name];
    if req.locked.Some? && req.locked.value.vendorDigest == Some(w.treeDigest(files)) {
      assert EntryPlaced(w, met, req.locked.value);
    }
  }

  /** What resolution records for a dependency was offered at the source and version recorded with it. */
  lemma SourceIsPlaced(
    w: World, net: Network, st: State, o: Options, name: string, d: Dependency, key: Option<string>,
    met: seq<Registry>)
    requires LockPlaced(w, met, st.lock) && o.regenerateCrds
    ensures var r := ResolveDependency(w, net, st, RequestFor(w, st, o, name, d, key)).result;
            r.Ok? ==> ResolvedPlaced(w, met + [net.registry], r.value)
  {
    var req := RequestFor(w, st, o, name, d, key);
    var r := ResolveSourceTree(w, net, st, req).result;
    if r.Ok? {
      if !d.spec.Oci? {
        OtherRecord(w, net, st, req);
      } else if d.replace.None? {
        RequestsOwnEntries(w, st, o, name, d, key);
        if name in st.ws.vendor {
          VendoredIsPlaced(w, st, req, met);
          if IsOci(d.spec.oci) {
            PlacedLater(w, met, [net.registry], d.spec.oci, d.spec.version, r.value.digest);
          }
        } else {
          FetchIsPlaced(w, net, st, req, met);
        }
      }
    }
  }

  lemma OtherRecord(w: World, net: Network, st: State, req: Request)
    requires !req.dependency.spec.Oci? && ResolveSourceTree(w, net, st, req).result.Ok?
    ensures !IsOci(ResolveSourceTree(w, net, st, req).result.value.locked.source)
  {
    var d := req.dependency;
    var version := ResolveSourceTree(w, net, st, req).result.value.locked.version;
    OtherSources(w, d.spec, "HEAD", d.replace, None);
    OtherSources(w, d.spec, "vendored", None, None);
    OtherSources(w, d.spec, "vendored", None, Some(version));
  }

  lemma {:induction false} ResolveAllPlaced(
    w: World, net: Network, st: State, o: Options, deps: seq<(string, Dependency)>, key: Option<string>,
    met: seq<Registry>)
    requires LockPlaced(w, met, st.lock) && o.regenerateCrds
    requires Sound(w, st) && (key.Some? ==> w.keyRef(key.value).Some?)
    ensures var r := ResolveAll(w, net, st, o, deps, key).result;
            r.Ok? ==> forall i :: 0 <= i < |r.value| ==> ResolvedPlaced(w, met + [net.registry], r.value[i])
    decreases |deps|
  {
    if deps != [] {
      var req := RequestFor(w, st, o, deps[0].0, deps[0].1, key);
      RequestForSound(w, st, o, deps[0].0, deps[0].1, key);
      ResolveDependencySound(w, net, st, req);
      SourceIsPlaced(w, net, st, o, deps[0].0, deps[0].1, key, met);
      var first := ResolveDependency(w, net, st, req);
      if first.result.Ok? {
        ResolveAllPlaced(w, net, first.state, o, deps[1..], key, met);
      }
    }
  }

  // ---------------------------------------------------------------- merges

  ghost predicate UpdatePlaced(w: World, met: seq<Registry>, u: Update) {
    IsOci(u.source) ==> Placed(w, met, u.source, u.version, u.digest)
  }

  lemma {:induction false} UpsertAllPlaced(w: World, met: seq<Registry>, packages: seq<Entry>, updates: seq<Update>)
    requires EntriesPlaced(w, met, packages) && forall u :: u in updates ==> UpdatePlaced(w, met, u)
    ensures EntriesPlaced(w, met, UpsertAll(packages, updates))
  {
    if updates != [] {
      var n := |updates| - 1;
      var p, u := UpsertAll(packages, updates[..n]), updates[n];
      UpsertAllPlaced(w, met, packages, updates[..n]);
      forall e | e in Upsert(p, u) ensures EntryPlaced(w, met, e) {
        UpsertMembers(p, u, e);
        if Matches(e, u) && Later(p, u, e) {
          LaterIsMember(p, u, e);
        }
        assert UpdatePlaced(w, met, u);
      }
    }
  }

  lemma MergePlaced(w: World, met: seq<Registry>, lock: Lock, updates: seq<Update>)
    requires EntriesPlaced(w, met, lock.packages) && forall u :: u in updates ==> UpdatePlaced(w, met, u)
    ensures EntriesPlaced(w, met, Merge(lock, updates).packages)
  {
    var kept := Keep(lock.packages, updates);
    KeepMembers(lock.packages, updates);
    UpsertAllPlaced(w, met, kept, updates);
    SortKeepsEntries(UpsertAll(kept, updates));
  }

  lemma WriteLockPlaced(w: World, st: State, net: Network, pins: PinScope, dep: Option<string>, met: seq<Registry>)
    requires Sound(w, st) && LockPlaced(w, met, st.lock)
    ensures LockPlaced(w, met + [net.registry], WriteLock(w, st, net, pins, dep).lock)
  {
    var o := Options(false, true, pins, true);
    var more := met + [net.registry];
    OciDependenciesAreVerified(w, net, st, o);
    var key := ActiveKey(st.ws, o);
    if key.Some? ==> w.keyRef(key.value).Some? {
      ResolveAllPlaced(w, net, st, o, st.ws.dependencies, key, met);
    }
    var r := ResolvePackage(w, net, st, o);
    if Accepted(st.lock) {
      EntriesPlacedLater(w, met, [net.registry], st.lock.packages);
    }
    if r.result.Ok? {
      var chosen := Selected(r.result.value, dep);
      var updates := UpdatesOf(w, chosen);
      forall u | u in updates ensures UpdatePlaced(w, more, u) {
        var i :| 0 <= i < |updates| && updates[i] == u;
        assert chosen[i] in r.result.value;
        var j :| 0 <= j < |r.result.value| && r.result.value[j] == chosen[i];
        assert ResolvedPlaced(w, more, r.result.value[j]);
      }
      MergePlaced(w, more, Prior(st.lock), updates);
    }
  }

  // ---------------------------------------------------------------- vendoring

  /** The entry `vendor add` pins an OCI dependency by: found by name and prefix alone. */
  ghost function VendorPin(st: State, name: string): Option<Entry> {
    LockedByPrefix(Loaded(st.lock), name, "oci://")
  }

  /** It is of another source or version, and its bytes are in the cache: they are taken without asking. */
  ghost predicate Strays(w: World, st: State, name: string, d: Dependency) {
    && d.spec.Oci?
    && var pin := VendorPin(st, name);
       && pin.Some? && (pin.value.source != d.spec.oci || pin.value.version != d.spec.version)
       && FromCache(w, st.caches.oci, VendorRequest(st, name, d))
  }

  /**
   * What `vendor add` records for an OCI dependency was offered at its source
   * and version exactly when the pin did not stray there, or the digest of the
   * entry it strayed to happens to be offered there too.
   */
  lemma VendorPlacesExactly(w: World, st: State, net: Network, name: string, d: Dependency, met: seq<Registry>)
    requires LockPlaced(w, met, st.lock) && d.spec.Oci? && IsOci(d.spec.oci)
    requires VendorSource(w, st, net, name, d).result.Ok?
    ensures var digest := VendorSource(w, st, net, name, d).result.value.digest;
            var more := met + [net.registry];
            && (Placed(w, more, d.spec.oci, d.spec.version, digest) <==>
                (Strays(w, st, name, d) ==>
                   Placed(w, more, d.spec.oci, d.spec.version, VendorPin(st, name).value.digest)))
  {
    var pull := VendorRequest(st, name, d);
    PullOffers(w, net.registry, st.caches.oci, st.log, pull);
    var digest := VendorSource(w, st, net, name, d).result.value.digest;
    if !FromCache(w, st.caches.oci, pull) {
      OfferIsPlaced(w, met, net.registry, d.spec.oci, d.spec.version, digest);
    } else if !Strays(w, st, name, d) {
      assert EntryPlaced(w, met, VendorPin(st, name).value);
      PlacedLater(w, met, [net.registry], d.spec.oci, d.spec.version, digest);
    }
  }

  /** What `vendor add` merges into the lock after straying. */
  ghost function StrayUpdate(w: World, st: State, name: string, d: Dependency): Update
    requires Strays(w, st, name, d)
  {
    var pin := VendorPin(st, name).value;
    VendorUpdate(w, st.lock, name, d, Source(pin.digest, None, map[]))
  }

  /**
   * The stray that shows: the pull is allowed, the entries kept repeat no key,
   * and nobody offered the entry's digest at the new source and version.
   */
  ghost predicate Misplaces(w: World, st: State, net: Network, name: string, d: Dependency, met: seq<Registry>) {
    && Strays(w, st, name, d) && IsOci(d.spec.oci)
    && VendorSource(w, st, net, name, d).result.Ok?
    && UniqueKeys(Keep(st.lock.packages, [StrayUpdate(w, st, name, d)]))
    && !Placed(w, met + [net.registry], d.spec.oci, d.spec.version, VendorPin(st, name).value.digest)
  }

  /** The entries a merge keeps depend on names and versions alone. */
  lemma {:induction false} SameKept(packages: seq<Entry>, u: Update, u': Update)
    requires u.name == u'.name && u.version == u'.version
    ensures Keep(packages, [u]) == Keep(packages, [u'])
  {
    if packages != [] {
      SameKept(packages[1..], u, u');
      var e := packages[0];
      assert u in [u] && u' in [u'];
      assert Kept(e, [u]) <==> u.name != e.name || Matches(e, u);
      assert Kept(e, [u']) <==> u'.name != e.name || Matches(e, u');
    }
  }

  /** A stray `vendor add` writes the digest of the entry it strayed to. */
  lemma StrayWrites(w: World, st: State, net: Network, name: string, d: Dependency)
    requires Strays(w, st, name, d) && VendorSource(w, st, net, name, d).result.Ok?
    ensures Accepted(st.lock)
    ensures var u := VendorUpdate(w, st.lock, name, d, VendorSource(w, st, net, name, d).result.value);
            && u.digest == VendorPin(st, name).value.digest && GoodDigest(u.digest)
            && u.source == d.spec.oci && u.version == d.spec.version
            && Keep(st.lock.packages, [u]) == Keep(st.lock.packages, [StrayUpdate(w, st, name, d)])
  {
    PullOffers(w, net.registry, st.caches.oci, st.log, VendorRequest(st, name, d));
    var pin := VendorPin(st, name).value;
    var i :| 0 <= i < |st.lock.packages| && st.lock.packages[i] == pin;
    assert EntryProblem(st.lock.packages, i).None?;
    var u := VendorUpdate(w, st.lock, name, d, VendorSource(w, st, net, name, d).result.value);
    SameKept(st.lock.packages, u, StrayUpdate(w, st, name, d));
  }

  /** After `vendor add` every entry of a lock that parses is placed, exactly unless it misplaces one. */
  lemma VendorPlaced(w: World, st: State, net: Network, name: string, d: Dependency, met: seq<Registry>)
    requires Sound(w, st) && LockPlaced(w, met, st.lock)
    ensures LockPlaced(w, met + [net.registry], Vendor(w, st, net, name, d).lock) <==>
            !Misplaces(w, st, net, name, d, met)
  {
    var more := met + [net.registry];
    var r := VendorSource(w, st, net, name, d);
    VendorSourceSound(w, st, net, name, d);
    if Accepted(st.lock) {
      EntriesPlacedLater(w, met, [net.registry], st.lock.packages);
      if r.result.Ok? {
        var u := VendorUpdate(w, st.lock, name, d, r.result.value);
        VendorUpdatePlaced(w, st, net, name, d, met);
        if UpdatePlaced(w, more, u) {
          MergePlaced(w, more, st.lock, [u]);
          PinTreePlaced(w, more, Merge(st.lock, [u]).packages, u, w.treeDigest(r.result.value.files));
        } else {
          StrayWrites(w, st, net, name, d);
          StrayIsSeen(w, st.lock, u, w.treeDigest(r.result.value.files), more);
        }
      }
    }
  }

  /** An update that is not placed shows in the lock, if that parses. */
  lemma StrayIsSeen(w: World, lock: Lock, u: Update, tree: string, met: seq<Registry>)
    requires Accepted(lock) && GoodDigest(u.digest) && !UpdatePlaced(w, met, u)
    ensures var merged := Merge(lock, [u]);
            LockPlaced(w, met, merged.(packages := PinTree(merged.packages, u, tree))) <==>
            !UniqueKeys(Keep(lock.packages, [u]))
  {
    var merged := Merge(lock, [u]);
    MergeIsAcceptedExactly(lock, [u]);
    TrustFiles.PinTreeSameProblems(merged.packages, u, tree, merged.version);
    var written := WrittenFor(lock.packages, u);
    MergeMeaning(lock, [u], written);
    assert WrittenBy(lock.packages, [u], written);
    var i :| 0 <= i < |merged.packages| && merged.packages[i] == written;
    var pinned := PinTree(merged.packages, u, tree);
    assert pinned[i] in pinned && !EntryPlaced(w, met, pinned[i]);
  }

  lemma VendorUpdatePlaced(w: World, st: State, net: Network, name: string, d: Dependency, met: seq<Registry>)
    requires LockPlaced(w, met, st.lock) && VendorSource(w, st, net, name, d).result.Ok?
    ensures var s := VendorSource(w, st, net, name, d).result.value;
            UpdatePlaced(w, met + [net.registry], VendorUpdate(w, st.lock, name, d, s)) <==>
            (Strays(w, st, name, d) && IsOci(d.spec.oci) ==>
               Placed(w, met + [net.registry], d.spec.oci, d.spec.version, VendorPin(st, name).value.digest))
  {
    if d.spec.Oci? && IsOci(d.spec.oci) {
      VendorPlacesExactly(w, st, net, name, d, met);
    } else if !d.spec.Oci? {
      OtherSources(w, d.spec, "vendored", None, None);
    }
  }

  lemma PinTreePlaced(w: World, met: seq<Registry>, entries: seq<Entry>, u: Update, tree: string)
    requires EntriesPlaced(w, met, entries)
    ensures EntriesPlaced(w, met, PinTree(entries, u, tree))
  {
    var pinned := PinTree(entries, u, tree);
    forall e | e in pinned ensures EntryPlaced(w, met, e) {
      var i :| 0 <= i < |pinned| && pinned[i] == e;
      assert EntryPlaced(w, met, entries[i]);
    }
  }

  // ---------------------------------------------------------------- runs

  function RegistriesOf(step: Step): seq<Registry> {
    match step
    case RenderCommand(net, _) => [net.registry]
    case LockCommand(net) => [net.registry]
    case UpdateCommand(net, _) => [net.registry]
    case VendorAdd(net, _, _) => [net.registry]
    case _ => []
  }

  /** No `vendor add` of the run misplaces an entry. */
  ghost predicate NeverMisplaces(w: World, st: State, steps: seq<Step>, met: seq<Registry>)
    decreases |steps|
  {
    steps == [] || (
      && (steps[0].VendorAdd? ==> !Misplaces(w, st, steps[0].net, steps[0].name, steps[0].dependency, met))
      && NeverMisplaces(w, Apply(w, st, steps[0]), steps[1..], met + RegistriesOf(steps[0])))
  }

  /** The lock is placed now and after every step of the run. */
  ghost predicate AlwaysPlaced(w: World, st: State, steps: seq<Step>, met: seq<Registry>)
    decreases |steps|
  {
    && LockPlaced(w, met, st.lock)
    && (steps == [] || AlwaysPlaced(w, Apply(w, st, steps[0]), steps[1..], met + RegistriesOf(steps[0])))
  }

  lemma StepPlaced(w: World, st: State, step: Step, met: seq<Registry>)
    requires Sound(w, st) && LockPlaced(w, met, st.lock)
    ensures LockPlaced(w, met + RegistriesOf(step), Apply(w, st, step).lock) <==>
            (step.VendorAdd? ==> !Misplaces(w, st, step.net, step.name, step.dependency, met))
  {
    match step
    case Edit(ws) => assert met + [] == met;
    case RenderCommand(net, offline) =>
      OciDependenciesAreVerified(w, net, st, Options(offline, true, AllPins, false));
      if Accepted(st.lock) {
        EntriesPlacedLater(w, met, [net.registry], st.lock.packages);
      }
    case LockCommand(net) => WriteLockPlaced(w, st, net, OciPins, None, met);
    case UpdateCommand(net, dep) => WriteLockPlaced(w, st, net, NoPins, dep, met);
    case VendorAdd(net, name, d) => VendorPlaced(w, st, net, name, d, met);
    case Remove(name) =>
      assert met + [] == met;
      SortKeepsEntries(Unlisted(st.lock.packages, name));
  }

  /**
   * Over every run: at each moment every OCI entry of a lock that parses has a
   * digest some registry met so far offered at that entry's own source and
   * version, or a local tree's own, exactly if no `vendor add` misplaces one.
   */
  lemma {:induction false} RunsKeepEntriesPlaced(w: World, st: State, steps: seq<Step>, met: seq<Registry>)
    requires Sound(w, st) && LockPlaced(w, met, st.lock)
    ensures AlwaysPlaced(w, st, steps, met) <==> NeverMisplaces(w, st, steps, met)
    decreases |steps|
  {
    if steps != [] {
      StepSound(w, st, steps[0]);
      StepPlaced(w, st, steps[0], met);
      var after, more := Apply(w, st, steps[0]), met + RegistriesOf(steps[0]);
      if LockPlaced(w, more, after.lock) {
        RunsKeepEntriesPlaced(w, after, steps[1..], more);
      }
    }
  }

  // ---------------------------------------------------------------- a stray pin

  const REFERENCE := "oci://r/p"
  const BLOB := "sha256:b"

  /** All bytes hash alike, and all trees alike, but not as the bytes do. */
  function PlainWorld(): World {
    World(
      (bytes: Bytes) => BLOB, (pem: string) => None, (bytes: Bytes) => None, (text: string) => None,
      (bytes: Bytes) => None, (pem: string, raw: Bytes, payload: Bytes) => false,
      (bytes: Bytes, gz: bool) => Some(map[]), (files: Files) => "sha256:t",
      (url: string) => url, (url: string) => url, (name: string) => name,
      (files: Files) => files, (name: string, files: Files, crds: string) => None,
      (bytes: Bytes) => None, (p: Provenance) => [])
  }

  function EntryAt(version: string): Entry {
    Entry("d", version, REFERENCE, BLOB, None, None, None, None, None, None, None, None, None)
  }

  /** Version 1 is locked and cached; the manifest may say anything. */
  function LockedAtOne(): State {
    State(
      Workspace(NoKey, [], map[], map[], map[], false), Lock(LOCK_VERSION, [EntryAt("1")]),
      Caches(map[BLOB := map[]], map[], map[], map[]), {})
  }

  function Silent(): Network {
    Network(Registry(map[], map[]), map[], map[], map[])
  }

  lemma NothingIsPlacedHere(met: seq<Registry>, source: string, version: string)
    ensures !Placed(PlainWorld(), met, source, version, BLOB)
  {
    assert BLOB[7] != "sha256:t"[7];
  }

  /**
   * The exception happens: `vendor add` of version 2, with no registry to ask,
   * records version 2 with the bytes locked for version 1, in a lock that parses.
   */
  lemma StrayPinExample(met: seq<Registry>)
    ensures var w, st := PlainWorld(), LockedAtOne();
            var d := Dependency(Oci(REFERENCE, "2"), None, None);
            var after := Apply(w, st, VendorAdd(Silent(), "d", d)).lock;
            && Accepted(st.lock) && Misplaces(w, st, Silent(), "d", d, met)
            && Accepted(after) && |after.packages| == 1
            && after.packages[0].version == "2" && after.packages[0].digest == st.lock.packages[0].digest
            && !EntryPlaced(w, met, after.packages[0])
  {
    var w, st := PlainWorld(), LockedAtOne();
    var d := Dependency(Oci(REFERENCE, "2"), None, None);
    LockedAtOneIsAccepted();
    ReferenceIsValid();
    assert VendorPin(st, "d") == Some(EntryAt("1"));
    VendorFindsOld(w, st, d);
    KeepsNone(st.lock, StrayUpdate(w, st, "d", d));
    VendoredAtTwo(w, st, d);
    NothingIsPlacedHere(met, REFERENCE, "2");
    NothingIsPlacedHere(met + [Silent().registry], REFERENCE, "2");
  }

  lemma LockedAtOneIsAccepted()
    ensures Accepted(LockedAtOne().lock) && IsOci(REFERENCE) && "2" != "1"
  {
    assert BLOB[..7] == "sha256:" && REFERENCE[..6] == "oci://";
    assert "2"[0] != "1"[0];
  }

  lemma ReferenceIsValid()
    ensures ValidReference(REFERENCE)
  {
    assert REFERENCE[..6] == "oci://" && REFERENCE[7] == '/' && |REFERENCE| == 9;
    assert forall j | 6 <= j < 7 :: REFERENCE[j] != '/';
  }

  lemma VendoredAtTwo(w: World, st: State, d: Dependency)
    requires w == PlainWorld() && st == LockedAtOne() && d == Dependency(Oci(REFERENCE, "2"), None, None)
    requires Accepted(st.lock) && ValidReference(REFERENCE) && VendorPin(st, "d") == Some(EntryAt("1")) && "2" != "1"
    ensures var after := Vendor(w, st, Silent(), "d", d).lock;
            && Accepted(after) && |after.packages| == 1
            && after.packages[0].version == "2" && after.packages[0].source == REFERENCE
            && after.packages[0].digest == BLOB
  {
    VendorFindsOld(w, st, d);
    var u := VendorUpdate(w, st.lock, "d", d, Source(BLOB, None, map[]));
    assert u.name == "d" && u.version == "2" && u.digest == BLOB && u.source == REFERENCE;
    MergedAtTwo(st.lock, u);
    PinnedAtTwo(u, w.treeDigest(map[]));
  }

  lemma VendorFindsOld(w: World, st: State, d: Dependency)
    requires w == PlainWorld() && st == LockedAtOne() && d == Dependency(Oci(REFERENCE, "2"), None, None)
    requires Accepted(st.lock) && ValidReference(REFERENCE) && VendorPin(st, "d") == Some(EntryAt("1"))
    ensures VendorSource(w, st, Silent(), "d", d) == Resolution(Ok(Source(BLOB, None, map[])), st)
  {
  }

  lemma PinnedAtTwo(u: Update, tree: string)
    requires u.digest == BLOB
    ensures Accepted(Lock(LOCK_VERSION, PinTree([WrittenFor([], u)], u, tree)))
  {
    assert BLOB[..7] == "sha256:";
  }

  lemma KeepsNone(lock: Lock, u: Update)
    requires lock == LockedAtOne().lock && u.name == "d" && u.version == "2" && "2" != "1"
    ensures Keep(lock.packages, [u]) == []
  {
    assert u in [u] && !Kept(lock.packages[0], [u]);
    assert lock.packages[1..] == [];
  }

  lemma MergedAtTwo(lock: Lock, u: Update)
    requires lock == LockedAtOne().lock && u.name == "d" && u.version == "2" && "2" != "1"
    ensures Merge(lock, [u]) == Lock(LOCK_VERSION, [WrittenFor([], u)])
  {
    KeepsNone(lock, u);
    assert [u][..0] == [];
    var written := WrittenFor([], u);
    assert UpsertAll([], [u]) == Upsert(UpsertAll([], [u][..0]), u) == [written];
    assert [written][1..] == [] && Sort([written][1..]) == [];
    assert Sort([written]) == Insert(written, []) == [written];
  }
}
