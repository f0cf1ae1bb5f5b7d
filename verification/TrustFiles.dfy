/**
 * From digests to files: what the trees returned under a signing key have to
 * do with the bytes that key verified, over every run of commands. Trees are
 * compared by their digests, as the program compares them.
 */
module TrustFiles {
  import opened Common
  import opened Lockfile
  import opened Oci
  import opened Trust

  // ---------------------------------------------------------------- vocabulary

  /** Some bytes have this digest. */
  ghost predicate IsBlob(w: World, digest: string) {
    exists blob :: w.sha256(blob) == digest
  }

  /** No byte string hashes to what looks like a git commit. */
  ghost predicate HashesAreNotCommits(w: World) {
    forall blob :: !StartsWith(w.sha256(blob), "git:")
  }

  /** A tree of one file, which is the blob itself: what a URL is cached as. */
  ghost predicate IsFile(w: World, digest: string, files: Files) {
    exists name :: name in files && files == map[name := files[name]] && w.sha256(files[name]) == digest
  }

  /** The one directory of what a blob with this digest unpacks to. */
  ghost predicate IsScoped(w: World, digest: string, files: Files) {
    exists whole :: Addressed(w, digest, whole) && files == w.scope(whole)
  }

  /** The tree is what a blob with this digest unpacks to, a directory of that, or the blob as a file. */
  ghost predicate Derived(w: World, digest: string, files: Files) {
    Addressed(w, digest, files) || IsScoped(w, digest, files) || IsFile(w, digest, files)
  }

  /** `tree` is the digest of a tree derived from a blob with this digest. */
  ghost predicate Backs(w: World, digest: string, tree: string) {
    exists files :: Derived(w, digest, files) && w.treeDigest(files) == tree
  }

  /** The tree is that of the digest: it is its own, or its blob's. */
  ghost predicate Backed(w: World, digest: string, tree: Files) {
    w.treeDigest(tree) == digest || Backs(w, digest, w.treeDigest(tree))
  }

  /** The files are such a tree, or the directory it consists of. */
  ghost predicate Yields(w: World, digest: string, files: Files) {
    exists tree :: Backed(w, digest, tree) && (files == tree || files == w.scope(tree))
  }

  /** What `source.toml` is written as reads back. */
  ghost predicate ProvenanceReads(w: World) {
    forall p :: w.readProvenance(w.writeProvenance(p)) == Some(p)
  }

  /** `tree` holds the schemas generated from `source`, stamped with `p`, whose digest that source belongs to. */
  ghost predicate MadeFrom(w: World, tree: Files, p: Provenance, source: Files) {
    && w.generate(p.dependency, source, p.crds).Some?
    && tree == Stamped(w, w.generate(p.dependency, source, p.crds).value, p)
    && (IsBlob(w, p.digest) ==> Yields(w, p.digest, source))
  }

  /** A recorded schema digest is that of a tree made that way. */
  ghost predicate SchemasMade(w: World, crdsDigest: Option<string>) {
    crdsDigest.Some? ==>
      exists tree, p, source :: MadeFrom(w, tree, p, source) && w.treeDigest(tree) == crdsDigest.value
  }

  /** Another tree has the same digest. */
  ghost predicate Collides(w: World, tree: Files) {
    exists other :: other != tree && w.treeDigest(other) == w.treeDigest(tree)
  }

  /** A recorded vendor digest belongs to the recorded blob. */
  ghost predicate TreeBacked(w: World, e: Entry) {
    e.vendorDigest.Some? && IsBlob(w, e.digest) ==> Backs(w, e.digest, e.vendorDigest.value)
  }

  ghost predicate EntryBacked(w: World, e: Entry) {
    TreeBacked(w, e) && SchemasMade(w, e.crdsDigest)
  }

  ghost predicate TreesBacked(w: World, packages: seq<Entry>) {
    forall e :: e in packages ==> EntryBacked(w, e)
  }

  ghost predicate UrlsSound(w: World, cache: map<string, Files>) {
    forall d :: d in cache ==> IsFile(w, d, cache[d])
  }

  /** What was verified was there: each digest in the record is a blob's. */
  ghost predicate LogBlobs(w: World, log: set<Evidence>) {
    forall e :: e in log ==> IsBlob(w, e.digest)
  }

  ghost predicate Stores(w: World, st: State) {
    UrlsSound(w, st.caches.url) && CacheSound(w, st.caches.helm) && LogBlobs(w, st.log)
  }

  ghost predicate FilesSound(w: World, st: State) {
    Stores(w, st) && (Accepted(st.lock) ==> TreesBacked(w, st.lock.packages))
  }

  lemma AddressedIsBlob(w: World, digest: string, files: Files)
    requires Addressed(w, digest, files)
    ensures IsBlob(w, digest) && Backs(w, digest, w.treeDigest(files))
  {
    var blob, gz :| w.sha256(blob) == digest && w.unpack(blob, gz) == Some(files);
    assert Derived(w, digest, files);
  }

  lemma AttestedIsBlob(w: World, log: set<Evidence>, ref: string, digest: string)
    requires LogBlobs(w, log) && Attested(log, ref, digest)
    ensures IsBlob(w, digest)
  {
  }

  // ---------------------------------------------------------------- fetches

  lemma PullStores(w: World, net: Registry, cache: map<string, Files>, log: set<Evidence>, req: PullRequest)
    requires LogBlobs(w, log)
    ensures LogBlobs(w, Pull(w, net, cache, log, req).log)
  {
    if Fetch(w, net, req).Ok? {
      FetchSound(w, net, req);
      var d := Fetch(w, net, req).value;
      AddressedIsBlob(w, d.digest, d.files);
    }
  }

  lemma FetchUrlStores(w: World, net: Network, cache: map<string, Files>, s: Spec, pin: Option<string>, offline: bool)
    requires s.Url? && UrlsSound(w, cache)
    ensures var (r, cache') := FetchUrl(w, net, cache, s, pin, offline);
            && UrlsSound(w, cache')
            && (r.Ok? ==> IsFile(w, r.value.digest, r.value.files))
  {
    if s.url in net.urls {
      var name, bytes := w.urlFileName(s.url), net.urls[s.url];
      var files: Files := map[name := bytes];
      assert files == map[name := files[name]];
      assert IsFile(w, w.sha256(bytes), files);
    }
  }

  lemma FetchHelmStores(w: World, net: Network, cache: map<string, Files>, s: Spec, pin: Option<string>, offline: bool)
    requires s.Helm? && CacheSound(w, cache)
    ensures var (r, cache') := FetchHelm(w, net, cache, s, pin, offline);
            && CacheSound(w, cache')
            && (r.Ok? ==> Addressed(w, r.value.digest, r.value.files))
  {
    var at := (s.repo, s.chart, s.requirement);
    if at in net.helm {
      var tarball := net.helm[at].tarball;
      var files := w.unpack(tarball, true);
      if files.Some? {
        assert Addressed(w, w.sha256(tarball), files.value);
      }
    }
  }

  /** What a source without a signing layer gives, for those that have a blob. */
  ghost predicate FetchedAs(w: World, digest: string, tree: Files) {
    IsBlob(w, digest) ==> Backed(w, digest, tree)
  }

  lemma DerivedIsBacked(w: World, digest: string, tree: Files)
    requires Derived(w, digest, tree)
    ensures Backed(w, digest, tree)
  {
  }

  lemma CommitIsNoBlob(w: World, digest: string)
    requires HashesAreNotCommits(w) && StartsWith(digest, "git:")
    ensures !IsBlob(w, digest)
  {
  }

  /** What one unsigned fetch leaves and returns. */
  ghost predicate FetchBacked(w: World, r: Resolution<Resolved>) {
    Stores(w, r.state) && (r.result.Ok? ==> SourceAs(w, r.result.value))
  }

  lemma HelmIsBacked(w: World, net: Network, st: State, req: Request)
    requires Stores(w, st) && req.dependency.spec.Helm?
    ensures FetchBacked(w, FetchUnsigned(w, net, st, req))
  {
    var s := req.dependency.spec;
    var pin := if req.pinned.Some? then Some(req.pinned.value.digest) else None;
    FetchHelmStores(w, net, st.caches.helm, s, pin, req.options.offline);
    var r := FetchHelm(w, net, st.caches.helm, s, pin, req.options.offline).0;
    if r.Ok? {
      DerivedIsBacked(w, r.value.digest, r.value.files);
    }
  }

  lemma GitIsBacked(w: World, net: Network, st: State, req: Request)
    requires HashesAreNotCommits(w) && Stores(w, st) && req.dependency.spec.Git?
    ensures FetchBacked(w, FetchUnsigned(w, net, st, req))
  {
    var pin := if req.pinned.Some? then Some(req.pinned.value.digest) else None;
    var r := FetchGit(net, st.caches.git, req.dependency.spec, GitPin(pin), req.options.offline).0;
    if r.Ok? {
      assert StartsWith(r.value.digest, "git:");
      CommitIsNoBlob(w, r.value.digest);
    }
  }

  lemma UrlIsBacked(w: World, net: Network, st: State, req: Request)
    requires Stores(w, st) && req.dependency.spec.Url?
    ensures FetchBacked(w, FetchUnsigned(w, net, st, req))
  {
    var s := req.dependency.spec;
    var pin := if req.pinned.Some? then Some(req.pinned.value.digest) else None;
    FetchUrlStores(w, net, st.caches.url, s, pin, req.options.offline);
    var r := FetchUrl(w, net, st.caches.url, s, pin, req.options.offline).0;
    if r.Ok? {
      DerivedIsBacked(w, r.value.digest, r.value.files);
    }
  }

  /** The files of a dependency resolved from its source belong to its digest, if that is a blob's. */
  ghost predicate SourceAs(w: World, r: Resolved) {
    IsBlob(w, r.digest) ==> Yields(w, r.digest, r.files)
  }

  lemma EnteredYields(w: World, req: Request, tree: Files, digest: string, locked: Record)
    requires FetchedAs(w, digest, tree)
    ensures SourceAs(w, Entered(w, req, tree, digest, locked))
  {
  }

  lemma FetchedIsBacked(w: World, net: Network, st: State, req: Request)
    requires Sound(w, st) && Stores(w, st) && RequestSound(w, st, req) && req.dependency.spec.Oci?
    ensures var r := FetchOci(w, net, st, req);
            && Stores(w, r.state)
            && (r.result.Ok? ==> SourceAs(w, r.result.value))
  {
    var pull := OciRequest(req);
    assert pull.pin.Some? && pull.lockedSignature.Some? ==>
      Attested(st.log, pull.lockedSignature.value, pull.pin.value);
    PullSound(w, net.registry, st.caches.oci, st.log, pull);
    PullStores(w, net.registry, st.caches.oci, st.log, pull);
    var o := Pull(w, net.registry, st.caches.oci, st.log, pull);
    if o.result.Ok? {
      AddressedIsBlob(w, o.result.value.digest, o.result.value.files);
    }
  }

  // ---------------------------------------------------------------- resolution

  /** The entry a dependency is checked against comes from an accepted lock. */
  ghost predicate FromAccepted(st: State, req: Request) {
    req.locked.Some? ==> Accepted(st.lock) && req.locked.value in st.lock.packages
  }

  /** A vendored tree belongs to the digest it is reported with. */
  lemma VendoredIsBacked(w: World, st: State, req: Request)
    requires HashesAreNotCommits(w) && FilesSound(w, st) && FromAccepted(st, req) && req.name in st.ws.vendor
    requires FromVendor(w, st, req).result.Ok?
    ensures SourceAs(w, FromVendor(w, st, req).result.value)
  {
    var files := st.ws.vendor[req.name];
    var digest := VendoredDigest(w, req.dependency.spec, req.locked, files);
    if req.locked.Some? && req.locked.value.vendorDigest == Some(w.treeDigest(files)) {
      assert EntryBacked(w, req.locked.value);
    } else if req.dependency.spec.Git? {
      assert StartsWith(digest, "git:");
      CommitIsNoBlob(w, digest);
    }
    EnteredYields(w, req, files, digest, Declared(w, req.dependency.spec));
  }

  /**
   * Whatever a dependency is resolved from, a fork, a vendored tree, a cache or
   * a remote: its files belong to the digest reported, if that is a blob's.
   */
  lemma SourceIsBacked(w: World, net: Network, st: State, req: Request)
    requires HashesAreNotCommits(w) && Sound(w, st) && FilesSound(w, st)
    requires RequestSound(w, st, req) && FromAccepted(st, req)
    ensures var r := ResolveSourceTree(w, net, st, req);
            && Stores(w, r.state)
            && (r.result.Ok? ==> SourceAs(w, r.result.value))
  {
    var d := req.dependency;
    if d.replace.Some? || (d.spec.Path? && req.name !in st.ws.vendor) {
      WorkspaceIsBacked(w, st, req);
    } else if !d.spec.Helm? && req.name in st.ws.vendor {
      if FromVendor(w, st, req).result.Ok? {
        VendoredIsBacked(w, st, req);
      }
    } else if d.spec.Oci? {
      FetchedIsBacked(w, net, st, req);
    } else if d.spec.Helm? {
      HelmIsBacked(w, net, st, req);
    } else if d.spec.Git? {
      GitIsBacked(w, net, st, req);
    } else {
      UrlIsBacked(w, net, st, req);
    }
  }

  lemma WorkspaceIsBacked(w: World, st: State, req: Request)
    ensures forall path, record ::
              var r := FromWorkspacePath(w, st, req, path, record);
              r.state == st && (r.result.Ok? ==> SourceAs(w, r.result.value))
  {
    forall path, record
      ensures var r := FromWorkspacePath(w, st, req, path, record);
              r.state == st && (r.result.Ok? ==> SourceAs(w, r.result.value))
    {
      if path in st.ws.paths {
        EnteredYields(w, req, st.ws.paths[path], w.treeDigest(st.ws.paths[path]), record);
      }
    }
  }

  // ---------------------------------------------------------------- generated schemas

  /** Schemas made from a source that belongs to the digest reported with them. */
  ghost predicate SchemasOf(w: World, r: Resolved) {
    exists p, source :: MadeFrom(w, r.files, p, source) && p.digest == r.digest
  }

  /**
   * Generated schemas that are used were made from the bytes whose digest is
   * reported with them, or their tree digest has a collision: the digest the
   * lock records covers the `source.toml` beside the schemas, so it fixes the
   * source they name, even where `vendor add` kept it for other bytes.
   */
  lemma GeneratedIsBacked(w: World, st: State, req: Request, files: Files)
    requires ProvenanceReads(w) && FilesSound(w, st) && FromAccepted(st, req)
    requires req.dependency.crds.Some? && PROVENANCE_FILE in files && FromGenerated(w, st, req, files).result.Ok?
    ensures var r := FromGenerated(w, st, req, files).result.value;
            SchemasOf(w, r) || Collides(w, r.files)
  {
    var entry := req.locked.value;
    assert EntryBacked(w, entry);
    var tree, p, source :| MadeFrom(w, tree, p, source) && w.treeDigest(tree) == entry.crdsDigest.value;
    if tree == files {
      assert files[PROVENANCE_FILE] == w.writeProvenance(p);
    } else {
      assert Collides(w, files);
    }
  }

  // ---------------------------------------------------------------- under a key

  /**
   * What the files of a returned dependency have to do with its digest, for
   * an OCI dependency that is not a fork: they are that blob's, or schemas
   * made from that blob's files.
   */
  ghost predicate FilesAs(w: World, d: Dependency, key: Option<string>, r: Resolved) {
    d.spec.Oci? && d.replace.None? && key.Some? ==>
      || Yields(w, r.digest, r.files)
      || (d.crds.Some? && IsBlob(w, r.digest) && (SchemasOf(w, r) || Collides(w, r.files)))
  }

  lemma DependencyIsBacked(
    w: World, net: Network, st: State, o: Options, name: string, d: Dependency, key: Option<string>)
    requires HashesAreNotCommits(w) && ProvenanceReads(w) && Sound(w, st) && FilesSound(w, st)
    requires key.Some? ==> w.keyRef(key.value).Some?
    ensures var req := RequestFor(w, st, o, name, d, key);
            var r := ResolveDependency(w, net, st, req);
            && Stores(w, r.state)
            && (r.result.Ok? ==> FilesAs(w, d, key, r.result.value))
            && (r.result.Ok? && !UsesGenerated(w, st, req) ==> SourceAs(w, r.result.value))
  {
    var req := RequestFor(w, st, o, name, d, key);
    RequestForSound(w, st, o, name, d, key);
    ResolveDependencySound(w, net, st, req);
    var r := ResolveDependency(w, net, st, req);
    if UsesGenerated(w, st, req) {
      if r.result.Ok? {
        GeneratedIsBacked(w, st, req, st.ws.generated[w.kclIdent(name)]);
      }
    } else {
      SourceIsBacked(w, net, st, req);
    }
    if r.result.Ok? && d.spec.Oci? && d.replace.None? && key.Some? {
      VerifiedIsBlob(w, r.state.log, r.result.value, req.trusted);
    }
  }

  lemma VerifiedIsBlob(w: World, log: set<Evidence>, r: Resolved, trusted: Option<string>)
    requires LogBlobs(w, log) && RecordSound(log, r) && r.locked.signature == trusted && trusted.Some?
    ensures IsBlob(w, r.digest)
  {
    AttestedIsBlob(w, log, trusted.value, r.digest);
  }

  /** What one resolution says of the files it returns. */
  ghost predicate AllFilesAs(
    w: World, deps: seq<(string, Dependency)>, key: Option<string>, regenerate: bool, resolved: seq<Resolved>) {
    && |resolved| == |deps|
    && (forall i :: 0 <= i < |deps| ==> FilesAs(w, deps[i].1, key, resolved[i]))
    && (regenerate ==> forall i :: 0 <= i < |deps| ==> SourceAs(w, resolved[i]))
  }

  lemma {:induction false} ResolveAllFiles(
    w: World, net: Network, st: State, o: Options, deps: seq<(string, Dependency)>, key: Option<string>)
    requires HashesAreNotCommits(w) && ProvenanceReads(w) && Sound(w, st) && FilesSound(w, st)
    requires key.Some? ==> w.keyRef(key.value).Some?
    ensures var r := ResolveAll(w, net, st, o, deps, key);
            && FilesSound(w, r.state)
            && (r.result.Ok? ==> AllFilesAs(w, deps, key, o.regenerateCrds, r.result.value))
    decreases |deps|
  {
    if deps != [] {
      var req := RequestFor(w, st, o, deps[0].0, deps[0].1, key);
      RequestForSound(w, st, o, deps[0].0, deps[0].1, key);
      ResolveDependencySound(w, net, st, req);
      DependencyIsBacked(w, net, st, o, deps[0].0, deps[0].1, key);
      var first := ResolveDependency(w, net, st, req);
      if first.result.Ok? {
        ResolveAllFiles(w, net, first.state, o, deps[1..], key);
        var rest := ResolveAll(w, net, first.state, o, deps[1..], key);
        if rest.result.Ok? {
          InOrder(w, deps, key, o.regenerateCrds, first.result.value, rest.result.value);
        }
      }
    }
  }

  lemma InOrder(
    w: World, deps: seq<(string, Dependency)>, key: Option<string>, regenerate: bool, first: Resolved,
    rest: seq<Resolved>)
    requires deps != [] && FilesAs(w, deps[0].1, key, first) && (regenerate ==> SourceAs(w, first))
    requires AllFilesAs(w, deps[1..], key, regenerate, rest)
    ensures AllFilesAs(w, deps, key, regenerate, [first] + rest)
  {
    var all := [first] + rest;
    forall i | 0 <= i < |deps| ensures FilesAs(w, deps[i].1, key, all[i]) && (regenerate ==> SourceAs(w, all[i])) {
      if i > 0 {
        assert deps[1..][i - 1] == deps[i] && all[i] == rest[i - 1];
        assert FilesAs(w, deps[1..][i - 1].1, key, rest[i - 1]);
      }
    }
  }

  /** With a signing key, every OCI dependency a resolution returns without a fork is what the key verified. */
  lemma VerifiedFilesAreBacked(w: World, net: Network, st: State, o: Options)
    requires HashesAreNotCommits(w) && ProvenanceReads(w) && Sound(w, st) && FilesSound(w, st)
    ensures var r := ResolvePackage(w, net, st, o);
            && FilesSound(w, r.state)
            && (r.result.Ok? ==>
                  AllFilesAs(w, st.ws.dependencies, ActiveKey(st.ws, o), o.regenerateCrds, r.result.value))
  {
    var key := ActiveKey(st.ws, o);
    if key.Some? ==> w.keyRef(key.value).Some? {
      ResolveAllFiles(w, net, st, o, st.ws.dependencies, key);
    }
  }

  // ---------------------------------------------------------------- what merges carry

  /**
   * A vendor digest is carried only beside the digest it was recorded with,
   * whatever the source is now; a schema digest comes with the update.
   */
  lemma CarriedIsBacked(w: World, packages: seq<Entry>, u: Update)
    requires TreesBacked(w, packages) && SchemasMade(w, u.crdsDigest)
    ensures EntryBacked(w, WrittenFor(packages, u))
  {
    var previous := Previous(packages, u);
    if previous.Some? {
      assert EntryBacked(w, previous.value);
    }
  }

  ghost predicate UpdatesMade(w: World, updates: seq<Update>) {
    forall u :: u in updates ==> SchemasMade(w, u.crdsDigest)
  }

  lemma {:induction false} UpsertAllBacked(w: World, packages: seq<Entry>, updates: seq<Update>)
    requires TreesBacked(w, packages) && UpdatesMade(w, updates)
    ensures TreesBacked(w, UpsertAll(packages, updates))
  {
    if updates != [] {
      var n := |updates| - 1;
      var p, u := UpsertAll(packages, updates[..n]), updates[n];
      UpsertAllBacked(w, packages, updates[..n]);
      CarriedIsBacked(w, p, u);
      forall e | e in Upsert(p, u) ensures EntryBacked(w, e) {
        UpsertMembers(p, u, e);
        if Matches(e, u) && Later(p, u, e) {
          LaterIsMember(p, u, e);
        }
      }
    }
  }

  lemma MergeBacked(w: World, lock: Lock, updates: seq<Update>)
    requires TreesBacked(w, lock.packages) && UpdatesMade(w, updates)
    ensures TreesBacked(w, Merge(lock, updates).packages)
  {
    var kept := Keep(lock.packages, updates);
    KeepMembers(lock.packages, updates);
    UpsertAllBacked(w, kept, updates);
    SortKeepsEntries(UpsertAll(kept, updates));
  }

  /** Schemas a command generates are made from the files it resolved. */
  lemma UpdateIsMade(w: World, r: Resolved)
    requires SourceAs(w, r)
    ensures SchemasMade(w, UpdateOf(w, r).crdsDigest)
  {
    var schemas := Schemas(w, r);
    if schemas.Some? {
      assert MadeFrom(w, schemas.value, ProvenanceOf(r), r.files);
    }
  }

  // ---------------------------------------------------------------- vendoring

  /** What `vendor add` copies belongs to the digest it records: for sources that have a blob. */
  lemma VendorSourceBacked(w: World, st: State, net: Network, name: string, d: Dependency)
    requires HashesAreNotCommits(w) && Sound(w, st) && Stores(w, st)
    ensures var r := VendorSource(w, st, net, name, d);
            && Stores(w, r.state)
            && (r.result.Ok? ==> FetchedAs(w, r.result.value.digest, r.result.value.files))
  {
    if d.spec.Oci? {
      VendorPullBacked(w, st, net, name, d);
    } else if d.spec.Url? {
      var locked := LockedByPrefix(Loaded(st.lock), name, "url+");
      var pin := if locked.None? then None else Some(locked.value.digest);
      FetchUrlStores(w, net, st.caches.url, d.spec, pin, false);
      var r := FetchUrl(w, net, st.caches.url, d.spec, pin, false).0;
      if r.Ok? {
        DerivedIsBacked(w, r.value.digest, r.value.files);
      }
    } else if d.spec.Git? {
      var r := VendorFetch(w, st, net, name, d.spec).0;
      if r.Ok? {
        assert StartsWith(r.value.digest, "git:");
        CommitIsNoBlob(w, r.value.digest);
      }
    }
  }

  lemma VendorPullBacked(w: World, st: State, net: Network, name: string, d: Dependency)
    requires Sound(w, st) && Stores(w, st) && d.spec.Oci?
    ensures var r := VendorSource(w, st, net, name, d);
            && Stores(w, r.state)
            && (r.result.Ok? ==> FetchedAs(w, r.result.value.digest, r.result.value.files))
  {
    var pull := VendorRequest(st, name, d);
    PullSound(w, net.registry, st.caches.oci, st.log, pull);
    PullStores(w, net.registry, st.caches.oci, st.log, pull);
    var o := Pull(w, net.registry, st.caches.oci, st.log, pull);
    if o.result.Ok? {
      assert IsScoped(w, o.result.value.digest, w.scope(o.result.value.files));
    }
  }

  lemma PinTreeSameProblems(entries: seq<Entry>, u: Update, tree: string, version: int)
    ensures Accepted(Lock(version, PinTree(entries, u, tree))) <==> Accepted(Lock(version, entries))
  {
    var pinned := PinTree(entries, u, tree);
    forall i | 0 <= i < |entries| ensures EntryProblem(pinned, i) == EntryProblem(entries, i) {
      SameProblem(pinned, entries, i);
    }
  }

  /** Pinning a tree marks one entry: the update's own, when no key is repeated. */
  lemma PinTreeBacked(w: World, entries: seq<Entry>, u: Update, written: Entry, tree: string)
    requires TreesBacked(w, entries) && UniqueKeys(entries) && written in entries
    requires Matches(written, u) && written.digest == u.digest
    requires IsBlob(w, u.digest) ==> u.digest == tree || Backs(w, u.digest, tree)
    ensures TreesBacked(w, PinTree(entries, u, tree))
  {
    var pinned := PinTree(entries, u, tree);
    forall e | e in pinned ensures EntryBacked(w, e) {
      var i :| 0 <= i < |pinned| && pinned[i] == e;
      assert EntryBacked(w, entries[i]);
      if Matches(entries[i], u) {
        var j :| 0 <= j < |entries| && entries[j] == written;
        assert i == j;
      }
    }
  }

  lemma VendorBacked(w: World, st: State, net: Network, name: string, d: Dependency)
    requires HashesAreNotCommits(w) && Sound(w, st) && FilesSound(w, st)
    ensures FilesSound(w, Vendor(w, st, net, name, d))
  {
    VendorSourceSound(w, st, net, name, d);
    VendorSourceBacked(w, st, net, name, d);
    var r := VendorSource(w, st, net, name, d);
    if r.result.Ok? && Accepted(st.lock) {
      var u := VendorUpdate(w, st.lock, name, d, r.result.value);
      var tree := w.treeDigest(r.result.value.files);
      VendorUpdateMade(w, st.lock, name, d, r.result.value);
      PinnedLockBacked(w, st.lock, u, tree);
    }
  }

  /** `vendor add` keeps the schema digest of the entry it overwrites. */
  lemma VendorUpdateMade(w: World, lock: Lock, name: string, d: Dependency, s: Source)
    requires TreesBacked(w, lock.packages)
    ensures SchemasMade(w, VendorUpdate(w, lock, name, d, s).crdsDigest)
  {
    var record := Declared(w, d.spec);
    var held := Previous(lock.packages, Update(name, record.version, record.source, s.digest, None, s.signature, None));
    if held.Some? {
      assert EntryBacked(w, held.value);
    }
  }

  lemma PinnedLockBacked(w: World, lock: Lock, u: Update, tree: string)
    requires Accepted(lock) && TreesBacked(w, lock.packages) && SchemasMade(w, u.crdsDigest)
    requires IsBlob(w, u.digest) ==> u.digest == tree || Backs(w, u.digest, tree)
    ensures var merged := Merge(lock, [u]);
            var pinned := merged.(packages := PinTree(merged.packages, u, tree));
            Accepted(pinned) ==> TreesBacked(w, pinned.packages)
  {
    var merged := Merge(lock, [u]);
    MergeBacked(w, lock, [u]);
    PinTreeSameProblems(merged.packages, u, tree, merged.version);
    if Accepted(merged) {
      MergeMeaning(lock, [u], WrittenFor(lock.packages, u));
      assert WrittenBy(lock.packages, [u], WrittenFor(lock.packages, u));
      AcceptedSortedIsUnique(merged);
      PinTreeBacked(w, merged.packages, u, WrittenFor(lock.packages, u), tree);
    }
  }

  lemma AcceptedSortedIsUnique(lock: Lock)
    requires Accepted(lock) && WeaklySorted(lock.packages)
    ensures UniqueKeys(lock.packages)
  {
    forall i | 0 < i < |lock.packages| ensures !SameKey(lock.packages[i], lock.packages[i - 1]) {
      assert EntryProblem(lock.packages, i).None?;
    }
    NeighboursAreEnough(lock.packages);
  }

  // ---------------------------------------------------------------- runs

  lemma WriteLockBacked(w: World, st: State, net: Network, pins: PinScope, dep: Option<string>)
    requires HashesAreNotCommits(w) && ProvenanceReads(w) && Sound(w, st) && FilesSound(w, st)
    ensures FilesSound(w, WriteLock(w, st, net, pins, dep))
  {
    var o := Options(false, true, pins, true);
    VerifiedFilesAreBacked(w, net, st, o);
    OciDependenciesAreVerified(w, net, st, o);
    var r := ResolvePackage(w, net, st, o);
    if r.result.Ok? {
      var chosen := Selected(r.result.value, dep);
      var updates := UpdatesOf(w, chosen);
      forall u | u in updates ensures SchemasMade(w, u.crdsDigest) {
        var i :| 0 <= i < |updates| && updates[i] == u;
        assert chosen[i] in r.result.value;
        var j :| 0 <= j < |r.result.value| && r.result.value[j] == chosen[i];
        UpdateIsMade(w, chosen[i]);
      }
      MergeBacked(w, Prior(st.lock), updates);
    }
  }

  lemma RemoveBacked(w: World, st: State, name: string)
    requires FilesSound(w, st)
    ensures FilesSound(w, RemoveDependency(w, st, name))
  {
    SortKeepsEntries(Unlisted(st.lock.packages, name));
  }

  lemma StepBacked(w: World, st: State, step: Step)
    requires HashesAreNotCommits(w) && ProvenanceReads(w) && Sound(w, st) && FilesSound(w, st)
    ensures FilesSound(w, Apply(w, st, step))
  {
    match step
    case Edit(ws) =>
    case RenderCommand(net, offline) => VerifiedFilesAreBacked(w, net, st, Options(offline, true, AllPins, false));
    case LockCommand(net) => WriteLockBacked(w, st, net, OciPins, None);
    case UpdateCommand(net, dep) => WriteLockBacked(w, st, net, NoPins, dep);
    case VendorAdd(net, name, d) => VendorBacked(w, st, net, name, d);
    case Remove(name) => RemoveBacked(w, st, name);
  }

  /**
   * Over every run, changes of source included: a vendor digest in a lock that
   * parses stays the digest of a tree derived from the blob recorded beside
   * it, and a schema digest that of schemas made from the bytes they name.
   */
  lemma {:induction false} RunsKeepFilesBacked(w: World, st: State, steps: seq<Step>)
    requires HashesAreNotCommits(w) && ProvenanceReads(w) && Sound(w, st) && FilesSound(w, st)
    ensures Sound(w, Run(w, st, steps)) && FilesSound(w, Run(w, st, steps))
    decreases |steps|
  {
    if steps != [] {
      StepSound(w, st, steps[0]);
      StepBacked(w, st, steps[0]);
      RunsKeepFilesBacked(w, Apply(w, st, steps[0]), steps[1..]);
    }
  }

  /**
   * After every run from a fresh workspace: whatever the next resolution under
   * a key returns for an OCI dependency without a fork, its files are those of
   * the digest the key verified, or schemas made from them.
   */
  lemma NoRunVouchesForOtherFiles(w: World, ws: Workspace, steps: seq<Step>, net: Network, o: Options)
    requires HashesAreNotCommits(w) && ProvenanceReads(w)
    ensures var st := Run(w, State(ws, EMPTY_LOCK, Caches(map[], map[], map[], map[]), {}), steps);
            var r := ResolvePackage(w, net, st, o).result;
            r.Ok? ==> AllFilesAs(w, st.ws.dependencies, ActiveKey(st.ws, o), o.regenerateCrds, r.value)
  {
    var start := State(ws, EMPTY_LOCK, Caches(map[], map[], map[], map[]), {});
    RunsKeepFilesBacked(w, start, steps);
    VerifiedFilesAreBacked(w, net, Run(w, start, steps), o);
  }
}
