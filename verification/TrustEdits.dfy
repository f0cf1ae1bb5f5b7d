/**
 * `remove` and `vendor add`: exactly what they write, when the lock still
 * parses afterwards, and what the next resolution makes of a vendored tree.
 */
module TrustEdits {
  import opened Common
  import opened Lockfile
  import opened Oci
  import opened Trust
  import opened TrustPins
  import opened TrustRecords
  import opened TrustReplay
  import TrustFiles

  // ---------------------------------------------------------------- remove

  lemma {:induction false} UndeclaredMeaning(deps: seq<(string, Dependency)>, name: string)
    ensures forall d :: multiset(Undeclared(deps, name))[d] == if d.0 == name then 0 else multiset(deps)[d]
  {
    if deps != [] {
      UndeclaredMeaning(deps[1..], name);
      assert deps == [deps[0]] + deps[1..];
      assert [] + Undeclared(deps[1..], name) == Undeclared(deps[1..], name);
    }
  }

  lemma {:induction false} UnlistedCount(packages: seq<Entry>, name: string, other: string)
    ensures NameCount(Unlisted(packages, name), other) == if other == name then 0 else NameCount(packages, other)
  {
    if packages != [] {
      var rest := Unlisted(packages[1..], name);
      UnlistedCount(packages[1..], name, other);
      if packages[0].name == name {
        assert [] + rest == rest;
      } else {
        assert ([packages[0]] + rest)[1..] == rest;
      }
    }
  }

  lemma {:induction false} UnlistedLength(packages: seq<Entry>, name: string)
    ensures |Unlisted(packages, name)| <= |packages|
    ensures |Unlisted(packages, name)| == |packages| <==> forall e :: e in packages ==> e.name != name
    ensures |Unlisted(packages, name)| == |packages| ==> Unlisted(packages, name) == packages
  {
    if packages != [] {
      UnlistedLength(packages[1..], name);
      assert packages == [packages[0]] + packages[1..];
    }
  }

  /** The directory of the schemas generated for a name, if it was generated. */
  ghost predicate IsGenerated(w: World, ws: Workspace, name: string) {
    w.kclIdent(name) in ws.generated && "source.toml" in ws.generated[w.kclIdent(name)]
  }

  /** The lock without the entries of `name`; one that had none is left as it is. */
  ghost predicate LockWithout(before: Lock, name: string, after: Lock) {
    if forall e :: e in before.packages ==> e.name != name then after == before
    else
      && after.version == before.version && WeaklySorted(after.packages)
      && (forall e :: e in after.packages <==> e in before.packages && e.name != name)
      && forall other ::
           NameCount(after.packages, other) == if other == name then 0 else NameCount(before.packages, other)
  }

  function Pruned(lock: Lock, name: string): Lock {
    var kept := Unlisted(lock.packages, name);
    if |kept| == |lock.packages| then lock else Lock(lock.version, Sort(kept))
  }

  lemma PrunedLock(lock: Lock, name: string)
    ensures LockWithout(lock, name, Pruned(lock, name))
  {
    var kept := Unlisted(lock.packages, name);
    UnlistedLength(lock.packages, name);
    if |kept| != |lock.packages| {
      SortSorts(kept);
      SortKeepsEntries(kept);
      forall other
        ensures NameCount(Sort(kept), other) == if other == name then 0 else NameCount(lock.packages, other)
      {
        SortCount(kept, other);
        UnlistedCount(lock.packages, name, other);
      }
    }
  }

  lemma DeclaredSomewhere(ws: Workspace, name: string)
    ensures IsDeclared(ws.dependencies, name) <==> exists d :: d in ws.dependencies && d.0 == name
  {
    if d :| d in ws.dependencies && d.0 == name {
      var i :| 0 <= i < |ws.dependencies| && ws.dependencies[i] == d;
    }
    if i :| 0 <= i < |ws.dependencies| && ws.dependencies[i].0 == name {
      assert ws.dependencies[i] in ws.dependencies;
    }
  }

  function Kept(w: World, ws: Workspace, name: string): map<string, Files> {
    map i | i in ws.generated && i != w.kclIdent(name) :: ws.generated[i]
  }

  lemma RemoveIs(w: World, st: State, name: string)
    requires IsDeclared(st.ws.dependencies, name)
    ensures var generated :=
              if Accepted(st.lock) && IsGenerated(w, st.ws, name) then Kept(w, st.ws, name) else st.ws.generated;
            Apply(w, st, Remove(name)) ==
              st.(ws := st.ws.(dependencies := Undeclared(st.ws.dependencies, name), generated := generated),
                  lock := if Accepted(st.lock) then Pruned(st.lock, name) else st.lock)
  {
    DeclaredSomewhere(st.ws, name);
    assert st.ws.generated - {w.kclIdent(name)} == Kept(w, st.ws, name);
  }

  /**
   * `remove` takes one name away: its declaration, its entries of a lock that
   * parses, and then its generated schemas. Everything else stays, and a name
   * that is not declared changes nothing.
   */
  lemma RemovesExactly(w: World, st: State, name: string)
    ensures var after := Apply(w, st, Remove(name));
            if !IsDeclared(st.ws.dependencies, name) then after == st
            else
              && after.caches == st.caches && after.log == st.log
              && after.ws == st.ws.(dependencies := after.ws.dependencies, generated := after.ws.generated)
              && (forall d :: multiset(after.ws.dependencies)[d] ==
                                if d.0 == name then 0 else multiset(st.ws.dependencies)[d])
              && (if Accepted(st.lock) then LockWithout(st.lock, name, after.lock) else after.lock == st.lock)
              && after.ws.generated ==
                   if Accepted(st.lock) && IsGenerated(w, st.ws, name)
                   then Kept(w, st.ws, name) else st.ws.generated
  {
    DeclaredSomewhere(st.ws, name);
    if IsDeclared(st.ws.dependencies, name) {
      RemoveIs(w, st, name);
      UndeclaredMeaning(st.ws.dependencies, name);
      PrunedLock(st.lock, name);
    }
  }

  /** No two entries of other names have the same name and version. */
  ghost predicate OthersUnique(packages: seq<Entry>, name: string) {
    forall i, j ::
      0 <= i < j < |packages| && packages[i].name != name && packages[j].name != name ==>
        !SameKey(packages[i], packages[j])
  }

  lemma OthersUniqueCons(e: Entry, rest: seq<Entry>, name: string)
    ensures OthersUnique([e] + rest, name) <==>
            && OthersUnique(rest, name)
            && (e.name != name ==> forall j :: 0 <= j < |rest| && rest[j].name != name ==> !SameKey(e, rest[j]))
  {
    var all := [e] + rest;
    if OthersUnique(all, name) {
      forall i, j | 0 <= i < j < |rest| && rest[i].name != name && rest[j].name != name
        ensures !SameKey(rest[i], rest[j])
      {
        assert all[i + 1] == rest[i] && all[j + 1] == rest[j];
      }
      forall j | 0 <= j < |rest| && rest[j].name != name && e.name != name ensures !SameKey(e, rest[j]) {
        assert all[0] == e && all[j + 1] == rest[j];
      }
    }
  }

  lemma FreshAmong(e: Entry, rest: seq<Entry>, name: string)
    ensures Fresh(e, Unlisted(rest, name)) <==>
            forall j :: 0 <= j < |rest| && rest[j].name != name ==> !SameKey(e, rest[j])
  {
    if Fresh(e, Unlisted(rest, name)) {
      forall j | 0 <= j < |rest| && rest[j].name != name ensures !SameKey(e, rest[j]) {
        assert rest[j] in Unlisted(rest, name);
      }
    }
  }

  lemma UnlistedCons(e: Entry, rest: seq<Entry>, name: string)
    ensures Unlisted([e] + rest, name) == if e.name == name then Unlisted(rest, name) else [e] + Unlisted(rest, name)
  {
    assert ([e] + rest)[1..] == rest;
    assert [] + Unlisted(rest, name) == Unlisted(rest, name);
  }

  lemma {:induction false} UnlistedUnique(packages: seq<Entry>, name: string)
    ensures UniqueKeys(Unlisted(packages, name)) <==> OthersUnique(packages, name)
  {
    if packages != [] {
      var e, rest := packages[0], packages[1..];
      assert packages == [e] + rest;
      UnlistedUnique(rest, name);
      UnlistedCons(e, rest, name);
      OthersUniqueCons(e, rest, name);
      if e.name != name {
        UniqueCons(e, Unlisted(rest, name));
        FreshAmong(e, rest, name);
      }
    }
  }

  /**
   * `remove` leaves a lock that parses exactly when it had nothing to prune or
   * the entries of other names repeat no key: writing sorts them, and sorting
   * brings repeated keys together.
   */
  lemma RemoveIsAcceptedExactly(w: World, st: State, name: string)
    requires Accepted(st.lock) && IsDeclared(st.ws.dependencies, name)
    ensures Accepted(Apply(w, st, Remove(name)).lock) <==>
            (forall e :: e in st.lock.packages ==> e.name != name) || OthersUnique(st.lock.packages, name)
  {
    RemoveIs(w, st, name);
    UnlistedLength(st.lock.packages, name);
    PrunedParses(st.lock, name);
  }

  lemma PrunedParses(lock: Lock, name: string)
    requires Accepted(lock)
    ensures Accepted(Lock(lock.version, Sort(Unlisted(lock.packages, name)))) <==> OthersUnique(lock.packages, name)
  {
    var kept := Unlisted(lock.packages, name);
    SortSorts(kept);
    SortKeepsEntries(kept);
    forall e | e in Sort(kept) ensures GoodDigest(e.digest) {
      AcceptedDigests(lock);
      assert e in Loaded(lock);
    }
    SortedParsesExactly(Lock(lock.version, Sort(kept)));
    SortUnique(kept);
    UnlistedUnique(lock.packages, name);
  }

  /** A lock that parses, with a second dependency listed after the repeated entries of `AcceptedMayRepeat`. */
  function RepeatingBeside(): Lock {
    Lock(LOCK_VERSION, RepeatingLock().packages + [RepeatingLock().packages[0].(name := "b")])
  }

  /** Removing the dependency beside them leaves a lock that is refused. */
  lemma RefusedRemoveExample(w: World, st: State)
    requires st.lock == RepeatingBeside() && IsDeclared(st.ws.dependencies, "b")
    ensures Accepted(st.lock) && !Accepted(Apply(w, st, Remove("b")).lock)
  {
    var p := st.lock.packages;
    AcceptedMayRepeat();
    assert p[0].name == "a" && p[1].name == "a" && p[2].name == "a" && p[3].name == "b";
    assert "a" != "b" by { assert "a"[0] != "b"[0]; }
    assert p[..3] == RepeatingLock().packages;
    assert "git:"[..4] == "git:";
    LessIrreflexive("a");
    assert !Less("b", "a");
    assert "2" != "1" by { assert "2"[0] != "1"[0]; }
    assert p[3] in p && SameKey(p[0], p[2]);
    RemoveIsAcceptedExactly(w, st, "b");
  }

  // ---------------------------------------------------------------- vendor add

  /** The schema digest the lock has for a name and version: that of the first such entry. */
  ghost predicate HeldSchemas(packages: seq<Entry>, name: string, version: string, held: Option<string>) {
    || ((forall e :: e in packages ==> !(e.name == name && e.version == version)) && held.None?)
    || exists k ::
         && 0 <= k < |packages| && packages[k].name == name && packages[k].version == version
         && held == packages[k].crdsDigest
         && forall j :: 0 <= j < k ==> !(packages[j].name == name && packages[j].version == version)
  }

  /** What is to be written of a vendored dependency, but for its tree's digest. */
  function Vendored(w: World, name: string, d: Dependency, s: Source, held: Option<string>): Update {
    Update(name, Declared(w, d.spec).version, Declared(w, d.spec).source, s.digest, None, s.signature, held)
  }

  /** The entry of a vendored dependency: its source's digest, with the tree's beside it where they differ. */
  ghost predicate VendorEntry(w: World, prior: seq<Entry>, name: string, d: Dependency, s: Source, e: Entry) {
    exists held, plain ::
      && HeldSchemas(prior, name, Declared(w, d.spec).version, held)
      && Records(prior, Vendored(w, name, d, s, held), plain)
      && e == if s.digest == w.treeDigest(s.files) then plain
              else plain.(vendorDigest := Some(w.treeDigest(s.files)))
  }

  lemma UpdateIsVendored(w: World, lock: Lock, name: string, d: Dependency, s: Source)
    ensures var u := VendorUpdate(w, lock, name, d, s);
            && u == Vendored(w, name, d, s, u.crdsDigest)
            && HeldSchemas(lock.packages, name, Declared(w, d.spec).version, u.crdsDigest)
  {
    var u := Vendored(w, name, d, s, None);
    var k := Slot(lock.packages, u);
    if k < |lock.packages| {
      assert Matches(lock.packages[k], u);
      assert forall j :: 0 <= j < k ==> !Matches(lock.packages[j], u);
    } else {
      forall e | e in lock.packages ensures !(e.name == u.name && e.version == u.version) {
        var j :| 0 <= j < |lock.packages| && lock.packages[j] == e;
        assert !Matches(lock.packages[j], u);
      }
    }
    SameSlot(lock.packages, u, Update(name, u.version, u.source, s.digest, None, s.signature, None));
  }

  lemma {:induction false} SameSlot(packages: seq<Entry>, u: Update, v: Update)
    requires u.name == v.name && u.version == v.version
    ensures Slot(packages, u) == Slot(packages, v)
  {
    if packages != [] {
      SameSlot(packages[1..], u, v);
    }
  }

  function Tied(e: Entry, u: Update, tree: string): Entry {
    if u.digest == tree then e else e.(vendorDigest := Some(tree))
  }

  lemma PinTreeMeaning(entries: seq<Entry>, u: Update, tree: string, e: Entry)
    ensures e in PinTree(entries, u, tree) <==>
            (e in entries && !Matches(e, u)) || exists x :: x in entries && Matches(x, u) && e == Tied(x, u, tree)
  {
    var pinned := PinTree(entries, u, tree);
    if e in pinned {
      var i :| 0 <= i < |pinned| && pinned[i] == e;
      assert entries[i] in entries;
    }
    if e in entries && !Matches(e, u) {
      var i :| 0 <= i < |entries| && entries[i] == e;
      assert pinned[i] == e;
    }
    if x :| x in entries && Matches(x, u) && e == Tied(x, u, tree) {
      var i :| 0 <= i < |entries| && entries[i] == x;
      assert pinned[i] == e;
    }
  }

  function AfterVendor(w: World, lock: Lock, name: string, d: Dependency, s: Source): Lock {
    var u := VendorUpdate(w, lock, name, d, s);
    var merged := Merge(lock, [u]);
    merged.(packages := PinTree(merged.packages, u, w.treeDigest(s.files)))
  }

  /** The lock after `vendor add`: the dependency's entry, the only one of its name where no key was repeated. */
  ghost predicate LockHasVendored(
    w: World, before: Lock, name: string, d: Dependency, s: Source, after: Lock)
  {
    && after.version == before.version
    && (exists e :: e in after.packages && VendorEntry(w, before.packages, name, d, s, e))
    && (KeyOnce(before.packages, Vendored(w, name, d, s, None)) ==>
          forall e :: e in after.packages && e.name == name ==> VendorEntry(w, before.packages, name, d, s, e))
    && (forall e: Entry :: e.name != name ==> (e in after.packages <==> e in before.packages))
  }

  lemma RecordedKey(packages: seq<Entry>, u: Update, e: Entry)
    requires Records(packages, u, e)
    ensures Matches(e, u)
  {
    var k := Slot(packages, u);
    if k < |packages| {
      assert IsFirstOf(packages, u, k);
    } else {
      forall p | p in packages ensures !(p.name == u.name && p.version == u.version) {
        var j :| 0 <= j < |packages| && packages[j] == p;
        assert !Matches(packages[j], u);
      }
    }
  }

  lemma SameOnce(packages: seq<Entry>, u: Update, v: Update)
    requires u.name == v.name && u.version == v.version && KeyOnce(packages, u)
    ensures KeyOnce(packages, v)
  {
    forall i, j | 0 <= i < j < |packages| ensures !(Matches(packages[i], v) && Matches(packages[j], v)) {
      assert !(Matches(packages[i], u) && Matches(packages[j], u));
    }
  }

  lemma OnlyVendored(w: World, lock: Lock, name: string, d: Dependency, s: Source, e: Entry)
    requires KeyOnce(lock.packages, Vendored(w, name, d, s, None))
    requires e in AfterVendor(w, lock, name, d, s).packages && e.name == name
    ensures VendorEntry(w, lock.packages, name, d, s, e)
    ensures var u := VendorUpdate(w, lock, name, d, s);
            e == Tied(WrittenFor(lock.packages, u), u, w.treeDigest(s.files))
  {
    var u, tree := VendorUpdate(w, lock, name, d, s), w.treeDigest(s.files);
    var merged := Merge(lock, [u]).packages;
    UpdateIsVendored(w, lock, name, d, s);
    PinTreeMeaning(merged, u, tree, e);
    SameOnce(lock.packages, Vendored(w, name, d, s, None), u);
    if e in merged && !Matches(e, u) {
      MergeRecordsOnly(lock, [u], u, e);
      RecordedKey(lock.packages, u, e);
    } else {
      var x :| x in merged && Matches(x, u) && e == Tied(x, u, tree);
      MergeRecordsOnly(lock, [u], u, x);
    }
  }

  lemma OneVendored(w: World, lock: Lock, name: string, d: Dependency, s: Source) returns (e: Entry)
    ensures e in AfterVendor(w, lock, name, d, s).packages && VendorEntry(w, lock.packages, name, d, s, e)
    ensures Matches(e, VendorUpdate(w, lock, name, d, s))
  {
    var u, tree := VendorUpdate(w, lock, name, d, s), w.treeDigest(s.files);
    UpdateIsVendored(w, lock, name, d, s);
    var plain := MergeRecords(lock, [u], u);
    RecordedKey(lock.packages, u, plain);
    e := Tied(plain, u, tree);
    PinTreeMeaning(Merge(lock, [u]).packages, u, tree, e);
  }

  lemma OtherNamesStay(w: World, lock: Lock, name: string, d: Dependency, s: Source, e: Entry)
    requires e.name != name
    ensures e in AfterVendor(w, lock, name, d, s).packages <==> e in lock.packages
  {
    var u, tree := VendorUpdate(w, lock, name, d, s), w.treeDigest(s.files);
    PinTreeMeaning(Merge(lock, [u]).packages, u, tree, e);
    MergeMeaning(lock, [u], e);
  }

  lemma VendorLock(w: World, lock: Lock, name: string, d: Dependency, s: Source)
    ensures LockHasVendored(w, lock, name, d, s, AfterVendor(w, lock, name, d, s))
  {
    var after := AfterVendor(w, lock, name, d, s);
    var one := OneVendored(w, lock, name, d, s);
    if KeyOnce(lock.packages, Vendored(w, name, d, s, None)) {
      forall e | e in after.packages && e.name == name ensures VendorEntry(w, lock.packages, name, d, s, e) {
        OnlyVendored(w, lock, name, d, s, e);
      }
    }
    forall e: Entry | e.name != name ensures e in after.packages <==> e in lock.packages {
      OtherNamesStay(w, lock, name, d, s, e);
    }
  }

  /**
   * What `vendor add` writes. When its source is found, the tree goes under
   * the name, and into a lock that parses goes its entry: the source's digest,
   * with the tree's beside it where they differ. Other trees, entries of other
   * names and the manifest stay, and a source that is not found, or a lock that
   * does not parse, leaves the lock as it was.
   */
  lemma VendorRecords(w: World, st: State, net: Network, name: string, d: Dependency)
    ensures var r := VendorSource(w, st, net, name, d);
            var after := Apply(w, st, VendorAdd(net, name, d));
            if r.result.Err? then after.ws == st.ws && after.lock == st.lock
            else
              && after.ws == st.ws.(vendor := st.ws.vendor[name := r.result.value.files])
              && if Accepted(st.lock) then LockHasVendored(w, st.lock, name, d, r.result.value, after.lock)
                 else after.lock == st.lock
  {
    var r := VendorSource(w, st, net, name, d);
    if r.result.Ok? && Accepted(st.lock) {
      VendorLock(w, st.lock, name, d, r.result.value);
    }
  }

  // ---------------------------------------------------------------- vendor add, then resolve

  lemma VendorDigestIsGood(w: World, st: State, net: Network, name: string, d: Dependency)
    requires DigestsAreTagged(w) && Accepted(st.lock) && VendorSource(w, st, net, name, d).result.Ok?
    ensures GoodDigest(VendorSource(w, st, net, name, d).result.value.digest)
    ensures d.spec.Git? ==> StartsWith(VendorSource(w, st, net, name, d).result.value.digest, "git:")
  {
    AcceptedDigests(st.lock);
    if d.spec.Oci? {
      var pull := VendorRequest(st, name, d);
      if Fetch(w, net.registry, pull).Ok? {
        FetchSound(w, net.registry, pull);
      }
    }
  }

  /** The lock afterwards parses exactly when the entries it keeps repeat no key. */
  lemma VendorLockParses(w: World, lock: Lock, name: string, d: Dependency, s: Source)
    requires Accepted(lock) && GoodDigest(s.digest)
    ensures Accepted(AfterVendor(w, lock, name, d, s)) <==>
            UniqueKeys(Keep(lock.packages, [VendorUpdate(w, lock, name, d, s)]))
  {
    var u, tree := VendorUpdate(w, lock, name, d, s), w.treeDigest(s.files);
    MergeIsAcceptedExactly(lock, [u]);
    TrustFiles.PinTreeSameProblems(Merge(lock, [u]).packages, u, tree, lock.version);
  }

  /** Then it has one entry of the name. */
  lemma VendorLockHasOne(w: World, lock: Lock, name: string, d: Dependency, s: Source) returns (e: Entry)
    requires UniqueKeys(Keep(lock.packages, [VendorUpdate(w, lock, name, d, s)]))
    ensures HasOne(AfterVendor(w, lock, name, d, s).packages, name, e)
    ensures var u := VendorUpdate(w, lock, name, d, s);
            e == Tied(WrittenFor(lock.packages, u), u, w.treeDigest(s.files))
  {
    var u := VendorUpdate(w, lock, name, d, s);
    KeepOnce(lock.packages, [u], u);
    SameOnce(lock.packages, u, Vendored(w, name, d, s, None));
    e := OneVendored(w, lock, name, d, s);
    forall x | x in AfterVendor(w, lock, name, d, s).packages && x.name == name ensures x == e {
      OnlyVendored(w, lock, name, d, s, x);
      OnlyVendored(w, lock, name, d, s, e);
    }
    OnlyVendored(w, lock, name, d, s, e);
  }

  lemma VendoredFields(w: World, lock: Lock, name: string, d: Dependency, s: Source)
    ensures var u := VendorUpdate(w, lock, name, d, s);
            var e := Tied(WrittenFor(lock.packages, u), u, w.treeDigest(s.files));
            && e.name == name && e.source == Declared(w, d.spec).source && e.version == Declared(w, d.spec).version
            && e.digest == s.digest && (s.signature.Some? ==> e.signature == s.signature)
            && (s.digest != w.treeDigest(s.files) ==> e.vendorDigest == Some(w.treeDigest(s.files)))
  {
  }

  lemma VendorSigned(w: World, st: State, net: Network, name: string, d: Dependency)
    requires VendorSource(w, st, net, name, d).result.Ok? && d.spec.Oci? && st.ws.signing.Key?
    ensures w.keyRef(st.ws.signing.pem).Some?
    ensures VendorSource(w, st, net, name, d).result.value.signature == w.keyRef(st.ws.signing.pem)
  {
    PullIsValid(w, net.registry, st.caches.oci, st.log, VendorRequest(st, name, d));
    PullLeaves(w, net.registry, st.caches.oci, st.log, VendorRequest(st, name, d));
  }

  /** A dependency that a vendored tree answers: neither forked nor a chart, and no schemas of it are in use. */
  ghost predicate AnsweredByVendor(w: World, ws: Workspace, dep: (string, Dependency)) {
    dep.1.replace.None? && !dep.1.spec.Helm? && !SchemasAreThere(w, ws, RenderOptions(true), dep)
  }

  lemma VendoredStandsFor(w: World, d: Dependency, s: Source, e: Entry)
    requires e.digest == s.digest
    requires s.digest != w.treeDigest(s.files) ==> e.vendorDigest == Some(w.treeDigest(s.files))
    requires DigestsAreTagged(w) && (d.spec.Git? ==> StartsWith(s.digest, "git:"))
    ensures VendoredDigest(w, d.spec, Some(e), s.files) == s.digest
  {
    if d.spec.Git? {
      assert StartsWith(w.treeDigest(s.files), "sha256:");
      assert s.digest[..4][0] == 'g' && w.treeDigest(s.files)[..7][0] == 's';
    }
  }

  /** What the next request knows of the dependency: its tree, and the entry that ties it to its source. */
  lemma VendoredRequest(w: World, st: State, net: Network, name: string, d: Dependency, offline: bool)
    returns (e: Entry)
    requires DigestsAreTagged(w) && VendorSource(w, st, net, name, d).result.Ok?
    requires Accepted(Apply(w, st, VendorAdd(net, name, d)).lock)
    ensures var s := VendorSource(w, st, net, name, d).result.value;
            var st1 := Apply(w, st, VendorAdd(net, name, d));
            && st1.ws == st.ws.(vendor := st.ws.vendor[name := s.files])
            && RenderRequest(w, st1, offline, (name, d)).locked == Some(e)
            && e.digest == s.digest && (s.signature.Some? ==> e.signature == s.signature)
            && VendoredDigest(w, d.spec, Some(e), s.files) == s.digest
  {
    var s := VendorSource(w, st, net, name, d).result.value;
    var st1 := Apply(w, st, VendorAdd(net, name, d));
    VendorDigestIsGood(w, st, net, name, d);
    VendorLockParses(w, st.lock, name, d, s);
    e := VendorLockHasOne(w, st.lock, name, d, s);
    VendoredFields(w, st.lock, name, d, s);
    assert st1.lock == AfterVendor(w, st.lock, name, d, s);
    OneIsFound(w, st1.lock.packages, name, d, e);
    VendoredStandsFor(w, d, s, e);
  }

  /**
   * `vendor add` into a lock that parses and still does, then a render: the dependency comes from the tree just
   * copied, under the digest just recorded, with or without a network, with the
   * signature the pull verified, and nothing is fetched.
   */
  lemma VendorThenResolve(w: World, st: State, net: Network, name: string, d: Dependency, net1: Network, offline: bool)
    requires DigestsAreTagged(w) && VendorSource(w, st, net, name, d).result.Ok?
    requires Accepted(Apply(w, st, VendorAdd(net, name, d)).lock)
    requires AnsweredByVendor(w, Apply(w, st, VendorAdd(net, name, d)).ws, (name, d))
    ensures var s := VendorSource(w, st, net, name, d).result.value;
            var st1 := Apply(w, st, VendorAdd(net, name, d));
            var o := ResolveDependency(w, net1, st1, RenderRequest(w, st1, offline, (name, d)));
            && o.state == st1 && o.result.Ok?
            && o.result.value.digest == s.digest && o.result.value.files == Inside(w, d, s.files)
            && (d.spec.Oci? && st.ws.signing.Key? ==> o.result.value.locked.signature == w.keyRef(st.ws.signing.pem))
  {
    var st1 := Apply(w, st, VendorAdd(net, name, d));
    var req := RenderRequest(w, st1, offline, (name, d));
    var e := VendoredRequest(w, st, net, name, d, offline);
    if d.spec.Oci? && st.ws.signing.Key? {
      VendorSigned(w, st, net, name, d);
    }
    VendorServes(w, st1, req);
    assert ResolveDependency(w, net1, st1, req) == FromVendor(w, st1, req);
  }
}
