/**
 * `akua.lock`: what `parseLock` accepts and what `mergeIntoLock` writes
 * (host/src/lockfile.ts).
 */
module Lockfile {
  import opened Common

  const LOCK_VERSION := 1

  datatype Entry = Entry(
    name: string,
    version: string,
    source: string,
    digest: string,
    vendorDigest: Option<string>,
    signature: Option<string>,
    dependencies: Option<seq<string>>,
    attestation: Option<string>,
    replaced: Option<string>,
    yanked: Option<bool>,
    kyvernoSourceDigest: Option<string>,
    converterVersion: Option<string>,
    crdsDigest: Option<string>)

  datatype Lock = Lock(version: int, packages: seq<Entry>)

  const EMPTY_LOCK := Lock(LOCK_VERSION, [])

  /** What a command wants recorded for one dependency. */
  datatype Update = Update(
    name: string,
    version: string,
    source: string,
    digest: string,
    replaced: Option<string>,
    signature: Option<string>,
    crdsDigest: Option<string>)

  // ---------------------------------------------------------------- order

  predicate SameKey(a: Entry, b: Entry) {
    a.name == b.name && a.version == b.version
  }

  /** `byNameThenVersion(a, b) < 0`. */
  predicate Before(a: Entry, b: Entry) {
    if Less(a.name, b.name) then true
    else if Less(b.name, a.name) then false
    else Less(a.version, b.version)
  }

  lemma BeforeOrder(a: Entry, b: Entry, c: Entry)
    ensures !Before(a, a)
    ensures Before(a, b) ==> !SameKey(a, b) && !Before(b, a)
    ensures Before(a, b) || SameKey(a, b) || Before(b, a)
    ensures Before(a, b) && Before(b, c) ==> Before(a, c)
  {
    BeforePair(a, a);
    BeforePair(a, b);
    if Before(a, b) && Before(b, c) {
      LessTotal(a.name, b.name);
      LessTotal(b.name, c.name);
      LessIrreflexive(a.name);
      if Less(a.name, b.name) && Less(b.name, c.name) {
        LessTransitive(a.name, b.name, c.name);
      } else if !Less(a.name, b.name) && !Less(b.name, c.name) {
        LessTransitive(a.version, b.version, c.version);
      }
    }
  }

  lemma BeforePair(a: Entry, b: Entry)
    ensures Before(a, b) ==> !SameKey(a, b) && !Before(b, a)
    ensures Before(a, b) || SameKey(a, b) || Before(b, a)
  {
    LessTotal(a.name, b.name);
    LessTotal(a.version, b.version);
    LessIrreflexive(a.name);
    LessIrreflexive(a.version);
    if Less(a.name, b.name) && Less(b.name, a.name) {
      LessTransitive(a.name, b.name, a.name);
    }
    if Less(a.version, b.version) && Less(b.version, a.version) {
      LessTransitive(a.version, b.version, a.version);
    }
  }

  ghost predicate StrictlySorted(packages: seq<Entry>) {
    forall i, j :: 0 <= i < j < |packages| ==> Before(packages[i], packages[j])
  }

  ghost predicate UniqueKeys(packages: seq<Entry>) {
    forall i, j :: 0 <= i < j < |packages| ==> !SameKey(packages[i], packages[j])
  }

  lemma HeadIsNotInTail(a: seq<Entry>)
    requires StrictlySorted(a) && a != []
    ensures a[0] !in a[1..]
  {
    BeforeOrder(a[0], a[0], a[0]);
  }

  /** A strictly sorted lock is determined by the set of its entries. */
  lemma {:induction false} SortedIsCanonical(a: seq<Entry>, b: seq<Entry>)
    requires StrictlySorted(a) && StrictlySorted(b)
    requires forall e :: e in a <==> e in b
    ensures a == b
  {
    assert |a| > 0 ==> a[0] in b;
    assert |b| > 0 ==> b[0] in a;
    if a != [] {
      var i :| 0 <= i < |b| && b[i] == a[0];
      var j :| 0 <= j < |a| && a[j] == b[0];
      BeforeOrder(a[0], b[0], a[0]);
      assert a[0] == b[0];
      assert a == [a[0]] + a[1..] && b == [b[0]] + b[1..];
      HeadIsNotInTail(a);
      HeadIsNotInTail(b);
      forall e ensures e in a[1..] <==> e in b[1..] {
        assert e in a <==> e == a[0] || e in a[1..];
        assert e in b <==> e == b[0] || e in b[1..];
      }
      SortedIsCanonical(a[1..], b[1..]);
    }
  }

  /** `toSorted(byNameThenVersion)`: a stable sort. */
  function Sort(packages: seq<Entry>): seq<Entry> {
    if packages == [] then []
    else Insert(packages[0], Sort(packages[1..]))
  }

  function Insert(e: Entry, sorted: seq<Entry>): seq<Entry> {
    if sorted == [] || !Before(sorted[0], e) then [e] + sorted
    else [sorted[0]] + Insert(e, sorted[1..])
  }

  lemma {:induction false} InsertKeepsEntries(e: Entry, sorted: seq<Entry>)
    ensures forall x :: x in Insert(e, sorted) <==> x == e || x in sorted
  {
    if sorted != [] && Before(sorted[0], e) {
      InsertKeepsEntries(e, sorted[1..]);
      assert sorted == [sorted[0]] + sorted[1..];
    }
  }

  lemma {:induction false} SortKeepsEntries(packages: seq<Entry>)
    ensures forall x :: x in Sort(packages) <==> x in packages
  {
    if packages != [] {
      SortKeepsEntries(packages[1..]);
      InsertKeepsEntries(packages[0], Sort(packages[1..]));
      assert packages == [packages[0]] + packages[1..];
    }
  }

  /** In order, repeated keys allowed. */
  ghost predicate WeaklySorted(packages: seq<Entry>) {
    forall i, j :: 0 <= i < j < |packages| ==> !Before(packages[j], packages[i])
  }

  lemma NotBeforeTransitive(a: Entry, b: Entry, c: Entry)
    requires !Before(b, a) && !Before(c, b)
    ensures !Before(c, a)
  {
    BeforePair(a, b);
    BeforePair(b, c);
    BeforePair(a, c);
    BeforeOrder(a, b, c);
    BeforeOrder(c, a, b);
  }

  lemma {:induction false} InsertSorts(e: Entry, sorted: seq<Entry>)
    requires WeaklySorted(sorted)
    ensures WeaklySorted(Insert(e, sorted))
  {
    if sorted == [] {
    } else if Before(sorted[0], e) {
      InsertSorts(e, sorted[1..]);
      InsertKeepsEntries(e, sorted[1..]);
      BeforePair(sorted[0], e);
      var r := Insert(e, sorted);
      forall i, j | 0 <= i < j < |r| ensures !Before(r[j], r[i]) {
        assert r[j] == r[1..][j - 1] && r[1..] == Insert(e, sorted[1..]);
        if i == 0 {
          assert r[j] in r[1..];
        }
      }
    } else {
      forall j | 0 <= j < |sorted| ensures !Before(sorted[j], e) {
        if j > 0 {
          NotBeforeTransitive(e, sorted[0], sorted[j]);
        }
      }
    }
  }

  lemma {:induction false} SortSorts(packages: seq<Entry>)
    ensures WeaklySorted(Sort(packages))
  {
    if packages != [] {
      SortSorts(packages[1..]);
      InsertSorts(packages[0], Sort(packages[1..]));
    }
  }

  /** Sorting what is in order changes nothing, repeated keys included. */
  lemma {:induction false} SortedStays(packages: seq<Entry>)
    requires WeaklySorted(packages)
    ensures Sort(packages) == packages
  {
    if packages != [] {
      SortedStays(packages[1..]);
      assert packages == [packages[0]] + packages[1..];
    }
  }

  // ---------------------------------------------------------------- keys under sorting

  ghost predicate Fresh(e: Entry, packages: seq<Entry>) {
    forall x :: x in packages ==> !SameKey(e, x)
  }

  lemma UniqueCons(e: Entry, packages: seq<Entry>)
    ensures UniqueKeys([e] + packages) <==> Fresh(e, packages) && UniqueKeys(packages)
  {
    var all := [e] + packages;
    assert forall j :: 0 <= j < |packages| ==> all[j + 1] == packages[j];
    if UniqueKeys(all) {
      forall x | x in packages ensures !SameKey(e, x) {
        var j :| 0 <= j < |packages| && packages[j] == x;
        assert !SameKey(all[0], all[j + 1]);
      }
      forall i, j | 0 <= i < j < |packages| ensures !SameKey(packages[i], packages[j]) {
        assert !SameKey(all[i + 1], all[j + 1]);
      }
    }
  }

  lemma {:induction false} InsertUnique(e: Entry, sorted: seq<Entry>)
    ensures UniqueKeys(Insert(e, sorted)) <==> UniqueKeys([e] + sorted)
  {
    if sorted != [] && Before(sorted[0], e) {
      var head, rest := sorted[0], sorted[1..];
      assert sorted == [head] + rest;
      InsertUnique(e, rest);
      InsertKeepsEntries(e, rest);
      UniqueCons(e, sorted);
      UniqueCons(e, rest);
      UniqueCons(head, rest);
      UniqueCons(head, Insert(e, rest));
      assert Fresh(e, sorted) <==> !SameKey(e, head) && Fresh(e, rest);
      assert Fresh(head, Insert(e, rest)) <==> !SameKey(head, e) && Fresh(head, rest);
    }
  }

  lemma {:induction false} SortUnique(packages: seq<Entry>)
    ensures UniqueKeys(Sort(packages)) <==> UniqueKeys(packages)
  {
    if packages != [] {
      var head, rest := packages[0], packages[1..];
      assert packages == [head] + rest;
      SortUnique(rest);
      SortKeepsEntries(rest);
      InsertUnique(head, Sort(rest));
      UniqueCons(head, rest);
      UniqueCons(head, Sort(rest));
    }
  }

  lemma UniqueSortedIsStrict(packages: seq<Entry>)
    requires WeaklySorted(packages) && UniqueKeys(packages)
    ensures StrictlySorted(packages)
  {
    forall i, j | 0 <= i < j < |packages| ensures Before(packages[i], packages[j]) {
      BeforePair(packages[i], packages[j]);
    }
  }

  /** In a sorted lock equal keys are neighbours. */
  lemma NeighboursAreEnough(packages: seq<Entry>)
    requires WeaklySorted(packages)
    requires forall i :: 0 < i < |packages| ==> !SameKey(packages[i], packages[i - 1])
    ensures UniqueKeys(packages)
  {
    forall i, j | 0 <= i < j < |packages| ensures !SameKey(packages[i], packages[j]) {
      BeforePair(packages[j - 1], packages[j]);
    }
  }

  // ---------------------------------------------------------------- parse

  predicate GoodDigest(digest: string) {
    StartsWith(digest, "sha256:") || StartsWith(digest, "git:")
  }

  datatype Problem = UnsupportedVersion | NotAlphabetical | Repeated | BadDigest

  /** What `parseLock` reports about entry `i`, comparing it with its left neighbour only. */
  function EntryProblem(packages: seq<Entry>, i: nat): Option<Problem>
    requires i < |packages|
  {
    if i > 0 && Less(packages[i].name, packages[i - 1].name) then Some(NotAlphabetical)
    else if i > 0 && SameKey(packages[i], packages[i - 1]) then Some(Repeated)
    else if !GoodDigest(packages[i].digest) then Some(BadDigest)
    else None
  }

  /** Names, versions and digests are all that is looked at. */
  lemma SameProblem(a: seq<Entry>, b: seq<Entry>, i: nat)
    requires i < |a| == |b|
    requires forall j :: 0 <= j < |a| ==> SameKey(a[j], b[j]) && a[j].digest == b[j].digest
    ensures EntryProblem(a, i) == EntryProblem(b, i)
  {
  }

  ghost predicate Accepted(lock: Lock) {
    && lock.version == LOCK_VERSION
    && forall i :: 0 <= i < |lock.packages| ==> EntryProblem(lock.packages, i).None?
  }

  /** The validation loop of `parseLock`, after the text has been decoded. */
  method ParseLock(lock: Lock) returns (problem: Option<Problem>)
    ensures problem.None? <==> Accepted(lock)
    ensures problem == Some(UnsupportedVersion) <==> lock.version != LOCK_VERSION
    ensures problem.Some? && lock.version == LOCK_VERSION ==>
              exists i :: 0 <= i < |lock.packages| && EntryProblem(lock.packages, i) == problem
                          && forall j :: 0 <= j < i ==> EntryProblem(lock.packages, j).None?
  {
    if lock.version != LOCK_VERSION {
      return Some(UnsupportedVersion);
    }
    for i := 0 to |lock.packages|
      invariant forall j :: 0 <= j < i ==> EntryProblem(lock.packages, j).None?
    {
      var found := EntryProblem(lock.packages, i);
      if found.Some? {
        return found;
      }
    }
    problem := None;
  }

  function RepeatingLock(): Lock {
    var two := Entry("a", "2", "s", "git:", None, None, None, None, None, None, None, None, None);
    Lock(LOCK_VERSION, [two, two.(version := "1"), two])
  }

  /** Neighbour checks do not rule out repeated keys: this lock is accepted and holds `a` at `2` twice. */
  lemma AcceptedMayRepeat()
    ensures Accepted(RepeatingLock()) && !UniqueKeys(RepeatingLock().packages)
  {
    var lock := RepeatingLock();
    LessIrreflexive("a");
    assert "git:"[..4] == "git:";
    assert "2" != "1" by { assert "2"[0] != "1"[0]; }
    assert SameKey(lock.packages[0], lock.packages[2]);
  }

  // ---------------------------------------------------------------- merge

  ghost predicate UniqueNames(updates: seq<Update>) {
    forall i, j :: 0 <= i < j < |updates| ==> updates[i].name != updates[j].name
  }

  predicate Matches(e: Entry, u: Update) {
    e.name == u.name && e.version == u.version
  }

  /** `findIndex`: the first entry an update overwrites, or `|packages|`. */
  function Slot(packages: seq<Entry>, u: Update): (i: nat)
    ensures i <= |packages|
    ensures i < |packages| ==> Matches(packages[i], u)
    ensures forall j :: 0 <= j < i ==> !Matches(packages[j], u)
  {
    if packages == [] || Matches(packages[0], u) then 0 else 1 + Slot(packages[1..], u)
  }

  /** The entry an update writes over `previous`: what is tied to unchanged bytes is carried. */
  function Merged(previous: Option<Entry>, u: Update): Entry {
    var carry := if previous.Some? && previous.value.digest == u.digest then previous else None;
    Entry(
      u.name, u.version, u.source, u.digest,
      if carry.Some? then carry.value.vendorDigest else None,
      OrElse(u.signature, if carry.Some? then carry.value.signature else None),
      if carry.Some? then carry.value.dependencies else None,
      if carry.Some? then carry.value.attestation else None,
      u.replaced,
      if carry.Some? then carry.value.yanked else None,
      if carry.Some? then carry.value.kyvernoSourceDigest else None,
      if carry.Some? then carry.value.converterVersion else None,
      u.crdsDigest)
  }

  function Previous(packages: seq<Entry>, u: Update): Option<Entry> {
    var i := Slot(packages, u);
    if i < |packages| then Some(packages[i]) else None
  }

  function Upsert(packages: seq<Entry>, u: Update): seq<Entry> {
    var i := Slot(packages, u);
    var entry := Merged(Previous(packages, u), u);
    if i < |packages| then packages[i := entry] else packages + [entry]
  }

  function UpsertAll(packages: seq<Entry>, updates: seq<Update>): seq<Entry> {
    if updates == [] then packages
    else Upsert(UpsertAll(packages, updates[..|updates| - 1]), updates[|updates| - 1])
  }

  predicate Kept(e: Entry, updates: seq<Update>) {
    (forall u | u in updates :: u.name != e.name) || (exists u | u in updates :: Matches(e, u))
  }

  function Keep(packages: seq<Entry>, updates: seq<Update>): seq<Entry> {
    if packages == [] then []
    else (if Kept(packages[0], updates) then [packages[0]] else []) + Keep(packages[1..], updates)
  }

  function Merge(lock: Lock, updates: seq<Update>): Lock {
    Lock(lock.version, Sort(UpsertAll(Keep(lock.packages, updates), updates)))
  }

  /** `mergeIntoLock`, with its filter and its loop of slot assignments and pushes. */
  method MergeIntoLock(lock: Lock, updates: seq<Update>) returns (merged: Lock)
    ensures merged == Merge(lock, updates)
  {
    var packages := [];
    for i := 0 to |lock.packages|
      invariant packages + Keep(lock.packages[i..], updates) == Keep(lock.packages, updates)
    {
      assert lock.packages[i..][1..] == lock.packages[i + 1..];
      if Kept(lock.packages[i], updates) {
        packages := packages + [lock.packages[i]];
      }
    }
    ghost var kept := packages;
    assert kept == Keep(lock.packages, updates);
    for k := 0 to |updates|
      invariant packages == UpsertAll(kept, updates[..k])
    {
      assert updates[..k + 1][..k] == updates[..k];
      var u := updates[k];
      var slot := Slot(packages, u);
      var previous := if slot < |packages| then Some(packages[slot]) else None;
      var entry := Merged(previous, u);
      if slot == |packages| {
        packages := packages + [entry];
      } else {
        packages := packages[slot := entry];
      }
    }
    assert updates[..|updates|] == updates;
    merged := Lock(lock.version, Sort(packages));
  }

  lemma {:induction false} KeepMembers(packages: seq<Entry>, updates: seq<Update>)
    ensures forall e :: e in Keep(packages, updates) <==> e in packages && Kept(e, updates)
  {
    if packages != [] {
      KeepMembers(packages[1..], updates);
      assert packages == [packages[0]] + packages[1..];
    }
  }

  lemma {:induction false} KeepUnique(packages: seq<Entry>, updates: seq<Update>)
    requires UniqueKeys(packages)
    ensures UniqueKeys(Keep(packages, updates))
  {
    if packages != [] {
      var head, rest := packages[0], packages[1..];
      assert packages == [head] + rest;
      UniqueCons(head, rest);
      KeepUnique(rest, updates);
      KeepMembers(rest, updates);
      UniqueCons(head, Keep(rest, updates));
      assert [] + Keep(rest, updates) == Keep(rest, updates);
    }
  }

  /** The written entry of an update, read off the lock before the merge. */
  function WrittenFor(packages: seq<Entry>, u: Update): Entry {
    Merged(Previous(packages, u), u)
  }

  ghost predicate Touched(e: Entry, updates: seq<Update>) {
    exists u :: u in updates && Matches(e, u)
  }

  /** `e` stands behind the first entry with the key of `u`: only a repeated key does. */
  predicate Later(packages: seq<Entry>, u: Update, e: Entry) {
    packages != [] && (if Matches(packages[0], u) then e in packages[1..] else Later(packages[1..], u, e))
  }

  lemma {:induction false} LaterAt(packages: seq<Entry>, u: Update, e: Entry)
    ensures Later(packages, u, e) <==> exists i :: Slot(packages, u) < i < |packages| && packages[i] == e
  {
    if packages != [] {
      var rest := packages[1..];
      LaterAt(rest, u, e);
      if Matches(packages[0], u) {
        if e in rest {
          var j :| 0 <= j < |rest| && rest[j] == e;
          assert packages[j + 1] == e;
        }
      } else {
        if Later(rest, u, e) {
          var j :| Slot(rest, u) < j < |rest| && rest[j] == e;
          assert packages[j + 1] == e;
        }
        if i :| Slot(packages, u) < i < |packages| && packages[i] == e {
          assert rest[i - 1] == e;
        }
      }
    }
  }

  lemma {:induction false} LaterIsMember(packages: seq<Entry>, u: Update, e: Entry)
    requires Later(packages, u, e)
    ensures e in packages
  {
    if !Matches(packages[0], u) {
      LaterIsMember(packages[1..], u, e);
    }
  }

  lemma {:induction false} KeepPrevious(packages: seq<Entry>, updates: seq<Update>, u: Update)
    requires u in updates
    ensures Previous(Keep(packages, updates), u) == Previous(packages, u)
  {
    if packages != [] {
      KeepPrevious(packages[1..], updates, u);
      PreviousCons(packages[0], packages[1..], u);
      PreviousCons(packages[0], Keep(packages[1..], updates), u);
      assert packages == [packages[0]] + packages[1..];
      assert [] + Keep(packages[1..], updates) == Keep(packages[1..], updates);
    }
  }

  lemma PreviousCons(e: Entry, rest: seq<Entry>, u: Update)
    ensures Previous([e] + rest, u) == if Matches(e, u) then Some(e) else Previous(rest, u)
  {
    assert ([e] + rest)[1..] == rest;
  }

  lemma {:induction false} KeepLater(packages: seq<Entry>, updates: seq<Update>, u: Update, e: Entry)
    requires u in updates && Matches(e, u)
    ensures Later(Keep(packages, updates), u, e) <==> Later(packages, u, e)
  {
    if packages != [] {
      var head, rest := packages[0], packages[1..];
      KeepLater(rest, updates, u, e);
      KeepMembers(rest, updates);
      assert ([head] + Keep(rest, updates))[1..] == Keep(rest, updates);
      assert [] + Keep(rest, updates) == Keep(rest, updates);
    }
  }

  // ---------------------------------------------------------------- one update

  lemma UpsertAt(packages: seq<Entry>, u: Update, i: nat)
    requires i < |packages|
    ensures i < |Upsert(packages, u)|
    ensures Upsert(packages, u)[i] == if i == Slot(packages, u) then WrittenFor(packages, u) else packages[i]
  {
  }

  /** An update does not disturb the entries of other names. */
  lemma UpsertOther(packages: seq<Entry>, u: Update, v: Update)
    requires u.name != v.name
    ensures Previous(Upsert(packages, u), v) == Previous(packages, v)
    ensures Slot(packages, v) < |packages| ==> Slot(Upsert(packages, u), v) == Slot(packages, v)
    ensures Slot(packages, v) == |packages| ==> Slot(Upsert(packages, u), v) == |Upsert(packages, u)|
  {
    var r := Upsert(packages, u);
    var i, j := Slot(packages, v), Slot(r, v);
    forall k | 0 <= k < |packages| ensures Matches(r[k], v) <==> Matches(packages[k], v) {
      UpsertAt(packages, u, k);
    }
    assert i < |packages| ==> Matches(r[i], v);
    assert j < |packages| ==> Matches(packages[j], v);
    if i < |packages| {
      UpsertAt(packages, u, i);
    }
  }

  lemma UpsertLater(packages: seq<Entry>, u: Update, v: Update, e: Entry)
    requires u.name != v.name && Matches(e, v)
    ensures Later(Upsert(packages, u), v, e) <==> Later(packages, v, e)
  {
    var r := Upsert(packages, u);
    UpsertOther(packages, u, v);
    LaterAt(packages, v, e);
    LaterAt(r, v, e);
    if i :| Slot(packages, v) < i < |packages| && packages[i] == e {
      UpsertAt(packages, u, i);
      assert r[i] == e;
    }
    if i :| Slot(r, v) < i < |r| && r[i] == e {
      if i < |packages| {
        UpsertAt(packages, u, i);
        assert packages[i] == e;
      }
    }
  }

  lemma UpsertMembers(packages: seq<Entry>, u: Update, e: Entry)
    ensures e in Upsert(packages, u) <==>
            || (e in packages && !Matches(e, u))
            || (Matches(e, u) && Later(packages, u, e))
            || e == WrittenFor(packages, u)
  {
    var s, r := Slot(packages, u), Upsert(packages, u);
    LaterAt(packages, u, e);
    assert r[s] == WrittenFor(packages, u);
    if e in packages && !Matches(e, u) {
      var i :| 0 <= i < |packages| && packages[i] == e;
      UpsertAt(packages, u, i);
      assert r[i] == e;
    }
    if i :| s < i < |packages| && packages[i] == e {
      assert r[i] == e;
    }
    if e in r {
      var i :| 0 <= i < |r| && r[i] == e;
      if i < |packages| {
        UpsertAt(packages, u, i);
      }
    }
  }

  lemma UpsertUnique(packages: seq<Entry>, u: Update)
    ensures UniqueKeys(Upsert(packages, u)) <==> UniqueKeys(packages)
  {
    var r := Upsert(packages, u);
    forall i | 0 <= i < |packages| ensures SameKey(r[i], packages[i]) {
      UpsertAt(packages, u, i);
    }
    if UniqueKeys(r) {
      forall i, j | 0 <= i < j < |packages| ensures !SameKey(packages[i], packages[j]) {
        assert !SameKey(r[i], r[j]);
      }
    }
  }

  // ---------------------------------------------------------------- all updates

  lemma {:induction false} UpsertAllUnique(packages: seq<Entry>, updates: seq<Update>)
    ensures UniqueKeys(UpsertAll(packages, updates)) <==> UniqueKeys(packages)
  {
    if updates != [] {
      var n := |updates| - 1;
      UpsertAllUnique(packages, updates[..n]);
      UpsertUnique(UpsertAll(packages, updates[..n]), updates[n]);
    }
  }

  ghost predicate NotNamed(updates: seq<Update>, name: string) {
    forall u :: u in updates ==> u.name != name
  }

  lemma EarlierNames(updates: seq<Update>, n: nat)
    requires UniqueNames(updates) && n < |updates|
    ensures UniqueNames(updates[..n]) && NotNamed(updates[..n], updates[n].name)
  {
  }

  /** What the other updates leave of the entries an update is about. */
  lemma {:induction false} UpsertAllOther(packages: seq<Entry>, updates: seq<Update>, v: Update)
    requires NotNamed(updates, v.name)
    ensures Previous(UpsertAll(packages, updates), v) == Previous(packages, v)
    ensures forall e :: Matches(e, v) ==> (Later(UpsertAll(packages, updates), v, e) <==> Later(packages, v, e))
  {
    if updates != [] {
      var n := |updates| - 1;
      var p := UpsertAll(packages, updates[..n]);
      UpsertAllOther(packages, updates[..n], v);
      assert updates[n] in updates;
      UpsertOther(p, updates[n], v);
      forall e | Matches(e, v) ensures Later(UpsertAll(packages, updates), v, e) <==> Later(packages, v, e) {
        UpsertLater(p, updates[n], v, e);
      }
    }
  }

  /** An entry that repeats the key of an update, behind the one it overwrites. */
  ghost predicate Leftover(packages: seq<Entry>, updates: seq<Update>, e: Entry) {
    exists u :: u in updates && Matches(e, u) && Later(packages, u, e)
  }

  ghost predicate WrittenBy(packages: seq<Entry>, updates: seq<Update>, e: Entry) {
    exists u :: u in updates && e == WrittenFor(packages, u)
  }

  ghost predicate Holds(packages: seq<Entry>, updates: seq<Update>, e: Entry) {
    (e in packages && !Touched(e, updates)) || Leftover(packages, updates, e) || WrittenBy(packages, updates, e)
  }

  /** The loop's invariant: untouched entries stay, and each update so far has written its entry. */
  lemma {:induction false} UpsertAllMembers(packages: seq<Entry>, updates: seq<Update>, e: Entry)
    requires UniqueNames(updates)
    ensures e in UpsertAll(packages, updates) <==> Holds(packages, updates, e)
  {
    if updates != [] {
      var n := |updates| - 1;
      var before, u := updates[..n], updates[n];
      EarlierNames(updates, n);
      UpsertAllMembers(packages, before, e);
      UpsertAllOther(packages, before, u);
      UpsertMembers(UpsertAll(packages, before), u, e);
      assert updates == before + [u];
      OneMoreUpdate(packages, before, u, e);
    }
  }

  lemma OneMoreUpdate(packages: seq<Entry>, before: seq<Update>, u: Update, e: Entry)
    requires NotNamed(before, u.name)
    ensures Holds(packages, before + [u], e) <==>
            || (Holds(packages, before, e) && !Matches(e, u))
            || (Matches(e, u) && Later(packages, u, e))
            || e == WrittenFor(packages, u)
  {
    var updates := before + [u];
    assert forall v :: v in updates <==> v in before || v == u;
    assert Touched(e, updates) <==> Touched(e, before) || Matches(e, u);
    assert Leftover(packages, updates, e) <==>
      Leftover(packages, before, e) || (Matches(e, u) && Later(packages, u, e));
    assert WrittenBy(packages, updates, e) <==> WrittenBy(packages, before, e) || e == WrittenFor(packages, u);
    assert Leftover(packages, before, e) || WrittenBy(packages, before, e) ==> !Matches(e, u);
  }

  /**
   * What a merge means, for every lock. The result is in order and holds
   * exactly the entries of names that were not updated, as they were; one
   * entry per update, built from the first entry that had its name and
   * version; and further entries that repeat such a key.
   */
  lemma MergeMeaning(lock: Lock, updates: seq<Update>, e: Entry)
    requires UniqueNames(updates)
    ensures WeaklySorted(Merge(lock, updates).packages)
    ensures e in Merge(lock, updates).packages <==>
            || (e in lock.packages && NotNamed(updates, e.name))
            || WrittenBy(lock.packages, updates, e)
            || Leftover(lock.packages, updates, e)
  {
    var kept := Keep(lock.packages, updates);
    KeepMembers(lock.packages, updates);
    UpsertAllMembers(kept, updates, e);
    SortSorts(UpsertAll(kept, updates));
    SortKeepsEntries(UpsertAll(kept, updates));
    forall u | u in updates ensures WrittenFor(kept, u) == WrittenFor(lock.packages, u) {
      KeepPrevious(lock.packages, updates, u);
    }
    forall u | u in updates && Matches(e, u) ensures Later(kept, u, e) <==> Later(lock.packages, u, e) {
      KeepLater(lock.packages, updates, u, e);
    }
  }

  /** `e` is what `u` leaves of the entry `p`: of an entry with the same digest, everything `u` does not set. */
  ghost predicate Overwrites(p: Entry, u: Update, e: Entry) {
    if p.digest == u.digest then
      e == p.(source := u.source, replaced := u.replaced, crdsDigest := u.crdsDigest,
              signature := if u.signature.Some? then u.signature else p.signature)
    else e == Bare(u)
  }

  /** An entry with nothing but what an update sets. */
  function Bare(u: Update): Entry {
    Entry(
      u.name, u.version, u.source, u.digest, None, u.signature, None, None, u.replaced, None, None, None, u.crdsDigest)
  }

  /** `e` records `u` in place of the first entry with its name and version, if `packages` has one. */
  ghost predicate Records(packages: seq<Entry>, u: Update, e: Entry) {
    && ((forall p :: p in packages ==> !(p.name == u.name && p.version == u.version)) ==> e == Bare(u))
    && (forall k: nat :: IsFirstOf(packages, u, k) ==> Overwrites(packages[k], u, e))
  }

  ghost predicate IsFirstOf(packages: seq<Entry>, u: Update, k: nat) {
    && k < |packages| && packages[k].name == u.name && packages[k].version == u.version
    && forall j :: 0 <= j < k ==> !(packages[j].name == u.name && packages[j].version == u.version)
  }

  lemma WrittenRecords(packages: seq<Entry>, u: Update)
    ensures Records(packages, u, WrittenFor(packages, u))
  {
    var s := Slot(packages, u);
    if s < |packages| {
      assert packages[s] in packages;
    }
  }

  /**
   * After a merge every update has its entry: name, version, source, digest,
   * fork and schema digest as updated; and, only if the first entry of that
   * name and version had the same digest, its other fields too.
   */
  lemma MergeRecords(lock: Lock, updates: seq<Update>, u: Update) returns (e: Entry)
    requires UniqueNames(updates) && u in updates
    ensures e in Merge(lock, updates).packages && Records(lock.packages, u, e)
  {
    e := WrittenFor(lock.packages, u);
    MergeMeaning(lock, updates, e);
    WrittenRecords(lock.packages, u);
  }

  /** No two entries have the update's name and version. */
  ghost predicate KeyOnce(packages: seq<Entry>, u: Update) {
    forall i, j :: 0 <= i < j < |packages| ==> !(Matches(packages[i], u) && Matches(packages[j], u))
  }

  lemma OnceCons(e: Entry, rest: seq<Entry>, u: Update)
    requires KeyOnce(rest, u) && (Matches(e, u) ==> forall x :: x in rest ==> !Matches(x, u))
    ensures KeyOnce([e] + rest, u)
  {
    var all := [e] + rest;
    forall i, j | 0 <= i < j < |all| ensures !(Matches(all[i], u) && Matches(all[j], u)) {
      assert all[j] == rest[j - 1] && all[j] in rest;
      assert i > 0 ==> all[i] == rest[i - 1];
    }
  }

  lemma NoneRepeats(head: Entry, rest: seq<Entry>, updates: seq<Update>, u: Update)
    requires u in updates && Matches(head, u) && Fresh(head, Keep(rest, updates))
    ensures forall x :: x in rest ==> !Matches(x, u)
  {
    KeepMembers(rest, updates);
    forall x | x in rest ensures !Matches(x, u) {
      assert Kept(x, updates) ==> x in Keep(rest, updates) && !SameKey(head, x);
      assert Matches(x, u) ==> Kept(x, updates) && SameKey(head, x);
    }
  }

  /** Entries with the key of an update are kept; if those kept repeat no key, it is there once. */
  lemma {:induction false} KeepOnce(packages: seq<Entry>, updates: seq<Update>, u: Update)
    requires u in updates && UniqueKeys(Keep(packages, updates))
    ensures KeyOnce(packages, u)
  {
    if packages != [] {
      var head, rest := packages[0], packages[1..];
      var kept := Keep(rest, updates);
      assert packages == [head] + rest && [] + kept == kept;
      UniqueCons(head, kept);
      KeepOnce(rest, updates, u);
      if Matches(head, u) {
        NoneRepeats(head, rest, updates, u);
      }
      OnceCons(head, rest, u);
    }
  }

  lemma OnceIsNotLater(packages: seq<Entry>, u: Update, e: Entry)
    requires KeyOnce(packages, u) && Matches(e, u)
    ensures !Later(packages, u, e)
  {
    LaterAt(packages, u, e);
    forall i | Slot(packages, u) < i < |packages| ensures packages[i] != e {
      assert !(Matches(packages[Slot(packages, u)], u) && Matches(packages[i], u));
    }
  }

  /** Where its key is in the lock at most once, an updated name has that entry alone. */
  lemma MergeRecordsOnly(lock: Lock, updates: seq<Update>, u: Update, e: Entry)
    requires UniqueNames(updates) && u in updates && KeyOnce(lock.packages, u)
    requires e in Merge(lock, updates).packages && e.name == u.name
    ensures Records(lock.packages, u, e)
    ensures e == WrittenFor(lock.packages, u)
  {
    MergeMeaning(lock, updates, e);
    SameName(updates, u);
    if Matches(e, u) {
      OnceIsNotLater(lock.packages, u, e);
    }
    WrittenRecords(lock.packages, u);
  }

  /** Only a lock that repeats a key of an update has leftovers. */
  lemma NoLeftovers(packages: seq<Entry>, updates: seq<Update>, e: Entry)
    requires UniqueKeys(packages)
    ensures !Leftover(packages, updates, e)
  {
    forall u | u in updates && Matches(e, u) ensures !Later(packages, u, e) {
      LaterAt(packages, u, e);
    }
  }

  // ---------------------------------------------------------------- what parses afterwards

  ghost predicate GoodDigests(updates: seq<Update>) {
    forall u :: u in updates ==> GoodDigest(u.digest)
  }

  lemma MergedDigests(lock: Lock, updates: seq<Update>, e: Entry)
    requires Accepted(lock) && UniqueNames(updates) && GoodDigests(updates) && e in Merge(lock, updates).packages
    ensures GoodDigest(e.digest)
  {
    MergeMeaning(lock, updates, e);
    if u :| u in updates && Matches(e, u) && Later(lock.packages, u, e) {
      LaterIsMember(lock.packages, u, e);
    }
    if e in lock.packages {
      var i :| 0 <= i < |lock.packages| && lock.packages[i] == e;
      assert EntryProblem(lock.packages, i).None?;
    }
  }

  /** A sorted lock parses exactly when no key is repeated. */
  lemma SortedParsesExactly(lock: Lock)
    requires lock.version == LOCK_VERSION && WeaklySorted(lock.packages)
    requires forall e :: e in lock.packages ==> GoodDigest(e.digest)
    ensures Accepted(lock) <==> UniqueKeys(lock.packages)
  {
    var p := lock.packages;
    if Accepted(lock) {
      forall i | 0 < i < |p| ensures !SameKey(p[i], p[i - 1]) {
        assert EntryProblem(p, i).None?;
      }
      NeighboursAreEnough(p);
    }
    if UniqueKeys(p) {
      forall i | 0 <= i < |p| ensures EntryProblem(p, i).None? {
        assert p[i] in p;
        if i > 0 {
          assert !SameKey(p[i - 1], p[i]) && !Before(p[i], p[i - 1]);
        }
      }
    }
  }

  /**
   * A merge into an accepted lock is accepted again exactly when the entries
   * it keeps repeat no key: sorting brings repeated keys together, where
   * `parseLock` sees them.
   */
  lemma MergeIsAcceptedExactly(lock: Lock, updates: seq<Update>)
    requires Accepted(lock) && UniqueNames(updates) && GoodDigests(updates)
    ensures Accepted(Merge(lock, updates)) <==> UniqueKeys(Keep(lock.packages, updates))
  {
    var kept := Keep(lock.packages, updates);
    var merged := Merge(lock, updates);
    forall e | e in merged.packages ensures GoodDigest(e.digest) {
      MergedDigests(lock, updates, e);
    }
    SortSorts(UpsertAll(kept, updates));
    SortedParsesExactly(merged);
    SortUnique(UpsertAll(kept, updates));
    UpsertAllUnique(kept, updates);
  }

  /** So a merge that keeps no repeated key parses, strictly sorted and without repeated keys. */
  lemma MergeIsAccepted(lock: Lock, updates: seq<Update>)
    requires Accepted(lock) && UniqueKeys(Keep(lock.packages, updates)) && UniqueNames(updates) && GoodDigests(updates)
    ensures Accepted(Merge(lock, updates)) && UniqueKeys(Merge(lock, updates).packages)
    ensures StrictlySorted(Merge(lock, updates).packages)
  {
    var kept := Keep(lock.packages, updates);
    MergeIsAcceptedExactly(lock, updates);
    SortSorts(UpsertAll(kept, updates));
    SortUnique(UpsertAll(kept, updates));
    UpsertAllUnique(kept, updates);
    UniqueSortedIsStrict(Merge(lock, updates).packages);
  }

  /**
   * A lock without repeated keys: its merges parse and repeat no key either,
   * and hold the entries of other names and what the updates wrote, no more.
   */
  lemma UniqueLockMerges(lock: Lock, updates: seq<Update>)
    requires Accepted(lock) && UniqueKeys(lock.packages) && UniqueNames(updates) && GoodDigests(updates)
    ensures Accepted(Merge(lock, updates)) && UniqueKeys(Merge(lock, updates).packages)
    ensures forall e :: e in Merge(lock, updates).packages <==>
                          (e in lock.packages && NotNamed(updates, e.name)) || WrittenBy(lock.packages, updates, e)
  {
    KeepUnique(lock.packages, updates);
    MergeIsAccepted(lock, updates);
    forall e
      ensures e in Merge(lock, updates).packages <==>
              (e in lock.packages && NotNamed(updates, e.name)) || WrittenBy(lock.packages, updates, e)
    {
      MergeMeaning(lock, updates, e);
      NoLeftovers(lock.packages, updates, e);
    }
  }

  /** The lock of `AcceptedMayRepeat`: whatever else a merge updates, its result is refused. */
  lemma RefusedMergeExample(updates: seq<Update>)
    requires UniqueNames(updates) && GoodDigests(updates) && NotNamed(updates, "a")
    ensures Accepted(RepeatingLock()) && !Accepted(Merge(RepeatingLock(), updates))
  {
    var lock := RepeatingLock();
    AcceptedMayRepeat();
    assert forall e :: e in lock.packages ==> Kept(e, updates);
    KeepAll(lock.packages, updates);
    MergeIsAcceptedExactly(lock, updates);
    assert SameKey(lock.packages[0], lock.packages[2]);
  }

  lemma {:induction false} KeepAll(packages: seq<Entry>, updates: seq<Update>)
    requires forall e :: e in packages ==> Kept(e, updates)
    ensures Keep(packages, updates) == packages
  {
    if packages != [] {
      assert packages == [packages[0]] + packages[1..];
      KeepAll(packages[1..], updates);
    }
  }

  // ---------------------------------------------------------------- how many entries

  function NameCount(packages: seq<Entry>, name: string): nat {
    if packages == [] then 0 else (if packages[0].name == name then 1 else 0) + NameCount(packages[1..], name)
  }

  function KeyCount(packages: seq<Entry>, u: Update): nat {
    if packages == [] then 0 else (if Matches(packages[0], u) then 1 else 0) + KeyCount(packages[1..], u)
  }

  lemma {:induction false} InsertCount(e: Entry, sorted: seq<Entry>, name: string)
    ensures NameCount(Insert(e, sorted), name) == NameCount([e] + sorted, name)
  {
    assert ([e] + sorted)[1..] == sorted;
    if sorted != [] && Before(sorted[0], e) {
      InsertCount(e, sorted[1..], name);
      assert ([e] + sorted[1..])[1..] == sorted[1..];
      assert Insert(e, sorted)[1..] == Insert(e, sorted[1..]);
    }
  }

  lemma {:induction false} SortCount(packages: seq<Entry>, name: string)
    ensures NameCount(Sort(packages), name) == NameCount(packages, name)
  {
    if packages != [] {
      SortCount(packages[1..], name);
      InsertCount(packages[0], Sort(packages[1..]), name);
      assert ([packages[0]] + Sort(packages[1..]))[1..] == Sort(packages[1..]);
    }
  }

  /** How many entries an update adds: one, when it has none to overwrite. */
  function Added(packages: seq<Entry>, u: Update): nat {
    if Previous(packages, u).None? then 1 else 0
  }

  lemma {:induction false} UpsertCount(packages: seq<Entry>, u: Update, name: string)
    ensures NameCount(Upsert(packages, u), name)
         == NameCount(packages, name) + if u.name == name then Added(packages, u) else 0
  {
    var w := WrittenFor(packages, u);
    if packages == [] {
      assert [w][1..] == [];
    } else if Matches(packages[0], u) {
      assert packages[0 := w][1..] == packages[1..];
    } else {
      UpsertCount(packages[1..], u, name);
      assert Upsert(packages, u) == [packages[0]] + Upsert(packages[1..], u);
      assert ([packages[0]] + Upsert(packages[1..], u))[1..] == Upsert(packages[1..], u);
    }
  }

  lemma {:induction false} OthersCount(packages: seq<Entry>, updates: seq<Update>, name: string)
    requires NotNamed(updates, name)
    ensures NameCount(UpsertAll(packages, updates), name) == NameCount(packages, name)
  {
    if updates != [] {
      var n := |updates| - 1;
      OthersCount(packages, updates[..n], name);
      UpsertCount(UpsertAll(packages, updates[..n]), updates[n], name);
    }
  }

  lemma {:induction false} UpdatedCount(packages: seq<Entry>, updates: seq<Update>, u: Update)
    requires UniqueNames(updates) && u in updates
    ensures NameCount(UpsertAll(packages, updates), u.name) == NameCount(packages, u.name) + Added(packages, u)
  {
    var n := |updates| - 1;
    var before, last := updates[..n], updates[n];
    EarlierNames(updates, n);
    assert updates == before + [last];
    UpsertCount(UpsertAll(packages, before), last, u.name);
    if u == last {
      UpsertAllOther(packages, before, u);
      OthersCount(packages, before, u.name);
    } else {
      assert u in before;
      UpdatedCount(packages, before, u);
    }
  }

  lemma {:induction false} KeepCount(packages: seq<Entry>, updates: seq<Update>, name: string)
    requires UniqueNames(updates)
    ensures NotNamed(updates, name) ==> NameCount(Keep(packages, updates), name) == NameCount(packages, name)
    ensures forall u :: u in updates && u.name == name ==>
              NameCount(Keep(packages, updates), name) == KeyCount(packages, u)
  {
    if packages != [] {
      var head, rest := packages[0], packages[1..];
      KeepCount(rest, updates, name);
      assert ([head] + Keep(rest, updates))[1..] == Keep(rest, updates);
      assert [] + Keep(rest, updates) == Keep(rest, updates);
      forall u | u in updates && u.name == name && head.name == name ensures Kept(head, updates) <==> Matches(head, u) {
        SameName(updates, u);
      }
    }
  }

  lemma SameName(updates: seq<Update>, u: Update)
    requires UniqueNames(updates) && u in updates
    ensures forall v :: v in updates && v.name == u.name ==> v == u
  {
    forall v | v in updates && v.name == u.name ensures v == u {
      var i, j :| 0 <= i < |updates| && 0 <= j < |updates| && updates[i] == u && updates[j] == v;
      assert i == j;
    }
  }

  lemma {:induction false} KeyCountMeaning(packages: seq<Entry>, u: Update)
    ensures KeyCount(packages, u) == 0 <==> Previous(packages, u).None?
  {
    if packages != [] {
      KeyCountMeaning(packages[1..], u);
      PreviousCons(packages[0], packages[1..], u);
      assert packages == [packages[0]] + packages[1..];
    }
  }

  /**
   * For every lock: other names keep as many entries as they had, and an
   * updated name has the one its update wrote and one for each further
   * repetition of that key. So it has exactly one exactly when the lock did
   * not repeat the key.
   */
  lemma OneEntryPerUpdate(lock: Lock, updates: seq<Update>, name: string)
    requires UniqueNames(updates)
    ensures var merged := Merge(lock, updates).packages;
            && (NotNamed(updates, name) ==> NameCount(merged, name) == NameCount(lock.packages, name))
            && forall u :: u in updates && u.name == name ==>
                 && WrittenFor(lock.packages, u) in merged
                 && NameCount(merged, name) == if KeyCount(lock.packages, u) <= 1 then 1 else KeyCount(lock.packages, u)
  {
    var kept := Keep(lock.packages, updates);
    SortCount(UpsertAll(kept, updates), name);
    KeepCount(lock.packages, updates, name);
    if NotNamed(updates, name) {
      OthersCount(kept, updates, name);
    }
    forall u | u in updates && u.name == name
      ensures WrittenFor(lock.packages, u) in Merge(lock, updates).packages
      ensures Previous(kept, u).None? <==> KeyCount(lock.packages, u) == 0
      ensures NameCount(UpsertAll(kept, updates), name) == NameCount(kept, name) + Added(kept, u)
    {
      UpdatedCount(kept, updates, u);
      KeepPrevious(lock.packages, updates, u);
      KeyCountMeaning(lock.packages, u);
      MergeMeaning(lock, updates, WrittenFor(lock.packages, u));
    }
  }

  // ---------------------------------------------------------------- merging again

  lemma {:induction false} InsertPrevious(e: Entry, sorted: seq<Entry>, u: Update)
    ensures Previous(Insert(e, sorted), u) == Previous([e] + sorted, u)
  {
    if sorted != [] && Before(sorted[0], e) {
      var head, rest := sorted[0], sorted[1..];
      assert sorted == [head] + rest;
      InsertPrevious(e, rest, u);
      BeforePair(head, e);
      PreviousCons(head, Insert(e, rest), u);
      PreviousCons(e, sorted, u);
      PreviousCons(e, rest, u);
      PreviousCons(head, rest, u);
    }
  }

  /** The sort is stable: the first entry with a key stays the first. */
  lemma {:induction false} SortPrevious(packages: seq<Entry>, u: Update)
    ensures Previous(Sort(packages), u) == Previous(packages, u)
  {
    if packages != [] {
      var head, rest := packages[0], packages[1..];
      assert packages == [head] + rest;
      SortPrevious(rest, u);
      InsertPrevious(head, Sort(rest), u);
      PreviousCons(head, rest, u);
      PreviousCons(head, Sort(rest), u);
    }
  }

  lemma UpsertPrevious(packages: seq<Entry>, u: Update)
    ensures Previous(Upsert(packages, u), u) == Some(WrittenFor(packages, u))
  {
    var s, r := Slot(packages, u), Upsert(packages, u);
    assert r[s] == WrittenFor(packages, u) && Matches(r[s], u);
    if Slot(r, u) < s {
      UpsertAt(packages, u, Slot(r, u));
    }
  }

  lemma {:induction false} UpsertAllPrevious(packages: seq<Entry>, updates: seq<Update>, u: Update)
    requires UniqueNames(updates) && u in updates
    ensures Previous(UpsertAll(packages, updates), u) == Some(WrittenFor(packages, u))
  {
    var n := |updates| - 1;
    var before, last := updates[..n], updates[n];
    EarlierNames(updates, n);
    assert updates == before + [last];
    UpsertAllOther(packages, before, last);
    UpsertPrevious(UpsertAll(packages, before), last);
    if u != last {
      assert u in before;
      UpsertAllPrevious(packages, before, u);
      UpsertOther(UpsertAll(packages, before), last, u);
    }
  }

  /** Writing an entry over itself leaves the lock as it is. */
  lemma {:induction false} UpsertAllAgain(packages: seq<Entry>, updates: seq<Update>)
    requires forall u :: u in updates ==> Previous(packages, u) == Some(WrittenFor(packages, u))
    ensures UpsertAll(packages, updates) == packages
  {
    if updates != [] {
      var n := |updates| - 1;
      UpsertAllAgain(packages, updates[..n]);
      assert updates[n] in updates;
    }
  }

  /** Merging the same updates again changes nothing, whatever the lock repeats. */
  lemma MergeIdempotent(lock: Lock, updates: seq<Update>)
    requires UniqueNames(updates)
    ensures Merge(Merge(lock, updates), updates) == Merge(lock, updates)
  {
    var kept := Keep(lock.packages, updates);
    var once := Merge(lock, updates).packages;
    forall u | u in updates
      ensures Previous(once, u) == Some(WrittenFor(once, u))
    {
      SortPrevious(UpsertAll(kept, updates), u);
      UpsertAllPrevious(kept, updates, u);
    }
    forall e | e in once ensures Kept(e, updates) {
      MergeMeaning(lock, updates, e);
    }
    KeepAll(once, updates);
    UpsertAllAgain(once, updates);
    SortSorts(UpsertAll(kept, updates));
    SortedStays(once);
  }

  // ---------------------------------------------------------------- pins

  /** `pinnedEntries`: every entry with a remote source, or only OCI blobs. */
  function PinnedEntries(packages: seq<Entry>, ociOnly: bool): (pins: seq<Entry>)
    ensures forall e :: e in pins <==> e in packages && Pins(e, ociOnly)
  {
    if packages == [] then []
    else
      assert packages == [packages[0]] + packages[1..];
      (if Pins(packages[0], ociOnly) then [packages[0]] else []) + PinnedEntries(packages[1..], ociOnly)
  }

  predicate Pins(e: Entry, ociOnly: bool) {
    if ociOnly then StartsWith(e.source, "oci://") else !StartsWith(e.source, "path+file://")
  }
}
