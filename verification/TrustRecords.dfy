/**
 * What `lock` and `update` write down, and what the next resolution makes of
 * it: the record of every dependency, and the render that follows.
 */
module TrustRecords {
  import opened Common
  import opened Lockfile
  import opened Oci
  import opened Trust
  import opened TrustPins

  // ---------------------------------------------------------------- what is written

  ghost predicate DistinctNames(deps: seq<(string, Dependency)>) {
    forall i, j :: 0 <= i < j < |deps| ==> deps[i].0 != deps[j].0
  }

  ghost predicate IsDeclared(deps: seq<(string, Dependency)>, name: string) {
    exists i :: 0 <= i < |deps| && deps[i].0 == name
  }

  /** What a command resolves before it writes: online, verified, from the sources themselves. */
  ghost function Resolving(w: World, st: State, net: Network, pins: PinScope): Resolution<seq<Resolved>> {
    ResolvePackage(w, net, st, Options(false, true, pins, true))
  }

  /** Schemas can be generated for a dependency that asks for them. */
  ghost predicate CanGenerate(w: World, r: Resolved) {
    r.crds.Some? ==> w.generate(r.name, r.files, r.crds.value).Some?
  }

  /** The directory of generated schemas: they and the file that says where they come from. */
  function SchemaTree(w: World, r: Resolved): Files
    requires r.crds.Some? && w.generate(r.name, r.files, r.crds.value).Some?
  {
    var p := Provenance(r.name, r.locked.source, r.locked.version, r.crds.value, r.digest);
    w.generate(r.name, r.files, r.crds.value).value["source.toml" := w.writeProvenance(p)]
  }

  /** What is to be recorded of a resolved dependency. */
  function Wanted(w: World, r: Resolved): Update
    requires CanGenerate(w, r)
  {
    Update(r.name, r.locked.version, r.locked.source, r.digest, r.locked.replaced, r.locked.signature,
           if r.crds.Some? then Some(w.treeDigest(SchemaTree(w, r))) else None)
  }

  lemma WantedIsUpdate(w: World, r: Resolved)
    ensures CanGenerate(w, r) <==> (r.crds.Some? ==> Schemas(w, r).Some?)
    ensures CanGenerate(w, r) ==> UpdateOf(w, r) == Wanted(w, r)
    ensures CanGenerate(w, r) && r.crds.Some? ==> Schemas(w, r) == Some(SchemaTree(w, r))
  {
  }

  /** The results a command records: all, or those of one name. */
  ghost predicate IsChosen(dep: Option<string>, r: Resolved) {
    dep.None? || r.name == dep.value
  }

  lemma {:induction false} SelectedMeaning(resolved: seq<Resolved>, dep: Option<string>)
    ensures forall r :: r in Selected(resolved, dep) <==> r in resolved && IsChosen(dep, r)
  {
    if dep.Some? && resolved != [] {
      SelectedMeaning(resolved[1..], dep);
      assert resolved == [resolved[0]] + resolved[1..];
    }
  }

  ghost predicate UniqueResults(resolved: seq<Resolved>) {
    forall i, j :: 0 <= i < j < |resolved| ==> resolved[i].name != resolved[j].name
  }

  lemma FirstIsUnique(r: Resolved, rest: seq<Resolved>)
    requires UniqueResults(rest) && forall x :: x in rest ==> x.name != r.name
    ensures UniqueResults([r] + rest)
  {
    var all := [r] + rest;
    forall i, j | 0 <= i < j < |all| ensures all[i].name != all[j].name {
      assert all[j] == rest[j - 1] && all[j] in rest;
      if i > 0 {
        assert all[i] == rest[i - 1];
      }
    }
  }

  lemma RestIsUnique(resolved: seq<Resolved>)
    requires UniqueResults(resolved) && resolved != []
    ensures UniqueResults(resolved[1..])
    ensures forall x :: x in resolved[1..] ==> x.name != resolved[0].name
  {
    var rest := resolved[1..];
    assert forall i :: 0 <= i < |rest| ==> rest[i] == resolved[i + 1];
  }

  lemma {:induction false} SelectedUnique(resolved: seq<Resolved>, dep: Option<string>)
    requires UniqueResults(resolved)
    ensures UniqueResults(Selected(resolved, dep))
  {
    if dep.Some? && resolved != [] {
      var rest := Selected(resolved[1..], dep);
      RestIsUnique(resolved);
      SelectedUnique(resolved[1..], dep);
      FirstIsUnique(resolved[0], rest);
      assert [] + rest == rest;
    }
  }

  lemma ResultsAreNamed(w: World, st: State, net: Network, pins: PinScope)
    requires DistinctNames(st.ws.dependencies) && Resolving(w, st, net, pins).result.Ok?
    ensures var r := Resolving(w, st, net, pins).result.value;
            && |r| == |st.ws.dependencies| && UniqueResults(r)
            && forall i :: 0 <= i < |r| ==> r[i].name == st.ws.dependencies[i].0
  {
    var o := Options(false, true, pins, true);
    var r := Resolving(w, st, net, pins).result.value;
    AllFill(w, net, st, o, st.ws.dependencies, ActiveKey(st.ws, o));
    forall i | 0 <= i < |r| ensures r[i].name == st.ws.dependencies[i].0 {
      var mid := PackageResults(w, net, st, o, i);
      var dep := st.ws.dependencies[i];
      ResolveFills(w, net, mid, RequestFor(w, st, o, dep.0, dep.1, ActiveKey(st.ws, o)));
    }
  }

  /** The lock after a command that records `chosen` over `prior`. */
  ghost predicate RecordsAll(w: World, prior: seq<Entry>, chosen: iset<Resolved>, after: seq<Entry>) {
    && (forall r :: r in chosen ==> CanGenerate(w, r) && RecordedIn(w, prior, r, after))
    && (forall e: Entry :: e in after && NoneNamed(chosen, e.name) <==> e in prior && NoneNamed(chosen, e.name))
  }

  ghost predicate NoneNamed(chosen: iset<Resolved>, name: string) {
    forall r :: r in chosen ==> r.name != name
  }

  /** There is an entry for `r`; where its key was there at most once, it is the only one of its name. */
  ghost predicate RecordedIn(w: World, prior: seq<Entry>, r: Resolved, after: seq<Entry>)
    requires CanGenerate(w, r)
  {
    && (exists e :: e in after && Records(prior, Wanted(w, r), e))
    && (KeyOnce(prior, Wanted(w, r)) ==>
          forall e :: e in after && e.name == r.name ==> Records(prior, Wanted(w, r), e))
  }

  lemma MergeRecordsAll(w: World, lock: Lock, chosen: seq<Resolved>)
    requires UniqueResults(chosen) && forall r :: r in chosen ==> CanGenerate(w, r)
    ensures UniqueNames(UpdatesOf(w, chosen))
    ensures RecordsAll(w, lock.packages, (iset r | r in chosen), Merge(lock, UpdatesOf(w, chosen)).packages)
  {
    var updates, picked := UpdatesOf(w, chosen), (iset r | r in chosen);
    forall i | 0 <= i < |updates| ensures updates[i] == Wanted(w, chosen[i]) {
      WantedIsUpdate(w, chosen[i]);
    }
    forall r | r in picked ensures RecordedIn(w, lock.packages, r, Merge(lock, updates).packages) {
      var i :| 0 <= i < |chosen| && chosen[i] == r;
      assert updates[i] in updates;
      var e := MergeRecords(lock, updates, updates[i]);
      if KeyOnce(lock.packages, updates[i]) {
        forall x | x in Merge(lock, updates).packages && x.name == r.name
          ensures Records(lock.packages, Wanted(w, r), x)
        {
          MergeRecordsOnly(lock, updates, updates[i], x);
        }
      }
    }
    forall e: Entry | NoneNamed(picked, e.name) ensures e in Merge(lock, updates).packages <==> e in lock.packages {
      OthersStay(w, lock, chosen, updates, e);
    }
  }

  lemma OthersStay(w: World, lock: Lock, chosen: seq<Resolved>, updates: seq<Update>, e: Entry)
    requires UniqueNames(updates) && |updates| == |chosen| && NoneNamed((iset r | r in chosen), e.name)
    requires forall i :: 0 <= i < |chosen| ==> updates[i].name == chosen[i].name
    ensures e in Merge(lock, updates).packages <==> e in lock.packages
  {
    forall u | u in updates ensures u.name != e.name {
      var i :| 0 <= i < |updates| && updates[i] == u;
      assert chosen[i] in chosen;
    }
    MergeMeaning(lock, updates, e);
  }

  /**
   * A command records what it resolved. When resolution and generation
   * succeed, each chosen dependency has an entry with exactly the name,
   * version, source, digest, fork, signature and schema digest of its result,
   * and the entries of other names are those there were; otherwise the lock
   * stays as it was.
   */
  lemma WriteRecords(w: World, st: State, net: Network, pins: PinScope, dep: Option<string>)
    requires DistinctNames(st.ws.dependencies)
    ensures var r := Resolving(w, st, net, pins).result;
            var after := WriteLock(w, st, net, pins, dep);
            if r.Ok? && forall x :: x in r.value && IsChosen(dep, x) ==> CanGenerate(w, x) then
              && after.lock.version == LOCK_VERSION
              && RecordsAll(w, Loaded(st.lock), (iset x | x in r.value && IsChosen(dep, x)), after.lock.packages)
            else after.lock == st.lock
  {
    var r := Resolving(w, st, net, pins);
    ResolvingKeeps(w, st, net, pins);
    if r.result.Ok? {
      ResultsAreNamed(w, st, net, pins);
      ChosenGenerate(w, r.result.value, dep);
      var chosen := Selected(r.result.value, dep);
      if Generates(w, chosen) {
        SelectedUnique(r.result.value, dep);
        MergeRecordsAll(w, Prior(st.lock), chosen);
      }
    }
  }

  lemma ResolvingKeeps(w: World, st: State, net: Network, pins: PinScope)
    ensures OnlyFills(st, Resolving(w, st, net, pins).state)
  {
    var o := Options(false, true, pins, true);
    AllFill(w, net, st, o, st.ws.dependencies, ActiveKey(st.ws, o));
  }

  lemma ChosenGenerate(w: World, resolved: seq<Resolved>, dep: Option<string>)
    ensures var chosen := Selected(resolved, dep);
            && (iset x | x in resolved && IsChosen(dep, x)) == (iset x | x in chosen)
            && (Generates(w, chosen) <==> forall x :: x in chosen ==> CanGenerate(w, x))
            && (Generates(w, chosen) <==> forall x :: x in resolved && IsChosen(dep, x) ==> CanGenerate(w, x))
  {
    var chosen := Selected(resolved, dep);
    SelectedMeaning(resolved, dep);
    forall x | x in chosen ensures CanGenerate(w, x) <==> (x.crds.Some? ==> Schemas(w, x).Some?) {
      WantedIsUpdate(w, x);
    }
  }

  /** `lock` records every dependency of the manifest. */
  lemma LockRecords(w: World, st: State, net: Network)
    requires DistinctNames(st.ws.dependencies)
    ensures var r := Resolving(w, st, net, OciPins).result;
            var after := Apply(w, st, LockCommand(net)).lock;
            if r.Ok? && forall x :: x in r.value ==> CanGenerate(w, x) then
              && |r.value| == |st.ws.dependencies| && after.version == LOCK_VERSION
              && (forall i :: 0 <= i < |r.value| ==>
                    && r.value[i].name == st.ws.dependencies[i].0
                    && RecordedIn(w, Loaded(st.lock), r.value[i], after.packages))
              && (forall e :: e in after.packages && !IsDeclared(st.ws.dependencies, e.name)
                         <==> e in Loaded(st.lock) && !IsDeclared(st.ws.dependencies, e.name))
            else after == st.lock
  {
    WriteRecords(w, st, net, OciPins, None);
    if Resolving(w, st, net, OciPins).result.Ok? {
      ResultsAreNamed(w, st, net, OciPins);
      NamesAreDeclared(st, Resolving(w, st, net, OciPins).result.value);
    }
  }

  lemma NamesAreDeclared(st: State, resolved: seq<Resolved>)
    requires |resolved| == |st.ws.dependencies|
    requires forall i :: 0 <= i < |resolved| ==> resolved[i].name == st.ws.dependencies[i].0
    ensures forall name :: NoneNamed((iset r | r in resolved && IsChosen(None, r)), name)
                      <==> !IsDeclared(st.ws.dependencies, name)
  {
    forall name
      ensures NoneNamed((iset r | r in resolved && IsChosen(None, r)), name) <==> !IsDeclared(st.ws.dependencies, name)
    {
      if i :| 0 <= i < |st.ws.dependencies| && st.ws.dependencies[i].0 == name {
        assert resolved[i] in (iset r | r in resolved && IsChosen(None, r));
      }
    }
  }

  /** `update --dep` records that dependency; entries of every other name stay. */
  lemma UpdateRecords(w: World, st: State, net: Network, i: nat)
    requires DistinctNames(st.ws.dependencies) && i < |st.ws.dependencies|
    ensures var name := st.ws.dependencies[i].0;
            var r := Resolving(w, st, net, NoPins).result;
            var after := Apply(w, st, UpdateCommand(net, Some(name))).lock;
            if r.Ok? && |r.value| == |st.ws.dependencies| && CanGenerate(w, r.value[i]) then
              && r.value[i].name == name && after.version == LOCK_VERSION
              && RecordedIn(w, Loaded(st.lock), r.value[i], after.packages)
              && (forall e :: e in after.packages && e.name != name <==> e in Loaded(st.lock) && e.name != name)
            else after == st.lock
  {
    var name := st.ws.dependencies[i].0;
    var r := Resolving(w, st, net, NoPins).result;
    WriteRecords(w, st, net, NoPins, Some(name));
    assert st.ws.dependencies[i] in st.ws.dependencies;
    if r.Ok? {
      ResultsAreNamed(w, st, net, NoPins);
      OnlyOneNamed(r.value, i);
      if CanGenerate(w, r.value[i]) {
        OneIsRecorded(w, Loaded(st.lock), r.value[i], WriteLock(w, st, net, NoPins, Some(name)).lock.packages);
      }
    }
  }

  lemma OneIsRecorded(w: World, prior: seq<Entry>, r: Resolved, after: seq<Entry>)
    requires RecordsAll(w, prior, iset{r}, after)
    ensures CanGenerate(w, r) && RecordedIn(w, prior, r, after)
    ensures forall e :: e in after && e.name != r.name <==> e in prior && e.name != r.name
  {
    assert r in iset{r};
    forall e: Entry ensures NoneNamed(iset{r}, e.name) <==> e.name != r.name {
    }
  }

  lemma OnlyOneNamed(resolved: seq<Resolved>, i: nat)
    requires UniqueResults(resolved) && i < |resolved|
    ensures (iset r | r in resolved && IsChosen(Some(resolved[i].name), r)) == iset{resolved[i]}
    ensures forall x :: x in resolved && IsChosen(Some(resolved[i].name), x) <==> x == resolved[i]
  {
    forall x | x in resolved && x.name == resolved[i].name ensures x == resolved[i] {
      var j :| 0 <= j < |resolved| && resolved[j] == x;
      assert j == i || j < i || i < j;
    }
  }

  /** A name that is not declared is refused. */
  lemma UndeclaredUpdate(w: World, st: State, net: Network, name: string)
    requires !IsDeclared(st.ws.dependencies, name)
    ensures Apply(w, st, UpdateCommand(net, Some(name))) == st
  {
    forall d | d in st.ws.dependencies ensures d.0 != name {
      var i :| 0 <= i < |st.ws.dependencies| && st.ws.dependencies[i] == d;
    }
  }
}
