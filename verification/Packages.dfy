/**
 * Preparing a Package and the Packages it depends on for rendering
 * (`prepareTree`, host/src/worker.effect.ts). Dependency graphs are
 * arbitrary: cyclic, endless in depth, with Packages that do not resolve.
 */
module Packages {
  import opened Common

  const MAX_RENDER_DEPTH: nat := 16

  type Path = string

  datatype Dependency = Dependency(name: string, isPackage: bool, root: Path)

  /** The file system and the resolver, unchanged while one tree is prepared. */
  datatype Site = Site(realPath: Path -> Option<Path>, resolve: Path -> Option<seq<Dependency>>)

  /** A real path is its own real path. */
  ghost predicate Lawful(site: Site) {
    forall p :: site.realPath(p).Some? ==> site.realPath(site.realPath(p).value) == site.realPath(p)
  }

  datatype Tree = Package(root: Path, packages: map<string, Tree>) | Cycle | TooDeep

  // ---------------------------------------------------------------- the preparation

  /** A Package at `workspace` below the Packages of `ancestors`. */
  function Prepare(site: Site, workspace: Path, ancestors: seq<Path>): Option<Tree>
    requires |ancestors| < MAX_RENDER_DEPTH
    decreases MAX_RENDER_DEPTH - |ancestors|, 1, 0
  {
    var root := site.realPath(workspace);
    if root.None? then None
    else
      var resolved := site.resolve(workspace);
      if resolved.None? then None
      else
        var packages := PrepareAll(site, resolved.value, ancestors + [root.value], map[]);
        if packages.None? then None else Some(Package(root.value, packages.value))
  }

  /** One dependency on the render stack `stack`. */
  function PrepareOne(site: Site, root: Path, stack: seq<Path>): Option<Tree>
    requires |stack| <= MAX_RENDER_DEPTH
    decreases MAX_RENDER_DEPTH - |stack|, 2, 0
  {
    if root in stack then Some(Cycle)
    else if |stack| >= MAX_RENDER_DEPTH then Some(TooDeep)
    else Prepare(site, root, stack)
  }

  function PrepareAll(site: Site, dependencies: seq<Dependency>, stack: seq<Path>, packages: map<string, Tree>)
    : Option<map<string, Tree>>
    requires |stack| <= MAX_RENDER_DEPTH
    decreases MAX_RENDER_DEPTH - |stack|, 3, |dependencies|
  {
    if dependencies == [] then Some(packages)
    else
      var d := dependencies[0];
      if !d.isPackage then PrepareAll(site, dependencies[1..], stack, packages)
      else
        var root := site.realPath(d.root);
        if root.None? then None
        else
          var child := PrepareOne(site, root.value, stack);
          if child.None? then None
          else PrepareAll(site, dependencies[1..], stack, packages[d.name := child.value])
  }

  /** `prepareTree`: recursion below, one `packages` map filled per level. */
  method PrepareTree(site: Site, workspace: Path, ancestors: seq<Path>) returns (r: Option<Tree>)
    requires |ancestors| < MAX_RENDER_DEPTH
    ensures r == Prepare(site, workspace, ancestors)
    decreases MAX_RENDER_DEPTH - |ancestors|
  {
    var own := site.realPath(workspace);
    if own.None? {
      return None;
    }
    var stack := ancestors + [own.value];
    var resolved := site.resolve(workspace);
    if resolved.None? {
      return None;
    }
    var packages: map<string, Tree> := map[];
    var i := 0;
    while i < |resolved.value|
      invariant 0 <= i <= |resolved.value|
      invariant PrepareAll(site, resolved.value, stack, map[]) == PrepareAll(site, resolved.value[i..], stack, packages)
    {
      var d := resolved.value[i];
      assert resolved.value[i..][1..] == resolved.value[i + 1..];
      if d.isPackage {
        var root := site.realPath(d.root);
        if root.None? {
          return None;
        }
        var child;
        if root.value in stack {
          child := Cycle;
        } else if |stack| >= MAX_RENDER_DEPTH {
          child := TooDeep;
        } else {
          var below := PrepareTree(site, root.value, stack);
          if below.None? {
            return None;
          }
          child := below.value;
        }
        packages := packages[d.name := child];
      }
      i := i + 1;
    }
    return Some(Package(own.value, packages));
  }

  // ---------------------------------------------------------------- the graph itself

  /** The Package dependency a name stands for: the last one declared. */
  function Named(dependencies: seq<Dependency>, name: string): Option<Path> {
    if dependencies == [] then None
    else
      var last := dependencies[|dependencies| - 1];
      if last.isPackage && last.name == name then Some(last.root)
      else Named(dependencies[..|dependencies| - 1], name)
  }

  /** Where one name leads from the Package at `workspace`. */
  function Hop(site: Site, workspace: Path, name: string): Option<Path> {
    var resolved := site.resolve(workspace);
    if resolved.None? then None
    else
      var declared := Named(resolved.value, name);
      if declared.None? then None else site.realPath(declared.value)
  }

  /** The real roots met along a chain of names, with no limit of any kind. */
  function Walk(site: Site, workspace: Path, chain: seq<string>): Option<seq<Path>>
    decreases |chain|
  {
    if chain == [] then Some([])
    else
      var next := Hop(site, workspace, chain[0]);
      if next.None? then None
      else
        var rest := Walk(site, next.value, chain[1..]);
        if rest.None? then None else Some([next.value] + rest.value)
  }

  ghost predicate Distinct(roots: seq<Path>) {
    forall i, j :: 0 <= i < j < |roots| ==> roots[i] != roots[j]
  }

  /** What the tree holds at the end of a chain of names. */
  function Lookup(t: Tree, chain: seq<string>): Option<Tree> {
    if chain == [] then Some(t)
    else if t.Package? && chain[0] in t.packages then Lookup(t.packages[chain[0]], chain[1..])
    else None
  }

  /** The render stack at the end of a chain: every Package from the top down. */
  function StackOf(ancestors: seq<Path>, root: Path, walked: seq<Path>): (r: seq<Path>) {
    ancestors + [root] + walked
  }

  /**
   * What belongs at the end of a chain whose stack is `roots`: nothing below
   * a cycle or below the limit, else a Package, a cycle or the limit itself.
   */
  ghost predicate Placed(found: Option<Tree>, roots: seq<Path>)
    requires roots != []
  {
    var above := roots[..|roots| - 1];
    var last := roots[|roots| - 1];
    if !Distinct(above) || |above| > MAX_RENDER_DEPTH then found == None
    else if last in above then found == Some(Cycle)
    else if |above| == MAX_RENDER_DEPTH then found == Some(TooDeep)
    else found.Some? && found.value.Package? && found.value.root == last
  }

  // ---------------------------------------------------------------- one level

  /** The map one level builds holds exactly the declared names, each prepared on its own. */
  lemma {:induction false} PrepareAllMeaning(
    site: Site, dependencies: seq<Dependency>, stack: seq<Path>, packages: map<string, Tree>, name: string)
    requires |stack| <= MAX_RENDER_DEPTH
    requires PrepareAll(site, dependencies, stack, packages).Some?
    ensures var m := PrepareAll(site, dependencies, stack, packages).value;
            var declared := Named(dependencies, name);
            if declared.None? then (name in m <==> name in packages) && (name in m ==> m[name] == packages[name])
            else
              && name in m && site.realPath(declared.value).Some?
              && PrepareOne(site, site.realPath(declared.value).value, stack) == Some(m[name])
    decreases |dependencies|
  {
    if dependencies != [] {
      var d := dependencies[0];
      NamedFromFront(dependencies, name);
      if !d.isPackage {
        PrepareAllMeaning(site, dependencies[1..], stack, packages, name);
      } else {
        var child := PrepareOne(site, site.realPath(d.root).value, stack).value;
        PrepareAllMeaning(site, dependencies[1..], stack, packages[d.name := child], name);
      }
    }
  }

  lemma {:induction false} NamedFromFront(dependencies: seq<Dependency>, name: string)
    requires dependencies != []
    ensures var d := dependencies[0];
            var rest := Named(dependencies[1..], name);
            Named(dependencies, name) ==
            if rest.Some? then rest else if d.isPackage && d.name == name then Some(d.root) else None
    decreases |dependencies|
  {
    var n := |dependencies| - 1;
    if n > 0 {
      assert dependencies[1..][..n - 1] == dependencies[..n][1..];
      NamedFromFront(dependencies[..n], name);
    } else {
      assert dependencies[..n] == [] && dependencies[1..] == [];
    }
  }

  /** Every level succeeds exactly when each declared Package has a real root and prepares. */
  lemma {:induction false} PrepareAllSucceeds(
    site: Site, dependencies: seq<Dependency>, stack: seq<Path>, packages: map<string, Tree>)
    requires |stack| <= MAX_RENDER_DEPTH
    ensures PrepareAll(site, dependencies, stack, packages).Some? <==>
            forall d :: d in dependencies && d.isPackage ==> Preparable(site, d, stack)
    decreases |dependencies|
  {
    if dependencies != [] {
      var d := dependencies[0];
      assert forall e :: e in dependencies <==> e == d || e in dependencies[1..];
      if !d.isPackage {
        PrepareAllSucceeds(site, dependencies[1..], stack, packages);
      } else if Preparable(site, d, stack) {
        var child := PrepareOne(site, site.realPath(d.root).value, stack).value;
        PrepareAllSucceeds(site, dependencies[1..], stack, packages[d.name := child]);
      }
    }
  }

  predicate Preparable(site: Site, d: Dependency, stack: seq<Path>)
    requires |stack| <= MAX_RENDER_DEPTH
  {
    && site.realPath(d.root).Some?
    && PrepareOne(site, site.realPath(d.root).value, stack).Some?
  }

  // ---------------------------------------------------------------- whole trees

  /** A repeated root, a cycle: nothing is distinct any more further down. */
  lemma RepeatsStay(roots: seq<Path>, more: seq<Path>)
    requires !Distinct(roots)
    ensures !Distinct(roots + more)
  {
    var i, j :| 0 <= i < j < |roots| && roots[i] == roots[j];
    assert (roots + more)[i] == (roots + more)[j];
  }

  lemma DistinctGrows(roots: seq<Path>, next: Path)
    requires Distinct(roots)
    ensures Distinct(roots + [next]) <==> next !in roots
  {
    if next in roots {
      var i :| 0 <= i < |roots| && roots[i] == next;
      assert (roots + [next])[i] == (roots + [next])[|roots|];
    }
  }

  /** Below a dependency that cannot be rendered there is nothing, and the rule says so. */
  lemma NothingBelow(t: Tree, chain: seq<string>, roots: seq<Path>, more: seq<Path>)
    requires !t.Package? && chain != [] && |more| == |chain|
    requires !Distinct(roots) || |roots| > MAX_RENDER_DEPTH
    ensures Placed(Lookup(t, chain), roots + more)
  {
    var all := roots + more;
    assert all[..|all| - 1] == roots + more[..|more| - 1];
    if !Distinct(roots) {
      RepeatsStay(roots, more[..|more| - 1]);
    }
  }

  /**
   * Along every chain of names in a prepared tree: a Package exactly where
   * the real roots from the top are distinct and at most 16; a cycle exactly
   * where the root is on its own stack; the limit exactly where a 17th
   * Package would start; and no entry anywhere else.
   */
  lemma {:induction false} PreparedAlong(site: Site, workspace: Path, ancestors: seq<Path>, chain: seq<string>)
    requires Lawful(site) && |ancestors| < MAX_RENDER_DEPTH
    requires Prepare(site, workspace, ancestors).Some?
    requires Distinct(ancestors + [site.realPath(workspace).value])
    ensures var t := Prepare(site, workspace, ancestors).value;
            var walked := Walk(site, workspace, chain);
            if walked.None? then Lookup(t, chain).None?
            else Placed(Lookup(t, chain), StackOf(ancestors, t.root, walked.value))
    decreases |chain|, 0
  {
    var t := Prepare(site, workspace, ancestors).value;
    var stack := ancestors + [t.root];
    if chain == [] {
      assert StackOf(ancestors, t.root, [])[..|ancestors|] == ancestors;
      assert forall i :: 0 <= i < |ancestors| ==> stack[i] == ancestors[i];
    } else {
      PrepareAllMeaning(site, site.resolve(workspace).value, stack, map[], chain[0]);
      var next := Hop(site, workspace, chain[0]);
      if next.Some? {
        PreparedBelow(site, next.value, stack, t.packages[chain[0]], chain[1..]);
        var walked := Walk(site, next.value, chain[1..]);
        if walked.Some? {
          assert StackOf(ancestors, t.root, [next.value] + walked.value) == StackOf(stack, next.value, walked.value);
        }
      }
    }
  }

  lemma {:induction false} PreparedBelow(site: Site, root: Path, stack: seq<Path>, t: Tree, chain: seq<string>)
    requires Lawful(site) && |stack| <= MAX_RENDER_DEPTH && Distinct(stack)
    requires site.realPath(root) == Some(root)
    requires PrepareOne(site, root, stack) == Some(t)
    ensures var walked := Walk(site, root, chain);
            if walked.None? then Lookup(t, chain).None?
            else Placed(Lookup(t, chain), StackOf(stack, root, walked.value))
    decreases |chain|, 1
  {
    DistinctGrows(stack, root);
    if t.Package? {
      PreparedAlong(site, root, stack, chain);
    } else {
      var walked := Walk(site, root, chain);
      if chain == [] {
        assert StackOf(stack, root, [])[..|stack|] == stack;
      } else if walked.Some? {
        WalkLength(site, root, chain);
        NothingBelow(t, chain, stack + [root], walked.value);
      }
    }
  }

  lemma {:induction false} WalkLength(site: Site, workspace: Path, chain: seq<string>)
    requires Walk(site, workspace, chain).Some?
    ensures |Walk(site, workspace, chain).value| == |chain|
    decreases |chain|
  {
    if chain != [] {
      WalkLength(site, Hop(site, workspace, chain[0]).value, chain[1..]);
    }
  }

  /**
   * The tree `prepare` hands to a render: every Package in it is at most 15
   * names down, and the Packages from the top to it have distinct real roots.
   */
  lemma PackagesAreBounded(site: Site, workspace: Path, chain: seq<string>)
    requires Lawful(site) && Prepare(site, workspace, []).Some?
    requires var found := Lookup(Prepare(site, workspace, []).value, chain); found.Some? && found.value.Package?
    ensures |chain| < MAX_RENDER_DEPTH && Walk(site, workspace, chain).Some?
    ensures Distinct(StackOf([], Prepare(site, workspace, []).value.root, Walk(site, workspace, chain).value))
  {
    PreparedAlong(site, workspace, [], chain);
    WalkLength(site, workspace, chain);
    var roots := StackOf([], Prepare(site, workspace, []).value.root, Walk(site, workspace, chain).value);
    DistinctGrows(roots[..|chain|], roots[|chain|]);
    assert roots[..|chain|] + [roots[|chain|]] == roots;
  }

  // ---------------------------------------------------------------- when it succeeds

  /** A Package resolves, and each Package it declares exists. */
  ghost predicate Resolves(site: Site, workspace: Path) {
    && site.resolve(workspace).Some?
    && forall d :: d in site.resolve(workspace).value && d.isPackage ==> site.realPath(d.root).Some?
  }

  function EndOf(workspace: Path, walked: seq<Path>): Path {
    if walked == [] then workspace else walked[|walked| - 1]
  }

  /** The chain leads to a Package that a render could reach. */
  ghost predicate Needed(site: Site, workspace: Path, ancestors: seq<Path>, chain: seq<string>) {
    var root := site.realPath(workspace);
    var walked := Walk(site, workspace, chain);
    && root.Some? && walked.Some?
    && |StackOf(ancestors, root.value, walked.value)| <= MAX_RENDER_DEPTH
    && Distinct(StackOf(ancestors, root.value, walked.value))
  }

  ghost predicate ResolvesAt(site: Site, workspace: Path, chain: seq<string>) {
    var walked := Walk(site, workspace, chain);
    walked.Some? && Resolves(site, EndOf(workspace, walked.value))
  }

  /** `[dependencies]` is a table: no Package declares one name twice. */
  ghost predicate NamesAreKeys(site: Site) {
    forall p {:trigger site.resolve(p)} :: site.resolve(p).Some? ==> DistinctNames(site.resolve(p).value)
  }

  ghost predicate DistinctNames(dependencies: seq<Dependency>) {
    forall i, j :: 0 <= i < j < |dependencies| ==> dependencies[i].name != dependencies[j].name
  }

  lemma {:induction false} NamedFinds(dependencies: seq<Dependency>, i: nat)
    requires DistinctNames(dependencies) && i < |dependencies| && dependencies[i].isPackage
    ensures Named(dependencies, dependencies[i].name) == Some(dependencies[i].root)
    decreases |dependencies|
  {
    var n := |dependencies| - 1;
    if i < n {
      NamedFinds(dependencies[..n], i);
    }
  }

  lemma StackStep(ancestors: seq<Path>, root: Path, next: Path, walked: seq<Path>)
    ensures StackOf(ancestors, root, [next] + walked) == StackOf(ancestors + [root], next, walked)
    ensures Distinct(StackOf(ancestors, root, [next] + walked)) ==> next !in ancestors + [root]
  {
    var all := StackOf(ancestors, root, [next] + walked);
    var stack := ancestors + [root];
    if next in stack {
      var i :| 0 <= i < |stack| && stack[i] == next;
      assert all[i] == all[|stack|];
    }
  }

  lemma {:induction false} PreparedResolves(site: Site, workspace: Path, ancestors: seq<Path>, chain: seq<string>)
    requires Lawful(site) && |ancestors| < MAX_RENDER_DEPTH
    requires Prepare(site, workspace, ancestors).Some?
    requires Needed(site, workspace, ancestors, chain)
    ensures ResolvesAt(site, workspace, chain)
    decreases |chain|
  {
    var root := site.realPath(workspace).value;
    var stack := ancestors + [root];
    PrepareAllSucceeds(site, site.resolve(workspace).value, stack, map[]);
    if chain != [] {
      var next := Hop(site, workspace, chain[0]).value;
      var walked := Walk(site, next, chain[1..]).value;
      StackStep(ancestors, root, next, walked);
      PrepareAllMeaning(site, site.resolve(workspace).value, stack, map[], chain[0]);
      PreparedResolves(site, next, stack, chain[1..]);
    }
  }

  lemma {:induction false} FailureHasACause(
    site: Site, workspace: Path, ancestors: seq<Path>) returns (chain: seq<string>)
    requires Lawful(site) && NamesAreKeys(site) && |ancestors| < MAX_RENDER_DEPTH
    requires site.realPath(workspace).Some? && Prepare(site, workspace, ancestors).None?
    requires Distinct(ancestors + [site.realPath(workspace).value])
    ensures Needed(site, workspace, ancestors, chain) && !ResolvesAt(site, workspace, chain)
    decreases MAX_RENDER_DEPTH - |ancestors|
  {
    var root := site.realPath(workspace).value;
    var stack := ancestors + [root];
    chain := [];
    assert StackOf(ancestors, root, []) == stack;
    if Resolves(site, workspace) {
      var dependencies := site.resolve(workspace).value;
      PrepareAllSucceeds(site, dependencies, stack, map[]);
      var d :| d in dependencies && d.isPackage && !Preparable(site, d, stack);
      var i :| 0 <= i < |dependencies| && dependencies[i] == d;
      NamedFinds(dependencies, i);
      var next := site.realPath(d.root).value;
      DistinctGrows(stack, next);
      var rest := FailureHasACause(site, next, stack);
      chain := [d.name] + rest;
      assert chain[1..] == rest;
      StackStep(ancestors, root, next, Walk(site, next, rest).value);
    }
  }

  /**
   * Preparation ends on every graph, and it succeeds exactly when every
   * Package a render could reach resolves and its Packages exist: a Package
   * behind a cycle or past the limit is never looked at.
   */
  lemma PrepareSucceedsExactly(site: Site, workspace: Path)
    requires Lawful(site) && NamesAreKeys(site)
    ensures Prepare(site, workspace, []).Some? <==>
            && site.realPath(workspace).Some?
            && forall chain :: Needed(site, workspace, [], chain) ==> ResolvesAt(site, workspace, chain)
  {
    if Prepare(site, workspace, []).Some? {
      forall chain | Needed(site, workspace, [], chain) ensures ResolvesAt(site, workspace, chain) {
        PreparedResolves(site, workspace, [], chain);
      }
    } else if site.realPath(workspace).Some? {
      var chain := FailureHasACause(site, workspace, []);
    }
  }
}
