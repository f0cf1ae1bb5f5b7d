/**
 * Rendering a prepared Package (host/src/worker.effect.ts): the guest calls
 * plugins, `pkg.render` among them, so renders nest; all of them share one
 * budget, and the first plugin failure is what an aborting guest reports.
 */
module Composition {
  import opened Common
  import opened EngineBudget
  import opened Packages

  const MAX_NESTED_RENDERS: nat := 64

  datatype Reason = OutOfFuelReason | MemoryLimit | Trap

  datatype Program = Resources | NotYaml | Misshapen

  datatype Response = Garbled | Failing | Yaml(program: Program)

  /** How a render ends; `NotStarted` is a request that does not encode or a worker that cannot be made. */
  datatype End = NotStarted | Stopped(reason: Reason) | Exited(code: int, response: Response)

  /** One plugin call a guest makes, with what its environment does. */
  datatype Call =
    | Plain(failure: Option<Option<Code>>)
    | EngineCall(engine: Engine, guest: Guest, accepted: bool)
    | PkgRender(name: string, child: Script)

  /** Everything one guest does: its plugin calls in order, then its end. */
  datatype Script = Ends(end: End) | Calls(call: Call, rest: Script)

  datatype Failure = RenderError | ProgramShape | GuestFailure(reason: Reason) | PluginError(code: Option<Code>)

  /** A plugin call that failed: the ends of the guests around it, outermost first, and its code. */
  datatype Report = Report(ends: seq<End>, code: Option<Code>)

  /**
   * The shared budget, and what has happened: the Packages whose renders were
   * begun (as chains of names from the top) and the plugin calls that failed.
   */
  datatype Budget = Budget(nested: nat, engine: State, started: seq<seq<string>>, failures: seq<Report>)

  // ---------------------------------------------------------------- codes

  function BudgetCode(reason: Reason): Option<Code> {
    match reason
    case OutOfFuelReason => Some(DEADLINE)
    case MemoryLimit => Some("E_RENDER_BUDGET_MEMORY")
    case Trap => None
  }

  /** The code a nested render's failure keeps. */
  function CodeOf(f: Failure): Option<Code> {
    match f
    case PluginError(code) => code
    case GuestFailure(reason) => BudgetCode(reason)
    case _ => None
  }

  function ReportedCode(code: Option<Code>): Code {
    if code.Some? then code.value else "E_RENDER_KCL"
  }

  /** `toCliFailure` on what a render can fail with: the code reported and the exit code. */
  function CliFailure(f: Failure): (Code, int) {
    match f
    case GuestFailure(reason) => BudgetFailure(ReportedCode(BudgetCode(reason)))
    case PluginError(code) => BudgetFailure(ReportedCode(code))
    case RenderError => ("E_RENDER_KCL", 1)
    case ProgramShape => ("E_PACKAGE_PARSE", 1)
  }

  function BudgetFailure(code: Code): (Code, int) {
    (code, if code == DEADLINE then 6 else 1)
  }

  // ---------------------------------------------------------------- the render

  function OrFirst(first: Option<Option<Code>>, otherwise: Failure): Failure {
    if first.Some? then PluginError(first.value) else otherwise
  }

  /** What a finished worker run amounts to, given the first plugin failure. */
  function Conclude(end: End, first: Option<Option<Code>>): Option<Failure> {
    match end
    case NotStarted => Some(OrFirst(first, RenderError))
    case Stopped(reason) => Some(if reason == Trap then OrFirst(first, GuestFailure(Trap)) else GuestFailure(reason))
    case Exited(code, response) =>
      if code != 0 then Some(OrFirst(first, RenderError))
      else
        match response
        case Garbled => Some(RenderError)
        case Failing => Some(OrFirst(first, RenderError))
        case Yaml(Resources) => None
        case Yaml(NotYaml) => Some(RenderError)
        case Yaml(Misshapen) => Some(ProgramShape)
  }

  function FinalEnd(s: Script): End {
    match s
    case Ends(end) => end
    case Calls(_, rest) => FinalEnd(rest)
  }

  function Logged(b: Budget, failure: Option<Option<Code>>, ends: seq<End>): Budget {
    if failure.None? then b else b.(failures := b.failures + [Report(ends, failure.value)])
  }

  /** `renderTree` of the Package at the end of `chain`, inside guests that end as `ends` says. */
  function Render(
    limit: nat, t: Tree, s: Script, chain: seq<string>, ends: seq<End>, b: Budget): (r: (Option<Failure>, Budget))
    requires t.Package? && Valid(limit, b.engine)
    ensures Valid(limit, r.1.engine)
    decreases s, 1
  {
    Evaluate(limit, t, s, chain, ends + [FinalEnd(s)], None, b.(started := b.started + [chain]))
  }

  /** The guest from here on, `first` being its first plugin failure so far. */
  function Evaluate(
    limit: nat, t: Tree, s: Script, chain: seq<string>, ends: seq<End>, first: Option<Option<Code>>, b: Budget)
    : (r: (Option<Failure>, Budget))
    requires t.Package? && Valid(limit, b.engine)
    ensures Valid(limit, r.1.engine)
    decreases s, 0
  {
    match s
    case Ends(end) => (Conclude(end, first), b)
    case Calls(call, rest) =>
      var (failure, b1) := Invoke(limit, t, call, chain, ends, b);
      Evaluate(limit, t, rest, chain, ends, OrElse(first, failure), Logged(b1, failure, ends))
  }

  /** One plugin call; the result is its failure's code, if it fails. */
  function Invoke(
    limit: nat, t: Tree, call: Call, chain: seq<string>, ends: seq<End>, b: Budget): (r: (Option<Option<Code>>, Budget))
    requires t.Package? && Valid(limit, b.engine)
    ensures Valid(limit, r.1.engine)
    decreases call, 0
  {
    match call
    case Plain(failure) => (failure, b)
    case EngineCall(engine, guest, accepted) =>
      CallKeepsValid(limit, b.engine, engine, guest);
      var (reply, st) := EngineBudget.Call(limit, b.engine, engine, guest);
      (EngineFailure(reply, accepted), b.(engine := st))
    case PkgRender(name, child) =>
      if name !in t.packages then (Some(None), b)
      else if t.packages[name].Cycle? then (Some(Some("E_RENDER_CYCLE")), b)
      else if t.packages[name].TooDeep? then (Some(Some("E_RENDER_BUDGET_DEPTH")), b)
      else if b.nested + 1 > MAX_NESTED_RENDERS then (Some(Some(DEADLINE)), b.(nested := b.nested + 1))
      else
        var (failure, b1) := Render(limit, t.packages[name], child, chain + [name], ends, b.(nested := b.nested + 1));
        (if failure.None? then None else Some(CodeOf(failure.value)), b1)
  }

  /** An engine call's failure as a plugin failure; its answer may still be refused. */
  function EngineFailure(reply: Reply, accepted: bool): Option<Option<Code>> {
    match reply
    case Answered => if accepted then None else Some(None)
    case Failed(code) => Some(code)
    case Died => Some(None)
  }

  /** A top-level render starts with nothing spent. */
  function Fresh(engine: State): Budget {
    Budget(0, NewRender(engine), [], [])
  }

  // ---------------------------------------------------------------- the nested budget

  function Admitted(nested: nat): nat {
    if nested < MAX_NESTED_RENDERS then nested else MAX_NESTED_RENDERS
  }

  lemma {:induction false} RenderCounts(limit: nat, t: Tree, s: Script, chain: seq<string>, ends: seq<End>, b: Budget)
    requires t.Package? && Valid(limit, b.engine)
    ensures var b' := Render(limit, t, s, chain, ends, b).1;
            && |b'.started| + Admitted(b.nested) == |b.started| + 1 + Admitted(b'.nested)
            && b'.nested >= b.nested && b'.engine.fuelSpent >= b.engine.fuelSpent
    decreases s, 1
  {
    EvaluateCounts(limit, t, s, chain, ends + [FinalEnd(s)], None, b.(started := b.started + [chain]));
  }

  lemma {:induction false} EvaluateCounts(
    limit: nat, t: Tree, s: Script, chain: seq<string>, ends: seq<End>, first: Option<Option<Code>>, b: Budget)
    requires t.Package? && Valid(limit, b.engine)
    ensures var b' := Evaluate(limit, t, s, chain, ends, first, b).1;
            && |b'.started| + Admitted(b.nested) == |b.started| + Admitted(b'.nested)
            && b'.nested >= b.nested && b'.engine.fuelSpent >= b.engine.fuelSpent
    decreases s, 0
  {
    if s.Calls? {
      InvokeCounts(limit, t, s.call, chain, ends, b);
      var (failure, b1) := Invoke(limit, t, s.call, chain, ends, b);
      EvaluateCounts(limit, t, s.rest, chain, ends, OrElse(first, failure), Logged(b1, failure, ends));
    }
  }

  lemma {:induction false} InvokeCounts(limit: nat, t: Tree, call: Call, chain: seq<string>, ends: seq<End>, b: Budget)
    requires t.Package? && Valid(limit, b.engine)
    ensures var b' := Invoke(limit, t, call, chain, ends, b).1;
            && |b'.started| + Admitted(b.nested) == |b.started| + Admitted(b'.nested)
            && b'.nested >= b.nested && b'.engine.fuelSpent >= b.engine.fuelSpent
    decreases call, 0
  {
    match call
    case Plain(_) =>
    case EngineCall(engine, guest, _) =>
      CallKeepsValid(limit, b.engine, engine, guest);
    case PkgRender(name, child) =>
      if name in t.packages && t.packages[name].Package? && b.nested + 1 <= MAX_NESTED_RENDERS {
        RenderCounts(limit, t.packages[name], child, chain + [name], ends, b.(nested := b.nested + 1));
      }
  }

  /**
   * Whatever the guests do, one top-level render starts at most 64 nested
   * workers, every admitted attempt starts one, and the engine fuel all of
   * them spend together stays within the budget and is what was burned.
   */
  lemma RenderIsBounded(limit: nat, t: Tree, s: Script, engine: State)
    requires t.Package? && Valid(limit, engine)
    ensures Valid(limit, NewRender(engine))
    ensures var b' := Render(limit, t, s, [], [], Fresh(engine)).1;
            && |b'.started| == 1 + Admitted(b'.nested) <= 1 + MAX_NESTED_RENDERS
            && b'.engine.fuelSpent == TotalBurned(b'.engine.instances) <= limit
  {
    NewRenderIsValid(limit, engine);
    RenderCounts(limit, t, s, [], [], Fresh(engine));
  }

  // ---------------------------------------------------------------- where workers start

  /** Each chain leads to a Package of the tree. */
  ghost predicate AllInTree(top: Tree, chains: seq<seq<string>>) {
    forall i :: 0 <= i < |chains| ==> IsPackageAt(top, chains[i])
  }

  predicate IsPackageAt(top: Tree, chain: seq<string>) {
    Lookup(top, chain).Some? && Lookup(top, chain).value.Package?
  }

  lemma {:induction false} LookupStep(top: Tree, chain: seq<string>, name: string)
    requires Lookup(top, chain).Some? && Lookup(top, chain).value.Package? && name in Lookup(top, chain).value.packages
    ensures Lookup(top, chain + [name]) == Some(Lookup(top, chain).value.packages[name])
    decreases |chain|
  {
    if chain == [] {
      assert Lookup(top.packages[name], []) == Some(top.packages[name]);
      assert (chain + [name])[1..] == [];
    } else {
      assert (chain + [name])[1..] == chain[1..] + [name];
      LookupStep(top.packages[chain[0]], chain[1..], name);
    }
  }

  lemma {:induction false} RenderStaysInTree(
    limit: nat, top: Tree, t: Tree, s: Script, chain: seq<string>, ends: seq<End>, b: Budget)
    requires t.Package? && Valid(limit, b.engine) && Lookup(top, chain) == Some(t) && AllInTree(top, b.started)
    ensures AllInTree(top, Render(limit, t, s, chain, ends, b).1.started)
    decreases s, 1
  {
    EvaluateStaysInTree(limit, top, t, s, chain, ends + [FinalEnd(s)], None, b.(started := b.started + [chain]));
  }

  lemma {:induction false} EvaluateStaysInTree(
    limit: nat, top: Tree, t: Tree, s: Script, chain: seq<string>, ends: seq<End>, first: Option<Option<Code>>,
    b: Budget)
    requires t.Package? && Valid(limit, b.engine) && Lookup(top, chain) == Some(t) && AllInTree(top, b.started)
    ensures AllInTree(top, Evaluate(limit, t, s, chain, ends, first, b).1.started)
    decreases s, 0
  {
    if s.Calls? {
      InvokeStaysInTree(limit, top, t, s.call, chain, ends, b);
      var (failure, b1) := Invoke(limit, t, s.call, chain, ends, b);
      EvaluateStaysInTree(limit, top, t, s.rest, chain, ends, OrElse(first, failure), Logged(b1, failure, ends));
    }
  }

  lemma {:induction false} InvokeStaysInTree(
    limit: nat, top: Tree, t: Tree, call: Call, chain: seq<string>, ends: seq<End>, b: Budget)
    requires t.Package? && Valid(limit, b.engine) && Lookup(top, chain) == Some(t) && AllInTree(top, b.started)
    ensures AllInTree(top, Invoke(limit, t, call, chain, ends, b).1.started)
    decreases call, 0
  {
    if call.PkgRender? && call.name in t.packages {
      LookupStep(top, chain, call.name);
      if t.packages[call.name].Package? && b.nested + 1 <= MAX_NESTED_RENDERS {
        RenderStaysInTree(
          limit, top, t.packages[call.name], call.child, chain + [call.name], ends, b.(nested := b.nested + 1));
      }
    }
  }

  /**
   * Preparing and rendering together: every worker a render starts is for a
   * Package at most 15 names below the top, and no Package is ever rendered
   * inside a render of itself.
   */
  lemma NoRenderInsideItself(site: Site, workspace: Path, limit: nat, s: Script, engine: State, i: nat)
    requires Packages.Lawful(site) && Prepare(site, workspace, []).Some? && Valid(limit, engine)
    requires Valid(limit, NewRender(engine))
    requires i < |Render(limit, Prepare(site, workspace, []).value, s, [], [], Fresh(engine)).1.started|
    ensures var t := Prepare(site, workspace, []).value;
            var chain := Render(limit, t, s, [], [], Fresh(engine)).1.started[i];
            && |chain| < MAX_RENDER_DEPTH
            && Walk(site, workspace, chain).Some?
            && Distinct(StackOf([], t.root, Walk(site, workspace, chain).value))
  {
    var t := Prepare(site, workspace, []).value;
    RenderStaysInTree(limit, t, t, s, [], [], Fresh(engine));
    var chain := Render(limit, t, s, [], [], Fresh(engine)).1.started[i];
    assert IsPackageAt(t, chain);
    PackagesAreBounded(site, workspace, chain);
  }

  // ---------------------------------------------------------------- the failure that surfaces

  /** The guest traps, exits non-zero or reports failure. */
  predicate Aborts(end: End) {
    match end
    case NotStarted => false
    case Stopped(reason) => reason == Trap
    case Exited(code, response) => code != 0 || response.Failing?
  }

  /** The guests around the failure, from the `outer`-th inwards, all abort. */
  ghost predicate AllAbort(r: Report, outer: nat) {
    forall i :: outer <= i < |r.ends| ==> Aborts(r.ends[i])
  }

  ghost predicate Extends(b: Budget, b': Budget) {
    |b.failures| <= |b'.failures| && b'.failures[..|b.failures|] == b.failures
  }

  lemma ExtendsTransitive(a: Budget, b: Budget, c: Budget)
    requires Extends(a, b) && Extends(b, c)
    ensures Extends(a, c)
    ensures |b.failures| > |a.failures| ==> c.failures[|a.failures|] == b.failures[|a.failures|]
  {
    assert c.failures[..|a.failures|] == c.failures[..|b.failures|][..|a.failures|];
    if |b.failures| > |a.failures| {
      assert c.failures[..|b.failures|][|a.failures|] == b.failures[|a.failures|];
    }
  }

  lemma {:induction false} RenderSurfaces(limit: nat, t: Tree, s: Script, chain: seq<string>, ends: seq<End>, b: Budget)
    requires t.Package? && Valid(limit, b.engine)
    ensures var (r, b') := Render(limit, t, s, chain, ends, b);
            var n := |b.failures|;
            && Extends(b, b')
            && (|b'.failures| > n ==> ends <= b'.failures[n].ends)
            && (|b'.failures| > n && AllAbort(b'.failures[n], |ends|) ==> r == Some(PluginError(b'.failures[n].code)))
    decreases s, 1
  {
    var inner := ends + [FinalEnd(s)];
    var b0 := b.(started := b.started + [chain]);
    EvaluateSurfaces(limit, t, s, chain, inner, None, b0);
    var (r, b') := Evaluate(limit, t, s, chain, inner, None, b0);
    var n := |b.failures|;
    if |b'.failures| > n && AllAbort(b'.failures[n], |ends|) {
      assert inner[|ends|] == FinalEnd(s);
      assert b'.failures[n].ends[|ends|] == FinalEnd(s);
    }
  }

  /** What `EvaluateSurfaces` says of the guest's remaining calls. */
  ghost predicate Kept(
    end: End, ends: seq<End>, first: Option<Option<Code>>, b: Budget, r: Option<Failure>, b': Budget)
  {
    var n := |b.failures|;
    && Extends(b, b')
    && (first.Some? && Aborts(end) ==> r == Some(PluginError(first.value)))
    && (|b'.failures| > n ==>
          && ends <= b'.failures[n].ends
          && (first.None? && Aborts(end) && AllAbort(b'.failures[n], |ends|) ==>
                r == Some(PluginError(b'.failures[n].code))))
  }

  lemma {:induction false} EvaluateSurfaces(
    limit: nat, t: Tree, s: Script, chain: seq<string>, ends: seq<End>, first: Option<Option<Code>>, b: Budget)
    requires t.Package? && Valid(limit, b.engine)
    ensures var (r, b') := Evaluate(limit, t, s, chain, ends, first, b);
            Kept(FinalEnd(s), ends, first, b, r, b')
    decreases s, 0
  {
    if s.Calls? {
      var (failure, b1) := Invoke(limit, t, s.call, chain, ends, b);
      InvokeSurfaces(limit, t, s.call, chain, ends, b);
      var b2 := Logged(b1, failure, ends);
      var next := OrElse(first, failure);
      EvaluateSurfaces(limit, t, s.rest, chain, ends, next, b2);
      var (r, b') := Evaluate(limit, t, s.rest, chain, ends, next, b2);
      CallThenRest(FinalEnd(s), ends, first, b, failure, b1, r, b');
    }
  }

  /** What `InvokeSurfaces` says of one call. */
  ghost predicate CallKept(ends: seq<End>, b: Budget, failure: Option<Option<Code>>, b1: Budget) {
    var n := |b.failures|;
    && Extends(b, b1)
    && (|b1.failures| > n ==>
          && ends <= b1.failures[n].ends
          && (AllAbort(b1.failures[n], |ends|) ==> failure == Some(b1.failures[n].code)))
  }

  lemma CallThenRest(
    end: End, ends: seq<End>, first: Option<Option<Code>>, b: Budget, failure: Option<Option<Code>>, b1: Budget,
    r: Option<Failure>, b': Budget)
    requires CallKept(ends, b, failure, b1)
    requires Kept(end, ends, OrElse(first, failure), Logged(b1, failure, ends), r, b')
    ensures Kept(end, ends, first, b, r, b')
  {
    var b2 := Logged(b1, failure, ends);
    assert Extends(b1, b2);
    ExtendsTransitive(b, b1, b2);
    ExtendsTransitive(b, b2, b');
  }

  lemma {:induction false} InvokeSurfaces(
    limit: nat, t: Tree, call: Call, chain: seq<string>, ends: seq<End>, b: Budget)
    requires t.Package? && Valid(limit, b.engine)
    ensures var (failure, b1) := Invoke(limit, t, call, chain, ends, b);
            CallKept(ends, b, failure, b1)
    decreases call, 0
  {
    if && call.PkgRender? && call.name in t.packages && t.packages[call.name].Package?
       && b.nested + 1 <= MAX_NESTED_RENDERS
    {
      RenderSurfaces(limit, t.packages[call.name], call.child, chain + [call.name], ends, b.(nested := b.nested + 1));
    }
  }

  /**
   * At every depth of nesting: when every guest around the first plugin
   * failure of a render traps, exits non-zero or reports failure, the render
   * fails with that failure's code, and the process exits with 6 exactly when
   * it is the deadline code.
   */
  lemma FirstFailureSurfaces(limit: nat, t: Tree, s: Script, engine: State)
    requires t.Package? && Valid(limit, NewRender(engine))
    requires var failures := Render(limit, t, s, [], [], Fresh(engine)).1.failures;
             failures != [] && AllAbort(failures[0], 0)
    ensures var (r, b') := Render(limit, t, s, [], [], Fresh(engine));
            var code := b'.failures[0].code;
            && r == Some(PluginError(code))
            && (CliFailure(r.value).1 == 6 <==> code == Some(DEADLINE))
            && (code.Some? ==> CliFailure(r.value).0 == code.value)
  {
    RenderSurfaces(limit, t, s, [], [], Fresh(engine));
  }

  lemma {:induction false} EvaluateEnds(
    limit: nat, t: Tree, s: Script, chain: seq<string>, ends: seq<End>, first: Option<Option<Code>>, b: Budget)
    requires t.Package? && Valid(limit, b.engine) && !Aborts(FinalEnd(s)) && !FinalEnd(s).NotStarted?
    ensures Evaluate(limit, t, s, chain, ends, first, b).0 == Conclude(FinalEnd(s), None)
    decreases s
  {
    if s.Calls? {
      var (failure, b1) := Invoke(limit, t, s.call, chain, ends, b);
      EvaluateEnds(limit, t, s.rest, chain, ends, OrElse(first, failure), Logged(b1, failure, ends));
    }
  }

  /**
   * A guest that does not abort decides alone, whatever its plugin calls did:
   * stopped at its own fuel or memory limit it reports that limit, and with a
   * well-shaped result it succeeds. A caller keeps the limit's code.
   */
  lemma OwnLimitSurfaces(limit: nat, t: Tree, s: Script, chain: seq<string>, ends: seq<End>, b: Budget, reason: Reason)
    requires t.Package? && Valid(limit, b.engine) && reason != Trap && FinalEnd(s) == Stopped(reason)
    ensures Render(limit, t, s, chain, ends, b).0 == Some(GuestFailure(reason))
    ensures CliFailure(GuestFailure(reason)).1 == 6 <==> reason == OutOfFuelReason
  {
    EvaluateEnds(limit, t, s, chain, ends + [FinalEnd(s)], None, b.(started := b.started + [chain]));
    assert |"E_RENDER_BUDGET_MEMORY"| != |DEADLINE|;
  }

  lemma CallerKeepsLimit(
    limit: nat, caller: Tree, name: string, s: Script, chain: seq<string>, ends: seq<End>, b: Budget, reason: Reason)
    requires caller.Package? && name in caller.packages && caller.packages[name].Package?
    requires Valid(limit, b.engine) && b.nested + 1 <= MAX_NESTED_RENDERS
    requires reason != Trap && FinalEnd(s) == Stopped(reason)
    ensures Invoke(limit, caller, PkgRender(name, s), chain, ends, b).0 == Some(BudgetCode(reason))
  {
    OwnLimitSurfaces(limit, caller.packages[name], s, chain + [name], ends, b.(nested := b.nested + 1), reason);
  }

  lemma CleanRunSucceeds(limit: nat, t: Tree, s: Script, chain: seq<string>, ends: seq<End>, b: Budget)
    requires t.Package? && Valid(limit, b.engine) && FinalEnd(s) == Exited(0, Yaml(Resources))
    ensures Render(limit, t, s, chain, ends, b).0.None?
  {
    EvaluateEnds(limit, t, s, chain, ends + [FinalEnd(s)], None, b.(started := b.started + [chain]));
  }

  /** Whatever a render fails with, the exit code is 6 exactly for the deadline code, and otherwise 1. */
  lemma ExitCodeSix(f: Failure)
    ensures CliFailure(f).1 == 6 <==> CliFailure(f).0 == DEADLINE
    ensures CliFailure(f).1 == 6 <==> CodeOf(f) == Some(DEADLINE)
    ensures CliFailure(f).1 in {1, 6}
  {
  }

  // ---------------------------------------------------------------- what a nested render is refused with

  lemma {:induction false} WalkStep(site: Site, workspace: Path, chain: seq<string>, name: string)
    requires Walk(site, workspace, chain + [name]).Some?
    ensures Walk(site, workspace, chain).Some?
    ensures var walked := Walk(site, workspace, chain + [name]).value;
            walked != [] && walked[..|walked| - 1] == Walk(site, workspace, chain).value
    decreases |chain|
  {
    if chain == [] {
      assert (chain + [name])[1..] == [];
    } else {
      var next := Hop(site, workspace, chain[0]);
      assert (chain + [name])[0] == chain[0] && (chain + [name])[1..] == chain[1..] + [name];
      WalkStep(site, next.value, chain[1..], name);
    }
  }

  lemma {:induction false} LookupMissing(top: Tree, chain: seq<string>, name: string)
    requires Lookup(top, chain).Some? && Lookup(top, chain).value.Package? && name !in Lookup(top, chain).value.packages
    ensures Lookup(top, chain + [name]).None?
    decreases |chain|
  {
    if chain == [] {
      assert (chain + [name])[0] == name;
    } else {
      assert (chain + [name])[1..] == chain[1..] + [name];
      LookupMissing(top.packages[chain[0]], chain[1..], name);
    }
  }

  /** Why `pkg.render` of `name`, from the Package at the end of `chain`, is refused, read off the dependency graph. */
  ghost function RefusedWith(site: Site, workspace: Path, chain: seq<string>, name: string, nested: nat)
    : Option<Option<Code>>
    requires site.realPath(workspace).Some?
  {
    var walked := Walk(site, workspace, chain + [name]);
    if walked.None? || walked.value == [] then Some(None)
    else
      var above := [site.realPath(workspace).value] + walked.value[..|walked.value| - 1];
      if walked.value[|walked.value| - 1] in above then Some(Some("E_RENDER_CYCLE"))
      else if |above| == 16 then Some(Some("E_RENDER_BUDGET_DEPTH"))
      else if nested >= 64 then Some(Some("E_RENDER_BUDGET_DEADLINE"))
      else None
  }

  /**
   * An engine call inside a guest fails exactly when the engine does not
   * answer or its answer is refused; the failure has a code exactly when the
   * engine's typed failure has it.
   */
  lemma EngineCallFailsExactly(
    limit: nat, t: Tree, engine: Engine, guest: Guest, accepted: bool, chain: seq<string>, ends: seq<End>, b: Budget)
    requires t.Package? && Valid(limit, b.engine)
    ensures var failure := Invoke(limit, t, EngineCall(engine, guest, accepted), chain, ends, b).0;
            var reply := EngineBudget.Call(limit, b.engine, engine, guest).0;
            && (failure.None? <==> reply.Answered? && accepted)
            && forall code :: failure == Some(Some(code)) <==> reply == Failed(Some(code))
  {
  }

  /**
   * Every nested render is refused exactly as the graph and the count of
   * renders say: a name that leads nowhere without a code, a Package on its own
   * stack as a cycle, a 17th Package as too deep, a 65th render as over the
   * deadline; and no other is refused before its worker starts.
   */
  lemma RefusedExactly(
    site: Site, workspace: Path, chain: seq<string>, name: string, child: Script, limit: nat, ends: seq<End>, b: Budget)
    requires Packages.Lawful(site) && Prepare(site, workspace, []).Some? && Valid(limit, b.engine)
    requires IsPackageAt(Prepare(site, workspace, []).value, chain)
    ensures var top := Prepare(site, workspace, []).value;
            var (failure, b1) := Invoke(limit, Lookup(top, chain).value, PkgRender(name, child), chain, ends, b);
            var refusal := RefusedWith(site, workspace, chain, name, b.nested);
            && (refusal.Some? ==> failure == refusal && b1.started == b.started && b1.engine == b.engine)
            && (refusal.None? ==> |b1.started| > |b.started|)
  {
    var top := Prepare(site, workspace, []).value;
    var t := Lookup(top, chain).value;
    PreparedAlong(site, workspace, [], chain);
    PreparedAlong(site, workspace, [], chain + [name]);
    if name in t.packages {
      LookupStep(top, chain, name);
      NamedIsPlaced(site, workspace, chain, name);
      if t.packages[name].Package? && b.nested < 64 {
        RenderCounts(limit, t.packages[name], child, chain + [name], ends, b.(nested := b.nested + 1));
      }
    } else {
      LookupMissing(top, chain, name);
      MissingIsNowhere(site, workspace, chain, name);
    }
  }

  /** What the tree holds under a name, by the graph. */
  lemma NamedIsPlaced(site: Site, workspace: Path, chain: seq<string>, name: string)
    requires Packages.Lawful(site) && Prepare(site, workspace, []).Some?
    requires IsPackageAt(Prepare(site, workspace, []).value, chain)
    requires name in Lookup(Prepare(site, workspace, []).value, chain).value.packages
    ensures var found := Lookup(Prepare(site, workspace, []).value, chain).value.packages[name];
            var walked := Walk(site, workspace, chain + [name]);
            && walked.Some? && walked.value != []
            && var above := [site.realPath(workspace).value] + walked.value[..|walked.value| - 1];
               if walked.value[|walked.value| - 1] in above then found == Cycle
               else if |above| == 16 then found == TooDeep
               else found.Package?
  {
    var top := Prepare(site, workspace, []).value;
    PreparedAlong(site, workspace, [], chain + [name]);
    LookupStep(top, chain, name);
    WalkStep(site, workspace, chain, name);
    var walked := Walk(site, workspace, chain + [name]).value;
    var roots := StackOf([], top.root, walked);
    assert roots[..|roots| - 1] == [top.root] + walked[..|walked| - 1];
  }

  lemma MissingIsNowhere(site: Site, workspace: Path, chain: seq<string>, name: string)
    requires Packages.Lawful(site) && Prepare(site, workspace, []).Some?
    requires IsPackageAt(Prepare(site, workspace, []).value, chain)
    requires Lookup(Prepare(site, workspace, []).value, chain + [name]).None?
    ensures Walk(site, workspace, chain + [name]).None?
  {
    var top := Prepare(site, workspace, []).value;
    PreparedAlong(site, workspace, [], chain);
    PreparedAlong(site, workspace, [], chain + [name]);
    if Walk(site, workspace, chain + [name]).Some? {
      WalkStep(site, workspace, chain, name);
      var walked := Walk(site, workspace, chain + [name]).value;
      var roots := StackOf([], top.root, walked);
      var above := StackOf([], top.root, Walk(site, workspace, chain).value);
      assert roots[..|roots| - 1] == above;
      PackageAbove(Lookup(top, chain), above);
    }
  }

  /** Where a Package is, the roots down to it are distinct and at most 16. */
  lemma PackageAbove(found: Option<Tree>, roots: seq<Path>)
    requires roots != [] && Placed(found, roots) && found.Some? && found.value.Package?
    ensures Distinct(roots) && |roots| <= MAX_RENDER_DEPTH
  {
    var above := roots[..|roots| - 1];
    assert roots == above + [roots[|roots| - 1]];
    DistinctGrows(above, roots[|roots| - 1]);
  }

  // ---------------------------------------------------------------- the mutable budget

  class Renderer {
    const host: NativeHost
    var nested: nat
    ghost var started: seq<seq<string>>
    ghost var failures: seq<Report>

    ghost function Now(): Budget
      reads this, host
    {
      Budget(nested, host.Now(), started, failures)
    }

    constructor (h: NativeHost)
      ensures host == h && Now() == Budget(0, h.Now(), [], [])
    {
      host, nested, started, failures := h, 0, [], [];
    }

    /** `renderDependency`. */
    method RenderDependency(
      t: Tree, name: string, child: Script, ghost chain: seq<string>, ghost ends: seq<End>)
      returns (failure: Option<Option<Code>>)
      requires t.Package? && Valid(host.engineFuel, host.Now())
      modifies this, host
      ensures Valid(host.engineFuel, host.Now())
      ensures (failure, Now()) == Invoke(host.engineFuel, t, PkgRender(name, child), chain, ends, old(Now()))
      decreases child, 2
    {
      if name !in t.packages {
        return Some(None);
      }
      match t.packages[name] {
        case Cycle =>
          return Some(Some("E_RENDER_CYCLE"));
        case TooDeep =>
          return Some(Some("E_RENDER_BUDGET_DEPTH"));
        case Package(_, _) =>
          nested := nested + 1;
          if nested > MAX_NESTED_RENDERS {
            return Some(Some(DEADLINE));
          }
          var f := EvaluateTree(t.packages[name], child, chain + [name], ends);
          return if f.None? then None else Some(CodeOf(f.value));
      }
    }

    /** `evaluateTree` and the shape check after it. */
    method EvaluateTree(
      t: Tree, s: Script, ghost chain: seq<string>, ghost ends: seq<End>) returns (failure: Option<Failure>)
      requires t.Package? && Valid(host.engineFuel, host.Now())
      modifies this, host
      ensures Valid(host.engineFuel, host.Now())
      ensures (failure, Now()) == Render(host.engineFuel, t, s, chain, ends, old(Now()))
      decreases s, 1
    {
      ghost var inner := ends + [FinalEnd(s)];
      started := started + [chain];
      ghost var entered := Now();
      var first: Option<Option<Code>> := None;
      var todo := s;
      while todo.Calls?
        invariant todo == s || todo < s
        invariant Valid(host.engineFuel, host.Now())
        invariant Evaluate(host.engineFuel, t, s, chain, inner, None, entered) ==
                  Evaluate(host.engineFuel, t, todo, chain, inner, first, Now())
        decreases todo
      {
        var failure := Plugin(t, todo.call, chain, inner);
        if failure.Some? {
          failures := failures + [Report(inner, failure.value)];
        }
        first := OrElse(first, failure);
        todo := todo.rest;
      }
      return Conclude(todo.end, first);
    }

    /** The plugin import: one call, run to completion. */
    method Plugin(
      t: Tree, call: Call, ghost chain: seq<string>, ghost ends: seq<End>) returns (failure: Option<Option<Code>>)
      requires t.Package? && Valid(host.engineFuel, host.Now())
      modifies this, host
      ensures Valid(host.engineFuel, host.Now())
      ensures (failure, Now()) == Invoke(host.engineFuel, t, call, chain, ends, old(Now()))
      decreases call, 0
    {
      match call {
        case Plain(f) =>
          return f;
        case EngineCall(engine, guest, accepted) =>
          var reply := host.CallEngine(engine, guest);
          return EngineFailure(reply, accepted);
        case PkgRender(name, child) =>
          failure := RenderDependency(t, name, child, chain, ends);
      }
    }
  }

  /** `render`: a new budget; the engines keep their live instances. */
  method RenderPackage(host: NativeHost, t: Tree, s: Script) returns (failure: Option<Failure>)
    requires t.Package? && Valid(host.engineFuel, host.Now())
    modifies host
    ensures Valid(host.engineFuel, NewRender(old(host.Now())))
    ensures (failure, host.Now()) == Outcome(Render(host.engineFuel, t, s, [], [], Fresh(old(host.Now()))))
  {
    host.BeginRender();
    var renderer := new Renderer(host);
    failure := renderer.EvaluateTree(t, s, [], []);
  }

  function Outcome(r: (Option<Failure>, Budget)): (Option<Failure>, State) {
    (r.0, r.1.engine)
  }
}
