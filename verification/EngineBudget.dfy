/**
 * Engine calls on one render's fuel budget (host/src/host-native.effect.ts):
 * a reusable instance per engine, dropped when a call fails, and one counter
 * that all calls of a render and its nested renders charge.
 */
module EngineBudget {
  import opened Common

  /** A contract code the CLI reports. */
  type Code = string

  const DEADLINE: Code := "E_RENDER_BUDGET_DEADLINE"

  /** How a guest call ends: normally, with a typed failure and its code, or with a defect no handler sees. */
  datatype Ending = Good | Typed(code: Option<Code>) | Defect

  /** What the guest would burn, and how it ends when the fuel it gets is enough. */
  datatype Burn = Burn(amount: nat, ending: Ending)

  /** One call's environment: loading and instantiating may fail; the guest is arbitrary. */
  datatype Guest = Guest(loads: bool, instantiates: bool, init: Burn, request: Burn)

  /** A sandbox instance: its fuel counter, what it burned during this render, and how its last call ended. */
  datatype Instance = Instance(fuel: nat, burned: nat, last: Ending)

  type Engine = string

  datatype State = State(fuelSpent: nat, instances: seq<Instance>, live: map<Engine, nat>)

  datatype Reply = Answered | Failed(code: Option<Code>) | Died

  /** The render's engine calls have used up their fuel. */
  const OUT_OF_FUEL: Reply := Failed(Some(DEADLINE))

  function ReplyOf(ending: Ending): Reply {
    match ending
    case Good => Answered
    case Typed(code) => Failed(code)
    case Defect => Died
  }

  // ---------------------------------------------------------------- the guest

  /** The instance runs: its counter drops by what it burns, and at zero the sandbox stops it. */
  function Run(i: Instance, b: Burn): Instance {
    if b.amount <= i.fuel then Instance(i.fuel - b.amount, i.burned + b.amount, b.ending)
    else Instance(0, i.burned + i.fuel, Typed(Some(DEADLINE)))
  }

  function TotalBurned(instances: seq<Instance>): nat {
    if instances == [] then 0
    else TotalBurned(instances[..|instances| - 1]) + instances[|instances| - 1].burned
  }

  lemma {:induction false} TotalOfUpdate(instances: seq<Instance>, i: nat, x: Instance)
    requires i < |instances|
    ensures TotalBurned(instances[i := x]) == TotalBurned(instances) - instances[i].burned + x.burned
  {
    var n := |instances| - 1;
    if i == n {
      assert instances[i := x][..n] == instances[..n];
    } else {
      assert instances[i := x][..n] == instances[..n][i := x];
      TotalOfUpdate(instances[..n], i, x);
    }
  }

  lemma TotalOfAppend(instances: seq<Instance>, x: Instance)
    ensures TotalBurned(instances + [x]) == TotalBurned(instances) + x.burned
  {
    assert (instances + [x])[..|instances|] == instances;
  }

  // ---------------------------------------------------------------- the host

  /** `startReactor`: package inits run on the budget like any call; the charge is made whatever happens. */
  function Start(engineFuel: nat, st: State, g: Guest): (r: (Option<nat>, Reply, State))
    ensures r.0.Some? ==> r.0.value < |r.2.instances|
  {
    if st.fuelSpent >= engineFuel then (None, OUT_OF_FUEL, st)
    else if !g.instantiates then (None, Failed(None), st)
    else
      var allowance := engineFuel - st.fuelSpent;
      var i := Run(Instance(allowance, 0, Good), g.init);
      var st' := st.(fuelSpent := st.fuelSpent + (allowance - i.fuel), instances := st.instances + [i]);
      (if i.last.Good? then Some(|st.instances|) else None, ReplyOf(i.last), st')
  }

  /** `request`: the counter is set to what remains of the budget, and what is gone afterwards counts as spent. */
  function Request(engineFuel: nat, st: State, index: nat, g: Guest): (Reply, State)
    requires index < |st.instances|
  {
    if st.fuelSpent >= engineFuel then (OUT_OF_FUEL, st)
    else
      var allowance := engineFuel - st.fuelSpent;
      var i := Run(st.instances[index].(fuel := allowance), g.request);
      var st' := st.(fuelSpent := st.fuelSpent + (allowance - i.fuel), instances := st.instances[index := i]);
      (ReplyOf(i.last), st')
  }

  /** `session`: the live instance, or a new one that becomes live. */
  function Session(engineFuel: nat, st: State, engine: Engine, g: Guest): (r: (Option<nat>, Reply, State))
    requires engine in st.live ==> st.live[engine] < |st.instances|
    ensures r.0.Some? ==> r.0.value < |r.2.instances|
  {
    if engine in st.live then (Some(st.live[engine]), Answered, st)
    else if !g.loads then (None, Failed(None), st)
    else
      var (index, reply, st') := Start(engineFuel, st, g);
      if index.None? then (None, reply, st') else (index, reply, st'.(live := st'.live[engine := index.value]))
  }

  /** `tapError`: a typed failure drops the live instance; a defect passes by. */
  function Settle(engine: Engine, reply: Reply, st: State): State {
    if reply.Failed? then st.(live := st.live - {engine}) else st
  }

  /** `call`. */
  function Call(engineFuel: nat, st: State, engine: Engine, g: Guest): (Reply, State)
    requires engine in st.live ==> st.live[engine] < |st.instances|
  {
    var (index, reply, st1) := Session(engineFuel, st, engine, g);
    if index.None? then (reply, Settle(engine, reply, st1))
    else
      var (reply2, st2) := Request(engineFuel, st1, index.value, g);
      (reply2, Settle(engine, reply2, st2))
  }

  // ---------------------------------------------------------------- one step

  /** Live instances exist, are apart, and did not fail with a typed error. */
  ghost predicate LiveSound(instances: seq<Instance>, live: map<Engine, nat>) {
    && (forall e :: e in live ==> live[e] < |instances| && !instances[live[e]].last.Typed?)
    && (forall e, f :: e in live && f in live && e != f ==> live[e] != live[f])
  }

  ghost predicate Valid(engineFuel: nat, st: State) {
    && st.fuelSpent <= engineFuel
    && st.fuelSpent == TotalBurned(st.instances)
    && LiveSound(st.instances, st.live)
  }

  lemma LiveAppended(instances: seq<Instance>, live: map<Engine, nat>, i: Instance)
    requires LiveSound(instances, live)
    ensures LiveSound(instances + [i], live)
  {
    var grown := instances + [i];
    forall e | e in live ensures live[e] < |grown| && !grown[live[e]].last.Typed? {
      assert grown[live[e]] == instances[live[e]];
    }
  }

  lemma LiveAdded(instances: seq<Instance>, live: map<Engine, nat>, engine: Engine, index: nat)
    requires LiveSound(instances, live) && engine !in live
    requires index < |instances| && !instances[index].last.Typed? && forall e :: e in live ==> live[e] != index
    ensures LiveSound(instances, live[engine := index])
  {
    var more := live[engine := index];
    forall e | e in more ensures more[e] < |instances| && !instances[more[e]].last.Typed? {
      assert e == engine || e in live;
    }
    forall e, f | e in more && f in more && e != f ensures more[e] != more[f] {
      assert e == engine || e in live;
      assert f == engine || f in live;
    }
  }

  lemma LiveDropped(instances: seq<Instance>, live: map<Engine, nat>, engine: Engine)
    requires LiveSound(instances, live)
    ensures LiveSound(instances, live - {engine})
  {
    var fewer := live - {engine};
    forall e | e in fewer ensures fewer[e] < |instances| && !instances[fewer[e]].last.Typed? {
      assert e in live;
    }
    forall e, f | e in fewer && f in fewer && e != f ensures fewer[e] != fewer[f] {
      assert e in live && f in live;
    }
  }

  /** A live instance runs again: it stays live unless it fails with a typed error. */
  lemma LiveUpdated(instances: seq<Instance>, live: map<Engine, nat>, engine: Engine, i: Instance)
    requires LiveSound(instances, live) && engine in live
    ensures LiveSound(instances[live[engine] := i], live - {engine})
    ensures !i.last.Typed? ==> LiveSound(instances[live[engine] := i], live)
  {
    var after := instances[live[engine] := i];
    var fewer := live - {engine};
    forall e | e in live && e != engine ensures live[e] < |after| && !after[live[e]].last.Typed? {
      assert live[e] != live[engine];
    }
    forall e | e in fewer ensures fewer[e] < |after| && !after[fewer[e]].last.Typed? {
      assert e in live && e != engine;
    }
    forall e, f | e in fewer && f in fewer && e != f ensures fewer[e] != fewer[f] {
      assert e in live && f in live;
    }
  }

  lemma StartKeepsValid(engineFuel: nat, st: State, g: Guest)
    requires Valid(engineFuel, st)
    ensures var (index, _, st') := Start(engineFuel, st, g);
            && Valid(engineFuel, st') && st'.fuelSpent >= st.fuelSpent && st'.live == st.live
            && (index.Some? ==> index.value == |st.instances| && st'.instances[index.value].last == Good)
  {
    if st.fuelSpent < engineFuel && g.instantiates {
      var i := Run(Instance(engineFuel - st.fuelSpent, 0, Good), g.init);
      TotalOfAppend(st.instances, i);
      LiveAppended(st.instances, st.live, i);
    }
  }

  /** What `session` gives: a live instance that is fit for a request, or none. */
  ghost predicate SessionSound(engineFuel: nat, st: State, engine: Engine, index: Option<nat>, st': State) {
    && Valid(engineFuel, st') && st'.fuelSpent >= st.fuelSpent
    && (index.Some? ==> engine in st'.live && st'.live[engine] == index.value)
    && (index.None? ==> engine !in st'.live)
  }

  lemma SessionKeepsValid(engineFuel: nat, st: State, engine: Engine, g: Guest)
    requires Valid(engineFuel, st)
    ensures var (index, _, st') := Session(engineFuel, st, engine, g);
            SessionSound(engineFuel, st, engine, index, st')
  {
    if engine !in st.live && g.loads {
      StartKeepsValid(engineFuel, st, g);
      var (index, _, st1) := Start(engineFuel, st, g);
      if index.Some? {
        assert forall e :: e in st.live ==> st.live[e] < |st.instances|;
        LiveAdded(st1.instances, st1.live, engine, index.value);
      }
    }
  }

  /** What `request` and the handler behind it do to a live instance. */
  ghost predicate RequestSound(engineFuel: nat, st: State, engine: Engine, reply: Reply, st': State) {
    && Valid(engineFuel, Settle(engine, reply, st')) && st'.fuelSpent >= st.fuelSpent && st'.live == st.live
    && |st'.instances| == |st.instances|
  }

  lemma RequestKeepsValid(engineFuel: nat, st: State, engine: Engine, g: Guest)
    requires Valid(engineFuel, st) && engine in st.live
    ensures var (reply, st') := Request(engineFuel, st, st.live[engine], g);
            && RequestSound(engineFuel, st, engine, reply, st')
            && (reply == Died ==> st'.instances[st.live[engine]].last == Defect)
  {
    if st.fuelSpent >= engineFuel {
      LiveDropped(st.instances, st.live, engine);
    } else {
      var index := st.live[engine];
      var i := Run(st.instances[index].(fuel := engineFuel - st.fuelSpent), g.request);
      TotalOfUpdate(st.instances, index, i);
      LiveUpdated(st.instances, st.live, engine, i);
    }
  }

  lemma RequestSettles(engineFuel: nat, st: State, engine: Engine, g: Guest)
    requires Valid(engineFuel, st) && engine in st.live
    ensures var (reply, after) := Request(engineFuel, st, st.live[engine], g);
            CallSound(engineFuel, st, engine, reply, Settle(engine, reply, after))
  {
    RequestKeepsValid(engineFuel, st, engine, g);
  }

  lemma NothingToDrop(engine: Engine, reply: Reply, st: State)
    requires engine !in st.live
    ensures Settle(engine, reply, st) == st
  {
    assert st.live - {engine} == st.live;
  }

  /** What one call does to the state. */
  ghost predicate CallSound(engineFuel: nat, st: State, engine: Engine, reply: Reply, st': State) {
    && Valid(engineFuel, st') && st'.fuelSpent >= st.fuelSpent
    && (reply == Answered ==> engine in st'.live)
    && (reply.Failed? ==> engine !in st'.live)
  }

  /**
   * One call, whatever the guest does: the counter only grows, stays within
   * the budget and equals what the instances burned; the instance a typed
   * failure happened on is not live any more; and the request ran on an
   * instance whose last call had not failed that way.
   */
  lemma CallKeepsValid(engineFuel: nat, st: State, engine: Engine, g: Guest)
    requires Valid(engineFuel, st)
    ensures var (reply, st') := Call(engineFuel, st, engine, g);
            CallSound(engineFuel, st, engine, reply, st')
  {
    SessionKeepsValid(engineFuel, st, engine, g);
    var (index, reply, st1) := Session(engineFuel, st, engine, g);
    if index.Some? {
      RequestSettles(engineFuel, st1, engine, g);
    } else {
      NothingToDrop(engine, reply, st1);
    }
  }

  /** The instance a call's request runs on, as it was before. */
  function RequestedInstance(engineFuel: nat, st: State, engine: Engine, g: Guest): Option<Instance>
    requires engine in st.live ==> st.live[engine] < |st.instances|
  {
    var (index, _, st1) := Session(engineFuel, st, engine, g);
    if index.None? then None else Some(st1.instances[index.value])
  }

  // ---------------------------------------------------------------- runs

  datatype Event = Event(engine: Engine, guest: Guest)

  /** A render and everything nested in it: calls in the order they are made. */
  ghost function RunCalls(engineFuel: nat, st: State, events: seq<Event>): State
    requires Valid(engineFuel, st)
    decreases |events|
  {
    if events == [] then st
    else
      CallKeepsValid(engineFuel, st, events[0].engine, events[0].guest);
      RunCalls(engineFuel, Call(engineFuel, st, events[0].engine, events[0].guest).1, events[1..])
  }

  /** A top-level render starts with nothing spent; instances stay live between renders. */
  function NewRender(st: State): State {
    State(0, Cleared(st.instances), st.live)
  }

  function Cleared(instances: seq<Instance>): (r: seq<Instance>)
    ensures |r| == |instances|
    ensures forall i :: 0 <= i < |r| ==> r[i] == instances[i].(burned := 0)
  {
    seq(|instances|, i requires 0 <= i < |instances| => instances[i].(burned := 0))
  }

  lemma {:induction false} ClearedTotal(instances: seq<Instance>)
    ensures TotalBurned(Cleared(instances)) == 0
  {
    if instances != [] {
      var n := |instances| - 1;
      ClearedTotal(instances[..n]);
      assert Cleared(instances)[..n] == Cleared(instances[..n]);
    }
  }

  lemma NewRenderIsValid(engineFuel: nat, st: State)
    requires Valid(engineFuel, st)
    ensures Valid(engineFuel, NewRender(st))
  {
    ClearedTotal(st.instances);
  }

  /**
   * Over every run of calls: what is spent never decreases, never exceeds the
   * budget, and is exactly what the instances burned; no request ever runs on
   * an instance whose previous call failed with a typed error.
   */
  lemma {:induction false} RunsStayWithinBudget(engineFuel: nat, st: State, events: seq<Event>)
    requires Valid(engineFuel, st)
    ensures var st' := RunCalls(engineFuel, st, events);
            st.fuelSpent <= st'.fuelSpent <= engineFuel && st'.fuelSpent == TotalBurned(st'.instances)
    ensures Valid(engineFuel, RunCalls(engineFuel, st, events))
    decreases |events|
  {
    if events != [] {
      CallKeepsValid(engineFuel, st, events[0].engine, events[0].guest);
      RunsStayWithinBudget(engineFuel, Call(engineFuel, st, events[0].engine, events[0].guest).1, events[1..]);
    }
  }

  lemma RequestsRunOnSoundInstances(engineFuel: nat, st: State, events: seq<Event>, next: Event)
    requires Valid(engineFuel, st)
    ensures var st' := RunCalls(engineFuel, st, events);
            && (next.engine in st'.live ==> st'.live[next.engine] < |st'.instances|)
            && var i := RequestedInstance(engineFuel, st', next.engine, next.guest);
               i.Some? ==> !i.value.last.Typed?
  {
    RunsStayWithinBudget(engineFuel, st, events);
    var st' := RunCalls(engineFuel, st, events);
    SessionKeepsValid(engineFuel, st', next.engine, next.guest);
  }

  /**
   * After every call the engine is live exactly when a session was obtained,
   * live before or started by this very call, and the reply is not a typed
   * failure. The next request then runs on the session's instance, even when
   * this call died with a defect on it.
   */
  lemma LiveExactlyUnlessFailed(engineFuel: nat, st: State, engine: Engine, g: Guest, next: Guest)
    requires Valid(engineFuel, st)
    ensures var (reply, st') := Call(engineFuel, st, engine, g);
            var session := Session(engineFuel, st, engine, g).0;
            && (engine in st'.live <==> session.Some? && !reply.Failed?)
            && (engine in st'.live ==>
                  && st'.live[engine] == session.value && session.value < |st'.instances|
                  && RequestedInstance(engineFuel, st', engine, next) == Some(st'.instances[session.value])
                  && (reply == Died ==> st'.instances[session.value].last == Defect))
  {
    SessionKeepsValid(engineFuel, st, engine, g);
    var (index, reply, st1) := Session(engineFuel, st, engine, g);
    if index.Some? {
      RequestKeepsValid(engineFuel, st1, engine, g);
    }
  }

  /** Once the budget is gone, no further call runs a guest. */
  lemma {:induction false} SpentBudgetIsFinal(engineFuel: nat, st: State, events: seq<Event>)
    requires Valid(engineFuel, st) && st.fuelSpent == engineFuel
    ensures RunCalls(engineFuel, st, events).instances == st.instances
    decreases |events|
  {
    if events != [] {
      var e := events[0];
      CallKeepsValid(engineFuel, st, e.engine, e.guest);
      SpentBudgetIsFinal(engineFuel, Call(engineFuel, st, e.engine, e.guest).1, events[1..]);
    }
  }

  // ---------------------------------------------------------------- one counter for all

  /** A fuel counter alone: what a series of guest calls answers on `left` units, and what it leaves. */
  function Meter(left: nat, burns: seq<Burn>): (Reply, nat) {
    if burns == [] then (Answered, left)
    else if left == 0 || burns[0].amount > left then (Failed(Some("E_RENDER_BUDGET_DEADLINE")), 0)
    else
      match burns[0].ending
      case Good => Meter(left - burns[0].amount, burns[1..])
      case Typed(code) => (Failed(code), left - burns[0].amount)
      case Defect => (Died, left - burns[0].amount)
  }

  /**
   * Whatever instances there are and whatever they burned before, a call
   * answers and costs what the bare counter says of its guest's init, if an
   * instance has to be made, and its request; an engine that cannot be loaded or
   * instantiated costs nothing.
   */
  lemma CallIsMetered(engineFuel: nat, st: State, engine: Engine, g: Guest)
    requires Valid(engineFuel, st)
    ensures var (reply, st') := Call(engineFuel, st, engine, g);
            var left: nat := engineFuel - st.fuelSpent;
            if engine !in st.live && (!g.loads || (left > 0 && !g.instantiates)) then
              reply == Failed(None) && st'.fuelSpent == st.fuelSpent
            else
              var burns := if engine in st.live then [g.request] else [g.init, g.request];
              reply == Meter(left, burns).0 && st'.fuelSpent == engineFuel - Meter(left, burns).1
  {
    var left: nat := engineFuel - st.fuelSpent;
    OneBurn(left, g.request);
    if engine !in st.live && g.loads && g.instantiates {
      assert [g.init, g.request][1..] == [g.request];
      if left > 0 && g.init.amount <= left {
        OneBurn(left - g.init.amount, g.request);
      }
    }
  }

  lemma OneBurn(left: nat, b: Burn)
    ensures Meter(left, [b]) ==
            if left == 0 || b.amount > left then (OUT_OF_FUEL, 0) else (ReplyOf(b.ending), left - b.amount)
  {
  }

  // ---------------------------------------------------------------- the mutable host

  class NativeHost {
    const engineFuel: nat
    var fuelSpent: nat
    var instances: seq<Instance>
    var live: map<Engine, nat>

    ghost function Now(): State
      reads this
    {
      State(fuelSpent, instances, live)
    }

    constructor (limit: nat)
      ensures engineFuel == limit && Now() == State(0, [], map[]) && Valid(engineFuel, Now())
    {
      engineFuel, fuelSpent, instances, live := limit, 0, [], map[];
    }

    /** A new budget object for a top-level render. */
    method BeginRender()
      requires Valid(engineFuel, Now())
      modifies this
      ensures Now() == NewRender(old(Now())) && Valid(engineFuel, Now())
    {
      NewRenderIsValid(engineFuel, Now());
      fuelSpent, instances := 0, Cleared(instances);
    }

    method StartReactor(g: Guest) returns (index: Option<nat>, reply: Reply)
      modifies this
      ensures (index, reply, Now()) == Start(engineFuel, old(Now()), g)
    {
      if fuelSpent >= engineFuel {
        return None, OUT_OF_FUEL;
      }
      var allowance := engineFuel - fuelSpent;
      if !g.instantiates {
        return None, Failed(None);
      }
      var i := Run(Instance(allowance, 0, Good), g.init);
      instances := instances + [i];
      fuelSpent := fuelSpent + (allowance - i.fuel);
      if i.last.Good? {
        return Some(|instances| - 1), Answered;
      }
      return None, ReplyOf(i.last);
    }

    method Ask(index: nat, g: Guest) returns (reply: Reply)
      requires index < |instances|
      modifies this
      ensures (reply, Now()) == Request(engineFuel, old(Now()), index, g)
    {
      if fuelSpent >= engineFuel {
        return OUT_OF_FUEL;
      }
      var allowance := engineFuel - fuelSpent;
      var i := Run(instances[index].(fuel := allowance), g.request);
      instances := instances[index := i];
      fuelSpent := fuelSpent + (allowance - i.fuel);
      return ReplyOf(i.last);
    }

    method CallEngine(engine: Engine, g: Guest) returns (reply: Reply)
      requires Valid(engineFuel, Now())
      modifies this
      ensures (reply, Now()) == Call(engineFuel, old(Now()), engine, g)
      ensures Valid(engineFuel, Now())
    {
      CallKeepsValid(engineFuel, Now(), engine, g);
      var index: Option<nat> := None;
      if engine in live {
        index := Some(live[engine]);
      } else if !g.loads {
        reply := Failed(None);
      } else {
        index, reply := StartReactor(g);
        if index.Some? {
          live := live[engine := index.value];
        }
      }
      if index.Some? {
        reply := Ask(index.value, g);
      }
      if reply.Failed? {
        live := live - {engine};
      }
    }
  }
}
