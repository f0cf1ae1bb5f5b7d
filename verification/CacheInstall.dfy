/**
 * Installing fetched content into a cache slot (`unpackInto`,
 * host/src/downloads.effect.ts): any number of processes, each checking,
 * staging, writing and renaming, interleaved in any order, any of them
 * failing or crashing anywhere.
 */
module CacheInstall {
  import opened Common

  type Name = string

  datatype Entry = Entry(path: string, data: Bytes)

  /** A directory's files. */
  type Dir = map<string, Bytes>

  /** Where one process is; a staging directory belongs to the process that made it. */
  datatype Phase =
    | Checking
    | Making
    | Writing(staging: Name, written: nat)
    | Rechecking(staging: Name)
    | Removing(staging: Name)
    | Done
    | Failed
    | Crashed

  /** What the file system or the scheduler decides; each is one step of one process. */
  datatype Action =
    | Check
    | MakeStaging(name: Name)
    | WriteSome(data: Bytes)
    | WriteAll
    | Rename
    | RefuseRename
    | Recheck
    | RemoveFile(path: string)
    | RemoveStaging
    | IoError
    | Crash

  /** The slot, the content all processes fetched (the slot is named by its digest), and the shared state. */
  datatype Install = Install(slot: Name, entries: seq<Entry>)

  datatype State = State(dirs: map<Name, Dir>, phases: seq<Phase>)

  datatype Event = Event(process: nat, action: Action)

  /** The directory that holds all of the first entries. */
  function Written(entries: seq<Entry>): Dir {
    if entries == [] then map[]
    else
      var last := entries[|entries| - 1];
      Written(entries[..|entries| - 1])[last.path := last.data]
  }

  predicate Owns(phase: Phase) {
    phase.Writing? || phase.Rechecking? || phase.Removing?
  }

  // ---------------------------------------------------------------- steps

  /** One step; an action that the process's phase or the file system rules out changes nothing. */
  function Step(install: Install, st: State, e: Event): State {
    if e.process >= |st.phases| then st
    else
      var phase := st.phases[e.process];
      var (phase', dirs') := Act(install, st.dirs, phase, e.action);
      State(dirs', st.phases[e.process := phase'])
  }

  function Act(install: Install, dirs: map<Name, Dir>, phase: Phase, action: Action): (Phase, map<Name, Dir>) {
    match (phase, action)
    case (Done, _) => (phase, dirs)
    case (Failed, _) => (phase, dirs)
    case (Crashed, _) => (phase, dirs)
    case (_, Crash) => (Crashed, dirs)
    case (_, IoError) => (Failed, dirs)
    case (Checking, Check) => (if install.slot in dirs then Done else Making, dirs)
    case (Making, MakeStaging(name)) =>
      if name in dirs || name == install.slot then (phase, dirs) else (Writing(name, 0), dirs[name := map[]])
    case (Writing(staging, i), WriteSome(data)) =>
      if i < |install.entries| && staging in dirs then
        (phase, dirs[staging := dirs[staging][install.entries[i].path := data]])
      else (phase, dirs)
    case (Writing(staging, i), WriteAll) =>
      if i < |install.entries| && staging in dirs then
        (Writing(staging, i + 1), dirs[staging := dirs[staging][install.entries[i].path := install.entries[i].data]])
      else (phase, dirs)
    case (Writing(staging, i), Rename) =>
      if i < |install.entries| || staging !in dirs then (phase, dirs)
      else if Replaceable(install, dirs) then (Done, (dirs - {staging})[install.slot := dirs[staging]])
      else (Rechecking(staging), dirs)
    case (Writing(staging, i), RefuseRename) =>
      (if i < |install.entries| then phase else Rechecking(staging), dirs)
    case (Rechecking(staging), Recheck) =>
      (if install.slot in dirs then Removing(staging) else Failed, dirs)
    case (Removing(staging), RemoveFile(path)) =>
      if staging in dirs then (phase, dirs[staging := dirs[staging] - {path}]) else (phase, dirs)
    case (Removing(staging), RemoveStaging) => (Done, dirs - {staging})
    case _ => (phase, dirs)
  }

  /** A directory moves onto a free name or onto an empty directory, never onto a full one. */
  predicate Replaceable(install: Install, dirs: map<Name, Dir>) {
    install.slot in dirs ==> dirs[install.slot] == map[]
  }

  function Run(install: Install, st: State, events: seq<Event>): State
    decreases |events|
  {
    if events == [] then st else Run(install, Step(install, st, events[0]), events[1..])
  }

  /** `n` processes about to look at a slot; other directories may hold anything. */
  function Begin(dirs: map<Name, Dir>, n: nat): State {
    State(dirs, seq(n, _ => Checking))
  }

  // ---------------------------------------------------------------- the invariant

  ghost predicate SlotComplete(install: Install, dirs: map<Name, Dir>) {
    install.slot in dirs ==> dirs[install.slot] == Written(install.entries)
  }

  /** A staging directory under construction: all finished entries, and perhaps part of the next. */
  ghost predicate Staged(install: Install, dir: Dir, i: nat) {
    && i <= |install.entries|
    && (|| dir == Written(install.entries[..i])
        || (i < |install.entries| && PartOfNext(install.entries[i].path, dir, Written(install.entries[..i]))))
  }

  /** `dir` is `done` but for the file at `path`. */
  ghost predicate PartOfNext(path: string, dir: Dir, done: Dir) {
    path in dir && dir == done[path := dir[path]]
  }

  ghost predicate PhaseSound(install: Install, dirs: map<Name, Dir>, phase: Phase) {
    && (Owns(phase) ==> phase.staging in dirs && phase.staging != install.slot)
    && (phase.Writing? ==> Staged(install, dirs[phase.staging], phase.written))
    && (phase.Removing? || phase.Done? ==> install.slot in dirs)
  }

  ghost predicate Private(phases: seq<Phase>) {
    forall i, j ::
      0 <= i < j < |phases| && Owns(phases[i]) && Owns(phases[j]) ==> phases[i].staging != phases[j].staging
  }

  ghost predicate Sound(install: Install, st: State) {
    && SlotComplete(install, st.dirs)
    && (forall i :: 0 <= i < |st.phases| ==> PhaseSound(install, st.dirs, st.phases[i]))
    && Private(st.phases)
  }

  lemma WrittenStep(install: Install, dir: Dir, i: nat, part: Bytes)
    requires Staged(install, dir, i) && i < |install.entries|
    ensures Staged(install, dir[install.entries[i].path := install.entries[i].data], i + 1)
    ensures Staged(install, dir[install.entries[i].path := part], i)
  {
    var e := install.entries[i];
    var done := install.entries[..i + 1];
    assert done[..i] == install.entries[..i];
    assert Written(done) == Written(install.entries[..i])[e.path := e.data];
    assert dir[e.path := part] == Written(install.entries[..i])[e.path := part];
  }

  /** What a step does to the directories: nothing but the acting process's own staging, and the slot once. */
  ghost predicate LeavesOthers(
    install: Install, dirs: map<Name, Dir>, phase: Phase, phase': Phase, dirs': map<Name, Dir>)
  {
    && (install.slot in dirs ==> install.slot in dirs')
    && (forall name ::
          name in dirs && name != install.slot && !(Owns(phase) && name == phase.staging) ==>
            name in dirs' && dirs'[name] == dirs[name])
    && (Owns(phase') ==> (Owns(phase) && phase'.staging == phase.staging) || phase'.staging !in dirs)
  }

  lemma ActSound(install: Install, dirs: map<Name, Dir>, phase: Phase, action: Action)
    requires SlotComplete(install, dirs) && PhaseSound(install, dirs, phase)
    ensures var (phase', dirs') := Act(install, dirs, phase, action);
            && SlotComplete(install, dirs') && PhaseSound(install, dirs', phase')
            && LeavesOthers(install, dirs, phase, phase', dirs')
  {
    if phase.Writing? {
      WritingSound(install, dirs, phase, action);
    }
  }

  lemma WritingSound(install: Install, dirs: map<Name, Dir>, phase: Phase, action: Action)
    requires SlotComplete(install, dirs) && PhaseSound(install, dirs, phase) && phase.Writing?
    ensures var (phase', dirs') := Act(install, dirs, phase, action);
            && SlotComplete(install, dirs') && PhaseSound(install, dirs', phase')
            && LeavesOthers(install, dirs, phase, phase', dirs')
  {
    if phase.written < |install.entries| {
      WrittenStep(install, dirs[phase.staging], phase.written, if action.WriteSome? then action.data else []);
    } else {
      assert install.entries[..phase.written] == install.entries;
    }
  }

  lemma OthersStaySound(
    install: Install, dirs: map<Name, Dir>, phase: Phase, phase': Phase, dirs': map<Name, Dir>, other: Phase)
    requires LeavesOthers(install, dirs, phase, phase', dirs') && PhaseSound(install, dirs, other)
    requires Owns(phase) && Owns(other) ==> phase.staging != other.staging
    ensures PhaseSound(install, dirs', other)
    ensures Owns(phase') && Owns(other) ==> phase'.staging != other.staging
  {
  }

  lemma StepSound(install: Install, st: State, e: Event)
    requires Sound(install, st)
    ensures Sound(install, Step(install, st, e))
    ensures install.slot in st.dirs ==> install.slot in Step(install, st, e).dirs
  {
    if e.process < |st.phases| {
      var phase := st.phases[e.process];
      ActSound(install, st.dirs, phase, e.action);
      var (phase', dirs') := Act(install, st.dirs, phase, e.action);
      var phases' := st.phases[e.process := phase'];
      forall i | 0 <= i < |phases'|
        ensures PhaseSound(install, dirs', phases'[i])
        ensures i != e.process && Owns(phase') && Owns(phases'[i]) ==> phase'.staging != phases'[i].staging
      {
        if i != e.process {
          OthersStaySound(install, st.dirs, phase, phase', dirs', st.phases[i]);
        }
      }
    }
  }

  /**
   * Under every interleaving, with failures and crashes anywhere: the slot is
   * absent or holds exactly the fetched content, a process that succeeds
   * leaves it there, and once there it stays.
   */
  lemma {:induction false} SlotIsAbsentOrComplete(install: Install, st: State, events: seq<Event>)
    requires Sound(install, st)
    ensures var st' := Run(install, st, events);
            && Sound(install, st')
            && (install.slot in st'.dirs ==> st'.dirs[install.slot] == Written(install.entries))
            && (Done in st'.phases ==> install.slot in st'.dirs)
            && (install.slot in st.dirs ==> install.slot in st'.dirs)
    decreases |events|
  {
    if events != [] {
      StepSound(install, st, events[0]);
      SlotIsAbsentOrComplete(install, Step(install, st, events[0]), events[1..]);
    } else if Done in st.phases {
      var i :| 0 <= i < |st.phases| && st.phases[i] == Done;
      assert PhaseSound(install, st.dirs, st.phases[i]);
    }
  }

  lemma BeginIsSound(install: Install, dirs: map<Name, Dir>, n: nat)
    requires SlotComplete(install, dirs)
    ensures Sound(install, Begin(dirs, n))
  {
  }

  // ---------------------------------------------------------------- races without faults

  /** Nothing but the race itself goes wrong. */
  predicate Faultless(e: Event) {
    !e.action.IoError? && !e.action.Crash? && !e.action.RefuseRename?
  }

  /** The names in use: those there before, the slot, and what running processes own. */
  ghost predicate Tidy(install: Install, before: set<Name>, st: State) {
    && (forall i :: 0 <= i < |st.phases| ==> PhaseTidy(install, st.dirs, st.phases[i]))
    && (forall name :: name in st.dirs && name !in before && name != install.slot ==> OwnedBySome(st.phases, name))
  }

  ghost predicate PhaseTidy(install: Install, dirs: map<Name, Dir>, phase: Phase) {
    && !phase.Failed? && !phase.Crashed?
    && (phase.Rechecking? ==> install.slot in dirs)
  }

  ghost predicate OwnedBySome(phases: seq<Phase>, name: Name) {
    exists i :: 0 <= i < |phases| && Owns(phases[i]) && phases[i].staging == name
  }

  /** A faultless step neither fails nor leaves a directory nobody owns. */
  lemma ActTidy(install: Install, dirs: map<Name, Dir>, phase: Phase, e: Event)
    requires Faultless(e) && PhaseSound(install, dirs, phase) && PhaseTidy(install, dirs, phase)
    ensures var (phase', dirs') := Act(install, dirs, phase, e.action);
            && PhaseTidy(install, dirs', phase')
            && (forall name ::
                  name in dirs' && name != install.slot && name !in dirs ==> Owns(phase') && phase'.staging == name)
            && (Owns(phase) && phase.staging in dirs' ==> Owns(phase') && phase'.staging == phase.staging)
  {
  }

  lemma StepTidy(install: Install, before: set<Name>, st: State, e: Event)
    requires Sound(install, st) && Tidy(install, before, st) && Faultless(e)
    ensures Tidy(install, before, Step(install, st, e))
  {
    if e.process < |st.phases| {
      var phase := st.phases[e.process];
      ActSound(install, st.dirs, phase, e.action);
      ActTidy(install, st.dirs, phase, e);
      var (phase', dirs') := Act(install, st.dirs, phase, e.action);
      var phases' := st.phases[e.process := phase'];
      forall name | name in dirs' && name !in before && name != install.slot ensures OwnedBySome(phases', name) {
        if Owns(phase') && phase'.staging == name {
          assert phases'[e.process] == phase';
        } else {
          var i :| 0 <= i < |st.phases| && Owns(st.phases[i]) && st.phases[i].staging == name;
          assert phases'[i] == st.phases[i];
        }
      }
    }
  }

  lemma {:induction false} RunTidy(install: Install, before: set<Name>, st: State, events: seq<Event>)
    requires Sound(install, st) && Tidy(install, before, st)
    requires forall i :: 0 <= i < |events| ==> Faultless(events[i])
    ensures Tidy(install, before, Run(install, st, events))
    decreases |events|
  {
    if events != [] {
      StepSound(install, st, events[0]);
      StepTidy(install, before, st, events[0]);
      RunTidy(install, before, Step(install, st, events[0]), events[1..]);
    }
  }

  /**
   * A lost race is not an error: while the file system works, no process
   * fails, and when all have finished no staging directory is left.
   */
  lemma RaceIsHarmless(install: Install, dirs: map<Name, Dir>, n: nat, events: seq<Event>)
    requires SlotComplete(install, dirs)
    requires forall i :: 0 <= i < |events| ==> Faultless(events[i])
    ensures var st' := Run(install, Begin(dirs, n), events);
            && Failed !in st'.phases
            && ((forall i :: 0 <= i < |st'.phases| ==> st'.phases[i] == Done) ==>
                  st'.dirs.Keys <= dirs.Keys + {install.slot})
  {
    BeginIsSound(install, dirs, n);
    RunTidy(install, dirs.Keys, Begin(dirs, n), events);
  }

  // ---------------------------------------------------------------- every process can finish

  /** Still under way, and not waiting for a slot that is not there after a refused rename. */
  ghost predicate CanGoOn(install: Install, st: State, p: nat) {
    && p < |st.phases| && !st.phases[p].Done? && !st.phases[p].Failed? && !st.phases[p].Crashed?
    && (st.phases[p].Rechecking? ==> install.slot in st.dirs)
  }

  /** The steps are the process's own, and none of them is a fault. */
  ghost predicate OwnSteps(p: nat, events: seq<Event>) {
    forall i :: 0 <= i < |events| ==> events[i].process == p && Faultless(events[i])
  }

  function Rank(install: Install, phase: Phase): nat {
    match phase
    case Checking => |install.entries| + 5
    case Making => |install.entries| + 4
    case Writing(_, i) => 3 + if i < |install.entries| then |install.entries| - i else 0
    case Rechecking(_) => 2
    case Removing(_) => 1
    case _ => 0
  }

  /** What the process does next when nothing goes wrong; `fresh` names its staging directory. */
  function NextAction(install: Install, phase: Phase, unused: Name): Action {
    match phase
    case Checking => Check
    case Making => MakeStaging(unused)
    case Writing(_, i) => if i < |install.entries| then WriteAll else Rename
    case Rechecking(_) => Recheck
    case _ => RemoveStaging
  }

  lemma NextStepAdvances(install: Install, st: State, p: nat, unused: Name)
    requires Sound(install, st) && CanGoOn(install, st, p)
    requires st.phases[p].Checking? || st.phases[p].Making? ==> unused !in st.dirs && unused != install.slot
    ensures var e := Event(p, NextAction(install, st.phases[p], unused));
            var st' := Step(install, st, e);
            && Faultless(e) && Sound(install, st') && |st'.phases| == |st.phases|
            && Rank(install, st'.phases[p]) < Rank(install, st.phases[p])
            && (CanGoOn(install, st', p) || st'.phases[p].Done?)
            && (st'.phases[p].Checking? || st'.phases[p].Making? ==> unused !in st'.dirs)
  {
    StepSound(install, st, Event(p, NextAction(install, st.phases[p], unused)));
    assert PhaseSound(install, st.dirs, st.phases[p]);
  }

  /**
   * No interleaving leaves a process stuck: whatever the others did up to now,
   * it can finish by steps of its own, and then the slot holds the content.
   */
  lemma {:induction false} EveryProcessCanFinish(install: Install, st: State, p: nat, unused: Name)
    returns (events: seq<Event>)
    requires Sound(install, st) && CanGoOn(install, st, p)
    requires st.phases[p].Checking? || st.phases[p].Making? ==> unused !in st.dirs && unused != install.slot
    ensures OwnSteps(p, events) && |events| <= |install.entries| + 5
    ensures var st' := Run(install, st, events);
            && p < |st'.phases| && st'.phases[p].Done?
            && install.slot in st'.dirs && st'.dirs[install.slot] == Written(install.entries)
    ensures |events| <= Rank(install, st.phases[p])
    decreases Rank(install, st.phases[p])
  {
    var e := Event(p, NextAction(install, st.phases[p], unused));
    var st' := Step(install, st, e);
    NextStepAdvances(install, st, p, unused);
    if st'.phases[p].Done? {
      events := [e];
      assert Run(install, st', []) == st';
      assert PhaseSound(install, st'.dirs, st'.phases[p]);
    } else {
      var rest := EveryProcessCanFinish(install, st', p, unused);
      events := [e] + rest;
    }
  }

  /** In a race without faults every process is done, or can finish so. */
  lemma RaceCanBeFinished(
    install: Install, dirs: map<Name, Dir>, n: nat, events: seq<Event>, p: nat, unused: Name)
    returns (more: seq<Event>)
    requires SlotComplete(install, dirs) && p < n
    requires forall i :: 0 <= i < |events| ==> Faultless(events[i])
    requires unused !in Run(install, Begin(dirs, n), events).dirs && unused != install.slot
    ensures OwnSteps(p, more)
    ensures var st' := Run(install, Run(install, Begin(dirs, n), events), more);
            && p < |st'.phases| && st'.phases[p].Done?
            && install.slot in st'.dirs && st'.dirs[install.slot] == Written(install.entries)
  {
    var st := Run(install, Begin(dirs, n), events);
    BeginIsSound(install, dirs, n);
    RunTidy(install, dirs.Keys, Begin(dirs, n), events);
    SlotIsAbsentOrComplete(install, Begin(dirs, n), events);
    ProcessesStay(install, Begin(dirs, n), events);
    assert PhaseTidy(install, st.dirs, st.phases[p]);
    if st.phases[p].Done? {
      more := [];
      assert PhaseSound(install, st.dirs, st.phases[p]);
    } else {
      more := EveryProcessCanFinish(install, st, p, unused);
    }
  }

  lemma {:induction false} ProcessesStay(install: Install, st: State, events: seq<Event>)
    ensures |Run(install, st, events).phases| == |st.phases|
    decreases |events|
  {
    if events != [] {
      ProcessesStay(install, Step(install, st, events[0]), events[1..]);
    }
  }
}
