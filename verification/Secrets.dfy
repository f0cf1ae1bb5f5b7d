/**
 * Which request inputs are secret (cli/src/api/inputs.ts): a depth-first
 * search over a schema graph that may be cyclic, with one visited set shared
 * by all siblings. Following a reference keeps no record of where it has
 * been, so it may not end; the search is given in a form that takes at most
 * so many steps, and whether some number of steps is enough is part of what
 * is proved.
 */
module Secrets {
  import opened Common

  /** A schema object's identity. */
  type Id = nat

  /** The parts of a schema the search reads; only children that are objects are listed. */
  datatype Schema = Schema(
    ref: Option<string>,
    format: Option<string>,
    anyOf: Option<seq<Id>>,
    oneOf: Option<seq<Id>>,
    properties: seq<Id>,
    items: Option<Id>)

  /** `definitions` is what looking a name up finds, members that every object inherits included. */
  datatype Contract = Contract(schemas: map<Id, Schema>, definitions: map<string, Id>)

  const PREFIX := "#/$defs/"

  // ---------------------------------------------------------------- what a schema says

  /** `k` is a union branch of `s`, one of its properties, or its items; `oneOf` counts where there is no `anyOf`. */
  ghost predicate IsPart(s: Schema, k: Id) {
    || (s.anyOf.Some? && k in s.anyOf.value)
    || (s.anyOf.None? && s.oneOf.Some? && k in s.oneOf.value)
    || k in s.properties
    || s.items == Some(k)
  }

  /** `a` is a local reference to a name that leads to `b`. */
  ghost predicate RefersTo(c: Contract, a: Id, b: Id) {
    && a in c.schemas
    && exists name :: name in c.definitions && c.schemas[a].ref == Some("#/$defs/" + name) && c.definitions[name] == b
  }

  // ---------------------------------------------------------------- what the program reads

  function UnionBranches(s: Schema): seq<Id> {
    if s.anyOf.Some? then s.anyOf.value else if s.oneOf.Some? then s.oneOf.value else []
  }

  function Nested(s: Schema): (nested: seq<Id>)
    ensures forall k :: k in nested <==> IsPart(s, k)
  {
    UnionBranches(s) + s.properties + (if s.items.Some? then [s.items.value] else [])
  }

  predicate IsPassword(s: Schema) {
    s.format == Some("password")
  }

  /** The schema a local reference leads to, if there is one. */
  function Target(c: Contract, id: Id): (target: Option<Id>)
    requires id in c.schemas
    ensures forall b: Id :: target == Some(b) <==> RefersTo(c, id, b)
  {
    var ref := c.schemas[id].ref;
    assert forall name :: ref == Some(PREFIX + name) ==>
        ref.value[..|PREFIX|] == PREFIX && ref.value[|PREFIX|..] == name;
    assert ref.Some? && StartsWith(ref.value, PREFIX) ==> ref.value == PREFIX + ref.value[|PREFIX|..];
    if ref.Some? && StartsWith(ref.value, PREFIX) && ref.value[|PREFIX|..] in c.definitions
    then Some(c.definitions[ref.value[|PREFIX|..]]) else None
  }

  /** Every child and every definition is an object of the graph. */
  ghost predicate Closed(c: Contract) {
    && (forall id :: id in c.schemas ==> forall k :: IsPart(c.schemas[id], k) ==> k in c.schemas)
    && (forall name :: name in c.definitions ==> c.definitions[name] in c.schemas)
  }

  ghost predicate RefersNowhere(c: Contract, a: Id) {
    forall b: Id :: !RefersTo(c, a, b)
  }

  ghost predicate IsRefChain(c: Contract, chain: seq<Id>) {
    chain != [] && forall i :: 0 <= i < |chain| - 1 ==> RefersTo(c, chain[i], chain[i + 1])
  }

  /** References lead from `id` to `r`, which refers to nothing. */
  ghost predicate ResolvesTo(c: Contract, id: Id, r: Id) {
    && (exists chain :: IsRefChain(c, chain) && chain[0] == id && chain[|chain| - 1] == r)
    && RefersNowhere(c, r)
  }

  lemma ResolvesToItself(c: Contract, id: Id)
    requires RefersNowhere(c, id)
    ensures ResolvesTo(c, id, id)
  {
    assert IsRefChain(c, [id]);
  }

  lemma ResolvesBehind(c: Contract, a: Id, b: Id, r: Id)
    requires RefersTo(c, a, b) && ResolvesTo(c, b, r)
    ensures ResolvesTo(c, a, r)
  {
    var chain :| IsRefChain(c, chain) && chain[0] == b && chain[|chain| - 1] == r;
    var longer := [a] + chain;
    forall i | 0 <= i < |longer| - 1 ensures RefersTo(c, longer[i], longer[i + 1]) {
      if i > 0 {
        assert longer[i] == chain[i - 1] && longer[i + 1] == chain[i];
      }
    }
    assert IsRefChain(c, longer) && longer[0] == a && longer[|longer| - 1] == r;
  }

  // ---------------------------------------------------------------- step by step

  /** `resolve` with at most `n` references followed; `None` is one more needed. */
  function ResolveIn(c: Contract, id: Id, n: nat): (r: Option<Id>)
    requires Closed(c) && id in c.schemas
    ensures r.Some? ==> r.value in c.schemas && ResolvesTo(c, id, r.value)
    decreases n
  {
    var target := Target(c, id);
    if target.None? then
      ResolvesToItself(c, id);
      Some(id)
    else if n == 0 then None
    else
      var r := ResolveIn(c, target.value, n - 1);
      if r.Some? then ResolvesBehind(c, id, target.value, r.value); r else r
  }

  /** An answer, and the visited set it leaves. */
  datatype Answer = Answer(secret: bool, seen: set<Id>)

  /** `isSecret` with at most `n` steps down, by reference or by nesting. */
  function SearchIn(c: Contract, id: Id, seen: set<Id>, n: nat): (r: Option<Answer>)
    requires Closed(c) && id in c.schemas
    decreases n, 0
  {
    var resolved := ResolveIn(c, id, n);
    if resolved.None? then None
    else if resolved.value in seen then Some(Answer(false, seen))
    else if IsPassword(c.schemas[resolved.value]) then Some(Answer(true, seen + {resolved.value}))
    else if n == 0 then None
    else SearchAnyIn(c, Nested(c.schemas[resolved.value]), seen + {resolved.value}, n - 1)
  }

  /** `nested.some(...)`: children in order, until one answers yes. */
  function SearchAnyIn(c: Contract, ids: seq<Id>, seen: set<Id>, n: nat): (r: Option<Answer>)
    requires Closed(c) && forall k :: k in ids ==> k in c.schemas
    decreases n, |ids| + 1
  {
    if ids == [] then Some(Answer(false, seen))
    else
      var first := SearchIn(c, ids[0], seen, n);
      if first.None? || first.value.secret then first else SearchAnyIn(c, ids[1..], first.value.seen, n)
  }

  lemma {:induction false} ResolveLater(c: Contract, id: Id, m: nat, n: nat)
    requires Closed(c) && id in c.schemas && ResolveIn(c, id, m).Some? && m <= n
    ensures ResolveIn(c, id, n) == ResolveIn(c, id, m)
    decreases m
  {
    if Target(c, id).Some? {
      ResolveLater(c, Target(c, id).value, m - 1, n - 1);
    }
  }

  /** More steps do not change an answer. */
  lemma {:induction false} SearchLater(c: Contract, id: Id, seen: set<Id>, m: nat, n: nat)
    requires Closed(c) && id in c.schemas && SearchIn(c, id, seen, m).Some? && m <= n
    ensures SearchIn(c, id, seen, n) == SearchIn(c, id, seen, m)
    decreases m, 0
  {
    ResolveLater(c, id, m, n);
    var r := ResolveIn(c, id, m).value;
    if r !in seen && !IsPassword(c.schemas[r]) {
      SearchAnyLater(c, Nested(c.schemas[r]), seen + {r}, m - 1, n - 1);
    }
  }

  lemma {:induction false} SearchAnyLater(c: Contract, ids: seq<Id>, seen: set<Id>, m: nat, n: nat)
    requires Closed(c) && (forall k :: k in ids ==> k in c.schemas) && SearchAnyIn(c, ids, seen, m).Some? && m <= n
    ensures SearchAnyIn(c, ids, seen, n) == SearchAnyIn(c, ids, seen, m)
    decreases m, |ids| + 1
  {
    if ids != [] {
      SearchLater(c, ids[0], seen, m, n);
      var first := SearchIn(c, ids[0], seen, m).value;
      if !first.secret {
        SearchAnyLater(c, ids[1..], first.seen, m, n);
      }
    }
  }

  // ---------------------------------------------------------------- reachability

  /** References from `id` lead to an end. */
  ghost predicate Ends(c: Contract, id: Id) {
    exists r :: ResolvesTo(c, id, r)
  }

  /** As many steps as references. */
  lemma {:induction false} ChainResolves(c: Contract, chain: seq<Id>)
    requires Closed(c) && IsRefChain(c, chain) && chain[0] in c.schemas
    requires RefersNowhere(c, chain[|chain| - 1])
    ensures ResolveIn(c, chain[0], |chain| - 1) == Some(chain[|chain| - 1])
    decreases |chain|
  {
    if |chain| > 1 {
      assert RefersTo(c, chain[0], chain[1]);
      var rest := chain[1..];
      forall i | 0 <= i < |rest| - 1 ensures RefersTo(c, rest[i], rest[i + 1]) {
        assert RefersTo(c, chain[i + 1], chain[i + 2]);
      }
      ChainResolves(c, rest);
    }
  }

  lemma StepsTo(c: Contract, id: Id, r: Id) returns (n: nat)
    requires Closed(c) && id in c.schemas && ResolvesTo(c, id, r)
    ensures ResolveIn(c, id, n) == Some(r)
  {
    var chain :| IsRefChain(c, chain) && chain[0] == id && chain[|chain| - 1] == r;
    ChainResolves(c, chain);
    n := |chain| - 1;
  }

  lemma ResolvesOnce(c: Contract, id: Id, a: Id, b: Id)
    requires Closed(c) && id in c.schemas && ResolvesTo(c, id, a) && ResolvesTo(c, id, b)
    ensures a == b
  {
    var m := StepsTo(c, id, a);
    var n := StepsTo(c, id, b);
    if m <= n {
      ResolveLater(c, id, m, n);
    } else {
      ResolveLater(c, id, n, m);
    }
  }

  /** `k` is a union branch, property or item of what `a` resolves to. */
  ghost predicate Under(c: Contract, a: Id, k: Id)
    requires Closed(c)
  {
    a in c.schemas && k in c.schemas && exists r :: ResolvesTo(c, a, r) && r in c.schemas && IsPart(c.schemas[r], k)
  }

  ghost predicate IsChain(c: Contract, chain: seq<Id>)
    requires Closed(c)
  {
    && chain != []
    && (forall i :: 0 <= i < |chain| ==> chain[i] in c.schemas)
    && (forall i :: 0 <= i < |chain| - 1 ==> Under(c, chain[i], chain[i + 1]))
  }

  /** `k` is `id`, or nested in it at some depth. */
  ghost predicate Reaches(c: Contract, id: Id, k: Id)
    requires Closed(c)
  {
    exists chain :: IsChain(c, chain) && chain[0] == id && chain[|chain| - 1] == k
  }

  /** Every schema asked about below `id`, itself included, resolves: no reference met there runs in a circle. */
  ghost predicate AllEnd(c: Contract, id: Id)
    requires Closed(c)
  {
    forall k :: k in c.schemas && Reaches(c, id, k) ==> Ends(c, k)
  }

  ghost predicate IsSecretAt(c: Contract, k: Id)
    requires Closed(c) && k in c.schemas
  {
    exists r :: ResolvesTo(c, k, r) && r in c.schemas && c.schemas[r].format == Some("password")
  }

  /** A `format: password` schema can be reached from `id` through union branches, properties and items. */
  ghost predicate ReachesPassword(c: Contract, id: Id)
    requires Closed(c)
  {
    exists k :: k in c.schemas && Reaches(c, id, k) && IsSecretAt(c, k)
  }

  lemma ReachesItself(c: Contract, id: Id)
    requires Closed(c) && id in c.schemas
    ensures Reaches(c, id, id)
  {
    assert IsChain(c, [id]);
  }

  lemma ChainBehind(c: Contract, a: Id, chain: seq<Id>)
    requires Closed(c) && IsChain(c, chain) && Under(c, a, chain[0])
    ensures IsChain(c, [a] + chain)
  {
    var longer := [a] + chain;
    forall i | 0 <= i < |longer| - 1 ensures Under(c, longer[i], longer[i + 1]) {
      if i > 0 {
        assert longer[i] == chain[i - 1] && longer[i + 1] == chain[i];
      }
    }
  }

  lemma ReachesBehind(c: Contract, a: Id, b: Id, k: Id)
    requires Closed(c) && Under(c, a, b) && Reaches(c, b, k)
    ensures Reaches(c, a, k)
  {
    var chain :| IsChain(c, chain) && chain[0] == b && chain[|chain| - 1] == k;
    ChainBehind(c, a, chain);
    var longer := [a] + chain;
    assert longer[0] == a && longer[|longer| - 1] == k;
  }

  lemma AllEndBelow(c: Contract, a: Id, b: Id)
    requires Closed(c) && Under(c, a, b) && AllEnd(c, a)
    ensures AllEnd(c, b)
  {
    forall k | k in c.schemas && Reaches(c, b, k) ensures Ends(c, k) {
      ReachesBehind(c, a, b, k);
    }
  }

  lemma PasswordBehind(c: Contract, a: Id, b: Id)
    requires Closed(c) && Under(c, a, b) && ReachesPassword(c, b)
    ensures ReachesPassword(c, a)
  {
    var k :| k in c.schemas && Reaches(c, b, k) && IsSecretAt(c, k);
    ReachesBehind(c, a, b, k);
  }

  // ---------------------------------------------------------------- answers are right

  ghost predicate LandsIn(c: Contract, k: Id, seen: set<Id>)
    requires Closed(c) && k in c.schemas
  {
    exists r :: r in seen && ResolvesTo(c, k, r)
  }

  /** Visited, innocent, and with every child visited. */
  ghost predicate Explored(c: Contract, n: Id, seen: set<Id>)
    requires Closed(c)
  {
    && n in c.schemas && !IsPassword(c.schemas[n])
    && forall k :: k in Nested(c.schemas[n]) ==> LandsIn(c, k, seen)
  }

  /** What one search leaves behind, when `ids` were asked about. */
  ghost predicate Searched(c: Contract, ids: seq<Id>, before: set<Id>, answer: Answer)
    requires Closed(c) && forall k :: k in ids ==> k in c.schemas
  {
    && before <= answer.seen <= c.schemas.Keys
    && (answer.secret ==> exists k :: k in ids && ReachesPassword(c, k))
    && (!answer.secret ==>
          && (forall k :: k in ids ==> LandsIn(c, k, answer.seen))
          && (forall n :: n in answer.seen - before ==> Explored(c, n, answer.seen)))
  }

  lemma LandsLater(c: Contract, k: Id, small: set<Id>, big: set<Id>)
    requires Closed(c) && k in c.schemas && LandsIn(c, k, small) && small <= big
    ensures LandsIn(c, k, big)
  {
  }

  lemma ExploredLater(c: Contract, n: Id, small: set<Id>, big: set<Id>)
    requires Closed(c) && Explored(c, n, small) && small <= big
    ensures Explored(c, n, big)
  {
    forall k | k in Nested(c.schemas[n]) ensures LandsIn(c, k, big) {
      LandsLater(c, k, small, big);
    }
  }

  lemma PasswordFound(c: Contract, id: Id, r: Id, before: set<Id>)
    requires Closed(c) && id in c.schemas && before <= c.schemas.Keys
    requires ResolvesTo(c, id, r) && r in c.schemas && IsPassword(c.schemas[r])
    ensures Searched(c, [id], before, Answer(true, before + {r}))
  {
    ReachesItself(c, id);
    assert IsSecretAt(c, id) && id in [id];
  }

  /** A schema's search, from the search of its children. */
  lemma ChildrenSearched(c: Contract, id: Id, r: Id, before: set<Id>, answer: Answer)
    requires Closed(c) && id in c.schemas && ResolvesTo(c, id, r) && r in c.schemas && !IsPassword(c.schemas[r])
    requires Searched(c, Nested(c.schemas[r]), before + {r}, answer)
    ensures Searched(c, [id], before, answer)
  {
    if answer.secret {
      var k :| k in Nested(c.schemas[r]) && ReachesPassword(c, k);
      assert Under(c, id, k);
      PasswordBehind(c, id, k);
      assert id in [id];
    } else {
      assert Explored(c, r, answer.seen);
      assert LandsIn(c, id, answer.seen);
    }
  }

  lemma SearchedInTurn(c: Contract, ids: seq<Id>, before: set<Id>, first: Answer, answer: Answer)
    requires Closed(c) && ids != [] && forall k :: k in ids ==> k in c.schemas
    requires Searched(c, [ids[0]], before, first)
    requires if first.secret then answer == first else Searched(c, ids[1..], first.seen, answer)
    ensures Searched(c, ids, before, answer)
  {
    assert ids[0] in [ids[0]];
    assert ids == [ids[0]] + ids[1..];
    if !answer.secret {
      LandsLater(c, ids[0], first.seen, answer.seen);
      forall n | n in answer.seen - before ensures Explored(c, n, answer.seen) {
        if n in first.seen {
          ExploredLater(c, n, first.seen, answer.seen);
        }
      }
    }
  }

  /** Whenever the search comes to an answer, on any graph, it has looked where it says. */
  lemma {:induction false} SearchIsSound(c: Contract, id: Id, seen: set<Id>, n: nat)
    requires Closed(c) && id in c.schemas && seen <= c.schemas.Keys && SearchIn(c, id, seen, n).Some?
    ensures Searched(c, [id], seen, SearchIn(c, id, seen, n).value)
    decreases n, 0
  {
    var r := ResolveIn(c, id, n).value;
    assert ResolvesTo(c, id, r);
    if r in seen {
      assert LandsIn(c, id, seen);
    } else if IsPassword(c.schemas[r]) {
      PasswordFound(c, id, r, seen);
    } else {
      SearchAnyIsSound(c, Nested(c.schemas[r]), seen + {r}, n - 1);
      ChildrenSearched(c, id, r, seen, SearchIn(c, id, seen, n).value);
    }
  }

  lemma {:induction false} SearchAnyIsSound(c: Contract, ids: seq<Id>, seen: set<Id>, n: nat)
    requires Closed(c) && (forall k :: k in ids ==> k in c.schemas) && seen <= c.schemas.Keys
    requires SearchAnyIn(c, ids, seen, n).Some?
    ensures Searched(c, ids, seen, SearchAnyIn(c, ids, seen, n).value)
    decreases n, |ids| + 1
  {
    if ids != [] {
      SearchIsSound(c, ids[0], seen, n);
      var first := SearchIn(c, ids[0], seen, n).value;
      if !first.secret {
        SearchAnyIsSound(c, ids[1..], first.seen, n);
      }
      SearchedInTurn(c, ids, seen, first, SearchAnyIn(c, ids, seen, n).value);
    }
  }

  /** From a closed visited set there is no way out. */
  lemma {:induction false} ChainStaysInside(c: Contract, seen: set<Id>, chain: seq<Id>)
    requires Closed(c) && IsChain(c, chain) && LandsIn(c, chain[0], seen)
    requires forall n :: n in seen ==> Explored(c, n, seen)
    ensures LandsIn(c, chain[|chain| - 1], seen)
    decreases |chain|
  {
    if |chain| > 1 {
      var rest := chain[1..];
      forall i | 0 <= i < |rest| - 1 ensures Under(c, rest[i], rest[i + 1]) {
        assert Under(c, chain[i + 1], chain[i + 2]);
      }
      assert Under(c, chain[0], chain[1]);
      StepStaysInside(c, seen, chain[0], chain[1]);
      ChainStaysInside(c, seen, rest);
    }
  }

  lemma StepStaysInside(c: Contract, seen: set<Id>, a: Id, b: Id)
    requires Closed(c) && Under(c, a, b) && LandsIn(c, a, seen)
    requires forall n :: n in seen ==> Explored(c, n, seen)
    ensures LandsIn(c, b, seen)
  {
    var r :| ResolvesTo(c, a, r) && r in c.schemas && b in Nested(c.schemas[r]);
    var s :| s in seen && ResolvesTo(c, a, s);
    ResolvesOnce(c, a, r, s);
  }

  /** A no means that everything below resolves and nothing below is a password. */
  lemma NoMeansNone(c: Contract, id: Id, seen: set<Id>)
    requires Closed(c) && id in c.schemas && LandsIn(c, id, seen)
    requires forall n :: n in seen ==> Explored(c, n, seen)
    ensures AllEnd(c, id) && !ReachesPassword(c, id)
  {
    forall k | k in c.schemas && Reaches(c, id, k) ensures Ends(c, k) && !IsSecretAt(c, k) {
      var chain :| IsChain(c, chain) && chain[0] == id && chain[|chain| - 1] == k;
      ChainStaysInside(c, seen, chain);
      var s :| s in seen && ResolvesTo(c, k, s);
      if r :| ResolvesTo(c, k, r) && r in c.schemas && IsPassword(c.schemas[r]) {
        ResolvesOnce(c, k, r, s);
      }
    }
  }

  /**
   * On every graph, with any number of steps: if the search answers, it
   * answers yes exactly when a password schema is reachable.
   */
  lemma AnswersAreRight(c: Contract, id: Id, n: nat)
    requires Closed(c) && id in c.schemas && SearchIn(c, id, {}, n).Some?
    ensures SearchIn(c, id, {}, n).value.secret <==> ReachesPassword(c, id)
    ensures !SearchIn(c, id, {}, n).value.secret ==> AllEnd(c, id)
  {
    SearchIsSound(c, id, {}, n);
    var answer := SearchIn(c, id, {}, n).value;
    assert id in [id];
    if !answer.secret {
      NoMeansNone(c, id, answer.seen);
    }
  }

  // ---------------------------------------------------------------- when it ends

  lemma Fewer(all: set<Id>, seen: set<Id>, n: Id)
    requires n in all && n !in seen
    ensures |all - (seen + {n})| < |all - seen|
  {
    assert all - (seen + {n}) == all - seen - {n};
  }

  lemma Shrinks(all: set<Id>, a: set<Id>, b: set<Id>)
    requires a <= b
    ensures |all - b| <= |all - a|
  {
    var rest := (all - a) - (all - b);
    assert all - a == (all - b) + rest;
  }

  lemma ChildrenEnd(c: Contract, id: Id, r: Id)
    requires Closed(c) && id in c.schemas && AllEnd(c, id) && ResolvesTo(c, id, r) && r in c.schemas
    ensures forall k :: k in Nested(c.schemas[r]) ==> AllEnd(c, k)
  {
    forall k | k in Nested(c.schemas[r]) ensures AllEnd(c, k) {
      assert Under(c, id, k);
      AllEndBelow(c, id, k);
    }
  }

  /** Enough steps for the reference and for the children are enough for both. */
  lemma EnoughForBoth(c: Contract, id: Id, seen: set<Id>, m: nat, below: nat) returns (n: nat)
    requires Closed(c) && id in c.schemas && ResolveIn(c, id, m).Some?
    requires var r := ResolveIn(c, id, m).value;
             SearchAnyIn(c, Nested(c.schemas[r]), seen + {r}, below).Some?
    ensures SearchIn(c, id, seen, n).Some?
  {
    var r := ResolveIn(c, id, m).value;
    n := if m <= below then below + 1 else m;
    ResolveLater(c, id, m, n);
    SearchAnyLater(c, Nested(c.schemas[r]), seen + {r}, below, n - 1);
  }

  /** Where every reference met below `id` ends, some number of steps is enough. */
  lemma {:induction false} SearchEnds(c: Contract, id: Id, seen: set<Id>) returns (n: nat)
    requires Closed(c) && id in c.schemas && seen <= c.schemas.Keys && AllEnd(c, id)
    ensures SearchIn(c, id, seen, n).Some?
    decreases |c.schemas.Keys - seen|, 0
  {
    ReachesItself(c, id);
    var r :| ResolvesTo(c, id, r);
    n := StepsTo(c, id, r);
    if r !in seen && !IsPassword(c.schemas[r]) {
      assert ResolvesTo(c, id, r);
      ChildrenEnd(c, id, r);
      Fewer(c.schemas.Keys, seen, r);
      var below := SearchAnyEnds(c, Nested(c.schemas[r]), seen + {r});
      n := EnoughForBoth(c, id, seen, n, below);
    }
  }

  lemma {:induction false} SearchAnyEnds(c: Contract, ids: seq<Id>, seen: set<Id>) returns (n: nat)
    requires Closed(c) && seen <= c.schemas.Keys && forall k :: k in ids ==> k in c.schemas && AllEnd(c, k)
    ensures SearchAnyIn(c, ids, seen, n).Some?
    decreases |c.schemas.Keys - seen|, |ids| + 1
  {
    n := 0;
    if ids != [] {
      n := SearchEnds(c, ids[0], seen);
      var first := SearchIn(c, ids[0], seen, n).value;
      if !first.secret {
        SearchIsSound(c, ids[0], seen, n);
        Shrinks(c.schemas.Keys, seen, first.seen);
        var rest := SearchAnyEnds(c, ids[1..], first.seen);
        var more := if n <= rest then rest else n;
        SearchLater(c, ids[0], seen, n, more);
        SearchAnyLater(c, ids[1..], first.seen, rest, more);
        n := more;
      }
    }
  }

  /** The search from `id` ends for some number of steps. */
  ghost predicate Terminates(c: Contract, id: Id)
    requires Closed(c) && id in c.schemas
  {
    exists n: nat :: SearchIn(c, id, {}, n).Some?
  }

  /**
   * Where no password schema is reachable, the search ends if and only if
   * every reference met below `id` ends; and where they all end, it ends
   * whatever is reachable. References elsewhere in the contract do not matter.
   */
  lemma TerminatesExactly(c: Contract, id: Id)
    requires Closed(c) && id in c.schemas
    ensures AllEnd(c, id) ==> Terminates(c, id)
    ensures !ReachesPassword(c, id) ==> (Terminates(c, id) <==> AllEnd(c, id))
  {
    if AllEnd(c, id) {
      var n := SearchEnds(c, id, {});
    }
    if n: nat :| SearchIn(c, id, {}, n).Some? {
      AnswersAreRight(c, id, n);
    }
  }

  // ---------------------------------------------------------------- a reference to itself

  function RefTo(name: string): Schema {
    Schema(Some(PREFIX + name), None, None, None, [], None)
  }

  function Union(branches: seq<Id>): Schema {
    Schema(None, None, Some(branches), None, [], None)
  }

  /** Schema 0 refers to itself, 1 is a password, 2 and 3 are the unions of both, and 4 is an empty union. */
  function Loop(): Contract {
    var password := Schema(None, Some("password"), None, None, [], None);
    Contract(
      map[0 := RefTo("a"), 1 := password, 2 := Union([0, 1]), 3 := Union([1, 0]), 4 := Union([])],
      map["a" := 0])
  }

  lemma UnionNests(branches: seq<Id>)
    ensures Nested(Union(branches)) == branches
  {
    assert branches + [] + [] == branches;
  }

  lemma LoopTarget()
    ensures Target(Loop(), 0) == Some(0)
  {
    var ref := PREFIX + "a";
    assert ref[..|PREFIX|] == PREFIX && ref[|PREFIX|..] == "a";
  }

  lemma LoopIsClosed()
    ensures Closed(Loop())
  {
    UnionNests([0, 1]);
    UnionNests([1, 0]);
    UnionNests([]);
  }

  lemma {:induction false} LoopNeverResolves(n: nat)
    requires Closed(Loop())
    ensures ResolveIn(Loop(), 0, n).None?
  {
    LoopTarget();
    if n > 0 {
      LoopNeverResolves(n - 1);
    }
  }

  /** On a reference to itself no number of steps is enough; a schema beside it is searched all the same. */
  lemma SelfReferenceNeverEnds()
    ensures Closed(Loop())
    ensures !Terminates(Loop(), 0) && !AllEnd(Loop(), 0)
    ensures Terminates(Loop(), 4) && !ReachesPassword(Loop(), 4)
  {
    LoopIsClosed();
    forall n: nat ensures SearchIn(Loop(), 0, {}, n).None? && ResolveIn(Loop(), 0, n).None? {
      LoopNeverResolves(n);
    }
    ReachesItself(Loop(), 0);
    forall r ensures !ResolvesTo(Loop(), 0, r) {
      if ResolvesTo(Loop(), 0, r) {
        var n := StepsTo(Loop(), 0, r);
      }
    }
    UnionNests([]);
    assert SearchIn(Loop(), 4, {}, 1) == Some(Answer(false, {} + {4}));
    AnswersAreRight(Loop(), 4, 1);
  }

  /** Where a password schema is reachable and a reference does not end, the order of the branches decides. */
  lemma OrderDecides()
    ensures Closed(Loop()) && !Terminates(Loop(), 2) && Terminates(Loop(), 3)
  {
    LoopIsClosed();
    UnionNests([0, 1]);
    UnionNests([1, 0]);
    forall n: nat ensures SearchIn(Loop(), 2, {}, n).None? {
      if n > 0 {
        LoopNeverResolves(n - 1);
        assert SearchIn(Loop(), 0, {} + {2}, n - 1).None?;
      }
    }
    assert SearchIn(Loop(), 1, {} + {3}, 0).Some?;
    assert SearchAnyIn(Loop(), [1, 0], {} + {3}, 0).Some?;
    assert SearchIn(Loop(), 3, {}, 1).Some?;
  }

  // ---------------------------------------------------------------- the search itself

  /** `resolve`, where it ends. */
  function Resolve(c: Contract, id: Id, ghost n: nat): (r: Id)
    requires Closed(c) && id in c.schemas && ResolveIn(c, id, n).Some?
    ensures ResolveIn(c, id, n) == Some(r)
    decreases n
  {
    var target := Target(c, id);
    if target.None? then id else Resolve(c, target.value, n - 1)
  }

  /** The `seen` set, shared and mutated down the recursion. */
  class Seen {
    var nodes: set<Id>

    constructor ()
      ensures nodes == {}
    {
      nodes := {};
    }
  }

  /** `isSecret`, where it ends: the answer and the visited set are those of the stepwise search. */
  method Search(c: Contract, id: Id, seen: Seen, ghost n: nat) returns (secret: bool)
    requires Closed(c) && id in c.schemas && SearchIn(c, id, seen.nodes, n).Some?
    modifies seen
    ensures SearchIn(c, id, old(seen.nodes), n) == Some(Answer(secret, seen.nodes))
    decreases n, 0
  {
    var resolved := Resolve(c, id, n);
    if resolved in seen.nodes {
      return false;
    }
    seen.nodes := seen.nodes + {resolved};
    if IsPassword(c.schemas[resolved]) {
      return true;
    }
    secret := SearchAny(c, Nested(c.schemas[resolved]), seen, n - 1);
  }

  method SearchAny(c: Contract, ids: seq<Id>, seen: Seen, ghost n: nat) returns (secret: bool)
    requires Closed(c) && (forall k :: k in ids ==> k in c.schemas) && SearchAnyIn(c, ids, seen.nodes, n).Some?
    modifies seen
    ensures SearchAnyIn(c, ids, old(seen.nodes), n) == Some(Answer(secret, seen.nodes))
    decreases n, 1
  {
    secret := false;
    ghost var before := seen.nodes;
    for i := 0 to |ids|
      invariant SearchAnyIn(c, ids[i..], seen.nodes, n) == SearchAnyIn(c, ids, before, n)
    {
      assert ids[i] in ids && ids[i..][0] == ids[i] && ids[i..][1..] == ids[i + 1..];
      secret := Search(c, ids[i], seen, n);
      if secret {
        return true;
      }
    }
    assert ids[|ids|..] == [];
  }

  /** Whenever it ends, a schema is secret exactly when a password schema is reachable from it. */
  method IsSecret(c: Contract, id: Id) returns (secret: bool)
    requires Closed(c) && id in c.schemas && Terminates(c, id)
    ensures secret <==> ReachesPassword(c, id)
  {
    var seen := new Seen();
    ghost var n: nat :| SearchIn(c, id, {}, n).Some?;
    secret := Search(c, id, seen, n);
    AnswersAreRight(c, id, n);
  }
}
