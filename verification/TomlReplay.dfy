/**
 * What the lines of a TOML document mean: the sections "Table" and "Array of
 * Tables" of TOML v1.0.0, replayed on a tree.
 */
module TomlReplay {
  import opened Common
  import opened TomlGrammar

  /** `explicit`: the table has had its own header, so it may not have another. */
  datatype Node =
    | Leaf(v: Value)
    | Table(m: map<string, Node>, explicit: bool)
    | Tables(elements: seq<Row>)

  datatype Row = Row(m: map<string, Node>)

  /** What one line does inside the table it addresses. */
  datatype Op = Put(key: string, v: Value) | Define(key: string) | Append(key: string)

  datatype Act = Act(path: seq<string>, op: Op)

  /** Lines as acts; `current` is the table the last header opened. */
  function ActsOf(lines: seq<Line>, current: seq<string>): seq<Act>
    requires AllWritable(lines)
  {
    if lines == [] then []
    else
      var line := lines[0];
      assert Writable(line);
      match line
      case Pair(k, v) => [Act(current, Put(k, v))] + ActsOf(lines[1..], current)
      case Header(path, isArray) => [HeaderAct(path, isArray)] + ActsOf(lines[1..], path)
  }

  function HeaderAct(path: seq<string>, isArray: bool): Act
    requires path != []
  {
    var parent, key := path[..|path| - 1], path[|path| - 1];
    Act(parent, if isArray then Append(key) else Define(key))
  }

  /** No key is set twice, no table is defined twice, and only an array of tables is appended to. */
  function Exec(m: map<string, Node>, op: Op): Option<map<string, Node>> {
    match op
    case Put(k, v) => if k in m then None else Some(m[k := Leaf(v)])
    case Define(k) =>
      if k !in m then Some(m[k := Table(map[], true)])
      else if m[k].Table? && !m[k].explicit then Some(m[k := Table(m[k].m, true)])
      else None
    case Append(k) =>
      if k !in m then Some(m[k := Tables([Row(map[])])])
      else if m[k].Tables? then Some(m[k := Tables(m[k].elements + [Row(map[])])])
      else None
  }

  /** The table a key of a header path leads into: a new one, the table itself, or the last element. */
  function Inside(m: map<string, Node>, k: string): Option<map<string, Node>> {
    if k !in m then Some(map[])
    else match m[k]
      case Leaf(_) => None
      case Table(t, _) => Some(t)
      case Tables(es) => if es == [] then None else Some(es[|es| - 1].m)
  }

  /** `m` with the table behind `k` replaced; a table made on the way is not explicit. */
  function Rebuild(m: map<string, Node>, k: string, t: map<string, Node>): map<string, Node>
    requires Inside(m, k).Some?
  {
    if k !in m then m[k := Table(t, false)]
    else match m[k]
      case Table(_, explicit) => m[k := Table(t, explicit)]
      case Tables(es) => m[k := Tables(es[..|es| - 1] + [Row(t)])]
  }

  function ApplyAt(m: map<string, Node>, path: seq<string>, op: Op): Option<map<string, Node>>
    decreases |path|
  {
    if path == [] then Exec(m, op)
    else
      var inside := Inside(m, path[0]);
      if inside.None? then None
      else
        var t := ApplyAt(inside.value, path[1..], op);
        if t.None? then None else Some(Rebuild(m, path[0], t.value))
  }

  function Fold(acts: seq<Act>, m: map<string, Node>): Option<map<string, Node>> {
    if acts == [] then Some(m)
    else
      var next := ApplyAt(m, acts[0].path, acts[0].op);
      if next.None? then None else Fold(acts[1..], next.value)
  }

  /** The tree a document's lines build, if they follow the rules. */
  function Replay(lines: seq<Line>): Option<map<string, Node>>
    requires AllWritable(lines)
  {
    Fold(ActsOf(lines, []), map[])
  }

  // ---------------------------------------------------------------- laws

  function Prefixed(acts: seq<Act>, prefix: seq<string>): (r: seq<Act>)
    ensures |r| == |acts|
    ensures forall i :: 0 <= i < |r| ==> r[i] == Act(prefix + acts[i].path, acts[i].op)
  {
    if acts == [] then []
    else [Act(prefix + acts[0].path, acts[0].op)] + Prefixed(acts[1..], prefix)
  }

  lemma PrefixedConcat(a: seq<Act>, b: seq<Act>, prefix: seq<string>)
    ensures Prefixed(a + b, prefix) == Prefixed(a, prefix) + Prefixed(b, prefix)
  {
  }

  lemma PrefixedTwice(acts: seq<Act>, p: seq<string>, q: seq<string>)
    ensures Prefixed(Prefixed(acts, q), p) == Prefixed(acts, p + q)
  {
    var once := Prefixed(acts, q);
    forall i | 0 <= i < |acts| ensures Prefixed(once, p)[i] == Prefixed(acts, p + q)[i] {
      assert p + (q + acts[i].path) == p + q + acts[i].path;
    }
  }

  lemma PrefixedByNothing(acts: seq<Act>)
    ensures Prefixed(acts, []) == acts
  {
    forall i | 0 <= i < |acts| ensures Prefixed(acts, [])[i] == acts[i] {
      assert [] + acts[i].path == acts[i].path;
    }
  }

  lemma {:induction false} FoldConcat(a: seq<Act>, b: seq<Act>, m: map<string, Node>)
    ensures Fold(a + b, m) == var r := Fold(a, m); if r.None? then None else Fold(b, r.value)
  {
    if a == [] {
      assert a + b == b;
    } else {
      assert (a + b)[1..] == a[1..] + b;
      var next := ApplyAt(m, a[0].path, a[0].op);
      if next.Some? {
        FoldConcat(a[1..], b, next.value);
      }
    }
  }

  lemma LastReplaced<T>(es: seq<T>, t: T)
    requires es != []
    ensures var r := es[..|es| - 1] + [t];
            |r| == |es| && r[|r| - 1] == t && r[..|r| - 1] == es[..|es| - 1]
    ensures es[..|es| - 1] + [es[|es| - 1]] == es
  {
  }

  lemma RebuildLaws(m: map<string, Node>, k: string, t: map<string, Node>, u: map<string, Node>)
    requires Inside(m, k).Some?
    ensures Inside(Rebuild(m, k, t), k) == Some(t)
    ensures Rebuild(Rebuild(m, k, t), k, u) == Rebuild(m, k, u)
  {
    if k in m && m[k].Tables? {
      RebuildList(m, k, t, u);
    } else {
      assert Rebuild(Rebuild(m, k, t), k, u) == Rebuild(m, k, u);
    }
  }

  lemma RebuildList(m: map<string, Node>, k: string, t: map<string, Node>, u: map<string, Node>)
    requires k in m && m[k].Tables? && Inside(m, k).Some?
    ensures Inside(Rebuild(m, k, t), k) == Some(t)
    ensures Rebuild(Rebuild(m, k, t), k, u) == Rebuild(m, k, u)
  {
    LastReplaced(m[k].elements, Row(t));
    assert Rebuild(m, k, t)[k].Tables?;
    assert Rebuild(Rebuild(m, k, t), k, u)[k] == Rebuild(m, k, u)[k];
  }

  lemma RebuildSame(m: map<string, Node>, k: string)
    requires k in m && Inside(m, k).Some?
    ensures Rebuild(m, k, Inside(m, k).value) == m
  {
    if m[k].Tables? {
      LastReplaced(m[k].elements, Row(map[]));
    }
  }

  /** Acts below a key only ever touch the table behind that key. */
  lemma {:induction false} FoldIsLocal(acts: seq<Act>, m: map<string, Node>, k: string)
    requires Inside(m, k).Some? && (acts != [] || k in m)
    ensures Fold(Prefixed(acts, [k]), m)
         == var t := Fold(acts, Inside(m, k).value); if t.None? then None else Some(Rebuild(m, k, t.value))
  {
    if acts == [] {
      RebuildSame(m, k);
    } else {
      var path, op := acts[0].path, acts[0].op;
      assert ([k] + path)[0] == k && ([k] + path)[1..] == path;
      var step := ApplyAt(Inside(m, k).value, path, op);
      if step.Some? {
        var m' := Rebuild(m, k, step.value);
        RebuildLaws(m, k, step.value, map[]);
        FoldIsLocal(acts[1..], m', k);
        var t := Fold(acts[1..], step.value);
        if t.Some? {
          RebuildLaws(m, k, step.value, t.value);
        }
      }
    }
  }
}
