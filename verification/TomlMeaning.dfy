/** The text `toToml` writes means the tree it was given. */
module TomlMeaning {
  import opened Common
  import opened TomlGrammar
  import opened TomlReplay
  import opened TomlDocument

  // ---------------------------------------------------------------- the source's meaning

  /** A TOML document's tree: tables are unordered. */
  datatype Tree = Val(v: Value) | Tab(m: map<string, Tree>) | Tabs(elements: seq<map<string, Tree>>)

  /** The tree a source table stands for, whatever the order of its fields. */
  function Meaning(fields: seq<Field>): map<string, Tree>
    decreases fields
  {
    if fields == [] then map[]
    else if fields[0].value.None? then Meaning(fields[1..])
    else Meaning(fields[1..])[fields[0].key := SourceMeaning(fields[0].value.value)]
  }

  function SourceMeaning(s: Source): Tree
    decreases s
  {
    match s
    case Plain(v) => Val(v)
    case Nested(t) => Tab(Meaning(t.fields))
    case List(tables) => if tables == [] then Val(Arr([])) else Tabs(TablesMeaning(tables))
  }

  function TablesMeaning(tables: seq<TomlTable>): (r: seq<map<string, Tree>>)
    ensures |r| == |tables|
    decreases tables
  {
    if tables == [] then [] else [Meaning(tables[0].fields)] + TablesMeaning(tables[1..])
  }

  function KeysOf(fields: seq<Field>): set<string> {
    if fields == [] then {}
    else (if fields[0].value.Some? then {fields[0].key} else {}) + KeysOf(fields[1..])
  }

  /** No table has two fields with one key, at any depth. */
  predicate DistinctKeys(fields: seq<Field>)
    decreases fields
  {
    fields == [] || (
      && (fields[0].value.Some? ==> fields[0].key !in KeysOf(fields[1..]) && DistinctIn(fields[0].value.value))
      && DistinctKeys(fields[1..]))
  }

  predicate DistinctIn(s: Source)
    decreases s
  {
    match s
    case Plain(_) => true
    case Nested(t) => DistinctKeys(t.fields)
    case List(tables) => forall t | t in tables :: DistinctKeys(t.fields)
  }

  // ---------------------------------------------------------------- replayed tree

  /** A table's own header is written. */
  predicate HeaderWritten(fields: seq<Field>) {
    PairsOf(fields) != [] || !HasChildren(fields)
  }

  /** The meaning, with each table marked as the replay will leave it; `children` picks one kind of field. */
  function Part(fields: seq<Field>, children: bool): map<string, Node>
    decreases fields, 0
  {
    if fields == [] then map[]
    else if fields[0].value.None? || IsChild(fields[0]) != children then Part(fields[1..], children)
    else Part(fields[1..], children)[fields[0].key := NodeOf(fields[0].value.value)]
  }

  function Whole(fields: seq<Field>): map<string, Node>
    decreases fields, 1
  {
    Part(fields, false) + Part(fields, true)
  }

  function NodeOf(s: Source): Node
    decreases s
  {
    match s
    case Plain(v) => Leaf(v)
    case Nested(t) => Table(Whole(t.fields), HeaderWritten(t.fields))
    case List(tables) => if tables == [] then Leaf(Arr([])) else Tables(Wholes(tables))
  }

  function Wholes(tables: seq<TomlTable>): (r: seq<Row>)
    ensures |r| == |tables|
    decreases tables
  {
    if tables == [] then [] else [Row(Whole(tables[0].fields))] + Wholes(tables[1..])
  }

  lemma {:induction false} PartKeys(fields: seq<Field>, children: bool)
    ensures Part(fields, children).Keys <= KeysOf(fields)
  {
    if fields != [] {
      PartKeys(fields[1..], children);
    }
  }

  // ---------------------------------------------------------------- acts relative to a table

  function PairActs(fields: seq<Field>): seq<Act> {
    if fields == [] then []
    else if IsPair(fields[0])
    then [Act([], Put(PairOf(fields[0]).key, PairOf(fields[0]).value))] + PairActs(fields[1..])
    else PairActs(fields[1..])
  }

  function ChildActs(fields: seq<Field>): seq<Act>
    decreases fields, 0
  {
    if fields == [] then [] else FieldActs(fields[0]) + ChildActs(fields[1..])
  }

  function TableActs(fields: seq<Field>): seq<Act>
    decreases fields, 1
  {
    PairActs(fields) + ChildActs(fields)
  }

  function FieldActs(f: Field): seq<Act>
    decreases f
  {
    if f.value.None? then []
    else match f.value.value
      case Plain(_) => []
      case Nested(t) =>
        (if HeaderWritten(t.fields) then [Act([], Define(f.key))] else []) + Prefixed(TableActs(t.fields), [f.key])
      case List(tables) => ListActs(tables, f.key)
  }

  function ListActs(tables: seq<TomlTable>, key: string): seq<Act>
    decreases tables
  {
    if tables == [] then []
    else ElementActs(tables[0], key) + ListActs(tables[1..], key)
  }

  function ElementActs(t: TomlTable, key: string): seq<Act>
    decreases t
  {
    [Act([], Append(key))] + Prefixed(TableActs(t.fields), [key])
  }

  // ---------------------------------------------------------------- replaying the acts

  lemma {:induction false} PairsReplay(fields: seq<Field>, m: map<string, Node>)
    requires DistinctKeys(fields) && KeysOf(fields) !! m.Keys
    ensures Fold(PairActs(fields), m) == Some(m + Part(fields, false))
    decreases |fields|
  {
    if fields == [] {
      assert m + map[] == m;
    } else if IsPair(fields[0]) {
      var k, v := PairOf(fields[0]).key, PairOf(fields[0]).value;
      var m' := m[k := Leaf(v)];
      assert k in KeysOf(fields);
      PairsReplay(fields[1..], m');
      PartKeys(fields[1..], false);
      assert m' + Part(fields[1..], false) == m + Part(fields, false);
      assert PairActs(fields)[1..] == PairActs(fields[1..]);
    } else {
      PairsReplay(fields[1..], m);
    }
  }

  /** Below a header, or below none, a subtable's acts build the subtable. */
  lemma SubtableReplay(f: Field, sub: seq<Field>, m: map<string, Node>)
    requires f.value == Some(Nested(TomlTable(sub))) && f.key !in m
    requires Fold(TableActs(sub), map[]) == Some(Whole(sub))
    requires TableActs(sub) != [] || HeaderWritten(sub)
    ensures Fold(FieldActs(f), m) == Some(m[f.key := Table(Whole(sub), HeaderWritten(sub))])
  {
    var below := Prefixed(TableActs(sub), [f.key]);
    if HeaderWritten(sub) {
      var m' := m[f.key := Table(map[], true)];
      FoldIsLocal(TableActs(sub), m', f.key);
      FoldConcat([Act([], Define(f.key))], below, m);
      assert Fold([Act([], Define(f.key))], m) == Some(m');
      assert m'[f.key := Table(Whole(sub), true)] == m[f.key := Table(Whole(sub), true)];
    } else {
      FoldIsLocal(TableActs(sub), m, f.key);
      assert FieldActs(f) == below;
    }
  }

  lemma {:induction false} ListReplay(tables: seq<TomlTable>, key: string, m: map<string, Node>, done: seq<Row>)
    requires forall t :: t in tables ==> Rebuilt(t)
    requires if done == [] then key !in m && tables != [] else key in m && m[key] == Tables(done)
    ensures Fold(ListActs(tables, key), m) == Some(m[key := Tables(done + Wholes(tables))])
    decreases |tables|
  {
    if tables == [] {
      assert done + [] == done;
      assert m[key := Tables(done)] == m;
    } else {
      var done' := done + [Row(Whole(tables[0].fields))];
      var m' := m[key := Tables(done')];
      assert Rebuilt(tables[0]);
      ElementReplay(tables[0], key, m, done);
      assert forall t :: t in tables[1..] ==> Rebuilt(t);
      ListReplay(tables[1..], key, m', done');
      ListStep(tables, key, m, done);
    }
  }

  lemma ListStep(tables: seq<TomlTable>, key: string, m: map<string, Node>, done: seq<Row>)
    requires tables != []
    requires var done' := done + [Row(Whole(tables[0].fields))];
             var m' := m[key := Tables(done')];
             && Fold(ElementActs(tables[0], key), m) == Some(m')
             && Fold(ListActs(tables[1..], key), m') == Some(m'[key := Tables(done' + Wholes(tables[1..]))])
    ensures Fold(ListActs(tables, key), m) == Some(m[key := Tables(done + Wholes(tables))])
  {
    var done' := done + [Row(Whole(tables[0].fields))];
    FoldConcat(ElementActs(tables[0], key), ListActs(tables[1..], key), m);
    Joined(done, [Row(Whole(tables[0].fields))], Wholes(tables[1..]));
    UpdateTwice(m, key, Tables(done'), Tables(done + Wholes(tables)));
  }

  lemma UpdateTwice(m: map<string, Node>, key: string, a: Node, b: Node)
    ensures m[key := a][key := b] == m[key := b]
  {
  }

  ghost predicate Rebuilt(t: TomlTable) {
    Fold(TableActs(t.fields), map[]) == Some(Whole(t.fields))
  }

  lemma ElementReplay(t: TomlTable, key: string, m: map<string, Node>, done: seq<Row>)
    requires Rebuilt(t)
    requires if done == [] then key !in m else key in m && m[key] == Tables(done)
    ensures Fold(ElementActs(t, key), m)
         == Some(m[key := Tables(done + [Row(Whole(t.fields))])])
  {
    var m' := m[key := Tables(done + [Row(map[])])];
    ElementOpens(key, m, done);
    FoldConcat([Act([], Append(key))], Prefixed(TableActs(t.fields), [key]), m);
    FoldIsLocal(TableActs(t.fields), m', key);
    assert (done + [Row(map[])])[..|done|] == done;
    UpdateTwice(m, key, Tables(done + [Row(map[])]), Tables(done + [Row(Whole(t.fields))]));
  }

  lemma ElementOpens(key: string, m: map<string, Node>, done: seq<Row>)
    requires if done == [] then key !in m else key in m && m[key] == Tables(done)
    ensures Fold([Act([], Append(key))], m) == Some(m[key := Tables(done + [Row(map[])])])
  {
    assert done == [] ==> done + [Row(map[])] == [Row(map[])];
    assert [Act([], Append(key))][1..] == [];
  }

  /** A table left without a header still emits something below it. */
  lemma {:induction false} ChildrenAct(fields: seq<Field>)
    requires HasChildren(fields)
    ensures ChildActs(fields) != []
    decreases fields, 0
  {
    if IsChild(fields[0]) {
      FieldActsNonEmpty(fields[0]);
    } else {
      ChildrenAct(fields[1..]);
    }
  }

  lemma {:induction false} FieldActsNonEmpty(f: Field)
    requires IsChild(f)
    ensures FieldActs(f) != []
    decreases f
  {
    if f.value.value.Nested? {
      var sub := f.value.value.table.fields;
      if !HeaderWritten(sub) {
        ChildrenAct(sub);
        assert |Prefixed(TableActs(sub), [f.key])| == |TableActs(sub)|;
      }
    } else {
      var tables := f.value.value.tables;
      assert |ListActs(tables, f.key)| >= |ElementActs(tables[0], f.key)| >= 1;
    }
  }

  lemma {:induction false} ChildrenReplay(fields: seq<Field>, m: map<string, Node>)
    requires DistinctKeys(fields)
    requires forall f :: f in fields && f.value.Some? && f.key in m ==> !IsChild(f)
    ensures Fold(ChildActs(fields), m) == Some(m + Part(fields, true))
    decreases fields, 0
  {
    if fields == [] {
      assert m + map[] == m;
    } else {
      var f := fields[0];
      assert f in fields;
      FoldConcat(FieldActs(f), ChildActs(fields[1..]), m);
      if IsChild(f) {
        var m' := m[f.key := NodeOf(f.value.value)];
        FieldReplay(f, m);
        NotAmongRest(fields);
        ChildrenReplay(fields[1..], m');
        PartKeys(fields[1..], true);
        assert m' + Part(fields[1..], true) == m + Part(fields, true);
      } else {
        assert FieldActs(f) == [];
        ChildrenReplay(fields[1..], m);
      }
    }
  }

  lemma {:induction false} NotAmongRest(fields: seq<Field>)
    requires fields != [] && DistinctKeys(fields) && fields[0].value.Some?
    ensures forall g :: g in fields[1..] && g.value.Some? ==> g.key != fields[0].key
  {
    KeysOfAll(fields[1..]);
  }

  lemma {:induction false} KeysOfAll(fields: seq<Field>)
    ensures forall g :: g in fields && g.value.Some? ==> g.key in KeysOf(fields)
  {
    if fields != [] {
      KeysOfAll(fields[1..]);
      assert fields == [fields[0]] + fields[1..];
    }
  }

  lemma {:induction false} FieldReplay(f: Field, m: map<string, Node>)
    requires IsChild(f) && DistinctIn(f.value.value) && f.key !in m
    ensures Fold(FieldActs(f), m) == Some(m[f.key := NodeOf(f.value.value)])
    decreases f, 2
  {
    match f.value.value
    case Nested(t) =>
      TableReplay(t.fields);
      if !HeaderWritten(t.fields) {
        ChildrenAct(t.fields);
      }
      SubtableReplay(f, t.fields, m);
    case List(tables) =>
      forall t | t in tables ensures Rebuilt(t) {
        TableReplay(t.fields);
      }
      ListReplay(tables, f.key, m, []);
      assert [] + Wholes(tables) == Wholes(tables);
  }

  /** Replaying a table's acts on an empty table rebuilds it. */
  lemma {:induction false} TableReplay(fields: seq<Field>)
    requires DistinctKeys(fields)
    ensures Fold(TableActs(fields), map[]) == Some(Whole(fields))
    decreases fields, 1
  {
    var pairs := Part(fields, false);
    PairsReplay(fields, map[]);
    assert map[] + pairs == pairs;
    FoldConcat(PairActs(fields), ChildActs(fields), map[]);
    ChildrenApart(fields);
    ChildrenReplay(fields, pairs);
  }

  lemma {:induction false} ChildrenApart(fields: seq<Field>)
    requires DistinctKeys(fields)
    ensures forall f :: f in fields && f.value.Some? && f.key in Part(fields, false) ==> !IsChild(f)
  {
    if fields != [] {
      ChildrenApart(fields[1..]);
      PartKeys(fields[1..], false);
      if fields[0].value.Some? {
        NotAmongRest(fields);
      }
    }
  }

  // ---------------------------------------------------------------- lines to acts

  function BlockActs(b: Block): seq<Act> {
    if !Kept(b) then []
    else (if b.path.Some? then [HeaderAct(b.path.value, b.isArray)] else []) + PairsAt(b.pairs, PathOf(b.path))
  }

  function PairsAt(pairs: seq<PairLine>, path: seq<string>): seq<Act> {
    if pairs == [] then [] else [Act(path, Put(pairs[0].key, pairs[0].value))] + PairsAt(pairs[1..], path)
  }

  function AllActs(blocks: seq<Block>): seq<Act> {
    if blocks == [] then [] else BlockActs(blocks[0]) + AllActs(blocks[1..])
  }

  lemma {:induction false} AllActsConcat(a: seq<Block>, b: seq<Block>)
    ensures AllActs(a + b) == AllActs(a) + AllActs(b)
  {
    if a == [] {
      assert a + b == b;
    } else {
      assert (a + b)[1..] == a[1..] + b;
      AllActsConcat(a[1..], b);
    }
  }

  lemma {:induction false} PairLinesAct(pairs: seq<PairLine>, rest: seq<Line>, path: seq<string>)
    requires AllWritable(rest)
    ensures AllWritable(pairs + rest)
    ensures ActsOf(pairs + rest, path) == PairsAt(pairs, path) + ActsOf(rest, path)
  {
    if pairs == [] {
      assert pairs + rest == rest;
    } else {
      assert (pairs + rest)[1..] == pairs[1..] + rest;
      PairLinesAct(pairs[1..], rest, path);
    }
  }

  ghost predicate BelowRoot(blocks: seq<Block>) {
    forall b :: b in blocks ==> b.path.Some?
  }

  /** Every section below the root opens with its header, so its acts do not depend on what came before. */
  lemma {:induction false} DocumentActs(blocks: seq<Block>, current: seq<string>)
    requires BelowRoot(blocks)
    ensures ActsOf(DocumentLines(blocks), current) == AllActs(blocks)
  {
    if blocks != [] {
      var b, rest := blocks[0], DocumentLines(blocks[1..]);
      assert b in blocks && BelowRoot(blocks[1..]);
      DocumentActs(blocks[1..], b.path.value);
      DocumentActs(blocks[1..], current);
      if Kept(b) {
        BlockLinesAct(b, rest, current);
      } else {
        assert [] + rest == rest;
        assert [] + AllActs(blocks[1..]) == AllActs(blocks[1..]);
      }
    }
  }

  lemma BlockLinesAct(b: Block, rest: seq<Line>, current: seq<string>)
    requires b.path.Some? && Kept(b) && AllWritable(rest)
    ensures AllWritable(BlockLines(b) + rest)
    ensures ActsOf(BlockLines(b) + rest, current) == BlockActs(b) + ActsOf(rest, b.path.value)
  {
    var lines := BlockLines(b) + rest;
    assert AllWritable(lines);
    assert lines[0] == Header(b.path.value, b.isArray) && lines[1..] == b.pairs + rest;
    PairLinesAct(b.pairs, rest, b.path.value);
  }

  lemma {:induction false} PairsAtPrefix(fields: seq<Field>, path: seq<string>)
    ensures PairsAt(PairsOf(fields), path) == Prefixed(PairActs(fields), path)
  {
    if fields != [] {
      PairsAtPrefix(fields[1..], path);
      if IsPair(fields[0]) {
        var first := PairOf(fields[0]);
        assert PairsOf(fields)[0] == first && PairsOf(fields)[1..] == PairsOf(fields[1..]);
        assert path + [] == path;
      } else {
        assert PairsOf(fields) == PairsOf(fields[1..]);
      }
    }
  }

  lemma {:induction false} TableBlockActs(fields: seq<Field>, path: KeyPath, isArray: bool)
    ensures AllActs(BlocksOf(fields, Some(path), isArray))
         == (if isArray || HeaderWritten(fields) then [HeaderAct(path, isArray)] else [])
            + Prefixed(TableActs(fields), path)
    decreases fields, 1
  {
    var blocks := BlocksOf(fields, Some(path), isArray);
    assert blocks[1..] == ChildBlocks(fields, path);
    ChildBlockActs(fields, path);
    PairsAtPrefix(fields, path);
    PrefixedConcat(PairActs(fields), ChildActs(fields), path);
  }

  lemma {:induction false} ChildBlockActs(fields: seq<Field>, path: seq<string>)
    ensures AllActs(ChildBlocks(fields, path)) == Prefixed(ChildActs(fields), path)
    decreases fields, 0
  {
    if fields != [] {
      FieldBlockActs(fields[0], path);
      ChildBlockActs(fields[1..], path);
      AllActsConcat(FieldBlocks(fields[0], path), ChildBlocks(fields[1..], path));
      PrefixedConcat(FieldActs(fields[0]), ChildActs(fields[1..]), path);
    }
  }

  lemma {:induction false} FieldBlockActs(f: Field, path: seq<string>)
    ensures AllActs(FieldBlocks(f, path)) == Prefixed(FieldActs(f), path)
    decreases f
  {
    if f.value.Some? && f.value.value.Nested? {
      var sub := f.value.value.table.fields;
      TableBlockActs(sub, path + [f.key], false);
      BelowKey(f.key, TableActs(sub), path, false, HeaderWritten(sub));
    } else if f.value.Some? && f.value.value.List? {
      ListBlockActs(f.value.value.tables, f.key, path);
    }
  }

  lemma {:induction false} ListBlockActs(tables: seq<TomlTable>, key: string, path: seq<string>)
    ensures AllActs(TableBlocks(tables, path + [key])) == Prefixed(ListActs(tables, key), path)
    decreases tables
  {
    if tables != [] {
      var t := tables[0];
      TableBlockActs(t.fields, path + [key], true);
      BelowKey(key, TableActs(t.fields), path, true, true);
      ListBlockActs(tables[1..], key, path);
      AllActsConcat(BlocksOf(t.fields, Some(path + [key]), true), TableBlocks(tables[1..], path + [key]));
      PrefixedConcat(ElementActs(t, key), ListActs(tables[1..], key), path);
    }
  }

  function OpFor(key: string, isArray: bool): Op {
    if isArray then Append(key) else Define(key)
  }

  /** A header and what follows it, seen from the table above. */
  lemma BelowKey(key: string, acts: seq<Act>, path: seq<string>, isArray: bool, header: bool)
    ensures Prefixed((if header then [Act([], OpFor(key, isArray))] else []) + Prefixed(acts, [key]), path)
         == (if header then [HeaderAct(path + [key], isArray)] else []) + Prefixed(acts, path + [key])
  {
    var first := if header then [Act([], OpFor(key, isArray))] else [];
    PrefixedConcat(first, Prefixed(acts, [key]), path);
    PrefixedTwice(acts, path, [key]);
    assert (path + [key])[..|path|] == path;
    assert path + [] == path;
  }

  lemma {:induction false} ChildBlocksBelowRoot(fields: seq<Field>, path: seq<string>)
    ensures BelowRoot(ChildBlocks(fields, path))
    decreases fields, 0
  {
    if fields != [] {
      ChildBlocksBelowRoot(fields[1..], path);
      FieldBlocksBelowRoot(fields[0], path);
    }
  }

  lemma {:induction false} FieldBlocksBelowRoot(f: Field, path: seq<string>)
    ensures BelowRoot(FieldBlocks(f, path))
    decreases f
  {
    if f.value.Some? && f.value.value.Nested? {
      ChildBlocksBelowRoot(f.value.value.table.fields, path + [f.key]);
    } else if f.value.Some? && f.value.value.List? {
      TableBlocksBelowRoot(f.value.value.tables, path + [f.key]);
    }
  }

  lemma {:induction false} TableBlocksBelowRoot(tables: seq<TomlTable>, path: KeyPath)
    ensures BelowRoot(TableBlocks(tables, path))
    decreases tables
  {
    if tables != [] {
      ChildBlocksBelowRoot(tables[0].fields, path);
      TableBlocksBelowRoot(tables[1..], path);
    }
  }

  lemma RootLines(fields: seq<Field>)
    ensures DocumentLines(BlocksOf(fields, None, false)) == PairsOf(fields) + DocumentLines(ChildBlocks(fields, []))
  {
    var blocks := BlocksOf(fields, None, false);
    assert blocks[1..] == ChildBlocks(fields, []);
    assert BlockLines(blocks[0]) == PairsOf(fields);
  }

  /** The document's lines, as acts on the root, are the root table's acts. */
  lemma RootActs(fields: seq<Field>)
    ensures ActsOf(DocumentLines(BlocksOf(fields, None, false)), []) == TableActs(fields)
  {
    var children := ChildBlocks(fields, []);
    RootLines(fields);
    PairLinesAct(PairsOf(fields), DocumentLines(children), []);
    PairsAtPrefix(fields, []);
    PrefixedByNothing(PairActs(fields));
    ChildBlocksBelowRoot(fields, []);
    DocumentActs(children, []);
    ChildBlockActs(fields, []);
    PrefixedByNothing(ChildActs(fields));
  }

  // ---------------------------------------------------------------- the theorem

  function StripMap(m: map<string, Node>): (r: map<string, Tree>)
    ensures r.Keys == m.Keys
  {
    map k | k in m :: Strip(m[k])
  }

  function StripRow(row: Row): map<string, Tree> {
    map k | k in row.m :: Strip(row.m[k])
  }

  /** A replayed node without its bookkeeping. */
  function Strip(n: Node): Tree {
    match n
    case Leaf(v) => Val(v)
    case Table(m, _) => Tab(map k | k in m :: Strip(m[k]))
    case Tables(rows) => Tabs(seq(|rows|, i requires 0 <= i < |rows| => StripRow(rows[i])))
  }

  lemma {:induction false} StripWhole(fields: seq<Field>)
    requires DistinctKeys(fields)
    ensures StripMap(Whole(fields)) == Meaning(fields)
    decreases fields, 1
  {
    if fields == [] {
      assert Whole(fields) == map[];
    } else {
      var f, rest := fields[0], fields[1..];
      StripWhole(rest);
      if f.value.Some? {
        StripNode(f.value.value);
        PartKeys(rest, true);
        PartKeys(rest, false);
        assert Whole(fields) == Whole(rest)[f.key := NodeOf(f.value.value)];
      } else {
        assert Whole(fields) == Whole(rest);
      }
    }
  }

  lemma {:induction false} StripNode(s: Source)
    requires DistinctIn(s)
    ensures Strip(NodeOf(s)) == SourceMeaning(s)
    decreases s
  {
    match s
    case Plain(_) =>
    case Nested(t) => StripWhole(t.fields);
    case List(tables) =>
      if tables != [] {
        StripTables(tables);
        assert Strip(NodeOf(s)).elements == TablesMeaning(tables);
      }
  }

  lemma {:induction false} StripTables(tables: seq<TomlTable>)
    requires forall t :: t in tables ==> DistinctKeys(t.fields)
    ensures forall i :: 0 <= i < |tables| ==> StripRow(Wholes(tables)[i]) == TablesMeaning(tables)[i]
    decreases tables
  {
    if tables != [] {
      assert tables[0] in tables;
      StripWhole(tables[0].fields);
      StripTables(tables[1..]);
      forall i | 0 <= i < |tables| ensures StripRow(Wholes(tables)[i]) == TablesMeaning(tables)[i] {
        if i > 0 {
          assert Wholes(tables)[i] == Wholes(tables[1..])[i - 1];
          assert TablesMeaning(tables)[i] == TablesMeaning(tables[1..])[i - 1];
        }
      }
    }
  }

  /** Read a document: its lines, replayed, without the bookkeeping. */
  function ReadToml(text: string): Option<map<string, Tree>> {
    var lines := ReadLines(text);
    if lines.None? || !(forall l | l in lines.value :: Writable(l)) then None
    else
      var m := Replay(lines.value);
      if m.None? then None else Some(StripMap(m.value))
  }

  /**
   * For every source tree without repeated keys, the text `toToml` writes
   * follows the rules of TOML v1.0.0 and means exactly that tree: values moved
   * before subtables and headers left out change nothing.
   */
  lemma TomlRoundTrip(root: TomlTable)
    requires DistinctKeys(root.fields)
    ensures ReadToml(ToToml(root)) == Some(Meaning(root.fields))
  {
    var blocks := BlocksOf(root.fields, None, false);
    DocumentReadsBack(blocks);
    RootActs(root.fields);
    TableReplay(root.fields);
    StripWhole(root.fields);
  }
}
