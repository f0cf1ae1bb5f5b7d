/**
 * `toToml` (host/src/toml-write.ts) as sections: each table gets one when it
 * is met, its pairs collect there while its subtables get theirs behind it,
 * and a section with neither pairs nor a need for its header is not written.
 */
module TomlDocument {
  import opened Common
  import opened TomlGrammar

  datatype Source = Plain(v: Value) | Nested(table: TomlTable) | List(tables: seq<TomlTable>)

  datatype TomlTable = TomlTable(fields: seq<Field>)

  /** A field in source order; `None` is JavaScript's `undefined`, and is left out. */
  datatype Field = Field(key: string, value: Option<Source>)

  type PairLine = l: Line | l.Pair? witness Pair("", Bool(false))

  type KeyPath = p: seq<string> | p != [] witness [""]

  predicate IsPair(f: Field) {
    f.value.Some? && (f.value.value.Plain? || f.value.value == List([]))
  }

  predicate IsChild(f: Field) {
    f.value.Some? && !IsPair(f)
  }

  /** An array of no tables is written as an empty array value. */
  function PairOf(f: Field): PairLine
    requires IsPair(f)
  {
    Pair(f.key, if f.value.value.Plain? then f.value.value.v else Arr([]))
  }

  // ---------------------------------------------------------------- sections

  function PairsOf(fields: seq<Field>): seq<PairLine> {
    if fields == [] then []
    else (if IsPair(fields[0]) then [PairOf(fields[0])] else []) + PairsOf(fields[1..])
  }

  predicate HasChildren(fields: seq<Field>) {
    fields != [] && (IsChild(fields[0]) || HasChildren(fields[1..]))
  }

  /** A section before it is text. The root has no path. */
  datatype Block = Block(path: Option<KeyPath>, isArray: bool, pairs: seq<PairLine>, hasChildren: bool)

  function PathOf(path: Option<KeyPath>): seq<string> {
    if path.Some? then path.value else []
  }

  function BlocksOf(fields: seq<Field>, path: Option<KeyPath>, isArray: bool): seq<Block>
    decreases fields, 1
  {
    [Block(path, isArray, PairsOf(fields), HasChildren(fields))] + ChildBlocks(fields, PathOf(path))
  }

  function ChildBlocks(fields: seq<Field>, path: seq<string>): seq<Block>
    decreases fields, 0
  {
    if fields == [] then []
    else FieldBlocks(fields[0], path) + ChildBlocks(fields[1..], path)
  }

  function FieldBlocks(f: Field, path: seq<string>): seq<Block>
    decreases f
  {
    if f.value.None? then []
    else match f.value.value
      case Plain(_) => []
      case Nested(sub) => BlocksOf(sub.fields, Some(path + [f.key]), false)
      case List(tables) => TableBlocks(tables, path + [f.key])
  }

  function TableBlocks(tables: seq<TomlTable>, path: KeyPath): seq<Block>
    decreases tables
  {
    if tables == [] then []
    else BlocksOf(tables[0].fields, Some(path), true) + TableBlocks(tables[1..], path)
  }

  // ---------------------------------------------------------------- text

  /** The `filter` of `toToml`. */
  predicate Kept(b: Block) {
    if b.path.None? then b.pairs != [] else b.isArray || b.pairs != [] || !b.hasChildren
  }

  function BlockLines(b: Block): (lines: seq<Line>)
    ensures AllWritable(lines)
  {
    (if b.path.Some? then [Header(b.path.value, b.isArray)] else []) + b.pairs
  }

  /** The kept sections, each a text, joined by newlines. */
  function DocumentText(blocks: seq<Block>): string {
    if blocks == [] then ""
    else if !Kept(blocks[0]) then DocumentText(blocks[1..])
    else LinesText(BlockLines(blocks[0])) + (if AnyKept(blocks[1..]) then "\n" + DocumentText(blocks[1..]) else "")
  }

  predicate AnyKept(blocks: seq<Block>) {
    exists b | b in blocks :: Kept(b)
  }

  function DocumentLines(blocks: seq<Block>): (lines: seq<Line>)
    ensures AllWritable(lines)
  {
    if blocks == [] then []
    else (if Kept(blocks[0]) then BlockLines(blocks[0]) else []) + DocumentLines(blocks[1..])
  }

  /** `toToml`. */
  function ToToml(root: TomlTable): string {
    DocumentText(BlocksOf(root.fields, None, false))
  }

  /** The text of a document reads back, line for line. */
  lemma {:induction false} DocumentReadsBack(blocks: seq<Block>)
    ensures ReadLines(DocumentText(blocks)) == Some(DocumentLines(blocks))
  {
    if blocks != [] {
      DocumentReadsBack(blocks[1..]);
      if Kept(blocks[0]) {
        var rest := DocumentText(blocks[1..]);
        LinesRoundTrip(BlockLines(blocks[0]), if AnyKept(blocks[1..]) then "\n" + rest else "");
        BlankLine(rest);
        if !AnyKept(blocks[1..]) {
          NothingKept(blocks[1..]);
        }
      } else {
        assert [] + DocumentLines(blocks[1..]) == DocumentLines(blocks[1..]);
      }
    }
  }

  lemma {:induction false} NothingKept(blocks: seq<Block>)
    requires !AnyKept(blocks)
    ensures DocumentLines(blocks) == []
  {
    if blocks != [] {
      assert blocks[0] in blocks;
      NothingKept(blocks[1..]);
    }
  }

  // ---------------------------------------------------------------- the emitter

  /** A section as the writer mutates it. */
  datatype Section = Section(path: Option<KeyPath>, isArray: bool, body: string, hasChildren: bool)

  function Body(pairs: seq<PairLine>): string {
    LinesText(pairs)
  }

  function Rendered(blocks: seq<Block>): seq<Section> {
    if blocks == [] then []
    else
      var b := blocks[0];
      [Section(b.path, b.isArray, Body(b.pairs), b.hasChildren)] + Rendered(blocks[1..])
  }

  lemma {:induction false} RenderedConcat(a: seq<Block>, b: seq<Block>)
    ensures Rendered(a + b) == Rendered(a) + Rendered(b)
  {
    if a == [] {
      assert a + b == b;
    } else {
      assert (a + b)[1..] == a[1..] + b;
      RenderedConcat(a[1..], b);
    }
  }

  lemma {:induction false} BodyConcat(a: seq<PairLine>, b: seq<PairLine>)
    ensures Body(a + b) == Body(a) + Body(b)
  {
    if a == [] {
      assert a + b == b;
      assert Body(a) + Body(b) == Body(b);
    } else {
      assert (a + b)[1..] == a[1..] + b;
      BodyConcat(a[1..], b);
      LinesTextCons(a, Body(b));
    }
  }

  /** Keeping a section by its text is keeping it by its pairs: no pair has an empty text. */
  lemma BodyIsEmptyOnlyWithoutPairs(pairs: seq<PairLine>)
    ensures Body(pairs) == "" <==> pairs == []
  {
    if pairs != [] {
      LinesTextCons(pairs, "");
      assert LinesText(pairs) + "" == LinesText(pairs);
    }
  }

  predicate SectionKept(s: Section) {
    if s.path.None? then s.body != "" else s.isArray || s.body != "" || !s.hasChildren
  }

  function SectionText(s: Section): string {
    if s.path.None? then s.body else LineText(Header(s.path.value, s.isArray)) + "\n" + s.body
  }

  /** `filter`, `map` and `join("\n")`. */
  function JoinSections(sections: seq<Section>): string {
    if sections == [] then ""
    else if !SectionKept(sections[0]) then JoinSections(sections[1..])
    else SectionText(sections[0])
         + (if exists s | s in sections[1..] :: SectionKept(s) then "\n" + JoinSections(sections[1..]) else "")
  }

  lemma BlockText(b: Block)
    ensures var s := Section(b.path, b.isArray, Body(b.pairs), b.hasChildren);
            (SectionKept(s) <==> Kept(b)) && SectionText(s) == LinesText(BlockLines(b))
  {
    BodyIsEmptyOnlyWithoutPairs(b.pairs);
    var lines := BlockLines(b);
    if b.path.Some? {
      assert lines[1..] == b.pairs;
    } else {
      assert lines == b.pairs;
    }
  }

  lemma {:induction false} RenderedKept(blocks: seq<Block>)
    ensures (exists s :: s in Rendered(blocks) && SectionKept(s)) <==> AnyKept(blocks)
  {
    if blocks != [] {
      RenderedKept(blocks[1..]);
      BlockText(blocks[0]);
      assert blocks == [blocks[0]] + blocks[1..];
      var r := Rendered(blocks);
      assert r == [r[0]] + Rendered(blocks[1..]);
      assert r[0] in r && blocks[0] in blocks;
    }
  }

  lemma {:induction false} JoinRendered(blocks: seq<Block>)
    ensures JoinSections(Rendered(blocks)) == DocumentText(blocks)
  {
    if blocks != [] {
      JoinRendered(blocks[1..]);
      BlockText(blocks[0]);
      RenderedKept(blocks[1..]);
      assert Rendered(blocks)[1..] == Rendered(blocks[1..]);
    }
  }

  /** What one field does to the section it belongs to. */
  function Fill(s: Section, f: Field): Section {
    if IsPair(f) then s.(body := s.body + Body([PairOf(f)]))
    else if IsChild(f) then s.(hasChildren := true)
    else s
  }

  function FillAll(s: Section, fields: seq<Field>): Section
    decreases |fields|
  {
    if fields == [] then s else FillAll(Fill(s, fields[0]), fields[1..])
  }

  lemma {:induction false} FillAllMeaning(s: Section, fields: seq<Field>)
    ensures FillAll(s, fields)
         == s.(body := s.body + Body(PairsOf(fields)), hasChildren := s.hasChildren || HasChildren(fields))
    decreases |fields|
  {
    if fields == [] {
      assert s.body + Body([]) == s.body;
    } else {
      FillAllMeaning(Fill(s, fields[0]), fields[1..]);
      FillOne(s, fields);
    }
  }

  lemma FillOne(s: Section, fields: seq<Field>)
    requires fields != []
    ensures Fill(s, fields[0]).body + Body(PairsOf(fields[1..])) == s.body + Body(PairsOf(fields))
    ensures Fill(s, fields[0]).hasChildren || HasChildren(fields[1..]) <==> s.hasChildren || HasChildren(fields)
    ensures Fill(s, fields[0]) == s.(body := Fill(s, fields[0]).body, hasChildren := Fill(s, fields[0]).hasChildren)
  {
    var more := PairsOf(fields[1..]);
    if IsPair(fields[0]) {
      var first := PairOf(fields[0]);
      BodyConcat([first], more);
      Joined(s.body, Body([first]), Body(more));
      assert PairsOf(fields) == [first] + more;
    } else {
      assert PairsOf(fields) == more;
    }
  }

  lemma Refill<T>(a: seq<T>, x: T, y: T, b: seq<T>, c: seq<T>)
    ensures (a + [x] + b)[|a| := y] + c == a + [y] + (b + c)
  {
  }

  lemma RenderedBlocks(fields: seq<Field>, path: Option<KeyPath>, isArray: bool)
    ensures Rendered(BlocksOf(fields, path, isArray))
         == [Section(path, isArray, "" + Body(PairsOf(fields)), HasChildren(fields))]
            + Rendered(ChildBlocks(fields, PathOf(path)))
  {
    assert "" + Body(PairsOf(fields)) == Body(PairsOf(fields));
    var blocks := BlocksOf(fields, path, isArray);
    assert blocks[1..] == ChildBlocks(fields, PathOf(path));
  }

  class TomlWriter {
    var sections: seq<Section>

    constructor ()
      ensures sections == []
    {
      sections := [];
    }

    /** `emit`: push a section, then fill it while nested sections are pushed behind it. */
    method Emit(fields: seq<Field>, path: Option<KeyPath>, isArray: bool)
      modifies this
      ensures sections == old(sections) + Rendered(BlocksOf(fields, path, isArray))
      decreases fields, 1
    {
      var index := |sections|;
      var start := Section(path, isArray, "", false);
      ghost var current, done: seq<Block> := start, [];
      sections := sections + [start];
      for i := 0 to |fields|
        invariant index == |old(sections)|
        invariant sections == old(sections) + [current] + Rendered(done)
        invariant FillAll(current, fields[i..]) == FillAll(start, fields)
        invariant done + ChildBlocks(fields[i..], PathOf(path)) == ChildBlocks(fields, PathOf(path))
      {
        assert fields[i..][0] == fields[i] && fields[i..][1..] == fields[i + 1..];
        ghost var blocks := FieldBlocks(fields[i], PathOf(path));
        EmitField(index, fields[i], PathOf(path));
        Refill(old(sections), current, Fill(current, fields[i]), Rendered(done), Rendered(blocks));
        RenderedConcat(done, blocks);
        Joined(done, blocks, ChildBlocks(fields[i + 1..], PathOf(path)));
        current, done := Fill(current, fields[i]), done + blocks;
      }
      assert done == ChildBlocks(fields, PathOf(path)) && current == FillAll(start, fields);
      FillAllMeaning(start, fields);
      RenderedBlocks(fields, path, isArray);
      Joined(old(sections), [current], Rendered(done));
    }

    /** The loop body of `emit`: a value goes into the section at `index`, a table behind it. */
    method EmitField(index: nat, f: Field, path: seq<string>)
      requires index < |sections|
      modifies this
      ensures sections == old(sections)[index := Fill(old(sections)[index], f)] + Rendered(FieldBlocks(f, path))
      decreases f, 2
    {
      sections := sections[index := Fill(sections[index], f)];
      if f.value.Some? {
        match f.value.value {
          case Plain(v) =>
          case Nested(sub) =>
            Emit(sub.fields, Some(path + [f.key]), false);
          case List(tables) =>
            EmitTables(tables, path + [f.key]);
        }
      }
    }

    method EmitTables(tables: seq<TomlTable>, path: KeyPath)
      modifies this
      ensures sections == old(sections) + Rendered(TableBlocks(tables, path))
      decreases tables, 3
    {
      ghost var done: seq<Block> := [];
      for j := 0 to |tables|
        invariant sections == old(sections) + Rendered(done)
        invariant done + TableBlocks(tables[j..], path) == TableBlocks(tables, path)
      {
        assert tables[j..][1..] == tables[j + 1..];
        ghost var blocks := BlocksOf(tables[j].fields, Some(path), true);
        Emit(tables[j].fields, Some(path), true);
        RenderedConcat(done, blocks);
        Joined(old(sections), Rendered(done), Rendered(blocks));
        Joined(done, blocks, TableBlocks(tables[j + 1..], path));
        done := done + blocks;
      }
      assert done == TableBlocks(tables, path);
    }
  }

  /** `toToml`: emit the root, then print the sections that are kept. */
  method WriteToml(root: TomlTable) returns (text: string)
    ensures text == ToToml(root)
  {
    var writer := new TomlWriter();
    writer.Emit(root.fields, None, false);
    text := JoinSections(writer.sections);
    JoinRendered(BlocksOf(root.fields, None, false));
    assert [] + Rendered(BlocksOf(root.fields, None, false)) == Rendered(BlocksOf(root.fields, None, false));
  }
}
