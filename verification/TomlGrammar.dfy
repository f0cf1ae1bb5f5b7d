/**
 * The text level of a TOML document: how values, key-value lines and table
 * headers are written (host/src/toml-write.ts), and a reader of lines for the
 * same part of TOML v1.0.0.
 */
module TomlGrammar {
  import opened Common
  import opened Decimal
  import opened TomlText

  datatype Value = Str(s: string) | Num(n: int) | Bool(b: bool) | Arr(items: seq<string>)

  /** A line of a document: `[path]`, `[[path]]`, or `key = value`. */
  datatype Line = Header(path: seq<string>, isArray: bool) | Pair(key: string, value: Value)

  // ---------------------------------------------------------------- writer

  function NumberText(n: int): string {
    if n < 0 then "-" + Digits(-n, 10) else Digits(n, 10)
  }

  function ItemLines(items: seq<string>): string {
    if items == [] then "" else "    " + TomlString(items[0]) + ",\n" + ItemLines(items[1..])
  }

  /** `tomlValue`: arrays of two or more values go one per line. */
  function ValueText(v: Value): string {
    match v
    case Str(s) => TomlString(s)
    case Num(n) => NumberText(n)
    case Bool(b) => if b then "true" else "false"
    case Arr(items) =>
      if |items| >= 2 then "[\n" + ItemLines(items) + "]"
      else if items == [] then "[]"
      else "[" + TomlString(items[0]) + "]"
  }

  function PathText(path: seq<string>): string
    requires path != []
  {
    if |path| == 1 then TomlKey(path[0]) else TomlKey(path[0]) + "." + PathText(path[1..])
  }

  predicate Writable(line: Line) {
    line.Header? ==> line.path != []
  }

  function LineText(line: Line): string
    requires Writable(line)
  {
    match line
    case Header(path, isArray) => if isArray then "[[" + PathText(path) + "]]" else "[" + PathText(path) + "]"
    case Pair(key, value) => TomlKey(key) + " = " + ValueText(value)
  }

  predicate AllWritable(lines: seq<Line>) {
    forall line :: line in lines ==> Writable(line)
  }

  function LinesText(lines: seq<Line>): string
    requires AllWritable(lines)
  {
    if lines == [] then "" else LineText(lines[0]) + "\n" + LinesText(lines[1..])
  }

  // ---------------------------------------------------------------- reader (TOML v1.0.0)

  /** The items of an array, behind `[` or `,`: blanks and newlines are free, a last comma is allowed. */
  function ReadItems(t: string): (d: Decoded<seq<string>>)
    ensures d.Some? ==> |d.value.1| < |t|
    decreases |t|
  {
    var u := SkipBlank(t);
    if u == [] then None
    else if u[0] == ']' then Some(([], u[1..]))
    else
      var s := ReadString(u);
      if s.None? then None
      else
        var v := SkipBlank(s.value.1);
        if v == [] then None
        else if v[0] == ']' then Some(([s.value.0], v[1..]))
        else if v[0] == ',' then
          var more := ReadItems(v[1..]);
          if more.None? then None else Some(([s.value.0] + more.value.0, more.value.1))
        else None
  }

  function ReadNumber(t: string): Decoded<int> {
    var negative := t != [] && t[0] == '-';
    var u := if negative then t[1..] else t;
    var n := DigitRun(u, 10);
    if n == 0 then None
    else
      var v: int := ValueOf(u[..n], 10);
      Some((if negative then -v else v, u[n..]))
  }

  function ReadValue(t: string): Decoded<Value> {
    if t == [] then None
    else if t[0] == '"' || t[0] == '\'' then
      var s := ReadString(t);
      if s.None? then None else Some((Str(s.value.0), s.value.1))
    else if t[0] == '[' then
      var a := ReadItems(t[1..]);
      if a.None? then None else Some((Arr(a.value.0), a.value.1))
    else if StartsWith(t, "true") then Some((Bool(true), t[4..]))
    else if StartsWith(t, "false") then Some((Bool(false), t[5..]))
    else
      var n := ReadNumber(t);
      if n.None? then None else Some((Num(n.value.0), n.value.1))
  }

  /** A dotted key, with blanks allowed around its parts. */
  function ReadPath(t: string): (d: Decoded<seq<string>>)
    ensures d.Some? ==> d.value.0 != [] && |d.value.1| < |t|
    decreases |t|
  {
    var k := ReadKey(SkipSpaces(t));
    if k.None? then None
    else
      var r := SkipSpaces(k.value.1);
      if r != [] && r[0] == '.' then
        var more := ReadPath(r[1..]);
        if more.None? then None else Some(([k.value.0] + more.value.0, more.value.1))
      else Some(([k.value.0], r))
  }

  function ReadPair(t: string): Decoded<Line> {
    var k := ReadKey(t);
    if k.None? then None
    else
      var r := SkipSpaces(k.value.1);
      if r == [] || r[0] != '=' then None
      else
        var v := ReadValue(SkipSpaces(r[1..]));
        if v.None? then None else Some((Pair(k.value.0, v.value.0), v.value.1))
  }

  function ReadLine(t: string): Decoded<Line> {
    if StartsWith(t, "[[") then
      var p := ReadPath(t[2..]);
      if p.None? || !StartsWith(p.value.1, "]]") then None
      else Some((Header(p.value.0, true), p.value.1[2..]))
    else if StartsWith(t, "[") then
      var p := ReadPath(t[1..]);
      if p.None? || !StartsWith(p.value.1, "]") then None
      else Some((Header(p.value.0, false), p.value.1[1..]))
    else ReadPair(t)
  }

  /** Behind a `#`: what follows the comment; only tabs are allowed in it of all control characters. */
  function SkipComment(t: string): (r: Option<string>)
    ensures r.Some? ==> |r.value| <= |t|
  {
    if t == [] || t[0] == '\n' then Some(t)
    else if IsControl(t[0]) then None
    else SkipComment(t[1..])
  }

  /** Behind a line's contents: blanks, a comment, and then its end. */
  function LineEnd(t: string): (r: Option<string>)
    ensures r.Some? ==> |r.value| <= |t|
  {
    var r := SkipSpaces(t);
    if r == [] || r[0] == '\n' then Some(r)
    else if r[0] == '#' then SkipComment(r[1..])
    else None
  }

  /** All lines of a document; a line ends with a newline or the text. */
  function ReadLines(t: string): Option<seq<Line>>
    decreases |t|
  {
    var u := SkipBlank(t);
    if u == [] then Some([])
    else if u[0] == '#' then
      var r := SkipComment(u[1..]);
      if r.None? then None else ReadLines(r.value)
    else
      var line := ReadLine(u);
      if line.None? then None
      else
        var r := LineEnd(line.value.1);
        if r.None? || |r.value| >= |t| then None
        else
          var more := ReadLines(r.value);
          if more.None? then None else Some([line.value.0] + more.value)
  }

  // ---------------------------------------------------------------- round trip

  predicate QuoteStart(t: string) {
    t != [] && (t[0] == '"' || t[0] == '\'')
  }

  lemma StringStart(s: string)
    ensures QuoteStart(TomlString(s))
  {
  }

  lemma KeyStart(key: string)
    ensures TomlKey(key) != [] && (IsBare(TomlKey(key)[0]) || QuoteStart(TomlKey(key)))
  {
    if key != [] {
      assert key[0] in key;
    }
  }

  lemma SkipOne(c: char, t: string)
    requires c in {' ', '\t', '\n'}
    ensures SkipBlank([c] + t) == SkipBlank(t)
  {
    assert ([c] + t)[1..] == t;
  }

  lemma SkipIndent(t: string)
    ensures SkipBlank("    " + t) == SkipBlank(t)
  {
    assert "    " + t == [' '] + ([' '] + ([' '] + ([' '] + t)));
    SkipOne(' ', t);
    SkipOne(' ', [' '] + t);
    SkipOne(' ', [' '] + ([' '] + t));
    SkipOne(' ', [' '] + ([' '] + ([' '] + t)));
  }

  function WithItem(s: string, more: Decoded<seq<string>>): Decoded<seq<string>> {
    if more.None? then None else Some(([s] + more.value.0, more.value.1))
  }

  lemma ReadItemsCons(s: string, t: string)
    ensures ReadItems("    " + (TomlString(s) + ("," + t))) == WithItem(s, ReadItems(t))
  {
    var u := TomlString(s) + ("," + t);
    StringStart(s);
    SkipIndent(u);
    assert u[0] == TomlString(s)[0];
    StringRoundTrip(s, "," + t);
    assert ("," + t)[1..] == t;
  }

  /** `ReadItems` only looks behind leading blanks. */
  lemma ItemsBehindNewline(t: string)
    ensures ReadItems("\n" + t) == ReadItems(t)
  {
    SkipOne('\n', t);
  }

  lemma {:induction false} ItemLinesRoundTrip(items: seq<string>, rest: string)
    ensures ReadItems(ItemLines(items) + ("]" + rest)) == Some((items, rest))
  {
    if items == [] {
      assert ItemLines(items) + ("]" + rest) == "]" + rest;
      assert ("]" + rest)[1..] == rest;
    } else {
      ItemLinesRoundTrip(items[1..], rest);
      ItemReads(items, rest, ItemLines(items[1..]) + ("]" + rest));
    }
  }

  lemma ItemReads(items: seq<string>, rest: string, tail: string)
    requires items != [] && tail == ItemLines(items[1..]) + ("]" + rest) && ReadItems(tail) == Some((items[1..], rest))
    ensures ReadItems(ItemLines(items) + ("]" + rest)) == Some((items, rest))
  {
    ItemLinesText(items, "]" + rest);
    ReadItemsLine(items[0], tail);
    FirstItem(items, rest);
  }

  lemma ReadItemsLine(s: string, tail: string)
    ensures ReadItems("    " + (TomlString(s) + ("," + ("\n" + tail)))) == WithItem(s, ReadItems(tail))
  {
    ReadItemsCons(s, "\n" + tail);
    ItemsBehindNewline(tail);
  }

  lemma FirstItem(items: seq<string>, rest: string)
    requires items != []
    ensures WithItem(items[0], Some((items[1..], rest))) == Some((items, rest))
  {
    assert items == [items[0]] + items[1..];
  }

  lemma ItemLinesText(items: seq<string>, t: string)
    requires items != []
    ensures ItemLines(items) + t == "    " + (TomlString(items[0]) + ("," + ("\n" + (ItemLines(items[1..]) + t))))
  {
    var s := TomlString(items[0]);
    var rest := ItemLines(items[1..]);
    assert ItemLines(items) == "    " + s + ",\n" + rest;
    ItemRegroups(s, rest, t);
  }

  lemma ItemRegroups(s: string, rest: string, t: string)
    ensures "    " + s + ",\n" + rest + t == "    " + (s + ("," + ("\n" + (rest + t))))
  {
    assert ",\n" == "," + "\n";
  }

  lemma OneItem(s: string, rest: string)
    ensures ReadItems(TomlString(s) + ("]" + rest)) == Some(([s], rest))
  {
    var u := TomlString(s) + ("]" + rest);
    StringStart(s);
    assert u[0] == TomlString(s)[0];
    StringRoundTrip(s, "]" + rest);
    assert ("]" + rest)[1..] == rest;
  }

  lemma OpensArray(t: string)
    ensures ReadValue("[" + t) == var a := ReadItems(t); if a.None? then None else Some((Arr(a.value.0), a.value.1))
  {
    assert ("[" + t)[1..] == t;
  }

  lemma ArrayRoundTrip(items: seq<string>, rest: string)
    ensures ReadValue(ValueText(Arr(items)) + rest) == Some((Arr(items), rest))
  {
    var t := ValueText(Arr(items)) + rest;
    if |items| >= 2 {
      var tail := ItemLines(items) + ("]" + rest);
      assert t == "[" + ("\n" + tail);
      OpensArray("\n" + tail);
      ItemsBehindNewline(tail);
      ItemLinesRoundTrip(items, rest);
    } else if items == [] {
      assert t == "[" + ("]" + rest);
      OpensArray("]" + rest);
      assert ("]" + rest)[1..] == rest;
    } else {
      assert t == "[" + (TomlString(items[0]) + ("]" + rest));
      OpensArray(TomlString(items[0]) + ("]" + rest));
      OneItem(items[0], rest);
      assert items == [items[0]];
    }
  }

  lemma ReadDigits(n: nat, rest: string)
    requires rest == [] || !IsDigit(rest[0], 10)
    ensures var t := Digits(n, 10) + rest;
            && DigitRun(t, 10) == |Digits(n, 10)| > 0
            && ValueOf(t[..DigitRun(t, 10)], 10) == n && t[DigitRun(t, 10)..] == rest
  {
    var d := Digits(n, 10);
    DigitRunExact(d, rest, 10);
    assert (d + rest)[..|d|] == d && (d + rest)[|d|..] == rest;
    DigitsValue(n, 10);
  }

  lemma ReadNumberText(n: int, rest: string)
    requires rest == [] || !IsDigit(rest[0], 10)
    ensures ReadNumber(NumberText(n) + rest) == Some((n, rest))
  {
    if n < 0 {
      NegativeReads(-n, rest);
    } else {
      PositiveReads(n, rest);
    }
  }

  lemma PositiveReads(n: nat, rest: string)
    requires rest == [] || !IsDigit(rest[0], 10)
    ensures ReadNumber(Digits(n, 10) + rest) == Some((n, rest))
  {
    var d := Digits(n, 10);
    ReadDigits(n, rest);
    assert IsDigit(d[0], 10);
    assert (d + rest)[0] == d[0];
  }

  lemma NegativeReads(n: nat, rest: string)
    requires rest == [] || !IsDigit(rest[0], 10)
    ensures ReadNumber("-" + Digits(n, 10) + rest) == Some((0 - n, rest))
  {
    var u := Digits(n, 10) + rest;
    ReadDigits(n, rest);
    Joined("-", Digits(n, 10), rest);
    MinusReads(u, DigitRun(u, 10));
  }

  lemma MinusReads(u: string, run: nat)
    requires run == DigitRun(u, 10) > 0
    ensures ReadNumber("-" + u) == Some((0 - ValueOf(u[..run], 10), u[run..]))
  {
    assert ("-" + u)[1..] == u;
  }

  lemma NumberRoundTrip(n: int, rest: string)
    requires rest == [] || !IsDigit(rest[0], 10)
    ensures ReadValue(NumberText(n) + rest) == Some((Num(n), rest))
  {
    ReadNumberText(n, rest);
    var t := NumberText(n) + rest;
    var d := Digits(if n < 0 then -n else n, 10);
    assert t[0] == if n < 0 then '-' else d[0];
    assert IsDigit(d[0], 10);
    NotStarting(t, "true", 0);
    NotStarting(t, "false", 0);
  }

  lemma ValueRoundTrip(v: Value, rest: string)
    requires NoQuoteAhead(rest) && (rest == [] || !IsDigit(rest[0], 10))
    ensures ReadValue(ValueText(v) + rest) == Some((v, rest))
  {
    match v
    case Str(s) =>
      StringStart(s);
      StringRoundTrip(s, rest);
    case Num(n) => NumberRoundTrip(n, rest);
    case Bool(b) =>
      var t := ValueText(v) + rest;
      if b {
        assert t[..4] == "true" && t[4..] == rest;
      } else {
        NotStarting(t, "true", 0);
        assert t[..5] == "false" && t[5..] == rest;
      }
    case Arr(items) => ArrayRoundTrip(items, rest);
  }

  lemma ValueStart(v: Value)
    ensures ValueText(v) != [] && ValueText(v)[0] !in {' ', '\t'}
  {
    match v
    case Str(s) => StringStart(s);
    case Num(n) =>
      var d := Digits(if n < 0 then -n else n, 10);
      assert IsDigit(d[0], 10);
    case Bool(b) =>
    case Arr(items) =>
  }

  lemma Dotted(k: string, p: string, close: string, rest: string)
    ensures k + "." + p + close + rest == k + ("." + (p + close + rest))
  {
  }

  lemma {:induction false} PathRoundTrip(path: seq<string>, rest: string)
    requires path != []
    ensures ReadPath(PathText(path) + "]" + rest) == Some((path, "]" + rest))
  {
    var k := TomlKey(path[0]);
    if |path| == 1 {
      Regroup("", k, "]", rest);
      LastKeyReads(path[0], rest);
      assert path == [path[0]];
    } else {
      var tail := PathText(path[1..]) + "]" + rest;
      Dotted(k, PathText(path[1..]), "]", rest);
      PathRoundTrip(path[1..], rest);
      DottedKeyReads(path[0], tail);
      assert path == [path[0]] + path[1..];
    }
  }

  lemma KeyIsNotBlank(key: string, rest: string)
    ensures SkipSpaces(TomlKey(key) + rest) == TomlKey(key) + rest
  {
    KeyStart(key);
    assert (TomlKey(key) + rest)[0] == TomlKey(key)[0];
  }

  lemma LastKeyReads(key: string, rest: string)
    ensures ReadPath(TomlKey(key) + ("]" + rest)) == Some(([key], "]" + rest))
  {
    KeyIsNotBlank(key, "]" + rest);
    KeyRoundTrip(key, "]" + rest);
  }

  lemma DottedKeyReads(key: string, tail: string)
    ensures ReadPath(TomlKey(key) + ("." + tail)) == PathAfter(key, ReadPath(tail))
  {
    KeyIsNotBlank(key, "." + tail);
    KeyRoundTrip(key, "." + tail);
    assert ("." + tail)[1..] == tail;
  }

  function PathAfter(key: string, more: Decoded<seq<string>>): Decoded<seq<string>> {
    if more.None? then None else Some(([key] + more.value.0, more.value.1))
  }

  lemma ArrayHeaderRoundTrip(path: seq<string>, rest: string)
    requires path != []
    ensures ReadLine(LineText(Header(path, true)) + rest) == Some((Header(path, true), rest))
  {
    var t := LineText(Header(path, true)) + rest;
    var end := "]" + ("]" + rest);
    assert t == "[[" + (PathText(path) + "]" + ("]" + rest));
    assert t[2..] == PathText(path) + "]" + ("]" + rest) && t[..2] == "[[";
    PathRoundTrip(path, "]" + rest);
    assert end[..2] == "]]" && end[2..] == rest;
  }

  lemma TableHeaderRoundTrip(path: seq<string>, rest: string)
    requires path != []
    ensures ReadLine(LineText(Header(path, false)) + rest) == Some((Header(path, false), rest))
  {
    var t := LineText(Header(path, false)) + rest;
    KeyStart(path[0]);
    assert t == "[" + (PathText(path) + "]" + rest);
    assert PathText(path)[0] == TomlKey(path[0])[0];
    assert t[1] == PathText(path)[0];
    NotStarting(t, "[[", 1);
    assert t[1..] == PathText(path) + "]" + rest && t[..1] == "[";
    PathRoundTrip(path, rest);
    assert ("]" + rest)[..1] == "]" && ("]" + rest)[1..] == rest;
  }

  lemma ReadPairAt(key: string, after: string)
    requires after != [] && after[0] !in {' ', '\t'}
    ensures ReadPair(TomlKey(key) + (" = " + after))
         == var v := ReadValue(after); if v.None? then None else Some((Pair(key, v.value.0), v.value.1))
  {
    KeyRoundTrip(key, " = " + after);
    assert (" = " + after)[1..] == "= " + after;
    assert SkipSpaces(" = " + after) == "= " + after;
    assert ("= " + after)[1..] == " " + after;
    assert (" " + after)[1..] == after;
    assert SkipSpaces(" " + after) == after;
  }

  lemma PairRoundTrip(key: string, v: Value, rest: string)
    requires NoQuoteAhead(rest) && (rest == [] || !IsDigit(rest[0], 10))
    ensures ReadPair(TomlKey(key) + " = " + ValueText(v) + rest) == Some((Pair(key, v), rest))
  {
    var k, text := TomlKey(key), ValueText(v);
    assert k + " = " + text + rest == k + (" = " + (text + rest));
    ValueStart(v);
    assert (text + rest)[0] == text[0];
    ReadPairAt(key, text + rest);
    ValueRoundTrip(v, rest);
  }

  lemma LineRoundTrip(line: Line, rest: string)
    requires Writable(line)
    ensures var t := LineText(line) + "\n" + rest;
            ReadLine(t) == Some((line, "\n" + rest)) && SkipBlank(t) == t && t != [] && t[0] != '#'
  {
    var t := LineText(line) + "\n" + rest;
    assert t == LineText(line) + ("\n" + rest);
    if line.Header? {
      if line.isArray {
        ArrayHeaderRoundTrip(line.path, "\n" + rest);
      } else {
        TableHeaderRoundTrip(line.path, "\n" + rest);
      }
    } else {
      KeyStart(line.key);
      var k := TomlKey(line.key);
      assert t[0] == k[0];
      NotStarting(t, "[[", 0);
      NotStarting(t, "[", 0);
      PairRoundTrip(line.key, line.value, "\n" + rest);
      assert t == k + " = " + ValueText(line.value) + ("\n" + rest);
    }
  }

  lemma BlankLine(t: string)
    ensures ReadLines("\n" + t) == ReadLines(t)
  {
    assert ("\n" + t)[1..] == t;
    var u := SkipBlank(t);
    if u != [] && u[0] != '#' && ReadLine(u).Some? {
      ReadLineShrinks(u);
    }
  }

  predicate NoControls(s: string) {
    forall i :: 0 <= i < |s| ==> !IsControl(s[i])
  }

  lemma ControlsConcat(a: string, b: string)
    requires NoControls(a) && NoControls(b)
    ensures NoControls(a + b)
  {
  }

  lemma {:induction false} CommentSkips(text: string, rest: string)
    requires NoControls(text)
    ensures SkipComment(text + ("\n" + rest)) == Some("\n" + rest)
  {
    if text == [] {
      assert text + ("\n" + rest) == "\n" + rest;
    } else {
      var t := text + ("\n" + rest);
      assert t[0] == text[0] && t[1..] == text[1..] + ("\n" + rest);
      CommentSkips(text[1..], rest);
    }
  }

  /** A line that is a comment says nothing. */
  lemma CommentLine(text: string, rest: string)
    requires NoControls(text)
    ensures ReadLines("#" + (text + ("\n" + rest))) == ReadLines(rest)
  {
    var t := "#" + (text + ("\n" + rest));
    assert t[0] == '#' && t[1..] == text + ("\n" + rest);
    CommentSkips(text, rest);
    BlankLine(rest);
  }

  lemma ReadLineShrinks(t: string)
    ensures ReadLine(t).Some? ==> |ReadLine(t).value.1| < |t|
  {
    if !StartsWith(t, "[") && ReadKey(t).Some? {
      var r := SkipSpaces(ReadKey(t).value.1);
      if r != [] && r[0] == '=' {
        var v := SkipSpaces(r[1..]);
        ReadValueShrinks(v);
      }
    }
  }

  lemma ReadValueShrinks(t: string)
    ensures ReadValue(t).Some? ==> |ReadValue(t).value.1| < |t|
  {
  }

  function WithLines(lines: seq<Line>, more: Option<seq<Line>>): Option<seq<Line>> {
    if more.None? then None else Some(lines + more.value)
  }

  lemma FirstLine(line: Line, tail: string)
    requires Writable(line)
    ensures ReadLines(LineText(line) + "\n" + tail) == WithLines([line], ReadLines(tail))
  {
    var t := LineText(line) + "\n" + tail;
    LineRoundTrip(line, tail);
    ReadLineShrinks(t);
    assert LineEnd("\n" + tail) == Some("\n" + tail);
    BlankLine(tail);
  }

  /** Written lines, then the rest of a document. */
  lemma {:induction false} LinesRoundTrip(lines: seq<Line>, rest: string)
    requires AllWritable(lines)
    ensures ReadLines(LinesText(lines) + rest) == WithLines(lines, ReadLines(rest))
  {
    if lines == [] {
      assert LinesText(lines) + rest == rest;
      assert ReadLines(rest).Some? ==> lines + ReadLines(rest).value == ReadLines(rest).value;
    } else {
      LinesTextCons(lines, rest);
      LinesRoundTrip(lines[1..], rest);
      FirstLine(lines[0], LinesText(lines[1..]) + rest);
      WithLinesCons(lines, ReadLines(rest));
    }
  }

  lemma LinesTextCons(lines: seq<Line>, rest: string)
    requires lines != [] && AllWritable(lines)
    ensures AllWritable(lines[1..])
    ensures LinesText(lines) + rest == LineText(lines[0]) + "\n" + (LinesText(lines[1..]) + rest)
  {
    TailWritable(lines);
    Joined(LineText(lines[0]) + "\n", LinesText(lines[1..]), rest);
  }

  lemma TailWritable(lines: seq<Line>)
    requires lines != [] && AllWritable(lines)
    ensures Writable(lines[0]) && AllWritable(lines[1..])
  {
    assert lines[0] in lines;
  }

  lemma WithLinesCons(lines: seq<Line>, more: Option<seq<Line>>)
    requires lines != []
    ensures WithLines([lines[0]], WithLines(lines[1..], more)) == WithLines(lines, more)
  {
    if more.Some? {
      assert [lines[0]] + (lines[1..] + more.value) == lines + more.value;
    }
  }
}
