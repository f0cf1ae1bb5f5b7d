/**
 * TOML strings and keys: the style the writer picks and its escapes
 * (host/src/toml-write.ts), against a decoder for the sections "String" and
 * "Keys" of TOML v1.0.0.
 */
module TomlText {
  import opened Common

  // ---------------------------------------------------------------- metrics

  /** `isControl`: everything below U+0020 but tab, and U+007F. Newline is one. */
  predicate IsControl(c: char) {
    (c as int <= 0x1f && c != '\t') || c as int == 0x7f
  }

  datatype Metrics = Metrics(maxSingle: nat, maxDouble: nat, escapeCodes: bool, escape: bool, newline: bool)

  function Next(c: char, quote: char, run: nat): nat {
    if c == quote then run + 1 else 0
  }

  function Max(a: nat, b: nat): nat {
    if a < b then b else a
  }

  /** The longest run of `quote` in `s`, when `run` of them stand right before it. */
  function MaxRun(s: string, quote: char, run: nat): nat {
    if s == [] then 0
    else Max(Next(s[0], quote, run), MaxRun(s[1..], quote, Next(s[0], quote, run)))
  }

  function MetricsOf(s: string): Metrics {
    Metrics(MaxRun(s, '\'', 0), MaxRun(s, '"', 0),
            exists c :: c in s && c != '\n' && IsControl(c), '\\' in s, '\n' in s)
  }

  method ComputeMetrics(value: string) returns (m: Metrics)
    ensures m == MetricsOf(value)
  {
    var maxSingle, maxDouble, singles, doubles := 0, 0, 0, 0;
    var escapeCodes, escape, newline := false, false, false;
    for i := 0 to |value|
      invariant Max(maxSingle, MaxRun(value[i..], '\'', singles)) == MaxRun(value, '\'', 0)
      invariant Max(maxDouble, MaxRun(value[i..], '"', doubles)) == MaxRun(value, '"', 0)
      invariant escapeCodes <==> exists c :: c in value[..i] && c != '\n' && IsControl(c)
      invariant escape <==> '\\' in value[..i]
      invariant newline <==> '\n' in value[..i]
    {
      var c := value[i];
      assert value[i..][1..] == value[i + 1..] && value[i..][0] == c;
      assert value[..i + 1] == value[..i] + [c];
      singles := Next(c, '\'', singles);
      doubles := Next(c, '"', doubles);
      maxSingle := Max(maxSingle, singles);
      maxDouble := Max(maxDouble, doubles);
      if c == '\\' {
        escape := true;
      } else if c == '\n' {
        newline := true;
      } else if IsControl(c) {
        escapeCodes := true;
      }
    }
    assert value[..|value|] == value;
    m := Metrics(maxSingle, maxDouble, escapeCodes, escape, newline);
  }

  // ---------------------------------------------------------------- escapes

  function HexDigit(n: nat): char
    requires n < 16
  {
    if n < 10 then ('0' as int + n) as char else ('A' as int + (n - 10)) as char
  }

  /** One character of a basic string body; `quotes` counts the run of `"` it ends. */
  function EscapeChar(c: char, quotes: nat, multiline: bool): string {
    if c == '"' then (if quotes > (if multiline then 2 else 0) then "\\\"" else "\"")
    else if c == '\n' then (if multiline then "\n" else "\\n")
    else if c as int == 0x08 then "\\b"
    else if c == '\t' then "\\t"
    else if c as int == 0x0c then "\\f"
    else if c == '\r' then "\\r"
    else if c == '\\' then "\\\\"
    else if c as int <= 0x1f || c as int == 0x7f then "\\u00" + [HexDigit(c as int / 16), HexDigit(c as int % 16)]
    else [c]
  }

  function Escape(s: string, quotes: nat, multiline: bool): string {
    if s == [] then ""
    else
      var q := Next(s[0], '"', quotes);
      EscapeChar(s[0], q, multiline) + Escape(s[1..], q, multiline)
  }

  method EscapeBasic(value: string, multiline: bool) returns (out: string)
    ensures out == Escape(value, 0, multiline)
  {
    out := "";
    var quotes := 0;
    for i := 0 to |value|
      invariant out + Escape(value[i..], quotes, multiline) == Escape(value, 0, multiline)
    {
      assert value[i..][1..] == value[i + 1..] && value[i..][0] == value[i];
      quotes := Next(value[i], '"', quotes);
      Joined(out, EscapeChar(value[i], quotes, multiline), Escape(value[i + 1..], quotes, multiline));
      out := out + EscapeChar(value[i], quotes, multiline);
    }
  }

  // ---------------------------------------------------------------- styles

  const QQQ := "\"\"\""
  const TTT := "'''"

  function Basic(s: string): string {
    "\"" + Escape(s, 0, false) + "\""
  }

  function MultilineBasic(s: string, newline: bool): string {
    QQQ + (if newline then "\n" else "") + Escape(s, 0, true) + QQQ
  }

  function Literal(s: string): string {
    "'" + s + "'"
  }

  function MultilineLiteral(s: string, newline: bool): string {
    TTT + (if newline then "\n" else "") + s + TTT
  }

  /** `tomlString`: the first style that can hold the value without escapes. */
  function TomlString(s: string): string {
    var m := MetricsOf(s);
    if !m.escapeCodes && !m.escape && m.maxDouble == 0 && !m.newline then Basic(s)
    else if !m.escapeCodes && m.maxSingle == 0 && !m.newline then Literal(s)
    else if !m.escapeCodes && !m.escape && m.maxDouble <= 2 then MultilineBasic(s, m.newline)
    else if !m.escapeCodes && m.maxSingle <= 2 then MultilineLiteral(s, m.newline)
    else if m.newline then MultilineBasic(s, true)
    else Basic(s)
  }

  predicate IsBare(c: char) {
    'A' <= c <= 'Z' || 'a' <= c <= 'z' || '0' <= c <= '9' || c == '_' || c == '-'
  }

  /** `tomlKey`: bare when it can be, else quoted on one line. */
  function TomlKey(key: string): string {
    var m := MetricsOf(key);
    var escapeCodes := m.escapeCodes || m.newline;
    if key != [] && forall c | c in key :: IsBare(c) then key
    else if !escapeCodes && !m.escape && m.maxDouble == 0 then Basic(key)
    else if !escapeCodes && m.maxSingle == 0 then Literal(key)
    else Basic(key)
  }

  // ---------------------------------------------------------------- decoder (TOML v1.0.0)

  type Decoded<+T> = Option<(T, string)>

  function Cons(c: char, d: Decoded<string>): Decoded<string> {
    if d.None? then None else Some(([c] + d.value.0, d.value.1))
  }

  function HexValue(c: char): Option<nat> {
    if '0' <= c <= '9' then Some(c as int - '0' as int)
    else if 'A' <= c <= 'F' then Some(c as int - 'A' as int + 10)
    else if 'a' <= c <= 'f' then Some(c as int - 'a' as int + 10)
    else None
  }

  /** The number `n` hexadecimal digits denote. */
  function HexNumber(t: string): Option<nat> {
    if t == [] then Some(0)
    else
      var high, low := HexNumber(t[..|t| - 1]), HexValue(t[|t| - 1]);
      if high.None? || low.None? then None else Some(high.value * 16 + low.value)
  }

  function Unicode(t: string, n: nat): Decoded<char> {
    if |t| < n then None
    else
      var v := HexNumber(t[..n]);
      if v.None? || v.value >= 0x11_0000 || 0xd800 <= v.value < 0xe000 then None
      else Some((v.value as char, t[n..]))
  }

  /** The escape sequence behind a backslash. */
  function Unescape(t: string): (d: Decoded<char>)
    ensures d.Some? ==> |d.value.1| < |t|
  {
    if t == [] then None
    else if t[0] == 'b' then Some((0x08 as char, t[1..]))
    else if t[0] == 't' then Some(('\t', t[1..]))
    else if t[0] == 'n' then Some(('\n', t[1..]))
    else if t[0] == 'f' then Some((0x0c as char, t[1..]))
    else if t[0] == 'r' then Some(('\r', t[1..]))
    else if t[0] == '"' then Some(('"', t[1..]))
    else if t[0] == '\\' then Some(('\\', t[1..]))
    else if t[0] == 'u' then Unicode(t[1..], 4)
    else if t[0] == 'U' then Unicode(t[1..], 8)
    else None
  }

  /** Behind the opening `"`: the value, and the text after the closing `"`. */
  function ReadBasic(t: string): (d: Decoded<string>)
    ensures d.Some? ==> |d.value.1| < |t|
    decreases |t|
  {
    if t == [] then None
    else if t[0] == '"' then Some(("", t[1..]))
    else if t[0] == '\\' then
      var e := Unescape(t[1..]);
      if e.None? then None else Cons(e.value.0, ReadBasic(e.value.1))
    else if IsControl(t[0]) then None
    else Cons(t[0], ReadBasic(t[1..]))
  }

  function ReadLiteral(t: string): (d: Decoded<string>)
    ensures d.Some? ==> |d.value.1| < |t|
  {
    if t == [] then None
    else if t[0] == '\'' then Some(("", t[1..]))
    else if IsControl(t[0]) then None
    else Cons(t[0], ReadLiteral(t[1..]))
  }

  /** Three delimiters close a multi-line string, unless a fourth follows: it takes the last three. */
  predicate Closes(t: string, quote: char) {
    |t| >= 3 && t[..3] == [quote, quote, quote] && (|t| == 3 || t[3] != quote)
  }

  function SkipBlank(t: string): (r: string)
    ensures |r| <= |t|
  {
    if t != [] && t[0] in {' ', '\t', '\n'} then SkipBlank(t[1..]) else t
  }

  function SkipSpaces(t: string): (r: string)
    ensures |r| <= |t|
  {
    if t != [] && t[0] in {' ', '\t'} then SkipSpaces(t[1..]) else t
  }

  /**
   * A multi-line basic body. `run` counts the unescaped quotes just read: at
   * most two may stand together. A backslash that ends a line trims up to the
   * next character that is not blank.
   */
  function ReadMultilineBasic(t: string, run: nat): (d: Decoded<string>)
    ensures d.Some? ==> |d.value.1| < |t|
    decreases |t|
  {
    if t == [] then None
    else if t[0] == '"' then
      if Closes(t, '"') then Some(("", t[3..]))
      else if run >= 2 then None
      else Cons('"', ReadMultilineBasic(t[1..], run + 1))
    else if t[0] == '\\' then
      var line := SkipSpaces(t[1..]);
      if line != [] && line[0] == '\n' then ReadMultilineBasic(SkipBlank(line), 0)
      else
        var e := Unescape(t[1..]);
        if e.None? then None else Cons(e.value.0, ReadMultilineBasic(e.value.1, 0))
    else if IsControl(t[0]) && t[0] != '\n' then None
    else Cons(t[0], ReadMultilineBasic(t[1..], 0))
  }

  function ReadMultilineLiteral(t: string, run: nat): (d: Decoded<string>)
    ensures d.Some? ==> |d.value.1| < |t|
    decreases |t|
  {
    if t == [] then None
    else if t[0] == '\'' then
      if Closes(t, '\'') then Some(("", t[3..]))
      else if run >= 2 then None
      else Cons('\'', ReadMultilineLiteral(t[1..], run + 1))
    else if IsControl(t[0]) && t[0] != '\n' then None
    else Cons(t[0], ReadMultilineLiteral(t[1..], 0))
  }

  /** A newline right behind an opening multi-line delimiter is trimmed. */
  function TrimNewline(t: string): (r: string)
    ensures |r| <= |t|
  {
    if t != [] && t[0] == '\n' then t[1..] else t
  }

  function ReadString(t: string): (d: Decoded<string>)
    ensures d.Some? ==> |d.value.1| < |t|
  {
    if StartsWith(t, QQQ) then ReadMultilineBasic(TrimNewline(t[3..]), 0)
    else if StartsWith(t, TTT) then ReadMultilineLiteral(TrimNewline(t[3..]), 0)
    else if t != [] && t[0] == '"' then ReadBasic(t[1..])
    else if t != [] && t[0] == '\'' then ReadLiteral(t[1..])
    else None
  }

  function BareRun(t: string): (n: nat)
    ensures n <= |t|
  {
    if t == [] || !IsBare(t[0]) then 0 else 1 + BareRun(t[1..])
  }

  function ReadKey(t: string): (d: Decoded<string>)
    ensures d.Some? ==> |d.value.1| < |t|
  {
    if t != [] && t[0] == '"' then ReadBasic(t[1..])
    else if t != [] && t[0] == '\'' then ReadLiteral(t[1..])
    else
      var n := BareRun(t);
      if n == 0 then None else Some((t[..n], t[n..]))
  }

  // ---------------------------------------------------------------- round trip

  predicate NoQuoteAhead(rest: string) {
    rest == [] || (rest[0] != '"' && rest[0] != '\'')
  }

  lemma HexRoundTrip(c: char, t: string)
    requires c as int < 0x80
    ensures Unescape("u00" + [HexDigit(c as int / 16), HexDigit(c as int % 16)] + t) == Some((c, t))
  {
    var h, l := HexDigit(c as int / 16), HexDigit(c as int % 16);
    var x := "u00" + [h, l] + t;
    assert x[1..][..4] == "00" + [h, l];
    assert x[1..][4..] == t;
    assert ("00" + [h, l])[..3] == "00" + [h];
    assert ("00" + [h])[..2] == "00";
    assert "00"[..1] == "0";
    assert HexNumber("0") == Some(0) by { assert "0"[..0] == ""; }
    assert HexNumber("00") == Some(0);
    assert HexNumber("00" + [h]) == Some(c as int / 16);
    assert HexNumber("00" + [h, l]) == Some(c as int);
  }

  /** Every escape the writer emits decodes to the character it stands for. */
  lemma EscapeDecodes(c: char, q: nat, multiline: bool, t: string)
    ensures var e := EscapeChar(c, q, multiline);
            (|e| == 1 && e[0] == c && e[0] != '\\')
            || (e[0] == '\\' && e[1] !in {' ', '\t', '\n'} && Unescape(e[1..] + t) == Some((c, t)))
  {
    var e := EscapeChar(c, q, multiline);
    if |e| == 6 {
      HexRoundTrip(c, t);
      assert e[1..] + t == "u00" + [HexDigit(c as int / 16), HexDigit(c as int % 16)] + t;
    } else if |e| == 2 {
      assert (e[1..] + t)[1..] == t;
    }
  }

  lemma {:induction false} BasicRoundTrip(s: string, q: nat, rest: string)
    ensures ReadBasic(Escape(s, q, false) + "\"" + rest) == Some((s, rest))
  {
    if s == [] {
      assert "" + "\"" + rest == "\"" + rest;
    } else {
      var q' := Next(s[0], '"', q);
      var more := Escape(s[1..], q', false);
      Regroup(EscapeChar(s[0], q', false), more, "\"", rest);
      BasicRoundTrip(s[1..], q', rest);
      BasicStep(s[0], q', more + "\"" + rest, s[1..], rest);
      assert s == [s[0]] + s[1..];
    }
  }

  lemma BasicStep(c: char, q: nat, t: string, s: string, rest: string)
    requires (c == '"' ==> q >= 1) && ReadBasic(t) == Some((s, rest))
    ensures ReadBasic(EscapeChar(c, q, false) + t) == Some(([c] + s, rest))
  {
    var e := EscapeChar(c, q, false);
    EscapeDecodes(c, q, false, t);
    assert (e + t)[1..] == e[1..] + t;
    if |e| == 1 {
      assert (e + t)[1..] == t;
    }
  }

  lemma {:induction false} LiteralRoundTrip(s: string, rest: string)
    requires '\'' !in s && forall c :: c in s ==> !IsControl(c)
    ensures ReadLiteral(s + "'" + rest) == Some((s, rest))
  {
    if s == [] {
      assert "" + "'" + rest == "'" + rest;
    } else {
      LiteralRoundTrip(s[1..], rest);
      assert (s + "'" + rest)[1..] == s[1..] + "'" + rest;
      assert s == [s[0]] + s[1..];
    }
  }

  lemma {:induction false} NoRunNoQuote(s: string, quote: char, run: nat)
    requires MaxRun(s, quote, run) == 0
    ensures quote !in s
  {
    if s != [] {
      NoRunNoQuote(s[1..], quote, Next(s[0], quote, run));
    }
  }

  /** Fewer than three raw quotes, then anything else or the delimiter, do not read as the delimiter. */
  lemma QuoteDoesNotClose(s: string, q: nat, rest: string)
    requires s != [] && s[0] == '"' && q <= 1
    ensures !Closes(Escape(s, q, true) + QQQ + rest, '"')
  {
    var body := Escape(s[1..], q + 1, true);
    EscapeQuote(s, q);
    if s[1..] == [] {
      FourQuotes("\"", rest);
    } else if s[1] == '"' && q == 0 {
      TwoQuotesDoNotClose(s, rest);
    } else {
      EscapeStart(s[1..], q + 1);
      OtherWithin("\"", body, QQQ + rest);
      Regroup("\"", body, QQQ, rest);
    }
  }

  lemma EscapeQuote(s: string, q: nat)
    requires s != [] && s[0] == '"' && q <= 1
    ensures Escape(s, q, true) == "\"" + Escape(s[1..], q + 1, true)
  {
  }

  /** A run of one or two quotes in front of the delimiter does not end the string early. */
  lemma FourQuotes(quotes: string, rest: string)
    requires quotes == "\"" || quotes == "\"\""
    ensures !Closes(quotes + QQQ + rest, '"')
  {
    assert (quotes + QQQ + rest)[3] == '"';
  }

  lemma OtherWithin(quotes: string, body: string, tail: string)
    requires |quotes| <= 2 && body != [] && body[0] != '"'
    ensures !Closes(quotes + (body + tail), '"')
  {
    assert (quotes + (body + tail))[|quotes|] == body[0];
  }

  lemma TwoQuotesDoNotClose(s: string, rest: string)
    requires |s| >= 2 && s[0] == '"' && s[1] == '"'
    ensures !Closes(Escape(s, 0, true) + QQQ + rest, '"')
  {
    var body := Escape(s[2..], 2, true);
    assert s[1..][1..] == s[2..] && s[1..][0] == '"';
    EscapeQuote(s, 0);
    EscapeQuote(s[1..], 1);
    assert Escape(s, 0, true) == "\"\"" + body;
    if s[2..] == [] {
      FourQuotes("\"\"", rest);
      assert "\"\"" + body == "\"\"";
    } else {
      EscapeStart(s[2..], 2);
      OtherWithin("\"\"", body, QQQ + rest);
      Regroup("\"\"", body, QQQ, rest);
    }
  }

  lemma EscapeStart(s: string, q: nat)
    requires s != [] && (s[0] == '"' ==> q >= 2)
    ensures Escape(s, q, true) != [] && Escape(s, q, true)[0] != '"'
  {
    var e := EscapeChar(s[0], Next(s[0], '"', q), true);
    assert Escape(s, q, true)[0] == e[0];
  }

  /** One escaped or plain character of a multi-line basic body, quotes aside. */
  lemma MultilineStep(c: char, q: nat, t: string, run: nat)
    requires EscapeChar(c, q, true) != "\""
    ensures ReadMultilineBasic(EscapeChar(c, q, true) + t, run) == Cons(c, ReadMultilineBasic(t, 0))
  {
    var e := EscapeChar(c, q, true);
    var whole := e + t;
    EscapeDecodes(c, q, true, t);
    if |e| == 1 {
      assert whole[1..] == t;
    } else {
      var x := e[1..] + t;
      assert whole[1..] == x;
      assert x[0] == e[1];
      assert SkipSpaces(x) == x;
    }
  }

  lemma {:induction false} MultilineBasicRoundTrip(s: string, q: nat, run: nat, rest: string)
    requires run <= 2 && (q <= 2 ==> run == q)
    requires rest == [] || rest[0] != '"'
    ensures ReadMultilineBasic(Escape(s, q, true) + QQQ + rest, run) == Some((s, rest))
  {
    if s == [] {
      assert "" + QQQ + rest == QQQ + rest;
      assert (QQQ + rest)[3..] == rest;
    } else {
      var q' := Next(s[0], '"', q);
      var e, t := EscapeChar(s[0], q', true), Escape(s[1..], q', true) + QQQ + rest;
      Regroup(e, Escape(s[1..], q', true), QQQ, rest);
      assert s == [s[0]] + s[1..];
      if e == "\"" {
        QuoteDoesNotClose(s, q, rest);
        assert (e + t)[1..] == t;
        MultilineBasicRoundTrip(s[1..], q', run + 1, rest);
      } else {
        MultilineBasicRoundTrip(s[1..], q', 0, rest);
        MultilineStep(s[0], q', t, run);
      }
    }
  }

  lemma QuoteDoesNotCloseLiteral(s: string, q: nat, rest: string)
    requires s != [] && s[0] == '\'' && MaxRun(s, '\'', q) <= 2 && (rest == [] || rest[0] != '\'')
    ensures !Closes(s + TTT + rest, '\'')
  {
    var t := s + TTT + rest;
    if |s| == 1 {
      assert t[3] == '\'';
    } else if s[1] == '\'' {
      assert MaxRun(s[1..], '\'', q + 1) <= 2;
      assert s[1..][1..] == s[2..] && s[1..][0] == '\'';
      if |s| == 2 {
        assert t[3] == '\'';
      } else {
        assert s[2..][0] == s[2];
        assert MaxRun(s[2..], '\'', q + 2) <= 2;
        assert t[2] == s[2] && s[2] != '\'';
      }
    } else {
      assert t[1] == s[1];
    }
  }

  lemma {:induction false} MultilineLiteralRoundTrip(s: string, q: nat, rest: string)
    requires MaxRun(s, '\'', q) <= 2 && q <= 2
    requires forall c :: c in s ==> c == '\n' || !IsControl(c)
    requires rest == [] || rest[0] != '\''
    ensures ReadMultilineLiteral(s + TTT + rest, q) == Some((s, rest))
  {
    if s == [] {
      assert "" + TTT + rest == TTT + rest;
      assert (TTT + rest)[3..] == rest;
    } else {
      assert (s + TTT + rest)[1..] == s[1..] + TTT + rest;
      assert s == [s[0]] + s[1..];
      if s[0] == '\'' {
        QuoteDoesNotCloseLiteral(s, q, rest);
      }
      MultilineLiteralRoundTrip(s[1..], Next(s[0], '\'', q), rest);
    }
  }

  lemma NotStarting(t: string, prefix: string, i: nat)
    requires i < |t| && i < |prefix| && t[i] != prefix[i]
    ensures !StartsWith(t, prefix)
  {
    if |prefix| <= |t| {
      assert t[..|prefix|][i] == t[i];
    }
  }

  lemma ReadBasicString(s: string, rest: string)
    requires NoQuoteAhead(rest)
    ensures ReadString(Basic(s) + rest) == Some((s, rest)) && ReadKey(Basic(s) + rest) == Some((s, rest))
  {
    var t := Basic(s) + rest;
    BasicRoundTrip(s, 0, rest);
    assert t[1..] == Escape(s, 0, false) + "\"" + rest;
    NotStarting(t, TTT, 0);
    if s == [] {
      assert t == "\"\"" + rest;
      if rest != [] {
        NotStarting(t, QQQ, 2);
      }
    } else {
      var e := EscapeChar(s[0], Next(s[0], '"', 0), false);
      assert t[1] == e[0];
      NotStarting(t, QQQ, 1);
    }
  }

  lemma ReadLiteralString(s: string, rest: string)
    requires '\'' !in s && (forall c :: c in s ==> !IsControl(c)) && NoQuoteAhead(rest)
    ensures ReadString(Literal(s) + rest) == Some((s, rest)) && ReadKey(Literal(s) + rest) == Some((s, rest))
  {
    var t := Literal(s) + rest;
    LiteralRoundTrip(s, rest);
    assert t[1..] == s + "'" + rest;
    NotStarting(t, QQQ, 0);
    if s == [] {
      assert t == "''" + rest;
      if rest != [] {
        NotStarting(t, TTT, 2);
      }
    } else {
      assert t[1] == s[0];
      NotStarting(t, TTT, 1);
    }
  }

  /** Behind the delimiter, the added newline is trimmed, and no other is. */
  lemma OpeningTrimmed(delimiter: string, newline: bool, body: string)
    requires |delimiter| == 3 && (newline || body == [] || body[0] != '\n')
    ensures var t := delimiter + ((if newline then "\n" else "") + body);
            t[..3] == delimiter && TrimNewline(t[3..]) == body
  {
    var tail := (if newline then "\n" else "") + body;
    assert (delimiter + tail)[3..] == tail;
    if newline {
      assert tail[1..] == body;
    } else {
      assert tail == body;
    }
  }

  lemma EscapeFirst(s: string, rest: string)
    requires '\n' !in s && (rest == [] || rest[0] != '\n')
    ensures var body := Escape(s, 0, true) + rest; body == [] || body[0] != '\n'
  {
    if s == [] {
      assert Escape(s, 0, true) + rest == rest;
    } else {
      var e := EscapeChar(s[0], Next(s[0], '"', 0), true);
      assert s[0] in s && (Escape(s, 0, true) + rest)[0] == e[0];
    }
  }

  lemma ReadMultilineBasicString(s: string, rest: string)
    requires NoQuoteAhead(rest)
    ensures ReadString(MultilineBasic(s, '\n' in s) + rest) == Some((s, rest))
  {
    var newline := '\n' in s;
    var body := Escape(s, 0, true) + QQQ + rest;
    MultilineBasicText(s, newline, rest);
    if !newline {
      EscapeFirst(s, QQQ + rest);
      Regroup("", Escape(s, 0, true), QQQ, rest);
    }
    OpeningTrimmed(QQQ, newline, body);
    MultilineBasicRoundTrip(s, 0, 0, rest);
  }

  lemma MultilineBasicText(s: string, newline: bool, rest: string)
    ensures MultilineBasic(s, newline) + rest
         == QQQ + ((if newline then "\n" else "") + (Escape(s, 0, true) + QQQ + rest))
  {
  }

  lemma OpensLiteral(newline: bool, body: string)
    requires newline || body == [] || body[0] != '\n'
    ensures ReadString(TTT + ((if newline then "\n" else "") + body)) == ReadMultilineLiteral(body, 0)
  {
    var t := TTT + ((if newline then "\n" else "") + body);
    OpeningTrimmed(TTT, newline, body);
    NotStarting(t, QQQ, 0);
  }

  lemma MultilineLiteralText(s: string, newline: bool, rest: string)
    ensures MultilineLiteral(s, newline) + rest == TTT + ((if newline then "\n" else "") + (s + TTT + rest))
  {
    if !newline {
      assert "" + (s + TTT + rest) == s + TTT + rest;
    }
  }

  lemma ReadMultilineLiteralString(s: string, rest: string)
    requires MaxRun(s, '\'', 0) <= 2 && (forall c :: c in s ==> c == '\n' || !IsControl(c)) && NoQuoteAhead(rest)
    ensures ReadString(MultilineLiteral(s, '\n' in s) + rest) == Some((s, rest))
  {
    var body := s + TTT + rest;
    assert '\n' in s || body[0] != '\n' by {
      assert body[0] == if s == [] then '\'' else s[0];
    }
    MultilineLiteralText(s, '\n' in s, rest);
    OpensLiteral('\n' in s, body);
    MultilineLiteralRoundTrip(s, 0, rest);
  }

  /**
   * For every string, in front of anything that is not a quote: the decoder
   * reads the written text back as exactly that string, whichever of the five
   * styles was picked.
   */
  lemma StringRoundTrip(s: string, rest: string)
    requires NoQuoteAhead(rest)
    ensures ReadString(TomlString(s) + rest) == Some((s, rest))
  {
    var m := MetricsOf(s);
    if m.maxSingle == 0 {
      NoRunNoQuote(s, '\'', 0);
    }
    if !m.escapeCodes {
      if !m.escape && m.maxDouble == 0 && !m.newline {
        ReadBasicString(s, rest);
      } else if m.maxSingle == 0 && !m.newline {
        ReadLiteralString(s, rest);
      } else if !m.escape && m.maxDouble <= 2 {
        ReadMultilineBasicString(s, rest);
      } else if m.maxSingle <= 2 {
        ReadMultilineLiteralString(s, rest);
      } else {
        ReadBasicString(s, rest);
        ReadMultilineBasicString(s, rest);
      }
    } else {
      ReadBasicString(s, rest);
      ReadMultilineBasicString(s, rest);
    }
  }

  lemma {:induction false} BareRunExact(key: string, rest: string)
    requires forall c :: c in key ==> IsBare(c)
    requires rest == [] || !IsBare(rest[0])
    ensures BareRun(key + rest) == |key|
  {
    if key == [] {
      assert key + rest == rest;
    } else {
      BareRunExact(key[1..], rest);
      assert (key + rest)[1..] == key[1..] + rest;
    }
  }

  /** For every key, the empty one included, in front of anything that cannot continue it. */
  lemma KeyRoundTrip(key: string, rest: string)
    requires NoQuoteAhead(rest) && (rest == [] || !IsBare(rest[0]))
    ensures ReadKey(TomlKey(key) + rest) == Some((key, rest))
  {
    if key != [] && forall c | c in key :: IsBare(c) {
      BareRunExact(key, rest);
      assert (key + rest)[0] == key[0] && key[0] in key;
      assert (key + rest)[..|key|] == key && (key + rest)[|key|..] == rest;
    } else {
      ReadBasicString(key, rest);
      var m := MetricsOf(key);
      if !m.escapeCodes && !m.newline && m.maxSingle == 0 {
        NoRunNoQuote(key, '\'', 0);
        ReadLiteralString(key, rest);
      }
    }
  }
}
