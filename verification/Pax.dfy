/**
 * PAX extended header records, `<length> <key>=<value>\n` (host/src/archive.ts;
 * the "pax Interchange Format" section of the pax utility in IEEE Std 1003.1).
 */
module Pax {
  import opened Common
  import opened Decimal
  import opened Utf8

  // ---------------------------------------------------------------- writing

  /** The length a record settles on: it counts its own digits. */
  function Settle(body: nat, length: nat): (r: nat)
    requires body >= 2 && body < length <= Count(length) + body
    ensures r == Count(r) + body && r >= length
    decreases 2 * body - length
  {
    var next := Count(length) + body;
    if next == length then length
    else
      CountIsSmall(2 * body);
      Bounded(body, length);
      CountMonotone(length, next);
      Settle(body, next)
  }

  lemma Bounded(body: nat, length: nat)
    requires body >= 2 && length <= Count(length) + body
    ensures length <= 2 * body
  {
    if length >= 2 {
      CountIsSmall(length);
    }
  }

  function PaxLength(body: nat): (r: nat)
    requires body >= 2
    ensures r == Count(r) + body
  {
    Settle(body, body + 1)
  }

  /** The loop of `paxPath`: it stops, and at the least length that counts itself. */
  method SettleLength(body: nat) returns (length: nat)
    requires body >= 2
    ensures length == PaxLength(body)
    ensures length == Count(length) + body
    ensures forall k: nat :: k < length ==> k != Count(k) + body
  {
    length := body + 1;
    while Count(length) + body != length
      invariant body < length <= Count(length) + body
      invariant Settle(body, length) == PaxLength(body)
      invariant forall k: nat :: k < length ==> k < Count(k) + body
      decreases 2 * body - length
    {
      var next := Count(length) + body;
      Bounded(body, length);
      Bounded(body, next) by {
        CountMonotone(length, next);
      }
      forall k: nat | k < next ensures k < Count(k) + body {
        if k >= length {
          CountMonotone(length, k);
        }
      }
      CountMonotone(length, next);
      length := next;
    }
  }

  const KEY := " path="

  /** The text of a `path` record; `size` is the record's length in bytes. */
  function RecordText(path: string, size: nat): string {
    Digits(size, 10) + KEY + path + "\n"
  }

  function RecordBody(u: Codec, path: string): nat {
    |u.encode(KEY + path + "\n")|
  }

  function Record(u: Codec, path: string): Bytes
    requires RecordBody(u, path) >= 2
  {
    u.encode(RecordText(path, PaxLength(RecordBody(u, path))))
  }

  lemma BodyIsLong(u: Codec, path: string)
    requires Lawful(u)
    ensures RecordBody(u, path) >= |path| + 7
  {
    assert |KEY + path + "\n"| == |path| + 7;
    Longer(u, KEY + path + "\n");
  }

  method PaxPath(u: Codec, path: string) returns (record: Bytes)
    requires Lawful(u)
    ensures RecordBody(u, path) >= 2 && record == Record(u, path)
  {
    BodyIsLong(u, path);
    var body := |u.encode(KEY + path + "\n")|;
    var length := SettleLength(body);
    record := u.encode(RecordText(path, length));
  }

  /** The length a record starts with is the record's length in bytes. */
  lemma RecordLength(u: Codec, path: string)
    requires Lawful(u)
    ensures RecordBody(u, path) >= 2 && |Record(u, path)| == PaxLength(RecordBody(u, path))
  {
    BodyIsLong(u, path);
    var size := PaxLength(RecordBody(u, path));
    var digits := Digits(size, 10);
    var rest := KEY + path + "\n";
    assert RecordText(path, size) == digits + rest;
    EncodeConcat(u, digits, rest);
    DigitsAreAscii(size);
    AsciiDecodes(u, digits);
    assert |u.encode(digits)| == Count(size);
  }

  lemma DigitsAreAscii(n: nat)
    ensures IsAscii(Digits(n, 10))
  {
    var d := Digits(n, 10);
    forall i | 0 <= i < |d| ensures d[i] as int < 128 {
      assert IsDigit(d[i], 10);
    }
  }

  // ---------------------------------------------------------------- reading

  /** `text.indexOf(c, from)`. */
  function IndexOf(text: string, c: char, from: nat): (r: Option<nat>)
    ensures r.Some? ==> from <= r.value < |text|
    decreases |text| - from
  {
    if from >= |text| then None
    else if text[from] == c then Some(from)
    else IndexOf(text, c, from + 1)
  }

  lemma {:induction false} IndexOfFirst(text: string, c: char, from: nat, k: nat)
    requires from <= k < |text| && text[k] == c
    requires forall j :: from <= j < k ==> text[j] != c
    ensures IndexOf(text, c, from) == Some(k)
    decreases k - from
  {
    if from < k {
      IndexOfFirst(text, c, from + 1, k);
    }
  }

  /** `text.slice(from, to)`, which clips. */
  function SliceText(text: string, from: nat, to: int): string {
    var end := if to > |text| then |text| else to;
    if from >= end then "" else text[from..end]
  }

  /** JavaScript's white space and line terminators, which `trim` and `parseInt` skip. */
  predicate IsSpace(c: char) {
    var n := c as int;
    || n == 0x20 || 0x09 <= n <= 0x0d || n == 0xa0 || n == 0x1680 || 0x2000 <= n <= 0x200a
    || n == 0x2028 || n == 0x2029 || n == 0x202f || n == 0x205f || n == 0x3000 || n == 0xfeff
  }

  function TrimStart(s: string): (r: string)
    ensures |r| <= |s|
  {
    if s != [] && IsSpace(s[0]) then TrimStart(s[1..]) else s
  }

  /** `Number.parseInt(s, radix)`: blanks, a sign, then the longest run of digits; none is NaN. */
  function ParseInt(s: string, radix: Radix): Option<int> {
    var t := TrimStart(s);
    var negative := t != [] && t[0] == '-';
    var u := if t != [] && (t[0] == '-' || t[0] == '+') then t[1..] else t;
    var n := ParseRun(u, radix);
    if n.None? then None
    else
      var v: int := n.value;
      Some(if negative then -v else v)
  }

  /** The `key=value` of a record, if it has a key. */
  function WithRecord(records: map<string, string>, record: string): map<string, string> {
    var eq := IndexOf(record, '=', 0);
    if eq.Some? && eq.value > 0 then records[record[..eq.value] := record[eq.value + 1..]] else records
  }

  /** The record at `index`: its length, taken to count characters, and its text; none stops the reading. */
  function NextRecord(text: string, index: nat): (r: Option<(nat, string)>)
    ensures r.Some? ==> r.value.0 > 0
  {
    var space := IndexOf(text, ' ', index);
    if space.None? then None
    else
      var length := ParseInt(text[index..space.value], 10);
      if length.None? || length.value <= 0 then None
      else Some((length.value, SliceText(text, space.value + 1, index + length.value - 1)))
  }

  function RecordsFrom(text: string, index: nat, records: map<string, string>): map<string, string>
    decreases |text| - index
  {
    var next := At(text, index);
    if next.None? then records
    else RecordsFrom(text, index + next.value.0, WithRecord(records, next.value.1))
  }

  /** One turn of the loop of `paxRecords`. */
  method ReadRecord(text: string, index: nat, records: map<string, string>)
    returns (done: bool, index': nat, records': map<string, string>)
    ensures done ==> RecordsFrom(text, index, records) == records'
    ensures !done ==> RecordsFrom(text, index, records) == RecordsFrom(text, index', records')
    ensures !done ==> index < |text| && index < index'
  {
    var next := At(text, index);
    if next.None? {
      return true, index, records;
    }
    return false, index + next.value.0, WithRecord(records, next.value.1);
  }

  /** `paxRecords`. */
  method PaxRecords(text: string) returns (records: map<string, string>)
    ensures records == Records(text)
  {
    records := map[];
    var index: nat, done := 0, false;
    while !done
      invariant done ==> records == Records(text)
      invariant !done ==> RecordsFrom(text, index, records) == Records(text)
      decreases !done, |text| - index
    {
      done, index, records := ReadRecord(text, index, records);
    }
  }

  function Records(text: string): map<string, string> {
    RecordsFrom(text, 0, map[])
  }

  function At(text: string, index: nat): (r: Option<(nat, string)>)
    ensures r.Some? ==> index < |text| && r.value.0 > 0
  {
    if index >= |text| then None else NextRecord(text, index)
  }

  /** What a record written for `path` reads back as. */
  function ReadBack(u: Codec, path: string): string {
    if |u.encode(path)| == |path| then path else path + "\n"
  }

  lemma ParseDigitsAlone(n: nat)
    ensures ParseInt(Digits(n, 10), 10) == Some(n)
  {
    var d := Digits(n, 10);
    assert IsDigit(d[0], 10);
    assert TrimStart(d) == d;
    ParseDigits(n, [], 10);
    assert d + [] == d;
  }

  lemma FirstSpace(digits: string, rest: string)
    requires forall i :: 0 <= i < |digits| ==> IsDigit(digits[i], 10)
    ensures IndexOf(digits + " " + rest, ' ', 0) == Some(|digits|)
  {
    var t := digits + " " + rest;
    assert t[|digits|] == ' ';
    forall i | 0 <= i < |digits| ensures t[i] != ' ' {
      assert t[i] == digits[i] && IsDigit(digits[i], 10);
    }
    IndexOfFirst(t, ' ', 0, |digits|);
  }

  lemma PathRecord(value: string)
    ensures WithRecord(map[], "path=" + value) == map["path" := value]
  {
    var r := "path=" + value;
    assert r[0] == 'p' && r[1] == 'a' && r[2] == 't' && r[3] == 'h' && r[4] == '=';
    IndexOfFirst(r, '=', 0, 4);
    assert r[..4] == "path" && r[5..] == value;
  }

  /**
   * A record reads back as exactly the path when the path's bytes and
   * characters are equally many; otherwise the length, counted in bytes,
   * reaches past the text and takes the closing newline into the value.
   */
  lemma RecordRoundTrip(u: Codec, path: string)
    requires Lawful(u)
    ensures RecordBody(u, path) >= 2
    ensures RecordsFrom(u.lossy(Record(u, path)), 0, map[]) == map["path" := ReadBack(u, path)]
  {
    RecordLength(u, path);
    BodyLength(u, path);
    var size := PaxLength(RecordBody(u, path));
    var text := RecordText(path, size);
    TextDecodes(u, path, size);
    OnlyRecord(u, path, size);
    PathRecord(ReadBack(u, path));
    Longer(u, path);
    assert |text| <= size;
    assert RecordsFrom(text, size, map["path" := ReadBack(u, path)]) == map["path" := ReadBack(u, path)];
  }

  lemma TextDecodes(u: Codec, path: string, size: nat)
    requires Lawful(u)
    ensures u.lossy(u.encode(RecordText(path, size))) == RecordText(path, size)
    ensures |RecordText(path, size)| == Count(size) + |path| + 7
  {
    var digits := Digits(size, 10);
    var text := RecordText(path, size);
    assert text[0] == digits[0] && IsDigit(digits[0], 10);
    Decodes(u, text);
  }

  lemma OnlyRecord(u: Codec, path: string, size: nat)
    requires Lawful(u) && size == Count(size) + |u.encode(path)| + 7
    ensures NextRecord(RecordText(path, size), 0) == Some((size, "path=" + ReadBack(u, path)))
  {
    var digits := Digits(size, 10);
    var text := RecordText(path, size);
    var rest := "path=" + path + "\n";
    assert text == digits + " " + rest by {
      assert KEY == " " + "path=";
    }
    FirstSpace(digits, rest);
    assert text[0..|digits|] == digits;
    ParseDigitsAlone(size);
    RecordSlice(u, path, size);
  }

  lemma BodyLength(u: Codec, path: string)
    requires Lawful(u)
    ensures RecordBody(u, path) == |u.encode(path)| + 7
  {
    EncodeConcat(u, KEY + path, "\n");
    EncodeConcat(u, KEY, path);
    assert IsAscii(KEY) && IsAscii("\n");
    AsciiDecodes(u, KEY);
    AsciiDecodes(u, "\n");
  }

  lemma RecordSlice(u: Codec, path: string, size: nat)
    requires Lawful(u) && size == Count(size) + |u.encode(path)| + 7
    ensures SliceText(RecordText(path, size), Count(size) + 1, size - 1) == "path=" + ReadBack(u, path)
  {
    var digits := Digits(size, 10);
    var text := RecordText(path, size);
    Longer(u, path);
    assert |text| == |digits| + 7 + |path|;
    if |u.encode(path)| == |path| {
      assert text == (digits + " ") + ("path=" + path) + "\n";
    } else {
      assert text == (digits + " ") + ("path=" + (path + "\n"));
    }
  }
}
