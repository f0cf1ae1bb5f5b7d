/**
 * Lists of PAX records, as other programs write them: with several keys, each
 * record's length counting the whole record.
 */
module PaxLists {
  import opened Common
  import opened Decimal
  import opened Utf8
  import opened Pax

  /** The text of a record: its length counts the whole record, its own digits included. */
  function OneRecord(key: string, value: string): string {
    Digits(PaxLength(|key| + |value| + 3), 10) + " " + (key + "=" + value + "\n")
  }

  function RecordsText(list: seq<(string, string)>): string {
    if list == [] then "" else OneRecord(list[0].0, list[0].1) + RecordsText(list[1..])
  }

  /** Later records win. */
  function Overlaid(list: seq<(string, string)>, table: map<string, string>): map<string, string>
    decreases |list|
  {
    if list == [] then table else Overlaid(list[1..], table[list[0].0 := list[0].1])
  }

  predicate IsKey(key: string) {
    key != "" && '=' !in key
  }

  lemma KeyAndValue(key: string, value: string, table: map<string, string>)
    requires IsKey(key)
    ensures WithRecord(table, key + "=" + value) == table[key := value]
  {
    var r := key + "=" + value;
    assert r[|key|] == '=';
    forall j | 0 <= j < |key| ensures r[j] != '=' {
      assert r[j] == key[j] && key[j] in key;
    }
    IndexOfFirst(r, '=', 0, |key|);
    assert r[..|key|] == key && r[|key| + 1..] == value;
  }

  lemma SpaceBehindDigits(before: string, digits: string, rest: string)
    requires forall i :: 0 <= i < |digits| ==> IsDigit(digits[i], 10)
    ensures IndexOf(before + (digits + " " + rest), ' ', |before|) == Some(|before| + |digits|)
  {
    var t := before + (digits + " " + rest);
    assert t[|before| + |digits|] == ' ';
    forall i | |before| <= i < |before| + |digits| ensures t[i] != ' ' {
      assert t[i] == digits[i - |before|] && IsDigit(digits[i - |before|], 10);
    }
    IndexOfFirst(t, ' ', |before|, |before| + |digits|);
  }

  lemma RecordLayout(before: string, key: string, value: string, rest: string)
    ensures var size := PaxLength(|key| + |value| + 3);
            && |Digits(size, 10)| == Count(size) && |OneRecord(key, value)| == size
            && before + (OneRecord(key, value) + rest)
               == before + (Digits(size, 10) + " " + (key + "=" + value + "\n" + rest))
  {
    var digits, tail := Digits(PaxLength(|key| + |value| + 3), 10) + " ", key + "=" + value + "\n";
    Joined(digits, tail, rest);
  }

  lemma TextParts(before: string, digits: string, body: string, rest: string)
    ensures var text := before + (digits + " " + (body + "\n" + rest));
            var n := |before| + |digits|;
            && |text| >= n + |body| + 2
            && text[|before|..n] == digits && text[n + 1..n + 1 + |body|] == body
  {
    var tail := body + "\n" + rest;
    var text := before + (digits + " " + tail);
    assert text == before + digits + " " + tail;
    assert text[|before| + |digits| + 1..] == tail;
    assert tail[..|body|] == body;
  }

  lemma SliceIs(text: string, from: nat, to: nat, body: string)
    requires from <= to <= |text| && text[from..to] == body
    ensures SliceText(text, from, to) == body
  {
  }

  /** The next record is `record`, of `size` characters. */
  ghost predicate IsNext(next: Option<(nat, string)>, size: nat, record: string) {
    next.Some? && next.value.0 == size && next.value.1 == record
  }

  lemma NextIs(text: string, index: nat, space: nat, size: nat, digits: string, length: Option<int>)
    requires index <= space < |text| && IndexOf(text, ' ', index) == Some(space)
    requires digits == text[index..space] && length == ParseInt(digits, 10)
    requires length == Some(size) && size > 0
    ensures IsNext(NextRecord(text, index), size, SliceText(text, space + 1, index + size - 1))
  {
  }

  lemma TextIsNext(before: string, digits: string, size: nat, body: string, rest: string)
    requires digits == Digits(size, 10) && size == |digits| + |body| + 2
    ensures IsNext(NextRecord(before + (digits + " " + (body + "\n" + rest)), |before|), size, body)
  {
    var length := ParseInt(digits, 10);
    assert length == Some(size) by {
      ParseDigitsAlone(size);
    }
    LengthThenText(before, digits, size, body, rest, length);
  }

  lemma LengthThenText(
    before: string, digits: string, size: nat, body: string, rest: string, length: Option<int>)
    requires length == ParseInt(digits, 10) && length == Some(size) && size == |digits| + |body| + 2
    requires forall i :: 0 <= i < |digits| ==> IsDigit(digits[i], 10)
    ensures IsNext(NextRecord(before + (digits + " " + (body + "\n" + rest)), |before|), size, body)
  {
    var text, space := before + (digits + " " + (body + "\n" + rest)), |before| + |digits|;
    TextParts(before, digits, body, rest);
    SpaceBehindDigits(before, digits, body + "\n" + rest);
    SliceIs(text, space + 1, space + 1 + |body|, body);
    NextIs(text, |before|, space, size, digits, length);
  }

  lemma RecordIsNext(before: string, key: string, value: string, rest: string)
    ensures var record := OneRecord(key, value);
            IsNext(NextRecord(before + (record + rest), |before|), |record|, key + "=" + value)
  {
    var size := PaxLength(|key| + |value| + 3);
    RecordLayout(before, key, value, rest);
    TextIsNext(before, Digits(size, 10), size, key + "=" + value, rest);
  }

  lemma RecordIsRead(text: string, index: nat, table: map<string, string>)
    requires At(text, index).Some?
    ensures RecordsFrom(text, index, table) ==
            var next := At(text, index);
            RecordsFrom(text, index + next.value.0, WithRecord(table, next.value.1))
  {
  }

  lemma RecordInFront(
    before: string, key: string, value: string, rest: string, table: map<string, string>,
    next: Option<(nat, string)>, text: string, more: map<string, string>)
    requires text == before + (OneRecord(key, value) + rest) && next == At(text, |before|)
    requires IsNext(next, |OneRecord(key, value)|, key + "=" + value)
    requires more == WithRecord(table, key + "=" + value)
    ensures RecordsFrom(text, |before|, table) == RecordsFrom(text, |before + OneRecord(key, value)|, more)
  {
    RecordIsRead(text, |before|, table);
  }

  lemma {:induction false} RecordsReadFrom(before: string, list: seq<(string, string)>, table: map<string, string>)
    requires forall r :: r in list ==> IsKey(r.0)
    ensures RecordsFrom(before + RecordsText(list), |before|, table) == Overlaid(list, table)
    decreases |list|
  {
    if list == [] {
      NothingBehind(before, table);
    } else {
      assert list[0] in list;
      var key, value := list[0].0, list[0].1;
      var record, rest := OneRecord(key, value), RecordsText(list[1..]);
      RecordIsNext(before, key, value, rest);
      KeyAndValue(key, value, table);
      RecordInFront(before, key, value, rest, table, At(before + (record + rest), |before|), before + (record + rest),
        table[key := value]);
      Joined(before, record, rest);
      RecordsReadFrom(before + record, list[1..], table[key := value]);
    }
  }

  lemma NothingBehind(before: string, table: map<string, string>)
    ensures RecordsFrom(before + "", |before|, table) == table
  {
    assert before + "" == before;
    assert At(before, |before|).None?;
  }

  /**
   * A list of ASCII records reads back as what it says, the last record of a
   * key winning: so a member named by a `path` record among others gets that
   * name.
   */
  lemma RecordsReadBack(u: Codec, list: seq<(string, string)>)
    requires Lawful(u) && (forall r :: r in list ==> IsKey(r.0)) && IsAscii(RecordsText(list))
    ensures Records(u.lossy(Ascii(RecordsText(list)))) == Overlaid(list, map[])
  {
    AsciiDecodes(u, RecordsText(list));
    RecordsReadFrom("", list, map[]);
    assert "" + RecordsText(list) == RecordsText(list);
  }
}
