/**
 * Archives this program did not write: which members `untar` delivers, and
 * under which names (host/src/archive.ts; the "ustar Interchange Format" and
 * "pax Interchange Format" sections of the pax utility in IEEE Std 1003.1,
 * and the long names of GNU tar).
 */
module TarForeign {
  import opened Common
  import opened Decimal
  import opened Utf8
  import opened Paths
  import opened Pax
  import opened TarHeader
  import opened Tar

  // ---------------------------------------------------------------- members

  /** A text field of a header. */
  datatype Text = Utf8Text(s: string) | Malformed

  /** A member by what it says, next to the bytes that say it. */
  datatype Member = Member(kind: char, name: Text, prefix: Text, data: Bytes, header: Bytes, padding: Bytes)

  /** The field holds the text, up to a NUL or its end; what is behind the NUL does not matter. */
  ghost predicate Holds(u: Codec, bytes: Bytes, t: Text) {
    match t
    case Utf8Text(s) =>
      var text := u.encode(s);
      && 0 as char !in s && |text| <= |bytes| && bytes[..|text|] == text
      && (|text| < |bytes| ==> bytes[|text|] == 0)
    case Malformed => u.strict(UpToNul(bytes)).None?
  }

  function Blanks(n: nat): (s: string)
    ensures |s| == n && forall i :: 0 <= i < n ==> s[i] == ' '
  {
    seq(n, i => ' ')
  }

  /** An octal numeral, padded with zeros or blanks in front, ended by blanks, a NUL or the field's end. */
  ghost predicate HoldsNumber(bytes: Bytes, n: nat) {
    exists before: nat, width: nat, after: nat :: HoldsNumeral(bytes, Numeral(n, before, width, after))
  }

  function Numeral(n: nat, before: nat, width: nat, after: nat): Bytes {
    OctalDigits(n, width);
    Ascii(Blanks(before)) + Ascii(Octal(n, width)) + Ascii(Blanks(after))
  }

  /** A ustar header, or one of the older form, which has no magic and no prefix. */
  ghost predicate IsHeader(u: Codec, m: Member) {
    var h := m.header;
    && |h| == 512 && h[156] == m.kind as int
    && Holds(u, h[0..100], m.name)
    && HoldsNumber(h[124..136], |m.data|)
    && if h[257..262] == Ascii("ustar") then Holds(u, h[345..500], m.prefix)
       else h[257..262] == Zeros(5) && m.prefix == Utf8Text("")
  }

  ghost predicate WellFormed(u: Codec, m: Member) {
    IsHeader(u, m) && (|m.data| + |m.padding|) % 512 == 0 && |m.padding| < 512
  }

  /** The members from the `i`-th on, one behind the other, and what ends the archive. */
  function Laid(ms: seq<Member>, i: nat, end: Bytes): Bytes
    requires i <= |ms|
    decreases |ms| - i
  {
    if i == |ms| then end else ms[i].header + (ms[i].data + (ms[i].padding + Laid(ms, i + 1, end)))
  }

  /** A block of zeros, or less than a block. */
  ghost predicate IsEnd(bytes: Bytes) {
    |bytes| < 512 || forall i :: 0 <= i < 512 ==> bytes[i] == 0
  }

  // ---------------------------------------------------------------- what they mean

  /** Members that are about the one behind them: pax records, records for all, a GNU long name. */
  predicate IsAnnouncement(kind: char) {
    kind == 'x' || kind == 'g' || kind == 'L'
  }

  /** Regular files: `0`, NUL, and contiguous ones. */
  predicate IsRegular(kind: char) {
    kind == '0' || kind == 0 as char || kind == '7'
  }

  /** Looking back from the `i`-th member over its announcements: the nearest one of a kind. */
  function Announced(ms: seq<Member>, i: nat, kind: char): (j: Option<nat>)
    requires i <= |ms|
    ensures j.Some? ==> j.value < i && ms[j.value].kind == kind
    ensures j.Some? ==> forall k :: j.value <= k < i ==>
              IsAnnouncement(ms[k].kind) && (k > j.value ==> ms[k].kind != kind)
  {
    if i == 0 || !IsAnnouncement(ms[i - 1].kind) then None
    else if ms[i - 1].kind == kind then Some(i - 1)
    else Announced(ms, i - 1, kind)
  }

  function PathRecord(u: Codec, data: Bytes): Option<string> {
    var records := Records(u.lossy(data));
    if "path" in records then Some(records["path"]) else None
  }

  function PrefixedName(prefix: Text, name: Text): Option<string> {
    match (prefix, name)
    case (Utf8Text(""), Utf8Text(n)) => Some(StripMark(n))
    case (Utf8Text(p), Utf8Text(n)) => Some(StripMark(p) + "/" + StripMark(n))
    case _ => None
  }

  /** A member's name: its `path` record, else its long name, else its prefix and name, else its name. */
  function NameAt(u: Codec, ms: seq<Member>, i: nat): Option<string>
    requires i < |ms|
  {
    var x, long := Announced(ms, i, 'x'), Announced(ms, i, 'L');
    if x.Some? && PathRecord(u, ms[x.value].data).Some? then PathRecord(u, ms[x.value].data)
    else if long.Some? then Some(u.lossy(UpToNul(ms[long.value].data)))
    else PrefixedName(ms[i].prefix, ms[i].name)
  }

  /** Why a member makes the whole archive be refused, if it does. */
  function Refusal(u: Codec, ms: seq<Member>, i: nat): Option<TarError>
    requires i < |ms|
  {
    if IsAnnouncement(ms[i].kind) then None
    else if NameAt(u, ms, i).None? then Some(NotUtf8)
    else if IsRegular(ms[i].kind) && EntryPath(NameAt(u, ms, i).value).None? then Some(Escapes)
    else None
  }

  /** The regular files from the `i`-th member on. */
  function Regulars(ms: seq<Member>, i: nat): (r: seq<nat>)
    requires i <= |ms|
    ensures forall k :: k in r <==> i <= k < |ms| && IsRegular(ms[k].kind)
    ensures forall a, b :: 0 <= a < b < |r| ==> r[a] < r[b]
    decreases |ms| - i
  {
    if i == |ms| then []
    else
      var rest := Regulars(ms, i + 1);
      assert forall k :: 0 <= k < |rest| ==> rest[k] in rest;
      if IsRegular(ms[i].kind) then [i] + rest else rest
  }

  ghost predicate NoneRefused(u: Codec, ms: seq<Member>, i: nat)
    requires i <= |ms|
  {
    forall k :: i <= k < |ms| ==> Refusal(u, ms, k).None?
  }

  /** The first member from `i` on that is refused. */
  ghost predicate IsFirstRefused(u: Codec, ms: seq<Member>, i: nat, k: nat)
    requires i <= |ms|
  {
    i <= k < |ms| && Refusal(u, ms, k).Some? && forall j :: i <= j < k ==> Refusal(u, ms, j).None?
  }

  ghost predicate IsEntryOf(u: Codec, ms: seq<Member>, k: nat, e: ArchiveEntry) {
    k < |ms| && NameAt(u, ms, k).Some? && EntryPath(NameAt(u, ms, k).value) == Some(e.path) && e.data == ms[k].data
  }

  ghost predicate Pairwise<A, B>(p: (A, B) -> bool, a: seq<A>, b: seq<B>) {
    |a| == |b| && forall k :: 0 <= k < |a| ==> p(a[k], b[k])
  }

  ghost predicate AreEntriesOf(u: Codec, ms: seq<Member>, files: seq<nat>, entries: seq<ArchiveEntry>) {
    Pairwise((k: nat, e: ArchiveEntry) => IsEntryOf(u, ms, k, e), files, entries)
  }

  /** What is to come out: the regular files in order under their names, or the first refusal. */
  ghost predicate IsContent(u: Codec, ms: seq<Member>, i: nat, r: Unpacked)
    requires i <= |ms|
  {
    match r
    case Ok(entries) =>
      NoneRefused(u, ms, i) && AreEntriesOf(u, ms, Regulars(ms, i), entries)
    case Err(error) => exists k: nat :: IsFirstRefused(u, ms, i, k) && Refusal(u, ms, k) == Some(error)
  }

  // ---------------------------------------------------------------- fields read back

  lemma TextReads(u: Codec, bytes: Bytes, s: string)
    requires Lawful(u) && Holds(u, bytes, Utf8Text(s))
    ensures UpToNul(bytes) == u.encode(s) && u.strict(UpToNul(bytes)) == Some(StripMark(s))
    ensures u.encode(s) == [] <==> s == ""
  {
    var text := u.encode(s);
    Longer(u, s);
    Longer(u, "");
    Decodes(u, s);
    assert bytes == text + bytes[|text|..];
    UpToNulStops(text, bytes[|text|..]);
  }

  lemma {:induction false} TrimsFront(n: nat, s: string)
    requires s != [] && !IsSpace(s[0])
    ensures TrimStart(Blanks(n) + s) == s
  {
    if n == 0 {
      assert Blanks(0) + s == s;
    } else {
      assert (Blanks(n) + s)[1..] == Blanks(n - 1) + s;
      TrimsFront(n - 1, s);
    }
  }

  lemma {:induction false} TrimsBack(s: string, n: nat)
    requires s != [] && !IsSpace(s[|s| - 1])
    ensures TrimEnd(s + Blanks(n)) == s
  {
    if n == 0 {
      assert s + Blanks(0) == s;
    } else {
      var t := s + Blanks(n);
      assert t[..|t| - 1] == s + Blanks(n - 1);
      TrimsBack(s, n - 1);
    }
  }

  lemma NumeralTrims(n: nat, before: nat, width: nat, after: nat)
    ensures var text := Blanks(before) + Octal(n, width) + Blanks(after);
            TrimEnd(TrimStart(text)) == Octal(n, width) != ""
  {
    var digits := Octal(n, width);
    OctalValue(n, width);
    assert IsDigit(digits[0], 8) && IsDigit(digits[|digits| - 1], 8);
    Joined(Blanks(before), digits, Blanks(after));
    TrimsFront(before, digits + Blanks(after));
    TrimsBack(digits, after);
  }

  lemma NumeralIsAscii(n: nat, before: nat, width: nat, after: nat)
    ensures IsAscii(Blanks(before) + Octal(n, width) + Blanks(after))
    ensures Numeral(n, before, width, after) == Ascii(Blanks(before) + Octal(n, width) + Blanks(after))
    ensures 0 !in Numeral(n, before, width, after)
  {
    var digits := Octal(n, width);
    OctalDigits(n, width);
    forall i | 0 <= i < |digits| ensures digits[i] as int != 0 {
      assert IsDigit(digits[i], 8);
    }
  }

  ghost predicate HoldsNumeral(bytes: Bytes, text: Bytes) {
    |text| <= |bytes| && bytes[..|text|] == text && (|text| < |bytes| ==> bytes[|text|] == 0)
  }

  lemma NumeralStops(field: Bytes, text: Bytes)
    requires HoldsNumeral(field, text) && 0 !in text
    ensures UpToNul(field) == text
  {
    assert field == text + field[|text|..];
    UpToNulStops(text, field[|text|..]);
  }

  lemma NumeralReads(u: Codec, field: Bytes, n: nat, before: nat, width: nat, after: nat)
    requires Lawful(u) && HoldsNumeral(field, Numeral(n, before, width, after))
    ensures TrimEnd(TrimStart(u.lossy(UpToNul(field)))) == Octal(n, width)
  {
    var s := Blanks(before) + Octal(n, width) + Blanks(after);
    NumeralIsAscii(n, before, width, after);
    NumeralStops(field, Numeral(n, before, width, after));
    AsciiDecodes(u, s);
    NumeralTrims(n, before, width, after);
  }

  lemma NumeralIsSomething(field: Bytes, n: nat, before: nat, width: nat, after: nat)
    requires HoldsNumeral(field, Numeral(n, before, width, after))
    ensures exists i :: 0 <= i < |field| && field[i] != 0
  {
    var text := Numeral(n, before, width, after);
    NumeralIsAscii(n, before, width, after);
    OctalValue(n, width);
    assert text[before] in text && field[before] == text[before];
  }

  lemma NumberReadsAs(
    u: Codec, bytes: Bytes, offset: nat, length: nat, n: nat, before: nat, width: nat, after: nat)
    requires Lawful(u) && offset + length <= |bytes|
    requires HoldsNumeral(bytes[offset..offset + length], Numeral(n, before, width, after))
    ensures ReadOctal(u, bytes, offset, length) == Some(n)
  {
    NumeralReads(u, bytes[offset..offset + length], n, before, width, after);
    OctalReads(n, width);
  }

  lemma NumberReads(u: Codec, bytes: Bytes, offset: nat, length: nat, n: nat)
    requires Lawful(u) && offset + length <= |bytes| && HoldsNumber(bytes[offset..offset + length], n)
    ensures ReadOctal(u, bytes, offset, length) == Some(n)
    ensures exists i :: offset <= i < offset + length && bytes[i] != 0
  {
    var field := bytes[offset..offset + length];
    var before: nat, width: nat, after: nat :| HoldsNumeral(field, Numeral(n, before, width, after));
    NumberReadsAs(u, bytes, offset, length, n, before, width, after);
    NumeralIsSomething(field, n, before, width, after);
    var i :| 0 <= i < |field| && field[i] != 0;
    assert bytes[offset + i] == field[i];
  }

  // ---------------------------------------------------------------- one member

  lemma RoundedUp(m: Member)
    requires (|m.data| + |m.padding|) % 512 == 0 && |m.padding| < 512
    ensures PaddedSize(|m.data|) == |m.data| + |m.padding|
  {
  }

  lemma MemberIsCut(h: Bytes, data: Bytes, padding: Bytes, tail: Bytes)
    requires |h| == 512
    ensures var bytes := h + (data + (padding + tail));
            && bytes[..512] == h && bytes[124..136] == h[124..136] && 512 + |data| <= |bytes|
            && bytes[512..512 + |data|] == data && DropBytes(bytes, 512 + |data| + |padding|) == tail
  {
    var bytes := h + (data + (padding + tail));
    assert bytes[512..] == data + (padding + tail);
    assert bytes[512..][..|data|] == data;
    assert bytes[512 + |data|..] == padding + tail;
    assert bytes[512 + |data|..][|padding|..] == tail;
  }

  lemma StepIsMember(u: Codec, bytes: Bytes, h: Bytes, data: Bytes, carry: Carry)
    requires |h| == 512 <= |bytes| && bytes[..512] == h && !IsBlank(h)
    requires ReadOctal(u, bytes, 124, 12) == Some(|data|)
    requires 512 + |data| <= |bytes| && bytes[512..512 + |data|] == data
    ensures ReadStep(u, bytes, carry) == MemberStep(u, h, data, 512 + PaddedSize(|data|), carry)
  {
  }

  lemma MemberIsRead(u: Codec, m: Member, tail: Bytes, carry: Carry)
    requires Lawful(u) && WellFormed(u, m)
    ensures var bytes := m.header + (m.data + (m.padding + tail));
            var used := 512 + PaddedSize(|m.data|);
            ReadStep(u, bytes, carry) == MemberStep(u, m.header, m.data, used, carry) && DropBytes(bytes, used) == tail
  {
    var bytes := m.header + (m.data + (m.padding + tail));
    RoundedUp(m);
    MemberIsCut(m.header, m.data, m.padding, tail);
    NumberReads(u, bytes, 124, 12, |m.data|);
    NumberReads(u, m.header, 124, 12, |m.data|);
    StepIsMember(u, bytes, m.header, m.data, carry);
  }

  lemma MagicReads(u: Codec, m: Member)
    requires Lawful(u) && IsHeader(u, m)
    ensures u.lossy(m.header[257..262]) == USTAR <==> m.header[257..262] == Ascii("ustar")
  {
    AsciiDecodes(u, "ustar");
    var nuls := seq(5, i => 0 as char);
    AsciiDecodes(u, nuls);
    assert Ascii(nuls) == Zeros(5);
    assert nuls[0] != 'u';
  }

  lemma OwnNameReads(u: Codec, m: Member)
    requires Lawful(u) && IsHeader(u, m)
    ensures RawName(u, m.header, NOTHING) == PrefixedName(m.prefix, m.name)
  {
    MagicReads(u, m);
    if m.name.Utf8Text? {
      TextReads(u, m.header[0..100], m.name.s);
    }
    if m.prefix.Utf8Text? && m.header[257..262] == Ascii("ustar") {
      TextReads(u, m.header[345..500], m.prefix.s);
    }
    if m.prefix.Malformed? {
      Decodes(u, "");
      AsciiDecodes(u, "");
    }
  }

  /** What the reader carries when it comes to the `i`-th member. */
  function CarryAt(u: Codec, ms: seq<Member>, i: nat): Carry
    requires i <= |ms|
  {
    var x, long := Announced(ms, i, 'x'), Announced(ms, i, 'L');
    Carry(if long.Some? then Some(u.lossy(UpToNul(ms[long.value].data))) else None,
          if x.Some? then Some(Records(u.lossy(ms[x.value].data))) else None)
  }

  lemma NameReads(u: Codec, ms: seq<Member>, i: nat)
    requires Lawful(u) && i < |ms| && IsHeader(u, ms[i])
    ensures RawName(u, ms[i].header, CarryAt(u, ms, i)) == NameAt(u, ms, i)
  {
    OwnNameReads(u, ms[i]);
  }

  /** One turn of the loop, in terms of members. */
  function Turn(u: Codec, ms: seq<Member>, i: nat, used: nat): Step
    requires i < |ms|
  {
    if Refusal(u, ms, i).Some? then Fail(Refusal(u, ms, i).value)
    else
      Next(used, CarryAt(u, ms, i + 1),
        if IsRegular(ms[i].kind) && NameAt(u, ms, i).Some? && EntryPath(NameAt(u, ms, i).value).Some?
        then Some(ArchiveEntry(EntryPath(NameAt(u, ms, i).value).value, ms[i].data)) else None)
  }

  lemma KindsAreBytes(m: Member)
    requires m.kind as int < 256
    ensures var k: Byte := m.kind as int;
            && (k == EXTENDED <==> m.kind == 'x') && (k == GLOBAL <==> m.kind == 'g')
            && (k == LONG_NAME <==> m.kind == 'L') && (k == FILE <==> m.kind == '0')
            && (k == CONTIGUOUS <==> m.kind == '7') && (k == 0 <==> m.kind == 0 as char)
  {
  }

  lemma TurnIsTaken(u: Codec, ms: seq<Member>, i: nat, used: nat)
    requires Lawful(u) && i < |ms| && IsHeader(u, ms[i]) && used > 0
    ensures MemberStep(u, ms[i].header, ms[i].data, used, CarryAt(u, ms, i)) == Turn(u, ms, i, used)
  {
    KindsAreBytes(ms[i]);
    if !IsAnnouncement(ms[i].kind) {
      NameReads(u, ms, i);
      assert CarryAt(u, ms, i + 1) == NOTHING;
    }
  }

  // ---------------------------------------------------------------- the whole archive

  lemma EndIsSeen(u: Codec, ms: seq<Member>, end: Bytes)
    requires IsEnd(end)
    ensures Unpack(u, end, CarryAt(u, ms, |ms|)) == Ok([]) && IsContent(u, ms, |ms|, Ok([]))
  {
    assert ReadStep(u, end, CarryAt(u, ms, |ms|)) == Stop;
  }

  lemma TurnDelivers(u: Codec, ms: seq<Member>, i: nat, used: nat)
    requires i < |ms| && Turn(u, ms, i, used).Next?
    ensures Refusal(u, ms, i).None?
    ensures var first := EntryList(Turn(u, ms, i, used).entry);
            if IsRegular(ms[i].kind) then |first| == 1 && IsEntryOf(u, ms, i, first[0]) else first == []
  {
  }

  lemma PairsJoin<A, B>(p: (A, B) -> bool, a: seq<A>, b: seq<B>, c: seq<A>, d: seq<B>)
    requires Pairwise(p, a, b) && Pairwise(p, c, d)
    ensures Pairwise(p, a + c, b + d)
  {
  }

  lemma RegularsSplit(ms: seq<Member>, i: nat)
    requires i < |ms|
    ensures Regulars(ms, i) == (if IsRegular(ms[i].kind) then [i] else []) + Regulars(ms, i + 1)
  {
  }

  lemma NoneRefusedFrom(u: Codec, ms: seq<Member>, i: nat)
    requires i < |ms| && Refusal(u, ms, i).None? && NoneRefused(u, ms, i + 1)
    ensures NoneRefused(u, ms, i)
  {
  }

  lemma EntriesBehind(
    u: Codec, ms: seq<Member>, i: nat, here: seq<nat>, first: seq<ArchiveEntry>, rest: seq<ArchiveEntry>)
    requires i < |ms| && Refusal(u, ms, i).None? && IsContent(u, ms, i + 1, Ok(rest))
    requires here == (if IsRegular(ms[i].kind) then [i] else []) && AreEntriesOf(u, ms, here, first)
    ensures IsContent(u, ms, i, Ok(first + rest))
  {
    PairsJoin((k: nat, e: ArchiveEntry) => IsEntryOf(u, ms, k, e), here, first, Regulars(ms, i + 1), rest);
    RegularsSplit(ms, i);
    NoneRefusedFrom(u, ms, i);
  }

  lemma ContentBehind(u: Codec, ms: seq<Member>, i: nat, used: nat, rest: Unpacked)
    requires i < |ms| && Turn(u, ms, i, used).Next? && IsContent(u, ms, i + 1, rest)
    ensures IsContent(u, ms, i, Prepend(EntryList(Turn(u, ms, i, used).entry), rest))
  {
    TurnDelivers(u, ms, i, used);
    if rest.Ok? {
      var here: seq<nat> := if IsRegular(ms[i].kind) then [i] else [];
      EntriesBehind(u, ms, i, here, EntryList(Turn(u, ms, i, used).entry), rest.value);
    } else {
      var k: nat :| IsFirstRefused(u, ms, i + 1, k) && Refusal(u, ms, k) == Some(rest.error);
      assert IsFirstRefused(u, ms, i, k);
    }
  }

  lemma {:induction false} ReadsFrom(u: Codec, ms: seq<Member>, i: nat, end: Bytes)
    requires Lawful(u) && i <= |ms| && IsEnd(end) && forall m :: m in ms ==> WellFormed(u, m)
    ensures IsContent(u, ms, i, Unpack(u, Laid(ms, i, end), CarryAt(u, ms, i)))
    decreases |ms| - i
  {
    if i == |ms| {
      EndIsSeen(u, ms, end);
    } else {
      var m, tail := ms[i], Laid(ms, i + 1, end);
      var used := 512 + PaddedSize(|m.data|);
      assert m in ms;
      MemberIsRead(u, m, tail, CarryAt(u, ms, i));
      TurnIsTaken(u, ms, i, used);
      ReadsFrom(u, ms, i + 1, end);
      var t := Turn(u, ms, i, used);
      if t.Next? {
        UnpackNext(u, Laid(ms, i, end), CarryAt(u, ms, i), used, t.carry, t.entry, tail);
        ContentBehind(u, ms, i, used, Unpack(u, tail, t.carry));
      } else {
        assert IsFirstRefused(u, ms, i, i);
      }
    }
  }

  /**
   * For every archive of well-formed members: reading it gives exactly its
   * regular files, in order and with their data, each under its `path` record,
   * else its GNU long name, else its prefix and name, else its name; directories,
   * links and devices are skipped and use up what was announced for them; and
   * the archive is refused exactly when a name is not UTF-8 or a file's name
   * leads out of it, for the first such member.
   */
  lemma ForeignArchiveReads(u: Codec, ms: seq<Member>, end: Bytes)
    requires Lawful(u) && IsEnd(end) && forall m :: m in ms ==> WellFormed(u, m)
    ensures IsContent(u, ms, 0, Unpack(u, Laid(ms, 0, end), NOTHING))
  {
    ReadsFrom(u, ms, 0, end);
  }

  // ---------------------------------------------------------------- what is written and announced

  /** A long name reads back up to its NUL. */
  lemma LongNameReads(u: Codec, name: string, behind: Bytes)
    requires Lawful(u) && 0 as char !in name && (behind == [] || behind[0] == 0)
    ensures u.lossy(UpToNul(u.encode(name) + behind)) == StripMark(name)
  {
    Longer(u, name);
    UpToNulStops(u.encode(name), behind);
    Decodes(u, name);
  }

  lemma WrittenSize(name: Bytes, size: nat, mode: nat, kind: Byte)
    requires size < MAX_SIZE
    ensures HoldsNumber(Header(name, size, mode, kind)[124..136], size)
  {
    var field := Header(name, size, mode, kind)[124..136];
    SizeField(name, size, mode, kind);
    OctalWidth(size, 11);
    var text := Numeral(size, 0, 11, 0);
    assert text == Ascii(Octal(size, 11));
    assert field[..11] == text && field[11] == 0;
    assert HoldsNumeral(field, text);
  }

  lemma WrittenName(u: Codec, name: string, size: nat, mode: nat, kind: Byte)
    requires Lawful(u) && 0 as char !in name && |u.encode(name)| <= 100
    ensures Holds(u, Header(u.encode(name), size, mode, kind)[0..100], Utf8Text(name))
  {
    NameField(u.encode(name), size, mode, kind);
  }

  /** The headers this program writes are among those read. */
  lemma WrittenIsWellFormed(u: Codec, name: string, data: Bytes, mode: nat, kind: char)
    requires Lawful(u) && 0 as char !in name && |u.encode(name)| <= 100 && |data| < MAX_SIZE && kind as int < 256
    ensures WellFormed(u, Member(kind, Utf8Text(name), Utf8Text(""), data,
      Header(u.encode(name), |data|, mode, kind as int), Zeros(PaddedSize(|data|) - |data|)))
  {
    OtherFields(u.encode(name), |data|, mode, kind as int);
    WrittenSize(u.encode(name), |data|, mode, kind as int);
    WrittenName(u, name, |data|, mode, kind as int);
    AsciiDecodes(u, "");
    assert |data| + (PaddedSize(|data|) - |data|) == PaddedSize(|data|);
  }
}
