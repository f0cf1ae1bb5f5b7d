/** `tar` and `untar` (host/src/archive.ts). */
module Tar {
  import opened Common
  import opened Utf8
  import opened WebUtf8
  import opened Paths
  import opened Pax
  import opened TarHeader

  datatype TarFile = TarFile(path: string, data: Bytes, mode: nat)

  datatype ArchiveEntry = ArchiveEntry(path: string, data: Bytes)

  datatype TarError = Truncated | NotUtf8 | Escapes

  const FILE: Byte := '0' as int
  const EXTENDED: Byte := 'x' as int
  const GLOBAL: Byte := 'g' as int
  const LONG_NAME: Byte := 'L' as int
  const CONTIGUOUS: Byte := '7' as int
  const PAX_MODE: nat := 420

  // ---------------------------------------------------------------- writing

  /** `Math.ceil(n / 512) * 512`. */
  function PaddedSize(n: nat): (m: nat)
    ensures n <= m < n + 512 && m % 512 == 0
  {
    (n + 511) / 512 * 512
  }

  function Padded(data: Bytes): (r: Bytes)
    ensures |r| == PaddedSize(|data|)
  {
    data + Zeros(PaddedSize(|data|) - |data|)
  }

  /** A header and its padded contents. */
  function Part(name: Bytes, data: Bytes, mode: nat, kind: Byte): Bytes {
    Header(name, |data|, mode, kind) + Padded(data)
  }

  predicate NeedsRecord(u: Codec, f: TarFile) {
    |u.encode(f.path)| > 100
  }

  function RecordOf(u: Codec, path: string): Bytes {
    if RecordBody(u, path) >= 2 then Record(u, path) else []
  }

  function EntryBytes(u: Codec, f: TarFile): Bytes {
    (if NeedsRecord(u, f) then Part(u.encode("PaxHeader/" + f.path), RecordOf(u, f.path), PAX_MODE, EXTENDED) else [])
    + Part(u.encode(f.path), f.data, f.mode, FILE)
  }

  function Archive(u: Codec, files: seq<TarFile>): Bytes {
    if files == [] then Zeros(1024) else EntryBytes(u, files[0]) + Archive(u, files[1..])
  }

  method WritePart(name: Bytes, data: Bytes, mode: nat, kind: Byte) returns (bytes: Bytes)
    ensures bytes == Part(name, data, mode, kind)
  {
    var header := TarHeaderBlock(name, |data|, mode, kind);
    bytes := header[..] + Padded(data);
  }

  method WriteTar(u: Codec, files: seq<TarFile>) returns (archive: Bytes)
    requires Lawful(u)
    ensures archive == Archive(u, files)
  {
    archive := [];
    for i := 0 to |files|
      invariant archive + Archive(u, files[i..]) == Archive(u, files)
    {
      var f := files[i];
      assert files[i..][0] == f && files[i..][1..] == files[i + 1..];
      var name := u.encode(f.path);
      var entry: Bytes := [];
      if |name| > 100 {
        var record := PaxPath(u, f.path);
        entry := WritePart(u.encode("PaxHeader/" + f.path), record, PAX_MODE, EXTENDED);
      }
      var file := WritePart(name, f.data, f.mode, FILE);
      entry := entry + file;
      assert entry == EntryBytes(u, f);
      Joined(archive, entry, Archive(u, files[i + 1..]));
      archive := archive + entry;
    }
    assert files[|files|..] == [];
    archive := archive + Zeros(1024);
  }

  // ---------------------------------------------------------------- reading

  /** Names the next file member takes from the members before it. */
  datatype Carry = Carry(longName: Option<string>, pax: Option<map<string, string>>)

  const NOTHING := Carry(None, None)

  /** One turn of the loop of `untar`: how far it reads, what it carries on, and the entry it pushes. */
  datatype Step = Stop | Fail(error: TarError) | Next(used: nat, carry: Carry, entry: Option<ArchiveEntry>)

  predicate IsBlank(block: Bytes) {
    forall i :: 0 <= i < |block| ==> block[i] == 0
  }

  function RawName(u: Codec, header: Bytes, carry: Carry): Option<string>
    requires |header| == 512
  {
    if carry.pax.Some? && "path" in carry.pax.value then Some(carry.pax.value["path"])
    else if carry.longName.Some? then carry.longName
    else
      var name := u.strict(Field(header, 0, 100));
      var prefix := if u.lossy(header[257..262]) == USTAR then Field(header, 345, 155) else [];
      if prefix == [] then name
      else
        var p := u.strict(prefix);
        if p.None? || name.None? then None else Some(p.value + "/" + name.value)
  }

  function MemberStep(u: Codec, header: Bytes, data: Bytes, used: nat, carry: Carry): (s: Step)
    requires |header| == 512 && used > 0
    ensures s.Next? ==> s.used == used
  {
    var kind := header[156];
    if kind == EXTENDED then Next(used, carry.(pax := Some(Records(u.lossy(data)))), None)
    else if kind == GLOBAL then Next(used, carry, None)
    else if kind == LONG_NAME then Next(used, carry.(longName := Some(u.lossy(UpToNul(data)))), None)
    else
      var raw := RawName(u, header, carry);
      if raw.None? then Fail(NotUtf8)
      else if kind != FILE && kind != 0 && kind != CONTIGUOUS then Next(used, NOTHING, None)
      else
        var path := EntryPath(raw.value);
        if path.None? then Fail(Escapes) else Next(used, NOTHING, Some(ArchiveEntry(path.value, data)))
  }

  function ReadStep(u: Codec, bytes: Bytes, carry: Carry): (s: Step)
    ensures s.Next? ==> s.used > 0 && bytes != []
  {
    if |bytes| < 512 || IsBlank(bytes[..512]) then Stop
    else
      var size := ReadOctal(u, bytes, 124, 12);
      if size.None? || size.value < 0 || 512 + size.value > |bytes| then Fail(Truncated)
      else MemberStep(u, bytes[..512], bytes[512..512 + size.value], 512 + PaddedSize(size.value), carry)
  }

  function DropBytes(bytes: Bytes, n: nat): Bytes {
    if n <= |bytes| then bytes[n..] else []
  }

  type Unpacked = Result<seq<ArchiveEntry>, TarError>

  function Prepend(entries: seq<ArchiveEntry>, r: Unpacked): Unpacked {
    if r.Err? then r else Ok(entries + r.value)
  }

  function EntryList(e: Option<ArchiveEntry>): seq<ArchiveEntry> {
    if e.Some? then [e.value] else []
  }

  /** A reader of single members: given the bytes ahead and the names carried so far. */
  type Reader = (Bytes, Carry) -> Step

  ghost predicate Progresses(step: Reader) {
    forall bytes, carry :: step(bytes, carry).Next? ==> step(bytes, carry).used > 0 && bytes != []
  }

  /** Member after member, until the reader stops or fails. */
  function Follow(step: Reader, bytes: Bytes, carry: Carry): Unpacked
    requires Progresses(step)
    decreases |bytes|
  {
    match step(bytes, carry)
    case Stop => Ok([])
    case Fail(e) => Err(e)
    case Next(used, carry', entry) => Prepend(EntryList(entry), Follow(step, DropBytes(bytes, used), carry'))
  }

  function Members(u: Codec): (step: Reader)
    ensures Progresses(step)
  {
    (bytes: Bytes, carry: Carry) => ReadStep(u, bytes, carry)
  }

  function Unpack(u: Codec, bytes: Bytes, carry: Carry): Unpacked {
    Follow(Members(u), bytes, carry)
  }

  /** The loop's variables, or what it returned. */
  datatype Loop = Running(offset: nat, carry: Carry, entries: seq<ArchiveEntry>) | Returned(r: Unpacked)

  /** What a loop in this state returns. */
  function Outcome(step: Reader, bytes: Bytes, l: Loop): Unpacked
    requires Progresses(step)
  {
    match l
    case Running(offset, carry, entries) => Prepend(entries, Follow(step, DropBytes(bytes, offset), carry))
    case Returned(r) => r
  }

  function Advance(l: Loop, s: Step): Loop
    requires l.Running?
  {
    match s
    case Stop => Returned(Ok(l.entries))
    case Fail(e) => Returned(Err(e))
    case Next(used, carry, entry) => Running(l.offset + used, carry, l.entries + EntryList(entry))
  }

  lemma AdvanceKeepsOutcome(step: Reader, bytes: Bytes, l: Loop, s: Step)
    requires Progresses(step) && l.Running? && s == step(DropBytes(bytes, l.offset), l.carry)
    ensures Outcome(step, bytes, Advance(l, s)) == Outcome(step, bytes, l)
    ensures s.Next? ==> l.offset < |bytes| && l.offset < Advance(l, s).offset
  {
    if s.Next? {
      DropTwice(bytes, l.offset, s.used);
      Combine(l.entries, EntryList(s.entry), Follow(step, DropBytes(bytes, l.offset + s.used), s.carry));
    } else {
      assert l.entries + [] == l.entries;
    }
  }

  /** `untar`: an offset that advances, a name carried between members, and entries pushed. */
  method Untar(u: Codec, bytes: Bytes) returns (r: Unpacked)
    ensures r == Unpack(u, bytes, NOTHING)
  {
    var l := Running(0, NOTHING, []);
    assert DropBytes(bytes, 0) == bytes;
    PrependNothing(Unpack(u, bytes, NOTHING));
    while l.Running?
      invariant Outcome(Members(u), bytes, l) == Unpack(u, bytes, NOTHING)
      decreases l.Running?, if l.Running? then |bytes| - l.offset else 0
    {
      var s := ReadStep(u, DropBytes(bytes, l.offset), l.carry);
      AdvanceKeepsOutcome(Members(u), bytes, l, s);
      l := Advance(l, s);
    }
    r := l.r;
  }

  lemma Combine(a: seq<ArchiveEntry>, b: seq<ArchiveEntry>, r: Unpacked)
    ensures Prepend(a, Prepend(b, r)) == Prepend(a + b, r)
  {
    if r.Ok? {
      assert a + (b + r.value) == a + b + r.value;
    }
  }

  lemma DropTwice(bytes: Bytes, a: nat, b: nat)
    ensures DropBytes(DropBytes(bytes, a), b) == DropBytes(bytes, a + b)
  {
  }

  // ---------------------------------------------------------------- what comes back

  /** The sizes a header can state. Paths are not restricted. */
  ghost predicate Fits(u: Codec, f: TarFile) {
    |f.data| < MAX_SIZE && |RecordOf(u, f.path)| < MAX_SIZE
  }

  function BeforeNul(s: string): (r: string)
    ensures |r| <= |s|
  {
    if s == [] || s[0] as int == 0 then "" else [s[0]] + BeforeNul(s[1..])
  }

  /** The name a file is read under: a record's, or the header field's up to a NUL. */
  function NameBack(u: Codec, f: TarFile): string {
    if NeedsRecord(u, f) then ReadBack(u, f.path) else StripMark(BeforeNul(f.path))
  }

  /** What reading `f` in front of `rest` gives. */
  function Delivered(u: Codec, f: TarFile, rest: Unpacked): Unpacked {
    var path := EntryPath(NameBack(u, f));
    if path.None? then Err(Escapes) else Prepend([ArchiveEntry(path.value, f.data)], rest)
  }

  function ArchiveBack(u: Codec, files: seq<TarFile>): Unpacked {
    if files == [] then Ok([]) else Delivered(u, files[0], ArchiveBack(u, files[1..]))
  }

  /** A written member is read as its own header and data, and the next one starts right behind it. */
  lemma PartReads(u: Codec, name: Bytes, data: Bytes, mode: nat, kind: Byte, tail: Bytes, carry: Carry)
    requires Lawful(u) && |data| < MAX_SIZE
    ensures var bytes := Part(name, data, mode, kind) + tail;
            var used := 512 + PaddedSize(|data|);
            && ReadStep(u, bytes, carry) == MemberStep(u, Header(name, |data|, mode, kind), data, used, carry)
            && DropBytes(bytes, used) == tail
  {
    var h := Header(name, |data|, mode, kind);
    OtherFields(name, |data|, mode, kind);
    SizeReads(u, name, |data|, mode, kind, Padded(data) + tail);
    Joined(h, Padded(data), tail);
    MemberReads(u, h, data, tail, carry);
  }

  lemma MemberReads(u: Codec, h: Bytes, data: Bytes, tail: Bytes, carry: Carry)
    requires |h| == 512 && h[257] != 0
    requires ReadOctal(u, h + (Padded(data) + tail), 124, 12) == Some(|data|)
    ensures var bytes := h + (Padded(data) + tail);
            var used := 512 + PaddedSize(|data|);
            && ReadStep(u, bytes, carry) == MemberStep(u, h, data, used, carry)
            && DropBytes(bytes, used) == tail
  {
    var bytes := h + (Padded(data) + tail);
    assert bytes[..512] == h;
    assert bytes[512..] == Padded(data) + tail;
    assert bytes[512..512 + |data|] == (Padded(data) + tail)[..|data|] == data;
    assert bytes[512 + PaddedSize(|data|)..] == tail;
  }

  lemma RecordStep(u: Codec, f: TarFile)
    requires Lawful(u) && NeedsRecord(u, f)
    ensures var record := RecordOf(u, f.path);
            var h := Header(u.encode("PaxHeader/" + f.path), |record|, PAX_MODE, EXTENDED);
            var used := 512 + PaddedSize(|record|);
            MemberStep(u, h, record, used, NOTHING)
            == Next(used, Carry(None, Some(map["path" := NameBack(u, f)])), None)
  {
    var record := RecordOf(u, f.path);
    OtherFields(u.encode("PaxHeader/" + f.path), |record|, PAX_MODE, EXTENDED);
    RecordRoundTrip(u, f.path);
  }

  /** A header field holds the text in front of a NUL, and nothing of what is behind it. */
  lemma {:induction false} FieldText(u: Codec, s: string, pad: nat)
    requires Lawful(u)
    ensures UpToNul(u.encode(s) + Zeros(pad)) == u.encode(BeforeNul(s))
  {
    var front := BeforeNul(s);
    BeforeNulSplits(s);
    Longer(u, front);
    EncodeConcat(u, front, s[|front|..]);
    var behind := u.encode(s[|front|..]) + Zeros(pad);
    Joined(u.encode(front), u.encode(s[|front|..]), Zeros(pad));
    if |front| < |s| {
      StartsWithNul(u, s[|front|..]);
    } else {
      AsciiDecodes(u, "");
    }
    UpToNulStops(u.encode(front), behind);
  }

  lemma {:induction false} BeforeNulSplits(s: string)
    ensures BeforeNul(s) == s[..|BeforeNul(s)|] && 0 as char !in BeforeNul(s)
    ensures s == BeforeNul(s) + s[|BeforeNul(s)|..]
    ensures |BeforeNul(s)| < |s| ==> s[|BeforeNul(s)|] as int == 0
  {
    if s != [] && s[0] as int != 0 {
      BeforeNulSplits(s[1..]);
      assert s == [s[0]] + s[1..];
    }
  }

  lemma StartsWithNul(u: Codec, s: string)
    requires Lawful(u) && s != [] && s[0] as int == 0
    ensures u.encode(s) != [] && u.encode(s)[0] == 0
  {
    assert s == [s[0]] + s[1..];
    EncodeConcat(u, [s[0]], s[1..]);
    AsciiDecodes(u, [s[0]]);
  }

  lemma ShortName(u: Codec, f: TarFile)
    requires Lawful(u) && !NeedsRecord(u, f)
    ensures RawName(u, Header(u.encode(f.path), |f.data|, f.mode, FILE), NOTHING) == Some(NameBack(u, f))
  {
    var name := u.encode(f.path);
    var h := Header(name, |f.data|, f.mode, FILE);
    NameField(name, |f.data|, f.mode, FILE);
    OtherFields(name, |f.data|, f.mode, FILE);
    NameIsPadded(h, name);
    FieldText(u, f.path, 100 - |name|);
    assert Field(h, 345, 155) == [];
    Decodes(u, BeforeNul(f.path));
  }

  lemma NameIsPadded(h: Bytes, name: Bytes)
    requires |h| == 512 && |name| <= 100
    requires h[0..100] == if |name| >= 100 then name[..100] else name + Zeros(100 - |name|)
    ensures Field(h, 0, 100) == UpToNul(name + Zeros(100 - |name|))
  {
    if |name| == 100 {
      assert name[..100] == name && name + Zeros(0) == name;
    }
  }

  /** The names carried into a file's own header. */
  function CarryFor(u: Codec, f: TarFile): Carry {
    if NeedsRecord(u, f) then Carry(None, Some(map["path" := NameBack(u, f)])) else NOTHING
  }

  /** One turn of the loop at a file's own header. */
  function FileOutcome(u: Codec, f: TarFile, used: nat): Step {
    var path := EntryPath(NameBack(u, f));
    if path.None? then Fail(Escapes) else Next(used, NOTHING, Some(ArchiveEntry(path.value, f.data)))
  }

  lemma FileMember(u: Codec, h: Bytes, f: TarFile, used: nat, carry: Carry)
    requires |h| == 512 && used > 0 && h[156] == FILE && RawName(u, h, carry) == Some(NameBack(u, f))
    ensures MemberStep(u, h, f.data, used, carry) == FileOutcome(u, f, used)
  {
  }

  lemma FileStep(u: Codec, f: TarFile)
    requires Lawful(u)
    ensures var h := Header(u.encode(f.path), |f.data|, f.mode, FILE);
            var used := 512 + PaddedSize(|f.data|);
            MemberStep(u, h, f.data, used, CarryFor(u, f)) == FileOutcome(u, f, used)
  {
    var h := Header(u.encode(f.path), |f.data|, f.mode, FILE);
    OtherFields(u.encode(f.path), |f.data|, f.mode, FILE);
    if !NeedsRecord(u, f) {
      ShortName(u, f);
    }
    FileMember(u, h, f, 512 + PaddedSize(|f.data|), CarryFor(u, f));
  }

  lemma UnpackNext(
    u: Codec, bytes: Bytes, carry: Carry, used: nat, carry': Carry, entry: Option<ArchiveEntry>, tail: Bytes)
    requires ReadStep(u, bytes, carry) == Next(used, carry', entry) && DropBytes(bytes, used) == tail
    ensures Unpack(u, bytes, carry) == Prepend(EntryList(entry), Unpack(u, tail, carry'))
  {
  }

  lemma UnpackFile(u: Codec, f: TarFile, bytes: Bytes, carry: Carry, used: nat, tail: Bytes)
    requires ReadStep(u, bytes, carry) == FileOutcome(u, f, used) && DropBytes(bytes, used) == tail
    ensures Unpack(u, bytes, carry) == Delivered(u, f, Unpack(u, tail, NOTHING))
  {
    var path := EntryPath(NameBack(u, f));
    if path.Some? {
      UnpackNext(u, bytes, carry, used, NOTHING, Some(ArchiveEntry(path.value, f.data)), tail);
    }
  }

  lemma FileReadStep(u: Codec, f: TarFile, tail: Bytes)
    requires Lawful(u) && Fits(u, f)
    ensures var bytes := Part(u.encode(f.path), f.data, f.mode, FILE) + tail;
            var used := 512 + PaddedSize(|f.data|);
            ReadStep(u, bytes, CarryFor(u, f)) == FileOutcome(u, f, used) && DropBytes(bytes, used) == tail
  {
    PartReads(u, u.encode(f.path), f.data, f.mode, FILE, tail, CarryFor(u, f));
    FileStep(u, f);
  }

  lemma FileReads(u: Codec, f: TarFile, tail: Bytes)
    requires Lawful(u) && Fits(u, f)
    ensures Unpack(u, Part(u.encode(f.path), f.data, f.mode, FILE) + tail, CarryFor(u, f))
         == Delivered(u, f, Unpack(u, tail, NOTHING))
  {
    FileReadStep(u, f, tail);
    var bytes := Part(u.encode(f.path), f.data, f.mode, FILE) + tail;
    UnpackFile(u, f, bytes, CarryFor(u, f), 512 + PaddedSize(|f.data|), tail);
  }

  lemma EntryReads(u: Codec, f: TarFile, tail: Bytes)
    requires Lawful(u) && Fits(u, f)
    ensures Unpack(u, EntryBytes(u, f) + tail, NOTHING) == Delivered(u, f, Unpack(u, tail, NOTHING))
  {
    var file := Part(u.encode(f.path), f.data, f.mode, FILE);
    FileReads(u, f, tail);
    if NeedsRecord(u, f) {
      var record := RecordOf(u, f.path);
      var head := Part(u.encode("PaxHeader/" + f.path), record, PAX_MODE, EXTENDED);
      Joined(head, file, tail);
      PartReads(u, u.encode("PaxHeader/" + f.path), record, PAX_MODE, EXTENDED, file + tail, NOTHING);
      RecordStep(u, f);
      UnpackNext(u, head + (file + tail), NOTHING, 512 + PaddedSize(|record|), CarryFor(u, f), None, file + tail);
      PrependNothing(Unpack(u, file + tail, CarryFor(u, f)));
    } else {
      assert [] + file == file;
    }
  }

  lemma PrependNothing(r: Unpacked)
    ensures Prepend([], r) == r
  {
    if r.Ok? {
      assert [] + r.value == r.value;
    }
  }

  /** What reading a written archive gives, whatever the files are called: entries in order, or a refusal. */
  lemma {:induction false} ArchiveReads(u: Codec, files: seq<TarFile>)
    requires Lawful(u) && forall f :: f in files ==> Fits(u, f)
    ensures Unpack(u, Archive(u, files), NOTHING) == ArchiveBack(u, files)
  {
    if files == [] {
      assert Zeros(1024)[..512] == Zeros(512);
      assert ReadStep(u, Zeros(1024), NOTHING) == Stop;
    } else {
      assert files[0] in files;
      ArchiveReads(u, files[1..]);
      EntryReads(u, files[0], Archive(u, files[1..]));
    }
  }

  // ---------------------------------------------------------------- round trip

  function Original(files: seq<TarFile>): (r: seq<ArchiveEntry>)
    ensures |r| == |files|
    ensures forall i :: 0 <= i < |r| ==> r[i] == ArchiveEntry(files[i].path, files[i].data)
  {
    seq(|files|, i requires 0 <= i < |files| => ArchiveEntry(files[i].path, files[i].data))
  }

  /**
   * The path is spelled as `untar` spells it; if it fits the header field it
   * has no NUL and no leading byte order mark; and if it does not, it is ASCII.
   */
  predicate KeepsName(u: Codec, path: string) {
    && Normal(path)
    && if |u.encode(path)| > 100 then IsAscii(path) else 0 as char !in path && NoMark(path)
  }

  lemma NameKeptExactly(u: Codec, f: TarFile)
    requires Lawful(u)
    ensures EntryPath(NameBack(u, f)) == Some(f.path) <==> KeepsName(u, f.path)
  {
    if NeedsRecord(u, f) {
      LongNameKept(u, f.path);
    } else {
      ShortNameKept(f.path);
    }
  }

  lemma LongNameKept(u: Codec, path: string)
    requires Lawful(u)
    ensures EntryPath(ReadBack(u, path)) == Some(path) <==> Normal(path) && IsAscii(path)
  {
    Longer(u, path);
    if IsAscii(path) {
      KeptExactly(path);
    } else {
      NewlineIsKept(path);
    }
  }

  lemma ShortNameKept(path: string)
    ensures EntryPath(StripMark(BeforeNul(path))) == Some(path) <==> Normal(path) && 0 as char !in path && NoMark(path)
  {
    var name := StripMark(BeforeNul(path));
    NameShrinks(path);
    if |name| < |path| {
      EntryPathIsShorter(name);
    } else {
      KeptExactly(path);
    }
  }

  /** What a NUL or a byte order mark costs a name. */
  lemma NameShrinks(path: string)
    ensures var name := StripMark(BeforeNul(path));
            if 0 as char !in path && NoMark(path) then name == path else |name| < |path|
  {
    var front := BeforeNul(path);
    BeforeNulSplits(path);
    if 0 as char in path {
      assert front != path;
    } else {
      assert path[..|path|] == path;
    }
  }

  lemma NewlineIsKept(path: string)
    ensures EntryPath(path + "\n") != Some(path)
  {
    AcceptedIsNormal(path + "\n");
    if EntryPath(path + "\n") == Some(path) {
      NormalWithNewline(path);
      NormalIsKept(path + "\n");
    }
  }

  lemma {:induction false} BackExactly(u: Codec, files: seq<TarFile>)
    requires Lawful(u)
    ensures ArchiveBack(u, files) == Ok(Original(files)) <==> forall f :: f in files ==> KeepsName(u, f.path)
  {
    if files != [] {
      var rest := files[1..];
      BackExactly(u, rest);
      NameKeptExactly(u, files[0]);
      assert Original(files) == [ArchiveEntry(files[0].path, files[0].data)] + Original(rest);
      FirstAndRest(u, files[0], ArchiveBack(u, rest), Original(rest));
      AllKeep(u, files);
    }
  }

  lemma AllKeep(u: Codec, files: seq<TarFile>)
    requires files != []
    ensures (forall f :: f in files ==> KeepsName(u, f.path))
       <==> KeepsName(u, files[0].path) && forall f :: f in files[1..] ==> KeepsName(u, f.path)
  {
    assert files == [files[0]] + files[1..];
  }

  lemma FirstAndRest(u: Codec, f: TarFile, back: Unpacked, rest: seq<ArchiveEntry>)
    ensures Delivered(u, f, back) == Ok([ArchiveEntry(f.path, f.data)] + rest)
       <==> EntryPath(NameBack(u, f)) == Some(f.path) && back == Ok(rest)
  {
    var path := EntryPath(NameBack(u, f));
    if path.Some? && back.Ok? {
      var got, want := [ArchiveEntry(path.value, f.data)] + back.value, [ArchiveEntry(f.path, f.data)] + rest;
      assert got[0] == ArchiveEntry(path.value, f.data) && want[0] == ArchiveEntry(f.path, f.data);
      assert got[1..] == back.value && want[1..] == rest;
    }
  }

  /**
   * For every list of files whose sizes a header can state, the archive reads
   * back as the same paths and bytes in order exactly when every path keeps
   * its name: see `KeepsName`.
   */
  lemma TarRoundTripExactly(u: Codec, files: seq<TarFile>)
    requires Lawful(u) && forall f :: f in files ==> Fits(u, f)
    ensures Unpack(u, Archive(u, files), NOTHING) == Ok(Original(files))
       <==> forall f :: f in files ==> KeepsName(u, f.path)
  {
    ArchiveReads(u, files);
    BackExactly(u, files);
  }

  /** For ASCII paths of any length: exactly when they are normal and no short one has a NUL. */
  lemma AsciiRoundTrip(u: Codec, files: seq<TarFile>)
    requires Lawful(u) && forall f :: f in files ==> Fits(u, f) && IsAscii(f.path)
    ensures Unpack(u, Archive(u, files), NOTHING) == Ok(Original(files))
       <==> forall f :: f in files ==> Normal(f.path) && (|f.path| <= 100 ==> 0 as char !in f.path)
  {
    forall f | f in files
      ensures KeepsName(u, f.path) <==> Normal(f.path) && (|f.path| <= 100 ==> 0 as char !in f.path)
    {
      AsciiDecodes(u, f.path);
      assert f.path != [] ==> f.path[0] as int < 128;
    }
    TarRoundTripExactly(u, files);
  }

  function Repeat(c: char, n: nat): (s: string)
    ensures |s| == n && forall i :: 0 <= i < n ==> s[i] == c
  {
    if n == 0 then "" else Repeat(c, n - 1) + [c]
  }

  lemma {:induction false} RepeatLength(u: Codec, c: char, n: nat)
    requires Lawful(u) && |u.encode([c])| == 2
    ensures |u.encode(Repeat(c, n))| == 2 * n
  {
    if n == 0 {
      AsciiDecodes(u, "");
    } else {
      RepeatLength(u, c, n - 1);
      EncodeConcat(u, Repeat(c, n - 1), [c]);
    }
  }

  lemma AccentedFits(u: Codec, path: string, data: Bytes)
    requires Lawful(u) && |u.encode(path)| == 120 && |data| < MAX_SIZE
    ensures Fits(u, TarFile(path, data, PAX_MODE))
  {
    RecordLength(u, path);
    BodyLength(u, path);
    Pax.Bounded(127, PaxLength(127));
  }

  /** The exception is real: in UTF-8 sixty accented letters, 120 bytes, do not come back as they went in. */
  lemma LongAccentedPath(data: Bytes)
    requires |data| < MAX_SIZE
    ensures var files := [TarFile(Repeat(0xe9 as char, 60), data, PAX_MODE)];
            && Fits(CODEC, files[0]) && Normal(files[0].path)
            && Unpack(CODEC, Archive(CODEC, files), NOTHING) != Ok(Original(files))
  {
    var path := Repeat(0xe9 as char, 60);
    var f := TarFile(path, data, PAX_MODE);
    CodecIsLawful();
    AccentedLetter();
    RepeatLength(CODEC, 0xe9 as char, 60);
    AccentedFits(CODEC, path, data);
    AccentedIsNormal(path);
    assert path[0] as int >= 128;
    assert f in [f] && !KeepsName(CODEC, f.path);
    TarRoundTripExactly(CODEC, [f]);
  }

  lemma AccentedLetter()
    ensures |CODEC.encode([0xe9 as char])| == 2
  {
    var s: string := [0xe9 as char];
    assert s[1..] == [];
    assert Encode(s) == EncodeChar(s[0]) + Encode(s[1..]);
  }

  lemma AccentedIsNormal(path: string)
    requires path != [] && forall i :: 0 <= i < |path| ==> path[i] as int == 0xe9
    ensures Normal(path)
  {
    SplitPart("", path);
    assert "" + path == path;
  }
}
