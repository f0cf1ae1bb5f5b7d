/**
 * One 512-byte header block (host/src/archive.ts; the "ustar Interchange
 * Format" section of the pax utility in IEEE Std 1003.1).
 */
module TarHeader {
  import opened Common
  import opened Decimal
  import opened Utf8
  import opened Pax

  type Block = b: Bytes | |b| == 512 witness Zeros(512)

  // ---------------------------------------------------------------- writing

  /** `put`: at most `length` of `bytes`, from `offset`. */
  function PutAt(block: Block, bytes: Bytes, offset: nat, length: nat): (r: Block)
    requires offset + length <= 512
    ensures forall i :: 0 <= i < 512 ==>
              r[i] == if offset <= i < offset + length && i < offset + |bytes| then bytes[i - offset] else block[i]
  {
    seq(512, i requires 0 <= i < 512 =>
      if offset <= i < offset + length && i < offset + |bytes| then bytes[i - offset] else block[i])
  }

  /** `value.toString(8).padStart(width, "0")`. */
  function Octal(value: nat, width: nat): string {
    var digits := Digits(value, 8);
    if |digits| >= width then digits else Fill(width - |digits|) + digits
  }

  function Fill(n: nat): (s: string)
    ensures |s| == n && forall i :: 0 <= i < n ==> s[i] == '0'
  {
    seq(n, i => '0')
  }

  lemma OctalDigits(value: nat, width: nat)
    ensures forall i :: 0 <= i < |Octal(value, width)| ==> IsDigit(Octal(value, width)[i], 8)
    ensures IsAscii(Octal(value, width))
  {
    var s := Octal(value, width);
    forall i | 0 <= i < |s| ensures IsDigit(s[i], 8) && s[i] as int < 128 {
      if i >= |s| - |Digits(value, 8)| {
        assert s[i] == Digits(value, 8)[i - (|s| - |Digits(value, 8)|)];
      }
    }
  }

  function OctalBytes(value: nat, width: nat): Bytes {
    OctalDigits(value, width);
    Ascii(Octal(value, width)) + [0]
  }

  const USTAR: string := "ustar"
  const SPACES: Bytes := [32, 32, 32, 32, 32, 32, 32, 32]

  /** The block before its checksum is known: the field holds spaces. */
  function Unsigned(name: Bytes, size: nat, mode: nat, kind: Byte): Block {
    var b0: Block := Zeros(512);
    var b1 := PutAt(b0, name, 0, 100);
    var b2 := PutAt(b1, OctalBytes(mode, 7), 100, 8);
    var b3 := PutAt(b2, OctalBytes(0, 7), 108, 8);
    var b4 := PutAt(b3, OctalBytes(0, 7), 116, 8);
    var b5 := PutAt(b4, OctalBytes(size, 11), 124, 12);
    var b6 := PutAt(b5, OctalBytes(0, 11), 136, 12);
    var b7 := PutAt(b6, SPACES, 148, 8);
    var b8 := PutAt(b7, [kind], 156, 1);
    var b9 := PutAt(b8, Ascii(USTAR) + [0], 257, 6);
    PutAt(b9, Ascii("00"), 263, 2)
  }

  function Sum(bytes: Bytes): nat {
    if bytes == [] then 0 else Sum(bytes[..|bytes| - 1]) + bytes[|bytes| - 1]
  }

  function ChecksumBytes(sum: nat): Bytes {
    OctalBytes(sum, 6) + [32]
  }

  function Header(name: Bytes, size: nat, mode: nat, kind: Byte): Block {
    var b := Unsigned(name, size, mode, kind);
    PutAt(b, ChecksumBytes(Sum(b)), 148, 8)
  }

  // ---------------------------------------------------------------- in place

  method Put(block: array<Byte>, bytes: Bytes, offset: nat, length: nat)
    requires block.Length == 512 && offset + length <= 512
    modifies block
    ensures block[..] == PutAt(old(block[..]), bytes, offset, length)
  {
    var n := if |bytes| <= length then |bytes| else length;
    for i := 0 to n
      invariant forall k :: 0 <= k < 512 ==>
                  block[k] == if offset <= k < offset + i then bytes[k - offset] else old(block[k])
    {
      block[offset + i] := bytes[i];
    }
    assert block[..] == PutAt(old(block[..]), bytes, offset, length);
  }

  method Total(block: array<Byte>) returns (sum: nat)
    ensures sum == Sum(block[..])
  {
    sum := 0;
    for i := 0 to block.Length
      invariant sum == Sum(block[..i])
    {
      assert block[..i + 1][..i] == block[..i];
      sum := sum + block[i];
    }
    assert block[..block.Length] == block[..];
  }

  /** `tarHeader`: the fields in order, then the checksum over the block with its own field blank. */
  method TarHeaderBlock(name: Bytes, size: nat, mode: nat, kind: Byte) returns (block: array<Byte>)
    ensures fresh(block) && block.Length == 512
    ensures block[..] == Header(name, size, mode, kind)
  {
    block := new Byte[512](i => 0);
    assert block[..] == Zeros(512);
    Put(block, name, 0, 100);
    Put(block, OctalBytes(mode, 7), 100, 8);
    Put(block, OctalBytes(0, 7), 108, 8);
    Put(block, OctalBytes(0, 7), 116, 8);
    Put(block, OctalBytes(size, 11), 124, 12);
    Put(block, OctalBytes(0, 11), 136, 12);
    Put(block, SPACES, 148, 8);
    Put(block, [kind], 156, 1);
    Put(block, Ascii(USTAR) + [0], 257, 6);
    Put(block, Ascii("00"), 263, 2);
    var sum := Total(block);
    Put(block, ChecksumBytes(sum), 148, 8);
  }

  // ---------------------------------------------------------------- reading

  /** `field`: the bytes from `offset`, up to a NUL. */
  function Field(bytes: Bytes, offset: nat, length: nat): Bytes
    requires offset + length <= |bytes|
  {
    UpToNul(bytes[offset..offset + length])
  }

  function UpToNul(bytes: Bytes): Bytes {
    if bytes == [] || bytes[0] == 0 then [] else [bytes[0]] + UpToNul(bytes[1..])
  }

  function TrimEnd(s: string): string {
    if s != [] && IsSpace(s[|s| - 1]) then TrimEnd(s[..|s| - 1]) else s
  }

  /** `octal`: a blank field is zero; `None` is NaN. */
  function ReadOctal(u: Codec, bytes: Bytes, offset: nat, length: nat): Option<int>
    requires offset + length <= |bytes|
  {
    var text := TrimEnd(TrimStart(u.lossy(Field(bytes, offset, length))));
    ParseInt(if text == "" then "0" else text, 8)
  }

  lemma {:induction false} UpToNulStops(bytes: Bytes, rest: Bytes)
    requires 0 !in bytes && (rest == [] || rest[0] == 0)
    ensures UpToNul(bytes + rest) == bytes
  {
    if bytes == [] {
      assert bytes + rest == rest;
    } else {
      assert (bytes + rest)[1..] == bytes[1..] + rest;
      UpToNulStops(bytes[1..], rest);
    }
  }

  lemma {:induction false} FillValue(n: nat, digits: string)
    requires forall i :: 0 <= i < |digits| ==> IsDigit(digits[i], 8)
    ensures forall i :: 0 <= i < |Fill(n) + digits| ==> IsDigit((Fill(n) + digits)[i], 8)
    ensures ValueOf(Fill(n) + digits, 8) == ValueOf(digits, 8)
  {
    var s := Fill(n) + digits;
    if digits != [] {
      FillValue(n, digits[..|digits| - 1]);
      assert s[..|s| - 1] == Fill(n) + digits[..|digits| - 1];
    } else if n > 0 {
      FillValue(n - 1, []);
      assert s[..n - 1] == Fill(n - 1) + [];
    } else {
      assert s == [];
    }
  }

  ghost predicate AllDigits(s: string) {
    forall i :: 0 <= i < |s| ==> IsDigit(s[i], 8)
  }

  lemma DigitStringTrims(s: string)
    requires s != [] && AllDigits(s)
    ensures TrimEnd(TrimStart(s)) == s && TrimStart(s) == s
  {
    assert IsDigit(s[0], 8) && IsDigit(s[|s| - 1], 8);
  }

  lemma DigitStringParses(s: string)
    requires s != [] && AllDigits(s)
    ensures ParseInt(s, 8) == Some(ValueOf(s, 8))
  {
    DigitStringTrims(s);
    assert IsDigit(s[0], 8);
    DigitRunExact(s, [], 8);
    assert s + [] == s && s[..|s|] == s;
  }

  lemma OctalValue(value: nat, width: nat)
    ensures Octal(value, width) != [] && AllDigits(Octal(value, width)) && ValueOf(Octal(value, width), 8) == value
  {
    var s, digits := Octal(value, width), Digits(value, 8);
    OctalDigits(value, width);
    assert s == Fill(|s| - |digits|) + digits;
    FillValue(|s| - |digits|, digits);
    DigitsValue(value, 8);
  }

  /** A zero-padded numeral reads back as its number. */
  lemma OctalReads(value: nat, width: nat)
    ensures ParseInt(Octal(value, width), 8) == Some(value)
    ensures TrimEnd(TrimStart(Octal(value, width))) == Octal(value, width) != ""
  {
    OctalValue(value, width);
    DigitStringTrims(Octal(value, width));
    DigitStringParses(Octal(value, width));
  }

  const MAX_SIZE: nat := 8589934592

  lemma {:induction false} PowersOfEight()
    ensures PowerOfEight(11) == MAX_SIZE && PowerOfEight(6) == 262144
  {
    assert PowerOfEight(0) == 1;
    assert PowerOfEight(1) == 8;
    assert PowerOfEight(2) == 64;
    assert PowerOfEight(3) == 512;
    assert PowerOfEight(4) == 4096;
    assert PowerOfEight(5) == 32768;
    assert PowerOfEight(6) == 262144;
    assert PowerOfEight(7) == 2097152;
    assert PowerOfEight(8) == 16777216;
    assert PowerOfEight(9) == 134217728;
    assert PowerOfEight(10) == 1073741824;
  }

  /** The numeral fills its field to the NUL. */
  lemma OctalWidth(value: nat, width: nat)
    requires (width == 11 && value < MAX_SIZE) || (width == 6 && value < 262144)
    ensures |Octal(value, width)| == width && |OctalBytes(value, width)| == width + 1
  {
    PowersOfEight();
    OctalDigitCount(value, width);
  }

  lemma SizeField(name: Bytes, size: nat, mode: nat, kind: Byte)
    requires size < MAX_SIZE
    ensures Header(name, size, mode, kind)[124..136] == OctalBytes(size, 11)
  {
    OctalWidth(size, 11);
  }

  lemma NameField(name: Bytes, size: nat, mode: nat, kind: Byte)
    ensures Header(name, size, mode, kind)[0..100]
         == if |name| >= 100 then name[..100] else name + Zeros(100 - |name|)
  {
  }

  lemma OtherFields(name: Bytes, size: nat, mode: nat, kind: Byte)
    ensures var h := Header(name, size, mode, kind);
            h[156] == kind && h[257..262] == Ascii(USTAR) && h[345..500] == Zeros(155) && h[257] != 0
  {
    var h := Header(name, size, mode, kind);
    forall i | 0 <= i < 5 ensures h[257..262][i] == Ascii(USTAR)[i] {
      assert h[257 + i] == (Ascii(USTAR) + [0])[i];
    }
    assert h[257] == Ascii(USTAR)[0];
  }

  lemma OctalFieldReads(u: Codec, value: nat, width: nat)
    requires Lawful(u)
    ensures u.lossy(UpToNul(OctalBytes(value, width))) == Octal(value, width)
  {
    var text := Octal(value, width);
    OctalDigits(value, width);
    forall i | 0 <= i < |text| ensures Ascii(text)[i] != 0 {
      assert IsDigit(text[i], 8);
    }
    UpToNulStops(Ascii(text), [0]);
    AsciiDecodes(u, text);
  }

  /** The size a header states is the size it was written with. */
  lemma SizeReads(u: Codec, name: Bytes, size: nat, mode: nat, kind: Byte, rest: Bytes)
    requires Lawful(u) && size < MAX_SIZE
    ensures ReadOctal(u, Header(name, size, mode, kind) + rest, 124, 12) == Some(size)
  {
    var h := Header(name, size, mode, kind);
    SizeField(name, size, mode, kind);
    SizeReadsFrom(u, h, size, rest);
  }

  lemma SizeReadsFrom(u: Codec, h: Bytes, size: nat, rest: Bytes)
    requires Lawful(u) && |h| == 512 && h[124..136] == OctalBytes(size, 11)
    ensures ReadOctal(u, h + rest, 124, 12) == Some(size)
  {
    assert (h + rest)[124..124 + 12] == h[124..136];
    OctalFieldReads(u, size, 11);
    OctalReads(size, 11);
  }

  lemma {:induction false} SumBound(bytes: Bytes)
    ensures Sum(bytes) <= 255 * |bytes|
  {
    if bytes != [] {
      SumBound(bytes[..|bytes| - 1]);
    }
  }

  /**
   * The checksum field is six octal digits, a NUL and a space, and the digits
   * are the exact byte sum of the block with that field blank.
   */
  lemma ChecksumIsExact(name: Bytes, size: nat, mode: nat, kind: Byte)
    ensures var h := Header(name, size, mode, kind);
            var sum := Sum(PutAt(h, SPACES, 148, 8));
            && h[148..156] == ChecksumBytes(sum)
            && |Octal(sum, 6)| == 6
            && ParseInt(Octal(sum, 6), 8) == Some(sum)
  {
    var b := Unsigned(name, size, mode, kind);
    SumBound(b);
    OctalWidth(Sum(b), 6);
    BlankField(name, size, mode, kind);
    FieldOverBlank(b, ChecksumBytes(Sum(b)));
    OctalReads(Sum(b), 6);
  }

  lemma FieldOverBlank(b: Block, field: Bytes)
    requires |field| == 8 && forall i :: 148 <= i < 156 ==> b[i] == 32
    ensures PutAt(PutAt(b, field, 148, 8), SPACES, 148, 8) == b
    ensures PutAt(b, field, 148, 8)[148..156] == field
  {
  }

  lemma BlankField(name: Bytes, size: nat, mode: nat, kind: Byte)
    ensures forall i :: 148 <= i < 156 ==> Unsigned(name, size, mode, kind)[i] == 32
  {
  }
}
