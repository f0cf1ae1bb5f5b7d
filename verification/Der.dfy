/**
 * ECDSA signatures as cosign writes them, `SEQUENCE { INTEGER r, INTEGER s }`
 * (section 2.2.3 of RFC 3279), and as WebCrypto takes them, the 64 bytes
 * `r || s` (host/src/cosign.ts).
 */
module Der {
  import opened Common

  /** The number a big-endian byte string denotes. */
  function Number(bytes: Bytes): nat {
    if bytes == [] then 0 else Number(bytes[..|bytes| - 1]) * 256 + bytes[|bytes| - 1]
  }

  /** Section 8.3 of ITU-T X.690 for a non-negative INTEGER: never longer than it must be. */
  predicate MinimalContents(body: Bytes) {
    && body != []
    && body[0] < 0x80
    && (|body| > 1 && body[0] == 0 ==> body[1] >= 0x80)
  }

  // ---------------------------------------------------------------- raw to DER

  /** `bytes` from its first non-zero byte, keeping at least the last one. */
  function Trim(bytes: Bytes): (t: Bytes)
    ensures |t| <= |bytes| && (bytes != [] ==> t != [])
  {
    if |bytes| > 1 && bytes[0] == 0 then Trim(bytes[1..]) else bytes
  }

  lemma {:induction false} TrimDropsZeros(bytes: Bytes)
    ensures var t := Trim(bytes);
            bytes == Zeros(|bytes| - |t|) + t && (|t| > 1 ==> t[0] != 0)
  {
    if |bytes| > 1 && bytes[0] == 0 {
      TrimDropsZeros(bytes[1..]);
      assert bytes == [0] + bytes[1..];
    }
  }

  /** The contents of the INTEGER: a zero sign byte goes before a leading bit of one. */
  function Contents(bytes: Bytes): (body: Bytes)
    requires bytes != []
    ensures 1 <= |body| <= |bytes| + 1
  {
    var t := Trim(bytes);
    if t[0] >= 0x80 then [0] + t else t
  }

  function EncodeInteger(bytes: Bytes): Bytes
    requires 0 < |bytes| <= 32
  {
    [2, |Contents(bytes)|] + Contents(bytes)
  }

  function EncodeSignature(raw: Bytes): Bytes
    requires |raw| == 64
  {
    var r, s := EncodeInteger(raw[..32]), EncodeInteger(raw[32..]);
    [0x30, |r| + |s|] + r + s
  }

  method IntegerToDer(bytes: Bytes) returns (der: Bytes)
    requires 0 < |bytes| <= 32
    ensures der == EncodeInteger(bytes)
  {
    var start := 0;
    while start < |bytes| - 1 && bytes[start] == 0
      invariant 0 <= start <= |bytes| - 1
      invariant Trim(bytes[start..]) == Trim(bytes)
    {
      assert bytes[start..][1..] == bytes[start + 1..];
      start := start + 1;
    }
    var trimmed := bytes[start..];
    var value := if trimmed[0] >= 0x80 then [0] + trimmed else trimmed;
    der := [2, |value|] + value;
  }

  method RawToDer(raw: Bytes) returns (der: Bytes)
    requires |raw| == 64
    ensures der == EncodeSignature(raw)
  {
    var r := IntegerToDer(raw[..32]);
    var s := IntegerToDer(raw[32..]);
    der := [0x30, |r| + |s|] + r + s;
  }

  lemma {:induction false} LeadingZeros(zeros: Bytes, bytes: Bytes)
    requires forall i :: 0 <= i < |zeros| ==> zeros[i] == 0
    ensures Number(zeros + bytes) == Number(bytes)
  {
    var n := |bytes|;
    if n > 0 {
      LeadingZeros(zeros, bytes[..n - 1]);
      assert (zeros + bytes)[..|zeros| + n - 1] == zeros + bytes[..n - 1];
    } else if |zeros| > 0 {
      LeadingZeros(zeros[..|zeros| - 1], []);
      assert zeros + bytes == zeros;
      assert zeros[..|zeros| - 1] + [] == zeros[..|zeros| - 1];
    }
  }

  lemma ContentsNumber(bytes: Bytes)
    requires bytes != []
    ensures Number(Contents(bytes)) == Number(bytes)
  {
    var t := Trim(bytes);
    TrimDropsZeros(bytes);
    var zeros := Zeros(|bytes| - |t|);
    LeadingZeros(zeros, t);
    var sign: Bytes := [0];
    LeadingZeros(sign, t);
  }

  /** The written INTEGER is the number the 32 bytes hold, in its one DER form. */
  lemma EncodeIntegerMeaning(bytes: Bytes)
    requires 0 < |bytes| <= 32
    ensures MinimalContents(Contents(bytes))
    ensures Number(Contents(bytes)) == Number(bytes)
  {
    ContentsNumber(bytes);
    TrimDropsZeros(bytes);
  }

  /** Every length byte is below 0x80, so the short form the writer assumes is the only one in play. */
  lemma ShortForm(raw: Bytes)
    requires |raw| == 64
    ensures var der := EncodeSignature(raw);
            && 8 <= |der| <= 72 && |der| == 2 + der[1] && der[1] < 0x80
            && der[2] == 2 && 1 <= der[3] < 0x80 && 5 + der[3] < |der|
            && der[4 + der[3]] == 2 && 1 <= der[5 + der[3]] < 0x80
            && |der| == 6 + der[3] + der[5 + der[3]]
  {
    var r, s := Contents(raw[..32]), Contents(raw[32..]);
    var der := EncodeSignature(raw);
    assert der == [0x30, 4 + |r| + |s|, 2, |r|] + r + [2, |s|] + s;
  }

  // ---------------------------------------------------------------- DER to raw

  function Slice(bytes: Bytes, from: nat, to: nat): Bytes
    requires from <= to
  {
    if from >= |bytes| then [] else if to >= |bytes| then bytes[from..] else bytes[from..to]
  }

  /** Left-pad to 32 bytes after stripping one sign byte. */
  function Pad(value: Bytes): Option<Bytes> {
    var trimmed := if value != [] && value[0] == 0 then value[1..] else value;
    if |trimmed| > 32 then None else Some(Zeros(32 - |trimmed|) + trimmed)
  }

  /** The INTEGER at `offset`, padded, and the offset after it. */
  function DecodeInteger(der: Bytes, offset: nat): (Option<Bytes>, nat) {
    if offset >= |der| || der[offset] != 2 then (None, offset)
    else
      var length := if offset + 1 < |der| then der[offset + 1] else 0;
      (Pad(Slice(der, offset + 2, offset + 2 + length)), offset + 2 + length)
  }

  function DecodeSignature(der: Bytes): Option<Bytes> {
    if der == [] || der[0] != 0x30 then None
    else
      var (r, next) := DecodeInteger(der, 2);
      var (s, _) := DecodeInteger(der, next);
      if r.None? || s.None? then None else Some(r.value + s.value)
  }

  /** `verifyKeyed` and `verifyDsse`: exactly 64 bytes are taken to be raw already. */
  function SelectRaw(signature: Bytes): Option<Bytes> {
    if |signature| == 64 then Some(signature) else DecodeSignature(signature)
  }

  method DerToRaw(der: Bytes) returns (raw: Option<Bytes>)
    ensures raw == DecodeSignature(der)
  {
    if der == [] || der[0] != 0x30 {
      return None;
    }
    var offset := 2;
    var halves: seq<Option<Bytes>> := [];
    while |halves| < 2
      invariant |halves| <= 2
      invariant |halves| == 0 ==> offset == 2
      invariant |halves| == 1 ==> (halves[0], offset) == DecodeInteger(der, 2)
      invariant |halves| == 2 ==> halves == [DecodeInteger(der, 2).0, DecodeInteger(der, DecodeInteger(der, 2).1).0]
      decreases 2 - |halves|
    {
      if offset >= |der| || der[offset] != 2 {
        halves := halves + [None];
      } else {
        var length := if offset + 1 < |der| then der[offset + 1] else 0;
        var value := Slice(der, offset + 2, offset + 2 + length);
        offset := offset + 2 + length;
        halves := halves + [Pad(value)];
      }
    }
    raw := if halves[0].None? || halves[1].None? then None else Some(halves[0].value + halves[1].value);
  }

  lemma PadUndoesContents(bytes: Bytes)
    requires |bytes| == 32
    ensures Pad(Contents(bytes)) == Some(bytes)
  {
    var t := Trim(bytes);
    TrimDropsZeros(bytes);
    if t[0] >= 0x80 {
      assert Contents(bytes)[1..] == t;
    } else if t[0] == 0 {
      assert Contents(bytes)[1..] == [];
      assert bytes == Zeros(32) + [];
    }
  }

  lemma SliceMiddle(before: Bytes, body: Bytes, after: Bytes)
    requires |body| < 256
    ensures var der := before + ([2, |body|] + body) + after;
            && der[|before|] == 2 && der[|before| + 1] == |body|
            && Slice(der, |before| + 2, |before| + 2 + |body|) == body
  {
    var der := before + ([2, |body|] + body) + after;
    assert der == (before + [2, |body|]) + body + after;
    assert der[|before| + 2..|before| + 2 + |body|] == body;
  }

  lemma DecodeIntegerAt(before: Bytes, bytes: Bytes, after: Bytes)
    requires |bytes| == 32
    ensures DecodeInteger(before + EncodeInteger(bytes) + after, |before|)
         == (Some(bytes), |before| + |EncodeInteger(bytes)|)
  {
    var body := Contents(bytes);
    SliceMiddle(before, body, after);
    PadUndoesContents(bytes);
  }

  /** Reading back what signing wrote gives the same 64 bytes. */
  lemma SignatureRoundTrip(raw: Bytes)
    requires |raw| == 64
    ensures DecodeSignature(EncodeSignature(raw)) == Some(raw)
  {
    var r, s := EncodeInteger(raw[..32]), EncodeInteger(raw[32..]);
    var head: Bytes := [0x30, |r| + |s|];
    var der := EncodeSignature(raw);
    DecodeIntegerAt(head, raw[..32], s);
    DecodeIntegerAt(head + r, raw[32..], []);
    assert head + r + s + [] == der;
    assert raw[..32] + raw[32..] == raw;
  }

  // ---------------------------------------------------------------- any bytes

  /** The contents of an INTEGER at `o`: its length octet and the end of the input both limit them. */
  ghost predicate BodyAt(der: Bytes, o: nat, body: Bytes) {
    && o < |der| && der[o] == 2
    && if o + 1 == |der| then body == []
       else if o + 2 + der[o + 1] <= |der| then body == der[o + 2..o + 2 + der[o + 1]]
       else body == der[o + 2..]
  }

  /** `half` is the 32-byte form of the number `body` denotes; one sign byte may be too many. */
  ghost predicate IsHalf(body: Bytes, half: Bytes) {
    && |half| == 32 && Number(half) == Number(body)
    && (|body| <= 32 || (|body| == 33 && body[0] == 0))
  }

  lemma {:induction false} NumberInjective(a: Bytes, b: Bytes)
    requires |a| == |b| && Number(a) == Number(b)
    ensures a == b
  {
    if a != [] {
      var n := |a| - 1;
      NumberInjective(a[..n], b[..n]);
      assert a == a[..n] + [a[n]] && b == b[..n] + [b[n]];
    }
  }

  lemma PadExactly(body: Bytes, half: Bytes)
    ensures Pad(body) == Some(half) <==> IsHalf(body, half)
  {
    var trimmed := if body != [] && body[0] == 0 then body[1..] else body;
    if body != [] && body[0] == 0 {
      assert body == [0] + trimmed;
      LeadingZeros([0], trimmed);
    }
    if |trimmed| <= 32 {
      var padded := Zeros(32 - |trimmed|) + trimmed;
      LeadingZeros(Zeros(32 - |trimmed|), trimmed);
      if IsHalf(body, half) {
        NumberInjective(half, padded);
      }
    }
  }

  lemma IntegerExactly(der: Bytes, o: nat, half: Bytes)
    ensures DecodeInteger(der, o).0 == Some(half) <==> exists body :: BodyAt(der, o, body) && IsHalf(body, half)
    ensures DecodeInteger(der, o).0.Some? && o + 1 < |der| ==> DecodeInteger(der, o).1 == o + 2 + der[o + 1]
    ensures DecodeInteger(der, o).0.Some? && o + 1 >= |der| ==> DecodeInteger(der, o).1 >= |der|
  {
    if o < |der| && der[o] == 2 {
      var length := if o + 1 < |der| then der[o + 1] else 0;
      var body := Slice(der, o + 2, o + 2 + length);
      assert BodyAt(der, o, body);
      PadExactly(body, half);
    }
  }

  /** The two numbers a byte string holds, as the reader sees them. */
  ghost predicate Holds(der: Bytes, raw: Bytes) {
    && |der| > 3 && der[0] == 0x30 && |raw| == 64
    && (exists r :: BodyAt(der, 2, r) && IsHalf(r, raw[..32]))
    && (exists s :: BodyAt(der, 4 + der[3] as nat, s) && IsHalf(s, raw[32..]))
  }

  /**
   * On every input, well-formed or not: decoding gives `raw` exactly when the
   * bytes are a SEQUENCE with two INTEGERs in a row, whose numbers are those
   * of the halves of `raw`. The outer length and what follows do not matter.
   */
  lemma DecodeExactly(der: Bytes, raw: Bytes)
    ensures DecodeSignature(der) == Some(raw) <==> Holds(der, raw)
  {
    if der != [] && der[0] == 0x30 {
      var (r, next) := DecodeInteger(der, 2);
      var (s, _) := DecodeInteger(der, next);
      if r.Some? && s.Some? {
        IntegerExactly(der, 2, r.value);
        IntegerExactly(der, next, s.value);
        assert (r.value + s.value)[..32] == r.value && (r.value + s.value)[32..] == s.value;
      }
      if Holds(der, raw) {
        IntegerExactly(der, 2, raw[..32]);
        IntegerExactly(der, next, raw[32..]);
        assert raw[..32] + raw[32..] == raw;
      }
    }
  }

  /**
   * The length test picks the right bytes for a DER signature exactly when its
   * INTEGER contents do not total 58 bytes: then the DER itself is 64 bytes
   * long, is taken to be raw, and never is the raw signature it encodes.
   */
  lemma SelectRawExactly(raw: Bytes)
    requires |raw| == 64
    ensures SelectRaw(EncodeSignature(raw)) == Some(raw)
       <==> |Contents(raw[..32])| + |Contents(raw[32..])| != 58
  {
    SignatureRoundTrip(raw);
    var der := EncodeSignature(raw);
    EncodedIsNotRaw(raw);
  }

  lemma ThreeZeroBytes(half: Bytes)
    requires |half| == 32 && half[0] == 0 && half[1] == 0 && half[2] == 0 && 0 < half[3] < 0x80
    ensures |Contents(half)| == 29
  {
    assert half[1..][1..][1..] == half[3..];
    assert Trim(half[3..]) == half[3..];
    assert Trim(half[1..][1..]) == half[3..];
    assert Trim(half[1..]) == half[3..];
  }

  /** The exception happens: a signature whose two numbers have 29 bytes each is taken for another. */
  lemma TakenForRawExample()
    ensures exists raw: Bytes ::
              |raw| == 64 && SelectRaw(EncodeSignature(raw)) == Some(EncodeSignature(raw)) != Some(raw)
  {
    var half: Bytes := Zeros(3) + seq(29, i => 1);
    var raw := half + half;
    assert raw[..32] == half && raw[32..] == half;
    ThreeZeroBytes(half);
    SelectRawExactly(raw);
  }

  /** Behind a 32-byte first INTEGER, the encoding repeats the raw bytes four places on. */
  lemma ShiftedByFour(raw: Bytes, i: nat)
    requires |raw| == 64 && raw[0] == 0x30 && i < 32
    ensures EncodeSignature(raw)[i + 4] == raw[i]
  {
    var r := raw[..32];
    assert r[0] == 0x30;
    assert Contents(r) == r;
    var s := EncodeInteger(raw[32..]);
    assert EncodeSignature(raw) == [0x30, 34 + |s|, 2, 32] + r + s;
  }

  /** No signature is its own encoding: that would need contents of 32 and 32 bytes, so 70 bytes in all. */
  lemma EncodedIsNotRaw(raw: Bytes)
    requires |raw| == 64
    ensures EncodeSignature(raw) != raw
  {
    if raw[0] == 0x30 && raw[32] == 0x30 {
      assert raw[..32][0] == 0x30 && raw[32..][0] == 0x30;
      assert |EncodeSignature(raw)| == 70;
    } else if raw[0] == 0x30 {
      ShiftedByFour(raw, 0);
      ShiftedByFour(raw, 4);
      ShiftedByFour(raw, 8);
      ShiftedByFour(raw, 12);
      ShiftedByFour(raw, 16);
      ShiftedByFour(raw, 20);
      ShiftedByFour(raw, 24);
      ShiftedByFour(raw, 28);
    }
  }
}
