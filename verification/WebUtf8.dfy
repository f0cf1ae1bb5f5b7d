/**
 * UTF-8 as the Encoding Standard has it: the encoder, the decoder that
 * refuses malformed bytes, and the one that replaces them.
 */
module WebUtf8 {
  import opened Common
  import opened Utf8

  function EncodeChar(c: char): (b: Bytes)
    ensures |b| >= 1 && (|b| == 1 <==> c as int < 128)
  {
    var n := c as int;
    if n < 0x80 then [n]
    else if n < 0x800 then [0xc0 + n / 64, 0x80 + n % 64]
    else if n < 0x10000 then [0xe0 + n / 4096, 0x80 + n / 64 % 64, 0x80 + n % 64]
    else [0xf0 + n / 262144, 0x80 + n / 4096 % 64, 0x80 + n / 64 % 64, 0x80 + n % 64]
  }

  function Encode(s: string): Bytes {
    if s == [] then [] else EncodeChar(s[0]) + Encode(s[1..])
  }

  predicate Trails(b: Byte) {
    0x80 <= b < 0xc0
  }

  /** The second byte: no overlong form, no surrogate, nothing past U+10FFFF. */
  predicate Follows(first: Byte, b: Byte) {
    && Trails(b)
    && (first == 0xe0 ==> b >= 0xa0) && (first == 0xed ==> b < 0xa0)
    && (first == 0xf0 ==> b >= 0x90) && (first == 0xf4 ==> b < 0x90)
  }

  /** How many bytes a first byte announces; 0 for a byte that starts nothing. */
  function Announced(first: Byte): nat {
    if first < 0x80 then 1
    else if 0xc2 <= first < 0xe0 then 2
    else if 0xe0 <= first < 0xf0 then 3
    else if 0xf0 <= first < 0xf5 then 4
    else 0
  }

  /** How many bytes belong together at the start: a whole character's, or of one that breaks off. */
  function Together(b: Bytes): (n: nat)
    requires b != []
    ensures 1 <= n <= |b|
  {
    var k := Announced(b[0]);
    if k < 2 || |b| < 2 || !Follows(b[0], b[1]) then 1
    else if k < 3 || |b| < 3 || !Trails(b[2]) then 2
    else if k < 4 || |b| < 4 || !Trails(b[3]) then 3
    else 4
  }

  function DecodeChar(b: Bytes): Option<char>
    requires b != []
  {
    var k := Announced(b[0]);
    if k == 0 || Together(b) != k then None
    else if k == 1 then Some(b[0] as char)
    else if k == 2 then Some((Bits(b[0], 0xc0) * 64 + Bits(b[1], 0x80)) as char)
    else if k == 3 then Some((Bits(b[0], 0xe0) * 4096 + Bits(b[1], 0x80) * 64 + Bits(b[2], 0x80)) as char)
    else Some((Bits(b[0], 0xf0) * 262144 + Bits(b[1], 0x80) * 4096 + Bits(b[2], 0x80) * 64 + Bits(b[3], 0x80)) as char)
  }

  /** A byte without its marker. */
  function Bits(b: Byte, marker: int): int {
    var n: int := b;
    n - marker
  }

  function Decode(b: Bytes): Option<string> {
    if b == [] then Some("")
    else
      var c, rest := DecodeChar(b), Decode(b[Together(b)..]);
      if c.None? || rest.None? then None else Some([c.value] + rest.value)
  }

  /** A malformed run is replaced by one U+FFFD. */
  function Replace(b: Bytes): string {
    if b == [] then ""
    else
      var c := DecodeChar(b);
      [if c.None? then 0xfffd as char else c.value] + Replace(b[Together(b)..])
  }

  function Strict(b: Bytes): Option<string> {
    var s := Decode(b);
    if s.None? then None else Some(StripMark(s.value))
  }

  function Lossy(b: Bytes): string {
    StripMark(Replace(b))
  }

  const CODEC: Codec := Codec(Encode, Strict, Lossy)

  // ---------------------------------------------------------------- laws

  lemma CharDecodes(c: char, rest: Bytes)
    ensures var b := EncodeChar(c) + rest;
            DecodeChar(b) == Some(c) && Together(b) == |EncodeChar(c)|
  {
    var n := c as int;
    if 0x80 <= n < 0x800 {
      TwoBytes(c, rest);
    } else if 0x800 <= n < 0x10000 {
      ThreeBytes(c, rest);
    } else if 0x10000 <= n {
      FourBytes(c, rest);
    }
  }

  lemma TwoBytes(c: char, rest: Bytes)
    requires 0x80 <= c as int < 0x800
    ensures var b := EncodeChar(c) + rest;
            DecodeChar(b) == Some(c) && Together(b) == 2
  {
  }

  lemma ThreeBytes(c: char, rest: Bytes)
    requires 0x800 <= c as int < 0x10000
    ensures var b := EncodeChar(c) + rest;
            DecodeChar(b) == Some(c) && Together(b) == 3
  {
    var n := c as int;
    assert n / 4096 * 4096 + n / 64 % 64 * 64 + n % 64 == n;
  }

  lemma FourBytes(c: char, rest: Bytes)
    requires 0x10000 <= c as int
    ensures var b := EncodeChar(c) + rest;
            DecodeChar(b) == Some(c) && Together(b) == 4
  {
    FourDigits(c as int);
  }

  lemma FourDigits(n: nat)
    ensures n / 262144 * 262144 + n / 4096 % 64 * 4096 + n / 64 % 64 * 64 + n % 64 == n
  {
    var m := n / 64;
    assert m / 64 == n / 4096 && m / 4096 == n / 262144;
  }

  lemma {:induction false} TextDecodes(s: string)
    ensures Decode(Encode(s)) == Some(s) && Replace(Encode(s)) == s
  {
    if s != [] {
      var rest := Encode(s[1..]);
      TextDecodes(s[1..]);
      CharDecodes(s[0], rest);
      assert (EncodeChar(s[0]) + rest)[|EncodeChar(s[0])|..] == rest;
      assert s == [s[0]] + s[1..];
    }
  }

  lemma {:induction false} TextConcatenates(s: string, t: string)
    ensures Encode(s + t) == Encode(s) + Encode(t)
  {
    if s == [] {
      assert s + t == t;
    } else {
      assert (s + t)[1..] == s[1..] + t;
      TextConcatenates(s[1..], t);
      Joined(EncodeChar(s[0]), Encode(s[1..]), Encode(t));
    }
  }

  lemma CharHasNoNul(c: char)
    ensures 0 in EncodeChar(c) ==> c as int == 0
  {
  }

  lemma {:induction false} TextSpreads(s: string)
    ensures Spread(CODEC, s)
  {
    if s != [] {
      TextSpreads(s[1..]);
      CharHasNoNul(s[0]);
      assert s == [s[0]] + s[1..];
    }
  }

  lemma {:induction false} TextKeepsAscii(s: string)
    ensures KeepsAscii(CODEC, s)
  {
    if s != [] && IsAscii(s) {
      TextKeepsAscii(s[1..]);
      assert Ascii(s) == [s[0] as int] + Ascii(s[1..]);
    }
  }

  /** The codec of the Encoding Standard has every law the archive results assume. */
  lemma CodecIsLawful()
    ensures Lawful(CODEC)
  {
    forall s ensures RoundTrips(CODEC, s) {
      TextDecodes(s);
    }
    forall s ensures Spread(CODEC, s) {
      TextSpreads(s);
    }
    forall s ensures KeepsAscii(CODEC, s) {
      TextKeepsAscii(s);
    }
    forall s, t ensures Concatenates(CODEC, s, t) {
      TextConcatenates(s, t);
    }
  }
}
