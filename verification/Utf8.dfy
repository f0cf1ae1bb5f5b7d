/**
 * Text encoding as the archive code uses it: `TextEncoder`, `TextDecoder` and
 * the fatal decoder are foreign, and only these laws about them are used.
 * `WebUtf8` defines the codec of the Encoding Standard and shows it lawful.
 */
module Utf8 {
  import opened Common

  datatype Codec = Codec(encode: string -> Bytes, strict: Bytes -> Option<string>, lossy: Bytes -> string)

  predicate IsAscii(s: string) {
    forall i :: 0 <= i < |s| ==> s[i] as int < 128
  }

  function Ascii(s: string): (b: Bytes)
    requires IsAscii(s)
    ensures |b| == |s| && forall i :: 0 <= i < |s| ==> b[i] == s[i] as int
  {
    seq(|s|, i requires 0 <= i < |s| => s[i] as int)
  }

  predicate NoMark(s: string) {
    s == [] || s[0] as int != 0xfeff
  }

  /** Decoders drop one leading byte order mark. */
  function StripMark(s: string): string {
    if NoMark(s) then s else s[1..]
  }

  ghost predicate RoundTrips(u: Codec, s: string) {
    u.strict(u.encode(s)) == Some(StripMark(s)) && u.lossy(u.encode(s)) == StripMark(s)
  }

  /** No shorter in bytes, as short only for ASCII, and without a NUL byte that is not a NUL character. */
  ghost predicate Spread(u: Codec, s: string) {
    |u.encode(s)| >= |s| && (|u.encode(s)| == |s| ==> IsAscii(s)) && (0 in u.encode(s) ==> 0 as char in s)
  }

  ghost predicate KeepsAscii(u: Codec, s: string) {
    IsAscii(s) ==> u.encode(s) == Ascii(s)
  }

  ghost predicate Concatenates(u: Codec, s: string, t: string) {
    u.encode(s + t) == u.encode(s) + u.encode(t)
  }

  ghost predicate Lawful(u: Codec) {
    && (forall s :: RoundTrips(u, s))
    && (forall s :: Spread(u, s))
    && (forall s :: KeepsAscii(u, s))
    && (forall s, t :: Concatenates(u, s, t))
  }

  lemma AsciiDecodes(u: Codec, s: string)
    requires Lawful(u) && IsAscii(s)
    ensures u.lossy(Ascii(s)) == s && u.encode(s) == Ascii(s)
  {
    assert KeepsAscii(u, s) && RoundTrips(u, s);
  }

  lemma EncodeConcat(u: Codec, s: string, t: string)
    requires Lawful(u)
    ensures u.encode(s + t) == u.encode(s) + u.encode(t)
  {
    assert Concatenates(u, s, t);
  }

  lemma Decodes(u: Codec, s: string)
    requires Lawful(u)
    ensures u.strict(u.encode(s)) == Some(StripMark(s)) && u.lossy(u.encode(s)) == StripMark(s)
  {
    assert RoundTrips(u, s);
  }

  lemma Longer(u: Codec, s: string)
    requires Lawful(u)
    ensures |u.encode(s)| >= |s| && (0 in u.encode(s) ==> 0 as char in s)
    ensures |u.encode(s)| == |s| <==> IsAscii(s)
  {
    assert Spread(u, s) && KeepsAscii(u, s);
  }
}
