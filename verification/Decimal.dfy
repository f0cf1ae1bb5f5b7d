/** Numbers as JavaScript's `toString(radix)` spells them, and read back. */
module Decimal {
  import opened Common

  type Radix = r: int | 2 <= r <= 16 witness 2

  function DigitChar(d: nat): (c: char)
    requires d < 16
  {
    if d < 10 then ('0' as int + d) as char else ('a' as int + (d - 10)) as char
  }

  function DigitValue(c: char): (v: nat)
    ensures v <= 16
    ensures forall d: nat :: d < 16 && c == DigitChar(d) ==> v == d
  {
    if '0' <= c <= '9' then c as int - '0' as int
    else if 'a' <= c <= 'f' then c as int - 'a' as int + 10
    else 16
  }

  predicate IsDigit(c: char, radix: Radix) {
    DigitValue(c) < radix
  }

  /** `n.toString(radix)`. */
  function Digits(n: nat, radix: Radix): (s: string)
    ensures s != [] && forall i :: 0 <= i < |s| ==> IsDigit(s[i], radix)
  {
    if n < radix then [DigitChar(n)]
    else
      QuotientSmaller(n, radix);
      Digits(n / radix, radix) + [DigitChar(n % radix)]
  }

  lemma QuotientSmaller(n: nat, radix: Radix)
    requires n >= radix
    ensures 0 <= n / radix < n && 0 <= n % radix < radix
  {
  }

  /** The number a digit string denotes. */
  function ValueOf(s: string, radix: Radix): nat
    requires forall i :: 0 <= i < |s| ==> IsDigit(s[i], radix)
  {
    if s == [] then 0 else ValueOf(s[..|s| - 1], radix) * radix + DigitValue(s[|s| - 1])
  }

  lemma {:induction false} DigitsValue(n: nat, radix: Radix)
    ensures ValueOf(Digits(n, radix), radix) == n
  {
    if n >= radix {
      DigitsValue(n / radix, radix);
      LastDigit(Digits(n / radix, radix), n % radix, radix);
      DivisionStep(n, radix);
    } else {
      assert Digits(n, radix)[..0] == [];
    }
  }

  lemma LastDigit(s: string, d: nat, radix: Radix)
    requires d < radix && forall i :: 0 <= i < |s| ==> IsDigit(s[i], radix)
    ensures forall i :: 0 <= i < |s| + 1 ==> IsDigit((s + [DigitChar(d)])[i], radix)
    ensures ValueOf(s + [DigitChar(d)], radix) == ValueOf(s, radix) * radix + d
  {
    var longer := s + [DigitChar(d)];
    assert longer[..|longer| - 1] == s && longer[|s|] == DigitChar(d);
    assert DigitValue(DigitChar(d)) == d;
  }

  lemma DivisionStep(n: nat, radix: Radix)
    ensures n / radix * radix + n % radix == n
  {
  }

  lemma DigitsInjective(a: nat, b: nat, radix: Radix)
    requires Digits(a, radix) == Digits(b, radix)
    ensures a == b
  {
    DigitsValue(a, radix);
    DigitsValue(b, radix);
  }

  /** The longest run of digits at the start of `s`. */
  function DigitRun(s: string, radix: Radix): (n: nat)
    ensures n <= |s|
    ensures forall i :: 0 <= i < n ==> IsDigit(s[i], radix)
    ensures n < |s| ==> !IsDigit(s[n], radix)
  {
    if s == [] || !IsDigit(s[0], radix) then 0 else 1 + DigitRun(s[1..], radix)
  }

  /** `parseInt`'s reading of a digit run: none is NaN. */
  function ParseRun(s: string, radix: Radix): Option<nat> {
    var n := DigitRun(s, radix);
    if n == 0 then None else Some(ValueOf(s[..n], radix))
  }

  lemma {:induction false} DigitRunExact(digits: string, rest: string, radix: Radix)
    requires forall i :: 0 <= i < |digits| ==> IsDigit(digits[i], radix)
    requires rest == [] || !IsDigit(rest[0], radix)
    ensures DigitRun(digits + rest, radix) == |digits|
  {
    if digits == [] {
      assert digits + rest == rest;
    } else {
      DigitRunExact(digits[1..], rest, radix);
      assert (digits + rest)[1..] == digits[1..] + rest;
    }
  }

  /** What `toString` wrote in front of a non-digit reads back as the number. */
  lemma ParseDigits(n: nat, rest: string, radix: Radix)
    requires rest == [] || !IsDigit(rest[0], radix)
    ensures ParseRun(Digits(n, radix) + rest, radix) == Some(n)
  {
    var d := Digits(n, radix);
    DigitRunExact(d, rest, radix);
    assert (d + rest)[..|d|] == d;
    DigitsValue(n, radix);
  }

  function PowerOfEight(k: nat): (p: nat)
    ensures p >= 1
  {
    if k == 0 then 1 else 8 * PowerOfEight(k - 1)
  }

  /** A number below `8^k` has at most `k` octal digits, for `k > 0`. */
  lemma {:induction false} OctalDigitCount(n: nat, k: nat)
    requires k > 0 && n < PowerOfEight(k)
    ensures |Digits(n, 8)| <= k
  {
    if n >= 8 {
      assert PowerOfEight(0) == 1;
      OctalDigitCount(n / 8, k - 1);
    }
  }

  /** `String(n).length`. */
  function Count(n: nat): (k: nat)
    ensures k == |Digits(n, 10)| && k >= 1
  {
    if n < 10 then 1 else 1 + Count(n / 10)
  }

  /** Longer decimal numerals denote larger numbers. */
  lemma {:induction false} CountMonotone(a: nat, b: nat)
    requires a <= b
    ensures Count(a) <= Count(b)
  {
    if a >= 10 {
      CountMonotone(a / 10, b / 10);
    }
  }

  lemma {:induction false} CountIsSmall(n: nat)
    requires n >= 2
    ensures 2 * Count(n) <= n
  {
    if n >= 20 {
      CountIsSmall(n / 10);
    } else if n >= 10 {
      assert Count(n / 10) == 1;
    }
  }
}
