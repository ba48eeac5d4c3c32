/**
 * Decimal text for Java's 32- and 64-bit integers: `String.valueOf(int)`,
 * `Integer.parseInt` and `Long.parseLong`, with their range checks.
 */
module Decimal {
  import opened Wrappers

  const INT_MIN: int := -0x8000_0000
  const INT_MAX: int := 0x7fff_ffff
  const LONG_MIN: int := -0x8000_0000_0000_0000
  const LONG_MAX: int := 0x7fff_ffff_ffff_ffff

  /** A Java `int`/`Integer` value. */
  type Int32 = x: int | INT_MIN <= x <= INT_MAX
  /** A Java `long`/`Long` value. */
  type Int64 = x: int | LONG_MIN <= x <= LONG_MAX

  /** The code points of the characters Unicode classes as decimal digits
      (general category Nd) inside the Basic Multilingual Plane: each is the
      zero of a run of ten digits, zero to nine. `Character.digit(ch, 10)`,
      which both parsers use, accepts exactly these `char`s. */
  const DIGIT_ZEROS: seq<int> := [
    0x0030, 0x0660, 0x06F0, 0x07C0, 0x0966, 0x09E6, 0x0A66, 0x0AE6, 0x0B66, 0x0BE6,
    0x0C66, 0x0CE6, 0x0D66, 0x0DE6, 0x0E50, 0x0ED0, 0x0F20, 0x1040, 0x1090, 0x17E0,
    0x1810, 0x1946, 0x19D0, 0x1A80, 0x1A90, 0x1B50, 0x1BB0, 0x1C40, 0x1C50, 0xA620,
    0xA8D0, 0xA900, 0xA9D0, 0xA9F0, 0xAA50, 0xABF0, 0xFF10]

  /** The zero of the first digit run from position `k` on that holds `c`. */
  function ZeroFrom(c: int, k: nat): (z: Option<int>)
    ensures z.Some? ==> z.value <= c < z.value + 10
    decreases |DIGIT_ZEROS| - k
  {
    if k >= |DIGIT_ZEROS| then None
    else if DIGIT_ZEROS[k] <= c < DIGIT_ZEROS[k] + 10 then Some(DIGIT_ZEROS[k])
    else ZeroFrom(c, k + 1)
  }

  /** A decimal digit in any script, as `Character.digit(c, 10) >= 0`. */
  predicate IsDigit(c: char) {
    ZeroFrom(c as int, 0).Some?
  }

  /** One of the ASCII digits `0` to `9` that `String.valueOf` writes. */
  predicate IsAsciiDigit(c: char) {
    '0' <= c <= '9'
  }

  predicate AllDigits(s: string) {
    forall i :: 0 <= i < |s| ==> IsDigit(s[i])
  }

  /** `Character.digit(c, 10)`: the place of `c` in its run of ten. */
  function DigitValue(c: char): (d: nat)
    requires IsDigit(c)
    ensures d < 10
  {
    c as int - ZeroFrom(c as int, 0).value
  }

  /** The ASCII digit of a value below ten, read back by `DigitValue`. */
  function DigitChar(d: nat): (c: char)
    requires d < 10
    ensures IsAsciiDigit(c) && IsDigit(c) && DigitValue(c) == d
  {
    ('0' as int + d) as char
  }

  /** The decimal digits of `n`, most significant first, without leading zeros. */
  function NatToString(n: nat): (s: string)
    ensures |s| > 0 && AllDigits(s)
    ensures forall i :: 0 <= i < |s| ==> IsAsciiDigit(s[i])
    ensures s[0] == '0' ==> n == 0
    decreases n
  {
    if n < 10 then [DigitChar(n)] else NatToString(n / 10) + [DigitChar(n % 10)]
  }

  /** The value of a string of decimal digits (leading zeros allowed). */
  function DigitsValue(s: string): nat
    requires AllDigits(s)
  {
    if s == [] then 0 else DigitsValue(s[..|s| - 1]) * 10 + DigitValue(s[|s| - 1])
  }

  lemma {:induction false} DigitsOfNat(n: nat)
    ensures DigitsValue(NatToString(n)) == n
    decreases n
  {
    if n >= 10 {
      var s := NatToString(n);
      DigitsOfNat(n / 10);
      assert s[..|s| - 1] == NatToString(n / 10);
    }
  }

  /** `String.valueOf(int)`: a minus sign for negative values, then the digits. */
  function IntToString(n: int): (s: string)
    ensures |s| > 0
  {
    if n < 0 then "-" + NatToString(-n) else NatToString(n)
  }

  /** The text of `n` is a minus sign exactly when `n` is negative, then the
      digits of its magnitude, with no leading zero. */
  lemma IntToStringDigits(n: int)
    ensures var s := IntToString(n);
      && (s[0] == '-' <==> n < 0)
      && (n < 0 ==> AllDigits(s[1..]) && DigitsValue(s[1..]) == -n)
      && (n >= 0 ==> AllDigits(s) && DigitsValue(s) == n && (s[0] == '0' ==> |s| == 1))
  {
    DigitsOfNat(if n < 0 then -n else n);
    assert n < 0 ==> ("-" + NatToString(-n))[1..] == NatToString(-n);
  }

  /** The text after an optional leading sign, and whether the sign was '-'. */
  function Unsigned(s: string): (string, bool)
  {
    if |s| > 0 && (s[0] == '-' || s[0] == '+') then (s[1..], s[0] == '-') else (s, false)
  }

  /** An optional sign followed by at least one digit. */
  predicate IsSignedDigits(s: string) {
    |Unsigned(s).0| > 0 && AllDigits(Unsigned(s).0)
  }

  /** The value of an optional sign followed by digits. */
  function SignedValue(s: string): int
    requires IsSignedDigits(s)
  {
    if Unsigned(s).1 then -(DigitsValue(Unsigned(s).0) as int) else DigitsValue(Unsigned(s).0)
  }

  /** No character below `0`, the space among them, is a digit in any script. */
  lemma {:induction false} BelowZeroIsNotDigit(c: int, k: nat)
    requires c < 0x30
    ensures ZeroFrom(c, k).None?
    decreases |DIGIT_ZEROS| - k
  {
    if k < |DIGIT_ZEROS| {
      assert DIGIT_ZEROS[k] >= 0x30;
      BelowZeroIsNotDigit(c, k + 1);
    }
  }

  /** The shared core of `Integer.parseInt` and `Long.parseLong`: an optional
      '+' or '-', then at least one digit, and a value within [lo, hi];
      anything else is a NumberFormatException (`None`). */
  function ParseSigned(s: string, lo: int, hi: int): (r: Option<int>)
    ensures r.Some? <==> IsSignedDigits(s) && lo <= SignedValue(s) <= hi
    ensures r.Some? ==> r.value == SignedValue(s)
  {
    var (digits, negative) := Unsigned(s);
    if digits == [] || !AllDigits(digits) then None
    else
      var v: int := if negative then -(DigitsValue(digits) as int) else DigitsValue(digits);
      if lo <= v <= hi then Some(v) else None
  }

  /** `Integer.parseInt`: the signed digits within the `int` range, and
      nothing led by a space. */
  function ParseInt(s: string): (r: Option<Int32>)
    ensures r.Some? <==> IsSignedDigits(s) && INT_MIN <= SignedValue(s) <= INT_MAX
    ensures r.Some? ==> r.value == SignedValue(s)
    ensures r.Some? ==> s != [] && s[0] != ' '
  {
    BelowZeroIsNotDigit(' ' as int, 0);
    match ParseSigned(s, INT_MIN, INT_MAX)
    case None => None
    case Some(v) => Some(v)
  }

  /** `Long.parseLong`: the signed digits within the `long` range, and
      nothing led by a space. */
  function ParseLong(s: string): (r: Option<Int64>)
    ensures r.Some? <==> IsSignedDigits(s) && LONG_MIN <= SignedValue(s) <= LONG_MAX
    ensures r.Some? ==> r.value == SignedValue(s)
    ensures r.Some? ==> s != [] && s[0] != ' '
  {
    BelowZeroIsNotDigit(' ' as int, 0);
    match ParseSigned(s, LONG_MIN, LONG_MAX)
    case None => None
    case Some(v) => Some(v)
  }

  lemma ParseSignedOfIntToString(n: int, lo: int, hi: int)
    requires lo <= n <= hi
    ensures ParseSigned(IntToString(n), lo, hi) == Some(n)
  {
    var s := IntToString(n);
    if n < 0 {
      DigitsOfNat(-n);
      assert Unsigned(s) == (NatToString(-n), true);
    } else {
      DigitsOfNat(n);
      assert Unsigned(s) == (NatToString(n), false);
    }
  }

  /** `Integer.parseInt(String.valueOf(n)) == n` for every Java int. */
  lemma ParseIntOfIntToString(n: Int32)
    ensures ParseInt(IntToString(n)) == Some(n)
  {
    ParseSignedOfIntToString(n, INT_MIN, INT_MAX);
  }

  /** `Long.parseLong(String.valueOf(n)) == n` for every Java long. */
  lemma ParseLongOfIntToString(n: Int64)
    ensures ParseLong(IntToString(n)) == Some(n)
  {
    ParseSignedOfIntToString(n, LONG_MIN, LONG_MAX);
  }

  /** The decimal text of a number never contains '/'. */
  lemma IntToStringHasNoSlash(n: int)
    ensures '/' !in IntToString(n)
  {
    var s := IntToString(n);
    if n < 0 {
      assert s[1..] == NatToString(-n);
      forall i | 0 <= i < |s| ensures s[i] != '/' {
        if i > 0 { assert s[i] == s[1..][i - 1]; }
      }
    }
  }
}
