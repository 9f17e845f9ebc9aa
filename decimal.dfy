/**
  Decimal rendering of integers, as Python's `str` does it for an `int`:
  an optional '-' followed by decimal digits without leading zeros.
  The ribbon loader uses it to build the name of each input file, and
  `ParseInt` is its inverse, which makes file names distinct per index.
 */
module Decimal {

  predicate IsDigit(c: char) {
    '0' <= c <= '9'
  }

  predicate AllDigits(s: string) {
    forall k :: 0 <= k < |s| ==> IsDigit(s[k])
  }

  function DigitChar(d: nat): (c: char)
    requires d < 10
    ensures IsDigit(c)
  {
    (d + '0' as int) as char
  }

  function DigitValue(c: char): (d: nat)
    requires IsDigit(c)
    ensures d < 10
    ensures DigitChar(d) == c
  {
    c as int - '0' as int
  }

  /** `n // 10`, by repeated subtraction of ten. */
  function Quot10(n: nat): (q: nat)
    ensures 10 * q <= n < 10 * q + 10
    decreases n
  {
    if n < 10 then 0 else 1 + Quot10(n - 10)
  }

  /** `n % 10`: the last decimal digit of `n`. */
  function Rem10(n: nat): (r: nat)
    ensures r < 10 && n == 10 * Quot10(n) + r
  {
    n - 10 * Quot10(n)
  }

  /** `Quot10` and `Rem10` are integer division and remainder by ten. */
  lemma DivisionByTen(n: nat)
    ensures Quot10(n) == n / 10 && Rem10(n) == n % 10
  {
  }

  /** Digits of `n`, most significant first. */
  function NatToDigits(n: nat): string
    decreases n
  {
    if n < 10 then [DigitChar(n)] else NatToDigits(Quot10(n)) + [DigitChar(Rem10(n))]
  }

  /** The rendering of a natural is a non-empty digit string with no leading zero unless `n == 0`. */
  lemma {:induction false} NatToDigitsShape(n: nat)
    ensures |NatToDigits(n)| >= 1 && AllDigits(NatToDigits(n))
    ensures (NatToDigits(n)[0] == '0') == (n == 0)
    decreases n
  {
    if n >= 10 {
      NatToDigitsShape(Quot10(n));
      assert NatToDigits(n)[0] == NatToDigits(Quot10(n))[0];
    }
  }

  /** Value of a string of decimal digits, most significant first. */
  function ParseDigits(s: string): nat
    requires AllDigits(s)
  {
    if s == [] then 0 else ParseDigits(s[..|s| - 1]) * 10 + DigitValue(s[|s| - 1])
  }

  /** Python's `str(i)` for an integer `i`. */
  function IntToString(i: int): string {
    if i < 0 then "-" + NatToDigits(-i) else NatToDigits(i)
  }

  /** An optional minus sign followed by at least one digit. */
  predicate IsIntLiteral(s: string) {
    |s| >= 1 && AllDigits(s[1..]) && (IsDigit(s[0]) || (s[0] == '-' && |s| >= 2))
  }

  /** Python's `int(s)` restricted to integer literals. */
  function ParseInt(s: string): int
    requires IsIntLiteral(s)
  {
    if s[0] == '-' then -(ParseDigits(s[1..]) as int) else ParseDigits(s)
  }

  lemma {:induction false} ParseNatToDigits(n: nat)
    ensures AllDigits(NatToDigits(n)) && ParseDigits(NatToDigits(n)) == n
    decreases n
  {
    NatToDigitsShape(n);
    var s := NatToDigits(n);
    if n < 10 {
      assert s[..|s| - 1] == [];
    } else {
      ParseNatToDigits(Quot10(n));
      assert s[..|s| - 1] == NatToDigits(Quot10(n));
    }
  }

  /** A rendered integer is an integer literal, negative exactly when the integer is, and reads back as the integer. */
  lemma ParseIntToString(i: int)
    ensures IsIntLiteral(IntToString(i))
    ensures (IntToString(i)[0] == '-') == (i < 0)
    ensures ParseInt(IntToString(i)) == i
  {
    var s := IntToString(i);
    if i < 0 {
      NatToDigitsShape(-i);
      assert s[1..] == NatToDigits(-i);
      ParseNatToDigits(-i);
    } else {
      NatToDigitsShape(i);
      assert s[1..] == NatToDigits(i)[1..];
      ParseNatToDigits(i);
    }
  }

  /** Distinct integers render as distinct strings. */
  lemma IntToStringInjective(i: int, j: int)
    requires IntToString(i) == IntToString(j)
    ensures i == j
  {
    ParseIntToString(i);
    ParseIntToString(j);
  }
}
