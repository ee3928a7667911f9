/** Decimal digit strings: zero-padded formatting, as done by the `%Y`, `%m`
    and `%d` directives of `strftime`, and reading a digit string back as an
    integer, as done by Python's `int(...)` on such a string. */
module Decimal {

  function Pow10(k: nat): (p: nat)
    ensures p >= 1
  {
    if k == 0 then 1 else 10 * Pow10(k - 1)
  }

  predicate IsDigit(c: char) {
    '0' <= c <= '9'
  }

  predicate AllDigits(s: string) {
    forall i :: 0 <= i < |s| ==> IsDigit(s[i])
  }

  function DigitChar(v: nat): (c: char)
    requires v < 10
    ensures IsDigit(c) && c as int - '0' as int == v
  {
    ('0' as int + v) as char
  }

  function DigitValue(c: char): (v: nat)
    requires IsDigit(c)
    ensures v < 10
  {
    c as int - '0' as int
  }

  /** The last `width` decimal digits of `n`, padded on the left with '0'. */
  function PadDigits(n: nat, width: nat): (s: string)
    ensures |s| == width && AllDigits(s)
  {
    if width == 0 then "" else PadDigits(n / 10, width - 1) + [DigitChar(n % 10)]
  }

  /** The value of a string of decimal digits (leading zeros allowed). */
  function ParseDecimal(s: string): (n: nat)
    requires AllDigits(s)
    ensures n < Pow10(|s|)
  {
    if s == [] then 0
    else ParseDecimal(s[..|s| - 1]) * 10 + DigitValue(s[|s| - 1])
  }

  /** Reading back a padded rendering gives the number, when it fits. */
  lemma {:induction false} ParsePadDigits(n: nat, width: nat)
    requires n < Pow10(width)
    ensures ParseDecimal(PadDigits(n, width)) == n
  {
    if width > 0 {
      var s := PadDigits(n, width);
      assert s[..|s| - 1] == PadDigits(n / 10, width - 1);
      ParsePadDigits(n / 10, width - 1);
    }
  }

  lemma AllDigitsConcat(s: string, t: string)
    requires AllDigits(s) && AllDigits(t)
    ensures AllDigits(s + t)
  {
    forall i | 0 <= i < |s + t| ensures IsDigit((s + t)[i]) {
      if i < |s| { assert (s + t)[i] == s[i]; } else { assert (s + t)[i] == t[i - |s|]; }
    }
  }

  /** Reading a concatenation: the left part is shifted by the length of the right part. */
  lemma {:induction false} ParseConcat(s: string, t: string)
    requires AllDigits(s) && AllDigits(t)
    ensures AllDigits(s + t)
    ensures ParseDecimal(s + t) == ParseDecimal(s) * Pow10(|t|) + ParseDecimal(t)
  {
    AllDigitsConcat(s, t);
    if t != [] {
      var t' := t[..|t| - 1];
      AllDigitsConcat(s, t');
      ParseConcat(s, t');
      ParseLast(s + t, s + t', t[|t| - 1]);
      ParseLast(t, t', t[|t| - 1]);
      ShiftDigit(ParseDecimal(s), Pow10(|t'|), ParseDecimal(t'), DigitValue(t[|t| - 1]));
    } else {
      assert s + t == s;
    }
  }

  /** The value of a digit string ending in `c` after the digits `init`. */
  lemma ParseLast(u: string, init: string, c: char)
    requires AllDigits(u) && u != [] && init == u[..|u| - 1] && c == u[|u| - 1]
    ensures AllDigits(init) && IsDigit(c)
    ensures ParseDecimal(u) == ParseDecimal(init) * 10 + DigitValue(c)
    ensures Pow10(|u|) == 10 * Pow10(|init|)
  {
  }

  lemma ShiftDigit(a: int, p: int, b: int, d: int)
    ensures (a * p + b) * 10 + d == a * (10 * p) + (b * 10 + d)
  {
  }
}
