/** Decimal rendering of integers, as Swift's string interpolation `"\(n)"` produces it. */
module Text {

  predicate IsDigit(c: char) { '0' <= c <= '9' }

  predicate AllDigits(s: string) { forall i :: 0 <= i < |s| ==> IsDigit(s[i]) }

  function DigitChar(d: int): (c: char)
    requires 0 <= d <= 9
    ensures IsDigit(c)
  {
    (48 + d) as char
  }

  function DigitValue(c: char): (d: int)
    requires IsDigit(c)
    ensures 0 <= d <= 9 && DigitChar(d) == c
  {
    c as int - 48
  }

  /** `"\(n)"` for a non-negative integer: its decimal digits, without leading zeros. */
  function Decimal(n: nat): (r: string)
    ensures 1 <= |r| && AllDigits(r)
    decreases n
  {
    if n < 10 then [DigitChar(n)] else Decimal(n / 10) + [DigitChar(n % 10)]
  }

  /** The value of a string of decimal digits. */
  function ParseDecimal(s: string): nat
    requires AllDigits(s)
  {
    if s == [] then 0 else 10 * ParseDecimal(s[..|s| - 1]) + DigitValue(s[|s| - 1])
  }

  /** Rendering a number and reading it back gives the number. */
  lemma {:induction false} DecimalRoundTrip(n: nat)
    ensures ParseDecimal(Decimal(n)) == n
    decreases n
  {
    var r := Decimal(n);
    if n >= 10 {
      DecimalRoundTrip(n / 10);
      assert r[..|r| - 1] == Decimal(n / 10);
    }
  }

  /** Distinct numbers render differently. */
  lemma DecimalInjective(a: nat, b: nat)
    requires Decimal(a) == Decimal(b)
    ensures a == b
  {
    DecimalRoundTrip(a);
    DecimalRoundTrip(b);
  }

  /** The number of digits a string starts with. */
  function LeadingDigits(s: string): (n: nat)
    ensures n <= |s|
  {
    if s == [] || !IsDigit(s[0]) then 0 else 1 + LeadingDigits(s[1..])
  }

  lemma {:induction false} LeadingDigitsOfConcat(d: string, s: string)
    requires AllDigits(d) && (s == [] || !IsDigit(s[0]))
    ensures LeadingDigits(d + s) == |d|
  {
    if d != [] {
      assert (d + s)[1..] == d[1..] + s;
      LeadingDigitsOfConcat(d[1..], s);
    } else {
      assert d + s == s;
    }
  }

  /** A run of digits followed by a text that starts with a non-digit splits uniquely there. */
  lemma DigitsPrefixUnique(x: string, s: string, y: string, t: string)
    requires AllDigits(x) && AllDigits(y)
    requires (s == [] || !IsDigit(s[0])) && (t == [] || !IsDigit(t[0]))
    requires x + s == y + t
    ensures x == y && s == t
  {
    LeadingDigitsOfConcat(x, s);
    LeadingDigitsOfConcat(y, t);
    assert x == (x + s)[..|x|];
    assert y == (y + t)[..|y|];
    assert s == (x + s)[|x|..];
    assert t == (y + t)[|y|..];
  }

  /** A number's digits followed by a text that starts with a non-digit split uniquely there. */
  lemma DecimalPrefixUnique(a: nat, s: string, b: nat, t: string)
    requires (s == [] || !IsDigit(s[0])) && (t == [] || !IsDigit(t[0]))
    requires Decimal(a) + s == Decimal(b) + t
    ensures a == b && s == t
  {
    DigitsPrefixUnique(Decimal(a), s, Decimal(b), t);
    DecimalInjective(a, b);
  }
}
