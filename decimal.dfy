/** Decimal text of natural numbers and integers, as `absl::StrCat` writes them, and its inverse. */
module Decimal {

  predicate IsDigit(c: char) { '0' <= c <= '9' }

  predicate AllDigits(s: string) { forall i | 0 <= i < |s| :: IsDigit(s[i]) }

  function DigitChar(d: nat): (c: char)
    requires d < 10
    ensures IsDigit(c) && c as int - '0' as int == d
  {
    ('0' as int + d) as char
  }

  /** The shortest decimal text of `n`: at least one digit, digits only. */
  function NatToString(n: nat): (s: string)
    ensures |s| >= 1 && AllDigits(s)
  {
    if n < 10 then [DigitChar(n)] else NatToString(n / 10) + [DigitChar(n % 10)]
  }

  /** The number a string of decimal digits denotes (leading zeros allowed). */
  function DigitsValue(s: string): nat
    requires AllDigits(s)
  {
    if s == [] then 0 else 10 * DigitsValue(s[..|s| - 1]) + (s[|s| - 1] as int - '0' as int)
  }

  /** Reading back the text of `n` gives `n`. */
  lemma {:induction false} DigitsValueOfNatToString(n: nat)
    ensures DigitsValue(NatToString(n)) == n
  {
    if n >= 10 {
      var s := NatToString(n);
      assert s[..|s| - 1] == NatToString(n / 10);
      DigitsValueOfNatToString(n / 10);
    }
  }

  lemma NatToStringInjective(a: nat, b: nat)
    requires NatToString(a) == NatToString(b)
    ensures a == b
  {
    DigitsValueOfNatToString(a);
    DigitsValueOfNatToString(b);
  }

  /** The text of an integer: a '-' in front of the digits of a negative one. */
  function IntToString(v: int): (s: string)
    ensures |s| >= 1
    ensures forall i | 0 <= i < |s| :: IsDigit(s[i]) || (i == 0 && s[i] == '-')
  {
    if v < 0 then "-" + NatToString(-v) else NatToString(v)
  }

  /** Reads back the text `IntToString` writes. */
  function IntValue(s: string): int
    requires forall i | 0 <= i < |s| :: IsDigit(s[i]) || (i == 0 && s[i] == '-')
  {
    if |s| > 0 && s[0] == '-' then 0 - DigitsValue(s[1..]) as int else DigitsValue(s)
  }

  lemma IntValueOfIntToString(v: int)
    ensures IntValue(IntToString(v)) == v
  {
    if v < 0 {
      assert IntToString(v)[1..] == NatToString(-v);
      DigitsValueOfNatToString(-v);
    } else {
      DigitsValueOfNatToString(v);
    }
  }

  lemma IntToStringInjective(a: int, b: int)
    requires IntToString(a) == IntToString(b)
    ensures a == b
  {
    IntValueOfIntToString(a);
    IntValueOfIntToString(b);
  }
}
