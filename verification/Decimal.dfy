/** Natural numbers in decimal, as hunk headers and SKIP notes write them. */
module Decimal {

  predicate IsDigit(c: char) {
    '0' <= c <= '9'
  }

  ghost predicate AllDigits(s: string) {
    forall i | 0 <= i < |s| :: IsDigit(s[i])
  }

  /** Python's `str(n)`. */
  function Print(n: nat): (s: string)
    ensures s != "" && AllDigits(s) && (s[0] == '0' ==> n == 0 && |s| == 1)
  {
    if n < 10 then ["0123456789"[n]] else Print(n / 10) + ["0123456789"[n % 10]]
  }

  /** Python's `int(s)` on ASCII digits. */
  function Parse(s: string): nat
    requires forall i | 0 <= i < |s| :: IsDigit(s[i])
  {
    if s == "" then 0 else Parse(s[..|s| - 1]) * 10 + DigitValue(s[|s| - 1])
  }

  function DigitValue(c: char): nat
    requires IsDigit(c)
  {
    c as int - '0' as int
  }

  lemma {:induction false} ParsePrint(n: nat)
    ensures Parse(Print(n)) == n
  {
    if n < 10 {
    } else {
      ParsePrint(n / 10);
      LastDigit(Print(n / 10), "0123456789"[n % 10]);
    }
  }

  lemma DigitsAreTen(c: char)
    ensures IsDigit(c) <==> c in "0123456789"
    ensures forall i: nat | i < 10 :: IsDigit("0123456789"[i]) && DigitValue("0123456789"[i]) == i
  {
  }

  lemma LastDigit(s: string, c: char)
    requires AllDigits(s) && IsDigit(c)
    ensures AllDigits(s + [c]) && Parse(s + [c]) == Parse(s) * 10 + DigitValue(c)
  {
    assert (s + [c])[..|s|] == s;
  }

  /** The longest prefix of digits. */
  function Digits(s: string): (d: string)
    ensures d <= s && AllDigits(d)
    ensures |d| < |s| ==> !IsDigit(s[|d|])
  {
    if s != "" && IsDigit(s[0]) then [s[0]] + Digits(s[1..]) else ""
  }

  lemma {:induction false} DigitsOfConcat(d: string, rest: string)
    requires AllDigits(d) && (rest == "" || !IsDigit(rest[0]))
    ensures Digits(d + rest) == d
  {
    if d != "" {
      assert (d + rest)[1..] == d[1..] + rest;
      DigitsOfConcat(d[1..], rest);
    } else {
      assert d + rest == rest;
    }
  }
}
