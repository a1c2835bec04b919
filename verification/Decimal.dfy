/** Decimal text: how amounts and ledger numbers are written and read back. */
module Decimal {
  predicate IsDigit(c: char) {
    '0' <= c <= '9'
  }

  /** The pattern `^\d+$`. */
  predicate IsDigits(s: string) {
    s != "" && forall i :: 0 <= i < |s| ==> IsDigit(s[i])
  }

  type Digits = s: string | IsDigits(s) witness "0"

  function DigitChar(d: nat): (c: char)
    requires d < 10
    ensures IsDigit(c)
  {
    '0' + d as char
  }

  function DigitValue(c: char): (d: nat)
    requires IsDigit(c)
    ensures d < 10
  {
    (c as int) - ('0' as int)
  }

  /** The numeric value that a NUMERIC column or `BigInt` gives a digit string; leading zeros are allowed. */
  function Parse(s: Digits): nat
    decreases |s|
  {
    if |s| == 1 then DigitValue(s[0])
    else Parse(s[..|s| - 1]) * 10 + DigitValue(s[|s| - 1])
  }

  /** `String(n)` of a non-negative integer. */
  function Print(n: nat): (s: Digits)
    decreases n
  {
    if n < 10 then [DigitChar(n)]
    else Print(n / 10) + [DigitChar(n % 10)]
  }

  lemma {:induction false} PrintParses(n: nat)
    ensures Parse(Print(n)) == n
  {
    if n >= 10 {
      PrintParses(n / 10);
      var s := Print(n);
      assert s[..|s| - 1] == Print(n / 10);
    }
  }

  /** Only zero prints as "0", so the source's textual test for a cleared balance is a test for zero on printed
      amounts. */
  lemma PrintZero(n: nat)
    ensures Print(n) == "0" <==> n == 0
  {
    PrintParses(n);
    assert Parse("0") == 0;
  }

  /** A further digit shifts the number by one decimal place and adds what the digit is worth. */
  lemma {:induction false} ParseShifts(s: Digits, c: char)
    requires IsDigit(c)
    ensures IsDigits(s + [c]) && Parse(s + [c]) == 10 * Parse(s) + (c as int - 48)
    ensures IsDigits([c]) && Parse([c]) == c as int - 48
  {
    var all := s + [c];
    assert all[..|all| - 1] == s && all[|all| - 1] == c;
    assert forall i :: 0 <= i < |all| ==> IsDigit(all[i]) by {
      assert forall i :: 0 <= i < |s| ==> all[i] == s[i];
    }
  }
}
