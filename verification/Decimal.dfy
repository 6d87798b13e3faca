/** Decimal printing and reading of integers, digit by digit, as Go's strconv does it. */
module Decimal {
  predicate IsDigit(c: char) {
    '0' <= c <= '9'
  }

  function Digit(d: nat): (c: char)
    requires d < 10
    ensures IsDigit(c)
  {
    '0' + d as char
  }

  function DigitValue(c: char): (d: nat)
    requires IsDigit(c)
    ensures d < 10
  {
    c as int - '0' as int
  }

  predicate AllDigits(s: string) {
    forall i :: 0 <= i < |s| ==> IsDigit(s[i])
  }

  function PrintNat(n: nat): (s: string)
    ensures s != [] && AllDigits(s)
  {
    if n < 10 then [Digit(n)] else PrintNat(n / 10) + [Digit(n % 10)]
  }

  function ReadNat(s: string): nat
    requires AllDigits(s)
  {
    if s == [] then 0 else 10 * ReadNat(s[..|s| - 1]) + DigitValue(s[|s| - 1])
  }

  lemma {:induction false} ReadPrinted(n: nat)
    ensures ReadNat(PrintNat(n)) == n
  {
    if n >= 10 {
      ReadPrinted(n / 10);
      var s := PrintNat(n);
      assert s[..|s| - 1] == PrintNat(n / 10);
    }
  }

  /** `strconv.Itoa`. */
  function Itoa(n: int): string {
    if n < 0 then "-" + PrintNat(-n) else PrintNat(n)
  }

  /** No printed number has a leading zero, except zero itself. */
  lemma {:induction false} NoLeadingZero(n: nat)
    ensures n > 0 ==> PrintNat(n)[0] != '0'
    ensures n == 0 ==> PrintNat(n) == "0"
  {
    if n >= 10 {
      NoLeadingZero(n / 10);
    }
  }
}
