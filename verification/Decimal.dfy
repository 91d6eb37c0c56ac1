/** Decimal text of integers, as JavaScript prints them and ids travel. */
module Decimal {

  predicate IsDigit(c: char) {
    '0' <= c <= '9'
  }

  predicate AllDigits(s: string) {
    forall i :: 0 <= i < |s| ==> IsDigit(s[i])
  }

  /** Digits without a leading zero. */
  predicate IsDecimal(s: string) {
    s != "" && AllDigits(s) && (s[0] == '0' ==> |s| == 1)
  }

  /** An id as it travels: the decimal text of a Snowflake. */
  type IdText = s: string | IsDecimal(s) witness "0"

  function Digit(d: nat): (c: char)
    requires d < 10
    ensures IsDigit(c) && c as int == 48 + d
  {
    (48 + d) as char
  }

  function ToDecimal(n: nat): (s: IdText)
    ensures n != 0 ==> s[0] != '0'
  {
    if n < 10 then [Digit(n)] else ToDecimal(n / 10) + [Digit(n % 10)]
  }

  function FromDecimal(s: string): nat
    requires AllDigits(s)
  {
    if s == "" then 0 else FromDecimal(s[..|s| - 1]) * 10 + (s[|s| - 1] as int - 48)
  }

  /** Printing loses nothing, so distinct ids have distinct texts. */
  lemma {:induction false} PrintThenParse(n: nat)
    ensures FromDecimal(ToDecimal(n)) == n
  {
    if n >= 10 {
      PrintThenParse(n / 10);
      assert ToDecimal(n)[..|ToDecimal(n)| - 1] == ToDecimal(n / 10);
    }
  }

  function PrintInt(n: int): string {
    if n < 0 then "-" + ToDecimal(-n) else ToDecimal(n)
  }

  lemma ToDecimalInjective(m: nat, n: nat)
    requires ToDecimal(m) == ToDecimal(n)
    ensures m == n
  {
    PrintThenParse(m);
    PrintThenParse(n);
  }

  lemma SignShows(n: int)
    ensures PrintInt(n)[0] == '-' <==> n < 0
  {
    if n >= 0 {
      assert IsDigit(ToDecimal(n)[0]);
    }
  }

  /** Different integers print differently, also across signs. */
  lemma PrintIntInjective(a: int, b: int)
    requires PrintInt(a) == PrintInt(b)
    ensures a == b
  {
    SignShows(a);
    SignShows(b);
    if a < 0 {
      assert PrintInt(a)[1..] == ToDecimal(-a) && PrintInt(b)[1..] == ToDecimal(-b);
      ToDecimalInjective(-a, -b);
    } else {
      ToDecimalInjective(a, b);
    }
  }
}
