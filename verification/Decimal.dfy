/** Decimal rendering of counters and lengths (`to_string`, `{suffix}`). */
module Decimal {

  const DIGITS := "0123456789"

  /** `is_ascii_digit`. */
  predicate IsDigit(c: char) {
    '0' <= c <= '9'
  }

  function DigitValue(c: char): nat
    requires IsDigit(c)
  {
    c as int - '0' as int
  }

  predicate AllDigits(s: string) {
    forall i :: 0 <= i < |s| ==> IsDigit(s[i])
  }

  function Show(n: nat): (s: string)
    ensures s != [] && AllDigits(s) && (n > 0 ==> s[0] != '0')
  {
    if n < 10 then [DIGITS[n]] else Show(n / 10) + [DIGITS[n % 10]]
  }

  function Value(s: string): nat
    requires AllDigits(s)
  {
    if s == [] then 0 else Value(s[..|s| - 1]) * 10 + DigitValue(s[|s| - 1])
  }

  /** A rendered number reads back, so different numbers are rendered differently. */
  lemma {:induction false} ValueOfShow(n: nat)
    ensures Value(Show(n)) == n
  {
    if n < 10 {
      assert Show(n)[..0] == [];
    } else {
      ValueOfShow(n / 10);
      var s := Show(n);
      assert s[..|s| - 1] == Show(n / 10);
    }
  }
}
