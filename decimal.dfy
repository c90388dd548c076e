/**
 * The decimal conversions the front end applies to the stored streak:
 * `Number.prototype.toString()` when saving and `parseInt(s, 10)` when loading,
 * the latter on strings made only of decimal digits.
 */
module Decimal {
  import opened Text

  predicate IsDecimal(s: string) {
    forall i :: 0 <= i < |s| ==> IsDigit(s[i])
  }

  function DigitChar(d: nat): (c: char)
    requires d < 10
    ensures IsDigit(c) && c as int - '0' as int == d
  {
    ('0' as int + d) as char
  }

  function DigitValue(c: char): (d: nat)
    requires IsDigit(c)
    ensures d < 10 && DigitChar(d) == c
  {
    c as int - '0' as int
  }

  /** `n.toString()`: the shortest decimal spelling of `n`, without leading zeros. */
  function ToDecimal(n: nat): (s: string)
    ensures |s| >= 1 && IsDecimal(s)
    ensures n == 0 ==> s == "0"
    ensures n > 0 ==> s[0] != '0'
    decreases n
  {
    if n < 10 then [DigitChar(n)] else ToDecimal(n / 10) + [DigitChar(n % 10)]
  }

  /**
   * `parseInt(s, 10)` on a non-empty string of decimal digits. On the empty string `parseInt`
   * gives NaN where this gives 0; the app never parses it, since an empty stored value is
   * falsy and skipped (see `LoadedStreak`).
   */
  function ParseDecimal(s: string): (n: nat)
    requires IsDecimal(s)
    ensures n == 0 <==> forall i :: 0 <= i < |s| ==> s[i] == '0'
  {
    if s == [] then 0
    else
      var init := s[..|s| - 1];
      assert forall i :: 0 <= i < |init| ==> init[i] == s[i];
      ParseDecimal(init) * 10 + DigitValue(s[|s| - 1])
  }

  /** Saving a number and parsing it back gives the number again. */
  lemma {:induction false} ParseToDecimal(n: nat)
    ensures ParseDecimal(ToDecimal(n)) == n
    decreases n
  {
    var s := ToDecimal(n);
    if n >= 10 {
      ParseToDecimal(n / 10);
      assert s[..|s| - 1] == ToDecimal(n / 10);
    }
  }
}
