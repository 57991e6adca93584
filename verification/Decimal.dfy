// Decimal numerals: printing and reading back.
module Decimal {
  import opened LineScan

  // /^\d+$/
  predicate IsNumeral(s: string) {
    s != "" && forall k :: 0 <= k < |s| ==> IsDigit(s[k])
  }

  function Value(s: string): nat
    requires forall k :: 0 <= k < |s| ==> IsDigit(s[k])
  {
    if s == "" then 0
    else
      assert IsDigit(s[|s| - 1]);
      Value(s[..|s| - 1]) * 10 + (s[|s| - 1] as int - '0' as int)
  }

  function Digits(n: nat): (s: string)
    ensures IsNumeral(s)
  {
    (if n < 10 then "" else Digits(n / 10)) + [('0' as int + n % 10) as char]
  }

  lemma {:induction false} DigitsReadBack(n: nat)
    ensures Value(Digits(n)) == n
  {
    var s := Digits(n);
    assert s[|s| - 1] as int - '0' as int == n % 10;
    if n < 10 {
      assert s[..|s| - 1] == "";
    } else {
      DigitsReadBack(n / 10);
      assert s[..|s| - 1] == Digits(n / 10);
    }
  }
}
