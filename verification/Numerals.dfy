/** Decimal printing without leading zeros. */
module Numerals {
  function Decimal(n: nat): (s: string)
    ensures s != "" && forall i :: 0 <= i < |s| ==> '0' <= s[i] <= '9'
  {
    var last := (48 + n % 10) as char;
    if n < 10 then [last] else Decimal(n / 10) + [last]
  }

  predicate AllDigits(s: string) {
    forall i :: 0 <= i < |s| ==> '0' <= s[i] <= '9'
  }

  /** The number a string of digits is. */
  function Number(s: string): nat
    requires AllDigits(s)
  {
    if s == "" then 0 else 10 * Number(s[..|s| - 1]) + (s[|s| - 1] as int - 48)
  }

  lemma {:induction false} DecimalIsNumber(n: nat)
    ensures Number(Decimal(n)) == n
  {
    var s := Decimal(n);
    if n < 10 {
      assert s[..0] == "";
    } else {
      DecimalIsNumber(n / 10);
      assert s[..|s| - 1] == Decimal(n / 10);
    }
  }
}
