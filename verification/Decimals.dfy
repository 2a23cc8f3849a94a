/** `strconv.Itoa` on natural numbers. */
module Decimals {
  function Decimal(n: nat): string
  {
    (if n < 10 then "" else Decimal(n / 10)) + ["0123456789"[n % 10]]
  }

  // What a text of digits stands for.
  function Value(s: string): int
  {
    if s == "" then 0 else 10 * Value(s[..|s| - 1]) + (s[|s| - 1] as int - '0' as int)
  }

  lemma {:induction false} DecimalStandsFor(n: nat)
    ensures Value(Decimal(n)) == n
  {
    var s := Decimal(n);
    DigitIs(n % 10);
    if n < 10 {
      assert s[..|s| - 1] == "";
    } else {
      DecimalStandsFor(n / 10);
      assert s[..|s| - 1] == Decimal(n / 10);
    }
  }

  lemma {:induction false} DigitIs(k: nat)
    requires k < 10
    ensures "0123456789"[k] as int - '0' as int == k
  {
  }
}
