/** Decimal digit counts: the independent reading of a time bucket's precision by its length. */
module Digits {

  function Pow10(k: nat): (p: nat)
    ensures p >= 1
  {
    if k == 0 then 1 else 10 * Pow10(k - 1)
  }

  /** Number of decimal digits of `n` (zero has one digit). */
  function NumDigits(n: nat): (d: nat)
    ensures d >= 1
    ensures n < 10 <==> d == 1
  {
    if n < 10 then 1 else 1 + NumDigits(n / 10)
  }

  /** An `n` of `d` digits lies between 10^(d-1) and 10^d. */
  lemma {:induction false} DigitBounds(n: nat)
    requires n >= 1
    ensures Pow10(NumDigits(n) - 1) <= n < Pow10(NumDigits(n))
  {
    if n >= 10 {
      DigitBounds(n / 10);
    }
  }

  /** Conversely, every `n` in [10^k, 10^(k+1)) has exactly k + 1 digits. */
  lemma {:induction false} DigitsOfRange(n: nat, k: nat)
    requires Pow10(k) <= n < Pow10(k + 1)
    ensures NumDigits(n) == k + 1
  {
    if k > 0 {
      DigitsOfRange(n / 10, k - 1);
    }
  }

  /** The number of digits is k + 1 exactly when 10^k <= n < 10^(k+1). */
  lemma DigitsIff(n: nat, k: nat)
    requires n >= 1
    ensures NumDigits(n) == k + 1 <==> Pow10(k) <= n < Pow10(k + 1)
  {
    if NumDigits(n) == k + 1 {
      DigitBounds(n);
    }
    if Pow10(k) <= n < Pow10(k + 1) {
      DigitsOfRange(n, k);
    }
  }

  /** The powers of ten that bound the bucket ranges. */
  lemma Pow10Table()
    ensures Pow10(5) == 100000 && Pow10(6) == 1000000
    ensures Pow10(7) == 10000000 && Pow10(8) == 100000000
    ensures Pow10(9) == 1000000000 && Pow10(10) == 10000000000
    ensures Pow10(11) == 100000000000 && Pow10(12) == 1000000000000
  {
  }
}
