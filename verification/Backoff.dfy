/** The retry delay of the registry client: doubled after each failure, up to a cap. */
module Backoff {

  function Doubled(backoff: int, cap: int): int {
    if backoff * 2 > cap then cap else backoff * 2
  }

  /** The delay after `failures` earlier ones in a row. */
  function Delay(base: int, cap: int, failures: nat): int {
    if failures == 0 then base else Doubled(Delay(base, cap, failures - 1), cap)
  }

  function Pow2(k: nat): int {
    if k == 0 then 1 else 2 * Pow2(k - 1)
  }

  function Min(a: int, b: int): int {
    if a <= b then a else b
  }

  /** From the second delay on it is base * 2^k or the cap; the first is `base` whatever the cap. */
  lemma {:induction false} DelayIsCappedPower(base: int, cap: int, k: nat)
    requires base > 0 && cap > 0
    ensures Delay(base, cap, k) == if k == 0 then base else Min(base * Pow2(k), cap)
  {
    if k == 0 {
    } else if k == 1 {
      assert Pow2(1) == 2 * Pow2(0);
      assert Delay(base, cap, 1) == Doubled(Delay(base, cap, 0), cap);
    } else {
      DelayIsCappedPower(base, cap, k - 1);
      DoubledProduct(base, Pow2(k - 1));
      PowerPositive(k - 1);
    }
  }

  lemma {:induction false} DoubledProduct(a: int, b: int)
    ensures a * (2 * b) == a * b * 2
  {}

  lemma {:induction false} PowerPositive(k: nat)
    ensures Pow2(k) > 0
  {
    if k > 0 {
      PowerPositive(k - 1);
    }
  }
}
