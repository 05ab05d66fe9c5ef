/** Two functions on integers that the models share. */
module Arithmetic {

  function Max(a: int, b: int): int { if a > b then a else b }

  function Pow2(k: nat): nat { if k == 0 then 1 else 2 * Pow2(k - 1) }

  /** The greater of the two. */
  lemma MaxIs(a: int, b: int)
    ensures Max(a, b) in {a, b} && Max(a, b) >= a && Max(a, b) >= b
  {
  }

  /** The power of two: one factor for each unit. */
  lemma {:induction false} Pow2Adds(j: nat, k: nat)
    ensures Pow2(0) == 1 && Pow2(1) == 2 && Pow2(j + k) == Pow2(j) * Pow2(k)
    decreases k
  {
    if k > 0 {
      Pow2Adds(j, k - 1);
      assert Pow2(j + k) == 2 * Pow2(j + k - 1) && Pow2(k) == 2 * Pow2(k - 1);
    }
  }
}
