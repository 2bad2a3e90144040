/** Sums of real amounts. */
module Sums {
  /** `amount(0) + .. + amount(n - 1)`. */
  function Total(n: nat, amount: nat -> real): real {
    if n == 0 then 0.0 else Total(n - 1, amount) + amount(n - 1)
  }

  lemma {:induction false} TotalCongruent(n: nat, f: nat -> real, g: nat -> real)
    requires forall k: nat :: k < n ==> f(k) == g(k)
    ensures Total(n, f) == Total(n, g)
  {
    if n > 0 {
      TotalCongruent(n - 1, f, g);
    }
  }
}
