/** Products as repeated sums, which keep proofs about growing totals linear. */
module Multiples {

  /** The sum of n copies of k. */
  function Times(n: nat, k: nat): (p: nat)
    ensures n >= 1 && k >= 1 ==> p >= 1
  {
    if n == 0 then 0 else Times(n - 1, k) + k
  }

  lemma {:induction false} TimesProduct(n: nat, k: nat)
    ensures Times(n, k) == n * k
  {
    if n > 0 {
      TimesProduct(n - 1, k);
      assert (n - 1) * k + k == n * k;
    }
  }

  lemma {:induction false} TimesGrow(k: nat, a: nat, b: nat)
    requires a <= b
    ensures Times(a, k) <= Times(b, k)
    ensures a < b ==> Times(a, k) + k <= Times(b, k)
  {
    if a < b {
      TimesGrow(k, a, b - 1);
    }
  }
}
