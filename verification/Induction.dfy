/** Induction along a run. */
module Induction {

  /** What holds at one place of a run, and passes from each place to the next, holds later too. */
  lemma {:induction false} Carries(p: nat -> bool, i: nat, n: nat)
    requires i <= n && p(i) && forall k: nat | i <= k < n && p(k) :: p(k + 1)
    ensures p(n)
    decreases n
  {
    if i < n {
      Carries(p, i, n - 1);
    }
  }
}
