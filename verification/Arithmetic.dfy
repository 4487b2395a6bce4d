/** Products as repeated sums. */
module Arithmetic {

  /** `n` times `f`. */
  function Times(n: nat, f: nat): nat {
    if n == 0 then 0 else Times(n - 1, f) + f
  }

  lemma {:induction false} TimesIsProduct(n: nat, f: nat)
    ensures Times(n, f) == n * f
  {
    if n > 0 {
      TimesIsProduct(n - 1, f);
      assert n * f == (n - 1) * f + f;
    }
  }

  lemma {:induction false} TimesReflects(m: nat, n: nat, f: nat)
    requires 0 < f && Times(m, f) <= Times(n, f)
    ensures m <= n
  {
    if n < m {
      TimesIsMonotonic(n + 1, m, f);
    }
  }

  lemma {:induction false} TimesIsMonotonic(m: nat, n: nat, f: nat)
    requires m <= n
    ensures Times(m, f) <= Times(n, f)
  {
    if m < n {
      TimesIsMonotonic(m, n - 1, f);
    }
  }
}
