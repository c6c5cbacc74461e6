/** Whole multiples by repeated addition, and their bridge to products and quotients. */
module Multiples {
  function Times(turns: nat, d: nat): nat {
    if turns == 0 then 0 else Times(turns - 1, d) + d
  }

  lemma {:induction false} TimesIsProduct(turns: nat, d: nat)
    ensures Times(turns, d) == turns * d
  {
    if turns > 0 {
      TimesIsProduct(turns - 1, d);
    }
  }

  lemma {:induction false} Divided(n: nat, d: nat) returns (turns: nat, rest: nat)
    requires 0 < d
    ensures turns == n / d && rest < d && n == Times(turns, d) + rest
  {
    turns, rest := n / d, n % d;
    TimesIsProduct(turns, d);
  }

  lemma {:induction false} QuotientBound(k: nat, d: nat, n: nat)
    requires 0 < d && Times(k, d) <= n
    ensures k <= n / d
  {
    var q, rest := Divided(n, d);
    TimesGrows(q + 1, k, d);
  }

  lemma {:induction false} TimesGrows(a: nat, b: nat, d: nat)
    ensures a <= b ==> Times(a, d) <= Times(b, d)
  {
    if a < b {
      TimesGrows(a, b - 1, d);
    }
  }
}
