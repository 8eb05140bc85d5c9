/** Multiplication as repeated addition, for sums the solver should not have to treat as products. */
module Sums {

  function Times(n: nat, x: int): int {
    if n == 0 then 0 else Times(n - 1, x) + x
  }

  lemma {:induction false} TimesIsProduct(n: nat, x: int)
    ensures Times(n, x) == n * x
  {
    if n > 0 {
      TimesIsProduct(n - 1, x);
    }
  }

  lemma {:induction false} TimesZero(n: nat)
    ensures Times(n, 0) == 0
  {
    if n > 0 {
      TimesZero(n - 1);
    }
  }

  lemma {:induction false} TimesMinus(n: nat, x: int, y: int)
    ensures Times(n, x) - Times(n, y) == Times(n, x - y)
  {
    if n > 0 {
      TimesMinus(n - 1, x, y);
    }
  }

  lemma {:induction false} TimesSign(n: nat, x: int)
    ensures x >= 0 ==> Times(n, x) >= 0
    ensures x <= 0 ==> Times(n, x) <= 0
    ensures Times(n, x) == 0 <==> n == 0 || x == 0
  {
    if n > 0 {
      TimesSign(n - 1, x);
    }
  }
}
