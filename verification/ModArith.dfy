/** Facts about `%` that the solver does not find by itself. */
module ModArith {

  lemma DivModUnique(a: int, q: int, r: int, m: int)
    requires m > 0 && 0 <= r < m && a == q * m + r
    ensures a / m == q && a % m == r
  {
    var d := a / m - q;
    assert d * m == (a / m) * m - q * m;
    assert a == (a / m) * m + a % m;
  }

  lemma ModShift(x: int, k: int, m: int)
    requires m > 0
    ensures (x + k * m) % m == x % m
  {
    var q, r := x / m, x % m;
    assert x + k * m == (q + k) * m + r;
    DivModUnique(x + k * m, q + k, r, m);
  }

  lemma MulModLeft(a: int, b: int, m: int)
    requires m > 0
    ensures ((a % m) * b) % m == (a * b) % m
  {
    var q, r := a / m, a % m;
    assert a == q * m + r;
    assert a * b == r * b + (q * b) * m by {
      assert (q * m + r) * b == q * m * b + r * b;
      assert q * m * b == (q * b) * m;
    }
    ModShift(r * b, q * b, m);
  }

  // Multiplying by an inverse undoes the multiplication.
  lemma MulInverseCancels(x: nat, a: int, b: int, m: int)
    requires m > 1 && x < m && (a * b) % m == 1
    ensures (((x * a) % m) * b) % m == x
  {
    MulModLeft(x * a, b, m);
    var k := (a * b) / m;
    assert a * b == k * m + 1;
    assert (x * a) * b == x * (a * b);
    assert x * (k * m + 1) == x + (x * k) * m by {
      assert x * (k * m) == (x * k) * m;
    }
    ModShift(x, x * k, m);
    DivModUnique(x, 0, x, m);
  }
}
