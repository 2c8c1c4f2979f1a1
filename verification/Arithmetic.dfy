// Facts about Euclidean division by a positive divisor.
module Arithmetic {
  lemma {:induction false} MulMonotone(n: int, x: int, y: int)
    requires n >= 0 && x <= y
    ensures n * x <= n * y
    decreases y - x
  {
    if x < y {
      MulMonotone(n, x, y - 1);
      assert n * y == n * (y - 1) + n;
    }
  }

  lemma QuotientIs(a: int, n: int, q: int)
    requires n >= 1 && n * q <= a < n * q + n
    ensures a / n == q
  {
    var r := a / n;
    assert a == n * r + a % n;
    assert n * (r + 1) == n * r + n;
    assert n * (q + 1) == n * q + n;
    if r < q {
      MulMonotone(n, r + 1, q);
    } else if r > q {
      MulMonotone(n, q + 1, r);
    }
  }

  lemma QuotientMonotone(a: int, b: int, n: int)
    requires n >= 1 && a <= b
    ensures a / n <= b / n
  {
    var x, y := a / n, b / n;
    assert a == n * x + a % n && b == n * y + b % n;
    assert n * (y + 1) == n * y + n;
    if y < x {
      MulMonotone(n, y + 1, x);
    }
  }

  lemma QuotientStep(a: int, n: int)
    requires n >= 1
    ensures (a + n) / n == a / n + 1
  {
    var q := a / n;
    assert a == n * q + a % n;
    assert n * (q + 1) == n * q + n;
    QuotientIs(a + n, n, q + 1);
  }
}
