/** Facts about multiplication and Euclidean division on naturals used by the rounding proofs. */
module Arithmetic {
  lemma MulAtLeast(d: nat, b: nat, a: nat)
    requires b >= a
    ensures d * b >= d * a
  {
    assert d * b == d * a + d * (b - a);
  }

  /** The quotient is determined by any decomposition `x == d * q + r` with `0 <= r < d`. */
  lemma DivUnique(x: int, d: int, q: int, r: int)
    requires d > 0 && 0 <= r < d && x == d * q + r
    ensures x / d == q
  {
    var q', r' := x / d, x % d;
    assert x == d * q' + r' && 0 <= r' < d;
    if q' > q {
      assert d * q' == d * q + d * (q' - q);
      MulAtLeast(d, q' - q, 1);
    } else if q' < q {
      assert d * q == d * q' + d * (q - q');
      MulAtLeast(d, q - q', 1);
    }
  }

  /** Floor division by a positive divisor is monotone. */
  lemma DivMonotone(x: nat, y: nat, d: nat)
    requires d > 0 && x <= y
    ensures x / d <= y / d
  {
    var p, q := x / d, y / d;
    assert x == d * p + x % d && y == d * q + y % d;
    if p > q {
      MulAtLeast(d, p, q + 1);
    }
  }
}
