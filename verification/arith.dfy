/** Facts about integer multiplication and Euclidean division used by the
    row-major cell addressing and by the chunk count. */
module Arith {
  /** Euclidean division has one quotient and one remainder. */
  lemma DivModUnique(k: int, w: int, q: int, r: int)
    requires 0 <= r < w && k == q * w + r
    ensures k / w == q && k % w == r
  {
    var q', r' := k / w, k % w;
    assert k == q' * w + r';
    if q' > q {
      MulMonotone(q' - q, 1, w);
      assert false;
    } else if q' < q {
      MulMonotone(q - q', 1, w);
      assert false;
    }
  }

  lemma MulMonotone(a: int, b: int, w: int)
    requires a >= b && w > 0
    ensures a * w >= b * w
  {
    assert a * w - b * w == (a - b) * w;
  }
}
