/** Integer division of durations by a positive step. */
module Quotients {

  lemma MulLe(a: int, b: int, d: int)
    requires a <= b && d >= 0
    ensures a * d <= b * d
  {
    assert (b - a) * d >= 0;
  }

  lemma DivIs(x: int, d: int)
    requires d >= 1
    ensures (x / d) * d <= x < (x / d) * d + d
  {
    assert x == (x / d) * d + x % d;
  }

  lemma DivAtLeast(x: int, q: int, d: int)
    requires d >= 1
    ensures x / d >= q <==> q * d <= x
  {
    var p := x / d;
    DivIs(x, d);
    if p >= q {
      MulLe(q, p, d);
    } else {
      MulLe(p + 1, q, d);
      assert (p + 1) * d == p * d + d;
    }
  }

  lemma DivMonotone(x: int, y: int, d: int)
    requires x <= y && d >= 1
    ensures x / d <= y / d
  {
    DivIs(x, d);
    DivAtLeast(y, x / d, d);
  }

  lemma DivAdds(x: int, y: int, d: int)
    requires d >= 1
    ensures x / d + y / d <= (x + y) / d
  {
    var q, r := x / d, y / d;
    DivIs(x, d);
    DivIs(y, d);
    assert (q + r) * d == q * d + r * d;
    DivAtLeast(x + y, q + r, d);
  }

  lemma DivPlusOne(x: int, d: int)
    requires d >= 1
    ensures (x + d) / d == x / d + 1
  {
    var q := x / d;
    DivIs(x, d);
    assert (q + 1) * d == q * d + d;
    assert (q + 2) * d == q * d + 2 * d;
    DivAtLeast(x + d, q + 1, d);
    DivAtLeast(x + d, q + 2, d);
  }
}
