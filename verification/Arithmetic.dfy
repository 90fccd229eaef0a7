/** Integer division. */
module Arithmetic {

  lemma DivMod(r: nat, d: nat)
    requires d > 0
    ensures r == r / d * d + r % d && 0 <= r % d < d
  {
  }

  /** Between two multiples of `d`, the quotient is that of the lower one. */
  lemma QuotientIs(r: nat, d: nat, q: nat)
    requires d > 0 && q * d <= r < q * d + d
    ensures r / d == q
  {
    DivMod(r, d);
    if r / d < q {
      MulStep(r / d, q, d);
    } else if q < r / d {
      MulStep(q, r / d, d);
    }
  }

  lemma MulStep(a: nat, b: nat, d: nat)
    requires a < b
    ensures a * d + d <= b * d
  {
    assert b * d == a * d + (b - a) * d;
    assert (b - a) * d == d + (b - a - 1) * d;
  }
}
