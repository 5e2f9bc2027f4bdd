/** Facts about natural-number division that the solver does not find on its own. */
module Arith {
  lemma DivBounds(x: nat, d: nat)
    requires d > 0
    ensures (x / d) * d <= x < (x / d + 1) * d
  {
  }

  /** `x / d < c` whenever `x < c * d`. */
  lemma DivBelow(x: nat, d: nat, c: nat)
    requires d > 0 && x < c * d
    ensures x / d < c
  {
    DivBounds(x, d);
    if x / d >= c {
      MulMonotone(c, x / d, d);
      assert false;
    }
  }

  /** `x / d >= 1` whenever `x >= d`. */
  lemma DivAtLeastOne(x: nat, d: nat)
    requires d > 0 && x >= d
    ensures x / d >= 1
  {
    DivBounds(x, d);
  }

  lemma MulMonotone(a: nat, b: nat, d: nat)
    requires a <= b
    ensures a * d <= b * d
  {
  }

  lemma DivUnique(x: nat, d: nat, q: nat)
    requires d > 0 && q * d <= x < (q + 1) * d
    ensures x / d == q
  {
    DivBounds(x, d);
    var r := x / d;
    if r < q {
      MulMonotone(r + 1, q, d);
      assert false;
    } else if q < r {
      MulMonotone(q + 1, r, d);
      assert false;
    }
  }

  lemma StrictMul(a: nat, b: nat, d: nat)
    requires a < b && d > 0
    ensures d * a < d * b
  {
  }
}
