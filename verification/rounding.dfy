/** `Math.round((part / whole) * 100)` on exact rationals. */
module Rounding {

  /** The whole-number percentage nearest to `100 * part / whole`, halves
      rounded up as `Math.round` does for non-negative values. */
  function RoundedPercent(part: nat, whole: nat): (r: nat)
    requires whole > 0
    ensures whole * (2 * r - 1) <= 200 * part < whole * (2 * r + 1)
    ensures part <= whole ==> r <= 100
  {
    var a := 200 * part + whole;
    var d := 2 * whole;
    var r := a / d;
    DivBounds(a, d);
    Spread(whole, r);
    assert part <= whole ==> r <= 100 by {
      if part <= whole {
        Spread(whole, 100);
        MulMonotone(whole, 2 * r - 1, 201);
      }
    }
    r
  }

  lemma DivBounds(a: nat, d: nat)
    requires d > 0
    ensures d * (a / d) <= a < d * (a / d) + d
  {
  }

  lemma Spread(w: int, r: int)
    ensures w * (2 * r - 1) == 2 * w * r - w
    ensures w * (2 * r + 1) == 2 * w * r + w
    ensures 2 * w * r == (2 * w) * r
  {
  }

  /** Multiplication by a positive number preserves strict order. */
  lemma MulMonotone(w: int, x: int, y: int)
    requires w > 0
    ensures x < y <==> w * x < w * y
  {
    if x < y {
      assert w * y - w * x == w * (y - x);
    } else {
      assert w * x - w * y == w * (x - y);
    }
  }

  /** The rounded percentage is the only whole number within half a point of
      the exact one. */
  lemma RoundedPercentUnique(part: nat, whole: nat, q: int)
    requires whole > 0
    requires whole * (2 * q - 1) <= 200 * part < whole * (2 * q + 1)
    ensures q == RoundedPercent(part, whole)
  {
    var r: int := RoundedPercent(part, whole);
    MulMonotone(whole, 2 * q - 1, 2 * r + 1);
    MulMonotone(whole, 2 * r - 1, 2 * q + 1);
  }
}
