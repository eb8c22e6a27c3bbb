// Order and multiplication of reals.

module Reals {

  lemma ScaleUp(x: real, y: real, w: real)
    requires x <= y && w >= 0.0
    ensures x * w <= y * w
  {
  }

  lemma NonNegativeFactor(k: real, w: real)
    requires w > 0.0 && k * w >= 0.0
    ensures k >= 0.0
  {
  }

  lemma PositiveFactor(k: real, w: real)
    requires w > 0.0 && k * w > 0.0
    ensures k > 0.0
  {
  }

  /** Comparing two numbers by their multiples. */
  lemma CompareScaled(x: real, y: real, w: real)
    requires w != 0.0
    ensures x < y <==> if w > 0.0 then x * w < y * w else x * w > y * w
  {
    assert (y - x) * w == y * w - x * w;
    if y - x > 0.0 && w > 0.0 {
      assert (y - x) * w > 0.0;
    } else if y - x <= 0.0 && w > 0.0 {
      assert (y - x) * w <= 0.0;
    } else if y - x > 0.0 {
      assert (y - x) * w < 0.0;
    } else {
      assert (y - x) * w >= 0.0;
    }
  }

  /** A quotient lies between the bounds that hold for its multiple. */
  lemma QuotientBetween(lo: real, x: real, hi: real, w: real)
    requires w > 0.0 && lo * w <= x <= hi * w
    ensures lo <= x / w <= hi
  {
    var q := x / w;
    assert q * w == x;
    assert (q - lo) * w == q * w - lo * w;
    assert (hi - q) * w == hi * w - q * w;
    NonNegativeFactor(q - lo, w);
    NonNegativeFactor(hi - q, w);
  }
}
