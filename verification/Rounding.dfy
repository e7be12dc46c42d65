/** JavaScript's `Math.round` and `Math.ceil` on exact numbers. */
module Rounding {

  /** Halves round up. */
  function Round(x: real): (r: int)
    ensures r as real - 0.5 <= x < r as real + 0.5
  {
    (x + 0.5).Floor
  }

  function Ceil(x: real): (r: int)
    ensures r as real - 1.0 < x <= r as real
  {
    -((-x).Floor)
  }

  lemma RoundMonotone(x: real, y: real)
    requires x <= y
    ensures Round(x) <= Round(y)
  {
  }

  lemma MulMonotone(k: real, x: real, y: real)
    requires 0.0 <= k && x <= y
    ensures k * x <= k * y
  {
  }

  lemma MulLess(k: real, x: real, y: real)
    requires 0.0 < k && x < y
    ensures k * x < k * y
  {
  }

  lemma DivMonotone(x: real, y: real, k: real)
    requires 0.0 < k && x <= y
    ensures x / k <= y / k
  {
    var a, b := x / k, y / k;
    assert k * a == x && k * b == y;
    if b < a {
      MulLess(k, b, a);
    }
  }

  lemma DivSub(x: real, y: real, k: real)
    requires 0.0 < k
    ensures (x - y) / k == x / k - y / k
  {
    var a, b := x / k, y / k;
    assert k * a == x && k * b == y;
    assert k * (a - b) == x - y;
  }

  /** A share between 0 and 1 of an integral length rounds to a pixel within it. */
  lemma RoundShare(length: int, share: real)
    requires 0 <= length && 0.0 <= share <= 1.0
    ensures 0 <= Round(length as real * share) <= length
    ensures 0 <= Round(length as real - length as real * share) <= length
  {
    ShareWithin(length as real, share);
    RoundWithin(length, length as real * share);
  }

  lemma ShareWithin(k: real, share: real)
    requires 0.0 <= k && 0.0 <= share <= 1.0
    ensures 0.0 <= k * share <= k
  {
    MulMonotone(k, 0.0, share);
    MulMonotone(k, share, 1.0);
  }

  lemma RoundWithin(length: int, x: real)
    requires 0.0 <= x <= length as real
    ensures 0 <= Round(x) <= length && 0 <= Round(length as real - x) <= length
  {
  }
}
