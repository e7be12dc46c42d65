/**
 * Choosing the axis scale of line and bar charts (Chart.js: getValueBounds, calculateScale,
 * populateLabels, calculateOffset, CapValue). Numbers are exact reals.
 */
module AxisScale {
  import opened Sequences
  import opened Rounding

  // ----- powers of ten ---------------------------------------------------------------------

  function Pow10(k: int): (r: real)
    ensures r > 0.0
    decreases if k < 0 then -k else k
  {
    if k == 0 then 1.0
    else if k > 0 then 10.0 * Pow10(k - 1)
    else Pow10(k + 1) / 10.0
  }

  lemma Pow10Step(k: int)
    ensures Pow10(k + 1) == 10.0 * Pow10(k)
  {
  }

  /** `floor(log(v) / ln 10)`. */
  function OrderOfMagnitude(v: real): (k: int)
    requires v > 0.0
    ensures Pow10(k) <= v < Pow10(k + 1)
    decreases if v >= 1.0 then v.Floor else 10 + (1.0 / v).Floor
  {
    if v >= 10.0 then
      var k := OrderOfMagnitude(v / 10.0);
      Pow10Step(k);
      Pow10Step(k + 1);
      k + 1
    else if v < 1.0 then
      assert 1.0 / (v * 10.0) == (1.0 / v) / 10.0;
      assert 1.0 / v > 1.0;
      var k := OrderOfMagnitude(v * 10.0);
      Pow10Step(k - 1);
      Pow10Step(k);
      k - 1
    else 0
  }

  lemma {:induction false} Pow10Monotone(j: int, k: int)
    requires j <= k
    ensures Pow10(j) <= Pow10(k)
    decreases k - j
  {
    if j < k {
      Pow10Monotone(j, k - 1);
      Pow10Step(k - 1);
    }
  }

  /** The two inequalities determine the order of magnitude. */
  lemma OrderUnique(v: real, k: int)
    requires v > 0.0 && Pow10(k) <= v < Pow10(k + 1)
    ensures k == OrderOfMagnitude(v)
  {
    var m := OrderOfMagnitude(v);
    if k < m {
      Pow10Monotone(k + 1, m);
    } else if m < k {
      Pow10Monotone(m + 1, k);
    }
  }

  // ----- the bounds ------------------------------------------------------------------------

  datatype Bounds = Bounds(maxValue: real, minValue: real, maxSteps: int, minSteps: int)

  ghost predicate InData(data: seq<seq<real>>, v: real) {
    exists i, j :: 0 <= i < |data| && 0 <= j < |data[i]| && data[i][j] == v
  }

  function MaxSteps(scaleHeight: real, labelHeight: real): int
    requires labelHeight > 0.0
  {
    (scaleHeight / (labelHeight * 0.66)).Floor
  }

  function MinSteps(scaleHeight: real, labelHeight: real): int
    requires labelHeight > 0.0
  {
    (scaleHeight / labelHeight * 0.5).Floor
  }

  /** `tiny` and `huge` stand for `Number.MIN_VALUE` and `Number.MAX_VALUE`; both are positive. */
  method GetValueBounds(data: seq<seq<real>>, scaleHeight: real, labelHeight: real, tiny: real, huge: real) returns (b: Bounds)
    requires labelHeight > 0.0
    ensures b.maxSteps == MaxSteps(scaleHeight, labelHeight) && b.minSteps == MinSteps(scaleHeight, labelHeight)
    ensures LargestCount(b.maxSteps, labelHeight * 0.66, scaleHeight) && LargestCount(b.minSteps, labelHeight * 2.0, scaleHeight)
    ensures (b.maxValue == tiny || InData(data, b.maxValue)) && tiny <= b.maxValue
    ensures (b.minValue == huge || InData(data, b.minValue)) && b.minValue <= huge
    ensures forall v :: InData(data, v) ==> b.minValue <= v <= b.maxValue
  {
    var upper, lower := tiny, huge;
    for i := 0 to |data|
      invariant (upper == tiny || InData(data, upper)) && tiny <= upper
      invariant (lower == huge || InData(data, lower)) && lower <= huge
      invariant forall p, j :: 0 <= p < i && 0 <= j < |data[p]| ==> lower <= data[p][j] <= upper
    {
      for j := 0 to |data[i]|
        invariant (upper == tiny || InData(data, upper)) && tiny <= upper
        invariant (lower == huge || InData(data, lower)) && lower <= huge
        invariant forall p, k :: 0 <= p < i && 0 <= k < |data[p]| ==> lower <= data[p][k] <= upper
        invariant forall k :: 0 <= k < j ==> lower <= data[i][k] <= upper
      {
        assert InData(data, data[i][j]);
        if data[i][j] > upper { upper := data[i][j]; }
        if data[i][j] < lower { lower := data[i][j]; }
      }
    }
    b := Bounds(upper, lower, MaxSteps(scaleHeight, labelHeight), MinSteps(scaleHeight, labelHeight));
    StepBounds(scaleHeight, labelHeight);
  }

  /** `n` is the largest number of pieces of length `size` that fit into `height`. */
  ghost predicate LargestCount(n: int, size: real, height: real) {
    n as real * size <= height < (n + 1) as real * size
  }

  /** At most as many steps as labels of two thirds of their height fit, at least as many as fit at twice their height. */
  lemma {:induction false} StepBounds(scaleHeight: real, labelHeight: real)
    requires labelHeight > 0.0
    ensures LargestCount(MaxSteps(scaleHeight, labelHeight), labelHeight * 0.66, scaleHeight)
    ensures LargestCount(MinSteps(scaleHeight, labelHeight), labelHeight * 2.0, scaleHeight)
  {
    CountFits(scaleHeight, labelHeight * 0.66, scaleHeight / (labelHeight * 0.66), MaxSteps(scaleHeight, labelHeight));
    var q := scaleHeight / labelHeight;
    assert labelHeight * q == scaleHeight;
    assert (labelHeight * 2.0) * (q * 0.5) == scaleHeight;
    CountFits(scaleHeight, labelHeight * 2.0, q * 0.5, MinSteps(scaleHeight, labelHeight));
  }

  lemma CountFits(height: real, size: real, q: real, n: int)
    requires 0.0 < size && height == size * q && n == q.Floor
    ensures LargestCount(n, size, height)
  {
    CountBounds(size, q, n as real, n as real + 1.0, height);
  }

  lemma CountBounds(size: real, q: real, lo: real, hi: real, height: real)
    requires 0.0 < size && lo <= q < hi && height == size * q
    ensures lo * size <= height < hi * size
  {
    MulMonotone(size, lo, q);
    MulLess(size, q, hi);
  }

  ghost predicate AllEqual(data: seq<seq<real>>, c: real) {
    forall v :: InData(data, v) ==> v == c
  }

  /** The value range is positive exactly when the data are not one single value of at least `tiny`. */
  lemma SpreadIff(data: seq<seq<real>>, b: Bounds, tiny: real, huge: real)
    requires (b.maxValue == tiny || InData(data, b.maxValue)) && tiny <= b.maxValue
    requires b.minValue == huge || InData(data, b.minValue)
    requires forall v :: InData(data, v) ==> b.minValue <= v <= b.maxValue && v <= huge
    requires exists v :: InData(data, v)
    ensures b.minValue < b.maxValue <==> !exists c :: AllEqual(data, c) && tiny <= c
  {
    var v :| InData(data, v);
    if b.minValue == b.maxValue {
      assert AllEqual(data, b.maxValue);
    }
    if c :| AllEqual(data, c) && tiny <= c {
      assert v == c;
    }
  }

  /** A non-negative height leaves room: the upper bound is at least twice the lower one. */
  lemma BoundsLeaveRoom(scaleHeight: real, labelHeight: real)
    requires labelHeight > 0.0 && scaleHeight >= 0.0
    ensures 0 <= 2 * MinSteps(scaleHeight, labelHeight) <= MaxSteps(scaleHeight, labelHeight)
  {
    var q := scaleHeight / labelHeight;
    assert q >= 0.0;
    assert scaleHeight == q * labelHeight;
    assert scaleHeight / (labelHeight * 0.66) == q / 0.66 by {
      QuotientOfProduct(q, labelHeight);
    }
  }

  lemma QuotientOfProduct(q: real, l: real)
    requires l > 0.0
    ensures q * l / (l * 0.66) == q / 0.66
  {
    var r := q / 0.66;
    assert r * 0.66 == q;
    assert r * (l * 0.66) == q * l;
  }

  // ----- the scale loop --------------------------------------------------------------------

  predicate Unfit(steps: int, minSteps: int, maxSteps: int) {
    steps < minSteps || steps > maxSteps
  }

  /**
   * What the loop can rely on, in terms of the ratio of range to step: room between the bounds, and
   * at least one whole step before it ever halves.
   */
  ghost predicate Fitting(ratio: real, minSteps: int, maxSteps: int) {
    && ratio > 0.0
    && 0 <= 2 * minSteps <= maxSteps
    && (Round(ratio) < minSteps ==> ratio >= 1.0)
  }

  /** How far the loop still has to go. */
  ghost function Rank(ratio: real, minSteps: int, maxSteps: int): (r: nat)
    requires Fitting(ratio, minSteps, maxSteps)
  {
    if Round(ratio) > maxSteps then 1 + (2.0 * ratio).Floor
    else if Round(ratio) < minSteps then minSteps - Round(ratio)
    else 0
  }

  /** Halving the step never overshoots the upper bound: doubling cannot follow. */
  lemma HalvingStaysBelow(ratio: real, minSteps: int, maxSteps: int)
    requires Fitting(ratio, minSteps, maxSteps) && Round(ratio) < minSteps
    ensures Fitting(2.0 * ratio, minSteps, maxSteps)
    ensures Round(ratio) < Round(2.0 * ratio) <= maxSteps
    ensures Rank(2.0 * ratio, minSteps, maxSteps) < Rank(ratio, minSteps, maxSteps)
  {
  }

  /** Doubling the step never undershoots the lower bound: halving cannot follow. */
  lemma DoublingStaysAbove(ratio: real, minSteps: int, maxSteps: int)
    requires Fitting(ratio, minSteps, maxSteps) && Round(ratio) > maxSteps
    ensures Fitting(ratio / 2.0, minSteps, maxSteps)
    ensures minSteps <= Round(ratio / 2.0)
    ensures Rank(ratio / 2.0, minSteps, maxSteps) < Rank(ratio, minSteps, maxSteps)
  {
  }

  /** The ratio the loop ends with. */
  ghost function FinalRatio(ratio: real, minSteps: int, maxSteps: int): (r: real)
    requires Fitting(ratio, minSteps, maxSteps)
    ensures minSteps <= Round(r) <= maxSteps
    decreases Rank(ratio, minSteps, maxSteps)
  {
    if Round(ratio) < minSteps then
      HalvingStaysBelow(ratio, minSteps, maxSteps);
      FinalRatio(2.0 * ratio, minSteps, maxSteps)
    else if Round(ratio) > maxSteps then
      DoublingStaysAbove(ratio, minSteps, maxSteps);
      FinalRatio(ratio / 2.0, minSteps, maxSteps)
    else ratio
  }

  datatype Scale = Scale(steps: int, stepValue: real, graphMin: real, labels: seq<real>)

  function GraphMin(minValue: real, unit: real): real
    requires unit > 0.0
  {
    (minValue / unit).Floor as real * unit
  }

  function GraphMax(maxValue: real, unit: real): real
    requires unit > 0.0
  {
    Ceil(maxValue / unit) as real * unit
  }

  /** The rounded range in units. */
  function Units(minValue: real, maxValue: real, unit: real): int
    requires unit > 0.0
  {
    Ceil(maxValue / unit) - (minValue / unit).Floor
  }

  /** The rounded range holds the data and is a whole number of units, between 1 and 11. */
  lemma FirstSteps(minValue: real, maxValue: real, unit: real) returns (whole: int)
    requires 0.0 < unit <= maxValue - minValue < 10.0 * unit
    ensures whole == Units(minValue, maxValue, unit)
    ensures GraphMin(minValue, unit) <= minValue < GraphMin(minValue, unit) + unit
    ensures GraphMax(maxValue, unit) - unit < maxValue <= GraphMax(maxValue, unit)
    ensures 1 <= whole <= 11 && GraphMax(maxValue, unit) - GraphMin(minValue, unit) == Product(whole as real, unit)
  {
    var a, b := minValue / unit, maxValue / unit;
    whole := Ceil(b) - a.Floor;
    assert 1 <= whole <= 11 by {
      SpanShare(minValue, maxValue, unit);
      CoverSize(a, b);
    }
    RoundOut(minValue, unit);
    RoundOut(maxValue, unit);
    RangeIsWhole(minValue, maxValue, unit);
  }

  lemma RangeIsWhole(minValue: real, maxValue: real, unit: real)
    requires unit > 0.0
    ensures GraphMax(maxValue, unit) - GraphMin(minValue, unit) == Product(Units(minValue, maxValue, unit) as real, unit)
  {
    ProductSub(Ceil(maxValue / unit), (minValue / unit).Floor, unit);
  }

  lemma SpanShare(minValue: real, maxValue: real, unit: real)
    requires 0.0 < unit <= maxValue - minValue < 10.0 * unit
    ensures 1.0 <= maxValue / unit - minValue / unit < 10.0
  {
    UnitShare(maxValue - minValue, unit);
    DivSub(maxValue, minValue, unit);
  }

  lemma CoverSize(a: real, b: real)
    requires 1.0 <= b - a < 10.0
    ensures 1 <= Ceil(b) - a.Floor <= 11
  {
  }

  lemma ProductSub(m: int, n: int, unit: real)
    ensures m as real * unit - n as real * unit == Product((m - n) as real, unit)
  {
  }

  lemma UnitShare(x: real, unit: real)
    requires 0.0 < unit <= x < 10.0 * unit
    ensures 1.0 <= x / unit < 10.0
  {
    var q := x / unit;
    assert unit * q == x;
    if q < 1.0 {
      MulLess(unit, q, 1.0);
    }
    if 10.0 <= q {
      MulMonotone(unit, 10.0, q);
    }
  }

  /** The ends of the rounded range are the nearest whole units around a value. */
  lemma {:induction false} RoundOut(x: real, unit: real)
    requires unit > 0.0
    ensures GraphMin(x, unit) <= x < GraphMin(x, unit) + unit
    ensures GraphMax(x, unit) - unit < x <= GraphMax(x, unit)
  {
    var a := x / unit;
    assert unit * a == x;
    UnitBelow(unit, a, a.Floor as real, x);
    UnitAbove(unit, a, Ceil(a) as real, x);
  }

  lemma UnitBelow(unit: real, a: real, n: real, x: real)
    requires unit > 0.0 && n <= a < n + 1.0 && x == unit * a
    ensures n * unit <= x < n * unit + unit
  {
    CountBounds(unit, a, n, n + 1.0, x);
    OneMoreUnit(n, unit);
  }

  lemma UnitAbove(unit: real, a: real, n: real, x: real)
    requires unit > 0.0 && n - 1.0 < a <= n && x == unit * a
    ensures n * unit - unit < x <= n * unit
  {
    UpperBounds(unit, a, n - 1.0, n, x);
    OneMoreUnit(n - 1.0, unit);
  }

  lemma UpperBounds(size: real, q: real, lo: real, hi: real, height: real)
    requires 0.0 < size && lo < q <= hi && height == size * q
    ensures lo * size < height <= hi * size
  {
    MulLess(size, lo, q);
    MulMonotone(size, q, hi);
  }

  lemma OneMoreUnit(n: real, unit: real)
    ensures (n + 1.0) * unit == n * unit + unit
  {
  }

  /** Label `j` names the value of grid line `j + 1`. */
  ghost predicate Labelled(labels: seq<real>, graphMin: real, stepValue: real) {
    forall j :: 0 <= j < |labels| ==> labels[j] == graphMin + stepValue * (j + 1) as real
  }

  method PopulateLabels(show: bool, steps: int, graphMin: real, stepValue: real) returns (labels: seq<real>)
    requires 0 <= steps
    ensures |labels| == if show then steps else 0
    ensures Labelled(labels, graphMin, stepValue)
  {
    labels := [];
    if show {
      for i := 1 to steps + 1
        invariant |labels| == i - 1
        invariant Labelled(labels, graphMin, stepValue)
      {
        labels := labels + [graphMin + stepValue * i as real];
      }
    }
  }

  ghost function Product(x: real, y: real): real {
    x * y
  }

  lemma RoundWhole(n: int)
    ensures Round(n as real) == n
  {
  }

  /** `x` doubled `n` times, or halved `-n` times. */
  ghost function Shifted(x: real, n: int): (r: real)
    ensures x > 0.0 ==> r > 0.0
    decreases if n < 0 then -n else n
  {
    if n == 0 then x
    else if n > 0 then 2.0 * Shifted(x, n - 1)
    else Shifted(x, n + 1) / 2.0
  }

  lemma ShiftedStep(x: real, n: int)
    ensures Shifted(x, n + 1) == 2.0 * Shifted(x, n)
  {
  }

  lemma ShiftUp(x: real, y: real, n: int)
    ensures Shifted(x, n + 1) == 2.0 * Shifted(x, n) && Shifted(y, -n) == 2.0 * Shifted(y, -(n + 1))
  {
    ShiftedStep(x, n);
    ShiftedStep(y, -n - 1);
  }

  /** Shifting ratio and step in opposite directions keeps their product. */
  lemma TwoAndHalf(a: real, b: real)
    ensures Product(2.0 * a, b) == Product(a, 2.0 * b)
  {
  }

  /** `Math.round(graphRange / stepValue)`. */
  method CountSteps(span: real, step: real, ghost ratio: real) returns (steps: int)
    requires step > 0.0 && Product(ratio, step) == span
    ensures steps == Round(ratio)
  {
    assert span / step == ratio;
    steps := Round(span / step);
  }

  /** How far `steps` whole steps miss the range: by at most half a step. */
  lemma ScaledGap(ratio: real, n: real, step: real, span: real)
    requires step > 0.0 && Product(ratio, step) == span && n - 0.5 <= ratio < n + 0.5
    ensures -0.5 * step < Product(n, step) - span <= 0.5 * step
  {
    ProductShift(n, step);
    ProductOrder(n - 0.5, ratio, step);
    ProductOrder(ratio, n + 0.5, step);
  }

  lemma ProductShift(n: real, step: real)
    ensures Product(n - 0.5, step) == Product(n, step) - 0.5 * step
    ensures Product(n + 0.5, step) == Product(n, step) + 0.5 * step
  {
  }

  lemma ProductOrder(x: real, y: real, step: real)
    requires step > 0.0
    ensures x <= y ==> Product(x, step) <= Product(y, step)
    ensures x < y ==> Product(x, step) < Product(y, step)
  {
  }

  /** The loop invariant: `whole` units of size `unit` were shifted by `shift`, in one direction only. */
  ghost predicate Progress(whole: real, unit: real, span: real, minSteps: int, maxSteps: int, step: real, ratio: real, shift: int) {
    && Fitting(ratio, minSteps, maxSteps) && Fitting(whole, minSteps, maxSteps)
    && ratio == Shifted(whole, shift) && step == Shifted(unit, -shift) && step > 0.0 && Product(ratio, step) == span
    && FinalRatio(whole, minSteps, maxSteps) == FinalRatio(ratio, minSteps, maxSteps)
    && (shift > 0 ==> Round(ratio) <= maxSteps)
    && (shift < 0 ==> minSteps <= Round(ratio))
    && (shift >= 0 ==> ratio == Round(ratio) as real)
  }

  lemma {:induction false} HalveProgress(whole: real, unit: real, span: real, minSteps: int, maxSteps: int, step: real, ratio: real, shift: int)
    requires Progress(whole, unit, span, minSteps, maxSteps, step, ratio, shift) && Round(ratio) < minSteps
    ensures Progress(whole, unit, span, minSteps, maxSteps, step / 2.0, 2.0 * ratio, shift + 1)
    ensures Rank(2.0 * ratio, minSteps, maxSteps) < Rank(ratio, minSteps, maxSteps)
  {
    HalvingStaysBelow(ratio, minSteps, maxSteps);
    RoundWhole(2 * Round(ratio));
    ShiftUp(whole, unit, shift);
    TwoAndHalf(ratio, step / 2.0);
  }

  lemma DoubleProgress(whole: real, unit: real, span: real, minSteps: int, maxSteps: int, step: real, ratio: real, shift: int)
    requires Progress(whole, unit, span, minSteps, maxSteps, step, ratio, shift) && Round(ratio) > maxSteps
    ensures Progress(whole, unit, span, minSteps, maxSteps, step * 2.0, ratio / 2.0, shift - 1)
    ensures Rank(ratio / 2.0, minSteps, maxSteps) < Rank(ratio, minSteps, maxSteps)
  {
    DoublingStaysAbove(ratio, minSteps, maxSteps);
    ShiftUp(whole, unit, shift - 1);
    TwoAndHalf(ratio / 2.0, step);
  }

  lemma StartProgress(whole: int, unit: real, span: real, minSteps: int, maxSteps: int)
    requires 0 <= 2 * minSteps <= maxSteps && unit > 0.0 && 1 <= whole && span == Product(whole as real, unit)
    ensures Progress(whole as real, unit, span, minSteps, maxSteps, unit, whole as real, 0)
  {
    RoundWhole(whole);
  }

  // ----- how often the step is doubled -----------------------------------------------------

  function Pow2(n: int): (r: int)
    requires 0 <= n
    ensures r >= 1
  {
    if n == 0 then 1 else 2 * Pow2(n - 1)
  }

  /** The number of doublings for a range of `ratio` units: the least one that leaves at most `maxSteps`. */
  function Doublings(ratio: real, maxSteps: int): (n: int)
    requires 0.0 < ratio && 0 <= maxSteps
    ensures 0 <= n
    decreases if Round(ratio) <= maxSteps then 0 else (2.0 * ratio).Floor
  {
    if Round(ratio) <= maxSteps then 0 else 1 + Doublings(ratio / 2.0, maxSteps)
  }

  /**
   * The length of the axis for a range of `whole` units: the whole range if it fits, and otherwise the
   * rounded number of doubled units.
   */
  ghost function AxisLength(whole: int, unit: real, maxSteps: int): real
    requires 1 <= whole && 0 <= maxSteps
  {
    var n := Doublings(whole as real, maxSteps);
    if whole <= maxSteps then Product(whole as real, unit)
    else Product(Round(whole as real / Pow2(n) as real) as real, Shifted(unit, n))
  }

  /** The axis reaches the top of a range of `whole` units: the last step is not rounded away. */
  predicate TopReached(whole: int, maxSteps: int)
    requires 1 <= whole && 0 <= maxSteps
  {
    var p := Pow2(Doublings(whole as real, maxSteps));
    whole % p == 0 || 2 * (whole % p) >= p
  }

  lemma {:induction false} ShiftedHalf(x: real, n: int)
    requires 0 <= n
    ensures Shifted(x / 2.0, -n) == Shifted(x, -n - 1)
    decreases n
  {
    if n > 0 {
      ShiftedHalf(x, n - 1);
    }
  }

  /** Halving `n` times is dividing by the power. */
  lemma {:induction false} ShiftedPow(x: real, n: int)
    requires 0 <= n
    ensures Shifted(x, -n) == x / Pow2(n) as real
    decreases n
  {
    if n > 0 {
      ShiftedPow(x, n - 1);
      HalfQuotient(x, Pow2(n - 1) as real);
      assert Pow2(n) as real == 2.0 * Pow2(n - 1) as real;
    }
  }

  lemma HalfQuotient(x: real, p: real)
    requires p > 0.0
    ensures x / p / 2.0 == x / (2.0 * p)
  {
    var q := x / p;
    assert q * p == x;
    assert (q / 2.0) * (2.0 * p) == x;
  }

  /** `Doublings` is the least such number. */
  lemma {:induction false} DoublingsLeast(ratio: real, maxSteps: int, m: int)
    requires 0.0 < ratio && 0 <= maxSteps && 0 <= m
    ensures Round(ratio / Pow2(m) as real) <= maxSteps <==> m >= Doublings(ratio, maxSteps)
    decreases m
  {
    if m == 0 {
      assert ratio / 1.0 == ratio;
    } else if Round(ratio) <= maxSteps {
      DivBelow(ratio, Pow2(m) as real);
      RoundMonotone(ratio / Pow2(m) as real, ratio);
    } else {
      DoublingsLeast(ratio / 2.0, maxSteps, m - 1);
      HalfFirst(ratio, Pow2(m - 1) as real);
    }
  }

  lemma DivBelow(x: real, p: real)
    requires 0.0 < x && 1.0 <= p
    ensures x / p <= x
  {
    var q := x / p;
    assert p * q == x;
    if x < q {
      MulLess(p, x, q);
      MulMonotone(x, 1.0, p);
    }
  }

  lemma HalfFirst(x: real, p: real)
    requires p > 0.0
    ensures x / 2.0 / p == x / (2.0 * p)
  {
    var q := x / 2.0 / p;
    assert q * p == x / 2.0;
    assert q * (2.0 * p) == x;
  }

  /** A loop that does not halve ends after exactly that many doublings. */
  lemma {:induction false} FinalDoubled(ratio: real, minSteps: int, maxSteps: int)
    requires Fitting(ratio, minSteps, maxSteps) && minSteps <= Round(ratio)
    ensures FinalRatio(ratio, minSteps, maxSteps) == Shifted(ratio, -Doublings(ratio, maxSteps))
    decreases Rank(ratio, minSteps, maxSteps)
  {
    if Round(ratio) > maxSteps {
      DoublingStaysAbove(ratio, minSteps, maxSteps);
      FinalDoubled(ratio / 2.0, minSteps, maxSteps);
      ShiftedHalf(ratio, Doublings(ratio / 2.0, maxSteps));
    }
  }

  /** A loop that halves keeps a whole number of steps. */
  lemma {:induction false} FinalWhole(n: int, minSteps: int, maxSteps: int)
    requires Fitting(n as real, minSteps, maxSteps) && n <= maxSteps
    ensures Round(FinalRatio(n as real, minSteps, maxSteps)) as real == FinalRatio(n as real, minSteps, maxSteps)
    decreases Rank(n as real, minSteps, maxSteps)
  {
    RoundWhole(n);
    if n < minSteps {
      HalvingStaysBelow(n as real, minSteps, maxSteps);
      assert 2.0 * n as real == (2 * n) as real;
      RoundWhole(2 * n);
      FinalWhole(2 * n, minSteps, maxSteps);
    }
  }

  lemma FinalReachesIff(whole: int, minSteps: int, maxSteps: int)
    requires 1 <= whole && Fitting(whole as real, minSteps, maxSteps)
    ensures var ratio := FinalRatio(whole as real, minSteps, maxSteps);
      Round(ratio) as real >= ratio <==> TopReached(whole, maxSteps)
  {
    RoundWhole(whole);
    if whole <= maxSteps {
      FinalWhole(whole, minSteps, maxSteps);
      assert Doublings(whole as real, maxSteps) == 0 && Pow2(0) == 1;
    } else {
      FinalDoubled(whole as real, minSteps, maxSteps);
      var n := Doublings(whole as real, maxSteps);
      ShiftedPow(whole as real, n);
      QuotientRoundsUpIff(whole, Pow2(n));
    }
  }

  lemma {:induction false} QuotientRoundsUpIff(whole: int, p: int)
    requires 1 <= p
    ensures var ratio := whole as real / p as real;
      Round(ratio) as real >= ratio <==> whole % p == 0 || 2 * (whole % p) >= p
  {
    var q, rest := whole / p, whole % p;
    var ratio, share := whole as real / p as real, rest as real / p as real;
    QuotientParts(whole, p, q, rest);
    ShareIs(rest as real, p as real);
    assert ratio == q as real + share && 0.0 <= share < 1.0;
    FloorOfSum(q, share);
    RoundsUpIff(ratio);
  }

  lemma QuotientParts(whole: int, p: int, q: int, rest: int)
    requires 1 <= p && whole == p * q + rest
    ensures whole as real / p as real == q as real + rest as real / p as real
  {
    var share := rest as real / p as real;
    assert p as real * share == rest as real;
    assert whole as real == p as real * q as real + rest as real;
    assert p as real * (q as real + share) == whole as real;
  }

  lemma ShareIs(x: real, p: real)
    requires 0.0 <= x < p
    ensures 0.0 <= x / p < 1.0 && (x / p == 0.0 <==> x == 0.0) && (x / p >= 0.5 <==> 2.0 * x >= p)
  {
    QuotientOrder(x, p, 0.0);
    QuotientOrder(x, p, 0.5);
    QuotientOrder(x, p, 1.0);
  }

  /** How a quotient compares with `c`. */
  lemma QuotientOrder(x: real, p: real, c: real)
    requires 0.0 < p
    ensures (x / p >= c <==> x >= p * c) && (x / p > c <==> x > p * c)
  {
    var q := x / p;
    assert p * q == x;
    if q < c {
      MulLess(p, q, c);
    } else if c < q {
      MulLess(p, c, q);
    }
  }

  lemma FloorOfSum(q: int, share: real)
    requires 0.0 <= share < 1.0
    ensures (q as real + share).Floor == q
  {
  }

  lemma {:induction false} ShiftedOrder(x: real, a: int, b: int)
    requires 0.0 < x && a < b
    ensures Shifted(x, a) < Shifted(x, b)
    decreases b - a
  {
    ShiftedStep(x, b - 1);
    if a < b - 1 {
      ShiftedOrder(x, a, b - 1);
    }
  }

  lemma DoublingsUnique(whole: int, minSteps: int, maxSteps: int, shift: int)
    requires 1 <= whole && Fitting(whole as real, minSteps, maxSteps)
    requires FinalRatio(whole as real, minSteps, maxSteps) == Shifted(whole as real, shift)
    ensures whole > maxSteps ==> shift == -Doublings(whole as real, maxSteps)
  {
    if whole > maxSteps {
      RoundWhole(whole);
      FinalDoubled(whole as real, minSteps, maxSteps);
      var n := -Doublings(whole as real, maxSteps);
      if shift < n {
        ShiftedOrder(whole as real, shift, n);
      } else if n < shift {
        ShiftedOrder(whole as real, n, shift);
      }
    }
  }

  /** There is at least one step exactly when the height leaves room for one. */
  lemma {:induction false} StepsPositiveIff(ratio: real, minSteps: int, maxSteps: int)
    requires Fitting(ratio, minSteps, maxSteps) && 0.5 <= ratio
    ensures Round(FinalRatio(ratio, minSteps, maxSteps)) >= 1 <==> maxSteps >= 1
    decreases Rank(ratio, minSteps, maxSteps)
  {
    if maxSteps >= 1 {
      if Round(ratio) < minSteps {
        HalvingStaysBelow(ratio, minSteps, maxSteps);
        StepsPositiveIff(2.0 * ratio, minSteps, maxSteps);
      } else if Round(ratio) > maxSteps {
        DoublingStaysAbove(ratio, minSteps, maxSteps);
        StepsPositiveIff(ratio / 2.0, minSteps, maxSteps);
      }
    }
  }

  lemma RoundsUpIff(x: real)
    ensures Round(x) as real >= x <==> x == x.Floor as real || x - x.Floor as real >= 0.5
  {
    assert Round(x) == x.Floor || Round(x) == x.Floor + 1;
  }

  lemma ProductReaches(n: real, ratio: real, step: real)
    requires step > 0.0
    ensures Product(n, step) >= Product(ratio, step) <==> n >= ratio
  {
    ProductOrder(n, ratio, step);
    ProductOrder(ratio, n, step);
  }

  /** What holds when the loop ends. */
  lemma Fitted(whole: int, unit: real, span: real, minSteps: int, maxSteps: int, step: real, ratio: real, shift: int)
    requires 1 <= whole && Progress(whole as real, unit, span, minSteps, maxSteps, step, ratio, shift)
    requires minSteps <= Round(ratio) <= maxSteps && span == Product(whole as real, unit)
    ensures ratio == FinalRatio(whole as real, minSteps, maxSteps)
    ensures -0.5 * step < Product(Round(ratio) as real, step) - span <= 0.5 * step
    ensures shift >= 0 ==> Product(Round(ratio) as real, step) == span
    ensures Product(Round(ratio) as real, step) == AxisLength(whole, unit, maxSteps)
    ensures whole <= maxSteps ==> Product(Round(ratio) as real, step) == span
    ensures Product(Round(ratio) as real, step) >= span <==> TopReached(whole, maxSteps)
    ensures whole > maxSteps ==> shift == -Doublings(whole as real, maxSteps)
  {
    ScaledGap(ratio, Round(ratio) as real, step, span);
    ProductReaches(Round(ratio) as real, ratio, step);
    FinalReachesIff(whole, minSteps, maxSteps);
    DoublingsUnique(whole, minSteps, maxSteps, shift);
    if whole <= maxSteps {
      FinalWhole(whole, minSteps, maxSteps);
    } else {
      RoundWhole(whole);
      FinalDoubled(whole as real, minSteps, maxSteps);
      ShiftedPow(whole as real, Doublings(whole as real, maxSteps));
    }
  }

  // ----- the loop --------------------------------------------------------------------------

  /**
   * The loop over step values, from `unit` on. It always ends, within the bounds, and it only ever
   * halves or only ever doubles: `shift` counts the halvings, or minus the doublings.
   */
  method FitSteps(span: real, unit: real, minSteps: int, maxSteps: int, ghost whole: int)
      returns (steps: int, step: real, ghost ratio: real, ghost shift: int)
    requires 0 <= 2 * minSteps <= maxSteps && unit > 0.0 && 1 <= whole && span == Product(whole as real, unit)
    ensures minSteps <= steps <= maxSteps && steps == Round(ratio)
    ensures Progress(whole as real, unit, span, minSteps, maxSteps, step, ratio, shift)
    ensures ratio == FinalRatio(whole as real, minSteps, maxSteps)
    ensures -0.5 * step < Product(steps as real, step) - span <= 0.5 * step
    ensures shift >= 0 ==> Product(steps as real, step) == span
    ensures whole <= maxSteps ==> Product(steps as real, step) == span
    ensures Product(steps as real, step) == AxisLength(whole, unit, maxSteps)
    ensures Product(steps as real, step) >= span <==> TopReached(whole, maxSteps)
    ensures whole > maxSteps ==> shift == -Doublings(whole as real, maxSteps)
  {
    step, ratio, shift := unit, whole as real, 0;
    StartProgress(whole, unit, span, minSteps, maxSteps);
    steps := CountSteps(span, step, ratio);
    while Unfit(steps, minSteps, maxSteps)
      invariant steps == Round(ratio)
      invariant Progress(whole as real, unit, span, minSteps, maxSteps, step, ratio, shift)
      decreases Rank(ratio, minSteps, maxSteps)
    {
      if steps < minSteps {
        HalveProgress(whole as real, unit, span, minSteps, maxSteps, step, ratio, shift);
        step, ratio, shift := step / 2.0, 2.0 * ratio, shift + 1;
      } else {
        DoubleProgress(whole as real, unit, span, minSteps, maxSteps, step, ratio, shift);
        step, ratio, shift := step * 2.0, ratio / 2.0, shift - 1;
      }
      steps := CountSteps(span, step, ratio);
    }
    Fitted(whole, unit, span, minSteps, maxSteps, step, ratio, shift);
  }

  /**
   * The scale for data from `minValue` to `maxValue`: the range rounded out to units holds the data, the
   * step count fits and is positive if there is room, the axis is as long as the range exactly if the
   * range fits, within half a step of it otherwise, and reaches its top exactly under `TopReached`.
   */
  ghost predicate ScaleOf(maxSteps: int, minSteps: int, maxValue: real, minValue: real, s: Scale, graphMax: real)
    requires minValue < maxValue && 0 <= 2 * minSteps <= maxSteps
  {
    var unit := Pow10(OrderOfMagnitude(maxValue - minValue));
    var whole, length := Units(minValue, maxValue, unit), Product(s.steps as real, s.stepValue);
    && s.graphMin == GraphMin(minValue, unit) && graphMax == GraphMax(maxValue, unit)
    && s.graphMin <= minValue < s.graphMin + unit && graphMax - unit < maxValue <= graphMax
    && 1 <= whole <= 11 && graphMax - s.graphMin == Product(whole as real, unit)
    && minSteps <= s.steps <= maxSteps && 0.0 < s.stepValue && (s.steps >= 1 <==> maxSteps >= 1)
    && Fitting(whole as real, minSteps, maxSteps) && s.steps == Round(FinalRatio(whole as real, minSteps, maxSteps))
    && length == AxisLength(whole, unit, maxSteps)
    && -0.5 * s.stepValue < length - (graphMax - s.graphMin) <= 0.5 * s.stepValue
    && (whole <= maxSteps ==> length == graphMax - s.graphMin)
    && (whole > maxSteps ==> s.stepValue == Shifted(unit, Doublings(whole as real, maxSteps)))
    && (length >= graphMax - s.graphMin <==> TopReached(whole, maxSteps))
    && Labelled(s.labels, s.graphMin, s.stepValue)
  }

  /**
   * `calculateScale`: the range is rounded out to whole powers of ten, then the step is fitted. The
   * axis matches the rounded range up to half a step, and exactly if the step was never doubled. It
   * reaches the top of the range exactly under a condition on the number of units and `maxSteps`.
   */
  method CalculateScale(maxSteps: int, minSteps: int, maxValue: real, minValue: real, show: bool)
      returns (s: Scale, graphMax: real, ghost shift: int)
    requires minValue < maxValue && 0 <= 2 * minSteps <= maxSteps
    ensures ScaleOf(maxSteps, minSteps, maxValue, minValue, s, graphMax)
    ensures s.stepValue == Shifted(Pow10(OrderOfMagnitude(maxValue - minValue)), -shift)
    ensures shift >= 0 ==> Product(s.steps as real, s.stepValue) == graphMax - s.graphMin
    ensures |s.labels| == if show then s.steps else 0
  {
    var k := OrderOfMagnitude(maxValue - minValue);
    Pow10Step(k);
    var unit := Pow10(k);
    var graphMin := GraphMin(minValue, unit);
    graphMax := GraphMax(maxValue, unit);
    var span := graphMax - graphMin;
    ghost var whole := FirstSteps(minValue, maxValue, unit);
    var steps, step, ratio, n := FitSteps(span, unit, minSteps, maxSteps, whole);
    shift := n;
    StepsPositiveIff(whole as real, minSteps, maxSteps);
    var labels := PopulateLabels(show, steps, graphMin, step);
    s := Scale(steps, step, graphMin, labels);
  }

  /** What `getValueBounds` answers: the data and the two start values, and the step bounds for the height. */
  ghost predicate BoundsOf(b: Bounds, data: seq<seq<real>>, scaleHeight: real, labelHeight: real, tiny: real, huge: real)
    requires labelHeight > 0.0
  {
    && b.maxSteps == MaxSteps(scaleHeight, labelHeight) && b.minSteps == MinSteps(scaleHeight, labelHeight)
    && (b.maxValue == tiny || InData(data, b.maxValue)) && tiny <= b.maxValue
    && (b.minValue == huge || InData(data, b.minValue)) && b.minValue <= huge
    && (forall v :: InData(data, v) ==> b.minValue <= v <= b.maxValue)
  }

  /** The scale of a chart whose bounds are `b`. */
  ghost predicate ChartScaleOf(b: Bounds, scaleHeight: real, labelHeight: real, s: Scale, graphMax: real)
    requires labelHeight > 0.0 && scaleHeight >= 0.0 && b.minValue < b.maxValue
    requires b.maxSteps == MaxSteps(scaleHeight, labelHeight) && b.minSteps == MinSteps(scaleHeight, labelHeight)
  {
    BoundsLeaveRoom(scaleHeight, labelHeight);
    ScaleOf(b.maxSteps, b.minSteps, b.maxValue, b.minValue, s, graphMax)
  }

  /**
   * Bounds and scale composed: the bounds of a chart of non-negative height are always good enough for
   * the loop, and the rounded range holds the data.
   */
  method ChartScale(data: seq<seq<real>>, scaleHeight: real, labelHeight: real, tiny: real, huge: real, show: bool)
      returns (s: Option<Scale>, graphMax: real, b: Bounds)
    requires labelHeight > 0.0 && scaleHeight >= 0.0
    ensures BoundsOf(b, data, scaleHeight, labelHeight, tiny, huge)
    ensures s.Some? <==> b.minValue < b.maxValue
    ensures s == None ==> forall v, w :: InData(data, v) && InData(data, w) ==> v == w
    ensures s.Some? ==>
      && ChartScaleOf(b, scaleHeight, labelHeight, s.value, graphMax)
      && (forall v :: InData(data, v) ==> s.value.graphMin <= v <= graphMax)
      && |s.value.labels| == if show then s.value.steps else 0
  {
    b := GetValueBounds(data, scaleHeight, labelHeight, tiny, huge);
    s, graphMax := None, 0.0;
    if b.maxValue <= b.minValue {
      return;
    }
    BoundsLeaveRoom(scaleHeight, labelHeight);
    var scale, top, _ := CalculateScale(b.maxSteps, b.minSteps, b.maxValue, b.minValue, show);
    s, graphMax := Some(scale), top;
  }

  /** The step after a number of rounds, as long as the loop goes on. */
  function StepAfter(span: real, step: real, minSteps: int, rounds: nat): (r: real)
    requires step > 0.0
    ensures r > 0.0
  {
    if rounds == 0 then step
    else
      var s := StepAfter(span, step, minSteps, rounds - 1);
      if Round(span / s) < minSteps then s / 2.0 else s * 2.0
  }

  /** With a negative drawing height the upper bound is negative, and the loop never ends. */
  lemma {:induction false} NegativeHeightNeverEnds(span: real, step: real, scaleHeight: real, labelHeight: real, rounds: nat)
    requires labelHeight > 0.0 && scaleHeight < 0.0 && span > 0.0 && step > 0.0
    ensures var lo, hi := MinSteps(scaleHeight, labelHeight), MaxSteps(scaleHeight, labelHeight);
      && Unfit(Round(span / StepAfter(span, step, lo, rounds)), lo, hi)
      && StepAfter(span, step, lo, rounds) == Shifted(step, rounds)
  {
    if rounds > 0 {
      NegativeHeightNeverEnds(span, step, scaleHeight, labelHeight, rounds - 1);
    }
    var s := StepAfter(span, step, MinSteps(scaleHeight, labelHeight), rounds);
    assert span / s > 0.0;
    assert scaleHeight / (labelHeight * 0.66) < 0.0;
  }

  /**
   * Doubling can cut the top off: on a chart of the values 0 and 50, 14 pixels high with labels of 10,
   * the axis has one step of 40 and ends below the larger value.
   */
  method DoublingCutsTheTop() returns (s: Scale, graphMax: real)
    ensures s.graphMin == 0.0 && graphMax == 50.0 && s.steps == 1 && s.stepValue == 40.0
  {
    var data := [[0.0, 50.0]];
    var tiny, huge := 0.001, 1000000.0;
    assert data[0][0] == 0.0 && data[0][1] == 50.0;
    assert InData(data, 0.0) && InData(data, 50.0);
    assert forall v :: InData(data, v) ==> v == 0.0 || v == 50.0;
    var scale, top, b := ChartScale(data, 14.0, 10.0, tiny, huge, false);
    assert b.maxValue == 50.0 && b.minValue == 0.0;
    StepsForFourteen();
    TenIsUnit();
    FiveUnits();
    s, graphMax := scale.value, top;
  }

  lemma StepsForFourteen()
    ensures MaxSteps(14.0, 10.0) == 2 && MinSteps(14.0, 10.0) == 0
  {
    assert 10.0 * 0.66 == 6.6;
    assert 14.0 / 6.6 > 2.0 && 14.0 / 6.6 < 3.0;
    assert 14.0 / 10.0 * 0.5 == 0.7;
  }

  lemma TenIsUnit()
    ensures OrderOfMagnitude(50.0) == 1 && Pow10(1) == 10.0
    ensures GraphMin(0.0, 10.0) == 0.0 && GraphMax(50.0, 10.0) == 50.0 && Units(0.0, 50.0, 10.0) == 5
  {
    assert Pow10(0) == 1.0 && Pow10(1) == 10.0 && Pow10(2) == 100.0;
    OrderUnique(50.0, 1);
    assert 0.0 / 10.0 == 0.0 && 50.0 / 10.0 == 5.0;
  }

  lemma FiveUnits()
    ensures Fitting(5.0, 0, 2) && FinalRatio(5.0, 0, 2) == 1.25 && Round(1.25) == 1
    ensures Doublings(5.0, 2) == 2 && Shifted(10.0, 2) == 40.0
  {
    assert FinalRatio(5.0, 0, 2) == FinalRatio(2.5, 0, 2) == FinalRatio(1.25, 0, 2);
    assert Doublings(1.25, 2) == 0 && Doublings(2.5, 2) == 1;
    assert Shifted(10.0, 1) == 20.0;
  }

  // ----- plotting on the scale -------------------------------------------------------------

  function CapValue(value: real, max: Option<real>, min: Option<real>): real {
    if max.Some? && value > max.value then max.value
    else if min.Some? && value < min.value then min.value
    else value
  }

  function CalculateOffset(value: real, s: Scale, scaleHop: int): real
    requires s.steps > 0 && s.stepValue > 0.0
  {
    var outer := s.steps as real * s.stepValue;
    (scaleHop * s.steps) as real * CapValue((value - s.graphMin) / outer, Some(1.0), Some(0.0))
  }

  /** `scaleHop` of line and bar charts. */
  function ScaleHop(scaleHeight: real, steps: int): int
    requires steps > 0
  {
    (scaleHeight / steps as real).Floor
  }

  /** The hop is the largest number of pixels that every step can have. */
  lemma {:induction false} HopFits(scaleHeight: real, steps: int)
    requires steps > 0 && scaleHeight >= 0.0
    ensures 0 <= ScaleHop(scaleHeight, steps) && (ScaleHop(scaleHeight, steps) * steps) as real <= scaleHeight
    ensures scaleHeight < ((ScaleHop(scaleHeight, steps) + 1) * steps) as real
  {
    var q, n, hop := scaleHeight / steps as real, steps as real, ScaleHop(scaleHeight, steps);
    assert n * q == scaleHeight;
    CountFits(scaleHeight, n, q, hop);
    assert hop as real * n == (hop * steps) as real;
    assert (hop + 1) as real * n == ((hop + 1) * steps) as real;
    QuotientOrder(scaleHeight, n, 0.0);
  }

  /** Offsets stay on the axis, and larger values are never drawn lower. */
  lemma OffsetOnAxis(value: real, s: Scale, scaleHeight: real)
    requires s.steps > 0 && s.stepValue > 0.0 && scaleHeight >= 0.0
    ensures 0.0 <= CalculateOffset(value, s, ScaleHop(scaleHeight, s.steps)) <= scaleHeight
  {
    var hop := ScaleHop(scaleHeight, s.steps);
    HopFits(scaleHeight, s.steps);
    var share := CapValue((value - s.graphMin) / (s.steps as real * s.stepValue), Some(1.0), Some(0.0));
    assert 0 <= hop * s.steps;
    MulMonotone((hop * s.steps) as real, 0.0, share);
    MulMonotone((hop * s.steps) as real, share, 1.0);
  }

  lemma OffsetMonotone(v: real, w: real, s: Scale, scaleHop: int)
    requires s.steps > 0 && s.stepValue > 0.0 && 0 <= scaleHop && v <= w
    ensures CalculateOffset(v, s, scaleHop) <= CalculateOffset(w, s, scaleHop)
  {
    var outer := s.steps as real * s.stepValue;
    var a, b := (v - s.graphMin) / outer, (w - s.graphMin) / outer;
    ShareOrder(v - s.graphMin, w - s.graphMin, s.steps as real, s.stepValue);
    HopProduct(scaleHop, s.steps);
    CappedOrder((scaleHop * s.steps) as real, a, b);
  }

  lemma ShareOrder(x: real, y: real, steps: real, step: real)
    requires 0.0 < steps && 0.0 < step && x <= y
    ensures 0.0 < steps * step && x / (steps * step) <= y / (steps * step)
  {
    MulLess(steps, 0.0, step);
    DivMonotone(x, y, steps * step);
  }

  lemma HopProduct(hop: int, steps: int)
    requires 0 <= hop && 0 <= steps
    ensures 0.0 <= (hop * steps) as real
  {
  }

  lemma CappedOrder(k: real, a: real, b: real)
    requires 0.0 <= k && a <= b
    ensures k * CapValue(a, Some(1.0), Some(0.0)) <= k * CapValue(b, Some(1.0), Some(0.0))
  {
    MulMonotone(k, CapValue(a, Some(1.0), Some(0.0)), CapValue(b, Some(1.0), Some(0.0)));
  }

  /** A value on a grid line is drawn on that grid line: line `i` is at `i * scaleHop`. */
  lemma GridAligned(s: Scale, scaleHop: int, i: int)
    requires 0 <= i <= s.steps && s.steps > 0 && s.stepValue > 0.0
    ensures CalculateOffset(s.graphMin + s.stepValue * i as real, s, scaleHop) == (i * scaleHop) as real
  {
    var n, k := s.steps as real, i as real;
    var v := s.graphMin + s.stepValue * k;
    assert v - s.graphMin == s.stepValue * k;
    LineShare(k, n, s.stepValue);
    OffsetIs(v, s, scaleHop, k / n);
    LinePixel(scaleHop, s.steps, i);
  }

  /** Line `k` of `n` is the share `k / n` of the axis, whatever the step. */
  lemma LineShare(k: real, n: real, step: real)
    requires 0.0 <= k <= n && 0.0 < n && 0.0 < step
    ensures 0.0 < n * step && (step * k) / (n * step) == k / n && 0.0 <= k / n <= 1.0
  {
    var share := k / n;
    assert n * share == k;
    assert (step * k) == share * (n * step);
    if share < 0.0 {
      MulLess(n, share, 0.0);
    }
    if 1.0 < share {
      MulLess(n, 1.0, share);
    }
  }

  lemma LinePixel(scaleHop: int, steps: int, i: int)
    requires 0 < steps
    ensures (scaleHop * steps) as real * (i as real / steps as real) == (i * scaleHop) as real
  {
    var share := i as real / steps as real;
    assert (scaleHop * steps) as real == scaleHop as real * steps as real;
    assert steps as real * share == i as real;
    assert scaleHop as real * steps as real * share == scaleHop as real * (steps as real * share);
    assert (i * scaleHop) as real == i as real * scaleHop as real;
  }

  lemma OffsetIs(v: real, s: Scale, scaleHop: int, share: real)
    requires s.steps > 0 && s.stepValue > 0.0 && s.steps as real * s.stepValue > 0.0
    requires share == (v - s.graphMin) / (s.steps as real * s.stepValue) && 0.0 <= share <= 1.0
    ensures CalculateOffset(v, s, scaleHop) == (scaleHop * s.steps) as real * share
  {
  }

  /** Every label is written on the grid line where its value is drawn. */
  lemma LabelOnItsLine(s: Scale, scaleHop: int, j: int)
    requires Labelled(s.labels, s.graphMin, s.stepValue) && |s.labels| <= s.steps && s.stepValue > 0.0
    requires 0 <= j < |s.labels|
    ensures CalculateOffset(s.labels[j], s, scaleHop) == ((j + 1) * scaleHop) as real
  {
    GridAligned(s, scaleHop, j + 1);
  }

  /** Where a value belongs on the axis, in proportion. */
  ghost function TrueHeight(v: real, s: Scale, scaleHop: int): real
    requires s.steps > 0 && s.stepValue > 0.0
  {
    (scaleHop * s.steps) as real * ((v - s.graphMin) / (s.steps as real * s.stepValue))
  }

  /** A value is drawn at its true height exactly when the axis reaches it (or has no height at all). */
  lemma TrueHeightIff(v: real, s: Scale, scaleHop: int)
    requires s.steps > 0 && s.stepValue > 0.0 && scaleHop >= 0 && s.graphMin <= v
    ensures CalculateOffset(v, s, scaleHop) == TrueHeight(v, s, scaleHop)
       <==> scaleHop == 0 || v - s.graphMin <= Product(s.steps as real, s.stepValue)
  {
    MulLess(s.steps as real, 0.0, s.stepValue);
    var outer, x := s.steps as real * s.stepValue, v - s.graphMin;
    QuotientOrder(x, outer, 0.0);
    QuotientOrder(x, outer, 1.0);
    CapChanges(scaleHop, s.steps, x / outer);
  }

  lemma CapChanges(hop: int, steps: int, share: real)
    requires 0 <= hop && 0 < steps && 0.0 <= share
    ensures (hop * steps) as real * CapValue(share, Some(1.0), Some(0.0)) == (hop * steps) as real * share
       <==> hop == 0 || share <= 1.0
  {
    if hop == 0 {
      assert hop * steps == 0;
    } else if share > 1.0 {
      assert 0 < hop * steps;
      MulLess((hop * steps) as real, 1.0, share);
    }
  }

  /**
   * A whole chart: bounds, scale and offsets composed. Unless the data are one value or the height has
   * no room for a step, every value is drawn on the axis, larger values are never drawn lower, and a
   * value is drawn at its true height exactly if it is within the length of the axis, which follows
   * from the range of the data and the height.
   */
  method DrawChart(data: seq<seq<real>>, scaleHeight: real, labelHeight: real, tiny: real, huge: real)
      returns (s: Option<Scale>, hop: int, offsets: seq<seq<real>>, b: Bounds)
    requires labelHeight > 0.0 && scaleHeight >= 0.0
    ensures BoundsOf(b, data, scaleHeight, labelHeight, tiny, huge)
    ensures s.Some? <==> b.minValue < b.maxValue && 1 <= b.maxSteps
    ensures s.Some? ==> exists graphMax :: ChartScaleOf(b, scaleHeight, labelHeight, s.value, graphMax)
    ensures s.Some? ==>
      && s.value.steps > 0 && s.value.stepValue > 0.0 && hop == ScaleHop(scaleHeight, s.value.steps) && 0 <= hop
      && |s.value.labels| == s.value.steps && Drawn(data, offsets, |data|, s.value, hop)
    ensures s.Some? ==> TopNear(s.value, scaleHeight, hop)
    ensures s.Some? ==> forall v, w :: InData(data, v) && InData(data, w) && v <= w ==>
      0.0 <= CalculateOffset(v, s.value, hop) <= CalculateOffset(w, s.value, hop) <= scaleHeight
    ensures s.Some? ==>
      var unit := Pow10(OrderOfMagnitude(b.maxValue - b.minValue));
      var whole := Units(b.minValue, b.maxValue, unit);
      && 1 <= whole && s.value.graphMin == GraphMin(b.minValue, unit)
      && forall v :: InData(data, v) ==>
           (CalculateOffset(v, s.value, hop) == TrueHeight(v, s.value, hop) <==>
              hop == 0 || v - s.value.graphMin <= AxisLength(whole, unit, b.maxSteps))
  {
    var scale, top, bounds := ChartScale(data, scaleHeight, labelHeight, tiny, huge, true);
    s, hop, offsets, b := scale, 0, [], bounds;
    if scale == None || scale.value.steps == 0 {
      s := None;
      return;
    }
    hop := ScaleHop(scaleHeight, scale.value.steps);
    TopDrawn(scale.value, scaleHeight, hop);
    offsets := DrawData(data, scale.value, hop);
    OffsetsRight(data, scale.value, scaleHeight, hop);
  }

  ghost predicate TopNear(s: Scale, scaleHeight: real, hop: int)
    requires s.steps > 0 && s.stepValue > 0.0
  {
    var top := s.graphMin + s.stepValue * s.steps as real;
    scaleHeight - s.steps as real < CalculateOffset(top, s, hop) <= scaleHeight
  }

  /** The top of the axis is drawn less than one pixel per step below the full height. */
  lemma TopDrawn(s: Scale, scaleHeight: real, hop: int)
    requires s.steps > 0 && s.stepValue > 0.0 && scaleHeight >= 0.0 && hop == ScaleHop(scaleHeight, s.steps)
    ensures 0 <= hop && TopNear(s, scaleHeight, hop)
  {
    HopFits(scaleHeight, s.steps);
    GridAligned(s, hop, s.steps);
    assert s.steps * hop == hop * s.steps;
    assert (hop + 1) * s.steps == hop * s.steps + s.steps;
  }

  lemma OffsetsRight(data: seq<seq<real>>, s: Scale, scaleHeight: real, hop: int)
    requires s.steps > 0 && s.stepValue > 0.0 && scaleHeight >= 0.0 && hop == ScaleHop(scaleHeight, s.steps) && 0 <= hop
    requires forall v :: InData(data, v) ==> s.graphMin <= v
    ensures forall v, w :: InData(data, v) && InData(data, w) && v <= w ==>
      0.0 <= CalculateOffset(v, s, hop) <= CalculateOffset(w, s, hop) <= scaleHeight
    ensures forall v :: InData(data, v) ==>
      (CalculateOffset(v, s, hop) == TrueHeight(v, s, hop) <==>
         hop == 0 || v - s.graphMin <= Product(s.steps as real, s.stepValue))
  {
    forall v, w | InData(data, v) && InData(data, w) && v <= w
      ensures 0.0 <= CalculateOffset(v, s, hop) <= CalculateOffset(w, s, hop) <= scaleHeight
    {
      OffsetOnAxis(v, s, scaleHeight);
      OffsetOnAxis(w, s, scaleHeight);
      OffsetMonotone(v, w, s, hop);
    }
    forall v | InData(data, v)
      ensures CalculateOffset(v, s, hop) == TrueHeight(v, s, hop) <==>
        hop == 0 || v - s.graphMin <= Product(s.steps as real, s.stepValue)
    {
      TrueHeightIff(v, s, hop);
    }
  }

  /** The offset of every value of every dataset. */
  method DrawData(data: seq<seq<real>>, s: Scale, hop: int) returns (offsets: seq<seq<real>>)
    requires s.steps > 0 && s.stepValue > 0.0
    ensures Drawn(data, offsets, |data|, s, hop)
  {
    offsets := [];
    for i := 0 to |data|
      invariant Drawn(data, offsets, i, s, hop)
    {
      var line := [];
      for j := 0 to |data[i]|
        invariant |line| == j && forall k :: 0 <= k < j ==> line[k] == CalculateOffset(data[i][k], s, hop)
      {
        line := line + [CalculateOffset(data[i][j], s, hop)];
      }
      offsets := offsets + [line];
    }
  }

  ghost predicate Drawn(data: seq<seq<real>>, offsets: seq<seq<real>>, n: int, s: Scale, hop: int)
    requires s.steps > 0 && s.stepValue > 0.0
  {
    && |offsets| == n <= |data|
    && (forall i :: 0 <= i < n ==> |offsets[i]| == |data[i]|)
    && (forall i, j :: 0 <= i < n && 0 <= j < |data[i]| ==> offsets[i][j] == CalculateOffset(data[i][j], s, hop))
  }
}
