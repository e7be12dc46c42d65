/**
 * Layout of plain (not stacked) bar charts (jquery.sparkline.js, `bar`: init, renderRegion,
 * getRegion). Numbers are exact reals; pixel positions are integers.
 */
module BarLayout {
  import opened Sequences
  import opened Rounding

  datatype Options = Options(chartMin: Option<real>, chartMax: Option<real>, clip: bool, zeroAxis: bool)

  /** Arithmetic reads `null` as 0. */
  function Coerce(v: Option<real>): real {
    if v.Some? then v.value else 0.0
  }

  /** `clipval` with missing bounds read as infinite. */
  function Clip(o: Options, v: Option<real>): Option<real> {
    if o.clip && o.chartMin.Some? && Coerce(v) < o.chartMin.value then o.chartMin
    else if o.clip && o.chartMax.Some? && Coerce(v) > o.chartMax.value then o.chartMax
    else v
  }

  /** Clipping takes the nearest value that both bounds allow, and leaves alone what is allowed already. */
  lemma ClipNearest(o: Options, v: Option<real>)
    requires OrderedClip(o)
    ensures !o.clip ==> Clip(o, v) == v
    ensures o.clip ==> Allowed(o, Coerce(Clip(o, v))) && (Allowed(o, Coerce(v)) ==> Clip(o, v) == v)
    ensures o.clip ==> forall x :: Allowed(o, x) ==> Abs(Coerce(Clip(o, v)) - Coerce(v)) <= Abs(x - Coerce(v))
  {
  }

  predicate Allowed(o: Options, x: real) {
    (o.chartMin.Some? ==> o.chartMin.value <= x) && (o.chartMax.Some? ==> x <= o.chartMax.value)
  }

  /** What `init` settles for the whole chart. */
  datatype Geometry = Geometry(min: real, max: real, base: real, span: real, reach: int, yoffset: int, fractional: bool)

  /** The value drawn as the zero line (`xaxisOffset`). */
  function BaseLine(o: Options, min: real, max: real): real {
    if min <= 0.0 && max >= 0.0 && o.zeroAxis then 0.0
    else if !o.zeroAxis then min
    else if min > 0.0 then min
    else max
  }

  function GeometryFor(o: Options, min: real, max: real, height: int): Geometry {
    var base := BaseLine(o, min, max);
    var span := max - min;
    var reach := if o.zeroAxis && min < 0.0 then height - 2 else height - 1;
    if min < base then
      assert span != 0.0;
      var offset := (max - base) / span * height as real;
      if offset != Ceil(offset) as real then Geometry(min, max, base, span, reach - 2, Ceil(offset), true)
      else Geometry(min, max, base, span, reach, Ceil(offset), false)
    else Geometry(min, max, base, span, reach, height, false)
  }

  function RangeMin(o: Options, min: real): real {
    if o.chartMin.Some? && (o.clip || o.chartMin.value < min) then o.chartMin.value else min
  }

  function RangeMax(o: Options, max: real): real {
    if o.chartMax.Some? && (o.clip || o.chartMax.value > max) then o.chartMax.value else max
  }

  /** Unless forced, the range is the least one that holds the data and the options; a forced end is taken as it is. */
  lemma RangeLeast(o: Options, min: real, max: real)
    ensures var lo, hi := RangeMin(o, min), RangeMax(o, max);
      && (o.chartMin == None ==> lo == min) && (o.chartMax == None ==> hi == max)
      && (o.chartMin.Some? && o.clip ==> lo == o.chartMin.value)
      && (o.chartMax.Some? && o.clip ==> hi == o.chartMax.value)
      && (o.chartMin.Some? && !o.clip ==> lo <= min && lo <= o.chartMin.value && (lo == min || lo == o.chartMin.value))
      && (o.chartMax.Some? && !o.clip ==> max <= hi && o.chartMax.value <= hi && (hi == max || hi == o.chartMax.value))
  {
  }

  /** The zero line is the value of the range nearest to 0, or the minimum without a zero axis. */
  lemma BaseLineNearest(o: Options, min: real, max: real)
    requires min <= max
    ensures var b := BaseLine(o, min, max);
      && min <= b <= max && (!o.zeroAxis ==> b == min)
      && (o.zeroAxis ==> forall z :: min <= z <= max ==> Abs(b) <= Abs(z))
  {
  }

  /** Where the zero line is drawn: its proportion of the height from the top, rounded up, or the bottom edge. */
  lemma ZeroLineDrawn(o: Options, min: real, max: real, height: int)
    requires min <= max
    ensures var g := GeometryFor(o, min, max, height);
      && g.min == min && g.max == max && g.span == max - min && g.base == BaseLine(o, min, max)
      && (g.base == min ==> g.yoffset == height && !g.fractional)
      && (min < g.base ==>
            && (g.yoffset - 1) as real * (max - min) < height as real * (max - g.base) <= g.yoffset as real * (max - min)
            && (g.fractional <==> height as real * (max - g.base) < g.yoffset as real * (max - min)))
  {
    var g := GeometryFor(o, min, max, height);
    if min < g.base {
      CeilTimes(max - g.base, max - min, height, g.yoffset, g.fractional);
    }
  }

  lemma CeilTimes(x: real, span: real, height: int, n: int, fractional: bool)
    requires 0.0 < span && n == Ceil(x / span * height as real) && (fractional <==> x / span * height as real != n as real)
    ensures (n - 1) as real * span < height as real * x <= n as real * span
    ensures fractional <==> height as real * x < n as real * span
  {
    var offset := x / span * height as real;
    OffsetTimes(x, span, height as real);
    CeilScaled(span, offset, n);
  }

  lemma CeilScaled(span: real, offset: real, n: int)
    requires 0.0 < span && n == Ceil(offset)
    ensures (n - 1) as real * span < span * offset <= n as real * span
    ensures offset != n as real <==> span * offset < n as real * span
  {
    MulLess(span, n as real - 1.0, offset);
    if offset != n as real {
      MulLess(span, offset, n as real);
    }
  }

  lemma OffsetTimes(x: real, span: real, h: real)
    requires 0.0 < span
    ensures span * (x / span * h) == h * x
  {
    var share := x / span;
    assert span * share == x;
    assert span * (share * h) == (span * share) * h;
  }

  /** A forced range must not be turned around. */
  predicate OrderedClip(o: Options) {
    o.clip && o.chartMin.Some? && o.chartMax.Some? ==> o.chartMin.value <= o.chartMax.value
  }

  /** The numbers among the values. */
  ghost predicate IsNumber(values: seq<Option<real>>, v: real) {
    Some(v) in values
  }

  ghost predicate Extremes(values: seq<Option<real>>, lo: real, hi: real) {
    IsNumber(values, lo) && IsNumber(values, hi) && forall v :: IsNumber(values, v) ==> lo <= v <= hi
  }

  /**
   * The geometry of a chart: that of the extremes of its numbers as the range options widen them; without
   * a number that of the two range options, or none if one of them is missing.
   */
  ghost predicate GeometryOf(o: Options, values: seq<Option<real>>, height: int, g: Option<Geometry>) {
    if exists v :: IsNumber(values, v) then
      exists lo, hi :: Extremes(values, lo, hi) && g == Some(GeometryFor(o, RangeMin(o, lo), RangeMax(o, hi), height))
    else if o.chartMin.Some? && o.chartMax.Some? then
      g == Some(GeometryFor(o, o.chartMin.value, o.chartMax.value, height))
    else g == None
  }

  /**
   * `init`: clip the values, take their range, apply the range options, settle the geometry. Without
   * any number the range is infinite and turned around; both range options together replace it, and
   * otherwise there is no proper geometry.
   */
  method Init(o: Options, raw: seq<Option<real>>, height: int) returns (values: seq<Option<real>>, g: Option<Geometry>)
    ensures |values| == |raw| && forall i :: 0 <= i < |raw| ==> values[i] == Clip(o, raw[i])
    ensures GeometryOf(o, values, height, g)
  {
    values := [];
    var min: Option<real>, max: Option<real> := None, None;
    for i := 0 to |raw|
      invariant |values| == i && forall j :: 0 <= j < i ==> values[j] == Clip(o, raw[j])
      invariant min.Some? <==> max.Some?
      invariant min == None ==> forall v :: !IsNumber(values, v)
      invariant min.Some? ==> Extremes(values, min.value, max.value)
    {
      var v := Clip(o, raw[i]);
      ghost var before := values;
      values := values + [v];
      assert forall x :: IsNumber(values, x) <==> IsNumber(before, x) || Some(x) == v;
      if v.Some? {
        if min == None || v.value < min.value { min := v; }
        if max == None || v.value > max.value { max := v; }
      }
    }
    if min.Some? {
      assert IsNumber(values, min.value);
      g := Some(GeometryFor(o, RangeMin(o, min.value), RangeMax(o, max.value), height));
    } else if o.chartMin.Some? && o.chartMax.Some? {
      g := Some(GeometryFor(o, o.chartMin.value, o.chartMax.value, height));
    } else {
      g := None;
    }
  }

  lemma ClippedInside(o: Options, raw: seq<Option<real>>, values: seq<Option<real>>, v: real)
    requires OrderedClip(o) && |values| == |raw| && forall i :: 0 <= i < |raw| ==> values[i] == Clip(o, raw[i])
    requires IsNumber(values, v)
    ensures o.clip && o.chartMin.Some? ==> o.chartMin.value <= v
    ensures o.clip && o.chartMax.Some? ==> v <= o.chartMax.value
  {
    var i :| 0 <= i < |values| && values[i] == Some(v);
    assert values[i] == Clip(o, raw[i]);
  }

  // ----- one bar ---------------------------------------------------------------------------

  datatype Bar = Bar(top: int, height: int, below: bool)

  function Abs(x: real): real {
    if x < 0.0 then -x else x
  }

  function BarHeight(g: Geometry, v: Option<real>): int {
    if g.span > 0.0 then (g.reach as real * (Abs(Coerce(v) - g.base) / g.span)).Floor + 1 else 1
  }

  /** Below the zero line; a value on it hangs below only when the line is the top edge. `null` is never equal to it. */
  predicate Hangs(g: Geometry, v: Option<real>) {
    Coerce(v) < g.base || (v == Some(g.base) && g.yoffset == 0)
  }

  function BarFor(g: Geometry, v: Option<real>): Bar {
    var h := BarHeight(g, v);
    if Hangs(g, v) then Bar(g.yoffset, h, true) else Bar(g.yoffset - h, h, false)
  }

  /**
   * How a value is drawn in a chart with a proper geometry: its bar is one pixel more than its distance
   * from the zero line in proportion, rounded down, and touches the zero line, from above if the value is
   * larger, from below if it is smaller.
   */
  ghost predicate DrawnAs(g: Geometry, v: Option<real>, bar: Bar) {
    var x := Coerce(v);
    var distance := if x < g.base then g.base - x else x - g.base;
    && (if g.span > 0.0
        then (bar.height - 1) as real * g.span <= g.reach as real * distance < bar.height as real * g.span
        else bar.height == 1)
    && (if bar.below then bar.top == g.yoffset else bar.top + bar.height == g.yoffset)
    && (x < g.base ==> bar.below) && (x > g.base ==> !bar.below)
    && (x == g.base ==> (bar.below <==> v.Some? && g.yoffset == 0))
  }

  lemma {:induction false} BarIsDrawn(g: Geometry, v: Option<real>)
    ensures DrawnAs(g, v, BarFor(g, v))
  {
    if g.span > 0.0 {
      HeightIs(g.reach as real, Abs(Coerce(v) - g.base), g.span, BarHeight(g, v));
    }
  }

  lemma HeightIs(k: real, x: real, span: real, h: int)
    requires 0.0 < span && h == (k * (x / span)).Floor + 1
    ensures (h - 1) as real * span <= k * x < h as real * span
  {
    FloorTimes(k, x, span, h - 1);
  }

  lemma FloorTimes(k: real, x: real, span: real, n: int)
    requires 0.0 < span && n == (k * (x / span)).Floor
    ensures n as real * span <= k * x < (n + 1) as real * span
  {
    TimesQuotient(k, x, span);
    FloorBounds(k, x, span, n);
  }

  lemma FloorBounds(k: real, x: real, span: real, n: int)
    requires 0.0 < span && n == (k * (x / span)).Floor && span * (k * (x / span)) == k * x
    ensures n as real * span <= k * x < (n + 1) as real * span
  {
    WholeBounds(span, k * (x / span), k * x, n);
  }

  lemma WholeBounds(span: real, q: real, y: real, n: int)
    requires 0.0 < span && y == span * q && n as real <= q < n as real + 1.0
    ensures n as real * span <= y < (n + 1) as real * span
  {
    Sandwich(span, q, n as real, n as real + 1.0, y);
  }

  lemma Sandwich(span: real, q: real, lo: real, hi: real, y: real)
    requires 0.0 < span && lo <= q < hi && y == span * q
    ensures lo * span <= y < hi * span
  {
    MulMonotone(span, lo, q);
    MulLess(span, q, hi);
  }

  lemma TimesQuotient(k: real, x: real, span: real)
    requires 0.0 < span
    ensures span * (k * (x / span)) == k * x
  {
    var share := x / span;
    assert span * share == x;
    assert span * (k * share) == k * (span * share);
  }

  /** A value farther from the zero line is never drawn shorter. */
  lemma {:induction false} FartherIsTaller(g: Geometry, v: Option<real>, w: Option<real>)
    requires 0 <= g.reach && Abs(Coerce(v) - g.base) <= Abs(Coerce(w) - g.base)
    ensures BarFor(g, v).height <= BarFor(g, w).height
  {
    if g.span > 0.0 {
      TallerBy(g.reach, Abs(Coerce(v) - g.base), Abs(Coerce(w) - g.base), g.span, BarHeight(g, v), BarHeight(g, w));
    }
    assert BarFor(g, v).height == BarHeight(g, v) && BarFor(g, w).height == BarHeight(g, w);
  }

  lemma TallerBy(reach: int, d: real, e: real, span: real, m: int, n: int)
    requires 0 <= reach && 0.0 <= d <= e && 0.0 < span
    requires m == (reach as real * (d / span)).Floor + 1 && n == (reach as real * (e / span)).Floor + 1
    ensures m <= n
  {
    var a, b := d / span, e / span;
    assert a <= b by {
      Share(d, e, span);
    }
    MulMonotone(reach as real, a, b);
  }

  /** Dividing by a positive number is multiplying by its inverse. */
  lemma Inverse(x: real, span: real)
    requires 0.0 < span
    ensures 0.0 < 1.0 / span && x / span == x * (1.0 / span) && span * (1.0 / span) == 1.0 && span / span == 1.0
  {
  }

  lemma Share(x: real, y: real, span: real)
    requires 0.0 <= x <= y && 0.0 < span
    ensures 0.0 <= x / span <= y / span
  {
    var k := 1.0 / span;
    Inverse(x, span);
    Inverse(y, span);
    MulMonotone(k, 0.0, x);
    MulMonotone(k, x, y);
  }

  lemma ScaledFloor(reach: int, x: real, y: real)
    requires 0 <= reach && 0.0 <= x <= y
    ensures 0 <= (reach as real * x).Floor <= (reach as real * y).Floor
  {
    MulMonotone(reach as real, 0.0, x);
    MulMonotone(reach as real, x, y);
  }

  /** A bar is no taller than the bar that reaches `most` away from the zero line. */
  lemma HeightBound(g: Geometry, v: Option<real>, most: real)
    requires 0.0 < g.span && 0 <= g.reach && Abs(Coerce(v) - g.base) <= most
    ensures 1 <= BarHeight(g, v) <= (g.reach as real * (most / g.span)).Floor + 1
  {
    var d := Abs(Coerce(v) - g.base);
    Share(d, most, g.span);
    ScaledFloor(g.reach, d / g.span, most / g.span);
  }

  /** A chart that hangs or stands entirely on one edge. */
  lemma OneSided(o: Options, min: real, max: real, height: int, v: Option<real>)
    requires 4 <= height && min <= max && min <= Coerce(v) <= max
    requires var b := BaseLine(o, min, max); b == min || b == max
    requires v.Some? || !(min < BaseLine(o, min, max))
    ensures var bar := BarFor(GeometryFor(o, min, max, height), v);
      1 <= bar.height && 0 <= bar.top && bar.top + bar.height <= height
  {
    var g := GeometryFor(o, min, max, height);
    if min < max {
      Inverse(max - min, g.span);
      assert g.yoffset == 0 || g.yoffset == height by {
        if g.base == max {
          assert (max - g.base) / g.span * height as real == 0.0;
        }
      }
      HeightBound(g, v, max - min);
      assert g.reach as real * ((max - min) / g.span) == g.reach as real;
    }
  }

  /** The zero line splits the canvas: the share above it is `max / (max - min)`. */
  lemma TwoSided(o: Options, min: real, max: real, height: int, v: real)
    requires 4 <= height && min < 0.0 < max && o.zeroAxis && min <= v <= max
    ensures var g := GeometryFor(o, min, max, height);
      var bar := BarFor(g, Some(v));
      && 1 <= bar.height && 0 <= bar.top
      && bar.top + bar.height <= height + (if bar.below && g.fractional then 1 else 0)
      && (4.0 * max <= 3.0 * (max - min) ==> bar.top + bar.height <= height)
  {
    TwoSidedGeometry(o, min, max, height);
    if v < 0.0 {
      HangingBar(GeometryFor(o, min, max, height), min, max, height, v);
    } else {
      StandingBar(GeometryFor(o, min, max, height), min, max, height, v);
    }
  }

  lemma StandingBar(g: Geometry, min: real, max: real, height: int, v: real)
    requires 4 <= height && min < 0.0 < max && 0.0 <= v <= max && AroundZero(g, min, max, height)
    ensures var bar := BarFor(g, Some(v));
      !bar.below && 1 <= bar.height && 0 <= bar.top && bar.top + bar.height <= height
  {
    SplitShare(min, max);
    UpperPart(g.reach, height, max / g.span, g.yoffset, g.fractional);
    HeightBound(g, Some(v), max);
  }

  lemma HangingBar(g: Geometry, min: real, max: real, height: int, v: real)
    requires 4 <= height && min < 0.0 < max && min <= v < 0.0 && AroundZero(g, min, max, height)
    ensures var bar := BarFor(g, Some(v));
      && bar.below && 1 <= bar.height && 0 <= bar.top
      && bar.top + bar.height <= height + (if g.fractional then 1 else 0)
      && (4.0 * max <= 3.0 * (max - min) ==> bar.top + bar.height <= height)
  {
    var deepest := (g.reach as real * (-min / g.span)).Floor + 1;
    var inside := 4.0 * max <= 3.0 * (max - min);
    LowerReach(g, min, max, height);
    HeightBound(g, Some(v), -min);
    HangingFits(g, height, v, deepest, inside);
  }

  lemma HangingFits(g: Geometry, height: int, v: real, deepest: int, inside: bool)
    requires g.base == 0.0 && v < 0.0 && 1 <= BarHeight(g, Some(v)) <= deepest && 0 <= g.yoffset
    requires g.yoffset + deepest <= height + if g.fractional && !inside then 1 else 0
    ensures var bar := BarFor(g, Some(v));
      && bar.below && 1 <= bar.height && 0 <= bar.top
      && bar.top + bar.height <= height + (if g.fractional && !inside then 1 else 0)
  {
    assert Hangs(g, Some(v));
  }

  /** How far the deepest bar reaches. */
  lemma LowerReach(g: Geometry, min: real, max: real, height: int)
    requires 4 <= height && min < 0.0 < max && AroundZero(g, min, max, height)
    ensures var deepest := (g.reach as real * (-min / g.span)).Floor + 1;
      && 0 <= g.yoffset
      && g.yoffset + deepest <= height + (if g.fractional then 1 else 0)
      && (4.0 * max <= 3.0 * (max - min) ==> g.yoffset + deepest <= height)
  {
    var t := max / (max - min);
    SplitShare(min, max);
    LowerPart(g.reach, height, t, -min / g.span, g.yoffset, g.fractional);
    if 4.0 * max <= 3.0 * (max - min) {
      ThreeQuarters(min, max);
    }
  }

  lemma TwoSidedGeometry(o: Options, min: real, max: real, height: int)
    requires 4 <= height && min < 0.0 < max && o.zeroAxis
    ensures AroundZero(GeometryFor(o, min, max, height), min, max, height)
  {
  }

  /** The geometry when the zero line lies strictly inside the canvas. */
  ghost predicate AroundZero(g: Geometry, min: real, max: real, height: int)
    requires min < max
  {
    var top := max / (max - min) * height as real;
    && g.base == 0.0 && g.span == max - min
    && g.yoffset == Ceil(top) && (g.fractional <==> top != g.yoffset as real)
    && g.reach == if g.fractional then height - 4 else height - 2
  }

  lemma SplitShare(min: real, max: real)
    requires min < 0.0 < max
    ensures 0.0 < max / (max - min) < 1.0
    ensures -min / (max - min) == 1.0 - max / (max - min)
  {
    var k := 1.0 / (max - min);
    Inverse(max, max - min);
    Inverse(-min, max - min);
    assert 0.0 < max * k && 0.0 < -min * k;
    assert max * k + -min * k == (max - min) * k;
  }

  lemma ThreeQuarters(min: real, max: real)
    requires min < 0.0 < max && 4.0 * max <= 3.0 * (max - min)
    ensures max / (max - min) <= 0.75
  {
    var k := 1.0 / (max - min);
    Inverse(max, max - min);
    assert k * (3.0 * (max - min)) == 3.0;
    assert k * (4.0 * max) == 4.0 * (max * k);
    MulMonotone(k, 4.0 * max, 3.0 * (max - min));
  }

  lemma UpperPart(reach: int, height: int, t: real, yoffset: int, fractional: bool)
    requires 4 <= height && 0.0 < t < 1.0
    requires yoffset == Ceil(t * height as real) && (fractional <==> t * height as real != yoffset as real)
    requires reach == if fractional then height - 4 else height - 2
    ensures (reach as real * t).Floor + 1 <= yoffset <= height
  {
    PartBelow(reach, height, t);
  }

  lemma PartBelow(reach: int, height: int, t: real)
    requires reach < height && 0 <= height && 0.0 < t < 1.0
    ensures (reach as real * t).Floor + 1 <= Ceil(t * height as real) <= height
  {
    var x, y := reach as real * t, t * height as real;
    MulLess(t, reach as real, height as real);
    ShareWithin(height as real, t);
    assert x < y <= height as real;
    FloorBelowCeil(x, y, height);
  }

  lemma FloorBelowCeil(x: real, y: real, most: int)
    requires x < y <= most as real
    ensures x.Floor + 1 <= Ceil(y) <= most
  {
  }

  lemma LowerPart(reach: int, height: int, t: real, s: real, yoffset: int, fractional: bool)
    requires 4 <= height && 0.0 < t < 1.0 && s == 1.0 - t
    requires yoffset == Ceil(t * height as real) && (fractional <==> t * height as real != yoffset as real)
    requires reach == if fractional then height - 4 else height - 2
    ensures 0 <= yoffset
    ensures yoffset + (reach as real * s).Floor + 1 <= height + (if fractional then 1 else 0)
    ensures t <= 0.75 ==> yoffset + (reach as real * s).Floor + 1 <= height
  {
    var gap := (height - reach) as real;
    assert reach as real * s == height as real - gap - t * height as real + gap * t;
    assert gap == 2.0 || gap == 4.0;
    MulMonotone(height as real, 0.0, t);
  }

  /**
   * Every bar of a number is at least one pixel high, starts on the canvas and ends on it; only a bar
   * below a fractional zero line can stick out, and then by a single pixel.
   */
  lemma {:induction false} BarFits(o: Options, min: real, max: real, height: int, v: real)
    requires 4 <= height && min <= v <= max
    ensures var g := GeometryFor(o, min, max, height);
      var bar := BarFor(g, Some(v));
      && 1 <= bar.height && 0 <= bar.top
      && bar.top + bar.height <= height + (if bar.below && g.fractional then 1 else 0)
      && (4.0 * (max - g.base) <= 3.0 * (max - min) ==> bar.top + bar.height <= height)
  {
    var b := BaseLine(o, min, max);
    if b == min || b == max {
      OneSided(o, min, max, height, Some(v));
    } else {
      TwoSided(o, min, max, height, v);
    }
  }

  predicate Inside(bar: Bar, height: int) {
    0 <= bar.top && bar.top + bar.height <= height
  }

  /** Where the zero line falls, in pixels from the top. */
  function ZeroLine(min: real, max: real, height: int): real
    requires min < max
  {
    max / (max - min) * height as real
  }

  /** A bar below a zero line that falls between two pixels, deep enough to use up what rounding the line down left. */
  predicate SticksOut(o: Options, min: real, max: real, height: int, v: real) {
    o.zeroAxis && min < 0.0 < max && v < 0.0 &&
    var zero := ZeroLine(min, max, height);
    zero != Ceil(zero) as real && (height - 4) as real * -v >= (height - Ceil(zero)) as real * (max - min)
  }

  /** A number's bar is on the canvas exactly unless it sticks out in that way. */
  lemma {:induction false} BarInsideIff(o: Options, min: real, max: real, height: int, v: real)
    requires 4 <= height && min <= v <= max
    ensures Inside(BarFor(GeometryFor(o, min, max, height), Some(v)), height) <==> !SticksOut(o, min, max, height, v)
  {
    if o.zeroAxis && min < 0.0 < max && v < 0.0 {
      TwoSidedGeometry(o, min, max, height);
      HangingInsideIff(GeometryFor(o, min, max, height), min, max, height, v);
    } else {
      OthersInside(o, min, max, height, v);
    }
  }

  lemma OthersInside(o: Options, min: real, max: real, height: int, v: real)
    requires 4 <= height && min <= v <= max && !(o.zeroAxis && min < 0.0 < max && v < 0.0)
    ensures Inside(BarFor(GeometryFor(o, min, max, height), Some(v)), height)
  {
    var b := BaseLine(o, min, max);
    if b == min || b == max {
      OneSided(o, min, max, height, Some(v));
    } else {
      TwoSidedGeometry(o, min, max, height);
      StandingBar(GeometryFor(o, min, max, height), min, max, height, v);
    }
  }

  lemma HangingInsideIff(g: Geometry, min: real, max: real, height: int, v: real)
    requires 4 <= height && min < 0.0 < max && min <= v < 0.0 && AroundZero(g, min, max, height)
    ensures var zero := ZeroLine(min, max, height);
      Inside(BarFor(g, Some(v)), height) <==>
        !(zero != Ceil(zero) as real && (height - 4) as real * -v >= (height - Ceil(zero)) as real * (max - min))
  {
    HangingBar(g, min, max, height, v);
    if g.fractional {
      HangingExact(g, height, v, max - min);
    }
  }

  lemma HangingExact(g: Geometry, height: int, v: real, span: real)
    requires g.base == 0.0 && v < 0.0 && g.span == span && 0.0 < span && 0 <= g.yoffset
    ensures Inside(BarFor(g, Some(v)), height) <==> g.reach as real * -v < (height - g.yoffset) as real * span
  {
    assert Hangs(g, Some(v));
    FloorUnder(g.reach as real, -v, span, height - g.yoffset);
  }

  /** The deepest possible bar sticks out exactly when rounding the zero line down costs four times its share below. */
  lemma DeepestSticksOutIff(o: Options, min: real, max: real, height: int)
    requires 4 <= height && min < 0.0 < max && o.zeroAxis
    ensures var zero := ZeroLine(min, max, height);
      SticksOut(o, min, max, height, min) <==>
        zero != Ceil(zero) as real && Ceil(zero) as real - zero >= 4.0 * (-min / (max - min))
  {
    var span, h := max - min, height as real;
    var s := -min / span;
    var zero, up := ZeroLine(min, max, height), Ceil(ZeroLine(min, max, height)) as real;
    SplitShare(min, max);
    assert span * s == -min;
    LowerShare(h, s, up, zero, span, max / span);
  }

  lemma LowerShare(h: real, s: real, up: real, zero: real, span: real, t: real)
    requires 0.0 < span && s == 1.0 - t && zero == t * h
    ensures (h - 4.0) * (span * s) >= (h - up) * span <==> up - zero >= 4.0 * s
  {
    assert (h - 4.0) * (span * s) == span * (h * s - 4.0 * s);
    assert (h - up) * span == span * (h - up);
    assert h * s == h - zero;
    if h * s - 4.0 * s >= h - up {
      MulMonotone(span, h - up, h * s - 4.0 * s);
    } else {
      MulLess(span, h * s - 4.0 * s, h - up);
    }
  }

  /** If the deepest value of the range has its bar on the canvas, so have all others. */
  lemma DeeperSticksOut(o: Options, min: real, max: real, height: int, v: real)
    requires 4 <= height && min <= v && SticksOut(o, min, max, height, v)
    ensures SticksOut(o, min, max, height, min)
  {
    MulMonotone((height - 4) as real, -v, -min);
  }

  /** The extra pixel is real: a shallow bar under a zero line at 9.5 of 10 pixels. */
  lemma FractionalBarSticksOut()
    ensures var o := Options(None, None, false, true);
      var bar := BarFor(GeometryFor(o, -1.0, 19.0, 10), Some(-1.0));
      bar.top == 10 && bar.height == 1
  {
    var o := Options(None, None, false, true);
    var g := GeometryFor(o, -1.0, 19.0, 10);
    assert (19.0 - 0.0) / 20.0 * 10.0 == 9.5;
    assert g.reach == 6 && g.yoffset == 10;
    assert 6.0 * (1.0 / 20.0) == 0.3;
  }

  /**
   * The bars use the canvas: in a chart on one side of its zero line the farthest value fills it, but for
   * a row of pixels if it hangs from the top, and otherwise the two farthest values fill all but one or two
   * rows, four more if the zero line is fractional.
   */
  lemma BarsFillCanvas(o: Options, min: real, max: real, height: int)
    requires 4 <= height && min < max
    ensures var g := GeometryFor(o, min, max, height);
      var up, down := BarFor(g, Some(max)).height, BarFor(g, Some(min)).height;
      && (g.base == min ==> up == if o.zeroAxis && min < 0.0 then height - 1 else height)
      && (g.base == max && min < max ==> down == height - 1)
      && (min < g.base < max ==> up + down == g.reach + 1 || up + down == g.reach + 2)
      && (min < g.base < max ==> g.reach == height - 2 - (if g.fractional then 2 else 0))
  {
    var g := GeometryFor(o, min, max, height);
    BaseLineNearest(o, min, max);
    if g.base == max {
      HangingFromTop(o, min, max, height);
    }
    FarthestBars(g, min, max);
  }

  lemma FarthestBars(g: Geometry, min: real, max: real)
    requires min < max && min <= g.base <= max && g.span == max - min
    ensures var up, down := BarFor(g, Some(max)).height, BarFor(g, Some(min)).height;
      && (g.base == min ==> up == g.reach + 1) && (g.base == max ==> down == g.reach + 1)
      && (up + down == g.reach + 1 || up + down == g.reach + 2)
  {
    BarIsDrawn(g, Some(max));
    BarIsDrawn(g, Some(min));
    var up, down := BarFor(g, Some(max)).height, BarFor(g, Some(min)).height;
    if g.base == min {
      TimesBounds(up, g.reach, max - g.base, g.span);
    }
    if g.base == max {
      TimesBounds(down, g.reach, g.base - min, g.span);
    }
    SplitBounds(up, down, g.reach, max - g.base, g.base - min, g.span);
  }

  lemma HangingFromTop(o: Options, min: real, max: real, height: int)
    requires min < max && BaseLine(o, min, max) == max
    ensures var g := GeometryFor(o, min, max, height); g.yoffset == 0 && g.reach == height - 2 && !g.fractional
  {
    assert 0.0 / (max - min) * height as real == 0.0;
  }

  lemma TimesBounds(n: int, reach: int, x: real, span: real)
    requires 0.0 < span && x == span && (n - 1) as real * span <= reach as real * x < n as real * span
    ensures n == reach + 1
  {
    CancelMost(span, (n - 1) as real, reach as real);
    CancelLess(span, reach as real, n as real);
  }

  lemma CancelMost(span: real, p: real, q: real)
    requires 0.0 < span && p * span <= q * span
    ensures p <= q
  {
    if q < p {
      MulLess(span, q, p);
    }
  }

  lemma CancelLess(span: real, p: real, q: real)
    requires 0.0 < span && p * span < q * span
    ensures p < q
  {
    if q <= p {
      MulMonotone(span, q, p);
    }
  }

  lemma AddTimes(p: real, q: real, sum: real, span: real)
    requires sum == p + q
    ensures p * span + q * span == sum * span
  {
  }

  lemma AddBounds(a: real, b: real, c: real, d: real, x: real, y: real, low: real, mid: real, high: real)
    requires a <= x < c && b <= y < d && a + b == low && x + y == mid && c + d == high
    ensures low <= mid < high
  {
  }

  lemma SplitTimes(k: real, x: real, y: real, span: real)
    requires x + y == span
    ensures k * x + k * y == k * span
  {
  }

  lemma SplitBounds(m: int, n: int, reach: int, x: real, y: real, span: real)
    requires 0.0 < span && x + y == span
    requires (m - 1) as real * span <= reach as real * x < m as real * span
    requires (n - 1) as real * span <= reach as real * y < n as real * span
    ensures m + n == reach + 1 || m + n == reach + 2
  {
    var k, a, b, c, d := reach as real, (m - 1) as real, (n - 1) as real, m as real, n as real;
    var low, high := a + b, c + d;
    AddTimes(a, b, low, span);
    AddTimes(c, d, high, span);
    SplitTimes(k, x, y, span);
    AddBounds(a * span, b * span, c * span, d * span, k * x, k * y, low * span, k * span, high * span);
    CancelMost(span, low, k);
    CancelLess(span, k, high);
  }

  // ----- a range turned around -------------------------------------------------------------

  /**
   * A forced range whose minimum lies above its maximum draws every bar one pixel high, on the canvas
   * exactly if the value was raised to the minimum or the zero line is at the maximum.
   */
  lemma TurnedInsideIff(a: real, b: real, zeroAxis: bool, height: int, v: real)
    requires b < a && 1 <= height
    ensures var o := Options(Some(a), Some(b), true, zeroAxis);
      Inside(BarFor(GeometryFor(o, a, b, height), Clip(o, Some(v))), height) <==> v < a || (zeroAxis && a <= 0.0)
  {
  }

  // ----- null values -----------------------------------------------------------------------

  /** The test `all` makes of one element: asked about `null` without `ignoreNull`, it always fails. */
  predicate Matches(x: Option<real>, val: Option<real>, ignoreNull: bool) {
    x == val && (ignoreNull || val != None)
  }

  /** `all`: does every element equal `val`? */
  method All(val: Option<real>, arr: seq<Option<real>>, ignoreNull: bool) returns (answer: bool)
    ensures answer <==> forall i :: 0 <= i < |arr| ==> Matches(arr[i], val, ignoreNull)
  {
    var i := |arr|;
    while i > 0
      invariant 0 <= i <= |arr|
      invariant forall j :: i <= j < |arr| ==> Matches(arr[j], val, ignoreNull)
    {
      i := i - 1;
      if arr[i] != val || (!ignoreNull && val == None) {
        return false;
      }
    }
    return true;
  }

  /** `renderRegion` asks `all(null, vals)`: it is never true of a region that has a value, null or not. */
  method IsNull(vals: seq<Option<real>>) returns (isNull: bool)
    ensures isNull <==> vals == []
  {
    isNull := All(None, vals, false);
    if vals != [] {
      assert !Matches(vals[0], None, false);
    }
  }

  /** When the bar drawn for a null is on the canvas; the range is turned around only if there is no number. */
  predicate NullFits(o: Options, min: real, max: real, height: int) {
    if 0.0 < min then false
    else if max < min then true
    else if 0.0 <= max then !(o.zeroAxis && min < 0.0 && max == 0.0)
    else min == max || (!o.zeroAxis && (height - 1) as real * -min < height as real * (max - min))
  }

  /**
   * So a null is drawn as a bar of its own, as if it were 0. It leaves the canvas for positive data,
   * for a zero line that is the top edge, and for negative data unless the range reaches up to nearly 0.
   */
  lemma NullBarFitsIff(o: Options, min: real, max: real, height: int)
    requires 4 <= height
    ensures Inside(BarFor(GeometryFor(o, min, max, height), None), height) <==> NullFits(o, min, max, height)
  {
    if max < min {
      NullTurned(o, min, max, height);
    } else if 0.0 < min {
      NullUnderPositive(o, min, max, height);
    } else if 0.0 <= max {
      NullAtZero(o, min, max, height);
    } else if min == max {
      NullOverFlat(o, min, height);
    } else if o.zeroAxis {
      NullOverTop(o, min, max, height);
    } else {
      NullOverNegative(o, min, max, height);
    }
  }

  lemma NullOverFlat(o: Options, min: real, height: int)
    requires 4 <= height && min < 0.0
    ensures Inside(BarFor(GeometryFor(o, min, min, height), None), height)
  {
    var g := GeometryFor(o, min, min, height);
    assert g.base == min && g.span == 0.0 && g.yoffset == height;
  }

  lemma NullOverTop(o: Options, min: real, max: real, height: int)
    requires 4 <= height && min < max < 0.0 && o.zeroAxis
    ensures !Inside(BarFor(GeometryFor(o, min, max, height), None), height)
  {
    var g := GeometryFor(o, min, max, height);
    assert 0.0 / (max - min) * height as real == 0.0;
    assert g.base == max && g.yoffset == 0;
    HeightBound(g, None, -max);
  }

  lemma NullAtZero(o: Options, min: real, max: real, height: int)
    requires 4 <= height && min <= 0.0 <= max
    ensures Inside(BarFor(GeometryFor(o, min, max, height), None), height) <==> !(o.zeroAxis && min < 0.0 && max == 0.0)
  {
    var g := GeometryFor(o, min, max, height);
    if o.zeroAxis && min < 0.0 {
      HeightBound(g, None, 0.0);
      assert g.reach as real * (0.0 / g.span) == 0.0;
      if 0.0 < max {
        SplitShare(min, max);
        UpperPart(g.reach, height, max / g.span, g.yoffset, g.fractional);
      }
    } else {
      OneSided(o, min, max, height, None);
    }
  }

  lemma NullUnderPositive(o: Options, min: real, max: real, height: int)
    requires 4 <= height && 0.0 < min <= max
    ensures !Inside(BarFor(GeometryFor(o, min, max, height), None), height)
  {
    var g := GeometryFor(o, min, max, height);
    assert g.base == min && g.yoffset == height;
    if min < max {
      HeightBound(g, None, min);
    }
  }

  lemma NullOverNegative(o: Options, min: real, max: real, height: int)
    requires 4 <= height && min < max < 0.0 && !o.zeroAxis
    ensures Inside(BarFor(GeometryFor(o, min, max, height), None), height)
       <==> (height - 1) as real * -min < height as real * (max - min)
  {
    var g := GeometryFor(o, min, max, height);
    assert g.base == min && g.yoffset == height && g.reach == height - 1 && !Hangs(g, None);
    FloorUnder((height - 1) as real, -min, max - min, height);
  }

  lemma FloorUnder(k: real, x: real, span: real, most: int)
    requires 0.0 < span
    ensures (k * (x / span)).Floor + 1 <= most <==> k * x < most as real * span
  {
    var q := x / span;
    assert q * span == x;
    assert k * x == span * (k * q);
    if k * q < most as real {
      MulLess(span, k * q, most as real);
    } else {
      MulMonotone(span, most as real, k * q);
    }
  }

  lemma NullTurned(o: Options, min: real, max: real, height: int)
    requires 1 <= height && max < min
    ensures Inside(BarFor(GeometryFor(o, min, max, height), None), height) <==> min <= 0.0
  {
    var g := GeometryFor(o, min, max, height);
    assert g.yoffset == height && g.span < 0.0;
  }

  // ----- the whole chart -------------------------------------------------------------------

  /**
   * Without numbers and without both range options, `min` is `chartRangeMin` or infinity, `max` is
   * `chartRangeMax` or minus infinity, the range is minus infinity and the zero line is one of the two.
   * Every bar is a single pixel on the bottom edge, or below it if the zero line is above 0.
   */
  function NumberlessBar(o: Options, height: int): Bar {
    var zeroBelowBase := if o.chartMin == None then true else o.chartMin.value > 0.0;
    if zeroBelowBase then Bar(height, 1, true) else Bar(height - 1, 1, false)
  }

  /** Which values of a chart with geometry `g` have their bar on the canvas. */
  predicate OnCanvas(o: Options, g: Option<Geometry>, height: int, raw: Option<real>) {
    match g
    case None => o.chartMin.Some? && o.chartMin.value <= 0.0
    case Some(g) =>
      match Clip(o, raw)
      case None => NullFits(o, g.min, g.max, height)
      case Some(v) =>
        if g.min <= g.max then !SticksOut(o, g.min, g.max, height, v)
        else Coerce(raw) < g.min || (o.zeroAxis && g.min <= 0.0)
  }

  /** The whole chart: which bars are on the canvas, for every combination of values and options. */
  method Layout(o: Options, raw: seq<Option<real>>, height: int)
      returns (bars: seq<Bar>, values: seq<Option<real>>, g: Option<Geometry>)
    ensures |bars| == |values| == |raw| && GeometryOf(o, values, height, g)
    ensures forall i :: 0 <= i < |raw| ==>
      values[i] == Clip(o, raw[i]) && bars[i] == if g.Some? then BarFor(g.value, values[i]) else NumberlessBar(o, height)
    ensures 4 <= height ==> forall i :: 0 <= i < |raw| ==> Placed(o, raw[i], values[i], height, g, bars[i])
    ensures g.Some? ==> forall i :: 0 <= i < |raw| ==> DrawnAs(g.value, values[i], bars[i])
    ensures g == None ==> forall i :: 0 <= i < |raw| ==> bars[i].height == 1 && height - 1 <= bars[i].top <= height
  {
    values, g := Init(o, raw, height);
    bars := [];
    for i := 0 to |values|
      invariant |bars| == i
      invariant forall j :: 0 <= j < i ==> bars[j] == if g.Some? then BarFor(g.value, values[j]) else NumberlessBar(o, height)
    {
      bars := bars + [if g.Some? then BarFor(g.value, values[i]) else NumberlessBar(o, height)];
    }
    if 4 <= height {
      forall i | 0 <= i < |raw| ensures Placed(o, raw[i], values[i], height, g, bars[i]) {
        AllPlaced(o, raw, values, height, g, i);
      }
    }
    forall i | 0 <= i < |raw| && g.Some? ensures DrawnAs(g.value, values[i], bars[i]) {
      BarIsDrawn(g.value, values[i]);
    }
  }

  /** A bar is on the canvas exactly under the condition, and a number's bar is off by a pixel at most. */
  ghost predicate Placed(o: Options, raw: Option<real>, v: Option<real>, height: int, g: Option<Geometry>, bar: Bar) {
    && (Inside(bar, height) <==> OnCanvas(o, g, height, raw))
    && (OrderedClip(o) && g.Some? && v.Some? ==> 1 <= bar.height && 0 <= bar.top && bar.top + bar.height <= height + 1)
  }

  lemma AllPlaced(o: Options, raw: seq<Option<real>>, values: seq<Option<real>>, height: int, g: Option<Geometry>, i: int)
    requires 4 <= height && |values| == |raw| && 0 <= i < |raw| && GeometryOf(o, values, height, g)
    requires forall i :: 0 <= i < |raw| ==> values[i] == Clip(o, raw[i])
    ensures Placed(o, raw[i], values[i], height, g, if g.Some? then BarFor(g.value, values[i]) else NumberlessBar(o, height))
  {
    if g.Some? {
      assert Settled(o, raw, values, height, g.value);
      PlacedIff(o, raw, values, height, g.value, i);
    }
  }

  /** What `init` leaves behind when there is a proper geometry. */
  ghost predicate Settled(o: Options, raw: seq<Option<real>>, values: seq<Option<real>>, height: int, g: Geometry) {
    && |values| == |raw| && (forall i :: 0 <= i < |raw| ==> values[i] == Clip(o, raw[i]))
    && g == GeometryFor(o, g.min, g.max, height)
    && ((exists v :: IsNumber(values, v)) ==>
          exists lo, hi :: Extremes(values, lo, hi) && g.min == RangeMin(o, lo) && g.max == RangeMax(o, hi))
  }

  lemma {:induction false} PlacedIff(o: Options, raw: seq<Option<real>>, values: seq<Option<real>>, height: int, g: Geometry, i: int)
    requires 4 <= height && Settled(o, raw, values, height, g) && 0 <= i < |raw|
    ensures var bar := BarFor(g, values[i]);
      && (Inside(bar, height) <==> OnCanvas(o, Some(g), height, raw[i]))
      && (OrderedClip(o) && values[i].Some? ==> 1 <= bar.height && 0 <= bar.top && bar.top + bar.height <= height + 1)
  {
    match values[i]
    case None => NullBarFitsIff(o, g.min, g.max, height);
    case Some(v) =>
      assert IsNumber(values, v);
      var lo, hi :| Extremes(values, lo, hi) && g.min == RangeMin(o, lo) && g.max == RangeMax(o, hi);
      RangeHolds(o, raw, values, lo, hi, v);
      if OrderedClip(o) {
        BarFits(o, g.min, g.max, height, v);
        BarInsideIff(o, g.min, g.max, height, v);
      } else {
        TurnedInsideIff(g.min, g.max, o.zeroAxis, height, Coerce(raw[i]));
      }
  }

  /** The settled range holds every number, unless both its ends are forced and in the wrong order. */
  lemma RangeHolds(o: Options, raw: seq<Option<real>>, values: seq<Option<real>>, lo: real, hi: real, v: real)
    requires |values| == |raw| && forall i :: 0 <= i < |raw| ==> values[i] == Clip(o, raw[i])
    requires Extremes(values, lo, hi) && IsNumber(values, v)
    ensures OrderedClip(o) ==> RangeMin(o, lo) <= v <= RangeMax(o, hi)
  {
    if OrderedClip(o) {
      ClippedInside(o, raw, values, lo);
      ClippedInside(o, raw, values, hi);
      ClippedInside(o, raw, values, v);
    }
  }

  /** A chart of the values 5 and null, 10 pixels high: the bar of the null starts below the canvas. */
  method NullLeavesCanvas() returns (bars: seq<Bar>)
    ensures |bars| == 2 && Inside(bars[0], 10) && bars[1].top == 10 && !Inside(bars[1], 10)
  {
    var o, raw := Options(None, None, false, true), [Some(5.0), None];
    var values, g;
    bars, values, g := Layout(o, raw, 10);
    assert values == raw;
    assert values[0] == Some(5.0) && IsNumber(values, 5.0);
    assert forall v :: IsNumber(values, v) ==> v == 5.0;
    assert g == Some(GeometryFor(o, 5.0, 5.0, 10));
  }

  // ----- which segments of a stacked region are drawn --------------------------------------

  /** The positions below `n` that a stack draws when some segment differs from the zero line; a plain region draws all. */
  function Apart(vals: seq<Option<real>>, base: real, stacked: bool, n: int): (s: seq<int>)
    requires 0 <= n <= |vals|
    ensures forall i :: 0 <= i < |s| ==> 0 <= s[i] < n
  {
    if n == 0 then []
    else Apart(vals, base, stacked, n - 1) + if stacked && vals[n - 1] == Some(base) then [] else [n - 1]
  }

  /** The segments of a region that are drawn. */
  function Segments(vals: seq<Option<real>>, base: real, stacked: bool): (s: seq<int>)
    ensures forall i :: 0 <= i < |s| ==> 0 <= s[i] < |vals|
  {
    if stacked && vals != [] && forall i :: 0 <= i < |vals| ==> vals[i] == Some(base) then [0]
    else Apart(vals, base, stacked, |vals|)
  }

  /**
   * Segments equal to the zero line are skipped, unless all are, and then one is drawn. Highlighting
   * plays no part in the choice, so a region always has the same number of shapes.
   */
  method Plotted(vals: seq<Option<real>>, base: real, stacked: bool) returns (drawn: seq<int>)
    ensures drawn == Segments(vals, base, stacked) && Chosen(vals, base, stacked, drawn)
  {
    var allMin := All(Some(base), vals, true);
    var minPlotted := false;
    drawn := [];
    for i := 0 to |vals|
      invariant stacked && allMin ==> minPlotted == (i > 0) && drawn == if i == 0 then [] else [0]
      invariant !(stacked && allMin) ==> !minPlotted && drawn == Apart(vals, base, stacked, i)
    {
      if stacked && vals[i] == Some(base) {
        if !allMin || minPlotted {
          continue;
        }
        minPlotted := true;
      }
      drawn := drawn + [i];
    }
    assert allMin <==> forall i :: 0 <= i < |vals| ==> vals[i] == Some(base) by {
      assert forall i :: 0 <= i < |vals| ==> (Matches(vals[i], Some(base), true) <==> vals[i] == Some(base));
    }
    SegmentsChosen(vals, base, stacked);
  }

  /** Every segment of a plain region; of a stack those off the zero line, or the first one if there is none. */
  ghost predicate Chosen(vals: seq<Option<real>>, base: real, stacked: bool, drawn: seq<int>) {
    && (forall i, j :: 0 <= i < j < |drawn| ==> drawn[i] < drawn[j])
    && (forall i :: 0 <= i < |drawn| ==> 0 <= drawn[i] < |vals|)
    && (!stacked ==> |drawn| == |vals|)
    && (stacked ==>
          if exists i :: 0 <= i < |vals| && vals[i] != Some(base)
          then forall i :: i in drawn <==> 0 <= i < |vals| && vals[i] != Some(base)
          else drawn == if vals == [] then [] else [0])
  }

  lemma SegmentsChosen(vals: seq<Option<real>>, base: real, stacked: bool)
    ensures Chosen(vals, base, stacked, Segments(vals, base, stacked))
  {
    ApartExact(vals, base, stacked, |vals|);
  }

  lemma {:induction false} ApartExact(vals: seq<Option<real>>, base: real, stacked: bool, n: int)
    requires 0 <= n <= |vals|
    ensures var s := Apart(vals, base, stacked, n);
      && (forall i, j :: 0 <= i < j < |s| ==> s[i] < s[j])
      && (!stacked ==> |s| == n)
      && (stacked ==> forall i :: i in s <==> 0 <= i < n && vals[i] != Some(base))
  {
    if n > 0 {
      ApartExact(vals, base, stacked, n - 1);
    }
  }

  // ----- hit testing -----------------------------------------------------------------------

  function GetRegion(x: real, barWidth: int, barSpacing: int, count: nat): Option<int>
    requires barWidth + barSpacing != 0
  {
    var r := (x / (barWidth + barSpacing) as real).Floor;
    if r < 0 || r >= count then None else Some(r)
  }

  /** The mouse anywhere over a bar's columns answers that bar, and only bars answer. */
  lemma {:induction false} ColumnsAnswerTheirBar(x: real, barWidth: int, barSpacing: int, count: nat, i: int)
    requires 0 < barWidth && 0 <= barSpacing && 0 <= i < count
    requires (i * (barWidth + barSpacing)) as real <= x < (i * (barWidth + barSpacing) + barWidth) as real
    ensures GetRegion(x, barWidth, barSpacing, count) == Some(i)
  {
    var total := (barWidth + barSpacing) as real;
    assert (i * (barWidth + barSpacing)) as real == i as real * total;
    QuotientFloor(x, total, i);
  }

  /** A region answers for its own columns and the gap to its right, and nothing else does. */
  lemma {:induction false} GetRegionIff(x: real, barWidth: int, barSpacing: int, count: nat, i: int)
    requires 0 < barWidth + barSpacing
    ensures var total := (barWidth + barSpacing) as real;
      GetRegion(x, barWidth, barSpacing, count) == Some(i) <==>
        0 <= i < count && i as real * total <= x < i as real * total + total
  {
    var total := (barWidth + barSpacing) as real;
    var n := (x / total).Floor;
    WholeBounds(total, x / total, x, n);
    assert (n + 1) as real * total == n as real * total + total;
    if i as real * total <= x < i as real * total + total {
      QuotientFloor(x, total, i);
    }
  }

  lemma QuotientFloor(x: real, total: real, i: int)
    requires 0.0 < total && i as real * total <= x < i as real * total + total
    ensures (x / total).Floor == i
  {
    var q, n := x / total, i as real;
    assert total * q == x;
    if q < n {
      MulLess(total, q, n);
    }
    assert total * (n + 1.0) == total * n + total;
    if n + 1.0 <= q {
      MulMonotone(total, n + 1.0, q);
    }
    FloorIs(q, i);
  }

  lemma FloorIs(q: real, i: int)
    requires i as real <= q < i as real + 1.0
    ensures q.Floor == i
  {
  }
}
