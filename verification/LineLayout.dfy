/**
 * Layout of line charts (jquery.sparkline.js, `line`: scanValues, processRangeOptions, render,
 * getRegion). Numbers are exact reals; pixel positions are integers.
 */
module LineLayout {
  import opened Sequences
  import opened Rounding

  // ----- scanning the values ---------------------------------------------------------------

  /** A chart value: a number, `null`, or an `x:y` string / `[x, y]` array, whose `y` may be `null`. */
  datatype Value = Number(y: real) | Null | Pair(px: real, py: Option<real>)

  function XOf(v: Value, i: int): real {
    if v.Pair? then v.px else i as real
  }

  function YOf(v: Value): Option<real> {
    match v
    case Number(y) => Some(y)
    case Null => None
    case Pair(_, y) => y
  }

  /** A pair brings its own x value, anything else is at its position; only a null has no y value. */
  predicate ReadAs(v: Value, i: int, x: real, y: Option<real>) {
    match v
    case Number(a) => x == i as real && y == Some(a)
    case Null => x == i as real && y == None
    case Pair(a, b) => x == a && y == b
  }

  /** What a value contributes to the range; `Math.min` and `Math.max` read a `null` in a pair as 0. */
  function Extent(v: Value): seq<real> {
    match v
    case Number(y) => [y]
    case Null => []
    case Pair(_, None) => [0.0]
    case Pair(_, Some(y)) => [y]
  }

  function Extents(values: seq<Value>): seq<real> {
    if values == [] then [] else Extents(values[..|values| - 1]) + Extent(values[|values| - 1])
  }

  ghost predicate IsMax(m: real, s: seq<real>) {
    m in s && forall i :: 0 <= i < |s| ==> s[i] <= m
  }

  ghost predicate IsMin(m: real, s: seq<real>) {
    m in s && forall i :: 0 <= i < |s| ==> m <= s[i]
  }

  method MaxMin(s: seq<real>) returns (max: real, min: real)
    requires s != []
    ensures IsMax(max, s) && IsMin(min, s) && min <= max
  {
    max, min := s[0], s[0];
    for i := 1 to |s|
      invariant max in s && min in s
      invariant forall j :: 0 <= j < i ==> min <= s[j] <= max
    {
      if s[i] > max { max := s[i]; }
      if s[i] < min { min := s[i]; }
    }
    assert min <= s[0] <= max;
  }

  method ScanValues(values: seq<Value>) returns (xs: seq<real>, ys: seq<Option<real>>, extent: seq<real>)
    ensures |xs| == |ys| == |values|
    ensures forall i :: 0 <= i < |values| ==> xs[i] == XOf(values[i], i) && ys[i] == YOf(values[i])
    ensures forall i :: 0 <= i < |values| ==> ReadAs(values[i], i, xs[i], ys[i])
    ensures extent == Extents(values)
  {
    xs, ys, extent := [], [], [];
    for i := 0 to |values|
      invariant |xs| == |ys| == i
      invariant forall j :: 0 <= j < i ==> xs[j] == XOf(values[j], j) && ys[j] == YOf(values[j])
      invariant extent == Extents(values[..i])
    {
      assert Extents(values[..i + 1]) == Extents(values[..i]) + Extent(values[i]) by {
        assert values[..i + 1][..i] == values[..i];
      }
      match values[i]
      case Pair(x, y) =>
        xs, ys := xs + [x], ys + [y];
        extent := extent + [if y.Some? then y.value else 0.0];
      case Null =>
        xs, ys := xs + [i as real], ys + [None];
        assert Extent(values[i]) == [];
      case Number(y) =>
        xs, ys, extent := xs + [i as real], ys + [Some(y)], extent + [y];
    }
    assert values[..|values|] == values;
  }

  /** Every plotted number is inside the scanned range. */
  lemma {:induction false} ExtentsCover(values: seq<Value>, i: int, y: real)
    requires 0 <= i < |values| && YOf(values[i]) == Some(y)
    ensures y in Extents(values)
  {
    var n := |values| - 1;
    if i < n {
      ExtentsCover(values[..n], i, y);
    } else {
      assert Extent(values[i]) == [y];
    }
  }

  /** The range is taken from the numbers, and from 0 for a pair without a y value. */
  lemma {:induction false} ExtentsExact(values: seq<Value>, y: real)
    ensures y in Extents(values) <==>
      exists i :: 0 <= i < |values| && (YOf(values[i]) == Some(y) || (y == 0.0 && values[i].Pair? && values[i].py == None))
  {
    if values != [] {
      var n := |values| - 1;
      ExtentsExact(values[..n], y);
      if i :| 0 <= i < n && (YOf(values[i]) == Some(y) || (y == 0.0 && values[i].Pair? && values[i].py == None)) {
        assert values[..n][i] == values[i];
      }
      if i :| 0 <= i < |values[..n]| && (YOf(values[..n][i]) == Some(y) || (y == 0.0 && values[..n][i].Pair? && values[..n][i].py == None)) {
        assert values[..n][i] == values[i];
      }
    }
  }

  // ----- range options ---------------------------------------------------------------------

  datatype Range = Range(miny: real, maxy: real, minx: real, maxx: real)

  datatype RangeOptions = RangeOptions(
    normalMin: Option<real>, normalMax: Option<real>,
    chartMin: Option<real>, chartMax: Option<real>, clip: bool,
    chartMinX: Option<real>, chartMaxX: Option<real>, clipX: bool)

  function Lower(option: Option<real>, force: bool, bound: real): real {
    if option.Some? && (force || option.value < bound) then option.value else bound
  }

  function Raise(option: Option<real>, force: bool, bound: real): real {
    if option.Some? && (force || option.value > bound) then option.value else bound
  }

  /** The normal range widens the y range only when its minimum is given. */
  function NormalRange(o: RangeOptions, r: Range): Range {
    if o.normalMin == None then r
    else r.(miny := Lower(o.normalMin, false, r.miny), maxy := Raise(o.normalMax, false, r.maxy))
  }

  function ProcessRangeOptions(o: RangeOptions, r: Range): Range {
    var n := NormalRange(o, r);
    Range(Lower(o.chartMin, o.clip, n.miny), Raise(o.chartMax, o.clip, n.maxy),
          Lower(o.chartMinX, o.clipX, n.minx), Raise(o.chartMaxX, o.clipX, n.maxx))
  }

  /** Only a forced chart range can turn the range around, and these are exactly the ways it can. */
  predicate ClipKeepsOrder(o: RangeOptions, r: Range) {
    o.clip ==>
      match (o.chartMin, o.chartMax)
      case (None, None) => true
      case (Some(a), Some(b)) => a <= b
      case (Some(a), None) => a <= r.maxy || (o.normalMin.Some? && o.normalMax.Some? && a <= o.normalMax.value)
      case (None, Some(b)) => r.miny <= b || (o.normalMin.Some? && o.normalMin.value <= b)
  }

  lemma RangeOrderedIff(o: RangeOptions, r: Range)
    requires r.miny <= r.maxy
    ensures var q := ProcessRangeOptions(o, r); q.miny <= q.maxy <==> ClipKeepsOrder(o, r)
  {
  }

  /** The same for the x range, which has no normal range. */
  predicate ClipKeepsOrderX(o: RangeOptions, r: Range) {
    o.clipX ==>
      match (o.chartMinX, o.chartMaxX)
      case (None, None) => true
      case (Some(a), Some(b)) => a <= b
      case (Some(a), None) => a <= r.maxx
      case (None, Some(b)) => r.minx <= b
  }

  lemma RangeOrderedXIff(o: RangeOptions, r: Range)
    requires r.minx <= r.maxx
    ensures var q := ProcessRangeOptions(o, r); q.minx <= q.maxx <==> ClipKeepsOrderX(o, r)
  {
  }

  /** Without clipping the range only grows, so every value stays inside it. */
  lemma RangeOnlyGrows(o: RangeOptions, r: Range)
    requires !o.clip && r.miny <= r.maxy
    ensures var q := ProcessRangeOptions(o, r); q.miny <= r.miny && r.maxy <= q.maxy
  {
  }

  predicate AtLeast(option: Option<real>, lo: real) {
    option.Some? ==> lo <= option.value
  }

  predicate AtMost(option: Option<real>, hi: real) {
    option.Some? ==> option.value <= hi
  }

  /**
   * What an unforced y range has to hold: the scanned values, the chart minimum and maximum, and, if the
   * normal range has a minimum, both its ends.
   */
  ghost predicate HoldsY(o: RangeOptions, r: Range, lo: real, hi: real) {
    && lo <= r.miny && r.maxy <= hi && AtLeast(o.chartMin, lo) && AtMost(o.chartMax, hi)
    && (o.normalMin.Some? ==> AtLeast(o.normalMin, lo) && AtMost(o.normalMax, hi))
  }

  ghost predicate HoldsX(o: RangeOptions, r: Range, lo: real, hi: real) {
    lo <= r.minx && r.maxx <= hi && AtLeast(o.chartMinX, lo) && AtMost(o.chartMaxX, hi)
  }

  /** Without clipping the range is the least one that holds all of that; with clipping a given end is taken as it is. */
  lemma RangeLeast(o: RangeOptions, r: Range)
    ensures var q := ProcessRangeOptions(o, r);
      && (!o.clip ==> HoldsY(o, r, q.miny, q.maxy) && forall lo, hi :: HoldsY(o, r, lo, hi) ==> lo <= q.miny && q.maxy <= hi)
      && (!o.clipX ==> HoldsX(o, r, q.minx, q.maxx) && forall lo, hi :: HoldsX(o, r, lo, hi) ==> lo <= q.minx && q.maxx <= hi)
      && (o.clip && o.chartMin.Some? ==> q.miny == o.chartMin.value)
      && (o.clip && o.chartMax.Some? ==> q.maxy == o.chartMax.value)
      && (o.clipX && o.chartMinX.Some? ==> q.minx == o.chartMinX.value)
      && (o.clipX && o.chartMaxX.Some? ==> q.maxx == o.chartMaxX.value)
  {
  }

  // ----- the drawing frame -----------------------------------------------------------------

  datatype SpotOptions = SpotOptions(radius: real, minSpot: bool, maxSpot: bool, spot: bool)

  /** Where the line is drawn: `canvasTop`, `canvasLeft`, and the adjusted `canvasWidth` and `canvasHeight`. */
  datatype Frame = Frame(top: int, left: int, width: int, height: int)

  function ActiveRadius(o: SpotOptions, width: int, height: int): real {
    if width as real < o.radius * 4.0 || height as real < o.radius * 4.0 then 0.0 else o.radius
  }

  /** Which edges keep a margin for spots. */
  datatype Margins = Margins(top: bool, right: bool, bottom: bool, left: bool)

  /** `first` and `final` are the first and the last y value. */
  function MarginsFor(o: SpotOptions, first: Option<real>, final: Option<real>, r: Range): Margins {
    Margins(
      o.maxSpot || (o.spot && final == Some(r.maxy)),
      o.spot || o.minSpot || (o.maxSpot && (final == Some(r.miny) || final == Some(r.maxy))),
      o.minSpot || (o.spot && final == Some(r.miny)),
      (o.minSpot || o.maxSpot) && (first == Some(r.miny) || first == Some(r.maxy)))
  }

  function FrameFor(o: SpotOptions, width: int, height: int, first: Option<real>, final: Option<real>, r: Range): Frame {
    var radius := ActiveRadius(o, width, height);
    if radius == 0.0 then Frame(0, 0, width, height - 1)
    else
      var c, m := Ceil(radius), MarginsFor(o, first, final, r);
      Frame(if m.top then c else 0,
            if m.left then c else 0,
            width - (if m.left then c else 0) - (if m.right then c else 0),
            height - (if m.bottom then c else 0) - (if m.top then c else 0) - 1)
  }

  /**
   * The frame stays on the canvas. Its height is negative exactly when spots are drawn on a canvas that
   * has no more pixels than margins above and below, its width exactly when they are drawn with margins
   * left and right on a canvas one pixel wide.
   */
  lemma FrameOnCanvas(o: SpotOptions, width: int, height: int, first: Option<real>, final: Option<real>, r: Range)
    requires 0.0 <= o.radius && 1 <= height && 0 <= width
    ensures var f, m := FrameFor(o, width, height, first, final, r), MarginsFor(o, first, final, r);
      var active := 0.0 < o.radius && 4.0 * o.radius <= width as real && 4.0 * o.radius <= height as real;
      && 0 <= f.top && 0 <= f.left && f.top + f.height <= height - 1 && f.left + f.width <= width
      && (f.height < 0 <==> active && height <= (if m.top then 1 else 0) + (if m.bottom then 1 else 0))
      && (f.width < 0 <==> active && m.left && m.right && width == 1)
  {
    if ActiveRadius(o, width, height) != 0.0 {
      SpotRoom(o.radius, width, height);
    }
  }

  /**
   * The frame is exactly as large as the spots allow: a whole-pixel radius is kept free at an edge if a
   * spot may be drawn there, and nothing is lost at any other edge but the last row of pixels.
   */
  lemma FrameMargins(o: SpotOptions, width: int, height: int, first: Option<real>, final: Option<real>, r: Range)
    requires 0.0 <= o.radius
    ensures var f := FrameFor(o, width, height, first, final, r);
      var active := 0.0 < o.radius && 4.0 * o.radius <= width as real && 4.0 * o.radius <= height as real;
      var ends := o.minSpot || o.maxSpot;
      var extremal := (y: Option<real>) => y == Some(r.miny) || y == Some(r.maxy);
      && Margin(o.radius, f.top, active && (o.maxSpot || (o.spot && final == Some(r.maxy))))
      && Margin(o.radius, height - 1 - (f.top + f.height), active && (o.minSpot || (o.spot && final == Some(r.miny))))
      && Margin(o.radius, f.left, active && ends && extremal(first))
      && Margin(o.radius, width - (f.left + f.width), active && (o.spot || o.minSpot || (o.maxSpot && extremal(final))))
  {
  }

  /** The least whole number of pixels for the radius, or none. */
  ghost predicate Margin(radius: real, pixels: int, needed: bool) {
    if needed then (pixels - 1) as real < radius <= pixels as real else pixels == 0
  }

  lemma SpotRoom(radius: real, width: int, height: int)
    requires 0.0 < radius && radius * 4.0 <= width as real && radius * 4.0 <= height as real
    ensures 1 <= Ceil(radius)
    ensures Ceil(radius) > 1 || radius > 0.5 ==> 2 * Ceil(radius) + 1 <= height && 2 * Ceil(radius) + 1 <= width
  {
  }

  // ----- plotting --------------------------------------------------------------------------

  datatype Point = Point(x: int, y: int)

  function Span(lo: real, hi: real): (r: real)
    ensures r != 0.0
  {
    if hi - lo == 0.0 then 1.0 else hi - lo
  }

  function Clamp(y: real, lo: real, hi: real): real {
    var z := if y < lo then lo else y;
    if z > hi then hi else z
  }

  datatype Plot = Plot(xs: seq<real>, ys: seq<Option<real>>, frame: Frame, range: Range) {

    predicate Valid() {
      |xs| >= |ys|
    }

    function PlotX(x: real): int
      requires Valid()
    {
      frame.left + Round((x - range.minx) * (frame.width as real / Span(range.minx, range.maxx)))
    }

    function PlotY(y: real): int
      requires Valid()
    {
      var share := (Clamp(y, range.miny, range.maxy) - range.miny) / Span(range.miny, range.maxy);
      frame.top + Round(frame.height as real - frame.height as real * share)
    }

    function Baseline(): int {
      frame.top + frame.height
    }

    function X(i: int): int
      requires Valid() && 0 <= i < |ys|
    {
      PlotX(xs[i])
    }

    function Vertex(i: int): Point
      requires Valid() && 0 <= i < |ys| && ys[i].Some?
    {
      Point(X(i), PlotY(ys[i].value))
    }

    /** Halfway to the next value; after the last value, halfway to `canvasWidth`. */
    function Mid(i: int): real
      requires Valid() && 0 <= i < |ys|
    {
      var here := X(i) as real;
      var next := (if i < |ys| - 1 then X(i + 1) else frame.width) as real;
      here + (next - here) / 2.0
    }
  }

  /** `share` of `whole` is `length` of `span`, up to half a unit. */
  ghost predicate Proportional(length: real, span: real, share: int, whole: int) {
    -0.5 * span <= share as real * span - whole as real * length <= 0.5 * span
  }

  /**
   * Where a value is plotted: on the baseline up to the minimum, at the top of the frame from the maximum
   * on, and between them at its proportion of the frame's height, up to half a pixel.
   */
  ghost predicate PlottedAt(p: Plot, y: real, at: int) {
    var lo, hi, bottom := p.range.miny, p.range.maxy, p.frame.top + p.frame.height;
    && (y <= lo || lo == hi ==> at == bottom && at == p.Baseline())
    && (lo < hi && hi <= y ==> at == p.frame.top)
    && (lo <= y <= hi && lo < hi ==> Proportional(y - lo, hi - lo, bottom - at, p.frame.height))
  }

  lemma {:induction false} PlotYLaw(p: Plot, y: real)
    requires p.Valid() && p.range.miny <= p.range.maxy && 0 <= p.frame.height
    ensures PlottedAt(p, y, p.PlotY(y))
  {
    var lo, hi, h := p.range.miny, p.range.maxy, p.frame.height;
    var share := ShareOf(y, lo, hi);
    assert p.PlotY(y) == p.frame.top + Round(h as real - h as real * share);
    ShareEnds(y, lo, hi);
    RoundLength(h, share);
    if lo < hi && lo <= y <= hi {
      ProportionFrom(y - lo, hi - lo, h, share);
    }
  }

  /** The share of the range that lies below a value, as `PlotY` computes it. */
  ghost function ShareOf(y: real, lo: real, hi: real): real {
    (Clamp(y, lo, hi) - lo) / Span(lo, hi)
  }

  lemma ShareEnds(y: real, lo: real, hi: real)
    requires lo <= hi
    ensures y <= lo || lo == hi ==> ShareOf(y, lo, hi) == 0.0
    ensures lo < hi && hi <= y ==> ShareOf(y, lo, hi) == 1.0
    ensures lo < hi && lo <= y <= hi ==> ShareOf(y, lo, hi) == (y - lo) / (hi - lo)
  {
    if y <= lo || lo == hi {
      assert Clamp(y, lo, hi) == lo;
      ZeroOver(Span(lo, hi));
    } else if hi <= y {
      assert Clamp(y, lo, hi) == hi;
      OneOver(hi - lo);
    }
  }

  lemma ZeroOver(d: real)
    requires d != 0.0
    ensures 0.0 / d == 0.0
  {
  }

  lemma OneOver(d: real)
    requires d != 0.0
    ensures d / d == 1.0
  {
  }

  lemma RoundLength(h: int, share: real)
    ensures share == 0.0 ==> Round(h as real - h as real * share) == h
    ensures share == 1.0 ==> Round(h as real - h as real * share) == 0
  {
    assert h as real * 0.0 == 0.0 && h as real * 1.0 == h as real;
  }

  lemma ProportionFrom(length: real, span: real, h: int, share: real)
    requires 0.0 < span && share == length / span
    ensures Proportional(length, span, h - Round(h as real - h as real * share), h)
  {
    Rearranged(span, h as real, share, length);
    ShareRounded(length, span, h, share, h - Round(h as real - h as real * share));
  }

  lemma ShareRounded(length: real, span: real, h: int, share: real, n: int)
    requires 0.0 < span && span * (h as real * share) == h as real * length
    requires h as real * share - 0.5 <= n as real <= h as real * share + 0.5
    ensures Proportional(length, span, n, h)
  {
    HalfOff(span, h as real * share, n as real, h as real * length);
  }

  lemma Rearranged(span: real, h: real, share: real, length: real)
    requires 0.0 < span && share == length / span
    ensures span * (h * share) == h * length
  {
    assert span * share == length;
    assert span * (h * share) == h * (span * share);
  }

  lemma HalfOff(span: real, a: real, b: real, y: real)
    requires 0.0 < span && y == span * a && a - 0.5 <= b <= a + 0.5
    ensures -0.5 * span <= b * span - y <= 0.5 * span
  {
    var d := b - a;
    Shifted(span, a, b, d, y);
    HalfAtMost(span, d);
  }

  lemma Shifted(span: real, a: real, b: real, d: real, y: real)
    requires y == span * a && b == a + d
    ensures b * span == y + span * d
  {
  }

  lemma HalfAtMost(span: real, d: real)
    requires 0.0 < span && -0.5 <= d <= 0.5
    ensures -0.5 * span <= span * d <= 0.5 * span
  {
    MulMonotone(span, -0.5, d);
    MulMonotone(span, d, 0.5);
  }

  /** The span that x values are measured against. */
  ghost function WidthSpan(range: Range): real {
    if range.minx == range.maxx then 1.0 else range.maxx - range.minx
  }

  /** The same for x values, in any frame. */
  lemma {:induction false} PlotXLaw(p: Plot, x: real)
    requires p.Valid() && p.range.minx <= p.range.maxx
    ensures Proportional(x - p.range.minx, WidthSpan(p.range), p.PlotX(x) - p.frame.left, p.frame.width)
  {
    var span := WidthSpan(p.range);
    assert span == Span(p.range.minx, p.range.maxx);
    XProportion(x - p.range.minx, span, p.frame.width, p.PlotX(x) - p.frame.left);
  }

  lemma XProportion(d: real, span: real, w: int, n: int)
    requires 0.0 < span && n == Round(d * (w as real / span))
    ensures Proportional(d, span, n, w)
  {
    ShareSwap(d, w as real, span);
    WidthProportion(d, span, w, d / span);
  }

  lemma ShareSwap(d: real, w: real, span: real)
    requires 0.0 < span
    ensures d * (w / span) == w * (d / span)
  {
    var a, b := w / span, d / span;
    assert a * span == w && b * span == d;
    assert d * a == (b * span) * a == w * b;
  }

  lemma WidthProportion(length: real, span: real, w: int, share: real)
    requires 0.0 < span && share == length / span
    ensures Proportional(length, span, Round(w as real * share), w)
  {
    Rearranged(span, w as real, share, length);
    ShareRounded(length, span, w, share, Round(w as real * share));
  }

  /** The edge between two neighbouring regions is as far from the one value as from the other; the last one is halfway to `canvasWidth`. */
  lemma EdgesHalfway(p: Plot, i: int)
    requires p.Valid() && 0 <= i < |p.ys|
    ensures var next := if i < |p.ys| - 1 then p.X(i + 1) else p.frame.width;
      p.Mid(i) - p.X(i) as real == next as real - p.Mid(i)
  {
  }

  /** Every vertex is inside the frame, and a larger value is never lower on the screen. */
  lemma VertexInFrame(p: Plot, y: real)
    requires p.Valid() && p.range.miny <= p.range.maxy && 0 <= p.frame.height
    ensures p.frame.top <= p.PlotY(y) <= p.frame.top + p.frame.height
  {
    var lo, hi := p.range.miny, p.range.maxy;
    ShareBounds(Clamp(y, lo, hi), lo, hi);
    RoundShare(p.frame.height, (Clamp(y, lo, hi) - lo) / Span(lo, hi));
  }

  lemma ShareBounds(y: real, lo: real, hi: real)
    requires lo <= y <= hi
    ensures 0.0 <= (y - lo) / Span(lo, hi) <= 1.0
  {
    if lo < hi {
      var k := 1.0 / (hi - lo);
      assert (y - lo) / (hi - lo) == (y - lo) * k;
      MulMonotone(k, 0.0, y - lo);
      MulMonotone(k, y - lo, hi - lo);
    }
  }

  lemma ShareMonotone(y: real, z: real, lo: real, hi: real)
    requires lo <= hi && y <= z
    ensures (y - lo) / Span(lo, hi) <= (z - lo) / Span(lo, hi)
  {
    var k := 1.0 / Span(lo, hi);
    assert (y - lo) / Span(lo, hi) == (y - lo) * k && (z - lo) / Span(lo, hi) == (z - lo) * k;
    MulMonotone(k, y - lo, z - lo);
  }

  lemma LargerIsHigher(p: Plot, y: real, z: real)
    requires p.Valid() && p.range.miny <= p.range.maxy && 0 <= p.frame.height && y <= z
    ensures p.PlotY(z) <= p.PlotY(y)
  {
    var lo, hi, h := p.range.miny, p.range.maxy, p.frame.height as real;
    var a, b := Clamp(y, lo, hi), Clamp(z, lo, hi);
    ShareMonotone(a, b, lo, hi);
    MulMonotone(h, (a - lo) / Span(lo, hi), (b - lo) / Span(lo, hi));
    RoundMonotone(h - h * ((b - lo) / Span(lo, hi)), h - h * ((a - lo) / Span(lo, hi)));
  }

  /** The plot is the one of these values and options, `scanned` the true extremes before the range options. */
  ghost predicate Prepared(values: seq<Value>, xvalues: Option<seq<real>>, ro: RangeOptions, so: SpotOptions,
                           width: int, height: int, p: Plot, scanned: Range)
  {
    && p.Valid() && |p.ys| == |values| > 0
    && (forall i :: 0 <= i < |values| ==> p.ys[i] == YOf(values[i]))
    && (xvalues == None ==> |p.xs| == |values| && forall i :: 0 <= i < |values| ==> p.xs[i] == XOf(values[i], i))
    && (xvalues.Some? ==> p.xs == xvalues.value)
    && IsMax(scanned.maxx, p.xs) && IsMin(scanned.minx, p.xs)
    && IsMax(scanned.maxy, Extents(values)) && IsMin(scanned.miny, Extents(values))
    && p.range == ProcessRangeOptions(ro, scanned)
    && p.frame == FrameFor(so, width, height, p.ys[0], p.ys[|p.ys| - 1], p.range)
  }

  /** The first half of `render`: scan, range, frame. `None` is the early return on empty or all-null data. */
  method Prepare(values: seq<Value>, xvalues: Option<seq<real>>, ro: RangeOptions, so: SpotOptions, width: int, height: int)
      returns (plot: Option<Plot>, scanned: Range)
    requires xvalues.Some? ==> |xvalues.value| >= |values|
    requires 1 <= height && 0 <= width && 0.0 <= so.radius
    ensures plot == None <==> Extents(values) == [] || |values| < 2
    ensures plot.Some? ==>
      Prepared(values, xvalues, ro, so, width, height, plot.value, scanned)
    ensures plot.Some? && plot.value.range.miny <= plot.value.range.maxy && 0 <= plot.value.frame.height ==>
      PlotsHeights(plot.value, height)
    ensures plot.Some? && plot.value.range.minx <= plot.value.range.maxx ==> PlotsWidths(plot.value)
  {
    var xs, ys, extent := ScanValues(values);
    if xvalues.Some? {
      xs := xvalues.value;
    }
    if extent == [] || |ys| < 2 {
      return None, Range(0.0, 0.0, 0.0, 0.0);
    }
    var maxy, miny := MaxMin(extent);
    var maxx, minx := MaxMin(xs);
    scanned := Range(miny, maxy, minx, maxx);
    var range := ProcessRangeOptions(ro, scanned);
    var p := Plot(xs, ys, FrameFor(so, width, height, ys[0], ys[|ys| - 1], range), range);
    plot := Some(p);
    FrameOnCanvas(so, width, height, ys[0], ys[|ys| - 1], range);
    if range.miny <= range.maxy && 0 <= p.frame.height {
      HeightsPlotted(p, height);
    }
    if range.minx <= range.maxx {
      WidthsPlotted(p);
    }
  }

  /** Every vertex is on the canvas, at the height its value calls for, and larger values are never lower. */
  ghost predicate PlotsHeights(p: Plot, height: int)
    requires p.Valid()
  {
    && (forall i :: 0 <= i < |p.ys| && p.ys[i].Some? ==>
          0 <= p.Vertex(i).y <= height - 1 && PlottedAt(p, p.ys[i].value, p.Vertex(i).y))
    && (forall i, j | 0 <= i < |p.ys| && 0 <= j < |p.ys| && p.ys[i].Some? && p.ys[j].Some? ::
          p.ys[i].value <= p.ys[j].value ==> p.Vertex(j).y <= p.Vertex(i).y)
  }

  /** Every value is plotted in proportion to its x value, its vertex there. */
  ghost predicate PlotsWidths(p: Plot)
    requires p.Valid()
  {
    && (forall i :: 0 <= i < |p.ys| ==> Proportional(p.xs[i] - p.range.minx, WidthSpan(p.range), p.X(i) - p.frame.left, p.frame.width))
    && (forall i :: 0 <= i < |p.ys| && p.ys[i].Some? ==> p.Vertex(i).x == p.X(i))
  }

  lemma HeightsPlotted(p: Plot, height: int)
    requires p.Valid() && p.range.miny <= p.range.maxy && 0 <= p.frame.height
    requires 0 <= p.frame.top && p.frame.top + p.frame.height <= height - 1
    ensures PlotsHeights(p, height)
  {
    forall i | 0 <= i < |p.ys| && p.ys[i].Some?
      ensures 0 <= p.Vertex(i).y <= height - 1 && PlottedAt(p, p.ys[i].value, p.Vertex(i).y)
    {
      VertexInFrame(p, p.ys[i].value);
      PlotYLaw(p, p.ys[i].value);
    }
    forall i, j | 0 <= i < |p.ys| && 0 <= j < |p.ys| && p.ys[i].Some? && p.ys[j].Some? && p.ys[i].value <= p.ys[j].value
      ensures p.Vertex(j).y <= p.Vertex(i).y
    {
      LargerIsHigher(p, p.ys[i].value, p.ys[j].value);
    }
  }

  lemma WidthsPlotted(p: Plot)
    requires p.Valid() && p.range.minx <= p.range.maxx
    ensures PlotsWidths(p)
  {
    forall i | 0 <= i < |p.ys|
      ensures Proportional(p.xs[i] - p.range.minx, WidthSpan(p.range), p.X(i) - p.frame.left, p.frame.width)
    {
      PlotXLaw(p, p.xs[i]);
    }
  }

  // ----- hit regions -----------------------------------------------------------------------

  datatype Region = Region(lo: real, hi: real, index: int)

  function LowEdge(p: Plot, i: int): real
    requires p.Valid() && 0 <= i < |p.ys|
  {
    if i == 0 then 0.0 else p.Mid(i - 1)
  }

  ghost predicate RegionsOf(p: Plot, regions: seq<Region>)
    requires p.Valid()
  {
    |regions| == |p.ys| && RegionsSoFar(p, regions)
  }

  ghost predicate RegionsSoFar(p: Plot, regions: seq<Region>)
    requires p.Valid()
  {
    |regions| <= |p.ys| && forall i :: 0 <= i < |regions| ==> regions[i] == Region(LowEdge(p, i), p.Mid(i), i)
  }

  ghost predicate LastHolding(regions: seq<Region>, x: real, i: int) {
    && 0 <= i < |regions| && regions[i].lo <= x <= regions[i].hi
    && forall j :: i < j < |regions| ==> !(regions[j].lo <= x <= regions[j].hi)
  }

  /** `answer` is the last region that holds `x`, or none if no region does. */
  ghost predicate LastOrNone(regions: seq<Region>, x: real, answer: Option<int>) {
    if answer.Some? then exists i :: LastHolding(regions, x, i) && answer.value == regions[i].index
    else forall j :: 0 <= j < |regions| ==> !(regions[j].lo <= x <= regions[j].hi)
  }

  method GetRegion(regions: seq<Region>, x: real) returns (answer: Option<int>)
    ensures LastOrNone(regions, x, answer)
  {
    var i := |regions|;
    while i > 0
      invariant 0 <= i <= |regions|
      invariant forall j :: i <= j < |regions| ==> !(regions[j].lo <= x <= regions[j].hi)
    {
      i := i - 1;
      if x >= regions[i].lo && x <= regions[i].hi {
        assert LastHolding(regions, x, i);
        return Some(regions[i].index);
      }
    }
    return None;
  }

  function Distance(x: real, at: int): real {
    if x < at as real then at as real - x else x - at as real
  }

  ghost predicate NonDecreasing(p: Plot) {
    p.Valid() && forall i, j :: 0 <= i <= j < |p.ys| ==> p.xs[i] <= p.xs[j]
  }

  /** Plotted positions follow the order of the x values when the frame is not turned around. */
  lemma PlotXMonotone(p: Plot, i: int, j: int)
    requires NonDecreasing(p) && 0 <= p.frame.width && p.range.minx <= p.range.maxx
    requires 0 <= i <= j < |p.ys|
    ensures p.X(i) <= p.X(j)
  {
    var span := Span(p.range.minx, p.range.maxx);
    var k := p.frame.width as real / span;
    assert 0.0 <= k by {
      MulMonotone(1.0 / span, 0.0, p.frame.width as real);
    }
    MulMonotone(k, p.xs[i] - p.range.minx, p.xs[j] - p.range.minx);
    RoundMonotone((p.xs[i] - p.range.minx) * k, (p.xs[j] - p.range.minx) * k);
  }

  /** Whatever region answers, no other value is plotted strictly closer to the mouse. */
  lemma {:induction false} HitIsNearest(p: Plot, i: int, x: real, j: int)
    requires NonDecreasing(p) && 0 <= p.frame.width && p.range.minx <= p.range.maxx
    requires 0 <= i < |p.ys| && 0 <= j < |p.ys|
    requires LowEdge(p, i) <= x <= p.Mid(i)
    ensures Distance(x, p.X(i)) <= Distance(x, p.X(j))
  {
    if j < i {
      PlotXMonotone(p, j, i - 1);
      PlotXMonotone(p, i - 1, i);
    } else if i < j {
      PlotXMonotone(p, i, i + 1);
      PlotXMonotone(p, i + 1, j);
    }
  }

  /** Every position from 0 to the last midpoint is in some region: adjacent regions share an edge. */
  lemma {:induction false} RegionsCover(p: Plot, n: int, x: real) returns (i: int)
    requires p.Valid() && 0 < n <= |p.ys| && 0.0 <= x <= p.Mid(n - 1)
    ensures 0 <= i < n && LowEdge(p, i) <= x <= p.Mid(i)
    decreases n
  {
    i := n - 1;
    if n > 1 && x <= p.Mid(n - 2) {
      i := RegionsCover(p, n - 1, x);
    }
  }

  /** `getRegion` on the map that `render` builds: it answers on the whole covered stretch, and answers a nearest value. */
  method HitTest(p: Plot, regions: seq<Region>, x: real) returns (answer: Option<int>)
    requires p.Valid() && RegionsOf(p, regions)
    ensures LastOrNone(regions, x, answer)
    ensures answer.Some? ==> 0 <= answer.value < |p.ys|
    ensures NonDecreasing(p) && 0 <= p.frame.width && p.range.minx <= p.range.maxx && answer.Some? ==>
      forall j :: 0 <= j < |p.ys| ==> Distance(x, p.X(answer.value)) <= Distance(x, p.X(j))
    ensures 0 < |p.ys| && 0.0 <= x <= p.Mid(|p.ys| - 1) ==> answer.Some?
  {
    if 0 < |p.ys| && 0.0 <= x <= p.Mid(|p.ys| - 1) {
      ghost var i := RegionsCover(p, |p.ys|, x);
      assert regions[i].lo <= x <= regions[i].hi;
    }
    answer := GetRegion(regions, x);
    ghost var inOrder := NonDecreasing(p) && 0 <= p.frame.width && p.range.minx <= p.range.maxx;
    if answer.Some? && inOrder {
      forall j | 0 <= j < |p.ys| ensures Distance(x, p.X(answer.value)) <= Distance(x, p.X(j)) {
        HitIsNearest(p, answer.value, x, j);
      }
    }
  }

  // ----- splitting the line at nulls -------------------------------------------------------

  /** A maximal run of numbers: positions `from` up to but not including `to`. */
  datatype Stretch = Stretch(from: int, to: int)

  /** Within the first `n` values. */
  ghost predicate IsMaximalIn(ys: seq<Option<real>>, n: int, s: Stretch)
    requires n <= |ys|
  {
    && 0 <= s.from < s.to <= n
    && (forall k :: s.from <= k < s.to ==> ys[k].Some?)
    && (s.from > 0 ==> ys[s.from - 1] == None)
    && (s.to < n ==> ys[s.to] == None)
  }

  ghost predicate IsMaximal(ys: seq<Option<real>>, s: Stretch) {
    IsMaximalIn(ys, |ys|, s)
  }

  ghost predicate Contains(s: Stretch, i: int) {
    s.from <= i < s.to
  }

  predicate Open(ys: seq<Option<real>>, n: int)
    requires 0 <= n <= |ys|
  {
    n > 0 && ys[n - 1].Some?
  }

  /** The runs within the first `n` values, left to right. */
  function Runs(ys: seq<Option<real>>, n: int): (r: seq<Stretch>)
    requires 0 <= n <= |ys|
    ensures Open(ys, n) ==> r != [] && r[|r| - 1].to == n
    decreases n
  {
    if n == 0 then []
    else
      var r := Runs(ys, n - 1);
      if ys[n - 1] == None then r
      else if Open(ys, n - 1) then r[|r| - 1 := Stretch(r[|r| - 1].from, n)]
      else r + [Stretch(n - 1, n)]
  }

  ghost predicate RunsSoFar(ys: seq<Option<real>>, n: int, r: seq<Stretch>)
    requires 0 <= n <= |ys|
  {
    && (forall k :: 0 <= k < |r| ==> IsMaximalIn(ys, n, r[k]))
    && (forall k :: 0 < k < |r| ==> r[k - 1].to < r[k].from)
    && (forall i :: 0 <= i < n && ys[i].Some? ==> exists k :: 0 <= k < |r| && Contains(r[k], i))
  }

  lemma {:induction false} RunsPrefix(ys: seq<Option<real>>, n: int)
    requires 0 <= n <= |ys|
    ensures RunsSoFar(ys, n, Runs(ys, n))
    decreases n
  {
    if n > 0 {
      RunsPrefix(ys, n - 1);
      RunsStep(ys, n);
    }
  }

  lemma {:induction false} RunsStep(ys: seq<Option<real>>, n: int)
    requires 0 < n <= |ys| && RunsSoFar(ys, n - 1, Runs(ys, n - 1))
    ensures RunsSoFar(ys, n, Runs(ys, n))
  {
    if ys[n - 1] == None {
      RunsAfterNull(ys, n, Runs(ys, n - 1));
    } else if Open(ys, n - 1) {
      RunsExtended(ys, n, Runs(ys, n - 1), Runs(ys, n));
    } else {
      RunsStarted(ys, n, Runs(ys, n - 1), Runs(ys, n));
    }
  }

  lemma RunsAfterNull(ys: seq<Option<real>>, n: int, q: seq<Stretch>)
    requires 0 < n <= |ys| && RunsSoFar(ys, n - 1, q) && ys[n - 1] == None
    ensures RunsSoFar(ys, n, q)
  {
    assert forall k :: 0 <= k < |q| ==> IsMaximalIn(ys, n - 1, q[k]);
  }

  lemma {:induction false} RunsExtended(ys: seq<Option<real>>, n: int, q: seq<Stretch>, r: seq<Stretch>)
    requires 0 < n <= |ys| && RunsSoFar(ys, n - 1, q) && ys[n - 1].Some? && Open(ys, n - 1)
    requires q != [] && q[|q| - 1].to == n - 1
    requires r == q[|q| - 1 := Stretch(q[|q| - 1].from, n)]
    ensures RunsSoFar(ys, n, r)
  {
    var m := |q| - 1;
    forall k | 0 <= k < |r| ensures IsMaximalIn(ys, n, r[k]) {
      assert IsMaximalIn(ys, n - 1, q[k]);
      if k < m {
        EarlierEnds(ys, n - 1, q, k, m);
      }
    }
    ExtendedCover(ys, n, q, r);
  }

  lemma ExtendedCover(ys: seq<Option<real>>, n: int, q: seq<Stretch>, r: seq<Stretch>)
    requires 0 < n <= |ys| && RunsSoFar(ys, n - 1, q)
    requires q != [] && q[|q| - 1].to == n - 1
    requires r == q[|q| - 1 := Stretch(q[|q| - 1].from, n)]
    ensures forall i :: 0 <= i < n && ys[i].Some? ==> exists k :: 0 <= k < |r| && Contains(r[k], i)
  {
    var m := |q| - 1;
    forall i | 0 <= i < n && ys[i].Some? ensures exists k :: 0 <= k < |r| && Contains(r[k], i) {
      if i == n - 1 {
        assert IsMaximalIn(ys, n - 1, q[m]);
        assert Contains(r[m], i);
      } else {
        var k :| 0 <= k < |q| && Contains(q[k], i);
        assert Contains(r[k], i);
      }
    }
  }

  lemma {:induction false} RunsStarted(ys: seq<Option<real>>, n: int, q: seq<Stretch>, r: seq<Stretch>)
    requires 0 < n <= |ys| && RunsSoFar(ys, n - 1, q) && ys[n - 1].Some? && !Open(ys, n - 1)
    requires r == q + [Stretch(n - 1, n)]
    ensures RunsSoFar(ys, n, r)
  {
    forall k | 0 <= k < |r| ensures IsMaximalIn(ys, n, r[k]) && (k < |q| ==> r[k].to < n - 1) {
      if k < |q| {
        assert IsMaximalIn(ys, n - 1, q[k]);
      }
    }
    forall i | 0 <= i < n && ys[i].Some? ensures exists k :: 0 <= k < |r| && Contains(r[k], i) {
      if i == n - 1 {
        assert Contains(r[|q|], i);
      } else {
        var k :| 0 <= k < |q| && Contains(q[k], i);
        assert Contains(r[k], i);
      }
    }
  }

  /** Runs are listed left to right. */
  lemma {:induction false} EarlierEnds(ys: seq<Option<real>>, n: int, r: seq<Stretch>, j: int, k: int)
    requires 0 <= n <= |ys| && RunsSoFar(ys, n, r) && 0 <= j < k < |r|
    ensures r[j].to < r[k].from
    decreases k - j
  {
    if j + 1 < k {
      EarlierEnds(ys, n, r, j, k - 1);
      assert IsMaximalIn(ys, n, r[k - 1]);
    }
  }

  /** `Runs` lists every maximal run, in order, and nothing else. */
  lemma RunsExact(ys: seq<Option<real>>)
    ensures var r := Runs(ys, |ys|);
      && (forall k :: 0 <= k < |r| ==> IsMaximal(ys, r[k]))
      && (forall j, k :: 0 <= j < k < |r| ==> r[j].to < r[k].from)
      && (forall s :: IsMaximal(ys, s) ==> s in r)
  {
    var r := Runs(ys, |ys|);
    RunsPrefix(ys, |ys|);
    forall j, k | 0 <= j < k < |r| ensures r[j].to < r[k].from {
      EarlierEnds(ys, |ys|, r, j, k);
    }
    forall s | IsMaximal(ys, s) ensures s in r {
      var i := s.from;
      assert ys[i].Some?;
      var k :| 0 <= k < |r| && Contains(r[k], i);
      assert IsMaximal(ys, r[k]);
      SameRun(ys, s, r[k]);
    }
  }

  lemma SameRun(ys: seq<Option<real>>, s: Stretch, t: Stretch)
    requires IsMaximal(ys, s) && IsMaximal(ys, t) && Contains(t, s.from)
    ensures s == t
  {
    assert s.from > 0 ==> !Contains(t, s.from - 1);
    assert s.to < |ys| ==> !Contains(t, s.to);
    assert t.to < |ys| ==> !Contains(s, t.to);
  }

  // ----- the render loop -------------------------------------------------------------------

  /** The vertices of values `from` up to `to`. */
  function Vertices(p: Plot, lo: int, hi: int): (r: seq<Point>)
    requires p.Valid() && 0 <= lo <= hi <= |p.ys|
    requires forall k :: lo <= k < hi ==> p.ys[k].Some?
    ensures |r| == hi - lo
    ensures forall k :: 0 <= k < |r| ==> r[k] == p.Vertex(lo + k)
    decreases hi - lo
  {
    if lo == hi then [] else Vertices(p, lo, hi - 1) + [p.Vertex(hi - 1)]
  }

  ghost predicate Run(p: Plot, s: Stretch) {
    0 <= s.from < s.to <= |p.ys| && forall k :: s.from <= k < s.to ==> p.ys[k].Some?
  }

  /** A path: a baseline anchor under the first vertex, then one vertex per value. */
  ghost predicate IsPath(p: Plot, s: Stretch, path: seq<Point>)
    requires p.Valid()
  {
    Run(p, s) && path == [Point(p.X(s.from), p.Baseline())] + Vertices(p, s.from, s.to)
  }

  ghost predicate PathsOf(p: Plot, n: int, paths: seq<seq<Point>>)
    requires p.Valid() && 0 <= n <= |p.ys|
  {
    var runs := Runs(p.ys, n);
    && |paths| == |runs| + (if Open(p.ys, n) then 0 else 1)
    && (forall k :: 0 <= k < |runs| ==> IsPath(p, runs[k], paths[k]))
    && (!Open(p.ys, n) ==> paths[|runs|] == [])
  }

  /** `vertices` after `n` values: a null leaves an entry only directly after a number. */
  function VertexList(p: Plot, n: int): seq<Option<Point>>
    requires p.Valid() && 0 <= n <= |p.ys|
    decreases n
  {
    if n == 0 then []
    else if p.ys[n - 1].Some? then VertexList(p, n - 1) + [Some(p.Vertex(n - 1))]
    else if Open(p.ys, n - 1) then VertexList(p, n - 1) + [None]
    else VertexList(p, n - 1)
  }

  /** One round of the loop on `paths`, whose last element is the path being built. */
  method ExtendPaths(p: Plot, i: int, paths: seq<seq<Point>>) returns (more: seq<seq<Point>>)
    requires p.Valid() && 0 <= i < |p.ys| && PathsOf(p, i, paths)
    ensures PathsOf(p, i + 1, more)
  {
    more := paths;
    ghost var runs, next := Runs(p.ys, i), Runs(p.ys, i + 1);
    if p.ys[i] == None {
      if i > 0 && p.ys[i - 1].Some? {
        more := more + [[]];
      }
    } else {
      var path := more[|more| - 1];
      if path == [] {
        path := [Point(p.X(i), p.Baseline())];
      }
      assert path == if Open(p.ys, i) then paths[|runs| - 1] else [Point(p.X(i), p.Baseline())];
      path := path + [p.Vertex(i)];
      more := more[|more| - 1 := path];
      ghost var s := next[|next| - 1];
      if Open(p.ys, i) {
        assert IsPath(p, runs[|runs| - 1], paths[|runs| - 1]);
        assert Vertices(p, s.from, i + 1) == Vertices(p, s.from, i) + [p.Vertex(i)];
      } else {
        assert Vertices(p, i, i) == [];
      }
      assert IsPath(p, s, path);
    }
  }

  method RenderLoop(p: Plot) returns (regions: seq<Region>, paths: seq<seq<Point>>, vertices: seq<Option<Point>>)
    requires p.Valid()
    ensures RegionsOf(p, regions)
    ensures PathsOf(p, |p.ys|, paths)
    ensures vertices == VertexList(p, |p.ys|)
    ensures p.range.miny <= p.range.maxy && 0 <= p.frame.height ==>
      forall i :: 0 <= i < |p.ys| && p.ys[i].Some? ==> PlottedAt(p, p.ys[i].value, p.Vertex(i).y)
  {
    regions, paths, vertices := [], [[]], [];
    var last: Option<real> := None;
    for i := 0 to |p.ys|
      invariant Drawn(p, i, regions, last, paths, vertices)
    {
      regions, last, paths, vertices := DrawValue(p, i, regions, last, paths, vertices);
    }
    forall i | p.range.miny <= p.range.maxy && 0 <= p.frame.height && 0 <= i < |p.ys| && p.ys[i].Some?
      ensures PlottedAt(p, p.ys[i].value, p.Vertex(i).y)
    {
      PlotYLaw(p, p.ys[i].value);
    }
  }

  /** What the loop has built when it reaches value `n`. */
  ghost predicate Drawn(p: Plot, n: int, regions: seq<Region>, last: Option<real>, paths: seq<seq<Point>>, vertices: seq<Option<Point>>)
    requires p.Valid() && 0 <= n <= |p.ys|
  {
    |regions| == n && RegionsSoFar(p, regions) && LastEdge(p, n, last) && PathsOf(p, n, paths) && vertices == VertexList(p, n)
  }

  /** One round of the loop. */
  method DrawValue(p: Plot, i: int, regions: seq<Region>, last: Option<real>, paths: seq<seq<Point>>, vertices: seq<Option<Point>>)
    returns (regions': seq<Region>, last': Option<real>, paths': seq<seq<Point>>, vertices': seq<Option<Point>>)
    requires p.Valid() && 0 <= i < |p.ys| && Drawn(p, i, regions, last, paths, vertices)
    ensures Drawn(p, i + 1, regions', last', paths', vertices')
  {
    regions', last' := ExtendRegions(p, last, regions);
    paths' := ExtendPaths(p, i, paths);
    vertices' := ExtendVertices(p, i, vertices);
  }

  /** `last` is the right edge of the region before value `n`. */
  ghost predicate LastEdge(p: Plot, n: int, last: Option<real>)
    requires p.Valid() && 0 <= n <= |p.ys|
  {
    last == if n == 0 then None else Some(p.Mid(n - 1))
  }

  method ExtendRegions(p: Plot, last: Option<real>, regions: seq<Region>) returns (more: seq<Region>, edge: Option<real>)
    requires p.Valid() && |regions| < |p.ys| && RegionsSoFar(p, regions) && LastEdge(p, |regions|, last)
    ensures |more| == |regions| + 1 && RegionsSoFar(p, more) && LastEdge(p, |more|, edge)
  {
    var next := p.Mid(|regions|);
    more := regions + [Region(if last.Some? then last.value else 0.0, next, |regions|)];
    edge := Some(next);
  }

  method ExtendVertices(p: Plot, i: int, vertices: seq<Option<Point>>) returns (more: seq<Option<Point>>)
    requires p.Valid() && 0 <= i < |p.ys| && vertices == VertexList(p, i)
    ensures more == VertexList(p, i + 1)
  {
    more := vertices;
    if p.ys[i].Some? {
      more := more + [Some(p.Vertex(i))];
    } else if i > 0 && p.ys[i - 1].Some? {
      more := more + [None];
    }
  }

  /** The line drawn for a run; a single value is drawn as a vertical stroke from the baseline. */
  ghost predicate IsLine(p: Plot, s: Stretch, line: seq<Point>)
    requires p.Valid()
  {
    Run(p, s) &&
    line == [Point(p.X(s.from), if s.to - s.from > 1 then p.Vertex(s.from).y else p.Baseline())] + Vertices(p, s.from, s.to)
  }

  /** A fill outline starts and ends on the baseline, with the run's vertices between. */
  ghost predicate IsFill(p: Plot, s: Stretch, outline: seq<Point>)
    requires p.Valid()
  {
    Run(p, s) &&
    outline == [Point(p.X(s.from), p.Baseline())] + Vertices(p, s.from, s.to) + [Point(p.X(s.to - 1), p.Baseline())]
  }

  /** One round of the second loop: close the path for filling, then lift its anchor for the line. */
  method Outline(p: Plot, ghost s: Stretch, path: seq<Point>) returns (line: seq<Point>, outline: seq<Point>)
    requires p.Valid() && IsPath(p, s, path)
    ensures IsLine(p, s, line) && IsFill(p, s, outline)
  {
    assert path[|path| - 1] == p.Vertex(s.to - 1) && path[1] == p.Vertex(s.from);
    outline := path + [Point(path[|path| - 1].x, p.Baseline())];
    line := path;
    if |path| > 2 {
      line := line[0 := Point(path[0].x, path[1].y)];
    }
  }

  /** The lines and fills of the first runs. */
  ghost predicate Built(p: Plot, fill: bool, lines: seq<seq<Point>>, fills: seq<seq<Point>>)
    requires p.Valid()
  {
    var runs := Runs(p.ys, |p.ys|);
    && |lines| <= |runs| && |fills| == (if fill then |lines| else 0)
    && (forall k :: 0 <= k < |lines| ==> IsLine(p, runs[k], lines[k]))
    && (forall k :: 0 <= k < |fills| ==> IsFill(p, runs[k], fills[k]))
  }

  /** One line for each run, and one fill if there is a fill colour. */
  method BuildShapes(p: Plot, paths: seq<seq<Point>>, fill: bool) returns (lines: seq<seq<Point>>, fills: seq<seq<Point>>)
    requires p.Valid() && PathsOf(p, |p.ys|, paths)
    ensures Built(p, fill, lines, fills) && |lines| == |Runs(p.ys, |p.ys|)|
  {
    lines, fills := [], [];
    ghost var runs := Runs(p.ys, |p.ys|);
    for i := 0 to |paths|
      invariant |lines| == if i <= |runs| then i else |runs|
      invariant Built(p, fill, lines, fills)
    {
      assert i < |runs| ==> IsPath(p, runs[i], paths[i]);
      if paths[i] != [] {
        var line, outline := Outline(p, runs[i], paths[i]);
        AddBuilt(p, fill, lines, fills, line, outline);
        lines := lines + [line];
        if fill {
          fills := fills + [outline];
        }
      }
    }
  }

  lemma AddBuilt(p: Plot, fill: bool, lines: seq<seq<Point>>, fills: seq<seq<Point>>, line: seq<Point>, outline: seq<Point>)
    requires p.Valid() && Built(p, fill, lines, fills) && |lines| < |Runs(p.ys, |p.ys|)|
    requires var s := Runs(p.ys, |p.ys|)[|lines|]; IsLine(p, s, line) && IsFill(p, s, outline)
    ensures Built(p, fill, lines + [line], if fill then fills + [outline] else fills)
  {
    var runs := Runs(p.ys, |p.ys|);
    var more, filled := lines + [line], if fill then fills + [outline] else fills;
    forall k | 0 <= k < |more| ensures IsLine(p, runs[k], more[k]) {
      if k < |lines| {
        assert IsLine(p, runs[k], lines[k]);
      }
    }
    forall k | 0 <= k < |filled| ensures IsFill(p, runs[k], filled[k]) {
      if k < |fills| {
        assert IsFill(p, runs[k], fills[k]);
      }
    }
  }

  // ----- a whole chart under the mouse -----------------------------------------------------

  /**
   * From the given values to the answer of `getRegion`: for x values in order, a range that is not
   * turned around and a frame that is not negative, the answer is a value plotted nearest to the mouse,
   * and there is one from the left edge to the last midpoint.
   */
  method Hover(values: seq<Value>, xvalues: Option<seq<real>>, ro: RangeOptions, so: SpotOptions, width: int, height: int, x: real)
      returns (plot: Option<Plot>, scanned: Range, answer: Option<int>)
    requires xvalues.Some? ==> |xvalues.value| >= |values|
    requires 1 <= height && 0 <= width && 0.0 <= so.radius
    ensures plot == None <==> Extents(values) == [] || |values| < 2
    ensures plot == None ==> answer == None
    ensures plot.Some? ==> Prepared(values, xvalues, ro, so, width, height, plot.value, scanned)
    ensures plot.Some? ==> exists regions ::
      RegionsOf(plot.value, regions) && LastOrNone(regions, x, answer)
    ensures answer.Some? ==> 0 <= answer.value < |values|
    ensures plot.Some? && NonDecreasing(plot.value) && ClipKeepsOrderX(ro, scanned)
            && !(0.0 < 4.0 * so.radius <= 1.0 && width == 1) ==>
      var p := plot.value;
      && (answer.Some? ==> forall j :: 0 <= j < |p.ys| ==> Distance(x, p.X(answer.value)) <= Distance(x, p.X(j)))
      && (0.0 <= x <= p.Mid(|p.ys| - 1) ==> answer.Some?)
  {
    plot, scanned := Prepare(values, xvalues, ro, so, width, height);
    if plot == None {
      return plot, scanned, None;
    }
    var p := plot.value;
    var regions, _, _ := RenderLoop(p);
    PreparedOrder(values, xvalues, ro, so, width, height, p, scanned);
    answer := HitTest(p, regions, x);
  }

  lemma PreparedOrder(values: seq<Value>, xvalues: Option<seq<real>>, ro: RangeOptions, so: SpotOptions,
                      width: int, height: int, p: Plot, scanned: Range)
    requires Prepared(values, xvalues, ro, so, width, height, p, scanned)
    requires 1 <= height && 0 <= width && 0.0 <= so.radius
    ensures ClipKeepsOrderX(ro, scanned) <==> p.range.minx <= p.range.maxx
    ensures !(0.0 < 4.0 * so.radius <= 1.0 && width == 1) ==> 0 <= p.frame.width
  {
    FrameOnCanvas(so, width, height, p.ys[0], p.ys[|p.ys| - 1], p.range);
    ScannedOrder(p, scanned);
    RangeOrderedXIff(ro, scanned);
  }

  lemma ScannedOrder(p: Plot, scanned: Range)
    requires IsMax(scanned.maxx, p.xs) && IsMin(scanned.minx, p.xs)
    ensures scanned.minx <= scanned.maxx
  {
    var i :| 0 <= i < |p.xs| && p.xs[i] == scanned.minx;
  }

  // ----- does `vertices[i]` belong to value i? ---------------------------------------------

  /** What `renderHighlight` reads for region `i`: a missing entry behaves like `null`. */
  function Lookup(vertices: seq<Option<Point>>, i: int): Option<Point>
    requires 0 <= i
  {
    if i < |vertices| then vertices[i] else None
  }

  function Wanted(p: Plot, i: int): Option<Point>
    requires p.Valid() && 0 <= i < |p.ys|
  {
    if p.ys[i].Some? then Some(p.Vertex(i)) else None
  }

  /** A null that leaves no entry: the first value, or one after another null. */
  predicate Skipped(ys: seq<Option<real>>, i: int)
    requires 0 <= i < |ys|
  {
    ys[i] == None && !Open(ys, i)
  }

  lemma {:induction false} NoSkipAligned(p: Plot, n: int)
    requires p.Valid() && 0 <= n <= |p.ys|
    requires forall i :: 0 <= i < n ==> !Skipped(p.ys, i)
    ensures |VertexList(p, n)| == n
    ensures forall i :: 0 <= i < n ==> VertexList(p, n)[i] == Wanted(p, i)
    decreases n
  {
    if n > 0 {
      assert !Skipped(p.ys, n - 1);
      NoSkipAligned(p, n - 1);
    }
  }

  lemma {:induction false} VertexListGrows(p: Plot, n: int, m: int)
    requires p.Valid() && 0 <= n <= m <= |p.ys|
    ensures |VertexList(p, n)| <= |VertexList(p, m)| <= |VertexList(p, n)| + (m - n)
    ensures VertexList(p, n) <= VertexList(p, m)
    decreases m - n
  {
    if n < m {
      VertexListGrows(p, n, m - 1);
    }
  }

  /** After the last number at most one entry follows, and it is null. */
  lemma {:induction false} NullTail(p: Plot, n: int, m: int)
    requires p.Valid() && 0 <= n <= m <= |p.ys|
    requires forall i :: n <= i < m ==> p.ys[i] == None
    ensures var v := VertexList(p, m); |VertexList(p, n)| <= |v| && forall i :: |VertexList(p, n)| <= i < |v| ==> v[i] == None
    decreases m - n
  {
    if n < m {
      NullTail(p, n, m - 1);
    }
  }

  /** Some null is skipped although numbers follow it: every later region then reads a wrong vertex. */
  predicate SkipsBeforeNumber(ys: seq<Option<real>>) {
    exists i, j :: 0 <= i < j < |ys| && Skipped(ys, i) && ys[j].Some?
  }

  /** Highlighting reads the right vertex for every region exactly when no null is skipped before a number. */
  lemma LookupRightIff(p: Plot)
    requires p.Valid()
    ensures (forall i :: 0 <= i < |p.ys| ==> Lookup(VertexList(p, |p.ys|), i) == Wanted(p, i)) <==> !SkipsBeforeNumber(p.ys)
  {
    if SkipsBeforeNumber(p.ys) {
      var i, j :| 0 <= i < j < |p.ys| && Skipped(p.ys, i) && p.ys[j].Some?;
      var m := LastNumber(p.ys, j);
      LookupWrong(p, i, m);
    } else {
      forall i | 0 <= i < |p.ys| ensures Lookup(VertexList(p, |p.ys|), i) == Wanted(p, i) {
        LookupRight(p, i);
      }
    }
  }

  lemma LastNumber(ys: seq<Option<real>>, j: int) returns (m: int)
    requires 0 <= j < |ys| && ys[j].Some?
    ensures j <= m < |ys| && ys[m].Some? && forall i :: m < i < |ys| ==> ys[i] == None
  {
    m := |ys| - 1;
    while ys[m] == None
      invariant j <= m < |ys| && forall i :: m < i < |ys| ==> ys[i] == None
      decreases m
    {
      m := m - 1;
    }
  }

  lemma LookupWrong(p: Plot, i: int, m: int)
    requires p.Valid() && 0 <= i < m < |p.ys| && Skipped(p.ys, i) && p.ys[m].Some?
    requires forall k :: m < k < |p.ys| ==> p.ys[k] == None
    ensures Lookup(VertexList(p, |p.ys|), m) != Wanted(p, m)
  {
    VertexListGrows(p, 0, i);
    VertexListGrows(p, i + 1, m + 1);
    assert |VertexList(p, m + 1)| <= m;
    NullTail(p, m + 1, |p.ys|);
  }

  lemma LookupRight(p: Plot, i: int)
    requires p.Valid() && 0 <= i < |p.ys| && !SkipsBeforeNumber(p.ys)
    ensures Lookup(VertexList(p, |p.ys|), i) == Wanted(p, i)
  {
    if p.ys[i].Some? {
      NoSkipAligned(p, i + 1);
      VertexListGrows(p, i + 1, |p.ys|);
    } else {
      var n := FirstSkipped(p.ys);
      if i < n {
        NoSkipAligned(p, n);
        VertexListGrows(p, n, |p.ys|);
      } else {
        NoSkipAligned(p, n);
        forall k | n <= k < |p.ys| ensures p.ys[k] == None {
          assert n < |p.ys| ==> Skipped(p.ys, n);
        }
        NullTail(p, n, |p.ys|);
      }
    }
  }

  lemma FirstSkipped(ys: seq<Option<real>>) returns (n: int)
    ensures 0 <= n <= |ys| && (forall i :: 0 <= i < n ==> !Skipped(ys, i)) && (n < |ys| ==> Skipped(ys, n))
  {
    n := 0;
    while n < |ys| && !Skipped(ys, n)
      invariant 0 <= n <= |ys| && forall i :: 0 <= i < n ==> !Skipped(ys, i)
    {
      n := n + 1;
    }
  }

  /** The list has one entry per value exactly when the first value is a number and no two nulls are adjacent. */
  lemma AlignedIff(p: Plot)
    requires p.Valid()
    ensures |VertexList(p, |p.ys|)| == |p.ys| <==>
      (|p.ys| > 0 ==> p.ys[0].Some?) && forall i :: 0 < i < |p.ys| ==> p.ys[i - 1].Some? || p.ys[i].Some?
  {
    if i :| 0 <= i < |p.ys| && Skipped(p.ys, i) {
      VertexListGrows(p, 0, i);
      VertexListGrows(p, i + 1, |p.ys|);
      assert |VertexList(p, |p.ys|)| < |p.ys|;
    } else {
      NoSkipAligned(p, |p.ys|);
      assert forall i :: 0 < i < |p.ys| && p.ys[i] == None ==> !Skipped(p.ys, i);
      assert |p.ys| > 0 ==> !Skipped(p.ys, 0);
    }
  }

  /** Leading nulls shift every vertex: hovering the number highlights nothing, hovering the null highlights the number. */
  lemma LeadingNullMisplacesHighlight()
    ensures var p := Plot([0.0, 1.0], [None, Some(5.0)], Frame(0, 0, 10, 10), Range(5.0, 5.0, 0.0, 1.0));
      p.Valid() && Lookup(VertexList(p, 2), 0) == Some(p.Vertex(1)) && Lookup(VertexList(p, 2), 1) == None
  {
    var p := Plot([0.0, 1.0], [None, Some(5.0)], Frame(0, 0, 10, 10), Range(5.0, 5.0, 0.0, 1.0));
    assert VertexList(p, 1) == VertexList(p, 0) == [];
  }
}
