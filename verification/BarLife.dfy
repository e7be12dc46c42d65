/**
 * Bar charts from their values to the mouse (jquery.sparkline.js, `bar` with barHighlightMixin): the
 * drawings that the layout determines are ones the run theorems speak of.
 */
module BarLife {
  import opened Sequences
  import opened DisplayList
  import C = BarChart
  import L = BarLayout

  /**
   * What `renderRegion` draws for the values of a region: one shape per drawn segment, an array unless
   * there is exactly one. A region without any value is drawn only if there is a colour for nulls.
   */
  function RegionDrawing<A>(vals: seq<Option<real>>, base: real, stacked: bool, nullColor: bool, art: (int, bool) -> A, h: bool): C.Drawing<A> {
    var drawn := L.Segments(vals, base, stacked);
    if vals == [] then (if nullColor then C.Single(art(0, h)) else C.Nothing)
    else if |drawn| == 1 then C.Single(art(drawn[0], h))
    else C.Stack(seq(|drawn|, i requires 0 <= i < |drawn| => art(drawn[i], h)))
  }

  /** A bar chart; `art` paints a segment of a region. */
  function ChartSpec<A>(values: seq<seq<Option<real>>>, base: real, stacked: bool, nullColor: bool, enabled: bool, art: (int, int, bool) -> A): C.Spec<A> {
    C.Spec(|values|, enabled, (r: int, h: bool) =>
      if 0 <= r < |values| then RegionDrawing(values[r], base, stacked, nullColor, (i: int, lit: bool) => art(r, i, lit), h)
      else C.Nothing)
  }

  /** Highlighting never changes how many shapes a region has, whatever the values. */
  lemma ChartUniform<A>(values: seq<seq<Option<real>>>, base: real, stacked: bool, nullColor: bool, enabled: bool, art: (int, int, bool) -> A)
    ensures C.Uniform(ChartSpec(values, base, stacked, nullColor, enabled, art))
  {
    var spec := ChartSpec(values, base, stacked, nullColor, enabled, art);
    forall r ensures C.SameForm(spec.draw(r, false), spec.draw(r, true)) {
    }
  }

  /** Every drawn segment is painted, in order and in the look asked for; only a region without values draws nothing. */
  lemma RegionPaints<A>(vals: seq<Option<real>>, base: real, stacked: bool, nullColor: bool, art: (int, bool) -> A, h: bool)
    requires vals != []
    ensures var arts := C.Arts(RegionDrawing(vals, base, stacked, nullColor, art, h));
      var drawn := L.Segments(vals, base, stacked);
      && |arts| == |drawn| && (forall i :: 0 <= i < |drawn| ==> arts[i] == art(drawn[i], h))
      && (RegionDrawing(vals, base, stacked, nullColor, art, h).Single? <==> |drawn| == 1)
      && !RegionDrawing(vals, base, stacked, nullColor, art, h).Nothing?
    ensures RegionDrawing([], base, stacked, nullColor, art, h) == if nullColor then C.Single(art(0, h)) else C.Nothing
  {
  }

  /** A rectangle on the canvas, plain or highlighted. */
  datatype Painted = Painted(bar: L.Bar, lit: bool)

  /** A plain chart whose bars are laid out as `bars`. */
  function PlainSpec(values: seq<Option<real>>, base: real, enabled: bool, bars: seq<L.Bar>): C.Spec<Painted>
    requires |bars| == |values|
  {
    ChartSpec(seq(|values|, i requires 0 <= i < |values| => [values[i]]), base, false, false, enabled,
              (r: int, i: int, h: bool) => Painted(if 0 <= r < |bars| then bars[r] else L.Bar(0, 0, false), h))
  }

  lemma PlainDraws(values: seq<Option<real>>, base: real, enabled: bool, bars: seq<L.Bar>, r: int, h: bool)
    requires |bars| == |values| && 0 <= r < |values|
    ensures PlainSpec(values, base, enabled, bars).draw(r, h) == C.Single(Painted(bars[r], h))
  {
    assert L.Apart([values[r]], base, false, 0) == [];
    assert L.Segments([values[r]], base, false) == [0];
  }

  /** Through any run of mouse events every bar of a plain chart is one shape that stays where the layout put it. */
  lemma BarsStayPut(values: seq<Option<real>>, base: real, enabled: bool, bars: seq<L.Bar>,
                    pic: Picture<Painted>, next: nat, run: seq<C.Happening<Painted>>, r: int)
    requires |bars| == |values| && 0 <= r < |values|
    requires C.Liveable(PlainSpec(values, base, enabled, bars), pic, next, run)
    ensures var d := C.Lived(PlainSpec(values, base, enabled, bars), pic, next, run);
      && r in d.regions && d.regions[r].One? && d.regions[r].id in d.pic.shapes && d.regions[r].id in d.pic.order
      && d.pic.shapes[d.regions[r].id].art.bar == bars[r]
  {
    var spec := PlainSpec(values, base, enabled, bars);
    var d := C.Lived(spec, pic, next, run);
    C.LifeKeeps(spec, pic, next, run);
    PlainDraws(values, base, enabled, bars, r, false);
    PlainDraws(values, base, enabled, bars, r, true);
    assert C.InRange(spec, r);
    assert C.Shown(spec, d, C.LookOf(spec, d, C.TouchedBy(None, spec.enabled, run)), r);
    assert C.Fits(d.regions[r], spec.draw(r, false));
    assert [d.regions[r].id][0] == d.regions[r].id;
  }

  /** The rectangle that region `r` has on the canvas. */
  ghost predicate Shows(d: C.Chart<Painted>, r: int, bar: L.Bar) {
    && r in d.regions && d.regions[r].One? && d.regions[r].id in d.pic.shapes && d.regions[r].id in d.pic.order
    && d.pic.shapes[d.regions[r].id].art.bar == bar
  }

  /**
   * The whole way: lay the chart out, render it over whatever the canvas holds, and let anything happen.
   * Every region still shows its laid-out bar, on the canvas exactly under the layout's condition.
   */
  method LayOutAndLive(o: L.Options, raw: seq<Option<real>>, height: int, base: real, enabled: bool,
                       ghost pic: Picture<Painted>, ghost next: nat, ghost run: seq<C.Happening<Painted>>)
      returns (bars: seq<L.Bar>, values: seq<Option<real>>, g: Option<L.Geometry>)
    requires 4 <= height
    ensures |bars| == |values| == |raw| && L.GeometryOf(o, values, height, g)
    ensures forall i :: 0 <= i < |raw| ==>
      && values[i] == L.Clip(o, raw[i])
      && bars[i] == (if g.Some? then L.BarFor(g.value, values[i]) else L.NumberlessBar(o, height))
      && (g.Some? ==> L.DrawnAs(g.value, values[i], bars[i]))
      && (L.Inside(bars[i], height) <==> L.OnCanvas(o, g, height, raw[i]))
    ensures C.Liveable(PlainSpec(values, base, enabled, bars), pic, next, run) ==>
      forall r :: 0 <= r < |raw| ==> Shows(C.Lived(PlainSpec(values, base, enabled, bars), pic, next, run), r, bars[r])
  {
    bars, values, g := L.Layout(o, raw, height);
    if C.Liveable(PlainSpec(values, base, enabled, bars), pic, next, run) {
      forall r | 0 <= r < |raw| ensures Shows(C.Lived(PlainSpec(values, base, enabled, bars), pic, next, run), r, bars[r]) {
        BarsStayPut(values, base, enabled, bars, pic, next, run, r);
      }
    }
  }
}
