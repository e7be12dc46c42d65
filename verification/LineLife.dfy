/**
 * Line charts from their values to the mouse (jquery.sparkline.js, `line`): the highlight reads its
 * vertex from the list that the render loop built.
 */
module LineLife {
  import opened Sequences
  import opened DisplayList
  import opened Interaction
  import opened LineLayout
  import H = LineHighlight

  /** What is on the canvas: parts of the chart, and the highlight's spot and vertical line. */
  datatype Ink = Part(n: int) | Spot(at: Point) | Stroke(at: Point)

  /** A rendered chart with the given list of vertices. */
  function LineSpec(vertices: seq<Option<Point>>, last: int, enabled: bool, spot: bool, line: bool): H.Spec<Point, Ink> {
    H.Spec(last, enabled, (i: int) => if i < 0 then None else Lookup(vertices, i), spot, line, (v: Point) => Spot(v), (v: Point) => Stroke(v))
  }

  /** The spot marks `v`, or there is none. */
  ghost predicate SpotMarks(d: H.Chart<Ink>, v: Option<Point>) {
    match v
    case None => d.spotId == None
    case Some(at) => d.spotId.Some? && d.spotId.value in d.pic.shapes && d.pic.shapes[d.spotId.value].art == Spot(at)
  }

  ghost predicate StrokeMarks(d: H.Chart<Ink>, v: Option<Point>) {
    match v
    case None => d.lineId == None
    case Some(at) => d.lineId.Some? && d.lineId.value in d.pic.shapes && d.pic.shapes[d.lineId.value].art == Stroke(at)
  }

  /** After any run the highlight marks the entry of `vertices` at the current region. */
  lemma MarksEntry(vertices: seq<Option<Point>>, last: int, spot: bool, line: bool, d: H.Chart<Ink>, g: H.Ground<Ink>, i: int)
    requires 0 <= i && d.current == Some(i) && H.Ready(LineSpec(vertices, last, true, spot, line), d, g)
    ensures SpotMarks(d, if spot then Lookup(vertices, i) else None)
    ensures StrokeMarks(d, if line then Lookup(vertices, i) else None)
  {
    var spec := LineSpec(vertices, last, true, spot, line);
    var extras := H.Extras(spec, Some(i), d.spotId, d.lineId);
    if Lookup(vertices, i).Some? {
      NoDupPairs(Ids(extras));
      StoreAllContents(g.base.shapes, extras);
      if line {
        assert extras[0] == Shape(d.lineId.value, Stroke(Lookup(vertices, i).value));
      }
      if spot {
        assert extras[|extras| - 1] == Shape(d.spotId.value, Spot(Lookup(vertices, i).value));
      }
    }
  }

  /**
   * The highlight goes behind the chart's own shapes: after a chart has appended its shapes to whatever the
   * canvas held, the last shape id is that of its last shape, at the end of the drawing order, which is
   * where the highlighting starts from.
   */
  lemma RenderedBase(vertices: seq<Option<Point>>, enabled: bool, spot: bool, line: bool, pic: Picture<Ink>, shapes: seq<Shape<Ink>>, next: nat)
    requires Consistent(pic) && DisplayList.Fresh(pic, shapes) && shapes != []
    requires Below(pic.order, next) && forall i :: 0 <= i < |shapes| ==> 0 <= shapes[i].id < next
    ensures var p := AppendAll(pic, shapes);
      && p.last == Some(shapes[|shapes| - 1].id)
      && H.Base(LineSpec(vertices, p.last.value, enabled, spot, line), p, p.order[..|p.order| - 1], [], next)
  {
    var p, n := AppendAll(pic, shapes), |shapes| - 1;
    LastAppended(pic, shapes);
    AppendAllConsistent(pic, shapes);
    assert p.order[|p.order| - 1] == Ids(shapes)[n];
    assert p.order == p.order[..|p.order| - 1] + [shapes[n].id] + [];
    forall id | id in p.order ensures 0 <= id < next {
      if id !in pic.order {
        var i :| 0 <= i < |shapes| && Ids(shapes)[i] == id;
      }
    }
  }

  /** The chart is as `render` left it. */
  ghost predicate Fresh(vertices: seq<Option<Point>>, last: int, c: H.Chart<Ink>, g: H.Ground<Ink>, line: bool) {
    && H.Base(LineSpec(vertices, last, true, true, line), c.pic, g.front, g.back, c.next) && g.base == c.pic
    && c.spotId == None && c.lineId == None && c.current == None
  }

  /**
   * Over every run on a rendered chart that ends over value `i`: unless a skipped null comes before a
   * number, the spot marks the plotted vertex of value `i`, and no spot is there if that value is null.
   */
  lemma RunMarksValue(p: Plot, last: int, line: bool, c: H.Chart<Ink>, g: H.Ground<Ink>, run: seq<H.Happening<Ink>>, i: int)
    requires p.Valid() && 0 <= i < |p.ys|
    requires Fresh(VertexList(p, |p.ys|), last, c, g, line)
    requires H.Ready(LineSpec(VertexList(p, |p.ys|), last, true, true, line), c, g)
    requires H.Possible(LineSpec(VertexList(p, |p.ys|), last, true, true, line), c, g, run)
    requires H.Run(LineSpec(VertexList(p, |p.ys|), last, true, true, line), c, g, run).current == Some(i)
    ensures var d := H.Run(LineSpec(VertexList(p, |p.ys|), last, true, true, line), c, g, run);
      && SpotMarks(d, Lookup(VertexList(p, |p.ys|), i))
      && (!SkipsBeforeNumber(p.ys) ==> SpotMarks(d, Wanted(p, i)))
      && (!SkipsBeforeNumber(p.ys) && line ==> StrokeMarks(d, Wanted(p, i)))
  {
    var vertices := VertexList(p, |p.ys|);
    var spec := LineSpec(vertices, last, true, true, line);
    H.RunReady(spec, c, g, run);
    MarksEntry(vertices, last, true, line, H.Run(spec, c, g, run), H.GroundOf(g, run), i);
    LookupRightIff(p);
  }

  /**
   * Hovering marks the value under the mouse, for every value, exactly when no skipped null comes before a
   * number.
   */
  lemma HoverMarksIff(p: Plot, last: int, line: bool, c: H.Chart<Ink>, g: H.Ground<Ink>)
    requires p.Valid() && Fresh(VertexList(p, |p.ys|), last, c, g, line)
    ensures (forall i :: 0 <= i < |p.ys| ==> SpotMarks(Hovered(VertexList(p, |p.ys|), last, line, c, i), Wanted(p, i)))
       <==> !SkipsBeforeNumber(p.ys)
  {
    var vertices := VertexList(p, |p.ys|);
    forall i | 0 <= i < |p.ys|
      ensures SpotMarks(Hovered(vertices, last, line, c, i), Wanted(p, i)) <==> Lookup(vertices, i) == Wanted(p, i)
    {
      HoverMarks(vertices, last, line, c, g, i);
    }
    LookupRightIff(p);
    if !SkipsBeforeNumber(p.ys) {
      forall i | 0 <= i < |p.ys| ensures SpotMarks(Hovered(vertices, last, line, c, i), Wanted(p, i)) {
        assert Lookup(vertices, i) == Wanted(p, i);
      }
    }
  }

  function Hovered(vertices: seq<Option<Point>>, last: int, line: bool, c: H.Chart<Ink>, i: int): H.Chart<Ink> {
    H.Handle(LineSpec(vertices, last, true, true, line), c, Move(Some(i)))
  }

  lemma HoverMarks(vertices: seq<Option<Point>>, last: int, line: bool, c: H.Chart<Ink>, g: H.Ground<Ink>, i: int)
    requires 0 <= i && Fresh(vertices, last, c, g, line)
    ensures SpotMarks(Hovered(vertices, last, line, c, i), Lookup(vertices, i))
  {
    var spec := LineSpec(vertices, last, true, true, line);
    H.RunRestores(spec, c, g, []);
    H.PlayKeeps(spec, c, g, H.Mouse(Move(Some(i))));
    MarksEntry(vertices, last, true, line, Hovered(vertices, last, line, c, i), g, i);
  }
}
