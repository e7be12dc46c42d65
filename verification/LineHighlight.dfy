/**
 * Highlighting of line charts (jquery.sparkline.js, `line`).
 *
 * Hovering over a region adds up to two shapes, a spot on the vertex and a vertical line through it,
 * directly after the last shape the chart itself drew; leaving the region takes them out again.
 */
module LineHighlight {
  import opened Sequences
  import opened DisplayList
  import opened Interaction

  /**
   * The fixed part of a rendered chart: the id of its last shape, the vertex of each region (if it
   * has one), whether the options ask for a spot and for a line, and how these are drawn.
   */
  datatype Spec<!V, !A> = Spec(
    last: int, enabled: bool, vertex: int -> Option<V>, spot: bool, line: bool, drawSpot: V -> A, drawLine: V -> A)

  datatype Chart<A> = Chart(pic: Picture<A>, next: nat, spotId: Option<int>, lineId: Option<int>, current: Option<int>)

  function AddSpot<V, A>(spec: Spec<V, A>, c: Chart<A>, v: V): Chart<A> {
    if !spec.spot then c
    else
      var s := Shape(c.next, spec.drawSpot(v));
      c.(pic := InsertAfter(c.pic, spec.last, s), next := c.next + 1, spotId := Some(s.id))
  }

  function AddLine<V, A>(spec: Spec<V, A>, c: Chart<A>, v: V): Chart<A> {
    if !spec.line then c
    else
      var s := Shape(c.next, spec.drawLine(v));
      c.(pic := InsertAfter(c.pic, spec.last, s), next := c.next + 1, lineId := Some(s.id))
  }

  function RenderHighlight<V, A>(spec: Spec<V, A>, c: Chart<A>, region: int): Chart<A> {
    match spec.vertex(region)
    case None => c
    case Some(v) => AddLine(spec, AddSpot(spec, c, v), v)
  }

  /** `if (this.highlightSpotId)`: an unset id is skipped, and so is the number 0. */
  predicate Truthy(id: Option<int>) {
    id.Some? && id.value != 0
  }

  function DropSpot<A>(c: Chart<A>): Chart<A> {
    if Truthy(c.spotId) then c.(pic := Remove(c.pic, c.spotId.value), spotId := None) else c
  }

  function DropLine<A>(c: Chart<A>): Chart<A> {
    if Truthy(c.lineId) then c.(pic := Remove(c.pic, c.lineId.value), lineId := None) else c
  }

  function RemoveHighlight<A>(c: Chart<A>): Chart<A> {
    DropLine(DropSpot(c))
  }

  function Apply<V, A>(spec: Spec<V, A>, c: Chart<A>, changes: seq<Change<int>>): Chart<A>
    decreases |changes|
  {
    if changes == [] then c
    else
      var d := if changes[0].highlight then RenderHighlight(spec, c, changes[0].region) else RemoveHighlight(c);
      Apply(spec, d, changes[1..])
  }

  function Handle<V, A>(spec: Spec<V, A>, c: Chart<A>, e: Event<int>): Chart<A> {
    Apply(spec, c, Plan(c.current, e, spec.enabled)).(current := NextRegion(c.current, e))
  }

  // ----- the picture is the rendered one plus the highlight --------------------------------

  /** The highlight shapes for the lit region: the line first, then the spot. */
  ghost function Extras<V, A>(spec: Spec<V, A>, lit: Option<int>, spotId: Option<int>, lineId: Option<int>): (r: seq<Shape<A>>)
    requires lit.Some? && spec.vertex(lit.value).Some? ==> (spec.spot ==> spotId.Some?) && (spec.line ==> lineId.Some?)
    ensures |r| <= 2
  {
    if lit == None || spec.vertex(lit.value) == None then []
    else
      var v := spec.vertex(lit.value).value;
      (if spec.line then [Shape(lineId.value, spec.drawLine(v))] else []) +
      (if spec.spot then [Shape(spotId.value, spec.drawSpot(v))] else [])
  }

  /** `base` with `extras` added directly after `last`. */
  ghost function Overlay<A>(base: Picture<A>, front: seq<int>, last: int, back: seq<int>, extras: seq<Shape<A>>): Picture<A> {
    base.(shapes := StoreAll(base.shapes, extras), order := front + [last] + Ids(extras) + back)
  }

  /** Which highlight ids are set: exactly those of the shapes that are on the canvas. */
  ghost predicate Holding<V, A>(spec: Spec<V, A>, c: Chart<A>, lit: Option<int>) {
    var shown := lit.Some? && spec.vertex(lit.value).Some?;
    && (c.spotId.Some? <==> shown && spec.spot)
    && (c.lineId.Some? <==> shown && spec.line)
    && (c.spotId.Some? ==> 0 < c.spotId.value < c.next)
    && (c.lineId.Some? ==> 0 < c.lineId.value < c.next)
    && (c.spotId.Some? && c.lineId.Some? ==> c.spotId != c.lineId)
  }

  /** What the canvas holds without this chart's highlight: everyone's shapes, with `last` among them. */
  ghost predicate Base<V, A>(spec: Spec<V, A>, base: Picture<A>, front: seq<int>, back: seq<int>, next: nat) {
    Consistent(base) && base.order == front + [spec.last] + back && Below(base.order, next) && 0 <= spec.last < next
  }

  ghost predicate Inv<V, A>(spec: Spec<V, A>, c: Chart<A>, lit: Option<int>, base: Picture<A>, front: seq<int>, back: seq<int>) {
    && Base(spec, base, front, back, c.next)
    && Holding(spec, c, lit)
    && (c.spotId.Some? ==> c.spotId.value !in base.order)
    && (c.lineId.Some? ==> c.lineId.value !in base.order)
    && c.pic == Overlay(base, front, spec.last, back, Extras(spec, lit, c.spotId, c.lineId))
  }

  lemma InsertDirectly<A>(p: Picture<A>, front: seq<int>, last: int, rest: seq<int>, s: Shape<A>)
    requires NoDup(p.order) && p.order == front + [last] + rest
    ensures InsertAfter(p, last, s) == p.(shapes := p.shapes[s.id := s], order := front + [last] + [s.id] + rest)
  {
    var k := LastIndex(p.order, last);
    NoDupPairs(p.order);
    assert p.order[|front|] == last;
    assert k == |front|;
    assert p.order[..k + 1] == front + [last] && p.order[k + 1..] == rest;
  }

  lemma RemoveDirectly<A>(p: Picture<A>, a: seq<int>, id: int, b: seq<int>)
    requires NoDup(p.order) && p.order == a + [id] + b
    ensures Remove(p, id) == p.(shapes := p.shapes - {id}, order := a + b)
  {
    var k := LastIndex(p.order, id);
    NoDupPairs(p.order);
    assert p.order[|a|] == id;
    assert k == |a|;
    assert p.order[..k] == a && p.order[k + 1..] == b;
  }

  lemma NoDupWith(front: seq<int>, last: int, extra: seq<int>, back: seq<int>)
    requires NoDup(front + [last] + back) && NoDup(extra) && forall x :: x in extra ==> x !in front + [last] + back
    ensures NoDup(front + [last] + extra + back)
  {
    NoDupConcat(front + [last], back);
    NoDupConcat(front + [last], extra);
    NoDupConcat(front + [last] + extra, back);
    assert forall x :: x in extra ==> x !in front + [last] && x !in back;
  }

  lemma StoreOne<A>(m: map<int, Shape<A>>, s: Shape<A>)
    ensures StoreAll(m, [s]) == m[s.id := s] && Ids([s]) == [s.id]
  {
    assert StoreAll(m, [s]) == StoreAll(m, [s][1..])[s.id := s];
  }

  lemma StoreTwo<A>(m: map<int, Shape<A>>, s: Shape<A>, t: Shape<A>)
    ensures StoreAll(m, [s, t]) == m[t.id := t][s.id := s] && Ids([s, t]) == [s.id, t.id]
  {
    assert [s, t][1..] == [t];
    StoreOne(m, t);
  }

  lemma OverlayNone<A>(base: Picture<A>, front: seq<int>, last: int, back: seq<int>)
    requires base.order == front + [last] + back
    ensures Overlay(base, front, last, back, []) == base
  {
    assert front + [last] + Ids<A>([]) + back == front + [last] + back;
  }

  lemma InsertSingle<A>(base: Picture<A>, front: seq<int>, last: int, back: seq<int>, s: Shape<A>)
    requires Consistent(base) && base.order == front + [last] + back
    ensures InsertAfter(base, last, s) == Overlay(base, front, last, back, [s])
  {
    InsertDirectly(base, front, last, back, s);
    StoreOne(base.shapes, s);
  }

  lemma InsertSecond<A>(base: Picture<A>, front: seq<int>, last: int, back: seq<int>, s: Shape<A>, t: Shape<A>)
    requires Consistent(base) && base.order == front + [last] + back && s.id !in base.order
    ensures InsertAfter(Overlay(base, front, last, back, [s]), last, t) == Overlay(base, front, last, back, [t, s])
  {
    var p := Overlay(base, front, last, back, [s]);
    StoreOne(base.shapes, s);
    StoreTwo(base.shapes, t, s);
    assert [s.id][1..] == [];
    NoDupWith(front, last, [s.id], back);
    assert p.order == front + [last] + ([s.id] + back);
    InsertDirectly(p, front, last, [s.id] + back, t);
    assert front + [last] + [t.id] + ([s.id] + back) == front + [last] + [t.id, s.id] + back;
  }

  lemma {:induction false} RenderKeeps<V, A>(spec: Spec<V, A>, c: Chart<A>, base: Picture<A>, front: seq<int>, back: seq<int>, r: int)
    requires Inv(spec, c, None, base, front, back)
    ensures Inv(spec, RenderHighlight(spec, c, r), Some(r), base, front, back)
  {
    OverlayNone(base, front, spec.last, back);
    var e := RenderHighlight(spec, c, r);
    if spec.vertex(r).Some? {
      var v := spec.vertex(r).value;
      var d := AddSpot(spec, c, v);
      var s, t := Shape(c.next, spec.drawSpot(v)), Shape(d.next, spec.drawLine(v));
      BelowMore(base.order, c.next, e.next);
      var extras := Extras(spec, Some(r), e.spotId, e.lineId);
      if spec.spot {
        InsertSingle(base, front, spec.last, back, s);
        if spec.line {
          InsertSecond(base, front, spec.last, back, s, t);
          assert extras == [t, s];
        } else {
          assert extras == [s];
        }
      } else if spec.line {
        InsertSingle(base, front, spec.last, back, t);
        assert extras == [t];
      }
      assert e.pic == Overlay(base, front, spec.last, back, extras);
    }
  }

  lemma BelowMore(order: seq<int>, n: int, m: int)
    requires Below(order, n) && n <= m
    ensures Below(order, m)
  {
  }

  /** Taking the highlight out gives back exactly the list and the map without it. */
  lemma {:induction false} RemoveRestores<V, A>(spec: Spec<V, A>, c: Chart<A>, lit: Option<int>, base: Picture<A>, front: seq<int>, back: seq<int>)
    requires Inv(spec, c, lit, base, front, back)
    ensures RemoveHighlight(c).pic == base
    ensures Inv(spec, RemoveHighlight(c), None, base, front, back)
  {
    OverlayNone(base, front, spec.last, back);
    var extras := Extras(spec, lit, c.spotId, c.lineId);
    if lit.Some? && spec.vertex(lit.value).Some? {
      var v := spec.vertex(lit.value).value;
      if spec.spot && spec.line {
        var s, t := Shape(c.spotId.value, spec.drawSpot(v)), Shape(c.lineId.value, spec.drawLine(v));
        assert extras == [t, s];
        RemoveBoth(base, front, spec.last, back, s, t);
      } else if spec.spot {
        var s := Shape(c.spotId.value, spec.drawSpot(v));
        assert extras == [s];
        RemoveSingle(base, front, spec.last, back, s);
      } else if spec.line {
        var t := Shape(c.lineId.value, spec.drawLine(v));
        assert extras == [t];
        RemoveSingle(base, front, spec.last, back, t);
      }
    }
    assert RemoveHighlight(c).pic == base;
  }

  lemma RemoveSingle<A>(base: Picture<A>, front: seq<int>, last: int, back: seq<int>, s: Shape<A>)
    requires Consistent(base) && base.order == front + [last] + back && s.id !in base.order
    ensures Remove(Overlay(base, front, last, back, [s]), s.id) == base
  {
    var p := Overlay(base, front, last, back, [s]);
    StoreOne(base.shapes, s);
    assert [s.id][1..] == [];
    NoDupWith(front, last, [s.id], back);
    RemoveDirectly(p, front + [last], s.id, back);
    assert p.shapes - {s.id} == base.shapes;
  }

  lemma RemoveBoth<A>(base: Picture<A>, front: seq<int>, last: int, back: seq<int>, s: Shape<A>, t: Shape<A>)
    requires Consistent(base) && base.order == front + [last] + back
    requires s.id !in base.order && t.id !in base.order && s.id != t.id
    ensures Remove(Remove(Overlay(base, front, last, back, [t, s]), s.id), t.id) == base
  {
    var p := Overlay(base, front, last, back, [t, s]);
    StoreTwo(base.shapes, t, s);
    StoreOne(base.shapes, t);
    NoDupPairs([t.id, s.id]);
    NoDupWith(front, last, [t.id, s.id], back);
    assert p.order == front + [last] + [t.id] + [s.id] + back;
    RemoveDirectly(p, front + [last] + [t.id], s.id, back);
    assert p.shapes - {s.id} == base.shapes[t.id := t];
    assert Remove(p, s.id) == Overlay(base, front, last, back, [t]);
    RemoveSingle(base, front, last, back, t);
  }

  lemma {:induction false} ApplyKeeps<V, A>(spec: Spec<V, A>, c: Chart<A>, lit: Option<int>, base: Picture<A>, front: seq<int>, back: seq<int>, changes: seq<Change<int>>)
    requires Inv(spec, c, lit, base, front, back) && Legal(lit, changes)
    ensures Inv(spec, Apply(spec, c, changes), LitAfter(lit, changes), base, front, back)
    ensures Apply(spec, c, changes).current == c.current
    decreases |changes|
  {
    if changes != [] {
      var h := changes[0];
      if h.highlight {
        RenderKeeps(spec, c, base, front, back, h.region);
        ApplyKeeps(spec, RenderHighlight(spec, c, h.region), Some(h.region), base, front, back, changes[1..]);
      } else {
        RemoveRestores(spec, c, lit, base, front, back);
        ApplyKeeps(spec, RemoveHighlight(c), None, base, front, back, changes[1..]);
      }
    }
  }

  // ----- runs ------------------------------------------------------------------------------

  /** A mouse event, or other charts of the same canvas editing what surrounds this chart's highlight. */
  datatype Happening<A> =
    | Mouse(event: Event<int>)
    | Others(base: Picture<A>, front: seq<int>, back: seq<int>, next: nat)

  /** The canvas without this chart's highlight, and where `last` stands in it. */
  datatype Ground<A> = Ground(base: Picture<A>, front: seq<int>, back: seq<int>)

  ghost predicate Ready<V, A>(spec: Spec<V, A>, c: Chart<A>, g: Ground<A>) {
    Inv(spec, c, Lit(c.current, spec.enabled), g.base, g.front, g.back)
  }

  /** Other charts add and remove only ids of their own, and leave `last` in place. */
  ghost predicate Enabled<V, A>(spec: Spec<V, A>, c: Chart<A>, h: Happening<A>) {
    h.Others? ==>
      && Base(spec, h.base, h.front, h.back, h.next) && c.next <= h.next
      && (c.spotId.Some? ==> c.spotId.value !in h.base.order)
      && (c.lineId.Some? ==> c.lineId.value !in h.base.order)
  }

  ghost function GroundAfter<A>(g: Ground<A>, h: Happening<A>): Ground<A> {
    if h.Others? then Ground(h.base, h.front, h.back) else g
  }

  ghost function Play<V, A>(spec: Spec<V, A>, c: Chart<A>, g: Ground<A>, h: Happening<A>): Chart<A>
    requires Ready(spec, c, g)
  {
    match h
    case Mouse(e) => Handle(spec, c, e)
    case Others(base, front, back, next) =>
      c.(next := next,
         pic := Overlay(base, front, spec.last, back, Extras(spec, Lit(c.current, spec.enabled), c.spotId, c.lineId)))
  }

  lemma {:induction false} PlayKeeps<V, A>(spec: Spec<V, A>, c: Chart<A>, g: Ground<A>, h: Happening<A>)
    requires Ready(spec, c, g) && Enabled(spec, c, h)
    ensures Ready(spec, Play(spec, c, g, h), GroundAfter(g, h))
  {
    if h.Mouse? {
      PlanLegal(c.current, h.event, spec.enabled);
      ApplyKeeps(spec, c, Lit(c.current, spec.enabled), g.base, g.front, g.back, Plan(c.current, h.event, spec.enabled));
    }
  }

  ghost predicate Possible<V, A>(spec: Spec<V, A>, c: Chart<A>, g: Ground<A>, run: seq<Happening<A>>)
    requires Ready(spec, c, g)
    decreases |run|
  {
    run == [] ||
    (Enabled(spec, c, run[0]) &&
     (PlayKeeps(spec, c, g, run[0]);
      Possible(spec, Play(spec, c, g, run[0]), GroundAfter(g, run[0]), run[1..])))
  }

  ghost function Run<V, A>(spec: Spec<V, A>, c: Chart<A>, g: Ground<A>, run: seq<Happening<A>>): Chart<A>
    requires Ready(spec, c, g) && Possible(spec, c, g, run)
    decreases |run|
  {
    if run == [] then c
    else
      PlayKeeps(spec, c, g, run[0]);
      Run(spec, Play(spec, c, g, run[0]), GroundAfter(g, run[0]), run[1..])
  }

  ghost function GroundOf<A>(g: Ground<A>, run: seq<Happening<A>>): Ground<A>
    decreases |run|
  {
    if run == [] then g else GroundOf(GroundAfter(g, run[0]), run[1..])
  }

  lemma {:induction false} RunReady<V, A>(spec: Spec<V, A>, c: Chart<A>, g: Ground<A>, run: seq<Happening<A>>)
    requires Ready(spec, c, g) && Possible(spec, c, g, run)
    ensures Ready(spec, Run(spec, c, g, run), GroundOf(g, run))
    decreases |run|
  {
    if run != [] {
      PlayKeeps(spec, c, g, run[0]);
      RunReady(spec, Play(spec, c, g, run[0]), GroundAfter(g, run[0]), run[1..]);
    }
  }

  /**
   * After any run on a freshly rendered chart: removing the current highlight gives back the list
   * and the map as the other charts left them, at most two extra shapes exist, they sit directly
   * after the chart's last shape, and they are there exactly when the lit region has a vertex.
   */
  lemma {:induction false} RunRestores<V, A>(spec: Spec<V, A>, c: Chart<A>, g: Ground<A>, run: seq<Happening<A>>)
    requires Base(spec, c.pic, g.front, g.back, c.next) && g.base == c.pic
    requires c.spotId == c.lineId == c.current == None
    ensures Ready(spec, c, g)
    ensures Possible(spec, c, g, run) ==>
      var d, ground := Run(spec, c, g, run), GroundOf(g, run);
      && Ready(spec, d, ground)
      && RemoveHighlight(d).pic == ground.base
      && (exists extra :: |extra| <= 2 && d.pic.order == ground.front + [spec.last] + extra + ground.back)
  {
    assert g.front + [spec.last] + Ids<A>([]) + g.back == g.front + [spec.last] + g.back;
    assert Ready(spec, c, g);
    if Possible(spec, c, g, run) {
      RunReady(spec, c, g, run);
      var d, ground := Run(spec, c, g, run), GroundOf(g, run);
      RemoveRestores(spec, d, Lit(d.current, spec.enabled), ground.base, ground.front, ground.back);
      var extra := Ids(Extras(spec, Lit(d.current, spec.enabled), d.spotId, d.lineId));
      assert d.pic.order == ground.front + [spec.last] + extra + ground.back;
    }
  }

  /** With no other chart on the canvas the ground is the rendered picture itself. */
  lemma {:induction false} AloneGround<A>(g: Ground<A>, run: seq<Happening<A>>)
    requires forall i :: 0 <= i < |run| ==> run[i].Mouse?
    ensures GroundOf(g, run) == g
    decreases |run|
  {
    if run != [] {
      AloneGround(GroundAfter(g, run[0]), run[1..]);
    }
  }

  // ----- the chart object ------------------------------------------------------------------

  class LineChart<V, A> {
    const spec: Spec<V, A>
    const target: Canvas<A>
    const counter: ShapeCounter
    var highlightSpotId: Option<int>
    var highlightLineId: Option<int>
    var currentRegion: Option<int>

    ghost function View(): Chart<A>
      reads this, target, counter
    {
      Chart(target.View(), counter.count, highlightSpotId, highlightLineId, currentRegion)
    }

    constructor (spec: Spec<V, A>, target: Canvas<A>, counter: ShapeCounter)
      ensures View() == Chart(target.View(), counter.count, None, None, None)
      ensures this.spec == spec && this.target == target && this.counter == counter
    {
      this.spec := spec;
      this.target := target;
      this.counter := counter;
      highlightSpotId, highlightLineId, currentRegion := None, None, None;
    }

    method RenderCurrent()
      requires currentRegion.Some?
      modifies this, target, counter
      ensures View() == RenderHighlight(spec, old(View()), old(currentRegion).value)
    {
      match spec.vertex(currentRegion.value)
      case None => return;
      case Some(v) =>
        if spec.spot {
          var s := counter.GenShape(spec.drawSpot(v));
          highlightSpotId := Some(s.id);
          target.InsertAfterShape(spec.last, s);
        }
        if spec.line {
          var s := counter.GenShape(spec.drawLine(v));
          highlightLineId := Some(s.id);
          target.InsertAfterShape(spec.last, s);
        }
    }

    method RemoveCurrent()
      modifies this, target
      ensures View() == RemoveHighlight(old(View()))
    {
      if highlightSpotId.Some? && highlightSpotId.value != 0 {
        target.RemoveShapeId(highlightSpotId.value);
        highlightSpotId := None;
      }
      if highlightLineId.Some? && highlightLineId.value != 0 {
        target.RemoveShapeId(highlightLineId.value);
        highlightLineId := None;
      }
    }

    /** `point` is what `getRegion` answers, or `None` for a point off the canvas. */
    method SetRegionHighlight(point: Option<Option<int>>) returns (changed: Option<bool>)
      modifies this, target, counter
      ensures var e := if point == None then Outside else Move(point.value);
        && View() == Handle(spec, old(View()), e)
        && changed == Answer(old(currentRegion), e)
      ensures point == None ==> changed == None && currentRegion == old(currentRegion)
      ensures point.Some? ==> changed == Some(currentRegion != old(currentRegion)) && currentRegion == point.value
    {
      if point == None {
        return None;
      }
      var region := point.value;
      ghost var start := View();
      if currentRegion != region {
        if currentRegion.Some? && spec.enabled {
          RemoveCurrent();
        }
        currentRegion := region;
        ghost var middle := View();
        if region.Some? && spec.enabled {
          RenderCurrent();
        }
        Unfolded(spec, start, middle, region);
        return Some(true);
      }
      return Some(false);
    }

    static lemma Unfolded(spec: Spec<V, A>, start: Chart<A>, middle: Chart<A>, region: Option<int>)
      requires start.current != region
      requires middle == (if start.current.Some? && spec.enabled then RemoveHighlight(start) else start).(current := region)
      ensures Handle(spec, start, Move(region)) ==
        if region.Some? && spec.enabled then RenderHighlight(spec, middle, region.value) else middle
    {
      if spec.enabled {
        var before := if start.current.Some? then [Change(start.current.value, false)] else [];
        var after := if region.Some? then [Change(region.value, true)] else [];
        var left := if start.current.Some? then RemoveHighlight(start) else start;
        assert Apply(spec, start, before + after) == Apply(spec, left, after) by {
          if start.current.Some? {
            assert (before + after)[1..] == after;
          } else {
            assert before + after == after;
          }
        }
        if region.Some? {
          ApplyOne(spec, left, after[0]);
          RenderIgnoresCurrent(spec, left, region, region.value);
        }
      }
    }

    static lemma RenderIgnoresCurrent(spec: Spec<V, A>, c: Chart<A>, current: Option<int>, r: int)
      ensures RenderHighlight(spec, c.(current := current), r) == RenderHighlight(spec, c, r).(current := current)
    {
    }

    static lemma ApplyOne(spec: Spec<V, A>, c: Chart<A>, change: Change<int>)
      ensures Apply(spec, c, [change]) ==
        if change.highlight then RenderHighlight(spec, c, change.region) else RemoveHighlight(c)
    {
      var d := if change.highlight then RenderHighlight(spec, c, change.region) else RemoveHighlight(c);
      assert Apply(spec, d, [change][1..]) == d;
    }

    method ClearRegionHighlight() returns (changed: bool)
      modifies this, target, counter
      ensures View() == Handle(spec, old(View()), Clear)
      ensures Some(changed) == Answer(old(currentRegion), Clear)
      ensures changed == (currentRegion != old(currentRegion)) && currentRegion == None
    {
      if currentRegion.Some? {
        ApplyOne(spec, View(), Change(currentRegion.value, false));
        RemoveCurrent();
        currentRegion := None;
        return true;
      }
      return false;
    }
  }
}
