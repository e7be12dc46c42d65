/**
 * Highlighting of pie and bullet charts (jquery.sparkline.js, `pie` and `bullet`).
 *
 * Both draw one shape per region and keep two maps, `shapes` from shape id to region and
 * `valueShapes` from region to shape id. A highlight change redraws the region under a fresh id and
 * updates both maps and the display list.
 */
module SliceChart {
  import opened Sequences
  import opened DisplayList
  import opened Interaction

  /** The fixed part of a chart: its regions in drawing order, its option, and how a region is drawn. */
  datatype Spec<!R, !A> = Spec(regions: seq<R>, enabled: bool, draw: (R, bool) -> A)

  datatype Chart<R, A> = Chart(pic: Picture<A>, next: nat, shapes: map<int, R>, valueShapes: map<R, int>, current: Option<R>)

  /** `pie`: the last slice is drawn first. */
  function PieRegions(count: nat): (r: seq<int>) {
    seq(count, i => count - 1 - i)
  }

  datatype BulletRegion = Range(index: int) | Performance | Target

  /** `bullet`: ranges 2, 3, ..., then the performance bar, then the target marker. */
  function BulletRegions(values: nat): (r: seq<BulletRegion>) {
    seq(if values > 2 then values - 2 else 0, i => Range(i + 2)) + [Performance, Target]
  }

  /**
   * A pie draws every slice once, the last one first; a bullet chart draws its ranges in order, then the
   * performance bar and last of all the target. No region is drawn twice.
   */
  lemma RegionsDistinct(count: nat)
    ensures NoDup(PieRegions(count)) && NoDup(BulletRegions(count))
    ensures forall r :: r in PieRegions(count) <==> 0 <= r < count
    ensures forall i, j :: 0 <= i < j < |PieRegions(count)| ==> PieRegions(count)[j] < PieRegions(count)[i]
    ensures var b := BulletRegions(count);
      && |b| == (if count > 2 then count else 2) && b[|b| - 2] == Performance && b[|b| - 1] == Target
      && forall i :: 0 <= i < |b| - 2 ==> b[i] == Range(i + 2)
  {
    NoDupPairs(PieRegions(count));
    NoDupPairs(BulletRegions(count));
    forall r | 0 <= r < count ensures r in PieRegions(count) {
      assert PieRegions(count)[count - 1 - r] == r;
    }
  }

  // ----- what a highlight change does ------------------------------------------------------

  function GetRegion<R, A>(c: Chart<R, A>, hit: Option<int>): Option<R> {
    if hit.Some? && hit.value in c.shapes then Some(c.shapes[hit.value]) else None
  }

  function ChangeHighlight<R, A>(spec: Spec<R, A>, c: Chart<R, A>, r: R, h: bool): Chart<R, A>
    requires r in c.valueShapes
  {
    var s, was := Shape(c.next, spec.draw(r, h)), c.valueShapes[r];
    Chart(ReplaceOne(c.pic, was, s), c.next + 1, (c.shapes - {was})[s.id := r], c.valueShapes[r := s.id], c.current)
  }

  ghost predicate Known<R, A>(c: Chart<R, A>, changes: seq<Change<R>>) {
    forall i :: 0 <= i < |changes| ==> changes[i].region in c.valueShapes
  }

  ghost function Apply<R, A>(spec: Spec<R, A>, c: Chart<R, A>, changes: seq<Change<R>>): Chart<R, A>
    requires Known(c, changes)
    decreases |changes|
  {
    if changes == [] then c
    else Apply(spec, ChangeHighlight(spec, c, changes[0].region, changes[0].highlight), changes[1..])
  }

  // ----- the bookkeeping invariant ---------------------------------------------------------

  /** The two maps are inverse to each other, over exactly the chart's regions. */
  ghost predicate Inverse<R, A>(spec: Spec<R, A>, c: Chart<R, A>) {
    && c.valueShapes.Keys == Elements(spec.regions)
    && (forall r :: r in c.valueShapes ==> c.valueShapes[r] in c.shapes && c.shapes[c.valueShapes[r]] == r)
    && (forall id :: id in c.shapes ==> c.shapes[id] in c.valueShapes && c.valueShapes[c.shapes[id]] == id)
  }

  /** The shape ids of the regions, in drawing order. */
  ghost function Own<R>(regions: seq<R>, valueShapes: map<R, int>): (ids: seq<int>)
    requires forall i :: 0 <= i < |regions| ==> regions[i] in valueShapes
    ensures |ids| == |regions|
    ensures forall i :: 0 <= i < |regions| ==> ids[i] == valueShapes[regions[i]]
  {
    seq(|regions|, i requires 0 <= i < |regions| => valueShapes[regions[i]])
  }

  ghost predicate Covered<R, A>(spec: Spec<R, A>, c: Chart<R, A>) {
    forall i :: 0 <= i < |spec.regions| ==> spec.regions[i] in c.valueShapes
  }

  ghost predicate Shown<R, A>(spec: Spec<R, A>, c: Chart<R, A>, lit: Option<R>, k: int)
    requires 0 <= k < |spec.regions|
  {
    var r := spec.regions[k];
    && r in c.valueShapes && c.valueShapes[r] in c.pic.shapes
    && c.pic.shapes[c.valueShapes[r]].art == spec.draw(r, lit == Some(r))
  }

  ghost predicate Inv<R, A>(spec: Spec<R, A>, c: Chart<R, A>, lit: Option<R>, front: seq<int>, back: seq<int>) {
    && NoDup(spec.regions)
    && Consistent(c.pic) && Below(c.pic.order, c.next)
    && Inverse(spec, c) && Covered(spec, c)
    && c.pic.order == front + Own(spec.regions, c.valueShapes) + back
    && (forall k :: 0 <= k < |spec.regions| ==> Shown(spec, c, lit, k))
  }

  lemma ChangeInverse<R, A>(spec: Spec<R, A>, c: Chart<R, A>, r: R, h: bool)
    requires Inverse(spec, c) && r in c.valueShapes && c.next !in c.shapes
    ensures Inverse(spec, ChangeHighlight(spec, c, r, h))
  {
  }

  lemma OwnSplit<R>(regions: seq<R>, v: map<R, int>, k: int)
    requires forall i :: 0 <= i < |regions| ==> regions[i] in v
    requires 0 <= k < |regions|
    ensures Own(regions, v) == Own(regions, v)[..k] + [v[regions[k]]] + Own(regions, v)[k + 1..]
  {
  }

  lemma {:induction false} OwnUpdate<R>(regions: seq<R>, v: map<R, int>, k: int, id: int)
    requires NoDup(regions) && forall i :: 0 <= i < |regions| ==> regions[i] in v
    requires 0 <= k < |regions|
    ensures Own(regions, v[regions[k] := id]) == Own(regions, v)[..k] + [id] + Own(regions, v)[k + 1..]
  {
    NoDupPairs(regions);
    var a, b := Own(regions, v[regions[k] := id]), Own(regions, v)[..k] + [id] + Own(regions, v)[k + 1..];
    forall i | 0 <= i < |a| ensures a[i] == b[i] {
      assert i != k ==> regions[i] != regions[k];
    }
  }

  lemma {:induction false} SwapOrder<R>(regions: seq<R>, v: map<R, int>, k: int, id: int, front: seq<int>, back: seq<int>)
    requires NoDup(regions) && forall i :: 0 <= i < |regions| ==> regions[i] in v
    requires 0 <= k < |regions|
    ensures var own := Own(regions, v);
      && front + own + back == (front + own[..k]) + [v[regions[k]]] + (own[k + 1..] + back)
      && front + Own(regions, v[regions[k] := id]) + back == (front + own[..k]) + [id] + (own[k + 1..] + back)
  {
    var own := Own(regions, v);
    OwnSplit(regions, v, k);
    Regroup(front, own[..k], [v[regions[k]]], own[k + 1..], back);
    OwnUpdate(regions, v, k, id);
    Regroup(front, own[..k], [id], own[k + 1..], back);
  }

  /** Every id the chart owns is on the canvas, below the counter. */
  lemma OwnOnCanvas<R, A>(spec: Spec<R, A>, c: Chart<R, A>, lit: Option<R>, front: seq<int>, back: seq<int>, id: int)
    requires Inv(spec, c, lit, front, back) && id in c.shapes
    ensures id in c.pic.order && 0 <= id < c.next
  {
    var r := c.shapes[id];
    assert r in Elements(spec.regions);
    var k :| 0 <= k < |spec.regions| && spec.regions[k] == r;
    assert c.pic.order[|front| + k] == Own(spec.regions, c.valueShapes)[k] == id;
  }

  lemma ChangeKeeps<R, A>(spec: Spec<R, A>, c: Chart<R, A>, lit: Option<R>, front: seq<int>, back: seq<int>, r: R, h: bool)
    requires Inv(spec, c, lit, front, back) && r in c.valueShapes
    requires lit == None || (!h && lit == Some(r))
    ensures Inv(spec, ChangeHighlight(spec, c, r, h), if h then Some(r) else None, front, back)
  {
    assert r in Elements(spec.regions);
    var k :| 0 <= k < |spec.regions| && spec.regions[k] == r;
    var d, lit' := ChangeHighlight(spec, c, r, h), if h then Some(r) else None;
    var s, was := Shape(c.next, spec.draw(r, h)), c.valueShapes[r];
    var own := Own(spec.regions, c.valueShapes);
    var before, after := front + own[..k], own[k + 1..] + back;
    SwapOrder(spec.regions, c.valueShapes, k, s.id, front, back);
    assert c.pic.order == before + [was] + after;
    assert Rewritten(c.pic, d.pic, before, after, [s]) by {
      RewriteOne(c.pic, before, was, after, s);
    }
    assert Ids([s]) == [s.id];
    assert d.pic.order == front + Own(spec.regions, d.valueShapes) + back;
    assert Below(d.pic.order, d.next) by {
      SwappedBelow(c.pic.order, before, was, after, c.next);
    }
    assert Inverse(spec, d) by {
      if c.next in c.shapes {
        OwnOnCanvas(spec, c, lit, front, back, c.next);
      }
      ChangeInverse(spec, c, r, h);
    }
    forall j | 0 <= j < |spec.regions| ensures Shown(spec, d, lit', j) {
      if j == k {
        assert [s][0] == s;
      } else {
        OtherShown(spec, c, lit, front, back, k, j, s, d);
      }
    }
  }

  lemma SwappedBelow(order: seq<int>, before: seq<int>, was: int, after: seq<int>, next: nat)
    requires order == before + [was] + after && Below(order, next)
    ensures Below(before + [next] + after, next + 1)
  {
    forall id | id in before + [next] + after ensures 0 <= id < next + 1 {
      assert id in before || id == next || id in after;
      assert id != next ==> id in order;
    }
  }

  lemma OtherShown<R, A>(spec: Spec<R, A>, c: Chart<R, A>, lit: Option<R>, front: seq<int>, back: seq<int>,
                         k: int, j: int, s: Shape<A>, d: Chart<R, A>)
    requires Inv(spec, c, lit, front, back)
    requires 0 <= k < |spec.regions| && 0 <= j < |spec.regions| && j != k
    requires lit == None || lit == Some(spec.regions[k])
    requires d.valueShapes == c.valueShapes[spec.regions[k] := s.id]
    requires var own := Own(spec.regions, c.valueShapes);
      Rewritten(c.pic, d.pic, front + own[..k], own[k + 1..] + back, [s])
    ensures Shown(spec, d, None, j) && Shown(spec, d, Some(spec.regions[k]), j)
  {
    NoDupPairs(spec.regions);
    assert Shown(spec, c, lit, j);
    var own := Own(spec.regions, c.valueShapes);
    var id := own[j];
    if j < k {
      assert own[..k][j] == id;
    } else {
      assert own[k + 1..][j - k - 1] == id;
    }
    assert id in front + own[..k] + (own[k + 1..] + back);
    assert spec.regions[j] != spec.regions[k];
  }

  lemma {:induction false} ApplyKeeps<R, A>(spec: Spec<R, A>, c: Chart<R, A>, lit: Option<R>, front: seq<int>, back: seq<int>, changes: seq<Change<R>>)
    requires Inv(spec, c, lit, front, back) && Legal(lit, changes) && Known(c, changes)
    ensures Inv(spec, Apply(spec, c, changes), LitAfter(lit, changes), front, back)
    ensures Apply(spec, c, changes).current == c.current
    ensures Apply(spec, c, changes).valueShapes.Keys == c.valueShapes.Keys
    decreases |changes|
  {
    if changes != [] {
      ChangeKeeps(spec, c, lit, front, back, changes[0].region, changes[0].highlight);
      var d := ChangeHighlight(spec, c, changes[0].region, changes[0].highlight);
      ApplyKeeps(spec, d, if changes[0].highlight then Some(changes[0].region) else None, front, back, changes[1..]);
    }
  }

  // ----- runs ------------------------------------------------------------------------------

  /**
   * The mouse over some shape or none, off the canvas, or gone; or other charts on the same canvas
   * editing their own shapes. `hit` is whatever `getShapeAt` returns, stale ids included.
   */
  datatype Happening<A> =
    | Over(hit: Option<int>)
    | Off
    | Leave
    | Others(front: seq<int>, back: seq<int>, pic: Picture<A>, next: nat)

  function ToEvent<R, A>(c: Chart<R, A>, h: Happening<A>): Event<R>
    requires !h.Others?
  {
    match h
    case Over(hit) => Move(GetRegion(c, hit))
    case Off => Outside
    case Leave => Clear
  }

  ghost predicate Enabled<R, A>(spec: Spec<R, A>, c: Chart<R, A>, h: Happening<A>)
    requires Covered(spec, c)
  {
    h.Others? ==>
      var own := Own(spec.regions, c.valueShapes);
      && Consistent(h.pic) && h.pic.order == h.front + own + h.back
      && (forall id :: id in own && id in c.pic.shapes ==> id in h.pic.shapes && h.pic.shapes[id] == c.pic.shapes[id])
      && Below(h.pic.order, h.next) && c.next <= h.next
  }

  /** The current region, if any, is one of the chart's regions. */
  ghost predicate Ready<R, A>(spec: Spec<R, A>, c: Chart<R, A>, front: seq<int>, back: seq<int>) {
    Inv(spec, c, Lit(c.current, spec.enabled), front, back) && (c.current.Some? ==> c.current.value in c.valueShapes)
  }

  lemma PlanKnown<R, A>(spec: Spec<R, A>, c: Chart<R, A>, front: seq<int>, back: seq<int>, h: Happening<A>)
    requires Ready(spec, c, front, back) && !h.Others?
    ensures Known(c, Plan(c.current, ToEvent(c, h), spec.enabled))
    ensures var next := NextRegion(c.current, ToEvent(c, h)); next.Some? ==> next.value in c.valueShapes
  {
    if h.Over? && h.hit.Some? && h.hit.value in c.shapes {
      var id := h.hit.value;
      assert c.shapes[id] in c.valueShapes && c.valueShapes[c.shapes[id]] == id;
    }
  }

  ghost function Handle<R, A>(spec: Spec<R, A>, c: Chart<R, A>, h: Happening<A>): Chart<R, A>
    requires !h.Others? && Known(c, Plan(c.current, ToEvent(c, h), spec.enabled))
  {
    var e := ToEvent(c, h);
    Apply(spec, c, Plan(c.current, e, spec.enabled)).(current := NextRegion(c.current, e))
  }

  ghost function Play<R, A>(spec: Spec<R, A>, c: Chart<R, A>, front: seq<int>, back: seq<int>, h: Happening<A>): Chart<R, A>
    requires Ready(spec, c, front, back) && Enabled(spec, c, h)
  {
    if h.Others? then c.(pic := h.pic, next := h.next)
    else
      PlanKnown(spec, c, front, back, h);
      Handle(spec, c, h)
  }

  ghost function Front<A>(front: seq<int>, h: Happening<A>): seq<int> {
    if h.Others? then h.front else front
  }

  ghost function Back<A>(back: seq<int>, h: Happening<A>): seq<int> {
    if h.Others? then h.back else back
  }

  lemma {:induction false} PlayKeeps<R, A>(spec: Spec<R, A>, c: Chart<R, A>, front: seq<int>, back: seq<int>, h: Happening<A>)
    requires Ready(spec, c, front, back) && Enabled(spec, c, h)
    ensures Ready(spec, Play(spec, c, front, back, h), Front(front, h), Back(back, h))
  {
    var d := Play(spec, c, front, back, h);
    if h.Others? {
      OthersKeep(spec, c, Lit(c.current, spec.enabled), front, back, h, d);
    } else {
      var e := ToEvent(c, h);
      var lit, changes := Lit(c.current, spec.enabled), Plan(c.current, e, spec.enabled);
      PlanKnown(spec, c, front, back, h);
      PlanLegal(c.current, e, spec.enabled);
      ApplyKeeps(spec, c, lit, front, back, changes);
      Recentred(spec, Apply(spec, c, changes), LitAfter(lit, changes), front, back, d);
    }
  }

  lemma Recentred<R, A>(spec: Spec<R, A>, c: Chart<R, A>, lit: Option<R>, front: seq<int>, back: seq<int>, d: Chart<R, A>)
    requires Inv(spec, c, lit, front, back) && d == c.(current := d.current)
    ensures Inv(spec, d, lit, front, back)
  {
    forall k | 0 <= k < |spec.regions| ensures Shown(spec, d, lit, k) {
      assert Shown(spec, c, lit, k);
    }
  }

  lemma OthersKeep<R, A>(spec: Spec<R, A>, c: Chart<R, A>, lit: Option<R>, front: seq<int>, back: seq<int>, h: Happening<A>, d: Chart<R, A>)
    requires Inv(spec, c, lit, front, back) && h.Others? && Enabled(spec, c, h)
    requires d == c.(pic := h.pic, next := h.next)
    ensures Inv(spec, d, lit, h.front, h.back)
  {
    forall k | 0 <= k < |spec.regions| ensures Shown(spec, d, lit, k) {
      assert Shown(spec, c, lit, k);
      var id := Own(spec.regions, c.valueShapes)[k];
      assert id in Own(spec.regions, c.valueShapes);
    }
  }

  ghost predicate Possible<R, A>(spec: Spec<R, A>, c: Chart<R, A>, front: seq<int>, back: seq<int>, run: seq<Happening<A>>)
    requires Ready(spec, c, front, back)
    decreases |run|
  {
    run == [] ||
    (Enabled(spec, c, run[0]) &&
     (PlayKeeps(spec, c, front, back, run[0]);
      Possible(spec, Play(spec, c, front, back, run[0]), Front(front, run[0]), Back(back, run[0]), run[1..])))
  }

  ghost function Run<R, A>(spec: Spec<R, A>, c: Chart<R, A>, front: seq<int>, back: seq<int>, run: seq<Happening<A>>): Chart<R, A>
    requires Ready(spec, c, front, back) && Possible(spec, c, front, back, run)
    decreases |run|
  {
    if run == [] then c
    else
      PlayKeeps(spec, c, front, back, run[0]);
      Run(spec, Play(spec, c, front, back, run[0]), Front(front, run[0]), Back(back, run[0]), run[1..])
  }

  /**
   * Over every run, `shapes` and `valueShapes` are inverse over exactly the chart's regions, the
   * display list holds the regions' shapes in the original drawing order, and exactly the current
   * region is drawn highlighted.
   */
  lemma {:induction false} RunKeeps<R, A>(spec: Spec<R, A>, c: Chart<R, A>, front: seq<int>, back: seq<int>, run: seq<Happening<A>>)
    requires Ready(spec, c, front, back) && Possible(spec, c, front, back, run)
    requires forall i :: 0 <= i < |run| ==> !run[i].Others?
    ensures var d := Run(spec, c, front, back, run);
      && Inverse(spec, d) && Covered(spec, d)
      && d.pic.order == front + Own(spec.regions, d.valueShapes) + back
      && (forall k :: 0 <= k < |spec.regions| ==> Shown(spec, d, Lit(d.current, spec.enabled), k))
    decreases |run|
  {
    if run != [] {
      PlayKeeps(spec, c, front, back, run[0]);
      RunKeeps(spec, Play(spec, c, front, back, run[0]), front, back, run[1..]);
    }
  }

  /** The same with other charts at work: the surroundings are theirs, the chart's own stretch is exact. */
  lemma {:induction false} SharedRunKeeps<R, A>(spec: Spec<R, A>, c: Chart<R, A>, front: seq<int>, back: seq<int>, run: seq<Happening<A>>)
      returns (front': seq<int>, back': seq<int>)
    requires Ready(spec, c, front, back) && Possible(spec, c, front, back, run)
    ensures Ready(spec, Run(spec, c, front, back, run), front', back')
    decreases |run|
  {
    front', back' := front, back;
    if run != [] {
      PlayKeeps(spec, c, front, back, run[0]);
      front', back' := SharedRunKeeps(spec, Play(spec, c, front, back, run[0]), Front(front, run[0]), Back(back, run[0]), run[1..]);
    }
  }

  /** A hit answers a region exactly if it is that region's present shape; other and former shapes answer none. */
  lemma HitIff<R, A>(spec: Spec<R, A>, c: Chart<R, A>, hit: Option<int>, r: R)
    requires Inverse(spec, c)
    ensures GetRegion(c, hit) == Some(r) <==> r in c.valueShapes && hit == Some(c.valueShapes[r])
  {
    if hit.Some? && hit.value in c.shapes {
      var id := hit.value;
      assert c.shapes[id] in c.valueShapes && c.valueShapes[c.shapes[id]] == id;
    }
  }

  /**
   * The mouse over a region's own shape makes that region current and, if highlighting is enabled, lights
   * it and only it.
   */
  lemma HoverLights<R, A>(spec: Spec<R, A>, c: Chart<R, A>, front: seq<int>, back: seq<int>, k: int)
    requires Ready(spec, c, front, back) && 0 <= k < |spec.regions|
    ensures spec.regions[k] in c.valueShapes
    ensures var h: Happening<A> := Over(Some(c.valueShapes[spec.regions[k]]));
      && Known(c, Plan(c.current, ToEvent(c, h), spec.enabled))
      && var d := Handle(spec, c, h);
         && d.current == Some(spec.regions[k])
         && (spec.enabled ==> forall j :: 0 <= j < |spec.regions| ==> Shown(spec, d, Some(spec.regions[k]), j))
         && (!spec.enabled ==> forall j :: 0 <= j < |spec.regions| ==> Shown(spec, d, None, j))
  {
    var r := spec.regions[k];
    assert Shown(spec, c, Lit(c.current, spec.enabled), k);
    assert c.shapes[c.valueShapes[r]] == r;
    var h: Happening<A> := Over(Some(c.valueShapes[r]));
    PlanKnown(spec, c, front, back, h);
    PlayKeeps(spec, c, front, back, h);
  }

  // ----- the first rendering establishes the invariant -------------------------------------

  function RenderOne<R, A>(spec: Spec<R, A>, c: Chart<R, A>, r: R): Chart<R, A> {
    var s := Shape(c.next, spec.draw(r, false));
    Chart(Append(c.pic, s), c.next + 1, c.shapes[s.id := r], c.valueShapes[r := s.id], c.current)
  }

  function Rendered<R, A>(spec: Spec<R, A>, c: Chart<R, A>, k: nat): Chart<R, A>
    requires k <= |spec.regions|
  {
    if k == 0 then c else RenderOne(spec, Rendered(spec, c, k - 1), spec.regions[k - 1])
  }

  ghost function Upto<R, A>(spec: Spec<R, A>, k: nat): Spec<R, A>
    requires k <= |spec.regions|
  {
    spec.(regions := spec.regions[..k])
  }

  lemma OwnAppend<R>(regions: seq<R>, v: map<R, int>, r: R, id: int)
    requires r !in regions && forall i :: 0 <= i < |regions| ==> regions[i] in v
    ensures forall i :: 0 <= i < |regions + [r]| ==> (regions + [r])[i] in v[r := id]
    ensures Own(regions + [r], v[r := id]) == Own(regions, v) + [id]
  {
  }

  /** One more region is drawn: `after` is `before` with `r` added at the end. */
  lemma {:induction false} RenderOneKeeps<R, A>(before: Spec<R, A>, after: Spec<R, A>, c: Chart<R, A>, front: seq<int>, r: R, d: Chart<R, A>)
    requires after.regions == before.regions + [r] && NoDup(after.regions)
    requires after.draw == before.draw
    requires Inv(before, c, None, front, []) && d == RenderOne(after, c, r)
    ensures Inv(after, d, None, front, [])
  {
    var id := c.next;
    var own := Own(before.regions, c.valueShapes);
    NoDupConcat(before.regions, [r]);
    assert [r][0] == r;
    assert r !in before.regions;
    assert r !in Elements(before.regions);
    assert c.next !in c.shapes by {
      if id in c.shapes {
        OwnOnCanvas(before, c, None, front, [], id);
      }
    }
    AppendConsistent(c.pic, Shape(id, after.draw(r, false)));
    assert Inverse(after, d) by {
      assert Elements(after.regions) == Elements(before.regions) + {r};
      RenderInverse(before, c, after, d, r);
    }
    OwnAppend(before.regions, c.valueShapes, r, id);
    assert d.pic.order == front + (own + [id]) + [];
    forall j | 0 <= j < |after.regions| ensures Shown(after, d, None, j) {
      if j < |before.regions| {
        EarlierShown(before, after, c, front, r, d, j);
      }
    }
  }

  lemma EarlierShown<R, A>(before: Spec<R, A>, after: Spec<R, A>, c: Chart<R, A>, front: seq<int>, r: R, d: Chart<R, A>, j: int)
    requires after.regions == before.regions + [r] && r !in before.regions && after.draw == before.draw
    requires Inv(before, c, None, front, []) && d == RenderOne(after, c, r) && c.next !in c.shapes
    requires 0 <= j < |before.regions|
    ensures Shown(after, d, None, j)
  {
    assert Shown(before, c, None, j);
    var q := before.regions[j];
    assert after.regions[j] == q && q != r;
    var id := c.valueShapes[q];
    assert id in c.shapes;
  }

  lemma RenderInverse<R, A>(before: Spec<R, A>, c: Chart<R, A>, after: Spec<R, A>, d: Chart<R, A>, r: R)
    requires Inverse(before, c) && c.next !in c.shapes && r !in c.valueShapes
    requires Elements(after.regions) == Elements(before.regions) + {r}
    requires d.shapes == c.shapes[c.next := r] && d.valueShapes == c.valueShapes[r := c.next]
    ensures Inverse(after, d)
  {
  }

  lemma {:induction false} RenderedKeeps<R, A>(spec: Spec<R, A>, c: Chart<R, A>, k: nat)
    requires k <= |spec.regions| && NoDup(spec.regions)
    requires Consistent(c.pic) && Below(c.pic.order, c.next)
    requires c.shapes == map[] && c.valueShapes == map[] && c.current == None
    ensures Inv(Upto(spec, k), Rendered(spec, c, k), None, c.pic.order, [])
    ensures Rendered(spec, c, k).current == None
  {
    if k == 0 {
      assert spec.regions[..0] == [];
      assert c.pic.order == c.pic.order + Own(spec.regions[..0], c.valueShapes) + [];
    } else {
      RenderedKeeps(spec, c, k - 1);
      var r := spec.regions[k - 1];
      NextIsNew(spec.regions, k);
      RenderOneKeeps(Upto(spec, k - 1), Upto(spec, k), Rendered(spec, c, k - 1), c.pic.order, r, Rendered(spec, c, k));
    }
  }

  lemma NextIsNew<R>(regions: seq<R>, k: int)
    requires NoDup(regions) && 0 < k <= |regions|
    ensures regions[..k] == regions[..k - 1] + [regions[k - 1]] && regions[k - 1] !in regions[..k - 1]
    ensures NoDup(regions[..k])
  {
    assert regions == regions[..k] + regions[k..];
    NoDupConcat(regions[..k], regions[k..]);
    NoDupConcat(regions[..k - 1], [regions[k - 1]]);
  }

  /** A freshly rendered pie or bullet chart is ready for mouse events. */
  lemma {:induction false} RenderEstablishes<R, A>(spec: Spec<R, A>, c: Chart<R, A>)
    requires NoDup(spec.regions) && Consistent(c.pic) && Below(c.pic.order, c.next)
    requires c.shapes == map[] && c.valueShapes == map[] && c.current == None
    ensures Ready(spec, Rendered(spec, c, |spec.regions|), c.pic.order, [])
  {
    RenderedKeeps(spec, c, |spec.regions|);
    assert spec.regions[..|spec.regions|] == spec.regions;
    assert Upto(spec, |spec.regions|) == spec;
  }

  // ----- the chart object ------------------------------------------------------------------

  class Slices<R(==), A> {
    const spec: Spec<R, A>
    const bullet: bool
    const target: Canvas<A>
    const counter: ShapeCounter
    var shapes: map<int, R>
    var valueShapes: map<R, int>
    var currentRegion: Option<R>

    ghost function View(): Chart<R, A>
      reads this, target, counter
    {
      Chart(target.View(), counter.count, shapes, valueShapes, currentRegion)
    }

    /** Every region a map mentions can be redrawn. */
    ghost predicate Closed()
      reads this
    {
      && (forall id :: id in shapes ==> shapes[id] in valueShapes)
      && (currentRegion.Some? ==> currentRegion.value in valueShapes)
    }

    constructor (spec: Spec<R, A>, bullet: bool, target: Canvas<A>, counter: ShapeCounter)
      ensures View() == Chart(target.View(), counter.count, map[], map[], None)
      ensures this.spec == spec && this.target == target && this.counter == counter
    {
      this.spec := spec;
      this.bullet := bullet;
      this.target := target;
      this.counter := counter;
      shapes, valueShapes, currentRegion := map[], map[], None;
    }

    method RenderChart()
      modifies this, target, counter
      ensures View() == Rendered(spec, old(View()), |spec.regions|)
    {
      for k := 0 to |spec.regions|
        invariant View() == Rendered(spec, old(View()), k)
      {
        var r := spec.regions[k];
        var s := counter.GenShape(spec.draw(r, false));
        var id := target.AppendShape(s);
        valueShapes := valueShapes[r := id];
        shapes := shapes[id := r];
      }
    }

    /** `pie` edits the display list before its maps, `bullet` after them. */
    method ChangeCurrent(highlight: bool)
      requires currentRegion.Some? && Closed()
      modifies this, target, counter
      ensures View() == ChangeHighlight(spec, old(View()), old(currentRegion).value, highlight)
      ensures Closed()
    {
      var r := currentRegion.value;
      var shapeid := valueShapes[r];
      var s := counter.GenShape(spec.draw(r, highlight));
      shapes := shapes - {shapeid};
      if bullet {
        valueShapes := valueShapes[r := s.id];
        shapes := shapes[s.id := r];
        target.ReplaceWithShape(shapeid, s);
      } else {
        target.ReplaceWithShape(shapeid, s);
        valueShapes := valueShapes[r := s.id];
        shapes := shapes[s.id := r];
      }
    }

    /** `point` is what `getShapeAt` answers, or `None` for a point off the canvas. */
    method SetRegionHighlight(point: Option<Option<int>>) returns (changed: Option<bool>)
      requires Closed()
      modifies this, target, counter
      ensures Closed()
      ensures var h := if point == None then Off else Over(point.value);
        && Known(old(View()), Plan(old(currentRegion), ToEvent(old(View()), h), spec.enabled))
        && View() == Handle(spec, old(View()), h)
        && changed == Answer(old(currentRegion), ToEvent(old(View()), h))
      ensures point == None ==> changed == None && currentRegion == old(currentRegion)
      ensures point.Some? ==>
        && changed == Some(currentRegion != old(currentRegion))
        && currentRegion == if point.value.Some? && point.value.value in old(shapes) then Some(old(shapes)[point.value.value]) else None
    {
      if point == None {
        return None;
      }
      var hit := point.value;
      var region := if hit.Some? && hit.value in shapes then Some(shapes[hit.value]) else None;
      ghost var start := View();
      assert region.Some? ==> region.value in valueShapes by {
        if region.Some? {
          var id := hit.value;
          assert id in shapes && shapes[id] == region.value;
        }
      }
      if currentRegion != region {
        if currentRegion.Some? && spec.enabled {
          ChangeCurrent(false);
        }
        currentRegion := region;
        ghost var middle := View();
        if region.Some? && spec.enabled {
          ChangeCurrent(true);
        }
        Unfolded(spec, start, middle, hit);
        return Some(true);
      }
      return Some(false);
    }

    static lemma Unfolded(spec: Spec<R, A>, start: Chart<R, A>, middle: Chart<R, A>, hit: Option<int>)
      requires var region := GetRegion(start, hit);
        && start.current != region
        && (start.current.Some? ==> start.current.value in start.valueShapes)
        && (region.Some? ==> region.value in start.valueShapes)
        && middle == (if start.current.Some? && spec.enabled then ChangeHighlight(spec, start, start.current.value, false) else start)
                     .(current := region)
      ensures var region, changes := GetRegion(start, hit), Plan(start.current, Move(GetRegion(start, hit)), spec.enabled);
        && Known(start, changes)
        && Handle(spec, start, Over(hit)) ==
             (if region.Some? && spec.enabled then ChangeHighlight(spec, middle, region.value, true) else middle)
    {
      var region := GetRegion(start, hit);
      var changes := Plan(start.current, Move(region), spec.enabled);
      if |changes| == 2 {
        var d := ChangeHighlight(spec, start, start.current.value, false);
        assert changes[1..] == [Change(region.value, true)];
        ApplyOne(spec, d, Change(region.value, true));
      } else if |changes| == 1 {
        ApplyOne(spec, start, changes[0]);
        assert changes == [changes[0]];
      }
    }

    static lemma ApplyOne(spec: Spec<R, A>, c: Chart<R, A>, change: Change<R>)
      requires change.region in c.valueShapes
      ensures Known(c, [change]) && Apply(spec, c, [change]) == ChangeHighlight(spec, c, change.region, change.highlight)
    {
      var d := ChangeHighlight(spec, c, change.region, change.highlight);
      assert [change][1..] == [];
      assert Apply(spec, d, [change][1..]) == d;
    }

    method ClearRegionHighlight() returns (changed: bool)
      requires Closed()
      modifies this, target, counter
      ensures Closed()
      ensures Known(old(View()), Plan(old(currentRegion), Clear, spec.enabled))
      ensures View() == Handle(spec, old(View()), Leave)
      ensures Some(changed) == Answer(old(currentRegion), Clear)
      ensures changed == (currentRegion != old(currentRegion)) && currentRegion == None
    {
      if currentRegion.Some? {
        ApplyOne(spec, View(), Change(currentRegion.value, false));
        ChangeCurrent(false);
        currentRegion := None;
        return true;
      }
      return false;
    }
  }
}
