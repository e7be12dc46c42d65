/**
 * Highlighting of bar, tristate and discrete charts (jquery.sparkline.js, barHighlightMixin).
 *
 * Each region owns a block of the display list: nothing, one shape, or the shapes of a stacked bar.
 * Every highlight change redraws a region with fresh shape ids and swaps its block in place.
 */
module BarChart {
  import opened Sequences
  import opened DisplayList
  import opened Interaction

  /** What `renderRegion` returns: undefined, one shape, or an array of shapes. */
  datatype Drawing<A> = Nothing | Single(art: A) | Stack(arts: seq<A>)

  /** What `regionShapes` stores for a region. */
  datatype Slot = Empty | One(id: int) | Many(ids: seq<int>)

  /** The fixed part of a chart: its number of values, its option, and how it draws a region. */
  datatype Spec<!A> = Spec(count: nat, enabled: bool, draw: (int, bool) -> Drawing<A>)

  datatype Chart<A> = Chart(pic: Picture<A>, next: nat, regions: map<int, Slot>, current: Option<int>)

  predicate SameForm<A>(d: Drawing<A>, e: Drawing<A>) {
    match (d, e)
    case (Nothing, Nothing) => true
    case (Single(_), Single(_)) => true
    case (Stack(a), Stack(b)) => |a| == |b|
    case _ => false
  }

  /** Highlighting changes colours only: it never changes how many shapes a region has. */
  ghost predicate Uniform<A>(spec: Spec<A>) {
    forall r :: SameForm(spec.draw(r, false), spec.draw(r, true))
  }

  predicate Fits<A>(slot: Slot, d: Drawing<A>) {
    match slot
    case Empty => d.Nothing?
    case One(_) => d.Single?
    case Many(ids) => d.Stack? && |d.arts| == |ids|
  }

  ghost predicate Formed<A>(spec: Spec<A>, regions: map<int, Slot>) {
    && Uniform(spec)
    && (forall r :: r in regions ==> Fits(regions[r], spec.draw(r, false)))
  }

  /** `if (shapeids)`: a missing or null entry is skipped, and so is the number 0; an array never is. */
  predicate Truthy(regions: map<int, Slot>, r: int) {
    r in regions && match regions[r]
      case Empty => false
      case One(id) => id != 0
      case Many(_) => true
  }

  function SlotIds(slot: Slot): seq<int> {
    match slot
    case Empty => []
    case One(id) => [id]
    case Many(ids) => ids
  }

  /** The shapes `_genShape` makes for `arts` when the counter stands at `next`. */
  function Generate<A>(arts: seq<A>, next: nat): (r: seq<Shape<A>>)
    ensures |r| == |arts|
    ensures forall i :: 0 <= i < |r| ==> r[i] == Shape(next + i, arts[i])
  {
    seq(|arts|, i requires 0 <= i < |arts| => Shape(next + i, arts[i]))
  }

  function Redrawn<A>(c: Chart<A>, r: int, slot: Slot, pic: Picture<A>, next: nat): Chart<A> {
    Chart(pic, next, c.regions[r := slot], c.current)
  }

  function ChangeHighlight<A>(spec: Spec<A>, c: Chart<A>, r: int, h: bool): (c': Chart<A>)
    requires Formed(spec, c.regions)
    ensures Formed(spec, c'.regions)
  {
    if !Truthy(c.regions, r) then c
    else
      assert SameForm(spec.draw(r, false), spec.draw(r, true));
      match c.regions[r]
      case One(id) =>
        var s := Shape(c.next, spec.draw(r, h).art);
        Redrawn(c, r, One(s.id), ReplaceOne(c.pic, id, s), c.next + 1)
      case Many(ids) =>
        var news := Generate(spec.draw(r, h).arts, c.next);
        Redrawn(c, r, Many(Ids(news)), ReplaceMany(c.pic, Elements(ids), news), c.next + |news|)
  }

  function Apply<A>(spec: Spec<A>, c: Chart<A>, changes: seq<Change<int>>): (c': Chart<A>)
    requires Formed(spec, c.regions)
    ensures Formed(spec, c'.regions)
    decreases |changes|
  {
    if changes == [] then c
    else Apply(spec, ChangeHighlight(spec, c, changes[0].region, changes[0].highlight), changes[1..])
  }

  function Handle<A>(spec: Spec<A>, c: Chart<A>, e: Event<int>): (c': Chart<A>)
    requires Formed(spec, c.regions)
    ensures Formed(spec, c'.regions)
  {
    Apply(spec, c, Plan(c.current, e, spec.enabled)).(current := NextRegion(c.current, e))
  }

  // ----- the bookkeeping invariant ---------------------------------------------------------

  ghost predicate InRange<A>(spec: Spec<A>, r: int) {
    0 <= r < spec.count
  }

  /** The blocks of regions `lo..hi` in drawing order: the last region is drawn first. */
  ghost function Blocks(regions: map<int, Slot>, lo: int, hi: int): seq<int>
    requires lo <= hi
    decreases hi - lo
  {
    if lo == hi then []
    else (if hi - 1 in regions then SlotIds(regions[hi - 1]) else []) + Blocks(regions, lo, hi - 1)
  }

  ghost predicate Matches<A>(shapes: map<int, Shape<A>>, ids: seq<int>, arts: seq<A>) {
    |ids| == |arts| && forall i :: 0 <= i < |ids| ==> ids[i] in shapes && shapes[ids[i]].art == arts[i]
  }

  function Flipped<T>(s: seq<T>): seq<T> {
    if s == [] then [] else Flipped(s[1..]) + [s[0]]
  }

  lemma {:induction false} FlippedAt<T>(s: seq<T>)
    ensures |Flipped(s)| == |s| && forall i :: 0 <= i < |s| ==> Flipped(s)[i] == s[|s| - 1 - i]
  {
    if s != [] {
      FlippedAt(s[1..]);
    }
  }

  /**
   * A region's block shows its drawing. A stacked bar is first appended back to front; its first
   * redraw puts its segments front to back, and there they stay.
   */
  ghost predicate Depicts<A>(shapes: map<int, Shape<A>>, slot: Slot, plain: Drawing<A>, glowing: Drawing<A>, lit: bool, redrawn: bool) {
    match slot
    case Empty => plain.Nothing?
    case One(id) =>
      var d := if lit && id != 0 then glowing else plain;
      d.Single? && Matches(shapes, [id], [d.art])
    case Many(ids) =>
      var d := if lit then glowing else plain;
      d.Stack? && (lit ==> redrawn) && Matches(shapes, ids, if redrawn then d.arts else Flipped(d.arts))
  }

  /** How the regions look: which one is drawn highlighted, and which have been redrawn since `render`. */
  datatype Look = Look(lit: Option<int>, redrawn: set<int>)

  function Relit(look: Look, r: int, h: bool): Look {
    Look(if h then Some(r) else None, look.redrawn + {r})
  }

  ghost predicate Shown<A>(spec: Spec<A>, c: Chart<A>, look: Look, r: int) {
    r in c.regions &&
    Depicts(c.pic.shapes, c.regions[r], spec.draw(r, false), spec.draw(r, true), look.lit == Some(r), r in look.redrawn)
  }

  /**
   * The chart's shapes are one stretch of the display list, between shapes of other charts on the
   * same canvas; inside it every region has its own contiguous block, in drawing order, and the
   * block shows that region highlighted exactly when it is the lit one, a stack in the order that
   * its redraws imply.
   */
  ghost predicate Inv<A>(spec: Spec<A>, c: Chart<A>, look: Look, front: seq<int>, back: seq<int>) {
    && Formed(spec, c.regions)
    && Consistent(c.pic)
    && Below(c.pic.order, c.next)
    && (forall r :: r in c.regions <==> InRange(spec, r))
    && c.pic.order == front + Blocks(c.regions, 0, spec.count) + back
    && (forall r :: InRange(spec, r) ==> Shown(spec, c, look, r))
  }

  lemma {:induction false} BlocksSplit(regions: map<int, Slot>, lo: int, r: int, hi: int)
    requires lo <= r < hi && r in regions
    ensures Blocks(regions, lo, hi) == Blocks(regions, r + 1, hi) + SlotIds(regions[r]) + Blocks(regions, lo, r)
    decreases hi - lo
  {
    if hi == r + 1 {
      assert Blocks(regions, r + 1, hi) == [];
    } else {
      BlocksSplit(regions, lo, r, hi - 1);
    }
  }

  lemma {:induction false} BlocksUpdate(regions: map<int, Slot>, lo: int, hi: int, r: int, slot: Slot)
    requires lo <= hi && !(lo <= r < hi)
    ensures Blocks(regions[r := slot], lo, hi) == Blocks(regions, lo, hi)
    decreases hi - lo
  {
    if lo < hi {
      BlocksUpdate(regions, lo, hi - 1, r, slot);
    }
  }

  lemma {:induction false} BlocksMember(regions: map<int, Slot>, lo: int, hi: int, r: int, id: int)
    requires lo <= r < hi && r in regions && id in SlotIds(regions[r])
    ensures id in Blocks(regions, lo, hi)
    decreases hi - lo
  {
    BlocksSplit(regions, lo, r, hi);
  }

  /** Where region `r` stands: what is drawn before its block and after it. */
  ghost function Before<A>(spec: Spec<A>, regions: map<int, Slot>, front: seq<int>, r: int): seq<int>
    requires InRange(spec, r)
  {
    front + Blocks(regions, r + 1, spec.count)
  }

  ghost function After<A>(spec: Spec<A>, regions: map<int, Slot>, back: seq<int>, r: int): seq<int>
    requires InRange(spec, r)
  {
    Blocks(regions, 0, r) + back
  }

  lemma Around<A>(spec: Spec<A>, regions: map<int, Slot>, front: seq<int>, back: seq<int>, r: int)
    requires InRange(spec, r) && r in regions
    ensures front + Blocks(regions, 0, spec.count) + back
         == Before(spec, regions, front, r) + SlotIds(regions[r]) + After(spec, regions, back, r)
  {
    BlocksSplit(regions, 0, r, spec.count);
  }

  ghost function Arts<A>(d: Drawing<A>): seq<A> {
    match d
    case Nothing => []
    case Single(art) => [art]
    case Stack(arts) => arts
  }

  /** The slot of the same form holding new ids. */
  ghost function Refill(slot: Slot, ids: seq<int>): Slot
    requires slot.One? ==> |ids| == 1
  {
    match slot
    case Empty => Empty
    case One(_) => One(ids[0])
    case Many(_) => Many(ids)
  }

  /** Swapping one region's block leaves every other block, and its place, alone. */
  lemma SwapBlock<A>(spec: Spec<A>, c: Chart<A>, look: Look, front: seq<int>, back: seq<int>,
                     r: int, h: bool, news: seq<Shape<A>>, slot: Slot, q: Picture<A>, d: Chart<A>)
    requires Inv(spec, c, look, front, back) && InRange(spec, r) && Truthy(c.regions, r)
    requires look.lit == None || (!h && look.lit == Some(r))
    requires news == Generate(Arts(spec.draw(r, h)), c.next)
    requires c.regions[r].One? ==> |news| == 1 && c.next != 0
    requires slot == Refill(c.regions[r], Ids(news)) && d == Redrawn(c, r, slot, q, c.next + |news|)
    requires Rewritten(c.pic, q, Before(spec, c.regions, front, r), After(spec, c.regions, back, r), news)
    ensures Inv(spec, d, Relit(look, r, h), front, back)
  {
    var look' := Relit(look, r, h);
    var order := front + Blocks(d.regions, 0, spec.count) + back;
    assert d.pic.order == order by {
      assert SlotIds(slot) == Ids(news);
      SwapOrder(spec, c.regions, front, back, r, slot);
    }
    assert Below(d.pic.order, d.next) by {
      Around(spec, c.regions, front, back, r);
      RewrittenBound(c.pic, q, Before(spec, c.regions, front, r), SlotIds(c.regions[r]), After(spec, c.regions, back, r),
                     news, c.next, c.next + |news|);
    }
    assert SameForm(spec.draw(r, false), spec.draw(r, true)) && Fits(c.regions[r], spec.draw(r, false));
    assert Formed(spec, d.regions);
    forall k | InRange(spec, k) ensures Shown(spec, d, look', k) {
      if k != r {
        OtherShown(spec, c, look, front, back, r, q, news, k);
      } else {
        OwnShown(spec, c, r, h, news, q.shapes);
      }
    }
  }

  lemma OwnShown<A>(spec: Spec<A>, c: Chart<A>, r: int, h: bool, news: seq<Shape<A>>, shapes: map<int, Shape<A>>)
    requires Formed(spec, c.regions) && Truthy(c.regions, r)
    requires news == Generate(Arts(spec.draw(r, h)), c.next) && Stored(shapes, news)
    requires c.regions[r].One? ==> |news| == 1 && c.next != 0
    ensures Depicts(shapes, Refill(c.regions[r], Ids(news)), spec.draw(r, false), spec.draw(r, true), h, true)
  {
    assert SameForm(spec.draw(r, false), spec.draw(r, true)) && Fits(c.regions[r], spec.draw(r, false));
    GeneratedMatch(shapes, Arts(spec.draw(r, h)), c.next);
  }

  lemma {:induction false} SwapOrder<A>(spec: Spec<A>, regions: map<int, Slot>, front: seq<int>, back: seq<int>, r: int, slot: Slot)
    requires InRange(spec, r) && r in regions
    ensures front + Blocks(regions[r := slot], 0, spec.count) + back
         == Before(spec, regions, front, r) + SlotIds(slot) + After(spec, regions, back, r)
  {
    BlocksUpdate(regions, r + 1, spec.count, r, slot);
    BlocksUpdate(regions, 0, r, r, slot);
    Around(spec, regions[r := slot], front, back, r);
  }

  lemma GeneratedMatch<A>(shapes: map<int, Shape<A>>, arts: seq<A>, next: nat)
    requires Stored(shapes, Generate(arts, next))
    ensures Matches(shapes, Ids(Generate(arts, next)), arts)
  {
    var news := Generate(arts, next);
    assert forall i :: 0 <= i < |news| ==> Ids(news)[i] == news[i].id;
  }

  lemma RewrittenBound<A>(p: Picture<A>, q: Picture<A>, before: seq<int>, block: seq<int>, after: seq<int>, news: seq<Shape<A>>, n: nat, m: nat)
    requires p.order == before + block + after && Rewritten(p, q, before, after, news)
    requires n <= m && Below(p.order, n) && (forall i :: 0 <= i < |news| ==> 0 <= news[i].id < m)
    ensures Below(q.order, m)
  {
    forall id | id in q.order ensures 0 <= id < m {
      if id in Ids(news) {
        var i :| 0 <= i < |news| && Ids(news)[i] == id;
      } else {
        assert id in before || id in after;
        assert id in p.order;
      }
    }
  }

  lemma OtherShown<A>(spec: Spec<A>, c: Chart<A>, look: Look, front: seq<int>, back: seq<int>,
                      r: int, q: Picture<A>, news: seq<Shape<A>>, k: int)
    requires Inv(spec, c, look, front, back) && InRange(spec, r) && InRange(spec, k) && k != r
    requires Rewritten(c.pic, q, Before(spec, c.regions, front, r), After(spec, c.regions, back, r), news)
    ensures k in c.regions
    ensures Depicts(q.shapes, c.regions[k], spec.draw(k, false), spec.draw(k, true), look.lit == Some(k), k in look.redrawn)
  {
    var before, after := Before(spec, c.regions, front, r), After(spec, c.regions, back, r);
    assert Shown(spec, c, look, k);
    Around(spec, c.regions, front, back, r);
    forall id | id in SlotIds(c.regions[k]) ensures id in before + after && id in c.pic.shapes {
      if k > r {
        BlocksMember(c.regions, r + 1, spec.count, k, id);
        assert id in before;
      } else {
        BlocksMember(c.regions, 0, r, k, id);
        assert id in after;
      }
      assert id in c.pic.order;
    }
    SameBlock(c.pic.shapes, q.shapes, c.regions[k], spec.draw(k, false), spec.draw(k, true), look.lit == Some(k), k in look.redrawn);
  }

  lemma SameBlock<A>(m: map<int, Shape<A>>, n: map<int, Shape<A>>, slot: Slot, plain: Drawing<A>, glowing: Drawing<A>, lit: bool, redrawn: bool)
    requires Depicts(m, slot, plain, glowing, lit, redrawn)
    requires forall id :: id in SlotIds(slot) ==> id in m && id in n && m[id] == n[id]
    ensures Depicts(n, slot, plain, glowing, lit, redrawn)
  {
    var ids := SlotIds(slot);
    forall i | 0 <= i < |ids| ensures ids[i] in m && ids[i] in n && m[ids[i]] == n[ids[i]] {
      var id := ids[i];
      assert id in ids;
    }
    if slot.One? {
      assert ids[0] == slot.id;
    }
  }

  /** One highlight change keeps the bookkeeping exact, and rewrites nothing outside the region's block. */
  lemma {:induction false} ChangeKeeps<A>(spec: Spec<A>, c: Chart<A>, look: Look, front: seq<int>, back: seq<int>, r: int, h: bool)
    requires Inv(spec, c, look, front, back)
    requires look.lit == None || (!h && look.lit == Some(r))
    ensures Inv(spec, ChangeHighlight(spec, c, r, h), Relit(look, r, h), front, back)
  {
    var look' := Relit(look, r, h);
    if !InRange(spec, r) {
      forall k | InRange(spec, k) ensures Shown(spec, c, look', k) {
        assert Shown(spec, c, look, k);
      }
    } else {
      assert Shown(spec, c, look, r) && SameForm(spec.draw(r, false), spec.draw(r, true));
      if !Truthy(c.regions, r) {
        forall k | InRange(spec, k) ensures Shown(spec, c, look', k) {
          assert Shown(spec, c, look, k);
        }
      } else {
        ChangeTruthy(spec, c, look, front, back, r, h);
      }
    }
  }

  lemma {:induction false} ChangeTruthy<A>(spec: Spec<A>, c: Chart<A>, look: Look, front: seq<int>, back: seq<int>, r: int, h: bool)
    requires Inv(spec, c, look, front, back) && InRange(spec, r) && Truthy(c.regions, r)
    requires look.lit == None || (!h && look.lit == Some(r))
    ensures Inv(spec, ChangeHighlight(spec, c, r, h), Relit(look, r, h), front, back)
  {
    assert SameForm(spec.draw(r, false), spec.draw(r, true)) && Fits(c.regions[r], spec.draw(r, false));
    var before, after := Before(spec, c.regions, front, r), After(spec, c.regions, back, r);
    var arts := Arts(spec.draw(r, h));
    var news := Generate(arts, c.next);
    var slot := Refill(c.regions[r], Ids(news));
    var d := ChangeHighlight(spec, c, r, h);
    assert d == Redrawn(c, r, slot, d.pic, c.next + |news|);
    assert c.regions[r].One? ==> c.next != 0 by {
      Around(spec, c.regions, front, back, r);
      OwnIdBelow(c.pic.order, before, SlotIds(c.regions[r]), after, c.next);
    }
    assert Rewritten(c.pic, d.pic, before, after, news) by {
      Around(spec, c.regions, front, back, r);
      GeneratedFresh(c.pic, arts, c.next);
      match c.regions[r]
      case One(id) =>
        assert news == [Shape(c.next, spec.draw(r, h).art)];
        RewriteOne(c.pic, before, id, after, news[0]);
      case Many(ids) => RewriteMany(c.pic, before, ids, after, news);
    }
    SwapBlock(spec, c, look, front, back, r, h, news, slot, d.pic, d);
  }

  lemma OwnIdBelow(order: seq<int>, before: seq<int>, block: seq<int>, after: seq<int>, next: int)
    requires order == before + block + after && Below(order, next)
    ensures forall i :: 0 <= i < |block| ==> 0 <= block[i] < next
  {
    forall i | 0 <= i < |block| ensures 0 <= block[i] < next {
      var id := order[|before| + i];
      assert id in order;
    }
  }

  lemma GeneratedFresh<A>(p: Picture<A>, arts: seq<A>, next: nat)
    requires Below(p.order, next)
    ensures var news := Generate(arts, next);
      Fresh(p, news) && forall i :: 0 <= i < |news| ==> 0 <= news[i].id < next + |news|
  {
    NoDupPairs(Ids(Generate(arts, next)));
  }

  function Touched(changes: seq<Change<int>>): set<int> {
    if changes == [] then {} else {changes[0].region} + Touched(changes[1..])
  }

  function LookAfter(look: Look, changes: seq<Change<int>>): Look {
    Look(LitAfter(look.lit, changes), look.redrawn + Touched(changes))
  }

  lemma {:induction false} ApplyKeeps<A>(spec: Spec<A>, c: Chart<A>, look: Look, front: seq<int>, back: seq<int>, changes: seq<Change<int>>)
    requires Inv(spec, c, look, front, back) && Legal(look.lit, changes)
    ensures Inv(spec, Apply(spec, c, changes), LookAfter(look, changes), front, back)
    ensures Apply(spec, c, changes).current == c.current
    decreases |changes|
  {
    if changes == [] {
      assert LookAfter(look, changes) == look;
    } else {
      var r, h := changes[0].region, changes[0].highlight;
      ChangeKeeps(spec, c, look, front, back, r, h);
      ApplyKeeps(spec, ChangeHighlight(spec, c, r, h), Relit(look, r, h), front, back, changes[1..]);
      assert LookAfter(Relit(look, r, h), changes[1..]) == LookAfter(look, changes);
    }
  }

  // ----- runs ------------------------------------------------------------------------------

  /** A mouse event on this chart, or other charts of the same canvas editing their own shapes. */
  datatype Happening<A> =
    | Mouse(event: Event<int>)
    | Others(front: seq<int>, back: seq<int>, pic: Picture<A>, next: nat)

  /** Other charts leave this chart's stretch of the list alone. */
  ghost predicate Enabled<A>(spec: Spec<A>, c: Chart<A>, h: Happening<A>) {
    match h
    case Mouse(_) => true
    case Others(front, back, pic, next) =>
      var own := Blocks(c.regions, 0, spec.count);
      && Consistent(pic) && pic.order == front + own + back
      && (forall id :: id in own && id in c.pic.shapes ==> id in pic.shapes && pic.shapes[id] == c.pic.shapes[id])
      && Below(pic.order, next) && c.next <= next
  }

  ghost function Play<A>(spec: Spec<A>, c: Chart<A>, h: Happening<A>): (c': Chart<A>)
    requires Formed(spec, c.regions)
    ensures Formed(spec, c'.regions)
  {
    match h
    case Mouse(e) => Handle(spec, c, e)
    case Others(_, _, pic, next) => c.(pic := pic, next := next)
  }

  ghost predicate Possible<A>(spec: Spec<A>, c: Chart<A>, run: seq<Happening<A>>)
    requires Formed(spec, c.regions)
    decreases |run|
  {
    run == [] || (Enabled(spec, c, run[0]) && Possible(spec, Play(spec, c, run[0]), run[1..]))
  }

  ghost function Run<A>(spec: Spec<A>, c: Chart<A>, run: seq<Happening<A>>): (c': Chart<A>)
    requires Formed(spec, c.regions)
    ensures Formed(spec, c'.regions)
    decreases |run|
  {
    if run == [] then c else Run(spec, Play(spec, c, run[0]), run[1..])
  }

  /** What surrounds this chart's shapes after a run: whatever the other charts last put there. */
  ghost function Surround<A>(front: seq<int>, back: seq<int>, run: seq<Happening<A>>): (seq<int>, seq<int>)
    decreases |run|
  {
    if run == [] then (front, back)
    else if run[0].Mouse? then Surround(front, back, run[1..])
    else Surround(run[0].front, run[0].back, run[1..])
  }

  /** The regions that a run redraws: those named by the highlight changes of its mouse events. */
  function TouchedBy<A>(current: Option<int>, enabled: bool, run: seq<Happening<A>>): set<int>
    decreases |run|
  {
    if run == [] then {}
    else if run[0].Others? then TouchedBy(current, enabled, run[1..])
    else
      Touched(Plan(current, run[0].event, enabled)) + TouchedBy(NextRegion(current, run[0].event), enabled, run[1..])
  }

  lemma {:induction false} OthersKeep<A>(spec: Spec<A>, c: Chart<A>, look: Look, front: seq<int>, back: seq<int>, h: Happening<A>)
    requires Inv(spec, c, look, front, back) && h.Others? && Enabled(spec, c, h)
    ensures Inv(spec, Play(spec, c, h), look, h.front, h.back)
  {
    var d := Play(spec, c, h);
    forall r | InRange(spec, r) ensures Shown(spec, d, look, r) {
      assert Shown(spec, c, look, r);
      forall id | id in SlotIds(c.regions[r]) ensures id in c.pic.shapes && id in d.pic.shapes && c.pic.shapes[id] == d.pic.shapes[id] {
        BlocksMember(c.regions, 0, spec.count, r, id);
        assert id in c.pic.order;
      }
      SameBlock(c.pic.shapes, d.pic.shapes, c.regions[r], spec.draw(r, false), spec.draw(r, true), look.lit == Some(r), r in look.redrawn);
    }
  }

  /** The look of a chart whose current region is known: the lit region follows from it. */
  function LookOf<A>(spec: Spec<A>, c: Chart<A>, redrawn: set<int>): Look {
    Look(Lit(c.current, spec.enabled), redrawn)
  }

  lemma {:induction false} PlayKeeps<A>(spec: Spec<A>, c: Chart<A>, redrawn: set<int>, front: seq<int>, back: seq<int>, h: Happening<A>)
    requires Inv(spec, c, LookOf(spec, c, redrawn), front, back) && Enabled(spec, c, h)
    ensures var d := Play(spec, c, h);
      var all := redrawn + (if h.Mouse? then Touched(Plan(c.current, h.event, spec.enabled)) else {});
      Inv(spec, d, LookOf(spec, d, all), if h.Others? then h.front else front, if h.Others? then h.back else back)
  {
    match h
    case Mouse(e) =>
      var look, changes := LookOf(spec, c, redrawn), Plan(c.current, e, spec.enabled);
      PlanLegal(c.current, e, spec.enabled);
      ApplyKeeps(spec, c, look, front, back, changes);
      var d := Apply(spec, c, changes);
      Recentred(spec, d, LookAfter(look, changes), front, back, NextRegion(c.current, e));
    case Others(_, _, _, _) =>
      assert redrawn + {} == redrawn;
      OthersKeep(spec, c, LookOf(spec, c, redrawn), front, back, h);
  }

  lemma Recentred<A>(spec: Spec<A>, c: Chart<A>, look: Look, front: seq<int>, back: seq<int>, current: Option<int>)
    requires Inv(spec, c, look, front, back)
    ensures Inv(spec, c.(current := current), look, front, back)
  {
    forall r | InRange(spec, r) ensures Shown(spec, c.(current := current), look, r) {
      assert Shown(spec, c, look, r);
    }
  }

  /**
   * Over every run of mouse events, with other charts editing the canvas in between, each region
   * keeps one contiguous block in its place, exactly the current region is drawn highlighted, and a
   * stack is drawn front to back exactly if it was redrawn before or in the run.
   */
  lemma {:induction false} RunKeeps<A>(spec: Spec<A>, c: Chart<A>, redrawn: set<int>, front: seq<int>, back: seq<int>, run: seq<Happening<A>>)
    requires Inv(spec, c, LookOf(spec, c, redrawn), front, back) && Possible(spec, c, run)
    ensures var d := Run(spec, c, run);
      var around := Surround(front, back, run);
      Inv(spec, d, LookOf(spec, d, redrawn + TouchedBy(c.current, spec.enabled, run)), around.0, around.1)
    decreases |run|
  {
    if run == [] {
      assert redrawn + TouchedBy(c.current, spec.enabled, run) == redrawn;
    } else {
      var h := run[0];
      PlayKeeps(spec, c, redrawn, front, back, h);
      var touched := if h.Mouse? then Touched(Plan(c.current, h.event, spec.enabled)) else {};
      var d := Play(spec, c, h);
      PlayCurrent(spec, c, h);
      RunKeeps(spec, d, redrawn + touched, if h.Others? then h.front else front, if h.Others? then h.back else back, run[1..]);
      assert redrawn + touched + TouchedBy(d.current, spec.enabled, run[1..]) == redrawn + TouchedBy(c.current, spec.enabled, run);
    }
  }

  lemma PlayCurrent<A>(spec: Spec<A>, c: Chart<A>, h: Happening<A>)
    requires Formed(spec, c.regions)
    ensures Play(spec, c, h).current == if h.Mouse? then NextRegion(c.current, h.event) else c.current
  {
  }

  /** A region whose only shape has id 0 is skipped by every change: it can never be highlighted. */
  lemma {:induction false} ZeroIdNeverChanges<A>(spec: Spec<A>, c: Chart<A>, run: seq<Happening<A>>, r: int)
    requires Formed(spec, c.regions) && r in c.regions && c.regions[r] == One(0)
    ensures r in Run(spec, c, run).regions && Run(spec, c, run).regions[r] == One(0)
    decreases |run|
  {
    if run != [] {
      if run[0].Mouse? {
        ZeroIdApply(spec, c, Plan(c.current, run[0].event, spec.enabled), r);
      }
      ZeroIdNeverChanges(spec, Play(spec, c, run[0]), run[1..], r);
    }
  }

  lemma {:induction false} ZeroIdApply<A>(spec: Spec<A>, c: Chart<A>, changes: seq<Change<int>>, r: int)
    requires Formed(spec, c.regions) && r in c.regions && c.regions[r] == One(0)
    ensures r in Apply(spec, c, changes).regions && Apply(spec, c, changes).regions[r] == One(0)
    decreases |changes|
  {
    if changes != [] {
      ZeroIdApply(spec, ChangeHighlight(spec, c, changes[0].region, changes[0].highlight), changes[1..], r);
    }
  }

  // ----- the first rendering establishes the invariant -------------------------------------

  /** Appending `shapes` from the last to the first. */
  function AppendBackwards<A>(pic: Picture<A>, shapes: seq<Shape<A>>): Picture<A> {
    Picture(StoreAll(pic.shapes, shapes), pic.order + Flipped(Ids(shapes)),
            if shapes == [] then pic.last else Some(shapes[0].id))
  }

  function RenderRegion<A>(spec: Spec<A>, c: Chart<A>, r: int): Chart<A> {
    match spec.draw(r, false)
    case Nothing => c.(regions := c.regions[r := Empty])
    case Single(art) =>
      var s := Shape(c.next, art);
      Redrawn(c, r, One(s.id), Append(c.pic, s), c.next + 1)
    case Stack(arts) =>
      var shapes := Generate(arts, c.next);
      Redrawn(c, r, Many(Flipped(Ids(shapes))), AppendBackwards(c.pic, shapes), c.next + |arts|)
  }

  /** `render`: regions `n - 1` down to 0. */
  function Rendered<A>(spec: Spec<A>, c: Chart<A>, n: nat): Chart<A>
    decreases n
  {
    if n == 0 then c else Rendered(spec, RenderRegion(spec, c, n - 1), n - 1)
  }

  ghost predicate Rendering<A>(spec: Spec<A>, c: Chart<A>, front: seq<int>, n: nat) {
    && Formed(spec, c.regions)
    && Consistent(c.pic)
    && Below(c.pic.order, c.next)
    && n <= spec.count && (forall r :: r in c.regions <==> n <= r < spec.count)
    && c.pic.order == front + Blocks(c.regions, n, spec.count)
    && (forall r :: n <= r < spec.count ==> Shown(spec, c, Look(None, {}), r))
  }

  lemma {:induction false} FlippedNoDup<T>(s: seq<T>)
    requires NoDup(s)
    ensures NoDup(Flipped(s)) && forall x :: x in Flipped(s) <==> x in s
  {
    if s != [] {
      FlippedNoDup(s[1..]);
      assert forall x :: x in s <==> x == s[0] || x in s[1..];
      NoDupConcat(Flipped(s[1..]), [s[0]]);
    }
  }

  lemma {:induction false} AppendBackwardsResult<A>(pic: Picture<A>, shapes: seq<Shape<A>>)
    requires Consistent(pic) && Fresh(pic, shapes)
    ensures var q := AppendBackwards(pic, shapes);
      && Consistent(q) && Stored(q.shapes, shapes)
      && (forall id :: id in pic.order ==> id in q.shapes && q.shapes[id] == pic.shapes[id])
  {
    StoreAllContents(pic.shapes, shapes);
    FlippedNoDup(Ids(shapes));
    NoDupConcat(pic.order, Flipped(Ids(shapes)));
  }

  lemma IdsBelow<A>(order: seq<int>, shapes: seq<Shape<A>>, n: nat, m: nat)
    requires n <= m && Below(order, n)
    requires forall i :: 0 <= i < |shapes| ==> 0 <= shapes[i].id < m
    ensures Below(order + Flipped(Ids(shapes)), m)
  {
    var flipped := Flipped(Ids(shapes));
    FlippedAt(Ids(shapes));
    forall id | id in order + flipped ensures 0 <= id < m {
      if id !in order {
        var i :| 0 <= i < |flipped| && flipped[i] == id;
        assert id == shapes[|shapes| - 1 - i].id;
      }
    }
  }

  lemma BlockAppended(regions: map<int, Slot>, n: int, hi: int, slot: Slot, front: seq<int>)
    requires n < hi
    ensures front + Blocks(regions[n := slot], n, hi) == front + Blocks(regions, n + 1, hi) + SlotIds(slot)
  {
    BlocksUpdate(regions, n + 1, hi, n, slot);
    BlocksSplit(regions[n := slot], n, n, hi);
    assert Blocks(regions[n := slot], n, n) == [];
  }

  /** What appending one region's block does to the rendering invariant. */
  lemma {:induction false} RenderBlock<A>(spec: Spec<A>, c: Chart<A>, front: seq<int>, n: nat, slot: Slot, shapes: seq<Shape<A>>, q: Picture<A>, d: Chart<A>)
    requires 0 < n && Rendering(spec, c, front, n)
    requires SlotIds(slot) == Flipped(Ids(shapes))
    requires q == AppendBackwards(c.pic, shapes) && d == Redrawn(c, n - 1, slot, q, c.next + |shapes|)
    requires Fresh(c.pic, shapes) && forall i :: 0 <= i < |shapes| ==> 0 <= shapes[i].id < c.next + |shapes|
    requires Fits(slot, spec.draw(n - 1, false))
    requires Depicts(q.shapes, slot, spec.draw(n - 1, false), spec.draw(n - 1, true), false, false)
    ensures Rendering(spec, d, front, n - 1)
  {
    assert Formed(spec, d.regions);
    assert Consistent(d.pic) by {
      AppendBackwardsResult(c.pic, shapes);
    }
    assert Below(d.pic.order, d.next) by {
      IdsBelow(c.pic.order, shapes, c.next, c.next + |shapes|);
    }
    assert forall r :: r in d.regions <==> n - 1 <= r < spec.count;
    assert d.pic.order == front + Blocks(d.regions, n - 1, spec.count) by {
      BlockAppended(c.regions, n - 1, spec.count, slot, front);
    }
    assert forall r :: n - 1 <= r < spec.count ==> Shown(spec, d, Look(None, {}), r) by {
      AppendBackwardsResult(c.pic, shapes);
      AllShown(spec, c, front, n, slot, d);
    }
  }

  lemma AllShown<A>(spec: Spec<A>, c: Chart<A>, front: seq<int>, n: nat, slot: Slot, d: Chart<A>)
    requires 0 < n && Rendering(spec, c, front, n)
    requires d.regions == c.regions[n - 1 := slot]
    requires forall id :: id in c.pic.order ==> id in d.pic.shapes && d.pic.shapes[id] == c.pic.shapes[id]
    requires Depicts(d.pic.shapes, slot, spec.draw(n - 1, false), spec.draw(n - 1, true), false, false)
    ensures forall r :: n - 1 <= r < spec.count ==> Shown(spec, d, Look(None, {}), r)
  {
    forall r | n - 1 <= r < spec.count ensures Shown(spec, d, Look(None, {}), r) {
      if r >= n {
        EarlierShown(spec, c, front, n, r, d);
      } else {
        NowShown(spec, d, r, slot);
      }
    }
  }

  lemma NowShown<A>(spec: Spec<A>, d: Chart<A>, r: int, slot: Slot)
    requires r in d.regions && d.regions[r] == slot
    requires Depicts(d.pic.shapes, slot, spec.draw(r, false), spec.draw(r, true), false, false)
    ensures Shown(spec, d, Look(None, {}), r)
  {
  }

  lemma EarlierShown<A>(spec: Spec<A>, c: Chart<A>, front: seq<int>, n: nat, r: int, d: Chart<A>)
    requires Rendering(spec, c, front, n) && n <= r < spec.count
    requires r in d.regions && d.regions[r] == c.regions[r]
    requires forall id :: id in c.pic.order ==> id in d.pic.shapes && d.pic.shapes[id] == c.pic.shapes[id]
    ensures Shown(spec, d, Look(None, {}), r)
  {
    assert Shown(spec, c, Look(None, {}), r);
    forall id | id in SlotIds(c.regions[r]) ensures id in c.pic.order {
      BlocksMember(c.regions, n, spec.count, r, id);
    }
    SameBlock(c.pic.shapes, d.pic.shapes, c.regions[r], spec.draw(r, false), spec.draw(r, true), false, false);
  }

  lemma RenderRegionKeeps<A>(spec: Spec<A>, c: Chart<A>, front: seq<int>, n: nat)
    requires 0 < n && Rendering(spec, c, front, n)
    ensures Rendering(spec, RenderRegion(spec, c, n - 1), front, n - 1)
  {
    var r, d := n - 1, RenderRegion(spec, c, n - 1);
    match spec.draw(r, false)
    case Nothing =>
      assert d == Redrawn(c, r, Empty, AppendBackwards(c.pic, []), c.next);
      RenderBlock(spec, c, front, n, Empty, [], c.pic, d);
    case Single(art) =>
      var s := Shape(c.next, art);
      assert Ids([s]) == Flipped([s.id]) == [s.id];
      assert AppendBackwards(c.pic, [s]) == Append(c.pic, s) by {
        assert StoreAll(c.pic.shapes, [s]) == StoreAll(c.pic.shapes, [s][1..])[s.id := s];
      }
      RenderBlock(spec, c, front, n, One(s.id), [s], d.pic, d);
    case Stack(arts) =>
      var shapes := Generate(arts, c.next);
      GeneratedFresh(c.pic, arts, c.next);
      FlippedAt(Ids(shapes));
      FlippedMatch(c.pic, arts, c.next, spec.draw(r, true));
      RenderBlock(spec, c, front, n, Many(Flipped(Ids(shapes))), shapes, d.pic, d);
  }

  lemma FlippedMatch<A>(pic: Picture<A>, arts: seq<A>, next: nat, glowing: Drawing<A>)
    requires Consistent(pic) && Fresh(pic, Generate(arts, next))
    ensures var shapes := Generate(arts, next);
      Depicts(AppendBackwards(pic, shapes).shapes, Many(Flipped(Ids(shapes))), Stack(arts), glowing, false, false)
  {
    var shapes := Generate(arts, next);
    var m := AppendBackwards(pic, shapes).shapes;
    assert Stored(m, shapes) by {
      AppendBackwardsResult(pic, shapes);
    }
    FlippedAt(Ids(shapes));
    FlippedAt(arts);
    assert Matches(m, Flipped(Ids(shapes)), Flipped(arts));
  }

  lemma {:induction false} RenderFromKeeps<A>(spec: Spec<A>, c: Chart<A>, front: seq<int>, n: nat)
    requires Rendering(spec, c, front, n)
    ensures Rendering(spec, Rendered(spec, c, n), front, 0)
    ensures Rendered(spec, c, n).current == c.current
    decreases n
  {
    if n > 0 {
      RenderRegionKeeps(spec, c, front, n);
      RenderFromKeeps(spec, RenderRegion(spec, c, n - 1), front, n - 1);
    }
  }

  /** A freshly rendered chart, drawn over whatever the canvas already held, satisfies the invariant. */
  lemma {:induction false} RenderEstablishes<A>(spec: Spec<A>, pic: Picture<A>, next: nat)
    requires Uniform(spec) && Consistent(pic) && Below(pic.order, next)
    ensures Inv(spec, Rendered(spec, Chart(pic, next, map[], None), spec.count), Look(None, {}), pic.order, [])
  {
    var c := Chart(pic, next, map[], None);
    assert Blocks(c.regions, spec.count, spec.count) == [];
    assert pic.order + [] == pic.order;
    RenderFromKeeps(spec, c, pic.order, spec.count);
    var d := Rendered(spec, c, spec.count);
    assert pic.order + Blocks(d.regions, 0, spec.count) + [] == pic.order + Blocks(d.regions, 0, spec.count);
  }

  // ----- the order of a stack --------------------------------------------------------------

  /** The current region after a run that starts without one. */
  function CurrentAfter<A>(run: seq<Happening<A>>): Option<int>
    decreases |run|
  {
    if run == [] then None
    else
      var n := |run| - 1;
      if run[n].Mouse? then NextRegion(CurrentAfter(run[..n]), run[n].event) else CurrentAfter(run[..n])
  }

  /**
   * Event `i` redraws region `r`: the mouse moves onto it, or, with highlighting disabled, leaves the
   * chart from it (which takes the highlight away without having put it there).
   */
  predicate Redraws<A>(enabled: bool, run: seq<Happening<A>>, i: int, r: int)
    requires 0 <= i < |run|
  {
    && run[i].Mouse?
    && if enabled then run[i].event == Move(Some(r)) else run[i].event == Clear && CurrentAfter(run[..i]) == Some(r)
  }

  predicate EverRedrawn<A>(enabled: bool, run: seq<Happening<A>>, r: int) {
    exists i :: 0 <= i < |run| && Redraws(enabled, run, i, r)
  }

  function CurrentFrom<A>(current: Option<int>, run: seq<Happening<A>>): Option<int>
    decreases |run|
  {
    if run == [] then current
    else CurrentFrom(if run[0].Mouse? then NextRegion(current, run[0].event) else current, run[1..])
  }

  lemma {:induction false} TouchedSnoc<A>(current: Option<int>, enabled: bool, run: seq<Happening<A>>, last: Happening<A>)
    ensures TouchedBy(current, enabled, run + [last])
         == TouchedBy(current, enabled, run)
          + (if last.Mouse? then Touched(Plan(CurrentFrom(current, run), last.event, enabled)) else {})
    ensures CurrentFrom(current, run + [last])
         == if last.Mouse? then NextRegion(CurrentFrom(current, run), last.event) else CurrentFrom(current, run)
    decreases |run|
  {
    if run == [] {
      assert (run + [last])[1..] == [];
    } else {
      assert (run + [last])[1..] == run[1..] + [last];
      TouchedSnoc(if run[0].Mouse? then NextRegion(current, run[0].event) else current, enabled, run[1..], last);
    }
  }

  lemma PlanTouches(current: Option<int>, e: Event<int>, enabled: bool, r: int)
    ensures r in Touched(Plan(current, e, enabled)) <==>
      match e
      case Move(to_) => enabled && to_ != current && (current == Some(r) || to_ == Some(r))
      case Outside => false
      case Clear => current == Some(r)
  {
    var changes := Plan(current, e, enabled);
    if |changes| == 2 {
      assert changes[1..] == [changes[1]];
      assert Touched(changes[1..]) == {changes[1].region} + Touched(changes[1..][1..]);
    }
  }

  /** Which regions a run redraws, in terms of its events alone. */
  lemma {:induction false} TouchedIff<A>(enabled: bool, run: seq<Happening<A>>, r: int)
    ensures r in TouchedBy(None, enabled, run) <==> EverRedrawn(enabled, run, r)
    ensures CurrentFrom(None, run) == CurrentAfter(run)
    ensures enabled && CurrentAfter(run) == Some(r) ==> EverRedrawn(enabled, run, r)
    decreases |run|
  {
    if run != [] {
      var n := |run| - 1;
      var front, last := run[..n], run[n];
      assert run == front + [last];
      TouchedIff(enabled, front, r);
      TouchedSnoc(None, enabled, front, last);
      if last.Mouse? {
        PlanTouches(CurrentAfter(front), last.event, enabled, r);
      }
      RedrawnSnoc(enabled, front, last, r);
    }
  }

  lemma RedrawnSnoc<A>(enabled: bool, front: seq<Happening<A>>, last: Happening<A>, r: int)
    ensures var run := front + [last];
      EverRedrawn(enabled, run, r) <==> EverRedrawn(enabled, front, r) || Redraws(enabled, run, |front|, r)
  {
    var run := front + [last];
    forall i | 0 <= i < |front| ensures Redraws(enabled, run, i, r) <==> Redraws(enabled, front, i, r) {
      assert run[..i] == front[..i];
    }
  }

  /** What a run on a freshly rendered chart leads to. */
  ghost function Lived<A>(spec: Spec<A>, pic: Picture<A>, next: nat, run: seq<Happening<A>>): (d: Chart<A>)
    requires Uniform(spec) && Consistent(pic) && Below(pic.order, next)
  {
    RenderEstablishes(spec, pic, next);
    Run(spec, Rendered(spec, Chart(pic, next, map[], None), spec.count), run)
  }

  ghost predicate Liveable<A>(spec: Spec<A>, pic: Picture<A>, next: nat, run: seq<Happening<A>>) {
    && Uniform(spec) && Consistent(pic) && Below(pic.order, next)
    && (RenderEstablishes(spec, pic, next);
        Possible(spec, Rendered(spec, Chart(pic, next, map[], None), spec.count), run))
  }

  /** From the first rendering through any run: the bookkeeping is exact. */
  lemma {:induction false} LifeKeeps<A>(spec: Spec<A>, pic: Picture<A>, next: nat, run: seq<Happening<A>>)
    requires Liveable(spec, pic, next, run)
    ensures var d := Lived(spec, pic, next, run);
      var around := Surround(pic.order, [], run);
      Inv(spec, d, LookOf(spec, d, TouchedBy(None, spec.enabled, run)), around.0, around.1)
  {
    RenderEstablishes(spec, pic, next);
    var c := Rendered(spec, Chart(pic, next, map[], None), spec.count);
    RenderedCurrent(spec, Chart(pic, next, map[], None), spec.count);
    assert LookOf(spec, c, {}) == Look(None, {});
    RunKeeps(spec, c, {}, pic.order, [], run);
    assert {} + TouchedBy(c.current, spec.enabled, run) == TouchedBy(None, spec.enabled, run);
  }

  lemma {:induction false} RenderedCurrent<A>(spec: Spec<A>, c: Chart<A>, n: nat)
    ensures Rendered(spec, c, n).current == c.current
    decreases n
  {
    if n > 0 {
      RenderedCurrent(spec, RenderRegion(spec, c, n - 1), n - 1);
    }
  }

  /**
   * The segments of a stack are drawn back to front exactly until the region is redrawn for the first
   * time, and front to back from then on, whatever else happens.
   */
  lemma {:induction false} StackOrderIff<A>(spec: Spec<A>, pic: Picture<A>, next: nat, run: seq<Happening<A>>, r: int)
    requires Liveable(spec, pic, next, run) && InRange(spec, r) && spec.draw(r, false).Stack?
    ensures var d := Lived(spec, pic, next, run);
      && r in d.regions && d.regions[r].Many? && spec.draw(r, true).Stack?
      && var arts := spec.draw(r, Lit(d.current, spec.enabled) == Some(r)).arts;
         && Matches(d.pic.shapes, d.regions[r].ids, if EverRedrawn(spec.enabled, run, r) then arts else Flipped(arts))
         && (arts != Flipped(arts) ==>
               (Matches(d.pic.shapes, d.regions[r].ids, Flipped(arts)) <==> !EverRedrawn(spec.enabled, run, r)))
  {
    LifeKeeps(spec, pic, next, run);
    TouchedIff(spec.enabled, run, r);
    var d := Lived(spec, pic, next, run);
    assert Shown(spec, d, LookOf(spec, d, TouchedBy(None, spec.enabled, run)), r);
    assert SameForm(spec.draw(r, false), spec.draw(r, true)) && Fits(d.regions[r], spec.draw(r, false));
    var arts := spec.draw(r, Lit(d.current, spec.enabled) == Some(r)).arts;
    MatchesUnique(d.pic.shapes, d.regions[r].ids, arts, Flipped(arts));
  }

  lemma MatchesUnique<A>(shapes: map<int, Shape<A>>, ids: seq<int>, a: seq<A>, b: seq<A>)
    ensures Matches(shapes, ids, a) && Matches(shapes, ids, b) ==> a == b
  {
  }

  /** The mouse comes to region `r` and leaves the chart. */
  function Visit<A>(r: int): seq<Happening<A>> {
    [Mouse(Move(Some(r))), Mouse(Clear)]
  }

  /** One visit turns a stack around for good. */
  lemma {:induction false} VisitFlips<A>(spec: Spec<A>, pic: Picture<A>, next: nat, r: int)
    requires Uniform(spec) && Consistent(pic) && Below(pic.order, next)
    requires spec.enabled && InRange(spec, r) && spec.draw(r, false).Stack?
    ensures Liveable(spec, pic, next, []) && Liveable(spec, pic, next, Visit(r))
    ensures var before, after := Lived(spec, pic, next, []), Lived(spec, pic, next, Visit(r));
      && r in before.regions && before.regions[r].Many?
      && Matches(before.pic.shapes, before.regions[r].ids, Flipped(spec.draw(r, false).arts))
      && r in after.regions && after.regions[r].Many?
      && Matches(after.pic.shapes, after.regions[r].ids, spec.draw(r, false).arts)
  {
    RenderEstablishes(spec, pic, next);
    var c := Rendered(spec, Chart(pic, next, map[], None), spec.count);
    MouseOnly(spec, c, Visit(r));
    RenderedCurrent(spec, Chart(pic, next, map[], None), spec.count);
    RunCurrent(spec, c, Visit(r));
    assert CurrentFrom(None, Visit<A>(r)) == None by {
      var rest := Visit<A>(r)[1..];
      assert rest == [Mouse(Clear)] && rest[1..] == [];
      assert CurrentFrom(Some(r), rest) == CurrentFrom(None, rest[1..]);
    }
    StackOrderIff(spec, pic, next, [], r);
    StackOrderIff(spec, pic, next, Visit(r), r);
    assert Redraws(true, Visit<A>(r), 0, r);
  }

  /** A page with one chart of one bar with two segments. */
  function TwoSegments(): Spec<int> {
    Spec(1, true, (r: int, h: bool) => if h then Stack([10, 11]) else Stack([0, 1]))
  }

  function EmptyCanvas<A>(): Picture<A> {
    Picture(map[], [], None)
  }

  /** Segment 1 is drawn before segment 0 at first, and after it once the mouse has been there. */
  lemma {:induction false} StackFlips()
    ensures Liveable(TwoSegments(), EmptyCanvas(), 0, []) && Liveable(TwoSegments(), EmptyCanvas(), 0, Visit(0))
    ensures var before, after := Lived(TwoSegments(), EmptyCanvas(), 0, []), Lived(TwoSegments(), EmptyCanvas(), 0, Visit(0));
      && 0 in before.regions && before.regions[0].Many? && Matches(before.pic.shapes, before.regions[0].ids, [1, 0])
      && 0 in after.regions && after.regions[0].Many? && Matches(after.pic.shapes, after.regions[0].ids, [0, 1])
  {
    assert Flipped([0, 1]) == [1, 0] by {
      assert [0, 1][1..] == [1] && [1][1..] == [];
      assert Flipped([1]) == [1];
    }
    VisitFlips(TwoSegments(), EmptyCanvas(), 0, 0);
  }

  lemma {:induction false} MouseOnly<A>(spec: Spec<A>, c: Chart<A>, run: seq<Happening<A>>)
    requires Formed(spec, c.regions) && forall i :: 0 <= i < |run| ==> run[i].Mouse?
    ensures Possible(spec, c, run)
    decreases |run|
  {
    if run != [] {
      MouseOnly(spec, Play(spec, c, run[0]), run[1..]);
    }
  }

  lemma {:induction false} RunCurrent<A>(spec: Spec<A>, c: Chart<A>, run: seq<Happening<A>>)
    requires Formed(spec, c.regions)
    ensures Run(spec, c, run).current == CurrentFrom(c.current, run)
    decreases |run|
  {
    if run != [] {
      RunCurrent(spec, Play(spec, c, run[0]), run[1..]);
    }
  }

  // ----- the region with id 0 --------------------------------------------------------------

  predicate DrawsNothing<A>(d: Drawing<A>) {
    d.Nothing? || (d.Stack? && d.arts == [])
  }

  lemma {:induction false} RenderedAbove<A>(spec: Spec<A>, c: Chart<A>, n: nat, r: int)
    requires n <= r && r in c.regions
    ensures r in Rendered(spec, c, n).regions && Rendered(spec, c, n).regions[r] == c.regions[r]
    decreases n
  {
    if n > 0 {
      RenderedAbove(spec, RenderRegion(spec, c, n - 1), n - 1, r);
    }
  }

  /** Which region gets id 0: the first one drawn, if it is one shape and the page has drawn nothing before. */
  lemma {:induction false} RenderedZeroIff<A>(spec: Spec<A>, c: Chart<A>, n: nat, r: int)
    requires 0 <= r < n
    ensures r in Rendered(spec, c, n).regions
    ensures Rendered(spec, c, n).regions[r] == One(0)
       <==> c.next == 0 && spec.draw(r, false).Single? && forall k :: r < k < n ==> DrawsNothing(spec.draw(k, false))
    ensures Rendered(spec, c, n).next >= c.next
    ensures spec.draw(r, false).Single? ==> Rendered(spec, c, n).next > 0
    decreases n
  {
    var d := RenderRegion(spec, c, n - 1);
    RenderedNext(spec, d, n - 1);
    if r == n - 1 {
      RenderedAbove(spec, d, n - 1, r);
    } else {
      RenderedZeroIff(spec, d, n - 1, r);
      assert d.next == 0 <==> c.next == 0 && DrawsNothing(spec.draw(n - 1, false));
    }
  }

  lemma {:induction false} RenderedNext<A>(spec: Spec<A>, c: Chart<A>, n: nat)
    ensures Rendered(spec, c, n).next >= c.next
    decreases n
  {
    if n > 0 {
      RenderedNext(spec, RenderRegion(spec, c, n - 1), n - 1);
    }
  }

  /** Once the page has drawn something, a region has id 0 after a run exactly if it had it before. */
  lemma {:induction false} ZeroIdStaysIff<A>(spec: Spec<A>, c: Chart<A>, run: seq<Happening<A>>, r: int)
    requires Formed(spec, c.regions) && Possible(spec, c, run) && r in c.regions && c.next > 0
    ensures r in Run(spec, c, run).regions
    ensures Run(spec, c, run).regions[r] == One(0) <==> c.regions[r] == One(0)
    decreases |run|
  {
    if run != [] {
      if run[0].Mouse? {
        ZeroIdApplyIff(spec, c, Plan(c.current, run[0].event, spec.enabled), r);
      }
      ZeroIdStaysIff(spec, Play(spec, c, run[0]), run[1..], r);
    }
  }

  lemma {:induction false} ZeroIdApplyIff<A>(spec: Spec<A>, c: Chart<A>, changes: seq<Change<int>>, r: int)
    requires Formed(spec, c.regions) && r in c.regions && c.next > 0
    ensures var d := Apply(spec, c, changes);
      d.next > 0 && r in d.regions && (d.regions[r] == One(0) <==> c.regions[r] == One(0))
    decreases |changes|
  {
    if changes != [] {
      ZeroIdApplyIff(spec, ChangeHighlight(spec, c, changes[0].region, changes[0].highlight), changes[1..], r);
    }
  }

  /**
   * Whether hovering works: a bar of one shape that is current is drawn highlighted exactly unless it
   * is the first shape the page ever drew.
   */
  lemma {:induction false} HighlightedIff<A>(spec: Spec<A>, pic: Picture<A>, next: nat, run: seq<Happening<A>>, r: int)
    requires Liveable(spec, pic, next, run) && InRange(spec, r) && spec.enabled
    requires spec.draw(r, false).Single? && spec.draw(r, false) != spec.draw(r, true)
    requires Lived(spec, pic, next, run).current == Some(r)
    ensures var d := Lived(spec, pic, next, run);
      && r in d.regions && d.regions[r].One? && d.regions[r].id in d.pic.shapes && spec.draw(r, true).Single?
      && (d.pic.shapes[d.regions[r].id].art == spec.draw(r, true).art <==>
            !(next == 0 && forall k :: r < k < spec.count ==> DrawsNothing(spec.draw(k, false))))
  {
    var c := Rendered(spec, Chart(pic, next, map[], None), spec.count);
    var d := Lived(spec, pic, next, run);
    RenderEstablishes(spec, pic, next);
    LifeKeeps(spec, pic, next, run);
    RenderedZeroIff(spec, Chart(pic, next, map[], None), spec.count, r);
    ZeroIdStaysIff(spec, c, run, r);
    assert Shown(spec, d, LookOf(spec, d, TouchedBy(None, spec.enabled, run)), r);
    assert SameForm(spec.draw(r, false), spec.draw(r, true)) && Fits(d.regions[r], spec.draw(r, false));
    assert [d.regions[r].id][0] == d.regions[r].id;
  }

  /** The last bar of the first chart on a page: whatever the mouse does, it is never drawn highlighted. */
  lemma {:induction false} FirstBarNeverHighlighted<A>(spec: Spec<A>, run: seq<Happening<A>>)
    requires Liveable(spec, EmptyCanvas(), 0, run)
    requires 0 < spec.count && spec.draw(spec.count - 1, false).Single?
    ensures var d, r := Lived(spec, EmptyCanvas(), 0, run), spec.count - 1;
      && r in d.regions && d.regions[r] == One(0) && 0 in d.pic.shapes
      && d.pic.shapes[0].art == spec.draw(r, false).art
  {
    var pic: Picture<A> := EmptyCanvas();
    var r := spec.count - 1;
    var d := Lived(spec, pic, 0, run);
    RenderEstablishes(spec, pic, 0);
    LifeKeeps(spec, pic, 0, run);
    RenderedZeroIff(spec, Chart(pic, 0, map[], None), spec.count, r);
    ZeroIdStaysIff(spec, Rendered(spec, Chart(pic, 0, map[], None), spec.count), run, r);
    assert Shown(spec, d, LookOf(spec, d, TouchedBy(None, spec.enabled, run)), r);
  }

  // ----- the chart object ------------------------------------------------------------------

  class Bars<A> {
    const spec: Spec<A>
    const target: Canvas<A>
    const counter: ShapeCounter
    var regionShapes: map<int, Slot>
    var currentRegion: Option<int>

    ghost function View(): Chart<A>
      reads this, target, counter
    {
      Chart(target.View(), counter.count, regionShapes, currentRegion)
    }

    constructor (spec: Spec<A>, target: Canvas<A>, counter: ShapeCounter)
      ensures View() == Chart(target.View(), counter.count, map[], None)
      ensures this.spec == spec && this.target == target && this.counter == counter
    {
      this.spec := spec;
      this.target := target;
      this.counter := counter;
      regionShapes := map[];
      currentRegion := None;
    }

    method RenderArts(arts: seq<A>) returns (shapes: seq<Shape<A>>)
      modifies counter
      ensures shapes == Generate(arts, old(counter.count)) && counter.count == old(counter.count) + |arts|
    {
      shapes := [];
      for i := 0 to |arts|
        invariant shapes == Generate(arts[..i], old(counter.count)) && counter.count == old(counter.count) + i
      {
        var s := counter.GenShape(arts[i]);
        shapes := shapes + [s];
      }
      assert arts[..|arts|] == arts;
    }

    method RenderChart()
      requires regionShapes == map[] && currentRegion == None
      modifies this, target, counter
      ensures View() == Rendered(spec, old(View()), spec.count)
    {
      var i := spec.count;
      while i > 0
        invariant 0 <= i <= spec.count
        invariant Rendered(spec, View(), i) == Rendered(spec, old(View()), spec.count)
      {
        i := i - 1;
        match spec.draw(i, false)
        case Nothing => regionShapes := regionShapes[i := Empty];
        case Single(art) =>
          var s := counter.GenShape(art);
          var id := target.AppendShape(s);
          regionShapes := regionShapes[i := One(id)];
        case Stack(arts) => RenderStack(i, arts);
      }
    }

    method RenderStack(i: int, arts: seq<A>)
      requires spec.draw(i, false) == Stack(arts)
      modifies this, target, counter
      ensures View() == RenderRegion(spec, old(View()), i)
    {
      var shapes := RenderArts(arts);
      var ids := [];
      var j := |shapes|;
      assert shapes[j..] == [];
      while j > 0
        invariant 0 <= j <= |shapes|
        invariant target.View() == AppendBackwards(old(target.View()), shapes[j..])
        invariant ids == Flipped(Ids(shapes[j..]))
        invariant counter.count == old(counter.count) + |arts|
        invariant regionShapes == old(regionShapes) && currentRegion == old(currentRegion)
      {
        j := j - 1;
        assert shapes[j..][1..] == shapes[j + 1..];
        assert Ids(shapes[j..])[1..] == Ids(shapes[j + 1..]);
        var id := target.AppendShape(shapes[j]);
        ids := ids + [id];
      }
      assert shapes[0..] == shapes;
      regionShapes := regionShapes[i := Many(ids)];
    }

    method ChangeCurrent(highlight: bool)
      requires currentRegion.Some? && Formed(spec, regionShapes)
      modifies this, target, counter
      ensures View() == ChangeHighlight(spec, old(View()), old(currentRegion).value, highlight)
      ensures Formed(spec, regionShapes)
    {
      var r := currentRegion.value;
      if r in regionShapes {
        assert SameForm(spec.draw(r, false), spec.draw(r, true));
        match regionShapes[r]
        case Empty =>
        case One(id) =>
          if id != 0 {
            var s := counter.GenShape(spec.draw(r, highlight).art);
            target.ReplaceWithShape(id, s);
            regionShapes := regionShapes[r := One(s.id)];
          }
        case Many(ids) =>
          var news := RenderArts(spec.draw(r, highlight).arts);
          target.ReplaceWithShapes(ids, news);
          regionShapes := regionShapes[r := Many(Ids(news))];
      }
    }

    /** `point` is what `getRegion` answers, or `None` for a point off the canvas. */
    method SetRegionHighlight(point: Option<Option<int>>) returns (changed: Option<bool>)
      requires Formed(spec, regionShapes)
      modifies this, target, counter
      ensures var e := if point == None then Outside else Move(point.value);
        && View() == Handle(spec, old(View()), e)
        && changed == Answer(old(currentRegion), e)
      ensures point == None ==> changed == None && currentRegion == old(currentRegion)
      ensures point.Some? ==> changed == Some(currentRegion != old(currentRegion)) && currentRegion == point.value
      ensures Formed(spec, regionShapes)
    {
      if point == None {
        return None;
      }
      var region := point.value;
      ghost var start := View();
      if currentRegion != region {
        ghost var changes := Plan(currentRegion, Move(region), spec.enabled);
        if currentRegion.Some? && spec.enabled {
          ChangeCurrent(false);
          assert View() == ChangeHighlight(spec, start, changes[0].region, changes[0].highlight);
        }
        currentRegion := region;
        ghost var middle := View();
        if region.Some? && spec.enabled {
          ChangeCurrent(true);
        }
        Unfolded(spec, start, middle, region);
        return Some(true);
      }
      return Some(false);
    }

    static lemma Unfolded(spec: Spec<A>, start: Chart<A>, middle: Chart<A>, region: Option<int>)
      requires Formed(spec, start.regions) && Formed(spec, middle.regions) && start.current != region
      requires middle == (if start.current.Some? && spec.enabled then ChangeHighlight(spec, start, start.current.value, false) else start)
                         .(current := region)
      ensures Handle(spec, start, Move(region)) ==
        if region.Some? && spec.enabled then ChangeHighlight(spec, middle, region.value, true) else middle
    {
      var changes := Plan(start.current, Move(region), spec.enabled);
      if |changes| == 2 {
        var d := ChangeHighlight(spec, start, start.current.value, false);
        assert changes[1..] == [Change(region.value, true)];
        ApplyOne(spec, d, Change(region.value, true));
      } else if |changes| == 1 {
        ApplyOne(spec, start, changes[0]);
        assert changes == [changes[0]];
      }
    }

    static lemma ApplyOne(spec: Spec<A>, c: Chart<A>, change: Change<int>)
      requires Formed(spec, c.regions)
      ensures Apply(spec, c, [change]) == ChangeHighlight(spec, c, change.region, change.highlight)
    {
      var d := ChangeHighlight(spec, c, change.region, change.highlight);
      assert Apply(spec, d, [change][1..]) == d;
    }

    method ClearRegionHighlight() returns (changed: bool)
      requires Formed(spec, regionShapes)
      modifies this, target, counter
      ensures View() == Handle(spec, old(View()), Clear)
      ensures Some(changed) == Answer(old(currentRegion), Clear)
      ensures changed == (currentRegion != old(currentRegion)) && currentRegion == None
      ensures Formed(spec, regionShapes)
    {
      if currentRegion.Some? {
        ApplyOne(spec, View(), Change(currentRegion.value, false));
        ChangeCurrent(false);
        currentRegion := None;
        return true;
      }
      return false;
    }
  }
}
