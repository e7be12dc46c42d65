/**
 * The retained display list of a canvas (jquery.sparkline.js, VCanvas_canvas).
 *
 * A canvas keeps every shape twice: in the map `shapes`, keyed by shape id, and as an id in the
 * drawing order `shapeseq`. Charts edit both in place. The value-level functions below say what
 * each edit does; `Canvas` performs the edits with the loops and splices of the original.
 */
module DisplayList {
  import opened Sequences

  datatype Shape<A> = Shape(id: int, art: A)

  datatype Picture<A> = Picture(shapes: map<int, Shape<A>>, order: seq<int>, last: Option<int>)

  /** The two halves of the display list agree. */
  ghost predicate Consistent<A>(p: Picture<A>) {
    && NoDup(p.order)
    && (forall id :: id in p.order <==> id in p.shapes)
    && (forall id :: id in p.shapes ==> p.shapes[id].id == id)
  }

  /** Every id was handed out by a counter that now stands at `next`. */
  ghost predicate Below(order: seq<int>, next: int) {
    forall id :: id in order ==> 0 <= id < next
  }

  // ----- what each edit does ---------------------------------------------------------------

  function Append<A>(p: Picture<A>, s: Shape<A>): Picture<A> {
    Picture(p.shapes[s.id := s], p.order + [s.id], Some(s.id))
  }

  function Substitute(order: seq<int>, was: int, now: int): (r: seq<int>)
    ensures |r| == |order|
    ensures forall i :: 0 <= i < |r| ==> r[i] == if order[i] == was then now else order[i]
  {
    seq(|order|, i requires 0 <= i < |order| => if order[i] == was then now else order[i])
  }

  function ReplaceOne<A>(p: Picture<A>, was: int, s: Shape<A>): Picture<A> {
    p.(shapes := p.shapes[s.id := s] - {was}, order := Substitute(p.order, was, s.id))
  }

  function Ids<A>(shapes: seq<Shape<A>>): (r: seq<int>)
    ensures |r| == |shapes|
    ensures forall i :: 0 <= i < |r| ==> r[i] == shapes[i].id
  {
    seq(|shapes|, i requires 0 <= i < |shapes| => shapes[i].id)
  }

  /** `m` after storing each shape under its id, the last shape first. */
  function StoreAll<A>(m: map<int, Shape<A>>, shapes: seq<Shape<A>>): map<int, Shape<A>> {
    if shapes == [] then m else StoreAll(m, shapes[1..])[shapes[0].id := shapes[0]]
  }

  /** Where the first replaced id stood; position 0 when none of them is present. */
  function Landing(order: seq<int>, olds: set<int>): (k: nat)
    ensures k <= |order|
  {
    var k := FirstIndex(order, olds);
    if k < |order| then k else 0
  }

  function ReplaceMany<A>(p: Picture<A>, olds: set<int>, news: seq<Shape<A>>): Picture<A> {
    var k := Landing(p.order, olds);
    p.(shapes := StoreAll(p.shapes - (olds * Elements(p.order)), news),
       order := Without(p.order[..k], olds) + Ids(news) + Without(p.order[k..], olds))
  }

  function InsertAfter<A>(p: Picture<A>, anchor: int, s: Shape<A>): Picture<A> {
    var k := LastIndex(p.order, anchor);
    if k < 0 then p
    else p.(shapes := p.shapes[s.id := s], order := p.order[..k + 1] + [s.id] + p.order[k + 1..])
  }

  function Remove<A>(p: Picture<A>, id: int): Picture<A> {
    p.(shapes := p.shapes - {id}, order := RemoveAt(p.order, LastIndex(p.order, id)))
  }

  function AfterRender<A>(p: Picture<A>, interact: bool): Picture<A> {
    if interact then p else p.(shapes := map[], order := [])
  }

  // ----- each edit keeps the list consistent -----------------------------------------------

  lemma AppendConsistent<A>(p: Picture<A>, s: Shape<A>)
    requires Consistent(p) && s.id !in p.order
    ensures Consistent(Append(p, s))
  {
    NoDupConcat(p.order, [s.id]);
    assert forall id :: id in Append(p, s).order <==> id in p.order || id == s.id;
  }

  /** Shapes with ids of their own that are not on the canvas. */
  ghost predicate Fresh<A>(p: Picture<A>, news: seq<Shape<A>>) {
    NoDup(Ids(news)) && forall i :: 0 <= i < |news| ==> news[i].id !in p.order
  }

  ghost predicate Stored<A>(m: map<int, Shape<A>>, news: seq<Shape<A>>) {
    forall i :: 0 <= i < |news| ==> news[i].id in m && m[news[i].id] == news[i]
  }

  /** Replacing one shape is safe exactly when the replaced id is on the canvas. */
  lemma ReplaceOneConsistentIff<A>(p: Picture<A>, was: int, s: Shape<A>)
    requires Consistent(p) && s.id !in p.order
    ensures Consistent(ReplaceOne(p, was, s)) <==> was in p.order || s.id == was
  {
    var q := ReplaceOne(p, was, s);
    NoDupPairs(p.order);
    NoDupPairs(q.order);
    if was in p.order {
      var k :| 0 <= k < |p.order| && p.order[k] == was;
      assert q.order[k] == s.id;
      assert forall i :: 0 <= i < |p.order| && i != k ==> p.order[i] != was;
      forall id ensures id in q.order <==> id in q.shapes {
        if id in p.order && id != was {
          var i :| 0 <= i < |p.order| && p.order[i] == id;
          assert q.order[i] == id;
        }
      }
    } else {
      assert q.order == p.order;
      assert s.id != was ==> s.id in q.shapes && s.id !in q.order;
    }
  }

  lemma {:induction false} StoreAllContents<A>(m: map<int, Shape<A>>, shapes: seq<Shape<A>>)
    requires NoDup(Ids(shapes))
    ensures var r := StoreAll(m, shapes);
      && r.Keys == m.Keys + Elements(Ids(shapes))
      && Stored(r, shapes)
      && (forall id :: id in m && id !in Ids(shapes) ==> r[id] == m[id])
  {
    if shapes != [] {
      assert Ids(shapes) == [shapes[0].id] + Ids(shapes[1..]);
      NoDupConcat([shapes[0].id], Ids(shapes[1..]));
      StoreAllContents(m, shapes[1..]);
      var r := StoreAll(m, shapes);
      forall i | 0 <= i < |shapes| ensures shapes[i].id in r && r[shapes[i].id] == shapes[i] {
        if i > 0 {
          assert shapes[i] == shapes[1..][i - 1];
          assert shapes[i].id == Ids(shapes)[i] && shapes[0].id == Ids(shapes)[0];
        }
      }
    }
  }

  lemma SplitWithout(order: seq<int>, drop: set<int>)
    ensures var k := Landing(order, drop);
      && Without(order, drop) == order[..k] + Without(order[k..], drop)
      && Without(order[..k], drop) == order[..k]
  {
    var k := Landing(order, drop);
    assert order == order[..k] + order[k..];
    WithoutConcat(order[..k], order[k..], drop);
    WithoutNone(order[..k], drop);
  }

  /** "Filter out the old ids and put the new ones, in order, where the first old one stood." */
  lemma ReplaceManyOrder<A>(p: Picture<A>, olds: set<int>, news: seq<Shape<A>>)
    ensures var k := Landing(p.order, olds);
      && ReplaceMany(p, olds, news).order == p.order[..k] + Ids(news) + Without(p.order[k..], olds)
      && Without(p.order, olds) == p.order[..k] + Without(p.order[k..], olds)
  {
    SplitWithout(p.order, olds);
  }

  /** The same without naming a position: in front of everything if no old id is there, else in place of the first. */
  lemma ReplaceManyPlaces<A>(p: Picture<A>, olds: set<int>, news: seq<Shape<A>>, a: seq<int>, x: int, b: seq<int>)
    requires p.order == a + [x] + b && x in olds && forall id :: id in a ==> id !in olds
    ensures ReplaceMany(p, olds, news).order == a + Ids(news) + Without(b, olds)
  {
    var k := Landing(p.order, olds);
    assert p.order[|a|] == x && forall i :: 0 <= i < |a| ==> p.order[i] == a[i];
    assert k == |a|;
    ReplaceManyOrder(p, olds, news);
    assert p.order[..k] == a && p.order[k..] == [x] + b;
    assert ([x] + b)[1..] == b;
  }

  lemma ReplaceNonePlaces<A>(p: Picture<A>, olds: set<int>, news: seq<Shape<A>>)
    requires forall i :: 0 <= i < |p.order| ==> p.order[i] !in olds
    ensures ReplaceMany(p, olds, news).order == Ids(news) + p.order
  {
    NothingToDrop(p.order, olds);
    assert ReplaceMany(p, olds, news).order == p.order[..0] + Ids(news) + p.order[0..] by {
      assert p.order[0..] == p.order;
    }
    FromTheFront(p.order, Ids(news));
  }

  lemma FromTheFront(order: seq<int>, ids: seq<int>)
    ensures order[..0] + ids + order[0..] == ids + order
  {
    assert order[0..] == order && order[..0] == [];
  }

  lemma {:induction false} NothingToDrop(order: seq<int>, olds: set<int>)
    requires forall i :: 0 <= i < |order| ==> order[i] !in olds
    ensures Landing(order, olds) == 0 && Without(order, olds) == order
  {
    if order != [] {
      NothingToDrop(order[1..], olds);
      assert order == [order[0]] + order[1..];
    }
  }

  /**
   * The single edits, place by place: an inserted shape comes directly after its anchor and a removed id
   * leaves the others as they were; an absent anchor, or an absent id, changes nothing in the order.
   */
  lemma {:induction false} EditsPlaced<A>(p: Picture<A>, a: seq<int>, x: int, b: seq<int>, s: Shape<A>)
    requires Consistent(p) && p.order == a + [x] + b
    ensures InsertAfter(p, x, s).order == a + [x, s.id] + b && InsertAfter(p, x, s).shapes == p.shapes[s.id := s]
    ensures Remove(p, x).order == a + b && Remove(p, x).shapes == p.shapes - {x}
    ensures ReplaceOne(p, x, s).order == a + [s.id] + b
    ensures s.id != x ==> ReplaceOne(p, x, s).shapes == p.shapes[s.id := s] - {x}
  {
    FoundAt(a, x, b);
    CutAt(a, x, b, s.id);
    SubstitutePlace(a, x, b, s.id);
  }

  lemma FoundAt(a: seq<int>, x: int, b: seq<int>)
    requires NoDup(a + [x] + b)
    ensures LastIndex(a + [x] + b, x) == |a|
  {
    var order := a + [x] + b;
    NoDupPairs(order);
    assert order[|a|] == x;
  }

  lemma CutAt(a: seq<int>, x: int, b: seq<int>, id: int)
    ensures var order, k := a + [x] + b, |a|;
      order[..k + 1] + [id] + order[k + 1..] == a + [x, id] + b && order[..k] + order[k + 1..] == a + b
  {
    var order, k := a + [x] + b, |a|;
    assert order[..k + 1] == a + [x] && order[k + 1..] == b && order[..k] == a;
  }

  lemma SubstitutePlace(a: seq<int>, x: int, b: seq<int>, id: int)
    requires NoDup(a + [x] + b)
    ensures Substitute(a + [x] + b, x, id) == a + [id] + b
  {
    var order := a + [x] + b;
    NoDupPairs(order);
    assert order[|a|] == x;
    forall i | 0 <= i < |order| && i != |a| ensures order[i] != x {
      assert order[i] != order[|a|];
    }
  }

  lemma AbsentChangesNothing<A>(p: Picture<A>, x: int, s: Shape<A>)
    requires Consistent(p) && x !in p.order
    ensures InsertAfter(p, x, s) == p && Remove(p, x) == p
    ensures ReplaceOne(p, x, s).order == p.order
  {
    assert LastIndex(p.order, x) == -1;
    assert x !in p.shapes;
    assert p.shapes - {x} == p.shapes;
  }

  lemma ReplaceManyConsistent<A>(p: Picture<A>, olds: set<int>, news: seq<Shape<A>>)
    requires Consistent(p)
    requires Fresh(p, news)
    ensures Consistent(ReplaceMany(p, olds, news))
  {
    var q := ReplaceMany(p, olds, news);
    var k := Landing(p.order, olds);
    var kept := p.shapes - (olds * Elements(p.order));
    var back := Without(p.order[k..], olds);
    ReplaceManyOrder(p, olds, news);
    WithoutNoDup(p.order, olds);
    NoDupConcat(p.order[..k], back);
    StoreAllContents(kept, news);
    forall x ensures x in p.order[..k] + back <==> x in p.order && x !in olds {
      WithoutMember(p.order, olds, x);
    }
    forall x | x in Ids(news) ensures x !in p.order {
      var i :| 0 <= i < |news| && Ids(news)[i] == x;
    }
    assert forall x :: x in p.order[..k] + back <==> x in p.order[..k] || x in back;
    NoDupConcat(p.order[..k], Ids(news));
    NoDupConcat(p.order[..k] + Ids(news), back);
    forall id ensures id in q.order <==> id in q.shapes {
      assert id in q.order <==> id in p.order[..k] || id in Ids(news) || id in back;
    }
    forall id | id in q.shapes ensures q.shapes[id].id == id {
      if id in Ids(news) {
        var i :| 0 <= i < |news| && Ids(news)[i] == id;
      }
    }
  }

  lemma InsertAfterConsistent<A>(p: Picture<A>, anchor: int, s: Shape<A>)
    requires Consistent(p) && s.id !in p.order
    ensures Consistent(InsertAfter(p, anchor, s))
  {
    var k := LastIndex(p.order, anchor);
    if k >= 0 {
      var a, b := p.order[..k + 1], p.order[k + 1..];
      assert p.order == a + b;
      NoDupConcat(a, b);
      NoDupConcat(a, [s.id]);
      NoDupConcat(a + [s.id], b);
      assert forall id :: id in a + [s.id] + b <==> id in p.order || id == s.id;
    }
  }

  lemma RemoveConsistent<A>(p: Picture<A>, id: int)
    requires Consistent(p)
    ensures Consistent(Remove(p, id)) && Remove(p, id).order == Without(p.order, {id})
  {
    RemoveAtIsWithout(p.order, id);
    WithoutNoDup(p.order, {id});
    forall x ensures x in Without(p.order, {id}) <==> x in p.order && x != id {
      WithoutMember(p.order, {id}, x);
    }
  }

  // ----- edits seen as rewriting one block of the list -------------------------------------

  /** `q` is `p` with the block between `front` and `back` replaced by `news`, and nothing else touched. */
  ghost predicate Rewritten<A>(p: Picture<A>, q: Picture<A>, front: seq<int>, back: seq<int>, news: seq<Shape<A>>) {
    && Consistent(q)
    && q.order == front + Ids(news) + back
    && q.last == p.last
    && Stored(q.shapes, news)
    && (forall id :: id in p.shapes && id in front + back ==> id in q.shapes && q.shapes[id] == p.shapes[id])
  }

  lemma LandingOfBlock(front: seq<int>, block: seq<int>, back: seq<int>)
    requires NoDup(front + block + back) && block != []
    ensures var order := front + block + back;
      && Landing(order, Elements(block)) == |front|
      && Without(order[..|front|], Elements(block)) == front
      && Without(order[|front|..], Elements(block)) == back
  {
    var order, olds := front + block + back, Elements(block);
    NoDupConcat(front + block, back);
    NoDupConcat(front, block);
    assert FirstIndex(order, olds) == |front| by {
      assert order[|front|] == block[0];
      assert forall i :: 0 <= i < |front| ==> order[i] in front;
    }
    assert order[..|front|] == front && order[|front|..] == block + back;
    WithoutConcat(block, back, olds);
    WithoutAll(block, olds);
    WithoutNone(back, olds);
    WithoutNone(front, olds);
  }

  lemma {:induction false} RewriteMany<A>(p: Picture<A>, front: seq<int>, block: seq<int>, back: seq<int>, news: seq<Shape<A>>)
    requires Consistent(p) && p.order == front + block + back
    requires Fresh(p, news)
    requires block == [] ==> news == []
    ensures Rewritten(p, ReplaceMany(p, Elements(block), news), front, back, news)
  {
    var olds := Elements(block);
    var q := ReplaceMany(p, olds, news);
    ReplaceManyConsistent(p, olds, news);
    assert q.order == front + Ids(news) + back by {
      if block == [] {
        assert Landing(p.order, olds) == 0;
        WithoutNone(p.order, olds);
        assert p.order[..0] == [] && p.order[0..] == p.order;
      } else {
        LandingOfBlock(front, block, back);
      }
    }
    RewriteManyShapes(p, front, block, back, news);
  }

  lemma RewriteManyShapes<A>(p: Picture<A>, front: seq<int>, block: seq<int>, back: seq<int>, news: seq<Shape<A>>)
    requires Consistent(p) && p.order == front + block + back
    requires Fresh(p, news)
    ensures var q := ReplaceMany(p, Elements(block), news);
      && Stored(q.shapes, news)
      && (forall id :: id in p.shapes && id in front + back ==> id in q.shapes && q.shapes[id] == p.shapes[id])
  {
    var kept := p.shapes - (Elements(block) * Elements(p.order));
    StoreAllContents(kept, news);
    NoDupConcat(front + block, back);
    NoDupConcat(front, block);
    forall id | id in p.shapes && id in front + back ensures id in kept && id !in Ids(news) {
      assert id in front || id in back;
      assert forall i :: 0 <= i < |news| ==> Ids(news)[i] != id;
    }
  }

  lemma RewriteOne<A>(p: Picture<A>, front: seq<int>, was: int, back: seq<int>, s: Shape<A>)
    requires Consistent(p) && p.order == front + [was] + back
    requires s.id !in p.order
    ensures Rewritten(p, ReplaceOne(p, was, s), front, back, [s])
  {
    var q := ReplaceOne(p, was, s);
    assert p.order[|front|] == was;
    ReplaceOneConsistentIff(p, was, s);
    NoDupConcat(front + [was], back);
    NoDupConcat(front, [was]);
    assert q.order == front + [s.id] + back by {
      forall i | 0 <= i < |q.order| ensures q.order[i] == (front + [s.id] + back)[i] {
        if i < |front| {
          assert p.order[i] == front[i] && front[i] in front;
        } else if i > |front| {
          assert p.order[i] == back[i - |front| - 1] && p.order[i] in back;
        }
      }
    }
    assert Ids([s]) == [s.id];
  }

  // ----- runs ------------------------------------------------------------------------------

  /**
   * A canvas, the page-wide shape counter, and the shapes that were drawn for this canvas but
   * are not on it yet (`_genShape` only creates the object).
   */
  datatype World<A> = World(pic: Picture<A>, next: nat, loose: map<int, Shape<A>>)

  datatype Edit<A> =
    | GenShape(art: A)
    | AppendShape(id: int)
    | ReplaceWithShape(was: int, id: int)
    | ReplaceWithShapes(olds: set<int>, ids: seq<int>)
    | InsertAfterShape(anchor: int, id: int)
    | RemoveShapeId(id: int)
    | Reset
    | Render(interact: bool)
    | Elsewhere(drawn: nat)   // shapes generated by other canvases

  /** Every placed shape was generated by `GenShape` and is placed once; a replaced id is present. */
  predicate Enabled<A>(w: World<A>, e: Edit<A>) {
    match e
    case AppendShape(id) => id in w.loose
    case ReplaceWithShape(was, id) => was in w.pic.order && id in w.loose
    case ReplaceWithShapes(_, ids) =>
      && (forall i :: 0 <= i < |ids| ==> ids[i] in w.loose)
      && (forall i, j :: 0 <= i < j < |ids| ==> ids[i] != ids[j])
    case InsertAfterShape(_, id) => id in w.loose
    case _ => true
  }

  function Pick<A>(m: map<int, Shape<A>>, ids: seq<int>): (r: seq<Shape<A>>)
    requires forall i :: 0 <= i < |ids| ==> ids[i] in m
    ensures |r| == |ids|
    ensures forall i :: 0 <= i < |ids| ==> r[i] == m[ids[i]]
  {
    seq(|ids|, i requires 0 <= i < |ids| => m[ids[i]])
  }

  function Step<A>(w: World<A>, e: Edit<A>): World<A>
    requires Enabled(w, e)
  {
    match e
    case GenShape(art) => w.(next := w.next + 1, loose := w.loose[w.next := Shape(w.next, art)])
    case AppendShape(id) => w.(pic := Append(w.pic, w.loose[id]), loose := w.loose - {id})
    case ReplaceWithShape(was, id) => w.(pic := ReplaceOne(w.pic, was, w.loose[id]), loose := w.loose - {id})
    case ReplaceWithShapes(olds, ids) =>
      w.(pic := ReplaceMany(w.pic, olds, Pick(w.loose, ids)), loose := w.loose - Elements(ids))
    case InsertAfterShape(anchor, id) =>
      w.(pic := InsertAfter(w.pic, anchor, w.loose[id]), loose := w.loose - {id})
    case RemoveShapeId(id) => w.(pic := Remove(w.pic, id))
    case Reset => w.(pic := w.pic.(shapes := map[], order := []))
    case Render(interact) => w.(pic := AfterRender(w.pic, interact))
    case Elsewhere(drawn) => w.(next := w.next + drawn)
  }

  predicate Possible<A>(w: World<A>, run: seq<Edit<A>>)
    decreases |run|
  {
    run == [] || (Enabled(w, run[0]) && Possible(Step(w, run[0]), run[1..]))
  }

  function Run<A>(w: World<A>, run: seq<Edit<A>>): World<A>
    requires Possible(w, run)
    decreases |run|
  {
    if run == [] then w else Run(Step(w, run[0]), run[1..])
  }

  /** A fresh canvas on a page that has already generated `next` shapes elsewhere. */
  function Created<A>(next: nat): World<A> {
    World(Picture(map[], [], None), next, map[])
  }

  /** Ids come from the counter, and no loose shape shares an id with a placed one. */
  ghost predicate Sound<A>(w: World<A>) {
    && Consistent(w.pic)
    && Below(w.pic.order, w.next)
    && (forall id :: id in w.loose ==> 0 <= id < w.next && id !in w.pic.order && w.loose[id].id == id)
  }

  lemma SubstituteMember(order: seq<int>, was: int, now: int, x: int)
    requires x in Substitute(order, was, now)
    ensures x == now || (x in order && x != was)
  {
    var i :| 0 <= i < |order| && Substitute(order, was, now)[i] == x;
  }

  lemma {:induction false} StepSound<A>(w: World<A>, e: Edit<A>)
    requires Sound(w) && Enabled(w, e)
    ensures Sound(Step(w, e))
  {
    match e
    case AppendShape(id) => AppendConsistent(w.pic, w.loose[id]);
    case ReplaceWithShape(was, id) =>
      ReplaceOneConsistentIff(w.pic, was, w.loose[id]);
      forall x | x in Substitute(w.pic.order, was, id) ensures x == id || (x in w.pic.order && x != was) {
        SubstituteMember(w.pic.order, was, id, x);
      }
    case ReplaceWithShapes(olds, ids) => StepSoundMany(w, olds, ids);
    case InsertAfterShape(anchor, id) => InsertAfterConsistent(w.pic, anchor, w.loose[id]);
    case RemoveShapeId(id) =>
      RemoveConsistent(w.pic, id);
      forall x ensures x in Without(w.pic.order, {id}) ==> x in w.pic.order {
        WithoutMember(w.pic.order, {id}, x);
      }
    case _ =>
  }

  lemma {:induction false} StepSoundMany<A>(w: World<A>, olds: set<int>, ids: seq<int>)
    requires Sound(w) && Enabled(w, ReplaceWithShapes(olds, ids))
    ensures Sound(Step(w, ReplaceWithShapes(olds, ids)))
  {
    var news := Pick(w.loose, ids);
    forall i | 0 <= i < |ids| ensures Ids(news)[i] == ids[i] {
      var id := ids[i];
      assert w.loose[id].id == id;
    }
    assert Ids(news) == ids;
    NoDupPairs(ids);
    ReplaceManyConsistent(w.pic, olds, news);
    ReplaceManyOrder(w.pic, olds, news);
    var k := Landing(w.pic.order, olds);
    var q := ReplaceMany(w.pic, olds, news);
    forall x | x in q.order ensures x in ids || x in w.pic.order {
      WithoutMember(w.pic.order[k..], olds, x);
      assert x in w.pic.order[..k] || x in ids || x in Without(w.pic.order[k..], olds);
    }
  }

  /** Over every run from canvas creation, the map and the drawing order agree. */
  lemma {:induction false} RunConsistent<A>(w: World<A>, run: seq<Edit<A>>)
    requires Sound(w) && Possible(w, run)
    ensures Sound(Run(w, run))
    decreases |run|
  {
    if run != [] {
      StepSound(w, run[0]);
      RunConsistent(Step(w, run[0]), run[1..]);
    }
  }

  /** Hence `render` never looks up a missing shape, and draws each shape once. */
  lemma RenderNeverMisses<A>(next: nat, run: seq<Edit<A>>)
    requires Possible(Created<A>(next), run)
    ensures var p := Run(Created<A>(next), run).pic;
      && (forall i :: 0 <= i < |p.order| ==> p.order[i] in p.shapes && p.shapes[p.order[i]].id == p.order[i])
      && (forall i, j :: 0 <= i < j < |p.order| ==> p.order[i] != p.order[j])
      && (forall id :: id in p.shapes ==> id in p.order)
  {
    RunConsistent(Created<A>(next), run);
    var p := Run(Created<A>(next), run).pic;
    NoDupPairs(p.order);
    forall i | 0 <= i < |p.order| ensures p.order[i] in p.shapes && p.shapes[p.order[i]].id == p.order[i] {
      var id := p.order[i];
      assert id in p.order;
    }
  }

  /** Rendering an interactive canvas changes nothing; any other canvas forgets its shapes, but not the last id. */
  lemma RenderKeepsInteractive<A>(p: Picture<A>)
    ensures AfterRender(p, true) == p
    ensures AfterRender(p, false).order == [] && AfterRender(p, false).shapes == map[] && AfterRender(p, false).last == p.last
  {
  }

  /** What a reset clears never comes back, whatever is drawn afterwards. */
  lemma {:induction false} ResetClears<A>(w: World<A>, run: seq<Edit<A>>)
    requires Sound(w) && Possible(Step(w, Reset), run)
    ensures Step(w, Reset).pic.order == [] && Step(w, Reset).pic.shapes == map[]
    ensures forall id :: id in w.pic.order ==> id !in Run(Step(w, Reset), run).pic.order
  {
    StepSound(w, Reset);
    forall id | id in w.pic.order ensures id !in Run(Step(w, Reset), run).pic.order {
      NeverBack(Step(w, Reset), run, id);
    }
  }

  /** An id that is neither placed nor waiting to be placed, and has been handed out, is gone for good. */
  lemma {:induction false} NeverBack<A>(w: World<A>, run: seq<Edit<A>>, id: int)
    requires Sound(w) && Possible(w, run) && id < w.next && id !in w.pic.order && id !in w.loose
    ensures id !in Run(w, run).pic.order
    decreases |run|
  {
    if run != [] {
      StepSound(w, run[0]);
      NotPlaced(w, run[0], id);
      NeverBack(Step(w, run[0]), run[1..], id);
    }
  }

  lemma NotPlaced<A>(w: World<A>, e: Edit<A>, id: int)
    requires Sound(w) && Enabled(w, e) && id < w.next && id !in w.pic.order && id !in w.loose
    ensures id < Step(w, e).next && id !in Step(w, e).pic.order && id !in Step(w, e).loose
  {
    match e
    case ReplaceWithShape(was, now) =>
      if id in Substitute(w.pic.order, was, now) {
        SubstituteMember(w.pic.order, was, now, id);
      }
    case ReplaceWithShapes(olds, ids) => NotPlacedMany(w, olds, ids, id);
    case RemoveShapeId(x) =>
      RemoveConsistent(w.pic, x);
      WithoutMember(w.pic.order, {x}, id);
    case _ =>
  }

  lemma NotPlacedMany<A>(w: World<A>, olds: set<int>, ids: seq<int>, id: int)
    requires Sound(w) && Enabled(w, ReplaceWithShapes(olds, ids)) && id !in w.pic.order && id !in w.loose
    ensures id !in Step(w, ReplaceWithShapes(olds, ids)).pic.order
  {
    var news := Pick(w.loose, ids);
    ReplaceManyOrder(w.pic, olds, news);
    var k := Landing(w.pic.order, olds);
    WithoutMember(w.pic.order[k..], olds, id);
    forall i | 0 <= i < |ids| ensures Ids(news)[i] != id {
      var x := ids[i];
      assert w.loose[x].id == x;
    }
  }

  /** Shapes appended one after another. */
  function AppendAll<A>(p: Picture<A>, shapes: seq<Shape<A>>): Picture<A> {
    if shapes == [] then p else Append(AppendAll(p, shapes[..|shapes| - 1]), shapes[|shapes| - 1])
  }

  /** A canvas remembers the shape appended last, and that shape is drawn last. */
  lemma {:induction false} LastAppended<A>(p: Picture<A>, shapes: seq<Shape<A>>)
    ensures AppendAll(p, shapes).order == p.order + Ids(shapes)
    ensures AppendAll(p, shapes).last == if shapes == [] then p.last else Some(shapes[|shapes| - 1].id)
    decreases |shapes|
  {
    if shapes == [] {
      assert p.order + Ids(shapes) == p.order;
    } else {
      var n := |shapes| - 1;
      LastAppended(p, shapes[..n]);
      assert Ids(shapes) == Ids(shapes[..n]) + [shapes[n].id];
    }
  }

  lemma {:induction false} AppendAllConsistent<A>(p: Picture<A>, shapes: seq<Shape<A>>)
    requires Consistent(p) && Fresh(p, shapes)
    ensures Consistent(AppendAll(p, shapes))
    decreases |shapes|
  {
    if shapes != [] {
      var n := |shapes| - 1;
      var front, ids := shapes[..n], Ids(shapes);
      assert ids == Ids(front) + [shapes[n].id];
      NoDupConcat(Ids(front), [shapes[n].id]);
      assert Fresh(p, front);
      AppendAllConsistent(p, front);
      LastAppended(p, front);
      assert shapes[n].id in [shapes[n].id];
      AppendConsistent(AppendAll(p, front), shapes[n]);
    }
  }

  /** Without the presence condition the list breaks: a replaced id that is absent leaves a shape nobody draws. */
  lemma ReplaceAbsentBreaks()
    ensures var p: Picture<int> := Picture(map[], [], None);
      Consistent(p) && !Consistent(ReplaceOne(p, 7, Shape(8, 0)))
  {
    var p: Picture<int> := Picture(map[], [], None);
    ReplaceOneConsistentIff(p, 7, Shape(8, 0));
  }

  lemma SpliceStep(order: seq<int>, at: int, ids: seq<int>, id: int)
    requires 0 <= at <= |order|
    ensures var now := order[..at] + ids + order[at..];
      now[..at] + [id] + now[at..] == order[..at] + ([id] + ids) + order[at..]
  {
    var now := order[..at] + ids + order[at..];
    assert now[..at] == order[..at] && now[at..] == ids + order[at..];
  }

  // ----- the canvas itself -----------------------------------------------------------------

  /** The page-wide counter behind `_genShape`. */
  class ShapeCounter {
    var count: nat

    constructor ()
      ensures count == 0
    {
      count := 0;
    }

    method GenShape<A>(art: A) returns (s: Shape<A>)
      modifies this
      ensures s == Shape(old(count), art) && count == old(count) + 1
    {
      s := Shape(count, art);
      count := count + 1;
    }
  }

  class Canvas<A> {
    var shapes: map<int, Shape<A>>
    var shapeseq: seq<int>
    var lastShapeId: Option<int>
    const interact: bool

    ghost function View(): Picture<A>
      reads this
    {
      Picture(shapes, shapeseq, lastShapeId)
    }

    constructor (interact: bool)
      ensures View() == Created<A>(0).pic && this.interact == interact
    {
      shapes := map[];
      shapeseq := [];
      lastShapeId := None;
      this.interact := interact;
    }

    method ResetCanvas()
      modifies this
      ensures View() == old(View()).(shapes := map[], order := [])
    {
      shapes := map[];
      shapeseq := [];
    }

    method AppendShape(shape: Shape<A>) returns (id: int)
      modifies this
      ensures View() == Append(old(View()), shape) && id == shape.id
    {
      shapes := shapes[shape.id := shape];
      shapeseq := shapeseq + [shape.id];
      lastShapeId := Some(shape.id);
      id := shape.id;
    }

    method ReplaceWithShape(shapeid: int, shape: Shape<A>)
      modifies this
      ensures View() == ReplaceOne(old(View()), shapeid, shape)
    {
      shapes := shapes[shape.id := shape];
      var i := |shapeseq|;
      while i > 0
        invariant 0 <= i <= |shapeseq| == |old(shapeseq)|
        invariant forall j :: 0 <= j < i ==> shapeseq[j] == old(shapeseq)[j]
        invariant forall j :: i <= j < |shapeseq| ==>
          shapeseq[j] == if old(shapeseq)[j] == shapeid then shape.id else old(shapeseq)[j]
        invariant shapes == old(shapes)[shape.id := shape] && lastShapeId == old(lastShapeId)
      {
        i := i - 1;
        if shapeseq[i] == shapeid {
          shapeseq := shapeseq[i := shape.id];
        }
      }
      shapes := shapes - {shapeid};
      assert shapeseq == Substitute(old(shapeseq), shapeid, shape.id);
    }

    method ReplaceWithShapes(shapeids: seq<int>, news: seq<Shape<A>>)
      modifies this
      ensures View() == ReplaceMany(old(View()), Elements(shapeids), news)
    {
      var shapemap := Mark(shapeids);
      var first := RemoveMarked(shapemap);
      SplitWithout(old(shapeseq), shapemap);
      SpliceIn(if first.Some? then first.value else 0, news);
    }

    /** The first loop of `replaceWithShapes`. */
    static method Mark(shapeids: seq<int>) returns (shapemap: set<int>)
      ensures shapemap == Elements(shapeids)
    {
      shapemap := {};
      var i := |shapeids|;
      while i > 0
        invariant 0 <= i <= |shapeids|
        invariant shapemap == Elements(shapeids[i..])
      {
        i := i - 1;
        assert shapeids[i..] == [shapeids[i]] + shapeids[i + 1..];
        shapemap := shapemap + {shapeids[i]};
      }
      assert shapeids[0..] == shapeids;
    }

    /** The last loop of `replaceWithShapes`: splice the new ids in, the last one first. */
    method SpliceIn(at: nat, news: seq<Shape<A>>)
      requires at <= |shapeseq|
      modifies this
      ensures shapeseq == old(shapeseq)[..at] + Ids(news) + old(shapeseq)[at..]
      ensures shapes == StoreAll(old(shapes), news)
      ensures lastShapeId == old(lastShapeId)
    {
      var i := |news|;
      assert news[|news|..] == [];
      while i > 0
        invariant 0 <= i <= |news|
        invariant shapeseq == old(shapeseq)[..at] + Ids(news[i..]) + old(shapeseq)[at..]
        invariant shapes == StoreAll(old(shapes), news[i..])
        invariant lastShapeId == old(lastShapeId)
      {
        i := i - 1;
        assert news[i..] == [news[i]] + news[i + 1..];
        assert Ids(news[i..]) == [news[i].id] + Ids(news[i + 1..]);
        SpliceStep(old(shapeseq), at, Ids(news[i + 1..]), news[i].id);
        shapeseq := shapeseq[..at] + [news[i].id] + shapeseq[at..];
        shapes := shapes[news[i].id := news[i]];
      }
      assert news[0..] == news;
    }

    /** The middle loop of `replaceWithShapes`: splice marked ids out from the back, noting the last splice. */
    method RemoveMarked(shapemap: set<int>) returns (first: Option<int>)
      modifies this
      ensures shapeseq == Without(old(shapeseq), shapemap)
      ensures shapes == old(shapes) - (shapemap * Elements(old(shapeseq)))
      ensures lastShapeId == old(lastShapeId)
      ensures var k := FirstIndex(old(shapeseq), shapemap);
        first == if k < |old(shapeseq)| then Some(k) else None
    {
      first := None;
      var i := |shapeseq|;
      ghost var start := shapeseq;
      assert start[|start|..] == [];
      while i > 0
        invariant 0 <= i <= |start|
        invariant shapeseq == start[..i] + Without(start[i..], shapemap)
        invariant shapes == old(shapes) - (shapemap * Elements(start[i..]))
        invariant lastShapeId == old(lastShapeId)
        invariant var k := FirstIndex(start[i..], shapemap);
          first == if k < |start| - i then Some(i + k) else None
      {
        i := i - 1;
        assert start[i..] == [start[i]] + start[i + 1..];
        var sid := shapeseq[i];
        if sid in shapemap {
          shapeseq := shapeseq[..i] + shapeseq[i + 1..];
          shapes := shapes - {sid};
          first := Some(i);
        }
      }
      assert start[0..] == start;
    }

    method InsertAfterShape(shapeid: int, shape: Shape<A>)
      modifies this
      ensures View() == InsertAfter(old(View()), shapeid, shape)
    {
      var i := |shapeseq|;
      while i > 0
        invariant 0 <= i <= |shapeseq|
        invariant shapeid !in shapeseq[i..]
        invariant View() == old(View())
      {
        i := i - 1;
        if shapeseq[i] == shapeid {
          shapeseq := shapeseq[..i + 1] + [shape.id] + shapeseq[i + 1..];
          shapes := shapes[shape.id := shape];
          assert LastIndex(old(shapeseq), shapeid) == i;
          return;
        }
      }
    }

    method RemoveShapeId(shapeid: int)
      modifies this
      ensures View() == Remove(old(View()), shapeid)
    {
      ghost var start := shapeseq;
      var i := |shapeseq|;
      while i > 0
        invariant 0 <= i <= |shapeseq|
        invariant shapeid !in shapeseq[i..]
        invariant View() == old(View())
      {
        i := i - 1;
        if shapeseq[i] == shapeid {
          shapeseq := shapeseq[..i] + shapeseq[i + 1..];
          assert LastIndex(start, shapeid) == i;
          break;
        }
      }
      shapes := shapes - {shapeid};
    }

    /** Draws the shapes in order; the result is what reaches the canvas context. */
    method RenderAll() returns (drawn: seq<Shape<A>>)
      requires Consistent(View())
      modifies this
      ensures View() == AfterRender(old(View()), interact)
      ensures interact ==> shapes == old(shapes) && shapeseq == old(shapeseq)
      ensures !interact ==> shapes == map[] && shapeseq == []
      ensures lastShapeId == old(lastShapeId)
      ensures |drawn| == |old(shapeseq)|
      ensures forall i :: 0 <= i < |drawn| ==> drawn[i].id == old(shapeseq)[i] && drawn[i] == old(shapes)[drawn[i].id]
    {
      drawn := [];
      var n := |shapeseq|;
      for i := 0 to n
        invariant View() == old(View()) && n == |shapeseq|
        invariant |drawn| == i
        invariant forall j :: 0 <= j < i ==> drawn[j].id == shapeseq[j] && drawn[j] == shapes[drawn[j].id]
      {
        var shapeid := shapeseq[i];
        assert shapeid in shapeseq;
        drawn := drawn + [shapes[shapeid]];
      }
      if !interact {
        shapes := map[];
        shapeseq := [];
      }
    }
  }
}
