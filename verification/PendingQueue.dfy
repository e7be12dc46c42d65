/**
 * Charts waiting for their element to become visible (jquery.sparkline.js, `pending`, the
 * `_jqs_pending` mark and `$.sparkline_display_visible`).
 */
module PendingQueue {
  import opened Sequences

  /** An element and the drawing registered for it; `chart` numbers the registrations. */
  datatype Entry = Entry(element: int, chart: int)

  /** The page while a pass runs: which elements are visible and which are outside the document. */
  datatype Page = Page(visible: set<int>, detached: set<int>)

  /** The queue, the elements carrying the pending mark, and the drawings made so far. */
  datatype State = State(pending: seq<Entry>, marked: set<int>, rendered: seq<Entry>)

  // ----- selecting entries -----------------------------------------------------------------

  /** The entries for `elements`, in order. */
  function Of(q: seq<Entry>, elements: set<int>): seq<Entry> {
    if q == [] then []
    else Of(q[..|q| - 1], elements) + if q[|q| - 1].element in elements then [q[|q| - 1]] else []
  }

  /** The entries for anything but `elements`, in order. */
  function Except(q: seq<Entry>, elements: set<int>): seq<Entry> {
    if q == [] then []
    else Except(q[..|q| - 1], elements) + if q[|q| - 1].element in elements then [] else [q[|q| - 1]]
  }

  function Queued(q: seq<Entry>): set<int> {
    set e | e in q :: e.element
  }

  lemma {:induction false} OfMember(q: seq<Entry>, elements: set<int>, e: Entry)
    ensures e in Of(q, elements) <==> e in q && e.element in elements
  {
    if q != [] {
      assert e in q <==> e in q[..|q| - 1] || e == q[|q| - 1];
      OfMember(q[..|q| - 1], elements, e);
    }
  }

  lemma {:induction false} ExceptMember(q: seq<Entry>, elements: set<int>, e: Entry)
    ensures e in Except(q, elements) <==> e in q && e.element !in elements
  {
    if q != [] {
      assert e in q <==> e in q[..|q| - 1] || e == q[|q| - 1];
      ExceptMember(q[..|q| - 1], elements, e);
    }
  }

  lemma {:induction false} ExceptSplit(a: seq<Entry>, b: seq<Entry>, elements: set<int>)
    ensures Except(a + b, elements) == Except(a, elements) + Except(b, elements)
    decreases |b|
  {
    if b == [] {
      assert a + b == a;
    } else {
      var n := |b| - 1;
      assert (a + b)[..|a + b| - 1] == a + b[..n];
      ExceptSplit(a, b[..n], elements);
    }
  }

  // ----- the two operations as functions of the state ---------------------------------------

  /** A visible element is drawn; a detached one whose mark is gone is dropped. */
  function Leaving(page: Page, marked: set<int>): set<int> {
    page.visible + (page.detached - marked)
  }

  function Pass(s: State, page: Page): State {
    var gone := Leaving(page, s.marked);
    State(Except(s.pending, gone), s.marked - (Queued(s.pending) * gone), s.rendered + Of(s.pending, page.visible))
  }

  /** An earlier registration is replaced unless the chart is composite or the mark is missing. */
  function Register(s: State, e: Entry, hidden: bool, composite: bool): State {
    if !hidden then s.(rendered := s.rendered + [e])
    else
      var kept := if !composite && e.element in s.marked then Except(s.pending, {e.element}) else s.pending;
      State(kept + [e], s.marked + {e.element}, s.rendered)
  }

  // ----- the splicing loops ----------------------------------------------------------------

  /** `splice(k, 1)` */
  function Splice(q: seq<Entry>, k: int): seq<Entry> {
    if 0 <= k < |q| then q[..k] + q[k + 1..] else q
  }

  /** Splicing out `done` from its last index to its first. */
  function SpliceAll(q: seq<Entry>, done: seq<int>): seq<Entry>
    decreases |done|
  {
    if done == [] then q else SpliceAll(Splice(q, done[|done| - 1]), done[..|done| - 1])
  }

  /** The positions below `n` whose element is in `gone`. */
  function Positions(q: seq<Entry>, gone: set<int>, n: int): seq<int>
    requires 0 <= n <= |q|
  {
    if n == 0 then []
    else Positions(q, gone, n - 1) + if q[n - 1].element in gone then [n - 1] else []
  }

  /** Removing from the right never disturbs the positions still to be removed. */
  lemma {:induction false} SpliceAllExact(q: seq<Entry>, gone: set<int>, n: int, rest: seq<Entry>)
    requires 0 <= n <= |q|
    ensures SpliceAll(q[..n] + rest, Positions(q, gone, n)) == Except(q[..n], gone) + rest
    decreases n
  {
    if n == 0 {
      assert q[..n] + rest == rest;
    } else {
      var e := q[n - 1];
      assert q[..n][..n - 1] == q[..n - 1];
      if e.element in gone {
        var done := Positions(q, gone, n);
        assert done[..|done| - 1] == Positions(q, gone, n - 1);
        assert Splice(q[..n] + rest, n - 1) == q[..n - 1] + rest;
        SpliceAllExact(q, gone, n - 1, rest);
      } else {
        assert Positions(q, gone, n) == Positions(q, gone, n - 1);
        assert q[..n] + rest == q[..n - 1] + ([e] + rest);
        SpliceAllExact(q, gone, n - 1, [e] + rest);
      }
    }
  }

  lemma QueuedStep(q: seq<Entry>, n: int)
    requires 0 <= n < |q|
    ensures Queued(q[..n + 1]) == Queued(q[..n]) + {q[n].element}
  {
    assert q[..n + 1] == q[..n] + [q[n]];
    assert q[n] in q[..n + 1];
    forall x | x in Queued(q[..n]) ensures x in Queued(q[..n + 1]) {
      var e :| e in q[..n] && e.element == x;
      assert e in q[..n + 1];
    }
  }

  class Pending {
    var pending: seq<Entry>
    var marked: set<int>
    var rendered: seq<Entry>

    ghost function View(): State
      reads this
    {
      State(pending, marked, rendered)
    }

    constructor ()
      ensures View() == State([], {}, [])
    {
      pending, marked, rendered := [], {}, [];
    }

    method RegisterChart(e: Entry, hidden: bool, composite: bool)
      modifies this
      ensures View() == Register(old(View()), e, hidden, composite)
    {
      if hidden {
        if !composite && e.element in marked {
          var i := |pending|;
          ghost var q := pending;
          while i > 0
            invariant 0 <= i <= |q| && marked == old(marked) && rendered == old(rendered)
            invariant pending == q[..i] + Except(q[i..], {e.element})
          {
            RemoveStep(q, e.element, i);
            if pending[i - 1].element == e.element {
              pending := Splice(pending, i - 1);
            }
            i := i - 1;
          }
          assert q[0..] == q;
        }
        pending := pending + [e];
        marked := marked + {e.element};
      } else {
        rendered := rendered + [e];
      }
    }

    /** Draws what is visible and collects the positions to be taken out. */
    method DrawVisible(page: Page, ghost gone: set<int>) returns (done: seq<int>)
      requires gone == Leaving(page, marked)
      modifies this`marked, this`rendered
      ensures done == Positions(pending, gone, |pending|)
      ensures marked == old(marked) - (Queued(pending) * gone)
      ensures rendered == old(rendered) + Of(pending, page.visible)
    {
      done := [];
      var i := 0;
      while i < |pending|
        invariant 0 <= i <= |pending|
        invariant rendered == old(rendered) + Of(pending[..i], page.visible)
        invariant marked == old(marked) - (Queued(pending[..i]) * gone)
        invariant done == Positions(pending, gone, i)
      {
        var el := pending[i].element;
        assert pending[..i + 1][..i] == pending[..i];
        QueuedStep(pending, i);
        if el in page.visible {
          rendered := rendered + [pending[i]];
          marked := marked - {el};
          done := done + [i];
        } else if el in page.detached && el !in marked {
          marked := marked - {el};
          done := done + [i];
        }
        i := i + 1;
      }
      assert pending[..i] == pending;
    }

    method DisplayVisible(page: Page)
      modifies this
      ensures View() == Pass(old(View()), page)
    {
      ghost var q, gone := pending, Leaving(page, marked);
      var done := DrawVisible(page, gone);
      SpliceOut(done);
      SpliceAllExact(q, gone, |q|, []);
      assert q[..|q|] == q && q + [] == q;
    }

    method SpliceOut(done: seq<int>)
      modifies this`pending
      ensures pending == SpliceAll(old(pending), done)
    {
      var k := |done|;
      assert done[..k] == done;
      while k > 0
        invariant 0 <= k <= |done|
        invariant SpliceAll(pending, done[..k]) == SpliceAll(old(pending), done)
      {
        assert done[..k][..k - 1] == done[..k - 1];
        pending := Splice(pending, done[k - 1]);
        k := k - 1;
      }
    }
  }

  lemma RemoveStep(q: seq<Entry>, element: int, i: int)
    requires 0 < i <= |q|
    ensures var now := q[..i] + Except(q[i..], {element});
      && now[i - 1] == q[i - 1]
      && q[..i - 1] + Except(q[i - 1..], {element})
      == if q[i - 1].element == element then Splice(now, i - 1) else now
  {
    assert q[i - 1..] == [q[i - 1]] + q[i..];
    ExceptSplit([q[i - 1]], q[i..], {element});
    assert [q[i - 1]][..0] == [];
  }

  // ----- whole runs ------------------------------------------------------------------------

  /** `Discard` is the page removing an element, which takes its pending mark with it. */
  datatype Event =
    | Chart(element: int, hidden: bool, composite: bool)
    | Display(page: Page)
    | Discard(element: int)

  /** The page's state with the number of registrations so far and each element's latest one. */
  datatype World = World(s: State, issued: int, latest: map<int, int>)

  function Step(w: World, e: Event): World {
    match e
    case Chart(el, hidden, composite) =>
      World(Register(w.s, Entry(el, w.issued), hidden, composite), w.issued + 1, w.latest[el := w.issued])
    case Display(page) => w.(s := Pass(w.s, page))
    case Discard(el) => w.(s := w.s.(marked := w.s.marked - {el}))
  }

  function Run(w: World, events: seq<Event>): World
    decreases |events|
  {
    if events == [] then w else Run(Step(w, events[0]), events[1..])
  }

  function Start(): World {
    World(State([], {}, []), 0, map[])
  }

  // ----- what a pass and a registration do, entry by entry ----------------------------------

  /**
   * A pass draws every waiting chart of a visible element, in the order they were registered and each once,
   * and takes them out of the queue; of the others it drops those whose element has left the page and lost
   * its mark, and keeps the rest in order. Elements taken out lose their mark, no other element does.
   */
  lemma PassExact(s: State, page: Page) returns (drawn: seq<Entry>)
    requires InOrder(s.pending)
    ensures var t := Pass(s, page);
      && t.rendered == s.rendered + drawn && InOrder(drawn) && NoDup(drawn) && InOrder(t.pending)
      && (forall e :: e in drawn <==> e in s.pending && e.element in page.visible)
      && (forall e :: e in t.pending <==>
            e in s.pending && e.element !in page.visible && (e.element in page.detached ==> e.element in s.marked))
      && (forall el :: el in t.marked ==> el in s.marked)
      && (forall e :: e in s.pending && e !in t.pending ==> e.element !in t.marked)
      && (forall e :: e in t.pending && e.element in s.marked ==> e.element in t.marked)
  {
    var gone := Leaving(page, s.marked);
    drawn := Of(s.pending, page.visible);
    OfInOrder(s.pending, page.visible);
    OfNoDup(s.pending, page.visible);
    ExceptInOrder(s.pending, gone);
    forall e ensures e in drawn <==> e in s.pending && e.element in page.visible {
      OfMember(s.pending, page.visible, e);
    }
    forall e ensures e in Except(s.pending, gone) <==> e in s.pending && e.element !in gone {
      ExceptMember(s.pending, gone, e);
    }
  }

  lemma {:induction false} OfInOrder(q: seq<Entry>, elements: set<int>)
    requires InOrder(q)
    ensures InOrder(Of(q, elements))
  {
    if q != [] {
      var front, last := q[..|q| - 1], q[|q| - 1];
      OfInOrder(front, elements);
      var r := Of(front, elements);
      if last.element in elements {
        assert (r + [last])[..|r|] == r;
        forall e | e in r ensures e.chart < last.chart {
          OfMember(front, elements, e);
        }
      } else {
        assert Of(q, elements) == r;
      }
    }
  }

  /**
   * A visible chart is drawn at once and changes no queue. A hidden one goes to the end of the queue and is
   * marked; earlier charts of its element are taken out exactly if it is not composite and the element still
   * had its mark, and charts of other elements always stay.
   */
  lemma RegisterExact(s: State, e: Entry, hidden: bool, composite: bool)
    ensures var t := Register(s, e, hidden, composite);
      && (!hidden ==> t.pending == s.pending && t.marked == s.marked && t.rendered == s.rendered + [e])
      && (hidden ==> t.rendered == s.rendered && t.pending != [] && t.pending[|t.pending| - 1] == e)
      && (hidden ==> forall el :: el in t.marked <==> el in s.marked || el == e.element)
      && (hidden ==> forall x :: x in t.pending[..|t.pending| - 1] <==>
            x in s.pending && (x.element != e.element || composite || e.element !in s.marked))
      && (hidden && (composite || e.element !in s.marked) ==> t.pending == s.pending + [e])
  {
    forall x ensures x in Except(s.pending, {e.element}) <==> x in s.pending && x.element != e.element {
      ExceptMember(s.pending, {e.element}, x);
    }
  }

  // ----- no drawing is made twice ----------------------------------------------------------

  ghost predicate Below(q: seq<Entry>, n: int) {
    forall e :: e in q ==> e.chart < n
  }

  /** Registrations wait in the order they were made. */
  ghost predicate InOrder(q: seq<Entry>) {
    q == [] || (Below(q[..|q| - 1], q[|q| - 1].chart) && InOrder(q[..|q| - 1]))
  }

  ghost predicate Once(w: World) {
    && Below(w.s.pending, w.issued) && Below(w.s.rendered, w.issued)
    && InOrder(w.s.pending)
    && NoDup(w.s.rendered)
    && forall e :: e in w.s.pending ==> e !in w.s.rendered
  }

  lemma {:induction false} ExceptInOrder(q: seq<Entry>, elements: set<int>)
    requires InOrder(q)
    ensures InOrder(Except(q, elements))
  {
    if q != [] {
      var front, last := q[..|q| - 1], q[|q| - 1];
      ExceptInOrder(front, elements);
      var r := Except(front, elements);
      if last.element !in elements {
        assert (r + [last])[..|r|] == r;
        forall e | e in r ensures e.chart < last.chart {
          ExceptMember(front, elements, e);
        }
      } else {
        assert Except(q, elements) == r;
      }
    }
  }

  lemma {:induction false} OfNoDup(q: seq<Entry>, elements: set<int>)
    requires InOrder(q)
    ensures NoDup(Of(q, elements))
  {
    if q != [] {
      var front, last := q[..|q| - 1], q[|q| - 1];
      OfNoDup(front, elements);
      OfMember(front, elements, last);
      NoDupConcat(Of(front, elements), [last]);
      assert [last][1..] == [];
      assert Of(front, elements) + [] == Of(front, elements);
    }
  }

  lemma {:induction false} PassOnce(w: World, page: Page)
    requires Once(w)
    ensures Once(Step(w, Display(page)))
  {
    var s := w.s;
    var r := Pass(s, page);
    forall e | e in r.pending ensures e in s.pending && e.element !in page.visible {
      ExceptMember(s.pending, Leaving(page, s.marked), e);
    }
    ExceptInOrder(s.pending, Leaving(page, s.marked));
    forall e ensures e in Of(s.pending, page.visible) <==> e in s.pending && e.element in page.visible {
      OfMember(s.pending, page.visible, e);
    }
    OfNoDup(s.pending, page.visible);
    NoDupConcat(s.rendered, Of(s.pending, page.visible));
  }

  lemma {:induction false} RegisterOnce(w: World, element: int, hidden: bool, composite: bool)
    requires Once(w)
    ensures Once(Step(w, Chart(element, hidden, composite)))
  {
    var s, e := w.s, Entry(element, w.issued);
    if hidden {
      var kept := if !composite && element in s.marked then Except(s.pending, {element}) else s.pending;
      forall x | x in kept ensures x in s.pending {
        ExceptMember(s.pending, {element}, x);
      }
      ExceptInOrder(s.pending, {element});
      assert (kept + [e])[..|kept|] == kept;
    } else {
      NoDupConcat(s.rendered, [e]);
      assert [e][1..] == [];
    }
  }

  /**
   * Whatever happens on the page, the waiting charts are in registration order, none of them has been
   * drawn, and none has been drawn twice.
   */
  lemma {:induction false} RunOnce(w: World, events: seq<Event>)
    requires Once(w)
    ensures Once(Run(w, events))
    decreases |events|
  {
    if events != [] {
      match events[0] {
        case Chart(el, hidden, composite) => RegisterOnce(w, el, hidden, composite);
        case Display(page) => PassOnce(w, page);
        case Discard(el) =>
      }
      RunOnce(Step(w, events[0]), events[1..]);
    }
  }

  // ----- the latest chart is never lost ----------------------------------------------------

  /** Waiting elements are marked, and each element's latest chart waits or has been drawn. */
  ghost predicate Kept(w: World) {
    && (forall e :: e in w.s.pending ==> e.element in w.s.marked)
    && (forall el :: el in w.latest ==>
          Entry(el, w.latest[el]) in w.s.pending || Entry(el, w.latest[el]) in w.s.rendered)
  }

  lemma PassKept(w: World, page: Page)
    requires Kept(w)
    ensures Kept(Step(w, Display(page)))
  {
    var s, gone := w.s, Leaving(page, w.s.marked);
    forall e ensures e in Except(s.pending, gone) <==> e in s.pending && e.element !in gone {
      ExceptMember(s.pending, gone, e);
    }
    forall e ensures e in Of(s.pending, page.visible) <==> e in s.pending && e.element in page.visible {
      OfMember(s.pending, page.visible, e);
    }
  }

  lemma RegisterKept(w: World, element: int, hidden: bool, composite: bool)
    requires Kept(w)
    ensures Kept(Step(w, Chart(element, hidden, composite)))
  {
    forall e ensures e in Except(w.s.pending, {element}) <==> e in w.s.pending && e.element != element {
      ExceptMember(w.s.pending, {element}, e);
    }
  }

  /** As long as the page removes no element, the latest chart of every element waits or is drawn. */
  lemma {:induction false} RunKept(w: World, events: seq<Event>)
    requires Kept(w)
    requires forall e :: e in events ==> !e.Discard?
    ensures Kept(Run(w, events))
    decreases |events|
  {
    if events != [] {
      assert events[0] in events;
      match events[0] {
        case Chart(el, hidden, composite) => RegisterKept(w, el, hidden, composite);
        case Display(page) => PassKept(w, page);
      }
      RunKept(Step(w, events[0]), events[1..]);
    }
  }

  // ----- one entry per element -------------------------------------------------------------

  /**
   * Registering a hidden, non-composite chart leaves it as the element's only entry exactly when the
   * element still carries its mark or was not waiting.
   */
  lemma SoleEntryIff(s: State, e: Entry)
    ensures Of(Register(s, e, true, false).pending, {e.element}) == [e]
       <==> e.element in s.marked || e.element !in Queued(s.pending)
  {
    var r := Register(s, e, true, false).pending;
    var kept := r[..|r| - 1];
    assert Of(r, {e.element}) == Of(kept, {e.element}) + [e];
    if e.element in s.marked {
      OfExcept(s.pending, {e.element}, e.element);
    } else if e.element in Queued(s.pending) {
      var x :| x in s.pending && x.element == e.element;
      OfMember(kept, {e.element}, x);
    } else {
      OfNone(kept, e.element);
    }
  }

  lemma {:induction false} OfExcept(q: seq<Entry>, gone: set<int>, element: int)
    ensures Of(Except(q, gone), {element}) == if element in gone then [] else Of(q, {element})
  {
    if q != [] {
      var front, last := q[..|q| - 1], q[|q| - 1];
      OfExcept(front, gone, element);
      var r := Except(front, gone);
      if last.element in gone {
        assert Except(q, gone) == r;
      } else {
        assert (r + [last])[..|r|] == r;
      }
    }
  }

  lemma OfNone(q: seq<Entry>, element: int)
    requires element !in Queued(q)
    ensures Of(q, {element}) == []
  {
    var r := Of(q, {element});
    if r != [] {
      OfMember(q, {element}, r[0]);
    }
  }

  /** An element taken out of the page and drawn into again waits twice. */
  lemma DiscardDuplicates()
    ensures Run(Start(), [Chart(7, true, false), Discard(7), Chart(7, true, false)]).s.pending
         == [Entry(7, 0), Entry(7, 1)]
  {
    var events := [Chart(7, true, false), Discard(7), Chart(7, true, false)];
    assert events[1..] == [Discard(7), Chart(7, true, false)];
    assert events[1..][1..] == [Chart(7, true, false)];
    assert events[1..][1..][1..] == [];
  }

  /** Waiting elements are marked, and none waits twice. */
  ghost predicate Single(s: State) {
    && Queued(s.pending) <= s.marked
    && forall el :: |Of(s.pending, {el})| <= 1
  }

  lemma PassSingle(s: State, page: Page)
    requires Single(s)
    ensures Single(Pass(s, page))
  {
    var gone, r := Leaving(page, s.marked), Pass(s, page);
    forall el | el in Queued(r.pending) ensures el in r.marked {
      var e :| e in r.pending && e.element == el;
      ExceptMember(s.pending, gone, e);
      assert el in Queued(s.pending);
    }
    forall el ensures |Of(r.pending, {el})| <= 1 {
      OfExcept(s.pending, gone, el);
    }
  }

  lemma RegisterSingle(s: State, e: Entry)
    requires Single(s)
    ensures Single(Register(s, e, true, false))
  {
    var r := Register(s, e, true, false);
    var kept := r.pending[..|r.pending| - 1];
    assert r.pending == kept + [e];
    forall el | el in Queued(r.pending) ensures el in r.marked {
      var x :| x in r.pending && x.element == el;
      if x != e {
        ExceptMember(s.pending, {e.element}, x);
        assert x in s.pending;
      }
    }
    forall el ensures |Of(r.pending, {el})| <= 1 {
      OfExcept(s.pending, {e.element}, el);
      if el == e.element {
        SoleEntryIff(s, e);
      }
    }
  }

  /** Without composite charts and removals, no element ever waits twice. */
  lemma {:induction false} RunSingle(w: World, events: seq<Event>)
    requires Single(w.s)
    requires forall e :: e in events ==> !e.Discard? && (e.Chart? ==> !e.composite)
    ensures Single(Run(w, events).s)
    decreases |events|
  {
    if events != [] {
      assert events[0] in events;
      match events[0] {
        case Chart(el, hidden, _) =>
          if hidden {
            RegisterSingle(w.s, Entry(el, w.issued));
          }
        case Display(page) => PassSingle(w.s, page);
      }
      RunSingle(Step(w, events[0]), events[1..]);
    }
  }
}
