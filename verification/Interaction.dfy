/**
 * Region highlighting shared by every chart (jquery.sparkline.js, the `_base` chart class).
 *
 * A mouse event leads to at most two highlight changes: the old region is drawn plain, the new one
 * is drawn highlighted. Which changes are made depends only on the current region, the event and
 * the `disableHighlight` option, so they are planned here once and carried out by each chart.
 */
module Interaction {
  import opened Sequences

  datatype Change<R> = Change(region: R, highlight: bool)

  /** `Move`: `setRegionHighlight` at a point inside the canvas, with the answer of `getRegion`. */
  datatype Event<R> =
    | Move(region: Option<R>)
    | Outside
    | Clear

  function Plan<R(==)>(current: Option<R>, e: Event<R>, enabled: bool): seq<Change<R>> {
    match e
    case Move(region) =>
      if region == current then []
      else
        (if current.Some? && enabled then [Change(current.value, false)] else []) +
        (if region.Some? && enabled then [Change(region.value, true)] else [])
    case Outside => []
    case Clear => if current.Some? then [Change(current.value, false)] else []
  }

  function NextRegion<R>(current: Option<R>, e: Event<R>): Option<R> {
    match e
    case Move(region) => region
    case Outside => current
    case Clear => None
  }

  /** What `setRegionHighlight` and `clearRegionHighlight` return; `None` is `null`. */
  function Answer<R(==)>(current: Option<R>, e: Event<R>): Option<bool> {
    match e
    case Move(region) => Some(region != current)
    case Outside => None
    case Clear => Some(current.Some?)
  }

  /** Which region is drawn highlighted after a sequence of changes. */
  function LitAfter<R>(lit: Option<R>, changes: seq<Change<R>>): Option<R>
    decreases |changes|
  {
    if changes == [] then lit
    else LitAfter(if changes[0].highlight then Some(changes[0].region) else None, changes[1..])
  }

  /** A region is lit only when none is, and put out only when no other one is lit. */
  predicate Legal<R(==)>(lit: Option<R>, changes: seq<Change<R>>)
    decreases |changes|
  {
    changes == [] ||
    (var c := changes[0];
     && (lit == None || (!c.highlight && lit == Some(c.region)))
     && Legal(if c.highlight then Some(c.region) else None, changes[1..]))
  }

  /** With highlighting enabled the lit region is the current one; otherwise nothing is lit. */
  function Lit<R>(current: Option<R>, enabled: bool): Option<R> {
    if enabled then current else None
  }

  lemma PlanLegal<R>(current: Option<R>, e: Event<R>, enabled: bool)
    ensures var changes := Plan(current, e, enabled);
      && Legal(Lit(current, enabled), changes)
      && LitAfter(Lit(current, enabled), changes) == Lit(NextRegion(current, e), enabled)
  {
    var changes := Plan(current, e, enabled);
    if |changes| == 2 {
      assert changes[1..] == [changes[1]];
      assert LitAfter(None, changes[1..]) == LitAfter(Some(changes[1].region), changes[1..][1..]);
    }
  }

  /** The answer is `null` exactly for a point off the canvas, and otherwise says whether the current region changed. */
  lemma AnswerTellsChange<R>(current: Option<R>, e: Event<R>)
    ensures e.Outside? ==> Answer(current, e) == None && NextRegion(current, e) == current
    ensures !e.Outside? ==> Answer(current, e) == Some(NextRegion(current, e) != current)
    ensures e.Move? ==> NextRegion(current, e) == e.region
    ensures e.Clear? ==> NextRegion(current, e) == None
  {
  }
}
