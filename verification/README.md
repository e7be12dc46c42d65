# Service bus monitor: verified models

This project models, in Dafny, the parts of the service bus and of its monitoring console that hold
state or do arithmetic worth worrying about, and proves what they keep over whole runs.

- `Sequences.dfy`, `Rounding.dfy`: facts about lists and about `Math.round` and `Math.ceil`.
- `DisplayList.dfy`: the retained display list of a sparkline canvas, a map of shapes and a drawing
  order that are edited in place and must agree.
- `Interaction.dfy`: which highlight changes a mouse event causes.
- `BarChart.dfy`, `SliceChart.dfy`, `LineHighlight.dfy`: the bookkeeping of bar, pie, bullet and line
  charts on top of the display list, under any run of mouse events, also on a canvas that composite
  charts share.
- `LineLayout.dfy`, `BarLayout.dfy`: scanning, ranges, plotting, path splitting and hit testing.
- `LineLife.dfy`, `BarLife.dfy`: layout and highlighting put together, from the values to any run.
- `AxisScale.dfy`: the choice of an axis scale in Chart.js, with termination of its loop.
- `HexCodec.dfy`: the hexadecimal, binary and escape codecs, with the alphabet of section 8 of RFC 4648.
- `CallCounting.dfy`, `CallRuns.dfy`: counting and reporting of calls by pooled actors, as a step system,
  and its whole runs.
- `ProtocolRegistry.dfy`: the lazily filled protocol registry.
- `NumberFormat.dfy`, `PendingQueue.dfy`: digit grouping and the queue of charts on hidden elements.

Code that changes things in place is a class or a method with loops, proved against a function on
values; the invariants and run theorems are lemmas about those functions. `dafny verify dfyconfig.toml`
checks the whole project.

JavaScript numbers are `real`; pixel positions that the code rounds are `int`. Java bytes, chars and the
truncating cast to byte are written out. What the DOM, the mouse, the clock, the network and the
libraries decide enters as a parameter or as an event of a run.

## Where the code does not do what one would expect

The model follows the code. The members named state for all inputs or runs exactly when each of these
happens.

- `all(null, vals)` is never true of a region that has a value, so the branch for null bars is dead and a
  null is drawn as a bar for 0, possibly off the canvas, although a comment in the highlighting code
  expects no shape for it (`BarLayout.IsNull`, `BarLayout.NullBarFitsIff`, `BarLayout.NullLeavesCanvas`).
- A bar below a fractional zero line can stick out by one pixel (`BarLayout.BarInsideIff`,
  `BarLayout.DeepestSticksOutIff`), and so can bars in a forced range that is turned around
  (`BarLayout.TurnedInsideIff`) and in a chart without numbers (`BarLayout.Layout`).
- `vertices` skips a leading null and a null after a null, so highlights are misplaced
  (`LineLayout.LookupRightIff`, `LineLife.HoverMarksIff`).
- `if (shapeids)` skips a region whose only shape has id 0, the first shape of the page, so that bar is
  never highlighted (`BarChart.HighlightedIff`, `BarChart.FirstBarNeverHighlighted`).
- A stacked region is first drawn back to front and after its first redraw front to back
  (`BarChart.StackOrderIff`, `BarChart.TouchedIff`).
- Replacing an id that is not on the canvas leaves a shape that is never drawn, and replacing many ids of
  which none is present puts the new ones in front of everything (`DisplayList.ReplaceOneConsistentIff`,
  `DisplayList.ReplaceManyOrder`).
- The scale loop does not end for a negative drawing height, and doubling the step can cut off the top of
  the range (`AxisScale.NegativeHeightNeverEnds`, `AxisScale.CalculateScale`, `AxisScale.DrawChart`).
- A minus sign is grouped like a digit (`NumberFormat.SignKeptIff`).
- Removing an element from the page clears its pending mark, after which it can wait twice
  (`PendingQueue.SoleEntryIff`).
- A call that throws has already been counted, and the restart of its worker loses that count and all
  others it held; if the pool escalates the failure, its other worker loses its counts too
  (`CallRuns.FailingCallLoses`, `CallRuns.ConservesIff`).
- Escapes are read back only where they are six characters wide, and the table decoder misreads most
  lower-case digits (`HexCodec.UnicodeRoundTripIff`, `HexCodec.TableAgreesIff`).

## Model

| member | source | states |
|---|---|---|
| DisplayList.RunConsistent | esb-monitor-admin/src/main/webapp/static/js/jquery.sparkline.js:2602-2840 | every step and hence every run of generate, append, replace-one, replace-many, insert-after, remove, reset and render keeps: no id twice in `shapeseq`, its ids are exactly the keys of `shapes`, each shape under its own id, all ids below the counter, unplaced shapes clash with none |
| DisplayList.RenderNeverMisses | esb-monitor-admin/src/main/webapp/static/js/jquery.sparkline.js:2823-2840 | in every state reached from canvas creation, each id that `render` visits has its shape under that id, no shape is visited twice and none is left out |
| DisplayList.StepSound | esb-monitor-admin/src/main/webapp/static/js/jquery.sparkline.js:2750-2840 | one edit of any kind keeps that invariant |
| DisplayList.ReplaceOneConsistentIff | esb-monitor-admin/src/main/webapp/static/js/jquery.sparkline.js:2757-2767 | replacing one shape by a new one keeps the list consistent exactly when the replaced id is on the canvas (or is the new id itself) |
| DisplayList.ReplaceAbsentBreaks | esb-monitor-admin/src/main/webapp/static/js/jquery.sparkline.js:2757-2767 | a concrete replacement of an absent id after which `shapes` holds a shape nobody draws |
| DisplayList.ReplaceManyOrder | esb-monitor-admin/src/main/webapp/static/js/jquery.sparkline.js:2769-2790 | replace-many equals: filter out the old ids, put the new ids in order where the first old one stood (in front of everything when none is present) |
| DisplayList.ReplaceManyPlaces | esb-monitor-admin/src/main/webapp/static/js/jquery.sparkline.js:2769-2790 | the same place by place: the new ids stand where the first old one stood, everything before it unchanged, the other old ids gone from behind it |
| DisplayList.ReplaceNonePlaces | esb-monitor-admin/src/main/webapp/static/js/jquery.sparkline.js:2769-2790 | with no old id on the canvas the new ids come in front of everything |
| DisplayList.EditsPlaced | esb-monitor-admin/src/main/webapp/static/js/jquery.sparkline.js:2757-2814 | insert-after, remove and replace-one, place by place in list and map |
| DisplayList.AbsentChangesNothing | esb-monitor-admin/src/main/webapp/static/js/jquery.sparkline.js:2757-2814 | an absent anchor or id changes nothing (a replacement nothing in the order) |
| DisplayList.ResetClears | esb-monitor-admin/src/main/webapp/static/js/jquery.sparkline.js:2683-2689 | what a reset clears is never drawn again, whatever follows |
| DisplayList.RenderKeepsInteractive | esb-monitor-admin/src/main/webapp/static/js/jquery.sparkline.js:2823-2840 | rendering leaves an interactive canvas alone and empties any other |
| DisplayList.LastAppended | esb-monitor-admin/src/main/webapp/static/js/jquery.sparkline.js:2750-2755 | appending shapes puts them at the end in order, and the last one is remembered |
| DisplayList.ReplaceManyConsistent | esb-monitor-admin/src/main/webapp/static/js/jquery.sparkline.js:2769-2790 | replace-many keeps the list consistent for any set of old ids, present or not |
| DisplayList.InsertAfterConsistent | esb-monitor-admin/src/main/webapp/static/js/jquery.sparkline.js:2792-2802 | insert-after keeps the list consistent, also when the anchor is absent and nothing is inserted |
| DisplayList.RemoveConsistent | esb-monitor-admin/src/main/webapp/static/js/jquery.sparkline.js:2804-2814 | removal keeps the list consistent and equals filtering the id out |
| DisplayList.RewriteMany | esb-monitor-admin/src/main/webapp/static/js/jquery.sparkline.js:2769-2790 | replacing a contiguous block rewrites that block and touches nothing else in list or map |
| DisplayList.RewriteOne | esb-monitor-admin/src/main/webapp/static/js/jquery.sparkline.js:2757-2767 | replacing one id rewrites its position and touches nothing else |
| DisplayList.ShapeCounter.GenShape | esb-monitor-admin/src/main/webapp/static/js/jquery.sparkline.js:2602-2606 | hands out the next id and advances the page-wide counter |
| DisplayList.Canvas.constructor | esb-monitor-admin/src/main/webapp/static/js/jquery.sparkline.js:2652-2669 | a new canvas is empty |
| DisplayList.Canvas.ResetCanvas | esb-monitor-admin/src/main/webapp/static/js/jquery.sparkline.js:2683-2689 | empties list and map, keeps `lastShapeId` |
| DisplayList.Canvas.AppendShape | esb-monitor-admin/src/main/webapp/static/js/jquery.sparkline.js:2750-2755 | the whole new state: stored, last in the order, remembered as last |
| DisplayList.Canvas.ReplaceWithShape | esb-monitor-admin/src/main/webapp/static/js/jquery.sparkline.js:2757-2767 | the backward loop does the value-level replacement |
| DisplayList.Canvas.ReplaceWithShapes | esb-monitor-admin/src/main/webapp/static/js/jquery.sparkline.js:2769-2790 | the three loops (mark, splice out backwards, splice in backwards) do the value-level replace-many |
| DisplayList.Canvas.RemoveMarked | esb-monitor-admin/src/main/webapp/static/js/jquery.sparkline.js:2777-2784 | the middle loop filters the marked ids, deletes exactly the ones present from the map, and ends with the position of the first |
| DisplayList.Canvas.SpliceIn | esb-monitor-admin/src/main/webapp/static/js/jquery.sparkline.js:2785-2788 | splicing at one position from last to first leaves the new ids in order there |
| DisplayList.Canvas.InsertAfterShape | esb-monitor-admin/src/main/webapp/static/js/jquery.sparkline.js:2792-2802 | inserts directly after the anchor, or does nothing |
| DisplayList.Canvas.RemoveShapeId | esb-monitor-admin/src/main/webapp/static/js/jquery.sparkline.js:2804-2814 | removes the id from both halves |
| DisplayList.Canvas.RenderAll | esb-monitor-admin/src/main/webapp/static/js/jquery.sparkline.js:2823-2840 | draws exactly the listed shapes in order; empties the list when the canvas is not interactive |
| Interaction.PlanLegal | esb-monitor-admin/src/main/webapp/static/js/jquery.sparkline.js:1121-1152 | for every event the highlight changes are well nested: a region is lit only when none is and put out only when it is the lit one, and afterwards the lit region is the current one (none when highlighting is disabled) |
| Interaction.AnswerTellsChange | esb-monitor-admin/src/main/webapp/static/js/jquery.sparkline.js:1121-1152 | the answer is `null` exactly off the canvas, and otherwise whether the current region changed |
| BarChart.RunKeeps | esb-monitor-admin/src/main/webapp/static/js/jquery.sparkline.js:1260-1311 | over every run of mouse events, with other charts of the same canvas editing their own shapes in between: each region has one contiguous block of the display list, blocks in drawing order (last region first), each showing its region highlighted exactly when it is the current one (but for id 0), a stack front to back exactly if it has been redrawn |
| BarChart.LifeKeeps | esb-monitor-admin/src/main/webapp/static/js/jquery.sparkline.js:1260-1311 | the same from the first rendering on, the redrawn regions being those the run touched |
| BarChart.TouchedIff | esb-monitor-admin/src/main/webapp/static/js/jquery.sparkline.js:1121-1152 | which regions a run redraws, from its events alone: those the mouse moved onto, or, with highlighting disabled, those it left the chart from |
| BarChart.StackOrderIff | esb-monitor-admin/src/main/webapp/static/js/jquery.sparkline.js:1269-1272 | for every chart and run: the segments of a stack are drawn back to front exactly until its region is first redrawn, and front to back from then on |
| BarChart.VisitFlips | esb-monitor-admin/src/main/webapp/static/js/jquery.sparkline.js:1292-1302 | one visit of the mouse turns any stack around for good |
| BarChart.StackFlips | esb-monitor-admin/src/main/webapp/static/js/jquery.sparkline.js:1292-1302 | a concrete chart of one two-segment bar whose segments change order |
| BarChart.ChangeKeeps | esb-monitor-admin/src/main/webapp/static/js/jquery.sparkline.js:1261-1279 | one highlight change keeps the bookkeeping exact, including regions skipped by `if (shapeids)` |
| BarChart.SwapBlock | esb-monitor-admin/src/main/webapp/static/js/jquery.sparkline.js:1266-1277 | swapping a block for freshly generated shapes updates only that region |
| BarChart.ZeroIdNeverChanges | esb-monitor-admin/src/main/webapp/static/js/jquery.sparkline.js:1261-1267 | a region whose sole id is 0 keeps it through every run |
| BarChart.RenderedZeroIff | esb-monitor-admin/src/main/webapp/static/js/jquery.sparkline.js:1281-1310 | a region is rendered with id 0 exactly when it is one shape, the page has drawn nothing before, and no region drawn before it draws anything |
| BarChart.ZeroIdStaysIff | esb-monitor-admin/src/main/webapp/static/js/jquery.sparkline.js:1261-1279 | a region has id 0 after a run exactly if it had it before |
| BarChart.HighlightedIff | esb-monitor-admin/src/main/webapp/static/js/jquery.sparkline.js:1261-1279 | for every chart and run, a current bar of one shape is drawn highlighted exactly unless it is the first shape the page ever drew |
| BarChart.FirstBarNeverHighlighted | esb-monitor-admin/src/main/webapp/static/js/jquery.sparkline.js:1261-1279 | the last bar of the first chart on a page shows its plain drawing after every run |
| BarChart.RenderEstablishes | esb-monitor-admin/src/main/webapp/static/js/jquery.sparkline.js:1281-1310 | the first rendering, over whatever the canvas holds, establishes the invariant |
| BarChart.Bars.RenderChart | esb-monitor-admin/src/main/webapp/static/js/jquery.sparkline.js:1281-1310 | the backward loop computes the value-level rendering |
| BarChart.Bars.RenderStack | esb-monitor-admin/src/main/webapp/static/js/jquery.sparkline.js:1292-1302 | a stacked region is appended back to front and remembered in that order |
| BarChart.Bars.ChangeCurrent | esb-monitor-admin/src/main/webapp/static/js/jquery.sparkline.js:1261-1279 | the object does the value-level highlight change, with the branches for a missing, single and array entry |
| BarChart.Bars.SetRegionHighlight | esb-monitor-admin/src/main/webapp/static/js/jquery.sparkline.js:1121-1140 | new state and answer are those of the protocol: `null` off the canvas, whether the region changed otherwise |
| BarChart.Bars.ClearRegionHighlight | esb-monitor-admin/src/main/webapp/static/js/jquery.sparkline.js:1145-1152 | new state and answer are those of the protocol |
| SliceChart.RunKeeps | esb-monitor-admin/src/main/webapp/static/js/jquery.sparkline.js:2128-2147 | over every run of mouse events on a pie or bullet chart, stale hits included: `shapes` and `valueShapes` are inverse over exactly the regions, the list holds the regions in original drawing order, exactly the current one is drawn highlighted |
| SliceChart.SharedRunKeeps | esb-monitor-admin/src/main/webapp/static/js/jquery.sparkline.js:2249-2257 | the same with other charts editing the rest of the canvas in between |
| SliceChart.ChangeKeeps | esb-monitor-admin/src/main/webapp/static/js/jquery.sparkline.js:2249-2257 | one highlight change keeps maps, order and pictures exact |
| SliceChart.RenderEstablishes | esb-monitor-admin/src/main/webapp/static/js/jquery.sparkline.js:2290-2311 | the first rendering establishes the invariant |
| SliceChart.RegionsDistinct | esb-monitor-admin/src/main/webapp/static/js/jquery.sparkline.js:2182-2201 | a pie draws every slice once from the last to the first; a bullet chart its ranges in order, then performance, then target; no region twice |
| SliceChart.HitIff | esb-monitor-admin/src/main/webapp/static/js/jquery.sparkline.js:2233-2236 | a hit answers a region exactly if it is that region's present shape |
| SliceChart.HoverLights | esb-monitor-admin/src/main/webapp/static/js/jquery.sparkline.js:1121-1140 | in every state reached, hovering a region's shape makes it current and, unless disabled, lights it and only it |
| SliceChart.Slices.RenderChart | esb-monitor-admin/src/main/webapp/static/js/jquery.sparkline.js:2182-2201 | the render loop fills both maps and the list as the value-level rendering |
| SliceChart.Slices.ChangeCurrent | esb-monitor-admin/src/main/webapp/static/js/jquery.sparkline.js:2128-2147 | both statement orders (pie: list first, bullet: maps first) give the same value-level change |
| SliceChart.Slices.SetRegionHighlight | esb-monitor-admin/src/main/webapp/static/js/jquery.sparkline.js:1121-1140 | new state and answer are those of the protocol, the region looked up through `shapes` |
| SliceChart.Slices.ClearRegionHighlight | esb-monitor-admin/src/main/webapp/static/js/jquery.sparkline.js:1145-1152 | new state and answer are those of the protocol |
| LineHighlight.RunRestores | esb-monitor-admin/src/main/webapp/static/js/jquery.sparkline.js:1121-1152 | after any run on a rendered line chart, removing the highlight gives back exactly the list and map without it; at most two extra shapes exist and they sit directly after `lastShapeId` |
| LineHighlight.RunReady | esb-monitor-admin/src/main/webapp/static/js/jquery.sparkline.js:1354-1391 | every run keeps: the picture is the rendered one plus the highlight shapes of the current region, and the two stored ids are exactly those of the shapes present |
| LineHighlight.RenderKeeps | esb-monitor-admin/src/main/webapp/static/js/jquery.sparkline.js:1354-1379 | highlighting adds spot and line directly after the last shape (line first) |
| LineHighlight.RemoveRestores | esb-monitor-admin/src/main/webapp/static/js/jquery.sparkline.js:1381-1391 | removing the highlight undoes it exactly |
| LineHighlight.AloneGround | esb-monitor-admin/src/main/webapp/static/js/jquery.sparkline.js:1655-1655 | with no other chart at work, what is given back is the picture as rendered |
| LineHighlight.LineChart.RenderCurrent | esb-monitor-admin/src/main/webapp/static/js/jquery.sparkline.js:1354-1379 | the object does the value-level highlighting |
| LineHighlight.LineChart.RemoveCurrent | esb-monitor-admin/src/main/webapp/static/js/jquery.sparkline.js:1381-1391 | the object does the value-level removal |
| LineHighlight.LineChart.SetRegionHighlight | esb-monitor-admin/src/main/webapp/static/js/jquery.sparkline.js:1121-1140 | new state and answer are those of the protocol |
| LineHighlight.LineChart.ClearRegionHighlight | esb-monitor-admin/src/main/webapp/static/js/jquery.sparkline.js:1145-1152 | new state and answer are those of the protocol |
| LineLayout.ScanValues | esb-monitor-admin/src/main/webapp/static/js/jquery.sparkline.js:1393-1421 | per entry the x value of a pair or the position, the y value or null, and the list of numbers that the extremes are taken from |
| LineLayout.ExtentsExact | esb-monitor-admin/src/main/webapp/static/js/jquery.sparkline.js:1393-1437 | that list holds exactly the plotted numbers, and 0 for a pair without a y value |
| LineLayout.MaxMin | esb-monitor-admin/src/main/webapp/static/js/jquery.sparkline.js:1423-1436 | the true extremes of a list |
| LineLayout.ExtentsCover | esb-monitor-admin/src/main/webapp/static/js/jquery.sparkline.js:1393-1437 | every plotted number is among those the extremes are taken from |
| LineLayout.RangeOrderedIff | esb-monitor-admin/src/main/webapp/static/js/jquery.sparkline.js:1439-1465 | after the range options `miny <= maxy` holds exactly when a clip bound does not cross the other end of the range |
| LineLayout.RangeOrderedXIff | esb-monitor-admin/src/main/webapp/static/js/jquery.sparkline.js:1458-1463 | the same for the x range |
| LineLayout.RangeOnlyGrows | esb-monitor-admin/src/main/webapp/static/js/jquery.sparkline.js:1439-1465 | without clipping the range options only widen the range |
| LineLayout.RangeLeast | esb-monitor-admin/src/main/webapp/static/js/jquery.sparkline.js:1439-1465 | without clipping the range is the least one that holds the data, the chart range and a normal range with a minimum; with clipping a given end is taken as it is; x alike |
| LineLayout.FrameOnCanvas | esb-monitor-admin/src/main/webapp/static/js/jquery.sparkline.js:1504-1534 | the spot adjustments keep the frame on the canvas; its height is negative exactly when spots are drawn on a canvas with no more rows than margins, its width exactly when they are drawn with both side margins on one column |
| LineLayout.FrameMargins | esb-monitor-admin/src/main/webapp/static/js/jquery.sparkline.js:1506-1534 | each edge keeps free exactly the least whole number of pixels for the spot radius if a spot may be drawn there, and nothing otherwise but the last row |
| LineLayout.VertexInFrame | esb-monitor-admin/src/main/webapp/static/js/jquery.sparkline.js:1562-1572 | every plotted vertex lies between `canvasTop` and `canvasTop + canvasHeight`, clamped values included |
| LineLayout.LargerIsHigher | esb-monitor-admin/src/main/webapp/static/js/jquery.sparkline.js:1562-1572 | a larger value is never plotted lower on the screen |
| LineLayout.PlotYLaw | esb-monitor-admin/src/main/webapp/static/js/jquery.sparkline.js:1562-1572 | where a value is plotted: on the baseline up to the minimum, at the top from the maximum on, in between at its proportion of the height up to half a pixel |
| LineLayout.PlotXLaw | esb-monitor-admin/src/main/webapp/static/js/jquery.sparkline.js:1547-1548 | an x value is plotted at its proportion of the width up to half a pixel |
| LineLayout.EdgesHalfway | esb-monitor-admin/src/main/webapp/static/js/jquery.sparkline.js:1549-1551 | the edge between two regions is equally far from both values, the last one halfway to `canvasWidth` |
| LineLayout.Prepare | esb-monitor-admin/src/main/webapp/static/js/jquery.sparkline.js:1475-1538 | across scanning, range options and spot adjustments: `None` exactly for fewer than two values or no number; otherwise the x and y values and their true extremes, every x in proportion, and for an ordered range and a non-negative frame every vertex on the canvas at the height its value calls for, larger values never lower |
| LineLayout.GetRegion | esb-monitor-admin/src/main/webapp/static/js/jquery.sparkline.js:1331-1340 | the loop answers the last region that holds x, and none only if no region does |
| LineLayout.HitIsNearest | esb-monitor-admin/src/main/webapp/static/js/jquery.sparkline.js:1544-1552 | if x lies in region i, no other value is plotted strictly closer to x |
| LineLayout.RegionsCover | esb-monitor-admin/src/main/webapp/static/js/jquery.sparkline.js:1544-1552 | every x from 0 to the last midpoint lies in some region |
| LineLayout.HitTest | esb-monitor-admin/src/main/webapp/static/js/jquery.sparkline.js:1331-1340 | hit testing refines nearest point: an answer is a nearest value, and there is one on the whole covered stretch |
| LineLayout.Hover | esb-monitor-admin/src/main/webapp/static/js/jquery.sparkline.js:1475-1576 | from the given values and options to the answer of `getRegion` on their own plot: for x values in order, a range not turned around and a canvas wide enough for its spots, the answer is a value plotted nearest to the mouse, and there is one up to the last midpoint |
| LineLayout.RunsExact | esb-monitor-admin/src/main/webapp/static/js/jquery.sparkline.js:1553-1575 | the runs are, in order, exactly the maximal runs of numbers |
| LineLayout.ExtendPaths | esb-monitor-admin/src/main/webapp/static/js/jquery.sparkline.js:1553-1575 | one round keeps: one path per run so far, baseline anchor plus one vertex per value, and an empty path after a null |
| LineLayout.RenderLoop | esb-monitor-admin/src/main/webapp/static/js/jquery.sparkline.js:1540-1576 | the loop yields the midpoint regions, the paths of the runs and the list `vertices`, each vertex at the height its value calls for |
| LineLayout.BuildShapes | esb-monitor-admin/src/main/webapp/static/js/jquery.sparkline.js:1578-1597 | one line and, if asked for, one fill outline per run: the outline starts and ends on the baseline with the vertices between; a run of one value stays a vertical stroke |
| LineLayout.LookupRightIff | esb-monitor-admin/src/main/webapp/static/js/jquery.sparkline.js:1354-1363 | highlighting reads the right entry of `vertices` for every region exactly when no skipped null (first, or after another null) comes before a number |
| LineLayout.AlignedIff | esb-monitor-admin/src/main/webapp/static/js/jquery.sparkline.js:1553-1575 | `vertices` has one entry per value exactly when the first value is a number and no two nulls are adjacent |
| LineLayout.LeadingNullMisplacesHighlight | esb-monitor-admin/src/main/webapp/static/js/jquery.sparkline.js:1354-1363 | concrete data where hovering the null highlights the number and hovering the number highlights nothing |
| LineLife.MarksEntry | esb-monitor-admin/src/main/webapp/static/js/jquery.sparkline.js:1354-1379 | in every state reached, spot and line mark the entry of `vertices` at the current region, and are absent if that entry is null or missing |
| LineLife.RenderedBase | esb-monitor-admin/src/main/webapp/static/js/jquery.sparkline.js:1655-1655 | the last shape id of a chart that has appended its shapes is that of its last shape, at the end of the drawing order: the place highlighting starts from |
| LineLife.RunMarksValue | esb-monitor-admin/src/main/webapp/static/js/jquery.sparkline.js:1354-1391 | over every run that ends over value i of a plotted chart, spot and line mark the vertex of value i unless a skipped null comes before a number |
| LineLife.HoverMarksIff | esb-monitor-admin/src/main/webapp/static/js/jquery.sparkline.js:1354-1379 | hovering marks the value under the mouse, for every value, exactly when no skipped null comes before a number |
| BarLayout.Init | esb-monitor-admin/src/main/webapp/static/js/jquery.sparkline.js:1743-1791 | clipped values, the extremes of the numbers among them widened by the range options, and the geometry for that range; charts without a number included |
| BarLayout.ClipNearest | esb-monitor-admin/src/main/webapp/static/js/jquery.sparkline.js:465-473 | clipping takes the nearest allowed value and leaves allowed ones alone |
| BarLayout.RangeLeast | esb-monitor-admin/src/main/webapp/static/js/jquery.sparkline.js:1756-1761 | unless forced, each end of the range is the least that holds the data and the option |
| BarLayout.BaseLineNearest | esb-monitor-admin/src/main/webapp/static/js/jquery.sparkline.js:1763-1773 | the zero line is the value of the range nearest to 0, or its minimum without a zero axis |
| BarLayout.ZeroLineDrawn | esb-monitor-admin/src/main/webapp/static/js/jquery.sparkline.js:1779-1791 | it is drawn at its proportion of the height, rounded up, or on the bottom edge |
| BarLayout.BarIsDrawn | esb-monitor-admin/src/main/webapp/static/js/jquery.sparkline.js:1892-1903 | every bar is one pixel more than its distance from the zero line in proportion, rounded down, and touches the zero line from the right side |
| BarLayout.FartherIsTaller | esb-monitor-admin/src/main/webapp/static/js/jquery.sparkline.js:1892-1896 | a value farther from the zero line is never drawn shorter |
| BarLayout.BarsFillCanvas | esb-monitor-admin/src/main/webapp/static/js/jquery.sparkline.js:1779-1791 | the farthest values use the canvas: one bar fills it, or two fill all but the rows kept for rounding |
| BarLayout.BarInsideIff | esb-monitor-admin/src/main/webapp/static/js/jquery.sparkline.js:1892-1908 | for every sign and `zeroAxis` case and height at least 4, a number's bar is on the canvas exactly unless it hangs below a zero line between two pixels and is deep enough |
| BarLayout.DeepestSticksOutIff | esb-monitor-admin/src/main/webapp/static/js/jquery.sparkline.js:1779-1791 | the deepest possible bar sticks out exactly when rounding the zero line down costs at least four times the share of the range below zero |
| BarLayout.DeeperSticksOut | esb-monitor-admin/src/main/webapp/static/js/jquery.sparkline.js:1892-1908 | if any bar of a chart sticks out, the deepest possible one would |
| BarLayout.BarFits | esb-monitor-admin/src/main/webapp/static/js/jquery.sparkline.js:1892-1908 | bar height at least 1, top on the canvas, and bottom at most one pixel below it, that only under a fractional zero line that lies in the lowest quarter |
| BarLayout.Layout | esb-monitor-admin/src/main/webapp/static/js/jquery.sparkline.js:1743-1791 | the whole chart, for all values and options: the geometry that of the extremes of its values, every bar drawn in proportion from the zero line, and exactly which bars are on the canvas, numbers, nulls, turned ranges and charts without a number alike |
| BarLayout.FractionalBarSticksOut | esb-monitor-admin/src/main/webapp/static/js/jquery.sparkline.js:1781-1787 | concrete data where the extra pixel occurs |
| BarLayout.TurnedInsideIff | esb-monitor-admin/src/main/webapp/static/js/jquery.sparkline.js:1756-1761 | with clipping and `chartRangeMin` above `chartRangeMax`, a bar is on the canvas exactly if its value was below `chartRangeMin`, or the zero axis is on and `chartRangeMin` is not positive |
| BarLayout.All | esb-monitor-admin/src/main/webapp/static/js/jquery.sparkline.js:547-555 | `all` is a for-all, except that asking for `null` fails on any element |
| BarLayout.IsNull | esb-monitor-admin/src/main/webapp/static/js/jquery.sparkline.js:1869-1869 | `renderRegion` therefore takes a region for null only if it has no values at all |
| BarLayout.NullBarFitsIff | esb-monitor-admin/src/main/webapp/static/js/jquery.sparkline.js:1869-1908 | so a null is drawn as a bar for 0, and that bar is on the canvas exactly under a condition on the range, for every range |
| BarLayout.NullLeavesCanvas | esb-monitor-admin/src/main/webapp/static/js/jquery.sparkline.js:1869-1908 | a chart of 5 and null, 10 pixels high, draws the null below the canvas |
| BarLayout.Plotted | esb-monitor-admin/src/main/webapp/static/js/jquery.sparkline.js:1870-1890 | which segments of a region are drawn: all but those equal to the zero line, or one if all are; the choice does not depend on highlighting |
| BarLayout.ColumnsAnswerTheirBar | esb-monitor-admin/src/main/webapp/static/js/jquery.sparkline.js:1807-1810 | the mouse over a bar's columns answers that bar |
| BarLayout.GetRegionIff | esb-monitor-admin/src/main/webapp/static/js/jquery.sparkline.js:1807-1810 | a bar answers exactly for its columns and the gap to its right |
| BarLife.ChartUniform | esb-monitor-admin/src/main/webapp/static/js/jquery.sparkline.js:1853-1914 | whatever the values, stacked or not, highlighting never changes how many shapes a region has |
| BarLife.RegionPaints | esb-monitor-admin/src/main/webapp/static/js/jquery.sparkline.js:1881-1914 | every drawn segment is painted, in order and in the look asked for; one segment is a single shape, several an array |
| BarLife.BarsStayPut | esb-monitor-admin/src/main/webapp/static/js/jquery.sparkline.js:1260-1311 | through every run, each bar of a plain chart is one shape on the canvas that stays where the layout put it |
| BarLife.LayOutAndLive | esb-monitor-admin/src/main/webapp/static/js/jquery.sparkline.js:1743-1791 | layout, rendering and any run composed: every region still shows its laid-out bar, on the canvas exactly under the layout's condition |
| AxisScale.OrderOfMagnitude | esb-monitor-admin/src/main/webapp/static/chart-master/Chart.js:1323-1325 | the exponent k with 10^k <= v < 10^(k+1) |
| AxisScale.OrderUnique | esb-monitor-admin/src/main/webapp/static/chart-master/Chart.js:1323-1325 | there is no other such k |
| AxisScale.GetValueBounds | esb-monitor-admin/src/main/webapp/static/chart-master/Chart.js:995-1016 | bounds that hold all data, attained by data except for the two start values, and the two step bounds |
| AxisScale.StepBounds | esb-monitor-admin/src/main/webapp/static/chart-master/Chart.js:1005-1006 | the step bounds are the largest counts of labels that fit at two thirds (0.66) of their height and at twice their height |
| AxisScale.SpreadIff | esb-monitor-admin/src/main/webapp/static/chart-master/Chart.js:996-1003 | the value range is positive exactly when the data are not one single value of at least `Number.MIN_VALUE` |
| AxisScale.BoundsLeaveRoom | esb-monitor-admin/src/main/webapp/static/chart-master/Chart.js:1005-1006 | for non-negative heights `maxSteps >= 2 * minSteps >= 0` |
| AxisScale.HalvingStaysBelow | esb-monitor-admin/src/main/webapp/static/chart-master/Chart.js:1301-1305 | a halving never overshoots `maxSteps`: no doubling can follow, and the loop gets closer |
| AxisScale.DoublingStaysAbove | esb-monitor-admin/src/main/webapp/static/chart-master/Chart.js:1306-1309 | a doubling never undershoots `minSteps`: no halving can follow, and the loop gets closer |
| AxisScale.FitSteps | esb-monitor-admin/src/main/webapp/static/chart-master/Chart.js:1296-1310 | the loop always ends within the bounds, only halves or only doubles, and `steps * stepValue` is within half a step of the range, equal if nothing was doubled |
| AxisScale.DoublingsLeast | esb-monitor-admin/src/main/webapp/static/chart-master/Chart.js:1301-1310 | the number of doublings is the least one that leaves at most `maxSteps` |
| AxisScale.FinalReachesIff | esb-monitor-admin/src/main/webapp/static/chart-master/Chart.js:1301-1310 | the axis reaches the top of a range of `whole` units exactly when `whole` modulo the power of the doublings is 0 or at least half that power |
| AxisScale.StepsPositiveIff | esb-monitor-admin/src/main/webapp/static/chart-master/Chart.js:1301-1310 | the axis has at least one step exactly when `maxSteps` is at least 1 |
| AxisScale.FirstSteps | esb-monitor-admin/src/main/webapp/static/chart-master/Chart.js:1290-1298 | `graphMin` and `graphMax` are the nearest whole units around the data, and the range is 1 to 11 units |
| AxisScale.CalculateScale | esb-monitor-admin/src/main/webapp/static/chart-master/Chart.js:1283-1320 | all of that for the returned scale, for every `minValue < maxValue` and every pair of bounds with room: range, step count, the length of the axis (the whole range if it fits in `maxSteps`, within half a step of it otherwise), and exactly when it reaches `graphMax`, from the units of the range and `maxSteps` |
| AxisScale.ChartScale | esb-monitor-admin/src/main/webapp/static/chart-master/Chart.js:1199-1220 | bounds and scale composed: every chart of non-negative height gets such a scale exactly if its value range is positive, with all data between `graphMin` and `graphMax` |
| AxisScale.DrawChart | esb-monitor-admin/src/main/webapp/static/chart-master/Chart.js:815-860 | bounds, scale, hop and offsets composed: unless the data are one value or there is no room for a step, every value of every dataset is drawn on the axis of the chart's own scale, the top of the axis less than a pixel per step below the height, larger values never lower, and a value at its true height exactly if it lies within the length of the axis, computed from the range of the data and the height |
| AxisScale.NegativeHeightNeverEnds | esb-monitor-admin/src/main/webapp/static/chart-master/Chart.js:1301-1310 | with a negative height the loop doubles the step forever: its condition holds after any number of rounds |
| AxisScale.DoublingCutsTheTop | esb-monitor-admin/src/main/webapp/static/chart-master/Chart.js:1306-1309 | a chart of the values 0 and 50, 14 pixels high, gets an axis of one step of 40 |
| AxisScale.TrueHeightIff | esb-monitor-admin/src/main/webapp/static/chart-master/Chart.js:1223-1228 | a value is drawn at its true height exactly when the axis reaches it |
| AxisScale.PopulateLabels | esb-monitor-admin/src/main/webapp/static/chart-master/Chart.js:1331-1338 | one label per step, label j naming the value of grid line j + 1 |
| AxisScale.HopFits | esb-monitor-admin/src/main/webapp/static/chart-master/Chart.js:811-811 | the hop is the largest whole number of pixels that every step can have within the height |
| AxisScale.TopDrawn | esb-monitor-admin/src/main/webapp/static/chart-master/Chart.js:1223-1228 | the top of the axis is drawn less than one pixel per step below the full height |
| AxisScale.OffsetOnAxis | esb-monitor-admin/src/main/webapp/static/chart-master/Chart.js:1223-1228 | every value is drawn between 0 and the height |
| AxisScale.OffsetMonotone | esb-monitor-admin/src/main/webapp/static/chart-master/Chart.js:1223-1228 | a larger value is never drawn lower |
| AxisScale.GridAligned | esb-monitor-admin/src/main/webapp/static/chart-master/Chart.js:917-934 | the value of grid line i is drawn on grid line i |
| AxisScale.LabelOnItsLine | esb-monitor-admin/src/main/webapp/static/chart-master/Chart.js:1331-1338 | every label is written on the line where its value is drawn |
| HexCodec.Byte2HexStr | esb-common/src/main/java/org/esb/util/HexUtil.java:93-102 | two upper-case digits per byte with single spaces between |
| HexCodec.Str2HexStr | esb-common/src/main/java/org/esb/util/HexUtil.java:50-64 | the nibble-table loop writes the same text for the same bytes |
| HexCodec.HexStr2Bytes | esb-common/src/main/java/org/esb/util/HexUtil.java:111-123 | the array-filling loop is the pairwise decoder of the squeezed, left-padded text, failing where `parseInt` throws |
| HexCodec.BytesRoundTrip | esb-common/src/main/java/org/esb/util/HexUtil.java:93-123 | decoding what `byte2HexStr` writes gives back every byte array |
| HexCodec.TextRoundTrip | esb-common/src/main/java/org/esb/util/HexUtil.java:93-123 | encoding what any hex text decodes to gives its upper-case, pair-spaced, left-padded form, whatever its case, spaces or odd length |
| HexCodec.DecodeNumber | esb-common/src/main/java/org/esb/util/HexUtil.java:111-123 | the bytes are as many as the digits need and make, as one number, exactly what the digits spell: an odd digit stands alone in the first byte |
| HexCodec.ParsePairIff | esb-common/src/main/java/org/esb/util/HexUtil.java:118-118 | which pairs `parseInt` accepts, a sign included, and what it reads |
| HexCodec.PairsFailIff | esb-common/src/main/java/org/esb/util/HexUtil.java:117-121 | decoding throws exactly if some pair is not readable |
| HexCodec.HexTextAt | esb-common/src/main/java/org/esb/util/HexUtil.java:93-102 | the written text character by character: two upper-case digits per byte that spell it, one space between |
| HexCodec.HexStr2Str | esb-common/src/main/java/org/esb/util/HexUtil.java:73-85 | the table loop, an odd last character dropped |
| HexCodec.TableRoundTrip | esb-common/src/main/java/org/esb/util/HexUtil.java:50-85 | `hexStr2Str` undoes `str2HexStr` once the spaces are removed |
| HexCodec.TableAgreesIff | esb-common/src/main/java/org/esb/util/HexUtil.java:73-123 | on hex text in pairs, `hexStr2Str` and `hexStr2Bytes` read the same bytes exactly when each pair is one the upper-case table reads right |
| HexCodec.TableMisreadsLowerCase | esb-common/src/main/java/org/esb/util/HexUtil.java:73-85 | "ab" is read as EF by one decoder and as AB by the other |
| HexCodec.HexString2BinaryString | esb-common/src/main/java/org/esb/util/HexUtil.java:182-193 | `null` exactly for odd lengths, an exception exactly for a non-digit, four bits per digit otherwise |
| HexCodec.BinaryKeepsValue | esb-common/src/main/java/org/esb/util/HexUtil.java:182-193 | the binary text stands for the same number |
| HexCodec.BinaryIsBits | esb-common/src/main/java/org/esb/util/HexUtil.java:25-41 | character 8j+k is `getBit`, at index 7-k, of byte j of what `hexStr2Bytes` returns |
| HexCodec.GetBitPeriodic | esb-common/src/main/java/org/esb/util/HexUtil.java:25-31 | indices 32 apart read the same bit, and bits 8 to 31 of a byte are 0 |
| HexCodec.StrToUnicode | esb-common/src/main/java/org/esb/util/HexUtil.java:133-149 | the escapes of the characters in order |
| HexCodec.EscapeSpelled | esb-common/src/main/java/org/esb/util/HexUtil.java:138-147 | an escape is a backslash, u and the lower-case digits of the character, without leading zeros but for "00" before numbers up to 128 |
| HexCodec.UnescapeReads | esb-common/src/main/java/org/esb/util/HexUtil.java:162-171 | a group is read from its last four digits alone, whatever its first two characters |
| HexCodec.UnicodeToString | esb-common/src/main/java/org/esb/util/HexUtil.java:158-174 | the groups of six read in order, failing at the first one that is no character |
| HexCodec.UnicodeRoundTripIff | esb-common/src/main/java/org/esb/util/HexUtil.java:133-174 | unescaping gives the string back exactly when every character is in 0x10..0x80 or 0x1000..0xFFFF, where escapes are six wide |
| HexCodec.GetCheckCode | esb-common/src/main/java/org/esb/util/HexUtil.java:9-16 | the exclusive or of the bytes read (always the first one), an exception exactly for reading past the end |
| HexCodec.CheckCodeDetects | esb-common/src/main/java/org/esb/util/HexUtil.java:9-16 | changing one byte always changes the check code |
| HexCodec.CheckCodeCloses | esb-common/src/main/java/org/esb/util/HexUtil.java:9-16 | a message with its check code appended has check code 0 |
| CallRuns.RunAccounts | esb-common/src/main/java/org/esb/rpc/RpcProviderActor.java:52-82 | over every run, for every monitor and method: calls handled = counts held + in flight + delivered + lost, hence the first three are at most the calls handled |
| CallRuns.ConservesIff | esb-common/src/main/java/org/esb/rpc/RpcProviderActor.java:52-82 | for every run and monitor: the books balance for every method with nothing lost exactly when no failing call was handled, no worker holding counts was restarted, and no report or copy with entries was lost |
| CallRuns.GoneZeroIff | esb-common/src/main/java/org/esb/rpc/RpcProviderActor.java:52-82 | nothing is missing for any method exactly when everything lost was empty |
| CallRuns.ReportsArePositive | esb-common/src/main/java/org/esb/rpc/RpcProviderActor.java:75-79 | every entry of every report a monitor receives is at least 1 |
| CallRuns.TickReports | esb-common/src/main/java/org/esb/rpc/RpcProviderActor.java:68-79 | a tick sends on, per method, exactly what the worker held and leaves it holding nothing |
| CallRuns.CallCounts | esb-common/src/main/java/org/esb/rpc/RpcProviderActor.java:53-67 | a successful call is handled once and counted once |
| CallRuns.RunSends | esb-common/src/main/java/org/esb/rpc/RpcProviderActor.java:52-82 | over every run, calls passed on by the routers = calls handled + calls still waiting |
| CallRuns.RouterAlternates | esb-common/src/main/java/org/esb/rpc/RpcServerActor.java:24-27 | two calls in a row reach the two workers of a pool, one each |
| CallRuns.AllReported | esb-common/src/main/java/org/esb/rpc/RpcProviderActor.java:52-82 | every reachable state has a continuation without new calls, restarts or losses after which nothing is held, waiting or in flight, so calls handled = counts delivered + counts lost, for every monitor and method |
| CallRuns.StepBalances | esb-common/src/main/java/org/esb/monitor/MonitorClientActor.java:34-37 | every single step, the forwarding one included, keeps the books balanced |
| CallRuns.StepOrderly | esb-common/src/main/java/org/esb/rpc/RpcServerActor.java:24-27 | every step keeps the pools of two workers per service well formed and all counts positive |
| CallRuns.RunKeeps | esb-common/src/main/java/org/esb/rpc/RpcProviderActor.java:52-82 | both invariants hold through every run |
| CallRuns.FailingCallLoses | esb-common/src/main/java/org/esb/rpc/RpcProviderActor.java:55-66 | in every state, handling a call that throws counts it, loses it and loses every other count its worker holds, and, if the pool escalates, those of the other worker |
| CallCounting.RpcProviderActor.OnReceive | esb-common/src/main/java/org/esb/rpc/RpcProviderActor.java:52-82 | a call adds one to its method and nothing else, then maybe throws; a tick reports the whole counter and clears it; as the step system has it |
| ProtocolRegistry.ProtocolFactory.constructor | esb-common/src/main/java/org/esb/protocol/ProtocolFactory.java:24-41 | the registry invariant holds with the two built-in protocols, under their default addresses, and nothing current |
| ProtocolRegistry.ProtocolFactory.Provide | esb-common/src/main/java/org/esb/protocol/ProtocolFactory.java:43-61 | keeps the invariant also when an unknown name or a missing list stops the call: current protocols under their own names, non-default ones the same objects as the built-in ones, each `providers` set exactly the beans whose list reached it; the outcome names the first unknown protocol |
| ProtocolRegistry.ProtocolFactory.ProvideListed | esb-common/src/main/java/org/esb/protocol/ProtocolFactory.java:47-60 | the loop reaches exactly the names before the first unknown one |
| ProtocolRegistry.ProtocolFactory.ProvideThrough | esb-common/src/main/java/org/esb/protocol/ProtocolFactory.java:48-59 | one round finds a current protocol or activates a built-in one, and fails on exactly the unknown names |
| ProtocolRegistry.ProtocolFactory.GetDefaultProtocol | esb-common/src/main/java/org/esb/protocol/ProtocolFactory.java:67-76 | creates the default protocol once, and always answers that object |
| ProtocolRegistry.ProtocolFactory.Consume | esb-common/src/main/java/org/esb/protocol/ProtocolFactory.java:63-65 | records the consumer with the default protocol and keeps the invariant |
| ProtocolRegistry.ProtocolFactory.Start | esb-common/src/main/java/org/esb/protocol/ProtocolFactory.java:81-89 | afterwards a built-in protocol serves exactly when some bean's list reached it |
| ProtocolRegistry.Protocol.Provide | esb-common/src/main/java/org/esb/protocol/AbstractProtocol.java:26-29 | records the provider and settles the URL |
| ProtocolRegistry.Protocol.GetUrl | esb-common/src/main/java/org/esb/protocol/AbstractProtocol.java:41-46 | the URL is set once, from the default |
| ProtocolRegistry.Protocol.Start | esb-common/src/main/java/org/esb/rpc/rest/RestServiceProtocol.java:81-92 | REST opens its server only if a resource class was registered |
| ProtocolRegistry.ReachedIsKnownPrefix | esb-common/src/main/java/org/esb/protocol/ProtocolFactory.java:47-60 | what a call reaches is a prefix of known names followed by an unknown one or nothing |
| ProtocolRegistry.ReachedUnique | esb-common/src/main/java/org/esb/protocol/ProtocolFactory.java:47-60 | and it is the only such prefix |
| ProtocolRegistry.OutcomeExact | esb-common/src/main/java/org/esb/protocol/ProtocolFactory.java:43-61 | a call is done exactly if every listed name is known, and otherwise names the first unknown one |
| ProtocolRegistry.NamesReachingAdd | esb-common/src/main/java/org/esb/protocol/AbstractProtocol.java:26-29 | one more bean adds its name exactly to the protocols it reached |
| NumberFormat.FormatNumber | esb-monitor-admin/src/main/webapp/static/js/jquery.sparkline.js:532-543 | the right-to-left splicing yields the grouped integer part and the fraction behind the new decimal mark |
| NumberFormat.GroupsExact | esb-monitor-admin/src/main/webapp/static/js/jquery.sparkline.js:539-541 | the groups spell the digits, each after the first has exactly `groupsize`, the first 1 to `groupsize` |
| NumberFormat.FormattedExact | esb-monitor-admin/src/main/webapp/static/js/jquery.sparkline.js:532-543 | the result is the groups with one separator between neighbours, then the mark and the remaining digits |
| NumberFormat.JoinBetween | esb-monitor-admin/src/main/webapp/static/js/jquery.sparkline.js:539-542 | any two neighbouring parts are joined by exactly one separator |
| NumberFormat.SeparatorsDelete | esb-monitor-admin/src/main/webapp/static/js/jquery.sparkline.js:532-543 | deleting the separators gives back the text with only the decimal mark changed |
| NumberFormat.SignKeptIff | esb-monitor-admin/src/main/webapp/static/js/jquery.sparkline.js:532-543 | a negative number is its absolute value formatted with a sign in front exactly when the integer digits do not fill whole groups ("-,123" otherwise) |
| PendingQueue.Pending.DisplayVisible | esb-monitor-admin/src/main/webapp/static/js/jquery.sparkline.js:985-1006 | one pass draws each visible entry exactly once in queue order, and its descending splices leave exactly the entries neither visible nor detached without a mark, in order |
| PendingQueue.PassExact | esb-monitor-admin/src/main/webapp/static/js/jquery.sparkline.js:985-1006 | entry by entry: a pass draws every waiting chart of a visible element once in order of registration and removes it, drops the detached without a mark, keeps the rest, and unmarks exactly what it takes out |
| PendingQueue.SpliceAllExact | esb-monitor-admin/src/main/webapp/static/js/jquery.sparkline.js:1003-1005 | removing ascending positions from the last to the first is filtering |
| PendingQueue.Pending.RegisterChart | esb-monitor-admin/src/main/webapp/static/js/jquery.sparkline.js:965-978 | drawn at once when visible; otherwise queued at the end, earlier entries removed unless composite or unmarked |
| PendingQueue.RegisterExact | esb-monitor-admin/src/main/webapp/static/js/jquery.sparkline.js:965-978 | entry by entry: what registering a visible, hidden or composite chart adds, removes and keeps |
| PendingQueue.SoleEntryIff | esb-monitor-admin/src/main/webapp/static/js/jquery.sparkline.js:965-975 | registering a hidden non-composite chart leaves exactly one entry for its element exactly when the element is still marked or was not waiting |
| PendingQueue.DiscardDuplicates | esb-monitor-admin/src/main/webapp/static/js/jquery.sparkline.js:990-999 | an element removed from the page and registered again waits twice |
| PendingQueue.RunOnce | esb-monitor-admin/src/main/webapp/static/js/jquery.sparkline.js:965-1006 | over every run: waiting charts are in registration order, none of them has been drawn, and none has been drawn twice |
| PendingQueue.RunKept | esb-monitor-admin/src/main/webapp/static/js/jquery.sparkline.js:965-1006 | while the page removes no element, every waiting element is marked and the latest chart of every element waits or has been drawn |
| PendingQueue.RunSingle | esb-monitor-admin/src/main/webapp/static/js/jquery.sparkline.js:965-1006 | without composite charts and removals no element ever waits twice |

## Left out

- BarLayout.Layout: states which bars are on the canvas for heights of at least 4.
- BarLife.LayOutAndLive: the same heights, and plain charts; where the segments of a stack are placed is not modelled.
- BarLayout.Init: does not model stacked values, whose segments add a pixel each and have no canvas bound.
- LineLayout.Prepare: assumes that given x values are at least as many as the values, a canvas of height at least 1 and non-negative width, and a non-negative spot radius.
- LineLayout.Hover: the same assumptions.
- AxisScale.ChartScale: answers `None` when all data are one value, where the original takes the logarithm of 0.
- AxisScale.DrawChart: answers `None` also when there is no room for a step, where the original divides by 0; the animation factor is left out.
- AxisScale.PopulateLabels: labels are numbers; the template and the rounding of `toFixed` are not modelled.
- HexCodec.Str2HexStr: starts from the bytes of the string; the platform charset of `getBytes` is not modelled.
- HexCodec.HexStr2Str: ends with the bytes; the platform charset of `new String` is not modelled.
- HexCodec.HexStr2Bytes: digits outside ASCII, which `Integer.parseInt` also accepts, are not modelled.
- CallRuns.RunAccounts: the monitors are those subscribed from the start, and two beans of one name, which Akka refuses, do not occur; which supervision Akka gives a pool is a parameter of the system.
- ProtocolRegistry.ProtocolFactory.Provide: exceptions thrown inside a protocol's own server start are not modelled.
- NumberFormat.FormatNumber: starts from the decimal text that `toString` or `toFixed` gives.
- PendingQueue.Pending.DisplayVisible: visibility is fixed during a pass, and drawing does not itself change the queue.
- Floating-point rounding, not a number and infinities: the arithmetic is exact.
- The DOM, canvas drawing calls, the VML canvas, tooltips, mouse binding, colours and CSS.
- Tristate, discrete and box charts beyond the highlighting that tristate and discrete charts share with bars.
- The spots, the normal range and the colour of line charts; polar area, radar, pie and doughnut charts of Chart.js; animation.
- Cluster membership tracking in `CoreServerActor`, and the socket, serial port, JMS, HTTP, CXF and Spring classes.
- Controllers, interceptors, beans and configuration.
