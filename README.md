# Advanced Outline stroke builder — a Dafny model

This project models the discrete skeleton of synfig's *Advanced Outline*
layer (`synfig-core/src/modules/mod_geometry/advanced_outline.cpp`). That is
the code that turns a spline, a width profile and a dash pattern into the
two side buffers of a stroke and then into polygons. The model covers:

- the spline position table (`bline_pos` / `hbline_pos`) and `bezier_size`,
  plus the conversions `bline_to_bezier` / `bezier_to_bline`;
- the width point list preparation: normalise, sort, add synthetic boundary
  points for an open or a looped spline, sort again;
- the dash expansion: the cycle length, the dash offset normalisation, the
  forward and backward walks, the trimming of the pairs that straddle 1.0 and
  0.0, and the blank pair used when no dash falls on the spline;
- the merge filter between dash width points and regular width points, the
  replacement of the working list, and the single "renders nothing" point;
- the move of the working list to homogeneous positions, and the first/last
  tip fix-ups;
- `add_tip`, the cap geometry for the Flat, Squared and Peak sides in exact
  plane arithmetic, and the Rounded caps as points on the cap's Hermite curve;
- the final polygon assembly.

Positions, lengths and coordinates are exact `real`s. The helpers that the
file calls but does not define are fields of `External.Helpers`:
`std_to_hom`, `hom_to_std`, `WidthPoint::get_norm_position` and
`widthpoint_interpolate`. They are values of function type, fixed for one run
of `sync()`. `bline_length` is a parameter of `Outline.Prologue`. A property
that needs `std_to_hom` to be increasing says so in its `requires`.

Modules follow the stages of `sync()`:

- `WidthPoints` holds the records and the sort.
- `Positions` holds the position table.
- `Profile` holds the width list preparation.
- `DashOffset`, `DashWalk` and `Dashes` hold the dash expansion.
- `Merge` holds the filter.
- `Outline` holds the stages after the filter and the composition `Prologue`.
- `Geometry` and `Tips` hold `add_tip`.
- `Polygon` holds the polygon assembly.
- `Sequences` holds the reversal that the backward walk and the polygon assembly share.

Behaviour of the code worth noting, all of it modelled as written:

- The synthetic 0.0 / 1.0 points of an open spline carry the width of the
  front / back point.
- Two width points may share a position after normalisation; nothing
  removes either.
- The dash offset is reduced by `fmod` only when its magnitude exceeds the
  cycle length L. The walks therefore start anywhere in [0, L], L included.
- A looped list adds its 0.0 point when the front is not at 0.0, and its 1.0
  point when the back is not at 1.0. Each condition is checked on its own,
  and only when either end blends.
- For an empty looped list, the two points are added but `inserted_first` and
  `inserted_last` stay false.
- A dashed outline whose pattern or spline length is at most EPSILON has its
  working list replaced by the empty filtered list. It therefore draws only
  the point that renders nothing.
- In homogeneous mode a walk start past the spline's length lays down dash
  points beyond 1.0: the forward walk takes no step, so no end trim
  happens, and the front trim only clamps positions at or below 0.0
  (`Dashes.StartPastEnd`). The merge then keeps a dash point only strictly
  inside a blending interval of the regular list (`Merge.VisibleDashInside`).

## Model

| member | source | states |
|---|---|---|
| `Positions.BezierSize` | synfig-core/src/modules/mod_geometry/advanced_outline.cpp:195 | bezier_size is positive and times the number of segments (n looped, n-1 open, 1 for a single point) is exactly 1 |
| `Positions.BuildPositions` | synfig-core/src/modules/mod_geometry/advanced_outline.cpp:207-228 | the loop builds exactly the position table and its homogeneous shadow (std_to_hom of each entry, or the entry itself when fast, last entry 1.0) |
| `Positions.PositionTableShape` | synfig-core/src/modules/mod_geometry/advanced_outline.cpp:207-228 | the table has n+1 entries looped and n open, starts at 0, ends at exactly 1, each entry is i*bezier_size, and it is strictly increasing |
| `Positions.PositionTableSpacing` | synfig-core/src/modules/mod_geometry/advanced_outline.cpp:195-228 | consecutive entries are exactly bezier_size apart |
| `Positions.HomTableIncreasing` | synfig-core/src/modules/mod_geometry/advanced_outline.cpp:207-228 | with std_to_hom strictly increasing on [0,1] and 1 at 1, the homogeneous table is strictly increasing too |
| `Positions.BlineToBezier` | synfig-core/src/modules/mod_geometry/advanced_outline.cpp:1283-1288 | for a non-zero size the result maps back to the spline position through origin + q*size; a zero size returns the input unchanged |
| `Positions.BezierToBline` | synfig-core/src/modules/mod_geometry/advanced_outline.cpp:1290-1294 | bline_to_bezier undoes it for a non-zero size |
| `Positions.ConversionRoundTrip` | synfig-core/src/modules/mod_geometry/advanced_outline.cpp:1283-1294 | both round trips are the identity for a non-zero size |
| `Positions.LocalCoordinateInUnit` | synfig-core/src/modules/mod_geometry/advanced_outline.cpp:1283-1288 | inside segment i of the table the local coordinate lies in [0,1], is 0 at the segment start and 1 at its end |
| `WidthPoints.Insert` | synfig-core/src/modules/mod_geometry/advanced_outline.cpp:242 | inserting into a sorted list keeps it sorted and adds exactly the new point |
| `WidthPoints.SortByPosition` | synfig-core/src/modules/mod_geometry/advanced_outline.cpp:242 | the sort returns a permutation of its input ordered by position |
| `Profile.Normalise` | synfig-core/src/modules/mod_geometry/advanced_outline.cpp:239-240 | every point gets get_norm_position as its position and nothing else changes |
| `Profile.NormalisedKeepsRest` | synfig-core/src/modules/mod_geometry/advanced_outline.cpp:239-240 | normalising changes only the position of each point |
| `Profile.OpenBoundary` | synfig-core/src/modules/mod_geometry/advanced_outline.cpp:265-288 | an open list gets a start-tip point at 0.0 exactly when its front blends before and is not at 0.0, an end-tip point at 1.0 under the symmetric condition, each at most once and the 0.0 point first, and both when empty; the added points are not dash points and carry the front / back point's width, or 1.0 for an empty list |
| `Profile.LoopedBoundary` | synfig-core/src/modules/mod_geometry/advanced_outline.cpp:289-336 | a looped list gets nothing unless an end blends across the wrap; every added point blends on both sides and is not a dash point; inserted_first/last are true exactly when a 0.0/1.0 point is added to a non-empty list, and each kind is added at most once, the 0.0 point first; an added point's width is widthpoint_interpolate of the back and the front point (moved to homogeneous positions unless the list is homogeneous or fast) at its position, or 1.0 for an empty list |
| `Profile.PrepareWidthList` | synfig-core/src/modules/mod_geometry/advanced_outline.cpp:238-338 | the prepared list is sorted, non-empty, and is the normalised, sorted list plus the boundary points, sorted again |
| `Profile.AddOpenBoundary` | synfig-core/src/modules/mod_geometry/advanced_outline.cpp:265-288 | the push_backs append exactly the open boundary points |
| `Profile.AddLoopedBoundary` | synfig-core/src/modules/mod_geometry/advanced_outline.cpp:289-336 | the push_backs append exactly the looped boundary points and set both flags as LoopedBoundary says |
| `Profile.OpenProfileCovered` | synfig-core/src/modules/mod_geometry/advanced_outline.cpp:265-288 | for distinct positions in [0,1], an open prepared profile starts at 0.0 or with a cap and ends at 1.0 or with a cap |
| `Profile.LoopedProfileSpansUnit` | synfig-core/src/modules/mod_geometry/advanced_outline.cpp:289-338 | when the wrap boundary blends on either side, the looped prepared profile runs from exactly 0.0 to exactly 1.0 |
| `Profile.OpenEmptyProfile` | synfig-core/src/modules/mod_geometry/advanced_outline.cpp:282-287 | an empty open list becomes exactly [(0.0, 1.0, start_tip, INTERPOLATE), (1.0, 1.0, INTERPOLATE, end_tip)] |
| `Profile.LoopedEmptyProfile` | synfig-core/src/modules/mod_geometry/advanced_outline.cpp:329-335 | an empty looped list becomes two blending points of width 1.0 at 0.0 and 1.0, with both flags false |
| `DashOffset.DashesLength` | synfig-core/src/modules/mod_geometry/advanced_outline.cpp:361-364 | the loop sums offset + length over all dash items |
| `DashOffset.Fmod` | synfig-core/src/modules/mod_geometry/advanced_outline.cpp:368 | C fmod: the remainder has the dividend's sign, is below the divisor in magnitude, and differs from the dividend by whole cycles |
| `DashOffset.StartPosition` | synfig-core/src/modules/mod_geometry/advanced_outline.cpp:366-370 | the walks' start dpos lies in [0, dashes_length] and differs from the dash offset by whole cycles |
| `DashOffset.StartPositionCycleShift` | synfig-core/src/modules/mod_geometry/advanced_outline.cpp:366-370 | shifting the dash offset by one cycle leaves the start unchanged, except that 0 and dashes_length may trade places |
| `DashWalk.CursorPeriodic` | synfig-core/src/modules/mod_geometry/advanced_outline.cpp:385-388 | the item iterator, wrapped to the first item at the end, returns to the same item after a whole cycle |
| `DashWalk.WalkedPeriodic` | synfig-core/src/modules/mod_geometry/advanced_outline.cpp:384 | every whole cycle of steps advances the walk by dashes_length |
| `DashWalk.WalkForward` | synfig-core/src/modules/mod_geometry/advanced_outline.cpp:373-390 | the forward walk terminates; each step that starts before the spline length appends one (before, after) dash pair of the current item and advances by offset + length; the walk stops at or past the length |
| `DashWalk.SumStepsReversed` | synfig-core/src/modules/mod_geometry/advanced_outline.cpp:418-438 | walking the reversed pattern covers the same cycle length |
| `DashWalk.WalkBackward` | synfig-core/src/modules/mod_geometry/advanced_outline.cpp:418-438 | the backward walk terminates; each step that starts above 0 inserts the reversed item's pair at the front and moves back by offset + length; the walk stops at or below 0 |
| `Dashes.TrimEnd` | synfig-core/src/modules/mod_geometry/advanced_outline.cpp:392-417 | the last forward pair is dropped, with the counter decremented, exactly when both its points are at or past 1.0; otherwise its end is clipped to min(pos, 1.0); the dash end tip becomes that point's after side exactly when it is clipped, and stays the incoming tip otherwise; earlier pairs are untouched |
| `Dashes.TrimStart` | synfig-core/src/modules/mod_geometry/advanced_outline.cpp:440-465 | the first backward pair is dropped exactly when both its points are at or before 0.0; otherwise its start is clipped to max(pos, 0.0); the dash start tip becomes that point's before side exactly when it is clipped, and stays the incoming tip otherwise; the rest is untouched |
| `Dashes.JoinPaired` | synfig-core/src/modules/mod_geometry/advanced_outline.cpp:373-478 | the joined dash list has even length, at least two points, and alternates run-start (after side blends) and run-end (before side blends) dash points of width 1 |
| `Dashes.ExpandDashes` | synfig-core/src/modules/mod_geometry/advanced_outline.cpp:351-478 | no dash points without items, spline length or pattern length; otherwise the backward pairs front-trimmed and the forward pairs end-trimmed, plus the blank pair at 0.5 when both counters end at 0; the list is paired |
| `Dashes.DashesInUnit` | synfig-core/src/modules/mod_geometry/advanced_outline.cpp:392-465 | in homogeneous mode with non-negative items and a start no further than the spline's length, every trimmed dash point lies in [0,1] |
| `Dashes.StartPastEnd` | synfig-core/src/modules/mod_geometry/advanced_outline.cpp:366-465 | one item with gap 2 and run 1, offset 2.5, spline length 1, homogeneous: the dash list is exactly the pair at 1.5 and 2.5, beyond the spline |
| `Dashes.BackwardTrimmedInUnit` | synfig-core/src/modules/mod_geometry/advanced_outline.cpp:418-465 | in homogeneous mode the front trim never drops a pair, and the trimmed backward points lie in [0,1] |
| `Merge.Filter` | synfig-core/src/modules/mod_geometry/advanced_outline.cpp:479-537 | the filtered list is the dash points kept interval by interval, followed by the regular points kept dash run by dash run |
| `Merge.KeepDashes` | synfig-core/src/modules/mod_geometry/advanced_outline.cpp:479-514 | the do-while over width point intervals, the looped one starting from the last point, collects exactly the visible dash points |
| `Merge.CollectInside` | synfig-core/src/modules/mod_geometry/advanced_outline.cpp:500-509 | collects, in order, exactly the dash points strictly inside the interval |
| `Merge.KeepWidths` | synfig-core/src/modules/mod_geometry/advanced_outline.cpp:515-537 | the pairwise walk over dash runs collects exactly the covered regular points |
| `Merge.CollectWithin` | synfig-core/src/modules/mod_geometry/advanced_outline.cpp:523-530 | collects, in order, exactly the regular points in the closed range of a dash run |
| `Merge.VisibleDashInside` | synfig-core/src/modules/mod_geometry/advanced_outline.cpp:479-514 | every kept dash point is a dash point strictly inside some consecutive interval of the sorted regular list that has a blending side, and so inside the list's span |
| `Merge.DashInsideVisible` | synfig-core/src/modules/mod_geometry/advanced_outline.cpp:479-514 | conversely, every dash point strictly inside a consecutive interval with a blending side is kept |
| `Merge.VisibleWidthCovered` | synfig-core/src/modules/mod_geometry/advanced_outline.cpp:515-537 | every kept regular point lies in the closed range of some dash pair |
| `Merge.CoveredWidthVisible` | synfig-core/src/modules/mod_geometry/advanced_outline.cpp:515-537 | conversely, every regular point in the closed range of some dash pair is kept |
| `Outline.FilteredFrom` | synfig-core/src/modules/mod_geometry/advanced_outline.cpp:479-537 | every filtered point is a dash point or a regular point |
| `Outline.UseFiltered` | synfig-core/src/modules/mod_geometry/advanced_outline.cpp:558-577 | when dashing, the working list becomes the filtered list re-sorted (same points, in position order); an empty result becomes the single point (0.5, 1.0, FLAT, FLAT, dash); without dashes the list is kept |
| `Outline.MakeHomogeneous` | synfig-core/src/modules/mod_geometry/advanced_outline.cpp:584-589 | unless already homogeneous, every position goes through std_to_hom and nothing else changes |
| `Outline.MapPositionsSorted` | synfig-core/src/modules/mod_geometry/advanced_outline.cpp:584-589 | a monotone std_to_hom keeps a sorted list in [0,1] sorted |
| `Outline.FixOpenTips` | synfig-core/src/modules/mod_geometry/advanced_outline.cpp:634-641 | a first point at 0.0 takes the start tip before, a last point at 1.0 takes the end tip after; no other field or point changes |
| `Outline.FixDashedTips` | synfig-core/src/modules/mod_geometry/advanced_outline.cpp:647-655 | a first (last) point that blends before (after) takes the dash start (end) tip; afterwards an end blends outward only if that dash tip does |
| `Outline.WithEndsFrame` | synfig-core/src/modules/mod_geometry/advanced_outline.cpp:630-655 | setting the end sides changes only the first point's before side and the last point's after side: every position, width and dash flag and every inner point stay |
| `Outline.FixedEnds` | synfig-core/src/modules/mod_geometry/advanced_outline.cpp:630-655 | the fixed first (last) side is the layer's tip, or the dashes' tip when dashing, for an open end at 0.0 (1.0); a dashed end blends outward only if the dashes' tip does; an end neither fix-up reaches keeps its side |
| `Outline.FixTips` | synfig-core/src/modules/mod_geometry/advanced_outline.cpp:630-655 | both fix-ups in order give the list with exactly its first before side and last after side replaced by the values FixedBefore and FixedAfter give; a looped outline without dashes is unchanged |
| `Outline.DashStage` | synfig-core/src/modules/mod_geometry/advanced_outline.cpp:351-577 | without dashing the list and the FLAT dash tips are kept; dashing with nothing to walk leaves only the point that renders nothing; otherwise the dash list is the trimmed forward and backward walks joined, the dash tips come from the trims, and the working list is a permutation of the merge's kept dash and regular points, or the renders-nothing point when it keeps none |
| `Outline.FinishStage` | synfig-core/src/modules/mod_geometry/advanced_outline.cpp:579-655 | widths and dash flags are kept and positions become homogeneous; inner sides are kept; the first before side and the last after side become FixedBefore / FixedAfter of the homogeneous position; the renders-nothing point keeps its FLAT/FLAT sides |
| `Outline.Prologue` | synfig-core/src/modules/mod_geometry/advanced_outline.cpp:127-655 | no output for an empty spline or a single open point; otherwise the position tables, the looped flags, a non-empty working list of the prepared length without dashes, and only the renders-nothing point when dashing has nothing to walk |
| `Tips.AddTip` | synfig-core/src/modules/mod_geometry/advanced_outline.cpp:1297-1412 | add_tip only appends: both sides keep their old points and grow by the same count; the appended points are the before cap then the after cap, placed at the vertex with width gv*(expand + width*0.5*wp.width) |
| `Tips.BeforeCoords` | synfig-core/src/modules/mod_geometry/advanced_outline.cpp:1301-1353 | a before cap adds 15 points when rounded, 4 when squared, 3 when peaked, 1 when flat and none when blending; it starts at the vertex and a rounded, squared or peaked one ends at the vertex's offset on its own side |
| `Tips.AfterCoords` | synfig-core/src/modules/mod_geometry/advanced_outline.cpp:1355-1411 | an after cap adds 15, 5, 4, 1 or 0 points and ends at the vertex; a squared, peaked or flat one also starts there |
| `Tips.BeforeCap` | synfig-core/src/modules/mod_geometry/advanced_outline.cpp:1301-1353 | the first switch pushes exactly the before cap's points on both sides |
| `Tips.AfterCap` | synfig-core/src/modules/mod_geometry/advanced_outline.cpp:1355-1411 | the second switch pushes exactly the after cap's points on both sides |
| `Tips.RoundedBeforeCap` | synfig-core/src/modules/mod_geometry/advanced_outline.cpp:1303-1321 | the rounded before cap is the vertex, 13 samples of the cap curve walking out from its middle, and the curve's end on each side |
| `Tips.RoundedAfterCap` | synfig-core/src/modules/mod_geometry/advanced_outline.cpp:1357-1375 | the rounded after cap is 13 samples of the cap curve, the curve's middle and the vertex on each side |
| `Tips.SquaredBeforePlaced` | synfig-core/src/modules/mod_geometry/advanced_outline.cpp:1322-1333 | the squared before cap is vertex, vertex-t*w, vertex+(perp-t)*w, vertex+perp*w on side a, mirrored on side b |
| `Tips.PeakBeforePlaced` | synfig-core/src/modules/mod_geometry/advanced_outline.cpp:1334-1343 | the peaked before cap is vertex, vertex-t*w, vertex±perp*w |
| `Tips.SquaredAfterPlaced` | synfig-core/src/modules/mod_geometry/advanced_outline.cpp:1376-1389 | the squared after cap is vertex, vertex+t*w, vertex+(t∓perp)*w, vertex∓perp*w, vertex |
| `Tips.PeakAfterPlaced` | synfig-core/src/modules/mod_geometry/advanced_outline.cpp:1390-1401 | the peaked after cap is vertex, vertex+t*w, vertex∓perp*w, vertex |
| `Tips.FlatPlaced` | synfig-core/src/modules/mod_geometry/advanced_outline.cpp:1344-1349 | a flat face adds the vertex once to each side |
| `Tips.ArcEnds` | synfig-core/src/modules/mod_geometry/advanced_outline.cpp:1305-1310 | the rounded cap curves run from the vertex's offset on side b to its offset on side a |
| `Tips.ArcApex` | synfig-core/src/modules/mod_geometry/advanced_outline.cpp:1359-1364 | the rounded cap curves' middle lies one width behind (before cap) or ahead of (after cap) the vertex |
| `Geometry.HermiteEnds` | synfig-core/src/modules/mod_geometry/advanced_outline.cpp:1305-1310 | the cap's Hermite curve starts at its first point and ends at its second |
| `Polygon.Stitch` | synfig-core/src/modules/mod_geometry/advanced_outline.cpp:1021-1023 | popping side_b onto side_a leaves side_a ++ reverse(side_b) and side_b empty |
| `Polygon.Assemble` | synfig-core/src/modules/mod_geometry/advanced_outline.cpp:1014-1026 | a looped outline gives the two polygons side_a and reverse(side_b); an open one the single polygon side_a ++ reverse(side_b) |
| `Polygon.OpenPolygonShape` | synfig-core/src/modules/mod_geometry/advanced_outline.cpp:1021-1026 | the open polygon holds every point of both sides, starts with side_a and ends with side_b's first point |

## Left out

- The sampling loop (lines 656-1012) is left out: the Hermite evaluation of the spline segments, tangent normalisation, cusp insertion and width interpolation along the curve. It needs ETL's curve and derivative objects and square roots. As a result `add_tip` is modelled as an operation on its own, not at its call sites.
- `add_cusp` (lines 1413-1500) is left out. It uses norms, angles, `sin`/`cos` and an external line intersection. Its static debug counter has no effect on the output.
- The standard-position shadow copies `swplist`, `cwplist` and `scwplist` (lines 558-562, 579-583, 590-623) are left out. Only the sampling loop reads them.
- `std_to_hom`, `hom_to_std`, `bline_length`, `get_norm_position` and `widthpoint_interpolate` are parameters with no body. Their arc-length sampling is not part of this model.
- Floating point is not modelled: every position and length is an exact real. `EPSILON` comparisons, the exact `== 0.0` / `== 1.0` tests and the `1.0` stored last in the position table keep their meaning. Rounding is not modelled.
- The Rounded caps' loop variable is a `float` stepped by 2/SAMPLES. The model steps it exactly, which gives the same 13 samples.
- `std::sort` is not stable. `SortByPosition` puts later points before earlier ones at the same position (`WidthPoints.TieOrder`), which is one of the orders `std::sort` may produce.
- `gv`, the exponential of the parent canvas grow value (line 198), is a parameter of `add_tip`.
- `add_polygon` and the cairo rendering (lines 1502-1677) are left out. Polygons are returned as a list.
- Parameter handling (`set_param`, `get_param`, `get_param_vocab`, `connect_dynamic_param`, `set_version`, `set_time`) is left out. The model takes its inputs already resolved.
- synfig-studio/src/gui/docks/dock_toolbox.cpp and synfig-studio/plugins/lottie-exporter/shapes/shape.py are not part of this model.
- Dashes.ExpandDashes: the dash positions are proved to lie in [0, 1] only in homogeneous mode, with non-negative dash items and a start no further than the spline length. The code itself does not keep them in [0, 1] otherwise. A start past the spline's length leaves points beyond 1.0 (`Dashes.StartPastEnd`), and outside homogeneous mode the positions go through `hom_to_std`, which is unconstrained here.
- Outline.Prologue: states the tables, the flags, the list length without dashes and the renders-nothing fallback. The content of the working list is stated by the stage members it calls (`Profile.PrepareWidthList`, `Outline.DashStage`, `Outline.FinishStage`).
