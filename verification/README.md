# ergocalc canvas core in Dafny

ergocalc is a tablet web page for ergonomic measurement. The user picks a finger
(thumb to pinky) and taps the canvas. Each tap leaves a dot for that finger. For
each finger, the canvas then draws:

- the centroid of its dots;
- its *main direction line*: the principal axis of the dots' scatter, drawn
  1000 units each side of the centroid;
- three 80-unit squares, 10 units apart, stacked vertically (one dot) or laid
  along the direction line (two dots or more).

In *paint mode* the user instead traces grey exclusion zones. Later taps inside
a committed zone are ignored; the zone test uses even–odd ray casting.

The same logic appears twice in the repository: once in `page.tsx` (self-contained)
and once in `src/components/TabletCanvas.jsx` (state lifted into props). This
project models it once:

- `Geometry` (`geometry.dfy`): `getCentroid` and `getMainDirectionLine`. This covers
  the scatter sums `sxx`, `syy` and `sxy`, the angle `0.5*atan2(2 sxy, sxx-syy)` and
  the line end points. The properties proved are:
  - the centroid is the unique mean and moves with translations;
  - offsets from the centroid cancel;
  - the scatter diagonal is non-negative;
  - Cauchy–Schwarz holds for the scatter sums, and they are translation-invariant;
  - the line is symmetric about the centroid and has the right length;
  - the centroid, the scatter sums and the line do not depend on the order of the dots.
- `Containment` (`containment.dfy`): `isPointInPolygon` and `isPointInAnyZone`.
  The properties proved are:
  - the loop computes the parity of edge crossings;
  - the source's division-based test agrees with "the horizontal ray meets the edge";
  - a point is outside when it is at or right of every vertex, strictly left of
    every vertex, or above or below the whole polygon.
- `MarkerLayout` (`marker_layout.dfy`): the geometry of `drawCentroidSquares`, with
  the vertical stack and the oriented row.
- `Session` (`session.dfy`): the component state and every handler, as pure
  functions from state to state. It covers mouse and touch down/move/up, clear
  canvas, clear zones, finger selection and the paint toggle. It also models the
  redraw plan (what `redrawCanvas` strokes) and an invariant of every reachable state.
- `Wrappers` (`wrappers.dfy`): `Option`, standing for the source's `null` results.

Coordinates are exact `real`s. `Math.atan2`, `Math.cos` and `Math.sin` are supplied
as a `Trig` record of functions. Properties that need `cos² + sin² = 1` take it as
the hypothesis `UnitCircle(trig)`.

## Model

Each row cites one of the two copies; the other copy has the same lines at
these places (`page.tsx` / `TabletCanvas.jsx`): `getCentroid` 21-37 / 4-20,
`getMainDirectionLine` 39-74 / 22-57, `isPointInPolygon` 77-91 / 60-74,
`isPointInAnyZone` 145-150 / 131-136, `drawPaintedZones` 152-192 / 138-178,
`drawCentroidSquares` 227-285 / 213-271, `redrawCanvas` 287-318 / 273-304,
`handleMouseDown` 320-349 / 306-333, `handleMouseMove` 351-365 / 335-349,
`handleMouseUp` 367-374 / 351-358, `handleTouchStart` 387-418 / 371-400,
`handleTouchMove` 420-435 / 402-417, `handleTouchEnd` 437-444 / 419-426.
`Session.Release` models both `handleMouseUp` and `handleTouchEnd`.

| member | source | states |
|---|---|---|
| Geometry.Centroid | page.tsx:21-37 | No centroid (`null`) exactly when there are no points |
| Geometry.CentroidIsMean | page.tsx:25-36 | n copies of the centroid add up to the coordinate-wise sum of the n points, so the centroid is their mean |
| Geometry.MeanIsUnique | page.tsx:25-36 | Any point whose n copies add up to the sum is the centroid |
| Geometry.CentroidOfSingleton | page.tsx:21-37 | A single dot is its own centroid |
| Geometry.CentroidSwapRuns | page.tsx:25-31 | The centroid does not depend on the order in which two runs of dots were captured |
| Geometry.SumPermutation | page.tsx:25-31 | Two lists holding the same dots the same number of times have the same summed coordinates |
| Geometry.CentroidPermutation | page.tsx:20-36 | The centroid depends only on the multiset of dots, not on their order |
| Geometry.CentroidTranslate | page.tsx:21-37 | Shifting every dot by v shifts the centroid by v |
| Geometry.OffsetsFromCentroidCancel | page.tsx:50-56 | The offsets dx, dy taken from the centroid sum to zero in each coordinate |
| Geometry.ComputeScatter | src/components/TabletCanvas.jsx:30-39 | The source's accumulation loop yields exactly the scatter sums of the points about the centre |
| Geometry.ScatterNonNegative | page.tsx:53-54 | sxx and syy are sums of squares, never negative |
| Geometry.FormNonNegative | page.tsx:50-57 | a²·sxx + 2ab·sxy + b²·syy equals the sum of (a·dx + b·dy)², so it is never negative; the scatter matrix is positive semi-definite |
| Geometry.MixedSquaresExpand | page.tsx:50-57 | The sum of (a·dx + b·dy)² over the points equals the quadratic form of the accumulated sums |
| Geometry.ScatterCauchySchwarz | page.tsx:47-57 | sxy² ≤ sxx·syy for the sums the loop accumulates, so atan2 never sees an impossible covariance |
| Geometry.ScatterTranslate | page.tsx:50-57 | Moving all points and the centre by the same vector leaves the scatter sums unchanged |
| Geometry.ScatterAppend | page.tsx:47-57 | The scatter sums of a concatenation are the field-wise sum of the two parts' scatter sums |
| Geometry.ScatterPermutation | page.tsx:47-57 | Two lists holding the same dots the same number of times have the same scatter sums |
| Geometry.ScatterSwapRuns | page.tsx:47-57 | Swapping two runs of dots keeps the scatter sums |
| Geometry.MainDirectionLine | page.tsx:39-74 | The result is `null` exactly for fewer than two points. Otherwise the centre is the centroid and the angle is 0.5·atan2(2 sxy, sxx − syy) of the scatter about it. p1 and p2 are mirror images through the centroid, and p2 − p1 is 2·1000 times (cos θ, sin θ) |
| Geometry.LineEndsAtLineLength | page.tsx:59-71 | With a unit direction, each end point lies exactly 1000 from the centroid |
| Geometry.DirectionLineTranslate | page.tsx:39-74 | Translating every dot translates the centroid and both ends and leaves the angle unchanged |
| Geometry.DirectionLinePermutation | page.tsx:39-74 | The direction line (centroid, angle and both ends) depends only on the multiset of dots, not on their order |
| Geometry.DirectionLineSwapRuns | page.tsx:39-74 | Swapping two runs of captured dots gives the same direction line |
| Geometry.CoincidentPointsAngle | page.tsx:44-59 | When all dots coincide, the centroid is that spot and the angle is 0.5·atan2(0, 0) |
| Containment.IsPointInPolygon | page.tsx:77-91 | A polygon with fewer than three vertices contains nothing |
| Containment.EvenOddRule | page.tsx:77-91 | A point is inside exactly when the polygon has three or more vertices and an odd number of edges pass the crossing test |
| Containment.PointInPolygon | src/components/TabletCanvas.jsx:60-74 | The source's i/j loop (j trailing i, starting at the last vertex) computes the even–odd result; inside implies at least three vertices |
| Containment.EdgeToggles | page.tsx:82-85 | The source's condition holds exactly when the edge straddles the point's height and the rightward horizontal ray from the point meets the edge. The division is guarded by the straddle test, so its denominator is never zero |
| Containment.CrossesIffRayMeetsEdge | page.tsx:82-85 | For a straddling edge, the test holds exactly when the rightward horizontal ray from the point meets the edge at a parameter in [0, 1] |
| Containment.OutsideVerticalRange | page.tsx:77-91 | A point whose y is at least every vertex's y, or strictly less than every vertex's y, is outside |
| Containment.EdgePointsOfSquare | page.tsx:82-85 | The vertical bound is tight: on the square (0,0)–(10,10), (5,0) on the lowest edge counts as inside, and (5,10) on the top edge counts as outside |
| Containment.OutsideRightOfVertices | page.tsx:77-91 | A point at or right of every vertex is outside |
| Containment.StraddleTelescopes | page.tsx:77-91 | When every straddling edge toggles, the parity after k edges is whether vertex k-1 and the last vertex lie on different sides of the ray |
| Containment.OutsideLeftOfVertices | page.tsx:77-91 | A point strictly left of every vertex is outside |
| Containment.IsPointInAnyZone | src/components/TabletCanvas.jsx:131-136 | True exactly when some committed zone contains the point |
| Containment.SquareExamples | page.tsx:77-91 | On the square with corners (0,0) and (10,10), (5,5) is inside and (15,5) is outside |
| MarkerLayout.CentroidSquares | page.tsx:227-285 | No squares without points. Otherwise there are three squares of size 80 with the middle one centred on the centroid. They are upright for one point, and rotated by the line's angle for two or more |
| MarkerLayout.StackedLayout | page.tsx:239-254 | One dot gives three upright squares in a column on the dot's x. Their tops are 90 apart, leaving gaps of exactly 10. The 260-unit stack is centred on the dot |
| MarkerLayout.AlignedLayout | page.tsx:256-284 | Two or more dots put the middle centre on the centroid and the outer centres in mirror image. Every centre lies on the direction line at (i − 1)·90 along it |
| MarkerLayout.AlignedSpacing | page.tsx:256-284 | With a unit direction, neighbouring centres are exactly 90 apart |
| Session.Press | page.tsx:320-349 | Paint mode starts a one-vertex zone and leaves the dots unchanged. Otherwise the selected finger gains the point exactly when no zone contains it; other fingers and zones are unchanged, and a rejected point leaves the state unchanged; no finger other than the selected one gains a dot list |
| Session.Extend | page.tsx:351-365 | While painting a zone, a move appends the point to the in-progress zone; otherwise nothing changes |
| Session.Release | page.tsx:367-374 | A paint gesture with more than two vertices is committed as a new zone, and the in-progress zone is cleared. Any other release keeps zones and in-progress zone. Drawing always stops and dots are untouched |
| Session.TouchStartIsOnePress | src/components/TabletCanvas.jsx:371-400 | A touch start is a single press at the touch whose index equals the selected finger, or no change when there is no such touch |
| Session.TouchMoveIsOneExtend | page.tsx:420-435 | A touch move is a single mouse-style move at the selected touch, or no change |
| Session.ClearCanvas | page.tsx:446-461 | All dots, zones and the in-progress zone are gone and drawing stops; finger and mode are kept |
| Session.ClearZones | page.tsx:463-467 | Zones and the in-progress zone are gone and drawing stops; dots, finger and mode are kept |
| Session.ClearCanvasRestarts | page.tsx:446-461 | After clearing the canvas the state is the first-render state, except for the selected finger and paint mode |
| Session.ClearZonesAdmitsEveryTap | page.tsx:463-467 | After clearing the zones, a tap outside paint mode is always added to the selected finger's dots |
| Session.TogglePaintModeTwice | page.tsx:501-509 | Pressing the paint button twice restores the state |
| Session.SelectFinger | page.tsx:486-497 | A finger button selects its finger and changes nothing else |
| Session.TogglePaintMode | page.tsx:501-509 | The paint button flips paint mode and changes nothing else |
| Session.ReachableWellFormed | page.tsx:93-114 | From the initial state, under any event sequence: the selected finger is one of the five, only such fingers hold dots, and every committed zone has three or more vertices |
| Session.RenderFinger | page.tsx:301-316 | A finger gets a direction line exactly when it has two or more dots, and that line is the main direction line of its dots. It gets three squares when it has one dot or more and none otherwise, and they are the centroid squares of its dots |
| Session.Redraw | page.tsx:287-318 | The zones filled are those `drawPaintedZones` fills. The dashed preview appears exactly when the in-progress zone has more than one vertex, and it is that zone. Every finger holding dots is rendered from its own dots |
| Session.FilledZones | page.tsx:160-161 | Every filled outline has more than two vertices, and there are no more of them than zones |
| Session.FilledZonesMembers | page.tsx:160-175 | The filled outlines are exactly the outlines of the zones with more than two vertices: every such zone is filled and nothing else is |
| Session.RedrawFillsEveryZone | page.tsx:160-176 | For a well-formed state, every committed zone is filled, in order |
| Session.ShortStrokeLingers | page.tsx:367-374 | A released two-vertex paint stroke is not committed, and the next redraw still shows it as the dashed preview |
| Session.ThreeClicks | page.tsx:320-349 | From the first-render state, any three clicks are recorded as the thumb's dots in click order |
| Session.CaptureScenario | page.tsx:320-349 | Three clicks at (10,10), (20,10), (15,20) with no zones give the thumb those three dots in order, with centroid (15, 40/3) |

## Left out

- Floating point: coordinates are exact reals, not IEEE doubles. Rounding in the sums, the division by n and the trigonometry is not modelled.
- Trigonometry: `Math.atan2`, `Math.cos` and `Math.sin` are opaque parameters. Only `cos² + sin² = 1` is assumed, as the `UnitCircle` hypothesis of the lemmas that need it. The angle being the scatter matrix's principal eigen-direction is therefore not stated.
- Canvas drawing: colours, line widths, dashes, `strokeRect`, the rotation transform and dot radii are left out. `Redraw` and `CentroidSquares` describe *what* is stroked, not the pixels.
- The DOM: `getBoundingClientRect` offsets, device-pixel-ratio scaling, resize handling and `preventDefault` are left out. Positions arrive already in canvas coordinates.
- React: batching, re-render scheduling and stale closures are left out. Each handler is one synchronous transition of the whole state. In `TabletCanvas.jsx` the state lives in the parent and arrives as props, which makes no difference to the transitions.
- Session.Release: the in-progress zone is cleared only when a zone is committed (page.tsx:368-372). A short or non-paint gesture ends drawing but keeps whatever vertices it had, which the next press in paint mode replaces. `Session.ShortStrokeLingers` shows the visible consequence: a two-vertex stroke stays on screen as a preview.
- Session.Step: a finger button is ignored in paint mode (the buttons are disabled there). A finger index outside 0–4 is ignored, because no such button exists.
- `src/app.jsx` (`clearCanvas` and `clearZones`, lines 14-23): these mirror the `page.tsx` versions, except that they do not reset the canvas's drawing flag. That flag lives inside `TabletCanvas.jsx`, which the parent cannot reach.
- Iteration order of `fingerDots` in `redrawCanvas` decides the paint order of overlapping fingers. `Redraw` returns a map keyed by finger, so that order is not modelled.
- Containment.OutsideVerticalRange: the bound is asymmetric on purpose. A point whose y equals the smallest vertex y is not covered, because the straddle test `polygon[i].y > point.y` is false for a vertex at the point's height, so that vertex counts as not above the point and the edges joining it to higher vertices straddle; `Containment.EdgePointsOfSquare` gives such a point that is inside.
