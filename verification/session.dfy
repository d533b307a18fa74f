/**
  The capture/zone session of the tablet canvas: the state the component
  keeps (selected finger, paint mode, the in-progress zone, committed zones,
  per-finger dots) and the transition each mouse, touch or button handler makes,
  as a synchronous function from state to state. Positions arrive
  already converted to canvas coordinates.
*/
module Session {
  import opened Wrappers
  import opened Geometry
  import opened Containment
  import opened MarkerLayout

  /** Number of fingers offered by the finger selector (thumb to pinky). */
  const FingerCount: int := 5

  datatype State = State(
    selectedFinger: int,
    paintMode: bool,
    drawingZone: bool,
    currentZone: seq<Point>,
    zones: seq<Zone>,
    dots: map<int, seq<Point>>)

  /** The state on first render. */
  function Initial(): State {
    State(0, false, false, [], [], map[])
  }

  /** `fingerDots.get(f) || []`. */
  function DotsOf(dots: map<int, seq<Point>>, f: int): seq<Point> {
    if f in dots then dots[f] else []
  }

  /** Every committed zone is a real polygon, at least three vertices. */
  predicate ZonesValid(s: State) {
    forall i :: 0 <= i < |s.zones| ==> |s.zones[i].points| >= 3
  }

  /** Whether a press at `pos` in touch mode adds a dot: only outside every committed zone. */
  predicate Admits(s: State, pos: Point) {
    !s.paintMode && !IsPointInAnyZone(pos, s.zones)
  }

  /**
    A press of the mouse or the selected touch at `pos`, the common body of
    `handleMouseDown` and of `handleTouchStart` for the selected touch.
    In paint mode it starts a new zone at `pos`; otherwise it appends `pos`
    to the selected finger's dots unless `pos` lies in a committed zone.
  */
  function Press(s: State, pos: Point): (r: State)
    ensures r.selectedFinger == s.selectedFinger && r.paintMode == s.paintMode && r.zones == s.zones
    ensures s.paintMode ==> r.drawingZone && r.currentZone == [pos] && r.dots == s.dots
    ensures !s.paintMode ==> r.drawingZone == s.drawingZone && r.currentZone == s.currentZone
    ensures DotsOf(r.dots, s.selectedFinger)
      == if Admits(s, pos) then DotsOf(s.dots, s.selectedFinger) + [pos] else DotsOf(s.dots, s.selectedFinger)
    ensures forall f :: f != s.selectedFinger ==> DotsOf(r.dots, f) == DotsOf(s.dots, f)
    ensures !Admits(s, pos) && !s.paintMode ==> r == s
    ensures r.dots.Keys <= s.dots.Keys + {s.selectedFinger}
  {
    if s.paintMode then
      s.(drawingZone := true, currentZone := [pos])
    else if IsPointInAnyZone(pos, s.zones) then
      s
    else
      var f := s.selectedFinger;
      s.(dots := s.dots[f := DotsOf(s.dots, f) + [pos]])
  }

  /** `handleMouseDown`. */
  function MouseDown(s: State, pos: Point): State {
    Press(s, pos)
  }

  /** A move of the mouse or the selected touch: extend the in-progress zone while painting. */
  function Extend(s: State, pos: Point): (r: State)
    ensures s.paintMode && s.drawingZone ==> r == s.(currentZone := s.currentZone + [pos])
    ensures !(s.paintMode && s.drawingZone) ==> r == s
  {
    if !s.paintMode || !s.drawingZone then s
    else s.(currentZone := s.currentZone + [pos])
  }

  /** `handleMouseMove`. */
  function MouseMove(s: State, pos: Point): State {
    Extend(s, pos)
  }

  /**
    `handleMouseUp` and `handleTouchEnd`: commit the in-progress zone when
    painting with more than two vertices (and only then clear it); stop
    drawing in every case.
  */
  function Release(s: State): (r: State)
    ensures !r.drawingZone
    ensures r.dots == s.dots && r.selectedFinger == s.selectedFinger && r.paintMode == s.paintMode
    ensures s.paintMode && s.drawingZone && |s.currentZone| > 2 ==>
      r.zones == s.zones + [Zone(s.currentZone)] && r.currentZone == []
    ensures !(s.paintMode && s.drawingZone && |s.currentZone| > 2) ==>
      r.zones == s.zones && r.currentZone == s.currentZone
  {
    if s.paintMode && s.drawingZone && |s.currentZone| > 2 then
      s.(zones := s.zones + [Zone(s.currentZone)], currentZone := [], drawingZone := false)
    else
      s.(drawingZone := false)
  }

  /** `handleMouseUp`. */
  function MouseUp(s: State): State {
    Release(s)
  }

  /** `handleTouchEnd`. */
  function TouchEnd(s: State): State {
    Release(s)
  }

  /**
    The `touches.forEach` of `handleTouchStart` over the first `k` touches:
    a touch acts only when its index equals the selected finger.
  */
  function TouchStartLoop(s: State, touches: seq<Point>, k: nat): State
    requires k <= |touches|
    decreases k
  {
    if k == 0 then s
    else
      var s' := TouchStartLoop(s, touches, k - 1);
      if k - 1 == s.selectedFinger then Press(s', touches[k - 1]) else s'
  }

  /** `handleTouchStart`. */
  function TouchStart(s: State, touches: seq<Point>): State {
    TouchStartLoop(s, touches, |touches|)
  }

  lemma {:induction false} TouchStartLoopBefore(s: State, touches: seq<Point>, k: nat)
    requires k <= |touches|
    requires k <= s.selectedFinger || s.selectedFinger < 0
    ensures TouchStartLoop(s, touches, k) == s
    decreases k
  {
    if k > 0 {
      TouchStartLoopBefore(s, touches, k - 1);
    }
  }

  lemma {:induction false} TouchStartLoopAfter(s: State, touches: seq<Point>, k: nat)
    requires 0 <= s.selectedFinger < k <= |touches|
    ensures TouchStartLoop(s, touches, k) == Press(s, touches[s.selectedFinger])
    decreases k
  {
    if k - 1 == s.selectedFinger {
      TouchStartLoopBefore(s, touches, k - 1);
    } else {
      TouchStartLoopAfter(s, touches, k - 1);
    }
  }

  /**
    A touch start records at most one point: it is a press at the touch
    whose index is the selected finger, or nothing when there is no such touch.
  */
  lemma TouchStartIsOnePress(s: State, touches: seq<Point>)
    ensures TouchStart(s, touches)
      == if 0 <= s.selectedFinger < |touches| then Press(s, touches[s.selectedFinger]) else s
  {
    if 0 <= s.selectedFinger < |touches| {
      TouchStartLoopAfter(s, touches, |touches|);
    } else {
      TouchStartLoopBefore(s, touches, |touches|);
    }
  }

  /** The `touches.forEach` of `handleTouchMove` over the first `k` touches. */
  function TouchMoveLoop(s: State, touches: seq<Point>, k: nat): State
    requires k <= |touches|
    decreases k
  {
    if k == 0 then s
    else
      var s' := TouchMoveLoop(s, touches, k - 1);
      if k - 1 == s.selectedFinger then s'.(currentZone := s'.currentZone + [touches[k - 1]]) else s'
  }

  /** `handleTouchMove`: nothing unless painting a zone. */
  function TouchMove(s: State, touches: seq<Point>): State {
    if !s.paintMode || !s.drawingZone then s else TouchMoveLoop(s, touches, |touches|)
  }

  lemma {:induction false} TouchMoveLoopBefore(s: State, touches: seq<Point>, k: nat)
    requires k <= |touches|
    requires k <= s.selectedFinger || s.selectedFinger < 0
    ensures TouchMoveLoop(s, touches, k) == s
    decreases k
  {
    if k > 0 {
      TouchMoveLoopBefore(s, touches, k - 1);
    }
  }

  lemma {:induction false} TouchMoveLoopAfter(s: State, touches: seq<Point>, k: nat)
    requires 0 <= s.selectedFinger < k <= |touches|
    ensures TouchMoveLoop(s, touches, k) == s.(currentZone := s.currentZone + [touches[s.selectedFinger]])
    decreases k
  {
    if k - 1 == s.selectedFinger {
      TouchMoveLoopBefore(s, touches, k - 1);
    } else {
      TouchMoveLoopAfter(s, touches, k - 1);
    }
  }

  /** A touch move is a mouse move at the selected touch, or nothing when there is none. */
  lemma TouchMoveIsOneExtend(s: State, touches: seq<Point>)
    ensures TouchMove(s, touches)
      == if 0 <= s.selectedFinger < |touches| then Extend(s, touches[s.selectedFinger]) else s
  {
    if s.paintMode && s.drawingZone {
      if 0 <= s.selectedFinger < |touches| {
        TouchMoveLoopAfter(s, touches, |touches|);
      } else {
        TouchMoveLoopBefore(s, touches, |touches|);
      }
    }
  }

  /** `clearCanvas`: forget every dot and zone and stop drawing. */
  function ClearCanvas(s: State): (r: State)
    ensures r.dots == map[] && r.zones == [] && r.currentZone == [] && !r.drawingZone
    ensures r.selectedFinger == s.selectedFinger && r.paintMode == s.paintMode
  {
    s.(dots := map[], zones := [], currentZone := [], drawingZone := false)
  }

  /** `clearZones`: forget the zones and stop drawing, keeping every dot. */
  function ClearZones(s: State): (r: State)
    ensures r.zones == [] && r.currentZone == [] && !r.drawingZone
    ensures r.dots == s.dots && r.selectedFinger == s.selectedFinger && r.paintMode == s.paintMode
  {
    s.(zones := [], currentZone := [], drawingZone := false)
  }

  /** A finger button: select finger `f`. */
  function SelectFinger(s: State, f: int): (r: State)
    requires 0 <= f < FingerCount
    ensures r.selectedFinger == f && r == s.(selectedFinger := f)
  {
    s.(selectedFinger := f)
  }

  /** The paint-mode button: flip paint mode, nothing else. */
  function TogglePaintMode(s: State): (r: State)
    ensures r.paintMode != s.paintMode && r == s.(paintMode := r.paintMode)
  {
    s.(paintMode := !s.paintMode)
  }

  /** Clearing the canvas returns to the first-render state, except for the chosen finger and mode. */
  lemma ClearCanvasRestarts(s: State)
    ensures ClearCanvas(s) == Initial().(selectedFinger := s.selectedFinger, paintMode := s.paintMode)
  {
  }

  /** Once the zones are cleared, every tap outside paint mode is recorded. */
  lemma ClearZonesAdmitsEveryTap(s: State, pos: Point)
    requires !s.paintMode
    ensures Admits(ClearZones(s), pos)
    ensures DotsOf(Press(ClearZones(s), pos).dots, s.selectedFinger) == DotsOf(s.dots, s.selectedFinger) + [pos]
  {
  }

  /** Pressing the paint button twice restores the state. */
  lemma TogglePaintModeTwice(s: State)
    ensures TogglePaintMode(TogglePaintMode(s)) == s
  {
  }

  /** The events the canvas and its buttons react to. */
  datatype Event =
    | MouseDownAt(pos: Point)
    | MouseMoveTo(pos: Point)
    | MouseRelease
    | TouchesStart(touches: seq<Point>)
    | TouchesMove(touches: seq<Point>)
    | TouchesEnd
    | ClearAll
    | ClearAllZones
    | Select(finger: int)
    | TogglePaint

  /**
    One event. The finger buttons are disabled in paint mode, and there is
    no button outside the selector's range, so such a selection does nothing.
  */
  function Step(s: State, e: Event): State {
    match e
    case MouseDownAt(pos) => MouseDown(s, pos)
    case MouseMoveTo(pos) => MouseMove(s, pos)
    case MouseRelease => MouseUp(s)
    case TouchesStart(touches) => TouchStart(s, touches)
    case TouchesMove(touches) => TouchMove(s, touches)
    case TouchesEnd => TouchEnd(s)
    case ClearAll => ClearCanvas(s)
    case ClearAllZones => ClearZones(s)
    case Select(f) => if 0 <= f < FingerCount && !s.paintMode then SelectFinger(s, f) else s
    case TogglePaint => TogglePaintMode(s)
  }

  /** The state after a sequence of events. */
  function Run(s: State, events: seq<Event>): State
    decreases |events|
  {
    if |events| == 0 then s else Run(Step(s, events[0]), events[1..])
  }

  /**
    What every reachable state satisfies: a finger in the selector's range
    is selected, every finger holding dots is such a finger (so redraw
    always finds its colour), and every committed zone is a real polygon.
  */
  predicate WellFormed(s: State) {
    && 0 <= s.selectedFinger < FingerCount
    && (forall f :: f in s.dots ==> 0 <= f < FingerCount)
    && ZonesValid(s)
  }

  /** Every transition keeps the state well formed. */
  lemma StepKeepsWellFormed(s: State, e: Event)
    requires WellFormed(s)
    ensures WellFormed(Step(s, e))
  {
    match e
    case TouchesStart(touches) => TouchStartIsOnePress(s, touches);
    case TouchesMove(touches) => TouchMoveIsOneExtend(s, touches);
    case _ =>
  }

  /** A well-formed state stays well formed under any sequence of events. */
  lemma {:induction false} RunKeepsWellFormed(s: State, events: seq<Event>)
    requires WellFormed(s)
    ensures WellFormed(Run(s, events))
    decreases |events|
  {
    if |events| > 0 {
      StepKeepsWellFormed(s, events[0]);
      RunKeepsWellFormed(Step(s, events[0]), events[1..]);
    }
  }

  /** So every state reachable from the initial one is well formed. */
  lemma ReachableWellFormed(events: seq<Event>)
    ensures WellFormed(Run(Initial(), events))
  {
    RunKeepsWellFormed(Initial(), events);
  }

  /** What a redraw strokes for one finger. */
  datatype FingerLayer = FingerLayer(dots: seq<Point>, line: Option<DirectionLine>, squares: seq<Marker>)

  /** What a redraw strokes: filled zones, the dashed preview, and each finger's layer. */
  datatype Frame = Frame(filled: seq<seq<Point>>, preview: Option<seq<Point>>, fingers: map<int, FingerLayer>)

  /** The per-finger part of `redrawCanvas`: the line from two dots on, the squares from one dot on. */
  function RenderFinger(dots: seq<Point>, trig: Trig): (r: FingerLayer)
    ensures r.dots == dots
    ensures r.line.Some? <==> |dots| >= 2
    ensures r.line.Some? ==> Some(r.line.value) == MainDirectionLine(dots, trig)
    ensures |dots| >= 1 ==> |r.squares| == 3
    ensures |dots| == 0 ==> r.squares == []
    ensures r.squares == CentroidSquares(dots, trig)
  {
    FingerLayer(
      dots,
      if |dots| >= 2 then MainDirectionLine(dots, trig) else None,
      if |dots| >= 1 then CentroidSquares(dots, trig) else [])
  }

  /** The zones `drawPaintedZones` fills: those with more than two vertices, in order. */
  function FilledZones(zones: seq<Zone>): (r: seq<seq<Point>>)
    ensures |r| <= |zones|
    ensures forall i :: 0 <= i < |r| ==> |r[i]| > 2
    decreases |zones|
  {
    if |zones| == 0 then []
    else
      var rest := FilledZones(zones[..|zones| - 1]);
      var last := zones[|zones| - 1].points;
      if |last| > 2 then rest + [last] else rest
  }

  /** The filled outlines are exactly those of the zones with more than two vertices. */
  lemma {:induction false} FilledZonesMembers(zones: seq<Zone>)
    ensures forall z :: z in FilledZones(zones) <==>
      exists i :: 0 <= i < |zones| && zones[i].points == z && |z| > 2
    decreases |zones|
  {
    if |zones| > 0 {
      var prefix := zones[..|zones| - 1];
      assert forall i :: 0 <= i < |prefix| ==> prefix[i] == zones[i];
      FilledZonesMembers(prefix);
    }
  }

  /** `redrawCanvas` with `drawPaintedZones`. */
  function Redraw(s: State, trig: Trig): (r: Frame)
    ensures r.filled == FilledZones(s.zones)
    ensures r.preview.Some? <==> |s.currentZone| > 1
    ensures |s.currentZone| > 1 ==> r.preview == Some(s.currentZone)
    ensures r.fingers.Keys == s.dots.Keys
    ensures forall f :: f in s.dots ==> r.fingers[f] == RenderFinger(s.dots[f], trig)
  {
    Frame(
      FilledZones(s.zones),
      if |s.currentZone| > 1 then Some(s.currentZone) else None,
      map f | f in s.dots :: RenderFinger(s.dots[f], trig))
  }

  /** Zone outlines as stored. */
  function ZonePolygons(zones: seq<Zone>): (r: seq<seq<Point>>)
    ensures |r| == |zones|
    ensures forall i :: 0 <= i < |zones| ==> r[i] == zones[i].points
  {
    seq(|zones|, i requires 0 <= i < |zones| => zones[i].points)
  }

  lemma {:induction false} FilledZonesKeepsValid(zones: seq<Zone>)
    requires forall i :: 0 <= i < |zones| ==> |zones[i].points| >= 3
    ensures FilledZones(zones) == ZonePolygons(zones)
    decreases |zones|
  {
    if |zones| > 0 {
      var n := |zones|;
      var prefix := zones[..n - 1];
      assert forall i :: 0 <= i < |prefix| ==> |prefix[i].points| >= 3;
      FilledZonesKeepsValid(prefix);
      assert |zones[n - 1].points| > 2;
      assert FilledZones(zones) == FilledZones(prefix) + [zones[n - 1].points];
      assert ZonePolygons(zones) == ZonePolygons(prefix) + [zones[n - 1].points];
    }
  }

  /** Since committed zones are never degenerate, a redraw fills every one of them. */
  lemma RedrawFillsEveryZone(s: State, trig: Trig)
    requires ZonesValid(s)
    ensures Redraw(s, trig).filled == ZonePolygons(s.zones)
  {
    FilledZonesKeepsValid(s.zones);
  }

  /**
    Releasing a paint stroke of exactly two vertices commits nothing and keeps
    both vertices, so the next redraw still shows them as the dashed preview.
  */
  lemma ShortStrokeLingers(s: State, trig: Trig)
    requires s.paintMode && s.drawingZone && |s.currentZone| == 2
    ensures Release(s).zones == s.zones
    ensures Redraw(Release(s), trig).preview == Some(s.currentZone)
  {
  }

  /** The end-to-end capture: three clicks with no zones give three dots with centroid (15, 40/3). */
  lemma CaptureScenario()
    ensures var s := Run(Initial(), [MouseDownAt(Point(10.0, 10.0)), MouseDownAt(Point(20.0, 10.0)), MouseDownAt(Point(15.0, 20.0))]);
      DotsOf(s.dots, 0) == [Point(10.0, 10.0), Point(20.0, 10.0), Point(15.0, 20.0)]
      && Centroid(DotsOf(s.dots, 0)) == Some(Point(15.0, 40.0 / 3.0))
  {
    ThreeClicks(Point(10.0, 10.0), Point(20.0, 10.0), Point(15.0, 20.0));
    ThreeDotCentroid();
  }

  /** From the first-render state, three clicks record three thumb dots in order. */
  lemma ThreeClicks(p1: Point, p2: Point, p3: Point)
    ensures DotsOf(Run(Initial(), [MouseDownAt(p1), MouseDownAt(p2), MouseDownAt(p3)]).dots, 0) == [p1, p2, p3]
  {
    var events := [MouseDownAt(p1), MouseDownAt(p2), MouseDownAt(p3)];
    var s0 := Initial();
    var s1 := State(0, false, false, [], [], map[0 := [p1]]);
    var s2 := State(0, false, false, [], [], map[0 := [p1, p2]]);
    var s3 := State(0, false, false, [], [], map[0 := [p1, p2, p3]]);
    assert !IsPointInAnyZone(p1, []) && !IsPointInAnyZone(p2, []) && !IsPointInAnyZone(p3, []);
    assert DotsOf(s0.dots, 0) + [p1] == [p1];
    assert s0.dots[0 := [p1]] == s1.dots;
    assert Step(s0, events[0]) == Press(s0, p1) == s1;
    assert [p1] + [p2] == [p1, p2];
    assert s1.dots[0 := [p1] + [p2]] == s2.dots;
    assert Step(s1, events[1..][0]) == Press(s1, p2) == s2;
    assert [p1, p2] + [p3] == [p1, p2, p3];
    assert s2.dots[0 := [p1, p2] + [p3]] == s3.dots;
    assert Step(s2, events[1..][1..][0]) == Press(s2, p3) == s3;
    assert events[1..][1..][1..] == [];
    assert Run(s2, events[1..][1..]) == Run(s3, []) == s3;
    assert Run(s1, events[1..]) == Run(s2, events[1..][1..]);
    assert Run(s0, events) == Run(s1, events[1..]);
  }

  lemma ThreeDotCentroid()
    ensures Centroid([Point(10.0, 10.0), Point(20.0, 10.0), Point(15.0, 20.0)]) == Some(Point(15.0, 40.0 / 3.0))
  {
    var p1, p2, p3 := Point(10.0, 10.0), Point(20.0, 10.0), Point(15.0, 20.0);
    var dots := [p1, p2, p3];
    assert dots[..2] == [p1, p2] && dots[..2][..1] == [p1] && dots[..2][..1][..0] == [];
    assert Sum([p1]) == p1;
    assert Sum([p1, p2]) == Point(30.0, 20.0);
    assert Sum(dots) == Point(45.0, 40.0);
  }
}
