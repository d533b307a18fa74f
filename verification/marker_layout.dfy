/**
  The coordinate arithmetic of `drawCentroidSquares`: where the three marker
  squares of a finger go. The canvas calls themselves are not modelled; each
  square is described by the arguments its stroke receives.
*/
module MarkerLayout {
  import opened Wrappers
  import opened Geometry

  /** `SQUARE_SIZE`: side length of a marker square. */
  const SquareSize: real := 80.0
  /** `SQUARE_GAP`: gap between neighbouring squares. */
  const SquareGap: real := 10.0
  /** Distance between neighbouring square centres, `SQUARE_SIZE + SQUARE_GAP`. */
  const Spacing: real := SquareSize + SquareGap

  /**
    One stroked square: `Upright` is `strokeRect(left, top, size, size)` with
    no rotation; `Rotated` is a square of side `size` centred on `center`
    after rotating the canvas by `angle`.
  */
  datatype Marker =
    | Upright(left: real, top: real, size: real)
    | Rotated(center: Point, angle: real, size: real)
  {
    function Center(): Point {
      match this
      case Upright(left, top, size) => Point(left + size / 2.0, top + size / 2.0)
      case Rotated(center, _, _) => center
    }
  }

  /** Square `i` of the single-dot layout, stacked top to bottom. */
  function StackedSquare(c: Point, i: nat): Marker {
    var totalHeight := 3.0 * SquareSize + 2.0 * SquareGap;
    var startY := c.y - totalHeight / 2.0;
    Upright(c.x - SquareSize / 2.0, startY + (i as real) * Spacing, SquareSize)
  }

  /** Square `i` of the oriented layout, offset `(i - 1) * spacing` along the direction. */
  function AlignedSquare(c: Point, angle: real, trig: Trig, i: nat): Marker {
    var offset := ((i as real) - 1.0) * Spacing;
    Rotated(Point(c.x + trig.cos(angle) * offset, c.y + trig.sin(angle) * offset), angle, SquareSize)
  }

  /**
    `drawCentroidSquares`: nothing without dots; with one dot, three upright
    squares stacked on the centroid; otherwise three squares rotated to the
    principal angle and laid along the direction line, the middle one on the
    centroid.
  */
  function CentroidSquares(ps: seq<Point>, trig: Trig): (r: seq<Marker>)
    ensures |ps| == 0 <==> r == []
    ensures |ps| > 0 ==> |r| == 3 && r[1].Center() == Centroid(ps).value
    ensures forall i :: 0 <= i < |r| ==> r[i].size == SquareSize
    ensures |ps| == 1 ==> forall i :: 0 <= i < |r| ==> r[i].Upright?
    ensures |ps| >= 2 ==> forall i :: 0 <= i < |r| ==>
      r[i].Rotated? && r[i].angle == MainDirectionLine(ps, trig).value.angleRad
  {
    var centroid := Centroid(ps);
    if centroid.None? then []
    else
      var c := centroid.value;
      var line := MainDirectionLine(ps, trig);
      if line.None? then
        [StackedSquare(c, 0), StackedSquare(c, 1), StackedSquare(c, 2)]
      else
        var angle := line.value.angleRad;
        [AlignedSquare(c, angle, trig, 0), AlignedSquare(c, angle, trig, 1), AlignedSquare(c, angle, trig, 2)]
  }

  /**
    The single-dot layout: the squares share the centroid's x as their
    centre, their tops are `SQUARE_SIZE + SQUARE_GAP` apart (so exactly
    `SQUARE_GAP` separates neighbours), and the stack spans
    `3*SQUARE_SIZE + 2*SQUARE_GAP` split evenly above and below the dot.
  */
  lemma StackedLayout(p: Point, trig: Trig)
    ensures var r := CentroidSquares([p], trig);
      |r| == 3
      && (forall i :: 0 <= i < 3 ==> r[i].Upright? && r[i].Center().x == p.x)
      && r[1].Center() == p
      && r[1].top - r[0].top == Spacing && r[2].top - r[1].top == Spacing
      && r[1].top - (r[0].top + r[0].size) == SquareGap
      && r[2].top - (r[1].top + r[1].size) == SquareGap
      && p.y - r[0].top == (r[2].top + r[2].size) - p.y
      && (r[2].top + r[2].size) - r[0].top == 3.0 * SquareSize + 2.0 * SquareGap
  {
    CentroidOfSingleton(p);
  }

  /**
    The oriented layout: the middle square sits on the centroid, the outer
    two are mirror images through it, and every centre lies on the drawn
    direction line, at signed distance `(i - 1) * spacing` out of the line's
    half-length.
  */
  lemma AlignedLayout(ps: seq<Point>, trig: Trig)
    requires |ps| >= 2
    ensures var r := CentroidSquares(ps, trig);
      var l := MainDirectionLine(ps, trig).value;
      |r| == 3
      && r[1].Center() == l.centroid
      && Add(r[0].Center(), r[2].Center()) == Scale(2.0, l.centroid)
      && (forall i :: 0 <= i < 3 ==>
            Sub(r[i].Center(), l.centroid)
              == Scale(((i as real) - 1.0) * Spacing / LineLength, Sub(l.p2, l.centroid)))
  {
    var r := CentroidSquares(ps, trig);
    var l := MainDirectionLine(ps, trig).value;
    var dir := Direction(trig, l.angleRad);
    assert Sub(l.p2, l.centroid) == Scale(LineLength, dir);
    forall i | 0 <= i < 3
      ensures Sub(r[i].Center(), l.centroid)
              == Scale(((i as real) - 1.0) * Spacing / LineLength, Sub(l.p2, l.centroid))
    {
      AlignedOffset(l.centroid, l.angleRad, trig, i);
      RescaleDirection(((i as real) - 1.0) * Spacing, dir);
    }
  }

  /** The centre of aligned square `i` is the centroid plus `(i - 1) * spacing` times the direction. */
  lemma AlignedOffset(c: Point, angle: real, trig: Trig, i: nat)
    ensures Sub(AlignedSquare(c, angle, trig, i).Center(), c)
         == Scale(((i as real) - 1.0) * Spacing, Direction(trig, angle))
  {
  }

  lemma RescaleDirection(k: real, d: Point)
    ensures Scale(k / LineLength, Scale(LineLength, d)) == Scale(k, d)
  {
  }

  /** With a genuine unit direction, neighbouring centres are exactly `SQUARE_SIZE + SQUARE_GAP` apart. */
  lemma AlignedSpacing(ps: seq<Point>, trig: Trig)
    requires UnitCircle(trig)
    requires |ps| >= 2
    ensures var r := CentroidSquares(ps, trig);
      DistSq(r[0].Center(), r[1].Center()) == Spacing * Spacing
      && DistSq(r[1].Center(), r[2].Center()) == Spacing * Spacing
  {
    var r := CentroidSquares(ps, trig);
    var l := MainDirectionLine(ps, trig).value;
    var co, si := trig.cos(l.angleRad), trig.sin(l.angleRad);
    assert co * co + si * si == 1.0;
    var c := l.centroid;
    assert r[0].Center() == Point(c.x + co * -Spacing, c.y + si * -Spacing);
    assert r[2].Center() == Point(c.x + co * Spacing, c.y + si * Spacing);
    UnitStep(c, co, si, -Spacing);
    UnitStep(c, co, si, Spacing);
  }

  lemma UnitStep(c: Point, co: real, si: real, k: real)
    requires co * co + si * si == 1.0
    ensures DistSq(Point(c.x + co * k, c.y + si * k), c) == k * k
    ensures DistSq(c, Point(c.x + co * k, c.y + si * k)) == k * k
  {
    assert (co * k) * (co * k) + (si * k) * (si * k) == (co * co + si * si) * (k * k);
  }
}
