/**
  Zone containment: the even-odd ray-casting test `isPointInPolygon` and the
  any-zone test `isPointInAnyZone` that suppresses capture inside painted
  zones.

  A horizontal ray runs from the query point towards +x. Edge `i` joins
  vertex `i` to the previous vertex `j` (vertex `n - 1` for `i == 0`), and it
  toggles the result when its end points lie on different sides of the
  ray's height (a vertex exactly at that height counts as "not above") and
  the ray meets it strictly to the right of the query point.
*/
module Containment {
  import opened Geometry

  /** A committed zone, `{ points }` in the source. */
  datatype Zone = Zone(points: seq<Point>)

  /** The vertex before vertex `i`, wrapping around: the loop's `j`. */
  function Prev(n: nat, i: nat): nat
    requires i < n
  {
    if i == 0 then n - 1 else i - 1
  }

  /** Whether the edge's end points lie on different sides of height `py`. */
  predicate Straddles(py: real, a: Point, b: Point) {
    (a.y > py) != (b.y > py)
  }

  /**
    The toggle test for the edge from `a` (vertex `i`) to `b` (vertex `j`).
    The division is only evaluated behind `Straddles`, which forces
    `a.y != b.y`; Dafny checks here that the denominator is never zero.
  */
  predicate Crosses(pt: Point, a: Point, b: Point) {
    Straddles(pt.y, a, b)
    && pt.x < (b.x - a.x) * (pt.y - a.y) / (b.y - a.y) + a.x
  }

  /** Which edges the ray crosses: flag `i` is the test on edge `(i, Prev(i))`. */
  function EdgeCrossings(pt: Point, poly: seq<Point>): (r: seq<bool>)
    ensures |r| == |poly|
    ensures forall i :: 0 <= i < |poly| ==> r[i] == Crosses(pt, poly[i], poly[Prev(|poly|, i)])
  {
    seq(|poly|, i requires 0 <= i < |poly| => Crosses(pt, poly[i], poly[Prev(|poly|, i)]))
  }

  /** The flag after toggling once for every `true` among `flags[..k]`. */
  function Toggled(flags: seq<bool>, k: nat): bool
    requires k <= |flags|
    decreases k
  {
    if k == 0 then false else Toggled(flags, k - 1) != flags[k - 1]
  }

  /** How many of `flags[..k]` are set. */
  function CountSet(flags: seq<bool>, k: nat): (r: nat)
    requires k <= |flags|
    ensures r <= k
    decreases k
  {
    if k == 0 then 0 else CountSet(flags, k - 1) + (if flags[k - 1] then 1 else 0)
  }

  /** `isPointInPolygon`: false below three vertices, otherwise the final toggle state. */
  function IsPointInPolygon(pt: Point, poly: seq<Point>): (r: bool)
    ensures |poly| < 3 ==> !r
  {
    if |poly| < 3 then false else Toggled(EdgeCrossings(pt, poly), |poly|)
  }

  /** Toggling once per set flag leaves the flag set exactly when an odd number are set. */
  lemma {:induction false} ToggledIsParity(flags: seq<bool>, k: nat)
    requires k <= |flags|
    ensures Toggled(flags, k) <==> CountSet(flags, k) % 2 == 1
    decreases k
  {
    if k > 0 {
      ToggledIsParity(flags, k - 1);
    }
  }

  /** The number of polygon edges the ray crosses. */
  function CrossingCount(pt: Point, poly: seq<Point>): nat {
    CountSet(EdgeCrossings(pt, poly), |poly|)
  }

  /** The even-odd rule: a polygon contains the point iff the ray crosses an odd number of its edges. */
  lemma EvenOddRule(pt: Point, poly: seq<Point>)
    ensures IsPointInPolygon(pt, poly) <==> |poly| >= 3 && CrossingCount(pt, poly) % 2 == 1
  {
    ToggledIsParity(EdgeCrossings(pt, poly), |poly|);
  }

  /**
    The condition of the loop body of `isPointInPolygon` for vertex `i` at
    `a` and vertex `j` at `b`, in the source's form. The division is only
    reached once the straddle test holds, so `b.y - a.y` is never zero; the
    edge toggles exactly when the rightward ray from `pt` meets the edge.
  */
  method EdgeToggles(pt: Point, a: Point, b: Point) returns (toggles: bool)
    ensures toggles == Crosses(pt, a, b)
    ensures toggles <==> (Straddles(pt.y, a, b)
      && exists t :: 0.0 <= t <= 1.0 && OnEdge(a, b, t).y == pt.y && OnEdge(a, b, t).x > pt.x)
  {
    toggles := (a.y > pt.y) != (b.y > pt.y)
      && pt.x < (b.x - a.x) * (pt.y - a.y) / (b.y - a.y) + a.x;
    if Straddles(pt.y, a, b) {
      CrossesIffRayMeetsEdge(pt, a, b);
    }
  }

  /**
    The loop of `isPointInPolygon`, with `i` and the trailing index `j` as
    the source keeps them.
  */
  method PointInPolygon(pt: Point, poly: seq<Point>) returns (inside: bool)
    ensures inside == IsPointInPolygon(pt, poly)
    ensures inside ==> |poly| >= 3
  {
    if |poly| < 3 {
      return false;
    }
    ghost var flags := EdgeCrossings(pt, poly);
    inside := false;
    var i, j := 0, |poly| - 1;
    while i < |poly|
      invariant 0 <= i <= |poly|
      invariant i < |poly| ==> j == Prev(|poly|, i)
      invariant inside == Toggled(flags, i)
    {
      var toggles := EdgeToggles(pt, poly[i], poly[j]);
      if toggles {
        inside := !inside;
      }
      j := i;
      i := i + 1;
    }
  }

  /** A run of unset flags counts zero. */
  lemma {:induction false} NoneSetCountsZero(flags: seq<bool>, k: nat)
    requires k <= |flags|
    requires forall i :: 0 <= i < |flags| ==> !flags[i]
    ensures CountSet(flags, k) == 0
    decreases k
  {
    if k > 0 {
      NoneSetCountsZero(flags, k - 1);
    }
  }

  /**
    A point whose y is at least every vertex's y, or strictly less than
    every vertex's y, is outside: no edge straddles its height.
  */
  lemma OutsideVerticalRange(pt: Point, poly: seq<Point>)
    requires (forall i :: 0 <= i < |poly| ==> poly[i].y <= pt.y)
          || (forall i :: 0 <= i < |poly| ==> poly[i].y > pt.y)
    ensures !IsPointInPolygon(pt, poly)
  {
    var flags := EdgeCrossings(pt, poly);
    forall i | 0 <= i < |poly|
      ensures !flags[i]
    {
      assert !Straddles(pt.y, poly[i], poly[Prev(|poly|, i)]);
    }
    NoneSetCountsZero(flags, |poly|);
    EvenOddRule(pt, poly);
  }

  lemma QuotientBounds(num: real, den: real)
    requires den != 0.0
    requires (0.0 <= num && num <= den) || (den <= num && num <= 0.0)
    ensures 0.0 <= num / den <= 1.0
  {
    var t := num / den;
    assert num == t * den;
  }

  lemma ConvexBelowMax(ax: real, bx: real, t: real, m: real)
    requires 0.0 <= t <= 1.0
    requires ax <= m && bx <= m
    ensures (bx - ax) * t + ax <= m
  {
    if bx >= ax {
      NonNegativeProduct(bx - ax, 1.0 - t);
    } else {
      assert (bx - ax) * t <= 0.0;
    }
  }

  lemma NonNegativeProduct(u: real, v: real)
    requires u >= 0.0 && v >= 0.0
    ensures u * v >= 0.0
  {
  }

  lemma MulDiv(u: real, v: real, w: real)
    requires w != 0.0
    ensures u * v / w == u * (v / w)
  {
  }

  /** The ray meets a straddling edge between its end points' x-coordinates. */
  lemma CrossingWithinEdge(pt: Point, a: Point, b: Point)
    requires Straddles(pt.y, a, b)
    requires a.x <= pt.x && b.x <= pt.x
    ensures !Crosses(pt, a, b)
  {
    var num, den := pt.y - a.y, b.y - a.y;
    QuotientBounds(num, den);
    MulDiv(b.x - a.x, num, den);
    ConvexBelowMax(a.x, b.x, num / den, pt.x);
  }

  /** The point at parameter `t` along the edge from `a` to `b`. */
  function OnEdge(a: Point, b: Point, t: real): Point {
    Point(a.x + t * (b.x - a.x), a.y + t * (b.y - a.y))
  }

  lemma UniqueParameter(num: real, den: real, t: real)
    requires den != 0.0
    requires t * den == num
    ensures t == num / den
  {
  }

  /** Where a straddling edge meets the ray's height, as the source computes it. */
  lemma MeetingPoint(pt: Point, a: Point, b: Point)
    requires Straddles(pt.y, a, b)
    ensures var t0 := (pt.y - a.y) / (b.y - a.y);
      0.0 <= t0 <= 1.0
      && OnEdge(a, b, t0).y == pt.y
      && OnEdge(a, b, t0).x == (b.x - a.x) * (pt.y - a.y) / (b.y - a.y) + a.x
  {
    var num, den := pt.y - a.y, b.y - a.y;
    QuotientBounds(num, den);
    MulDiv(b.x - a.x, num, den);
    DivideBack(num, den);
  }

  lemma MeetingPointIsUnique(pt: Point, a: Point, b: Point, t: real)
    requires Straddles(pt.y, a, b)
    requires OnEdge(a, b, t).y == pt.y
    ensures t == (pt.y - a.y) / (b.y - a.y)
  {
    UniqueParameter(pt.y - a.y, b.y - a.y, t);
  }

  /**
    What the edge test means: for an edge that straddles the ray's height,
    it holds exactly when the segment from `a` to `b` reaches that height
    strictly to the right of the query point.
  */
  lemma CrossesIffRayMeetsEdge(pt: Point, a: Point, b: Point)
    requires Straddles(pt.y, a, b)
    ensures Crosses(pt, a, b) <==>
      exists t :: 0.0 <= t <= 1.0 && OnEdge(a, b, t).y == pt.y && OnEdge(a, b, t).x > pt.x
  {
    if Crosses(pt, a, b) {
      CrossingHasMeetingPoint(pt, a, b);
    }
    if exists t :: 0.0 <= t <= 1.0 && OnEdge(a, b, t).y == pt.y && OnEdge(a, b, t).x > pt.x {
      var t :| 0.0 <= t <= 1.0 && OnEdge(a, b, t).y == pt.y && OnEdge(a, b, t).x > pt.x;
      MeetingPointGivesCrossing(pt, a, b, t);
    }
  }

  lemma CrossingHasMeetingPoint(pt: Point, a: Point, b: Point)
    requires Straddles(pt.y, a, b) && Crosses(pt, a, b)
    ensures exists t :: 0.0 <= t <= 1.0 && OnEdge(a, b, t).y == pt.y && OnEdge(a, b, t).x > pt.x
  {
    var t0 := (pt.y - a.y) / (b.y - a.y);
    MeetingPoint(pt, a, b);
    assert 0.0 <= t0 <= 1.0 && OnEdge(a, b, t0).y == pt.y && OnEdge(a, b, t0).x > pt.x;
  }

  lemma MeetingPointGivesCrossing(pt: Point, a: Point, b: Point, t: real)
    requires Straddles(pt.y, a, b)
    requires OnEdge(a, b, t).y == pt.y && OnEdge(a, b, t).x > pt.x
    ensures Crosses(pt, a, b)
  {
    MeetingPoint(pt, a, b);
    MeetingPointIsUnique(pt, a, b, t);
  }

  /** A point at or to the right of every vertex is outside: the ray leaves the polygon's span at once. */
  lemma OutsideRightOfVertices(pt: Point, poly: seq<Point>)
    requires forall i :: 0 <= i < |poly| ==> poly[i].x <= pt.x
    ensures !IsPointInPolygon(pt, poly)
  {
    var flags := EdgeCrossings(pt, poly);
    forall i | 0 <= i < |poly|
      ensures !flags[i]
    {
      var a, b := poly[i], poly[Prev(|poly|, i)];
      if Straddles(pt.y, a, b) {
        CrossingWithinEdge(pt, a, b);
      }
    }
    NoneSetCountsZero(flags, |poly|);
    EvenOddRule(pt, poly);
  }

  lemma ConvexAboveMin(ax: real, bx: real, t: real, m: real)
    requires 0.0 <= t <= 1.0
    requires ax > m && bx > m
    ensures (bx - ax) * t + ax > m
  {
    if bx >= ax {
      NonNegativeProduct(bx - ax, t);
    } else {
      NonNegativeProduct(ax - bx, 1.0 - t);
      assert (bx - ax) * t + ax == (ax - bx) * (1.0 - t) + bx;
    }
  }

  /** The ray always meets a straddling edge lying wholly to the right of the point. */
  lemma CrossingLeftOfEdge(pt: Point, a: Point, b: Point)
    requires Straddles(pt.y, a, b)
    requires a.x > pt.x && b.x > pt.x
    ensures Crosses(pt, a, b)
  {
    var num, den := pt.y - a.y, b.y - a.y;
    QuotientBounds(num, den);
    MulDiv(b.x - a.x, num, den);
    ConvexAboveMin(a.x, b.x, num / den, pt.x);
  }

  /**
    When every edge's flag is its straddle test, toggling telescopes: after
    the first `k` edges the flag says whether vertex `k - 1` and the last
    vertex lie on different sides of the ray.
  */
  lemma {:induction false} StraddleTelescopes(pt: Point, poly: seq<Point>, flags: seq<bool>, k: nat)
    requires |flags| == |poly|
    requires forall i :: 0 <= i < |poly| ==> flags[i] == Straddles(pt.y, poly[i], poly[Prev(|poly|, i)])
    requires 1 <= k <= |poly|
    ensures Toggled(flags, k) == ((poly[k - 1].y > pt.y) != (poly[|poly| - 1].y > pt.y))
    decreases k
  {
    if k > 1 {
      StraddleTelescopes(pt, poly, flags, k - 1);
      assert Prev(|poly|, k - 1) == k - 2;
    }
  }

  /**
    A point strictly to the left of every vertex is outside: its ray crosses
    every straddling edge, and a closed polygon has an even number of those.
  */
  lemma OutsideLeftOfVertices(pt: Point, poly: seq<Point>)
    requires forall i :: 0 <= i < |poly| ==> poly[i].x > pt.x
    ensures !IsPointInPolygon(pt, poly)
  {
    if |poly| >= 3 {
      var flags := EdgeCrossings(pt, poly);
      forall i | 0 <= i < |poly|
        ensures flags[i] == Straddles(pt.y, poly[i], poly[Prev(|poly|, i)])
      {
        var a, b := poly[i], poly[Prev(|poly|, i)];
        if Straddles(pt.y, a, b) {
          CrossingLeftOfEdge(pt, a, b);
        }
      }
      StraddleTelescopes(pt, poly, flags, |poly|);
    }
  }

  /** `isPointInAnyZone`: `zones.some(zone => isPointInPolygon(point, zone.points))`. */
  function IsPointInAnyZone(pt: Point, zones: seq<Zone>): (r: bool)
    ensures r <==> exists i :: 0 <= i < |zones| && IsPointInPolygon(pt, zones[i].points)
    decreases |zones|
  {
    if |zones| == 0 then false
    else IsPointInPolygon(pt, zones[0].points) || IsPointInAnyZone(pt, zones[1..])
  }

  /** The ten-by-ten square with corners (0,0) and (10,10). */
  function TenByTenSquare(): seq<Point> {
    [Point(0.0, 0.0), Point(10.0, 0.0), Point(10.0, 10.0), Point(0.0, 10.0)]
  }

  /** Its centre is inside and a point to its right is outside. */
  lemma SquareExamples()
    ensures IsPointInPolygon(Point(5.0, 5.0), TenByTenSquare())
    ensures !IsPointInPolygon(Point(15.0, 5.0), TenByTenSquare())
  {
    var sq := TenByTenSquare();
    var p := Point(5.0, 5.0);
    assert !Crosses(p, sq[0], sq[3]);
    assert !Crosses(p, sq[1], sq[0]);
    assert Crosses(p, sq[2], sq[1]);
    assert !Crosses(p, sq[3], sq[2]);
    OutsideRightOfVertices(Point(15.0, 5.0), sq);
  }

  /**
    The bound of `OutsideVerticalRange` is tight: a point on the square's
    lowest edge, whose y equals the smallest vertex y, counts as inside,
    while the same point on the top edge counts as outside.
  */
  lemma EdgePointsOfSquare()
    ensures IsPointInPolygon(Point(5.0, 0.0), TenByTenSquare())
    ensures !IsPointInPolygon(Point(5.0, 10.0), TenByTenSquare())
  {
    var sq := TenByTenSquare();
    var p := Point(5.0, 0.0);
    assert !Crosses(p, sq[0], sq[3]);
    assert !Crosses(p, sq[1], sq[0]);
    assert Crosses(p, sq[2], sq[1]);
    assert !Crosses(p, sq[3], sq[2]);
    OutsideVerticalRange(Point(5.0, 10.0), sq);
  }
}
