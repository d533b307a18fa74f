/**
  Point-set analysis of the tablet canvas: the centroid of a finger's dots,
  the scatter (second-moment) sums about it, and the principal-direction line
  whose angle is `0.5 * atan2(2*sxy, sxx - syy)`.

  Coordinates are exact reals. The transcendental functions are not defined
  here: they arrive in a `Trig` record, and the only fact ever assumed about
  them is the unit-circle identity `cos(a)^2 + sin(a)^2 == 1` (`UnitCircle`),
  and only where a property needs it.

  Products of two coordinates are kept inside small arithmetic lemmas
  (`Cancel`, `AccumulateGrows`, ...) so that the inductive proofs only ever
  combine their conclusions linearly.
*/
module Geometry {
  import opened Wrappers

  /** A sample in canvas coordinates, `{ x, y }` in the source. */
  datatype Point = Point(x: real, y: real)

  function Add(p: Point, q: Point): Point {
    Point(p.x + q.x, p.y + q.y)
  }

  function Sub(p: Point, q: Point): Point {
    Point(p.x - q.x, p.y - q.y)
  }

  function Scale(k: real, p: Point): Point {
    Point(k * p.x, k * p.y)
  }

  /** Squared Euclidean distance. */
  function DistSq(p: Point, q: Point): real {
    (p.x - q.x) * (p.x - q.x) + (p.y - q.y) * (p.y - q.y)
  }

  /** Coordinate-wise sum, folded from the left as `points.reduce` does. */
  function Sum(ps: seq<Point>): Point
    decreases |ps|
  {
    if |ps| == 0 then Point(0.0, 0.0)
    else Add(Sum(ps[..|ps| - 1]), ps[|ps| - 1])
  }

  /** `ps` with every point shifted by `v`. */
  function Translate(ps: seq<Point>, v: Point): (r: seq<Point>)
    ensures |r| == |ps|
    decreases |ps|
  {
    if |ps| == 0 then []
    else Translate(ps[..|ps| - 1], v) + [Add(ps[|ps| - 1], v)]
  }

  /** `getCentroid`: no centroid for an empty set, otherwise the coordinate-wise mean. */
  function Centroid(ps: seq<Point>): (r: Option<Point>)
    ensures r.None? <==> |ps| == 0
  {
    var n := |ps|;
    if n == 0 then None
    else
      var s := Sum(ps);
      Some(Point(s.x / n as real, s.y / n as real))
  }

  lemma Cancel(n: real, a: real, b: real)
    requires n != 0.0
    requires n * a == n * b
    ensures a == b
  {
  }

  lemma DivideBack(s: real, n: real)
    requires n != 0.0
    ensures n * (s / n) == s
  {
  }

  /** The centroid is the mean: `|ps|` copies of it add up to the sum of the points. */
  lemma CentroidIsMean(ps: seq<Point>)
    requires |ps| > 0
    ensures Scale(|ps| as real, Centroid(ps).value) == Sum(ps)
  {
    var n := |ps| as real;
    DivideBack(Sum(ps).x, n);
    DivideBack(Sum(ps).y, n);
  }

  /** The mean is the only point with that property. */
  lemma MeanIsUnique(ps: seq<Point>, c: Point)
    requires |ps| > 0
    requires Scale(|ps| as real, c) == Sum(ps)
    ensures Centroid(ps) == Some(c)
  {
    var n := |ps| as real;
    var m := Centroid(ps).value;
    CentroidIsMean(ps);
    Cancel(n, m.x, c.x);
    Cancel(n, m.y, c.y);
  }

  /** A single dot is its own centroid. */
  lemma CentroidOfSingleton(p: Point)
    ensures Centroid([p]) == Some(p)
  {
    assert [p][..0] == [];
    assert Sum([p]) == p;
  }

  /** Sum distributes over concatenation. */
  lemma {:induction false} SumAppend(a: seq<Point>, b: seq<Point>)
    ensures Sum(a + b) == Add(Sum(a), Sum(b))
    decreases |b|
  {
    if |b| == 0 {
      assert a + b == a;
    } else {
      var b' := b[..|b| - 1];
      assert (a + b)[..|a + b| - 1] == a + b';
      SumAppend(a, b');
    }
  }

  /** The centroid does not depend on which of two runs of dots was captured first. */
  lemma CentroidSwapRuns(a: seq<Point>, b: seq<Point>)
    ensures Centroid(a + b) == Centroid(b + a)
  {
    SumAppend(a, b);
    SumAppend(b, a);
  }

  lemma ScaleStep(m: real, v: Point)
    ensures Add(Scale(m, v), v) == Scale(m + 1.0, v)
  {
  }

  lemma {:induction false} SumTranslate(ps: seq<Point>, v: Point)
    ensures Sum(Translate(ps, v)) == Add(Sum(ps), Scale(|ps| as real, v))
    decreases |ps|
  {
    if |ps| > 0 {
      var n := |ps|;
      var t := Translate(ps, v);
      var t' := Translate(ps[..n - 1], v);
      assert t[..n - 1] == t';
      assert t[n - 1] == Add(ps[n - 1], v);
      SumTranslate(ps[..n - 1], v);
      var m := (n - 1) as real;
      var s' := Sum(ps[..n - 1]);
      var p := ps[n - 1];
      assert Sum(t') == Add(s', Scale(m, v));
      assert Sum(t) == Add(Sum(t'), Add(p, v));
      assert Sum(ps) == Add(s', p);
      ScaleStep(m, v);
      assert m + 1.0 == n as real;
      assert Sum(t) == Add(Add(s', p), Scale(m + 1.0, v));
    }
  }

  lemma ScaleAdd(n: real, c: Point, v: Point)
    ensures Scale(n, Add(c, v)) == Add(Scale(n, c), Scale(n, v))
  {
  }

  /** Shifting every dot by `v` shifts the centroid by `v`. */
  lemma CentroidTranslate(ps: seq<Point>, v: Point)
    requires |ps| > 0
    ensures Centroid(Translate(ps, v)) == Some(Add(Centroid(ps).value, v))
  {
    var n := |ps| as real;
    var c := Centroid(ps).value;
    SumTranslate(ps, v);
    CentroidIsMean(ps);
    ScaleAdd(n, c, v);
    MeanIsUnique(Translate(ps, v), Add(c, v));
  }

  /** Sum of the offsets `p - c`, the `dx`/`dy` of the scatter loop. */
  function SumOffsets(ps: seq<Point>, c: Point): Point
    decreases |ps|
  {
    if |ps| == 0 then Point(0.0, 0.0)
    else Add(SumOffsets(ps[..|ps| - 1], c), Sub(ps[|ps| - 1], c))
  }

  lemma {:induction false} SumOffsetsIsShiftedSum(ps: seq<Point>, c: Point)
    ensures SumOffsets(ps, c) == Sub(Sum(ps), Scale(|ps| as real, c))
    decreases |ps|
  {
    if |ps| > 0 {
      var n := |ps|;
      SumOffsetsIsShiftedSum(ps[..n - 1], c);
      ScaleStep((n - 1) as real, c);
    }
  }

  /** The offsets from the centroid cancel out: `sum dx == 0` and `sum dy == 0`. */
  lemma OffsetsFromCentroidCancel(ps: seq<Point>)
    requires |ps| > 0
    ensures SumOffsets(ps, Centroid(ps).value) == Point(0.0, 0.0)
  {
    SumOffsetsIsShiftedSum(ps, Centroid(ps).value);
    CentroidIsMean(ps);
  }

  /** The three scatter sums `sxx`, `syy`, `sxy`. */
  datatype Scatter = Scatter(sxx: real, syy: real, sxy: real)

  /** Add the products of one offset `d = (dx, dy)` to the sums. */
  function AddProducts(s: Scatter, d: Point): Scatter {
    Scatter(s.sxx + d.x * d.x, s.syy + d.y * d.y, s.sxy + d.x * d.y)
  }

  /** One iteration of the scatter loop: add the products of `p`'s offsets from `c`. */
  function Accumulate(s: Scatter, p: Point, c: Point): Scatter {
    AddProducts(s, Sub(p, c))
  }

  /** Scatter sums of `ps` about `c`, accumulated in the order of the source's loop. */
  function ScatterAbout(ps: seq<Point>, c: Point): Scatter
    decreases |ps|
  {
    if |ps| == 0 then Scatter(0.0, 0.0, 0.0)
    else Accumulate(ScatterAbout(ps[..|ps| - 1], c), ps[|ps| - 1], c)
  }

  /** The loop body's `sxx += dx * dx; syy += dy * dy; sxy += dx * dy`. */
  method AddOffsetProducts(sxx: real, syy: real, sxy: real, dx: real, dy: real)
    returns (sxx': real, syy': real, sxy': real)
    ensures Scatter(sxx', syy', sxy') == AddProducts(Scatter(sxx, syy, sxy), Point(dx, dy))
  {
    sxx' := sxx + dx * dx;
    syy' := syy + dy * dy;
    sxy' := sxy + dx * dy;
  }

  /**
    The accumulation loop of `getMainDirectionLine`, written as the source
    writes it; it computes the sums `ScatterAbout` defines.
  */
  method ComputeScatter(ps: seq<Point>, c: Point) returns (s: Scatter)
    ensures s == ScatterAbout(ps, c)
  {
    var sxx, syy, sxy := 0.0, 0.0, 0.0;
    var k := 0;
    while k < |ps|
      invariant 0 <= k <= |ps|
      invariant Scatter(sxx, syy, sxy) == ScatterAbout(ps[..k], c)
    {
      var dx := ps[k].x - c.x;
      var dy := ps[k].y - c.y;
      sxx, syy, sxy := AddOffsetProducts(sxx, syy, sxy, dx, dy);
      assert Sub(ps[k], c) == Point(dx, dy);
      assert ps[..k + 1][..k] == ps[..k] && ps[..k + 1][k] == ps[k];
      k := k + 1;
    }
    assert ps[..k] == ps;
    s := Scatter(sxx, syy, sxy);
  }

  lemma AddProductsGrows(s: Scatter, d: Point)
    ensures AddProducts(s, d).sxx >= s.sxx && AddProducts(s, d).syy >= s.syy
  {
    assert d.x * d.x >= 0.0;
    assert d.y * d.y >= 0.0;
  }

  lemma AccumulateGrows(s: Scatter, p: Point, c: Point)
    ensures Accumulate(s, p, c).sxx >= s.sxx && Accumulate(s, p, c).syy >= s.syy
  {
    AddProductsGrows(s, Sub(p, c));
  }

  /** `sxx` and `syy` are sums of squares, so neither is ever negative. */
  lemma {:induction false} ScatterNonNegative(ps: seq<Point>, c: Point)
    ensures ScatterAbout(ps, c).sxx >= 0.0 && ScatterAbout(ps, c).syy >= 0.0
    decreases |ps|
  {
    if |ps| > 0 {
      var n := |ps|;
      ScatterNonNegative(ps[..n - 1], c);
      AccumulateGrows(ScatterAbout(ps[..n - 1], c), ps[n - 1], c);
    }
  }

  /** One step of `sum (a * dx + b * dy)^2`. */
  function MixedStep(m: real, p: Point, c: Point, a: real, b: real): real {
    var e := a * (p.x - c.x) + b * (p.y - c.y);
    m + e * e
  }

  /** `sum (a * (p.x - c.x) + b * (p.y - c.y))^2`, the scatter matrix's quadratic form at `(a, b)`. */
  function MixedSquares(ps: seq<Point>, c: Point, a: real, b: real): real
    decreases |ps|
  {
    if |ps| == 0 then 0.0
    else MixedStep(MixedSquares(ps[..|ps| - 1], c, a, b), ps[|ps| - 1], c, a, b)
  }

  lemma MixedStepGrows(m: real, p: Point, c: Point, a: real, b: real)
    ensures MixedStep(m, p, c, a, b) >= m
  {
    var e := a * (p.x - c.x) + b * (p.y - c.y);
    assert e * e >= 0.0;
  }

  lemma {:induction false} MixedSquaresNonNegative(ps: seq<Point>, c: Point, a: real, b: real)
    ensures MixedSquares(ps, c, a, b) >= 0.0
    decreases |ps|
  {
    if |ps| > 0 {
      var n := |ps|;
      MixedSquaresNonNegative(ps[..n - 1], c, a, b);
      MixedStepGrows(MixedSquares(ps[..n - 1], c, a, b), ps[n - 1], c, a, b);
    }
  }

  /** The quadratic form of `s`, `a^2 sxx + 2ab sxy + b^2 syy`. */
  function Form(s: Scatter, a: real, b: real): real {
    a * a * s.sxx + 2.0 * a * b * s.sxy + b * b * s.syy
  }

  lemma ExpandSquare(a: real, b: real, dx: real, dy: real)
    ensures (a * dx + b * dy) * (a * dx + b * dy)
         == a * a * (dx * dx) + 2.0 * a * b * (dx * dy) + b * b * (dy * dy)
  {
  }

  lemma FormAddProducts(s: Scatter, d: Point, a: real, b: real)
    ensures Form(AddProducts(s, d), a, b)
         == Form(s, a, b) + (a * a * (d.x * d.x) + 2.0 * a * b * (d.x * d.y) + b * b * (d.y * d.y))
  {
  }

  lemma MixedStepExpand(s: Scatter, m: real, p: Point, c: Point, a: real, b: real)
    requires m == Form(s, a, b)
    ensures MixedStep(m, p, c, a, b) == Form(Accumulate(s, p, c), a, b)
  {
    var d := Sub(p, c);
    ExpandSquare(a, b, d.x, d.y);
    FormAddProducts(s, d, a, b);
  }

  /** The sum of squares `MixedSquares` is the quadratic form of the scatter sums. */
  lemma {:induction false} MixedSquaresExpand(ps: seq<Point>, c: Point, a: real, b: real)
    ensures MixedSquares(ps, c, a, b) == Form(ScatterAbout(ps, c), a, b)
    decreases |ps|
  {
    if |ps| > 0 {
      var n := |ps|;
      MixedSquaresExpand(ps[..n - 1], c, a, b);
      MixedStepExpand(ScatterAbout(ps[..n - 1], c), MixedSquares(ps[..n - 1], c, a, b), ps[n - 1], c, a, b);
    }
  }

  /** The quadratic form is never negative: the scatter matrix is positive semi-definite. */
  lemma FormNonNegative(ps: seq<Point>, c: Point, a: real, b: real)
    ensures Form(ScatterAbout(ps, c), a, b) >= 0.0
  {
    MixedSquaresExpand(ps, c, a, b);
    MixedSquaresNonNegative(ps, c, a, b);
  }

  lemma PositiveFactor(k: real, u: real)
    requires k > 0.0
    requires k * u >= 0.0
    ensures u >= 0.0
  {
  }

  lemma PositiveSyyAlgebra(s: Scatter)
    requires s.syy > 0.0
    requires Form(s, s.syy, -s.sxy) >= 0.0
    ensures s.sxy * s.sxy <= s.sxx * s.syy
  {
    var X, Y, Z := s.sxx, s.syy, s.sxy;
    assert Form(s, Y, -Z) == Y * (X * Y - Z * Z);
    PositiveFactor(Y, X * Y - Z * Z);
  }

  lemma CauchySchwarzPositiveSyy(ps: seq<Point>, c: Point)
    requires ScatterAbout(ps, c).syy > 0.0
    ensures var s := ScatterAbout(ps, c); s.sxy * s.sxy <= s.sxx * s.syy
  {
    var s := ScatterAbout(ps, c);
    FormNonNegative(ps, c, s.syy, -s.sxy);
    PositiveSyyAlgebra(s);
  }

  lemma ZeroSyyAlgebra(s: Scatter)
    requires s.syy == 0.0 && s.sxx > 0.0
    requires Form(s, s.sxy, -s.sxx) >= 0.0
    ensures s.sxy * s.sxy <= s.sxx * s.syy
  {
    var X, Z := s.sxx, s.sxy;
    assert Form(s, Z, -X) == X * -(Z * Z);
    PositiveFactor(X, -(Z * Z));
  }

  lemma CauchySchwarzZeroSyy(ps: seq<Point>, c: Point)
    requires ScatterAbout(ps, c).syy == 0.0 && ScatterAbout(ps, c).sxx > 0.0
    ensures var s := ScatterAbout(ps, c); s.sxy * s.sxy <= s.sxx * s.syy
  {
    var s := ScatterAbout(ps, c);
    FormNonNegative(ps, c, s.sxy, -s.sxx);
    ZeroSyyAlgebra(s);
  }

  lemma ZeroDiagonalAlgebra(s: Scatter)
    requires s.syy == 0.0 && s.sxx == 0.0
    requires Form(s, 1.0, 1.0) >= 0.0 && Form(s, 1.0, -1.0) >= 0.0
    ensures s.sxy == 0.0
  {
    assert Form(s, 1.0, 1.0) == 2.0 * s.sxy;
    assert Form(s, 1.0, -1.0) == -2.0 * s.sxy;
  }

  lemma CauchySchwarzZeroDiagonal(ps: seq<Point>, c: Point)
    requires ScatterAbout(ps, c).syy == 0.0 && ScatterAbout(ps, c).sxx == 0.0
    ensures ScatterAbout(ps, c).sxy == 0.0
  {
    var s := ScatterAbout(ps, c);
    FormNonNegative(ps, c, 1.0, 1.0);
    FormNonNegative(ps, c, 1.0, -1.0);
    ZeroDiagonalAlgebra(s);
  }

  /** Cauchy-Schwarz for the scatter sums: `sxy^2 <= sxx * syy`. */
  lemma ScatterCauchySchwarz(ps: seq<Point>, c: Point)
    ensures var s := ScatterAbout(ps, c); s.sxy * s.sxy <= s.sxx * s.syy
  {
    var s := ScatterAbout(ps, c);
    ScatterNonNegative(ps, c);
    if s.syy > 0.0 {
      CauchySchwarzPositiveSyy(ps, c);
    } else if s.sxx > 0.0 {
      CauchySchwarzZeroSyy(ps, c);
    } else {
      CauchySchwarzZeroDiagonal(ps, c);
      var z := s.sxy;
      assert z == 0.0;
      assert s.sxy * s.sxy == z * z;
    }
  }

  lemma AccumulateSameOffsets(s: Scatter, p: Point, c: Point, p': Point, c': Point)
    requires Sub(p', c') == Sub(p, c)
    ensures Accumulate(s, p', c') == Accumulate(s, p, c)
  {
  }

  lemma AccumulateTranslate(s: Scatter, p: Point, c: Point, v: Point)
    ensures Accumulate(s, Add(p, v), Add(c, v)) == Accumulate(s, p, c)
  {
    AccumulateSameOffsets(s, p, c, Add(p, v), Add(c, v));
  }

  /** Scatter sums only see offsets: moving the points and the centre together leaves them alone. */
  lemma {:induction false} ScatterTranslate(ps: seq<Point>, c: Point, v: Point)
    ensures ScatterAbout(Translate(ps, v), Add(c, v)) == ScatterAbout(ps, c)
    decreases |ps|
  {
    if |ps| > 0 {
      var n := |ps|;
      var t := Translate(ps, v);
      assert t[..n - 1] == Translate(ps[..n - 1], v);
      assert t[n - 1] == Add(ps[n - 1], v);
      ScatterTranslate(ps[..n - 1], c, v);
      AccumulateTranslate(ScatterAbout(ps[..n - 1], c), ps[n - 1], c, v);
    }
  }

  /** `Math.atan2`, `Math.cos` and `Math.sin`, supplied by the caller. */
  datatype Trig = Trig(atan2: (real, real) -> real, cos: real -> real, sin: real -> real)

  /** The one fact about the trigonometric functions the properties rely on. */
  ghost predicate UnitCircle(trig: Trig) {
    forall a :: trig.cos(a) * trig.cos(a) + trig.sin(a) * trig.sin(a) == 1.0
  }

  /** Half-length of the drawn direction line (`length` in the source). */
  const LineLength: real := 1000.0

  /** The result record of `getMainDirectionLine`. */
  datatype DirectionLine = DirectionLine(p1: Point, p2: Point, centroid: Point, angleRad: real)

  /** The principal angle `0.5 * atan2(2*sxy, sxx - syy)` of scatter sums `s`. */
  function PrincipalAngle(s: Scatter, trig: Trig): real {
    0.5 * trig.atan2(2.0 * s.sxy, s.sxx - s.syy)
  }

  /** Direction `(cos a, sin a)` as a point. */
  function Direction(trig: Trig, a: real): Point {
    Point(trig.cos(a), trig.sin(a))
  }

  /**
    `getMainDirectionLine`: undefined below two points; otherwise the line
    through the centroid along the principal angle, extended `LineLength`
    each way, so that its two ends are mirror images through the centroid.
  */
  function MainDirectionLine(ps: seq<Point>, trig: Trig): (r: Option<DirectionLine>)
    ensures r.None? <==> |ps| < 2
    ensures r.Some? ==> Centroid(ps) == Some(r.value.centroid)
    ensures r.Some? ==> r.value.angleRad == PrincipalAngle(ScatterAbout(ps, r.value.centroid), trig)
    ensures r.Some? ==> Add(r.value.p1, r.value.p2) == Scale(2.0, r.value.centroid)
    ensures r.Some? ==> Sub(r.value.p2, r.value.centroid) == Sub(r.value.centroid, r.value.p1)
    ensures r.Some? ==> Sub(r.value.p2, r.value.p1) == Scale(2.0 * LineLength, Direction(trig, r.value.angleRad))
  {
    if |ps| < 2 then None
    else
      var c := Centroid(ps).value;
      var s := ScatterAbout(ps, c);
      var theta := PrincipalAngle(s, trig);
      var dir := Direction(trig, theta);
      var p1 := Point(c.x - dir.x * LineLength, c.y - dir.y * LineLength);
      var p2 := Point(c.x + dir.x * LineLength, c.y + dir.y * LineLength);
      Some(DirectionLine(p1, p2, c, theta))
  }

  /** With a genuine unit direction, each end lies exactly `LineLength` from the centroid. */
  lemma LineEndsAtLineLength(ps: seq<Point>, trig: Trig)
    requires UnitCircle(trig)
    requires |ps| >= 2
    ensures var l := MainDirectionLine(ps, trig).value;
      DistSq(l.p1, l.centroid) == LineLength * LineLength
      && DistSq(l.p2, l.centroid) == LineLength * LineLength
  {
    var l := MainDirectionLine(ps, trig).value;
    var a := l.angleRad;
    var co, si := trig.cos(a), trig.sin(a);
    assert co * co + si * si == 1.0;
    assert l.p2.x - l.centroid.x == co * LineLength;
    assert l.p2.y - l.centroid.y == si * LineLength;
    assert DistSq(l.p2, l.centroid) == (co * co + si * si) * (LineLength * LineLength);
    assert DistSq(l.p1, l.centroid) == (co * co + si * si) * (LineLength * LineLength);
  }

  /**
    Moving every dot by `v` moves the line by `v` and keeps its angle:
    the direction depends on the shape of the point cloud, not its position.
  */
  lemma DirectionLineTranslate(ps: seq<Point>, trig: Trig, v: Point)
    requires |ps| >= 2
    ensures var l := MainDirectionLine(ps, trig).value;
      var l' := MainDirectionLine(Translate(ps, v), trig).value;
      l'.angleRad == l.angleRad
      && l'.centroid == Add(l.centroid, v)
      && l'.p1 == Add(l.p1, v)
      && l'.p2 == Add(l.p2, v)
  {
    CentroidTranslate(ps, v);
    ScatterTranslate(ps, Centroid(ps).value, v);
  }

  /** All dots on one spot: every scatter sum about that spot vanishes. */
  lemma {:induction false} ScatterOfCoincidentPoints(ps: seq<Point>, c: Point)
    requires forall i :: 0 <= i < |ps| ==> ps[i] == c
    ensures ScatterAbout(ps, c) == Scatter(0.0, 0.0, 0.0)
    decreases |ps|
  {
    if |ps| > 0 {
      var n := |ps|;
      var prefix := ps[..n - 1];
      assert forall i :: 0 <= i < |prefix| ==> prefix[i] == c;
      ScatterOfCoincidentPoints(prefix, c);
      assert Sub(ps[n - 1], c) == Point(0.0, 0.0);
      AddNoProducts(ScatterAbout(prefix, c));
    }
  }

  lemma AddNoProducts(s: Scatter)
    ensures AddProducts(s, Point(0.0, 0.0)) == s
  {
  }

  lemma {:induction false} SumOfCopies(ps: seq<Point>, p: Point)
    requires forall i :: 0 <= i < |ps| ==> ps[i] == p
    ensures Sum(ps) == Scale(|ps| as real, p)
    decreases |ps|
  {
    if |ps| > 0 {
      var n := |ps|;
      var prefix := ps[..n - 1];
      assert forall i :: 0 <= i < |prefix| ==> prefix[i] == p;
      SumOfCopies(prefix, p);
      ScaleStep((n - 1) as real, p);
    }
  }

  /**
    When every dot is on the same spot, the centroid is that spot and the
    angle is whatever `0.5 * atan2(0, 0)` is (0 with `Math.atan2`).
  */
  lemma CoincidentPointsAngle(ps: seq<Point>, trig: Trig)
    requires |ps| >= 2
    requires forall i :: 0 <= i < |ps| ==> ps[i] == ps[0]
    ensures MainDirectionLine(ps, trig).value.centroid == ps[0]
    ensures MainDirectionLine(ps, trig).value.angleRad == 0.5 * trig.atan2(0.0, 0.0)
  {
    SumOfCopies(ps, ps[0]);
    MeanIsUnique(ps, ps[0]);
    ScatterOfCoincidentPoints(ps, ps[0]);
  }

  // Order independence: capture order changes neither the centroid, the
  // scatter sums nor the direction line.

  /** `Sum` of a sequence with one point appended. */
  lemma SumSnoc(ps: seq<Point>, p: Point)
    ensures Sum(ps + [p]) == Add(Sum(ps), p)
  {
    assert (ps + [p])[..|ps|] == ps;
  }

  /** Removing point `k` takes exactly that point off the sum. */
  lemma SumRemove(qs: seq<Point>, k: nat)
    requires k < |qs|
    ensures Sum(qs) == Add(Sum(qs[..k] + qs[k + 1..]), qs[k])
  {
    assert qs == (qs[..k] + [qs[k]]) + qs[k + 1..];
    SumAppend(qs[..k] + [qs[k]], qs[k + 1..]);
    SumSnoc(qs[..k], qs[k]);
    SumAppend(qs[..k], qs[k + 1..]);
  }

  /** Sequences holding the same points the same number of times have the same sum. */
  lemma {:induction false} SumPermutation(ps: seq<Point>, qs: seq<Point>)
    requires multiset(ps) == multiset(qs)
    ensures Sum(ps) == Sum(qs)
    decreases |ps|
  {
    if |ps| > 0 {
      var n := |ps|;
      var p := ps[n - 1];
      assert p in multiset(qs);
      var k :| 0 <= k < |qs| && qs[k] == p;
      var rest := qs[..k] + qs[k + 1..];
      assert ps == ps[..n - 1] + [p];
      assert qs == qs[..k] + [p] + qs[k + 1..];
      assert multiset(ps) == multiset(ps[..n - 1]) + multiset{p};
      assert multiset(qs) == multiset(rest) + multiset{p};
      assert multiset(ps[..n - 1]) == multiset(ps) - multiset{p};
      assert multiset(rest) == multiset(qs) - multiset{p};
      SumPermutation(ps[..n - 1], rest);
      SumRemove(qs, k);
    }
  }

  /** The centroid depends only on which dots were captured, not in which order. */
  lemma CentroidPermutation(ps: seq<Point>, qs: seq<Point>)
    requires multiset(ps) == multiset(qs)
    ensures Centroid(ps) == Centroid(qs)
  {
    assert |ps| == |multiset(ps)| == |multiset(qs)| == |qs|;
    SumPermutation(ps, qs);
  }

  /** Field-wise sum of two sets of scatter sums. */
  function AddScatter(s: Scatter, t: Scatter): Scatter {
    Scatter(s.sxx + t.sxx, s.syy + t.syy, s.sxy + t.sxy)
  }

  /** Scatter sums of a concatenation are the field-wise sum of the parts' sums. */
  lemma {:induction false} ScatterAppend(a: seq<Point>, b: seq<Point>, c: Point)
    ensures ScatterAbout(a + b, c) == AddScatter(ScatterAbout(a, c), ScatterAbout(b, c))
    decreases |b|
  {
    if |b| == 0 {
      assert a + b == a;
    } else {
      var b' := b[..|b| - 1];
      assert (a + b)[..|a + b| - 1] == a + b';
      assert (a + b)[|a + b| - 1] == b[|b| - 1];
      ScatterAppend(a, b', c);
    }
  }

  /** Scatter sums of a sequence with one point appended. */
  lemma ScatterSnoc(ps: seq<Point>, p: Point, c: Point)
    ensures ScatterAbout(ps + [p], c) == Accumulate(ScatterAbout(ps, c), p, c)
  {
    assert (ps + [p])[..|ps|] == ps;
  }

  /** Adding one point's products commutes with adding further sums. */
  lemma AccumulateAddScatter(s: Scatter, t: Scatter, p: Point, c: Point)
    ensures AddScatter(Accumulate(s, p, c), t) == Accumulate(AddScatter(s, t), p, c)
  {
    var d := Sub(p, c);
    var e := d.x * d.x;
    var f := d.y * d.y;
    var g := d.x * d.y;
    assert Accumulate(s, p, c) == Scatter(s.sxx + e, s.syy + f, s.sxy + g);
  }

  /** Removing point `k` takes exactly its products off the scatter sums. */
  lemma ScatterRemove(qs: seq<Point>, k: nat, c: Point)
    requires k < |qs|
    ensures ScatterAbout(qs, c) == Accumulate(ScatterAbout(qs[..k] + qs[k + 1..], c), qs[k], c)
  {
    var pre, post := qs[..k], qs[k + 1..];
    assert qs == (pre + [qs[k]]) + post;
    ScatterAppend(pre + [qs[k]], post, c);
    ScatterSnoc(pre, qs[k], c);
    ScatterAppend(pre, post, c);
    AccumulateAddScatter(ScatterAbout(pre, c), ScatterAbout(post, c), qs[k], c);
  }

  /** Sequences holding the same points the same number of times have the same scatter sums. */
  lemma {:induction false} ScatterPermutation(ps: seq<Point>, qs: seq<Point>, c: Point)
    requires multiset(ps) == multiset(qs)
    ensures ScatterAbout(ps, c) == ScatterAbout(qs, c)
    decreases |ps|
  {
    if |ps| > 0 {
      var n := |ps|;
      var p := ps[n - 1];
      assert p in multiset(qs);
      var k :| 0 <= k < |qs| && qs[k] == p;
      var rest := qs[..k] + qs[k + 1..];
      assert ps == ps[..n - 1] + [p];
      assert qs == qs[..k] + [p] + qs[k + 1..];
      assert multiset(ps) == multiset(ps[..n - 1]) + multiset{p};
      assert multiset(qs) == multiset(rest) + multiset{p};
      assert multiset(ps[..n - 1]) == multiset(ps) - multiset{p};
      assert multiset(rest) == multiset(qs) - multiset{p};
      ScatterPermutation(ps[..n - 1], rest, c);
      ScatterRemove(qs, k, c);
    }
  }

  /** Swapping two runs of points keeps the scatter sums. */
  lemma ScatterSwapRuns(a: seq<Point>, b: seq<Point>, c: Point)
    ensures ScatterAbout(a + b, c) == ScatterAbout(b + a, c)
  {
    ScatterAppend(a, b, c);
    ScatterAppend(b, a, c);
  }

  /** The direction line depends only on which dots were captured, not in which order. */
  lemma DirectionLinePermutation(ps: seq<Point>, qs: seq<Point>, trig: Trig)
    requires multiset(ps) == multiset(qs)
    ensures MainDirectionLine(ps, trig) == MainDirectionLine(qs, trig)
  {
    assert |ps| == |multiset(ps)| == |multiset(qs)| == |qs|;
    CentroidPermutation(ps, qs);
    if |ps| >= 2 {
      ScatterPermutation(ps, qs, Centroid(ps).value);
    }
  }

  /** In particular, swapping two runs of captured dots keeps the line. */
  lemma DirectionLineSwapRuns(a: seq<Point>, b: seq<Point>, trig: Trig)
    ensures MainDirectionLine(a + b, trig) == MainDirectionLine(b + a, trig)
  {
    assert multiset(a + b) == multiset(b + a);
    DirectionLinePermutation(a + b, b + a, trig);
  }
}
