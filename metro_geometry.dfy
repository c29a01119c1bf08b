/**
 * Plane geometry of the metro map: points, the strict bounds test, squared
 * distances, the strict segment-crossing test, and the `atan2`-based
 * classification of a segment's direction.
 */
module MetroGeometry {
  import opened MetroDirections

  datatype Point = Point(x: real, y: real)

  /** One step of `len` pixels in direction `d`. */
  function Advance(p: Point, d: int, len: real): (q: Point)
    requires IsDirection(d)
    ensures q.x - p.x == Direction(d).dx as real * len && q.y - p.y == Direction(d).dy as real * len
  {
    Point(p.x + Direction(d).dx as real * len, p.y + Direction(d).dy as real * len)
  }

  datatype Bounds = Bounds(left: real, right: real, top: real, bottom: real)

  /** `isInBounds`: strictly inside all four edges. */
  predicate InBounds(p: Point, b: Bounds)
  {
    p.x > b.left && p.x < b.right && p.y > b.top && p.y < b.bottom
  }

  /** The squared Euclidean distance; comparing it with a squared threshold replaces `distance`. */
  function DistSq(a: Point, b: Point): (r: real)
    ensures r >= 0.0
  {
    var dx := a.x - b.x;
    var dy := a.y - b.y;
    SquareNonNeg(dx);
    SquareNonNeg(dy);
    dx * dx + dy * dy
  }

  lemma SquareNonNeg(x: real)
    ensures x * x >= 0.0
  {
    if x < 0.0 {
      PositiveSquare(-x);
      assert x * x == (-x) * (-x);
    } else if x > 0.0 {
      PositiveSquare(x);
    }
  }

  lemma PositiveSquare(x: real)
    requires x > 0.0
    ensures x * x > 0.0
  {
    assert x * x > 0.0 * x;
  }

  lemma DistSqSymmetric(a: Point, b: Point)
    ensures DistSq(a, b) == DistSq(b, a)
  {
  }

  function Midpoint(a: Point, b: Point): Point
  {
    Point((a.x + b.x) / 2.0, (a.y + b.y) / 2.0)
  }

  function Abs(x: real): (r: real)
    ensures r >= 0.0 && (r == x || r == -x)
  {
    if x < 0.0 then -x else x
  }

  /** Cross product of `b - a` and `c - a`: positive when `c` lies to one side of the line through `a` and `b`. */
  function Cross(a: Point, b: Point, c: Point): real
  {
    (b.x - a.x) * (c.y - a.y) - (b.y - a.y) * (c.x - a.x)
  }

  predicate OppositeSigns(u: real, v: real)
  {
    (u > 0.0 && v < 0.0) || (u < 0.0 && v > 0.0)
  }

  /** `segmentsIntersect`: each segment strictly straddles the line through the other. */
  predicate SegmentsIntersect(p1: Point, p2: Point, p3: Point, p4: Point)
  {
    OppositeSigns(Cross(p3, p4, p1), Cross(p3, p4, p2)) &&
    OppositeSigns(Cross(p1, p2, p3), Cross(p1, p2, p4))
  }

  /** The test does not depend on which segment is named first. */
  lemma SegmentsIntersectSymmetric(p1: Point, p2: Point, p3: Point, p4: Point)
    ensures SegmentsIntersect(p1, p2, p3, p4) == SegmentsIntersect(p3, p4, p1, p2)
  {
  }

  /** Nor on the orientation of either segment. */
  lemma SegmentsIntersectReversed(p1: Point, p2: Point, p3: Point, p4: Point)
    ensures SegmentsIntersect(p1, p2, p3, p4) == SegmentsIntersect(p2, p1, p3, p4)
    ensures SegmentsIntersect(p1, p2, p3, p4) == SegmentsIntersect(p1, p2, p4, p3)
  {
    assert Cross(p2, p1, p3) == -Cross(p1, p2, p3);
    assert Cross(p2, p1, p4) == -Cross(p1, p2, p4);
    assert Cross(p4, p3, p1) == -Cross(p3, p4, p1);
    assert Cross(p4, p3, p2) == -Cross(p3, p4, p2);
  }

  /**
   * When an endpoint of either segment lies on the line through the other
   * (collinear segments, a shared endpoint, a T-junction) the test says no.
   */
  lemma SegmentsTouchingDoNotIntersect(p1: Point, p2: Point, p3: Point, p4: Point)
    requires Cross(p3, p4, p1) == 0.0 || Cross(p3, p4, p2) == 0.0 || Cross(p1, p2, p3) == 0.0 || Cross(p1, p2, p4) == 0.0
    ensures !SegmentsIntersect(p1, p2, p3, p4)
  {
  }

  /** In particular segments sharing an endpoint never count as crossing. */
  lemma SharedEndpointDoesNotIntersect(p1: Point, p2: Point, p3: Point, p4: Point)
    requires p1 == p3 || p1 == p4 || p2 == p3 || p2 == p4
    ensures !SegmentsIntersect(p1, p2, p3, p4)
  {
    SegmentsTouchingDoNotIntersect(p1, p2, p3, p4);
  }

  /** A positive test means a proper crossing: some point lies strictly inside both segments. */
  lemma SegmentsIntersectSound(p1: Point, p2: Point, p3: Point, p4: Point)
    requires SegmentsIntersect(p1, p2, p3, p4)
    ensures exists t: real, u: real ::
      0.0 < t < 1.0 && 0.0 < u < 1.0 && Lerp(p1, p2, t) == Lerp(p3, p4, u)
  {
    var d1 := Cross(p3, p4, p1);
    var d2 := Cross(p3, p4, p2);
    var d3 := Cross(p1, p2, p3);
    var d4 := Cross(p1, p2, p4);
    var t := d1 / (d1 - d2);
    var u := d3 / (d3 - d4);
    FractionInside(d1, d2);
    FractionInside(d3, d4);
    CrossingPoint(p1, p2, p3, p4, t, u);
    assert Lerp(p1, p2, t) == Lerp(p3, p4, u);
  }

  /** The point a fraction `t` of the way from `a` to `b`. */
  function Lerp(a: Point, b: Point, t: real): Point
  {
    Point(a.x + (b.x - a.x) * t, a.y + (b.y - a.y) * t)
  }

  lemma FractionInside(u: real, v: real)
    requires OppositeSigns(u, v)
    ensures 0.0 < u / (u - v) < 1.0
  {
    if u > 0.0 {
      assert u - v > u;
    } else {
      assert u - v < u;
    }
  }

  /** The two parametric points coincide (the algebra behind `SegmentsIntersectSound`). */
  lemma CrossingPoint(p1: Point, p2: Point, p3: Point, p4: Point, t: real, u: real)
    requires SegmentsIntersect(p1, p2, p3, p4)
    requires t == Cross(p3, p4, p1) / (Cross(p3, p4, p1) - Cross(p3, p4, p2))
    requires u == Cross(p1, p2, p3) / (Cross(p1, p2, p3) - Cross(p1, p2, p4))
    ensures Lerp(p1, p2, t) == Lerp(p3, p4, u)
  {
    // Translate so that p1 is the origin: a = p2 - p1, b = p3 - p1, c = p4 - p1.
    var ax, ay := p2.x - p1.x, p2.y - p1.y;
    var qx, qy := p3.x - p1.x, p3.y - p1.y;
    var cx, cy := p4.x - p1.x, p4.y - p1.y;
    var ex, ey := cx - qx, cy - qy;
    var d1 := Cross(p3, p4, p1);
    var d2 := Cross(p3, p4, p2);
    var d3 := Cross(p1, p2, p3);
    var d4 := Cross(p1, p2, p4);
    // Both differences of crosses are the determinant of the two directions.
    var det := ax * ey - ay * ex;
    assert d1 == ex * (-qy) - ey * (-qx);
    assert d1 - d2 == det;
    assert d3 == ax * qy - ay * qx;
    assert d4 == ax * cy - ay * cx;
    assert d3 - d4 == -det;
    assert det != 0.0;
    var n1 := ey * qx - ex * qy;
    var n2 := ay * qx - ax * qy;
    assert t * det == n1 by { assert t == d1 / det; }
    assert u * det == n2 by { assert u == d3 / (-det); }
    // Relative to p1 the crossing point is a * t == b + e * u.
    assert ax * n1 == qx * det + ex * n2;
    assert ay * n1 == qy * det + ey * n2;
    CancelNonZero(ax * t, qx + ex * u, det);
    CancelNonZero(ay * t, qy + ey * u, det);
  }

  lemma CancelNonZero(a: real, b: real, k: real)
    requires k != 0.0 && a * k == b * k
    ensures a == b
  {
    assert (a - b) * k == 0.0;
  }

  // ------------------------------------------------------- segment direction

  /**
   * `Math.round(((Math.atan2(dy, dx) + 2 * Math.PI) % (2 * Math.PI)) / (Math.PI / 4)) % 8`
   * computed without trigonometry: the angle of `(dx, dy)` is rounded to the
   * nearest multiple of 45 degrees, ties going counter-clockwise, 360 degrees
   * wrapping to 0. Since tan 22.5 degrees is sqrt 2 - 1, the angle to the x
   * axis is below 22.5 degrees exactly when `(|dx| + |dy|)^2 < 2 dx^2`, and
   * the angle to the y axis is at most 22.5 degrees exactly when
   * `(|dx| + |dy|)^2 <= 2 dy^2`; the zero vector gives `atan2(0, 0) = 0`.
   */
  function AngleOctant(dx: real, dy: real): (k: int)
    ensures IsDirection(k)
  {
    var s := (Abs(dx) + Abs(dy)) * (Abs(dx) + Abs(dy));
    if dy == 0.0 then (if dx < 0.0 then 4 else 0)
    else if dx == 0.0 then (if dy > 0.0 then 2 else 6)
    else if dx > 0.0 && dy > 0.0 then (if s < 2.0 * dx * dx then 0 else if s <= 2.0 * dy * dy then 2 else 1)
    else if dx < 0.0 && dy > 0.0 then (if s < 2.0 * dy * dy then 2 else if s <= 2.0 * dx * dx then 4 else 3)
    else if dx < 0.0 then (if s < 2.0 * dx * dx then 4 else if s <= 2.0 * dy * dy then 6 else 5)
    else (if s < 2.0 * dy * dy then 6 else if s <= 2.0 * dx * dx then 0 else 7)
  }

  /**
   * `getSegmentDirection` as written: `atan2(dy, dx)` on screen coordinates,
   * where y grows downwards. Angles are then measured clockwise on screen,
   * the mirror image of the numbering of `DIRECTIONS`.
   */
  function SegmentDirectionAsWritten(a: Point, b: Point): (k: int)
    ensures IsDirection(k)
  {
    AngleOctant(b.x - a.x, b.y - a.y)
  }

  /** The classification `DIRECTIONS` calls for: flip y before taking the angle. */
  function SegmentDirection(a: Point, b: Point): (k: int)
    ensures IsDirection(k)
  {
    AngleOctant(b.x - a.x, a.y - b.y)
  }

  /** The eight classifications of a step of length `c > 0`, angles measured on the given axes. */
  lemma OctantsOfSteps(c: real)
    requires c > 0.0
    ensures AngleOctant(c, 0.0) == 0 && AngleOctant(c, c) == 1 && AngleOctant(0.0, c) == 2
    ensures AngleOctant(-c, c) == 3 && AngleOctant(-c, 0.0) == 4 && AngleOctant(-c, -c) == 5
    ensures AngleOctant(0.0, -c) == 6 && AngleOctant(c, -c) == 7
  {
    assert Abs(c) == c && Abs(-c) == c;
    assert (Abs(c) + Abs(c)) * (Abs(c) + Abs(c)) == (c + c) * (c + c);
    assert (Abs(-c) + Abs(c)) * (Abs(-c) + Abs(c)) == (c + c) * (c + c);
    assert (Abs(c) + Abs(-c)) * (Abs(c) + Abs(-c)) == (c + c) * (c + c);
    assert (Abs(-c) + Abs(-c)) * (Abs(-c) + Abs(-c)) == (c + c) * (c + c);
    assert c * c > 0.0;
    assert (c + c) * (c + c) == 4.0 * (c * c);
    assert !((c + c) * (c + c) <= 2.0 * c * c);
    assert !((c + c) * (c + c) <= 2.0 * (-c) * (-c));
  }

  lemma StepOctant(d: int, c: real)
    requires IsDirection(d) && c > 0.0
    ensures AngleOctant(Direction(d).dx as real * c, -(Direction(d).dy as real * c)) == d
    ensures AngleOctant(Direction(d).dx as real * c, Direction(d).dy as real * c) == (8 - d) % 8
  {
    OctantsOfSteps(c);
    if d == 0 {
      assert Direction(d).dx as real * c == c && Direction(d).dy as real * c == 0.0;
    } else if d == 1 {
      assert Direction(d).dx as real * c == c && Direction(d).dy as real * c == -c;
    } else if d == 2 {
      assert Direction(d).dx as real * c == 0.0 && Direction(d).dy as real * c == -c;
    } else if d == 3 {
      assert Direction(d).dx as real * c == -c && Direction(d).dy as real * c == -c;
    } else if d == 4 {
      assert Direction(d).dx as real * c == -c && Direction(d).dy as real * c == 0.0;
    } else if d == 5 {
      assert Direction(d).dx as real * c == -c && Direction(d).dy as real * c == c;
    } else if d == 6 {
      assert Direction(d).dx as real * c == 0.0 && Direction(d).dy as real * c == c;
    } else {
      assert Direction(d).dx as real * c == c && Direction(d).dy as real * c == c;
    }
  }

  /** A segment drawn `c > 0` pixels along direction `d` is classified as `d`. */
  lemma SegmentDirectionOfStep(a: Point, d: int, c: real)
    requires IsDirection(d) && c > 0.0
    ensures SegmentDirection(a, Advance(a, d, c)) == d
  {
    StepOctant(d, c);
    var b := Advance(a, d, c);
    assert b.x - a.x == Direction(d).dx as real * c;
    assert a.y - b.y == -(Direction(d).dy as real * c);
  }

  /** As written, the same segment is classified as the mirror direction `(8 - d) % 8`. */
  lemma SegmentDirectionAsWrittenOfStep(a: Point, d: int, c: real)
    requires IsDirection(d) && c > 0.0
    ensures SegmentDirectionAsWritten(a, Advance(a, d, c)) == (8 - d) % 8
  {
    StepOctant(d, c);
    var b := Advance(a, d, c);
    assert b.x - a.x == Direction(d).dx as real * c;
    assert b.y - a.y == Direction(d).dy as real * c;
  }

  /** "Same or opposite direction", the `parallelDirs` test. */
  predicate SameAxis(d: int, other: int)
  {
    other == d || other == (d + 4) % 8
  }

  /** With the corrected classification a step along `e` counts as parallel to `d` exactly when `e` and `d` share an axis. */
  lemma ParallelOfStep(a: Point, d: int, e: int, c: real)
    requires IsDirection(d) && IsDirection(e) && c > 0.0
    ensures SameAxis(d, SegmentDirection(a, Advance(a, d, c))) // a segment is parallel to itself
    ensures SameAxis(d, SegmentDirection(a, Advance(a, e, c))) <==> e % 4 == d % 4
  {
    SegmentDirectionOfStep(a, d, c);
    SegmentDirectionOfStep(a, e, c);
  }

  /** As written, a diagonal step counts as parallel to a diagonal `d` exactly when it is at a right angle to it. */
  lemma ParallelOfStepAsWritten(a: Point, d: int, e: int, c: real)
    requires IsDirection(d) && IsDirection(e) && c > 0.0 && d % 2 == 1 && e % 2 == 1
    ensures SameAxis(d, SegmentDirectionAsWritten(a, Advance(a, e, c))) <==> Turn(d, e) in {2, 6}
  {
    SegmentDirectionAsWrittenOfStep(a, e, c);
  }

  /** The concrete case: a north-east segment is not seen as parallel to north-east, a north-west one is. */
  lemma DiagonalParallelCounterexample()
    ensures !SameAxis(1, SegmentDirectionAsWritten(Point(0.0, 0.0), Point(60.0, -60.0)))
    ensures SameAxis(1, SegmentDirectionAsWritten(Point(0.0, 0.0), Point(-60.0, -60.0)))
    ensures SameAxis(1, SegmentDirection(Point(0.0, 0.0), Point(60.0, -60.0)))
    ensures !SameAxis(1, SegmentDirection(Point(0.0, 0.0), Point(-60.0, -60.0)))
  {
  }
}
