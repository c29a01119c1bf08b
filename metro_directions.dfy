/**
 * The eight octilinear directions of the metro map (indices 0..7 counting
 * counter-clockwise from east, in screen coordinates where y grows downwards,
 * so index 2 is north) and the direction sets a line may continue or branch in.
 */
module MetroDirections {

  /** A unit step of the octilinear grid. */
  datatype Step = Step(dx: int, dy: int)

  predicate IsDirection(d: int)
  {
    0 <= d < 8
  }

  /** `Direction(d)`: east, north-east, north, north-west, west, south-west, south, south-east. */
  function Direction(d: int): (s: Step)
    requires IsDirection(d)
    ensures -1 <= s.dx <= 1 && -1 <= s.dy <= 1 && s != Step(0, 0)
  {
    if d == 0 then Step(1, 0)
    else if d == 1 then Step(1, -1)
    else if d == 2 then Step(0, -1)
    else if d == 3 then Step(-1, -1)
    else if d == 4 then Step(-1, 0)
    else if d == 5 then Step(-1, 1)
    else if d == 6 then Step(0, 1)
    else Step(1, 1)
  }

  /** The counter-clockwise turn (in 45 degree units, 0..7) from direction `a` to direction `b`. */
  function Turn(a: int, b: int): (t: int)
    requires IsDirection(a) && IsDirection(b)
    ensures 0 <= t < 8
  {
    if a <= b then b - a else b - a + 8
  }

  /** The product of two step components, each in -1..1. */
  function UnitProduct(a: int, b: int): int
  {
    if a == 0 || b == 0 then 0 else if a == b then 1 else -1
  }

  /** Dot product of two steps. */
  function Dot(a: Step, b: Step): int
  {
    UnitProduct(a.dx, b.dx) + UnitProduct(a.dy, b.dy)
  }

  /** `getValidContinueDirections`: straight ahead five times over, then the two 45 degree turns. */
  function ContinueDirections(d: int): (r: seq<int>)
    requires IsDirection(d)
    ensures |r| == 7
    ensures forall i :: 0 <= i < |r| ==> IsDirection(r[i])
  {
    [d, d, d, d, d, (d + 1) % 8, (d + 7) % 8]
  }

  /** `getValidBranchDirections`: the two right angles, then the two 135 degree turns. */
  function BranchDirections(d: int): (r: seq<int>)
    requires IsDirection(d)
    ensures |r| == 4
    ensures forall i :: 0 <= i < |r| ==> IsDirection(r[i])
  {
    [(d + 2) % 8, (d + 6) % 8, (d + 3) % 8, (d + 5) % 8]
  }

  /** Continuing keeps the heading five times in seven and otherwise turns by exactly 45 degrees, once either way. */
  lemma ContinueDirectionsCounts(d: int)
    requires IsDirection(d)
    ensures var r := ContinueDirections(d);
      multiset(r)[d] == 5 && multiset(r)[(d + 1) % 8] == 1 && multiset(r)[(d + 7) % 8] == 1
  {
    var r := ContinueDirections(d);
    var a, b := (d + 1) % 8, (d + 7) % 8;
    assert r == [d, d, d, d, d, a, b];
    assert a != d && b != d && a != b;
    assert multiset(r) == multiset{d, d, d, d, d, a, b};
  }

  lemma ContinueDirectionsTurns(d: int)
    requires IsDirection(d)
    ensures var r := ContinueDirections(d);
      (forall i :: 0 <= i < |r| ==> Turn(d, r[i]) in {0, 1, 7}) &&
      Turn(d, r[5]) == 1 && Turn(d, r[6]) == 7
  {
  }

  /** Branching turns by exactly 90, 270, 135 and 225 degrees. */
  lemma BranchDirectionsTurns(d: int)
    requires IsDirection(d)
    ensures var r := BranchDirections(d);
      Turn(d, r[0]) == 2 && Turn(d, r[1]) == 6 && Turn(d, r[2]) == 3 && Turn(d, r[3]) == 5
  {
  }

  /** So a branch never keeps the heading, reverses it or turns by 45 degrees, and every such turn is offered. */
  lemma BranchDirectionsExactly(d: int)
    requires IsDirection(d)
    ensures var r := BranchDirections(d);
      forall e :: IsDirection(e) ==> (e in r <==> Turn(d, e) in {2, 3, 5, 6})
  {
    var r := BranchDirections(d);
    forall e | IsDirection(e)
      ensures e in r <==> Turn(d, e) in {2, 3, 5, 6}
    {
      assert e in r <==> e == r[0] || e == r[1] || e == r[2] || e == r[3];
    }
  }

  /** Direction `(d + 2) % 8` is direction `d` turned a quarter counter-clockwise on screen. */
  lemma QuarterTurn(d: int)
    requires IsDirection(d)
    ensures Direction((d + 2) % 8) == Step(Direction(d).dy, -Direction(d).dx)
  {
    if d == 0 {} else if d == 1 {} else if d == 2 {} else if d == 3 {}
    else if d == 4 {} else if d == 5 {} else if d == 6 {} else {}
  }

  /** The first two branch directions are perpendicular to the heading. */
  lemma BranchDirectionsPerpendicular(d: int)
    requires IsDirection(d)
    ensures Dot(Direction(d), Direction(BranchDirections(d)[0])) == 0
    ensures Dot(Direction(d), Direction(BranchDirections(d)[1])) == 0
  {
    var r := BranchDirections(d);
    assert r[0] == (d + 2) % 8 && r[1] == (d + 6) % 8;
    if d < 4 {
      assert r[0] == d + 2;
      if d < 2 { assert r[1] == d + 6; } else { assert r[1] == d - 2; }
    } else {
      assert r[1] == d - 2;
      if d < 6 { assert r[0] == d + 2; } else { assert r[0] == d - 6; }
    }
    if d == 0 {} else if d == 1 {} else if d == 2 {} else if d == 3 {}
    else if d == 4 {} else if d == 5 {} else if d == 6 {} else {}
  }

  /** Direction `(d + 4) % 8` is the reverse of direction `d`. */
  lemma OppositeDirection(d: int)
    requires IsDirection(d)
    ensures Direction((d + 4) % 8) == Step(-Direction(d).dx, -Direction(d).dy)
  {
    if d == 0 {} else if d == 1 {} else if d == 2 {} else if d == 3 {}
    else if d == 4 {} else if d == 5 {} else if d == 6 {} else {}
  }
}
