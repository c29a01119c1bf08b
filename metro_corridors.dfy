/**
 * The corridor registry of the metro map: segments that several lines run
 * along side by side, each line's perpendicular offset inside a corridor, and
 * the integer spatial grid (cells of one segment length) used to find the
 * segments near a point.
 */
module MetroCorridors {
  import opened MetroDirections
  import opened MetroGeometry
  import opened StableSort

  /**
   * A corridor segment. `lineIds` is a JavaScript `Set`, kept here in
   * insertion order without repetitions (the order `Array.from` yields);
   * `assignedOffsets` is a `Map` from line id to offset multiplier.
   */
  datatype CorridorSegment = CorridorSegment(
    startPoint: Point,
    endPoint: Point,
    direction: int,
    lineIds: seq<int>,
    assignedOffsets: map<int, real>)

  predicate Distinct(s: seq<int>)
  {
    forall i, j :: 0 <= i < j < |s| ==> s[i] != s[j]
  }

  // ------------------------------------------------------------------ grid

  /** A grid cell; the source writes it as the map key `${cellX},${cellY}`. */
  datatype Cell = Cell(x: int, y: int)

  /** `Math.floor(v / cellSize)`: the cell column (or row) holding `v`. */
  function CellOf(v: real, cellSize: real): (c: int)
    requires cellSize > 0.0
    ensures c as real * cellSize <= v < c as real * cellSize + cellSize
  {
    FloorDiv(v, cellSize);
    (v / cellSize).Floor
  }

  lemma FloorDiv(v: real, c: real)
    requires c > 0.0
    ensures (v / c).Floor as real * c <= v < (v / c).Floor as real * c + c
  {
    var q := v / c;
    var f := q.Floor as real;
    assert f <= q < f + 1.0;
    assert q * c == v;
    assert (q - f) * c >= 0.0;
    assert (q - f) * c == v - f * c;
    MulLess(q, f + 1.0, c);
    assert q * c < (f + 1.0) * c;
    assert (f + 1.0) * c == f * c + c;
    assert v < f * c + c;
    assert f == (v / c).Floor as real;
  }

  lemma MulLess(a: real, b: real, c: real)
    requires a < b && c > 0.0
    ensures a * c < b * c
  {
    assert (b - a) * c > 0.0;
    assert (b - a) * c == b * c - a * c;
  }

  /** `getGridCell`. */
  function GridCell(p: Point, cellSize: real): Cell
    requires cellSize > 0.0
  {
    Cell(CellOf(p.x, cellSize), CellOf(p.y, cellSize))
  }

  /** Cells at most one apart in each coordinate (the 3x3 block around a cell). */
  predicate Adjacent(a: Cell, b: Cell)
  {
    -1 <= a.x - b.x <= 1 && -1 <= a.y - b.y <= 1
  }

  /** Values less than one cell apart fall in the same or neighbouring columns. */
  lemma CellsWithinOne(u: real, v: real, c: real)
    requires c > 0.0 && Abs(u - v) < c
    ensures -1 <= CellOf(u, c) - CellOf(v, c) <= 1
  {
    var a, b := u / c, v / c;
    assert a - b == (u - v) / c;
    QuotientBelowOne(u - v, c);
    QuotientBelowOne(v - u, c);
    assert b - a == (v - u) / c;
    assert CellOf(u, c) == a.Floor && CellOf(v, c) == b.Floor;
  }

  lemma QuotientBelowOne(x: real, c: real)
    requires c > 0.0 && x < c
    ensures x / c < 1.0
  {
    assert x / c * c == x;
  }

  lemma MulLessCancel(a: real, b: real, c: real)
    requires c > 0.0 && a * c < b * c
    ensures a < b
  {
    assert (b - a) * c == b * c - a * c;
  }

  /**
   * The reach of the 3x3 search: a point less than one cell size away from
   * `p` in both coordinates lies in a cell adjacent to `p`'s.
   */
  lemma NearPointsAdjacentCells(a: Point, p: Point, cellSize: real)
    requires cellSize > 0.0 && Abs(a.x - p.x) < cellSize && Abs(a.y - p.y) < cellSize
    ensures Adjacent(GridCell(a, cellSize), GridCell(p, cellSize))
  {
    CellsWithinOne(a.x, p.x, cellSize);
    CellsWithinOne(a.y, p.y, cellSize);
  }

  /** The nine cells `getNearbyCandidates` visits, `dx` in the outer loop and `dy` in the inner one. */
  function NeighbourCells(c: Cell): (r: seq<Cell>)
    ensures |r| == 9
  {
    [Cell(c.x - 1, c.y - 1), Cell(c.x - 1, c.y), Cell(c.x - 1, c.y + 1),
     Cell(c.x, c.y - 1), Cell(c.x, c.y), Cell(c.x, c.y + 1),
     Cell(c.x + 1, c.y - 1), Cell(c.x + 1, c.y), Cell(c.x + 1, c.y + 1)]
  }

  lemma NeighbourCellsAdjacent(a: Cell, c: Cell)
    ensures a in NeighbourCells(c) <==> Adjacent(a, c)
  {
    if Adjacent(a, c) {
      var i := (a.x - c.x + 1) * 3 + (a.y - c.y + 1);
      assert NeighbourCells(c)[i] == a;
    }
  }

  /** The segments registered in a cell (none when the cell has no entry). */
  function CellEntries(grid: map<Cell, seq<nat>>, c: Cell): seq<nat>
  {
    if c in grid then grid[c] else []
  }

  /** The entries of `cells`, concatenated in order. */
  function Gather(grid: map<Cell, seq<nat>>, cells: seq<Cell>): seq<nat>
  {
    if cells == [] then [] else Gather(grid, cells[..|cells| - 1]) + CellEntries(grid, cells[|cells| - 1])
  }

  /** Gathering one more cell appends that cell's entries. */
  lemma GatherStep(grid: map<Cell, seq<nat>>, cells: seq<Cell>, i: nat)
    requires i < |cells|
    ensures Gather(grid, cells[..i + 1]) == Gather(grid, cells[..i]) + CellEntries(grid, cells[i])
  {
    assert cells[..i + 1][..i] == cells[..i];
  }

  /** The neighbour at offset `(dx, dy)` sits at position `3 * (dx + 1) + (dy + 1)`. */
  lemma NeighbourAt(c: Cell, dx: int, dy: int)
    requires -1 <= dx <= 1 && -1 <= dy <= 1
    ensures NeighbourCells(c)[3 * (dx + 1) + (dy + 1)] == Cell(c.x + dx, c.y + dy)
  {
  }

  /** An id is gathered exactly when one of the cells holds it. */
  lemma {:induction false} GatherMembers(grid: map<Cell, seq<nat>>, cells: seq<Cell>, x: nat)
    ensures x in Gather(grid, cells) <==> exists i :: 0 <= i < |cells| && x in CellEntries(grid, cells[i])
  {
    if cells != [] {
      var init, last := cells[..|cells| - 1], cells[|cells| - 1];
      assert Gather(grid, cells) == Gather(grid, init) + CellEntries(grid, last);
      GatherMembers(grid, init, x);
      if x in Gather(grid, cells) {
        if x in Gather(grid, init) {
          var i :| 0 <= i < |init| && x in CellEntries(grid, init[i]);
          assert cells[i] == init[i];
        } else {
          assert x in CellEntries(grid, cells[|cells| - 1]);
        }
      } else {
        forall i | 0 <= i < |cells|
          ensures x !in CellEntries(grid, cells[i])
        {
          if i < |init| {
            assert init[i] == cells[i];
          }
        }
      }
    }
  }

  // --------------------------------------------------------------- offsets

  /** The offset multiplier of the `i`-th smallest of `count` line ids: `i - (count - 1) / 2`. */
  function Offset(i: int, count: int): real
  {
    i as real - (count - 1) as real / 2.0
  }

  /** The offsets `reassignOffsets` has set after `n` turns of its loop over the ascending ids. */
  function RankOffsets(sorted: seq<int>, n: nat): (m: map<int, real>)
    requires n <= |sorted|
  {
    if n == 0 then map[] else RankOffsets(sorted, n - 1)[sorted[n - 1] := Offset(n - 1, |sorted|)]
  }

  /** The offsets of a whole corridor: ids ranked in ascending order. */
  function RankMap(ids: seq<int>): map<int, real>
  {
    RankOffsets(SortBy(ids, IntKey), |ids|)
  }

  lemma {:induction false} RankOffsetsSpec(sorted: seq<int>, n: nat)
    requires n <= |sorted| && Distinct(sorted)
    ensures RankOffsets(sorted, n).Keys == set i | 0 <= i < n :: sorted[i]
    ensures forall i :: 0 <= i < n ==> RankOffsets(sorted, n)[sorted[i]] == Offset(i, |sorted|)
  {
    if n > 0 {
      RankOffsetsSpec(sorted, n - 1);
    }
  }

  /** The ids of a corridor sorted ascending: strictly increasing, and the same ids. */
  lemma SortedIds(ids: seq<int>)
    requires Distinct(ids)
    ensures var s := SortBy(ids, IntKey);
      |s| == |ids| && multiset(s) == multiset(ids) && (set x | x in s) == (set x | x in ids) &&
      (forall i, j :: 0 <= i < j < |s| ==> s[i] < s[j])
  {
    var s := SortBy(ids, IntKey);
    SortByCorrect(ids, IntKey);
    SameMultisetSameSet(s, ids);
    DistinctPermutation(ids, s);
    DistinctSortedIncreasing(s);
  }

  lemma SameMultisetSameSet(a: seq<int>, b: seq<int>)
    requires multiset(a) == multiset(b)
    ensures (set x | x in a) == (set x | x in b)
  {
    forall x
      ensures x in a <==> x in b
    {
      assert x in a <==> x in multiset(a);
      assert x in b <==> x in multiset(b);
    }
  }

  /** A permutation of distinct ids is distinct. */
  lemma DistinctPermutation(ids: seq<int>, s: seq<int>)
    requires Distinct(ids) && multiset(s) == multiset(ids)
    ensures Distinct(s)
  {
    forall i, j | 0 <= i < j < |s|
      ensures s[i] != s[j]
    {
      if s[i] == s[j] {
        RepeatedCount(s, i, j);
        DistinctCount(ids, s[i]);
      }
    }
  }

  lemma RepeatedCount(s: seq<int>, i: nat, j: nat)
    requires i < j < |s| && s[i] == s[j]
    ensures multiset(s)[s[i]] >= 2
  {
    assert s == s[..i] + [s[i]] + s[i + 1..j] + [s[j]] + s[j + 1..];
  }

  lemma {:induction false} DistinctCount(s: seq<int>, x: int)
    requires Distinct(s)
    ensures multiset(s)[x] <= 1
  {
    if s != [] {
      assert s == [s[0]] + s[1..];
      assert Distinct(s[1..]);
      DistinctCount(s[1..], x);
      if x == s[0] {
        assert x !in s[1..];
      }
    }
  }

  /**
   * After `reassignOffsets` the `i`-th smallest of the `n` ids carries offset
   * `i - (n - 1) / 2`, and the map has an entry for every id and no other.
   */
  lemma RankMapSpec(ids: seq<int>)
    requires Distinct(ids)
    ensures RankMap(ids).Keys == (set x | x in ids)
    ensures var s := SortBy(ids, IntKey);
      forall i :: 0 <= i < |s| ==> s[i] in RankMap(ids) && RankMap(ids)[s[i]] == Offset(i, |ids|)
  {
    var s := SortBy(ids, IntKey);
    SortedIds(ids);
    assert Distinct(s);
    RankOffsetsSpec(s, |s|);
    assert (set i | 0 <= i < |s| :: s[i]) == (set x | x in s) by {
      forall x | x in s
        ensures x in (set i | 0 <= i < |s| :: s[i])
      {
        var i :| 0 <= i < |s| && s[i] == x;
      }
    }
  }

  /**
   * The lanes of a corridor: consecutive ids in ascending order are exactly
   * one lane apart, and the lanes are symmetric about the corridor's centre
   * line.
   */
  lemma RankMapLanes(ids: seq<int>)
    requires Distinct(ids)
    ensures var s := SortBy(ids, IntKey); var m := RankMap(ids);
      (forall i :: 0 <= i < |s| ==> s[i] in m) &&
      (forall i :: 0 <= i < |s| - 1 ==> m[s[i + 1]] - m[s[i]] == 1.0) &&
      (forall i :: 0 <= i < |s| ==> m[s[i]] == -m[s[|s| - 1 - i]])
  {
    RankMapSpec(ids);
  }

  /** The offsets of a corridor add up to zero: the lanes are centred on the corridor. */
  lemma OffsetsSumToZero(n: nat)
    ensures OffsetTotal(n, n) == 0.0
  {
    TriangleSum(n);
  }

  /** `Offset(0, count) + ... + Offset(k - 1, count)`. */
  function OffsetTotal(k: nat, count: int): real
  {
    if k == 0 then 0.0 else OffsetTotal(k - 1, count) + Offset(k - 1, count)
  }

  lemma {:induction false} TriangleSum(k: nat)
    ensures OffsetTotal(k, k) == 0.0
  {
    PartialTotal(k, k);
  }

  lemma {:induction false} PartialTotal(k: nat, count: int)
    ensures 2.0 * OffsetTotal(k, count) == (k as real) * (k as real - count as real)
  {
    if k > 0 {
      PartialTotal(k - 1, count);
    }
  }

  /** The sum of the offsets of a whole corridor map, taken in ascending id order. */
  lemma CorridorOffsetsSumToZero(ids: seq<int>)
    requires Distinct(ids)
    ensures var s := SortBy(ids, IntKey); forall i :: 0 <= i < |s| ==> s[i] in RankMap(ids)
    ensures var s := SortBy(ids, IntKey); SumAt(RankMap(ids), s, |s|) == 0.0
  {
    var s := SortBy(ids, IntKey);
    RankMapSpec(ids);
    SumAtOffsets(RankMap(ids), s, |s|);
    OffsetsSumToZero(|s|);
  }

  /** `m[s[0]] + ... + m[s[k - 1]]`. */
  function SumAt(m: map<int, real>, s: seq<int>, k: nat): real
    requires k <= |s| && forall i :: 0 <= i < |s| ==> s[i] in m
  {
    if k == 0 then 0.0 else SumAt(m, s, k - 1) + m[s[k - 1]]
  }

  lemma {:induction false} SumAtOffsets(m: map<int, real>, s: seq<int>, k: nat)
    requires k <= |s| && forall i :: 0 <= i < |s| ==> s[i] in m && m[s[i]] == Offset(i, |s|)
    ensures SumAt(m, s, k) == OffsetTotal(k, |s|)
  {
    if k > 0 {
      SumAtOffsets(m, s, k - 1);
    }
  }

  // --------------------------------------------------------- corridor test

  /**
   * The direction test of `detectCorridorSharing`: the segment's direction,
   * or its reverse, is the new direction or its reverse.
   */
  predicate ParallelTest(segDirection: int, direction: int)
    requires IsDirection(segDirection) && IsDirection(direction)
  {
    SameAxis(direction, segDirection) || SameAxis(direction, (segDirection + 4) % 8)
  }

  /** The second half of the test adds nothing: both say the two directions share an axis. */
  lemma ParallelTestAxis(segDirection: int, direction: int)
    requires IsDirection(segDirection) && IsDirection(direction)
    ensures ParallelTest(segDirection, direction) <==> SameAxis(direction, segDirection)
    ensures ParallelTest(segDirection, direction) <==> segDirection % 4 == direction % 4
  {
  }

  /** The line `lineId` joins segment `seg` when the segment starts in a neighbouring cell, does not carry the line yet, is parallel, and its midpoint is closer than `0.8 * segmentLength`. */
  predicate Joins(seg: CorridorSegment, lineId: int, start: Point, end: Point, direction: int, segmentLength: real)
    requires segmentLength > 0.0
  {
    Adjacent(GridCell(seg.startPoint, segmentLength), GridCell(start, segmentLength)) &&
    lineId !in seg.lineIds &&
    IsDirection(seg.direction) && IsDirection(direction) && ParallelTest(seg.direction, direction) &&
    DistSq(Midpoint(start, end), Midpoint(seg.startPoint, seg.endPoint)) < (segmentLength * 0.8) * (segmentLength * 0.8)
  }

  /** The segment after `lineId` has been added to it and the offsets reassigned. */
  function Join(seg: CorridorSegment, lineId: int): CorridorSegment
  {
    seg.(lineIds := seg.lineIds + [lineId], assignedOffsets := RankMap(seg.lineIds + [lineId]))
  }

  /** A well-formed segment: a direction, at least one line, and the ranked offsets of its lines. */
  ghost predicate SegmentOk(seg: CorridorSegment)
  {
    IsDirection(seg.direction) && |seg.lineIds| > 0 && Distinct(seg.lineIds) &&
    seg.assignedOffsets == RankMap(seg.lineIds)
  }

  /** Merging the old offsets under the re-ranked ones leaves only the re-ranked ones. */
  lemma JoinOffsets(seg: CorridorSegment, lineId: int)
    requires SegmentOk(seg) && lineId !in seg.lineIds
    ensures SegmentOk(Join(seg, lineId))
    ensures seg.assignedOffsets + RankMap(seg.lineIds + [lineId]) == Join(seg, lineId).assignedOffsets
  {
    var ids := seg.lineIds + [lineId];
    assert Distinct(ids);
    RankMapSpec(seg.lineIds);
    RankMapSpec(ids);
    var m := seg.assignedOffsets + RankMap(ids);
    assert m.Keys == RankMap(ids).Keys;
    assert m == RankMap(ids);
  }

  /** A fresh segment of one line has that line at offset 0. */
  lemma NewSegmentOk(start: Point, end: Point, direction: int, lineId: int)
    requires IsDirection(direction)
    ensures SegmentOk(CorridorSegment(start, end, direction, [lineId], map[lineId := 0.0]))
  {
    assert [lineId][1..] == [];
    assert SortBy([lineId], IntKey) == Insert(lineId, [], IntKey) == [lineId];
    assert RankOffsets([lineId], 1) == map[lineId := 0.0];
  }

  /** Once a segment carries the line, the line does not join it again. */
  lemma JoinedRejects(seg: CorridorSegment, lineId: int, start: Point, end: Point, direction: int, segmentLength: real)
    requires segmentLength > 0.0
    ensures !Joins(Join(seg, lineId), lineId, start, end, direction, segmentLength)
  {
    assert Join(seg, lineId).lineIds[|seg.lineIds|] == lineId;
  }

  /** The segments and the line's segment indices, as the sharing pass leaves them. */
  datatype Shared = Shared(segs: seq<CorridorSegment>, indices: seq<nat>)

  /**
   * One candidate of the sharing pass: a segment the line joins gains the
   * line, and its index is recorded unless it already is.
   */
  function ShareStep(segs: seq<CorridorSegment>, indices: seq<nat>, segId: nat,
                     lineId: int, start: Point, end: Point, direction: int, segmentLength: real): (r: Shared)
    requires segId < |segs| && segmentLength > 0.0
    ensures |r.segs| == |segs|
  {
    if Joins(segs[segId], lineId, start, end, direction, segmentLength) then
      Shared(segs[segId := Join(segs[segId], lineId)], if segId in indices then indices else indices + [segId])
    else
      Shared(segs, indices)
  }

  /** The sharing pass over the candidates `ids`, in order. */
  function ShareAll(segs: seq<CorridorSegment>, indices: seq<nat>, ids: seq<nat>,
                    lineId: int, start: Point, end: Point, direction: int, segmentLength: real): (r: Shared)
    requires segmentLength > 0.0
    requires forall i :: 0 <= i < |ids| ==> ids[i] < |segs|
    ensures |r.segs| == |segs|
    decreases |ids|
  {
    if ids == [] then Shared(segs, indices)
    else
      var p := ShareAll(segs, indices, ids[..|ids| - 1], lineId, start, end, direction, segmentLength);
      ShareStep(p.segs, p.indices, ids[|ids| - 1], lineId, start, end, direction, segmentLength)
  }

  /**
   * Whatever the order and repetition of the candidates, the pass joins
   * exactly the candidates the line joins, each once; the line's indices keep
   * their old prefix, gain exactly the joined segments, and stay free of
   * repeats.
   */
  lemma {:induction false} ShareAllSpec(segs: seq<CorridorSegment>, indices: seq<nat>, ids: seq<nat>,
                                       lineId: int, start: Point, end: Point, direction: int, segmentLength: real)
    requires segmentLength > 0.0
    requires forall i :: 0 <= i < |ids| ==> ids[i] < |segs|
    ensures var r := ShareAll(segs, indices, ids, lineId, start, end, direction, segmentLength);
      (forall k :: 0 <= k < |segs| ==>
        r.segs[k] == if k in ids && Joins(segs[k], lineId, start, end, direction, segmentLength)
          then Join(segs[k], lineId) else segs[k]) &&
      |r.indices| >= |indices| && r.indices[..|indices|] == indices &&
      (forall k :: k in r.indices ==> (k in indices ||
        (k in ids && k < |segs| && Joins(segs[k], lineId, start, end, direction, segmentLength)))) &&
      (forall k :: k in ids && k < |segs| && Joins(segs[k], lineId, start, end, direction, segmentLength) ==>
        k in r.indices) &&
      (Distinct(indices) ==> Distinct(r.indices))
    decreases |ids|
  {
    if ids != [] {
      var front := ids[..|ids| - 1];
      var last := ids[|ids| - 1];
      ShareAllSpec(segs, indices, front, lineId, start, end, direction, segmentLength);
      var p := ShareAll(segs, indices, front, lineId, start, end, direction, segmentLength);
      assert ids == front + [last];
      if last in front && Joins(segs[last], lineId, start, end, direction, segmentLength) {
        JoinedRejects(segs[last], lineId, start, end, direction, segmentLength);
      }
      var r := ShareStep(p.segs, p.indices, last, lineId, start, end, direction, segmentLength);
      assert r.indices[..|p.indices|] == p.indices;
      assert r.indices[..|indices|] == p.indices[..|indices|];
    }
  }

  class CorridorRegistry {
    /** `config.segmentLength`: the cell size of the grid and the scale of the closeness threshold. */
    const segmentLength: real
    /** `corridorSegments`. */
    var segments: seq<CorridorSegment>
    /** `segmentGrid`: for each cell, the indices of the segments starting in it. */
    var grid: map<Cell, seq<nat>>

    /**
     * Every segment is well formed and registered in the cell of its start
     * point, and every grid entry names a segment that starts in that cell.
     */
    ghost predicate Valid()
      reads this
    {
      segmentLength > 0.0 &&
      (forall k :: 0 <= k < |segments| ==> SegmentOk(segments[k])) &&
      (forall c, j :: c in grid && 0 <= j < |grid[c]| ==>
        grid[c][j] < |segments| && GridCell(segments[grid[c][j]].startPoint, segmentLength) == c) &&
      (forall k :: 0 <= k < |segments| ==> k in CellEntries(grid, GridCell(segments[k].startPoint, segmentLength)))
    }

    /** The empty registry (`corridorSegments = []`, `segmentGrid = new Map()`). */
    constructor (segmentLength: real)
      requires segmentLength > 0.0
      ensures Valid() && this.segmentLength == segmentLength
      ensures segments == [] && grid == map[]
    {
      this.segmentLength := segmentLength;
      segments := [];
      grid := map[];
    }

    /** `addToGrid`: append the index to the cell of `p`, creating the cell's list if needed. */
    method AddToGrid(index: nat, p: Point)
      requires segmentLength > 0.0
      modifies this
      ensures segments == old(segments)
      ensures grid == old(grid)[GridCell(p, segmentLength) := CellEntries(old(grid), GridCell(p, segmentLength)) + [index]]
    {
      var cell := GridCell(p, segmentLength);
      if cell !in grid {
        grid := grid[cell := []];
      }
      grid := grid[cell := grid[cell] + [index]];
    }

    /** `getNearbyCandidates`: the entries of the 3x3 block of cells around `p`'s cell. */
    method GetNearbyCandidates(p: Point) returns (candidates: seq<nat>)
      requires segmentLength > 0.0
      ensures candidates == Gather(grid, NeighbourCells(GridCell(p, segmentLength)))
    {
      var c := GridCell(p, segmentLength);
      ghost var cells := NeighbourCells(c);
      candidates := [];
      var dx := -1;
      while dx <= 1
        invariant -1 <= dx <= 2
        invariant candidates == Gather(grid, cells[..3 * (dx + 1)])
      {
        var dy := -1;
        while dy <= 1
          invariant -1 <= dy <= 2
          invariant candidates == Gather(grid, cells[..3 * (dx + 1) + (dy + 1)])
        {
          var cell := Cell(c.x + dx, c.y + dy);
          NeighbourAt(c, dx, dy);
          GatherStep(grid, cells, 3 * (dx + 1) + (dy + 1));
          candidates := candidates + CellEntries(grid, cell);
          dy := dy + 1;
        }
        assert 3 * (dx + 1) + (dy + 1) == 3 * (dx + 2);
        dx := dx + 1;
      }
      assert cells[..9] == cells;
    }

    /** Under `Valid`, the candidates around `p` are exactly the segments starting in a cell adjacent to `p`'s. */
    lemma NearbyExactly(p: Point, k: nat)
      requires Valid()
      ensures k in Gather(grid, NeighbourCells(GridCell(p, segmentLength))) <==>
        k < |segments| && Adjacent(GridCell(segments[k].startPoint, segmentLength), GridCell(p, segmentLength))
    {
      var cells := NeighbourCells(GridCell(p, segmentLength));
      GatherMembers(grid, cells, k);
      if k in Gather(grid, cells) {
        var i :| 0 <= i < |cells| && k in CellEntries(grid, cells[i]);
        var j :| 0 <= j < |CellEntries(grid, cells[i])| && CellEntries(grid, cells[i])[j] == k;
        NeighbourCellsAdjacent(cells[i], GridCell(p, segmentLength));
      }
      if k < |segments| && Adjacent(GridCell(segments[k].startPoint, segmentLength), GridCell(p, segmentLength)) {
        var sc := GridCell(segments[k].startPoint, segmentLength);
        NeighbourCellsAdjacent(sc, GridCell(p, segmentLength));
        var i :| 0 <= i < |cells| && cells[i] == sc;
        assert k in CellEntries(grid, cells[i]);
      }
    }

    /**
     * `reassignOffsets`: rank the segment's line ids in ascending order and
     * give the `i`-th of `n` the offset `i - (n - 1) / 2`, over whatever the
     * offset map held before (`RankMapSpec` spells the result out).
     */
    method ReassignOffsets(k: nat)
      requires k < |segments|
      modifies this
      ensures grid == old(grid)
      ensures segments == old(segments)[k := old(segments)[k].(assignedOffsets :=
        old(segments)[k].assignedOffsets + RankMap(old(segments)[k].lineIds))]
    {
      var seg := segments[k];
      var lineIds := SortBy(seg.lineIds, IntKey);
      var count := |lineIds|;
      var offsets := seg.assignedOffsets;
      var i := 0;
      while i < count
        invariant 0 <= i <= count
        invariant offsets == seg.assignedOffsets + RankOffsets(lineIds, i)
      {
        offsets := offsets[lineIds[i] := Offset(i, count)];
        i := i + 1;
      }
      segments := segments[k := seg.(assignedOffsets := offsets)];
    }

    /**
     * One turn of the loop of `detectCorridorSharing` over the nearby
     * segments: skip a segment that already carries the line or is not
     * parallel; otherwise, when the midpoints are closer than
     * `0.8 * segmentLength`, add the line, reassign the offsets and record
     * the segment in the line's `corridorSegmentIndices` unless it is there.
     */
    method ShareSegment(segId: nat, lineId: int, start: Point, end: Point, direction: int, indices: seq<nat>)
      returns (newIndices: seq<nat>)
      requires Valid() && segId < |segments| && IsDirection(direction)
      requires Adjacent(GridCell(segments[segId].startPoint, segmentLength), GridCell(start, segmentLength))
      modifies this
      ensures Valid() && grid == old(grid) && |segments| == |old(segments)|
      ensures Shared(segments, newIndices) == ShareStep(old(segments), indices, segId, lineId, start, end, direction, segmentLength)
    {
      newIndices := indices;
      var seg := segments[segId];
      if lineId in seg.lineIds || !ParallelTest(seg.direction, direction) {
        return;
      }
      if DistSq(Midpoint(start, end), Midpoint(seg.startPoint, seg.endPoint)) < (segmentLength * 0.8) * (segmentLength * 0.8) {
        JoinSegment(segId, lineId);
        if segId !in newIndices {
          newIndices := newIndices + [segId];
        }
      }
    }

    /** Line `lineId` joins segment `segId`: it is added to the segment's lines and the offsets are reassigned. */
    method JoinSegment(segId: nat, lineId: int)
      requires Valid() && segId < |segments| && lineId !in segments[segId].lineIds
      modifies this
      ensures Valid() && grid == old(grid)
      ensures segments == old(segments)[segId := Join(old(segments)[segId], lineId)]
    {
      var seg := segments[segId];
      JoinOffsets(seg, lineId);
      segments := segments[segId := seg.(lineIds := seg.lineIds + [lineId])];
      ReassignOffsets(segId);
    }

    /** The loop of `detectCorridorSharing` over the candidates of the neighbouring cells, in order. */
    method ShareEach(nearby: seq<nat>, lineId: int, start: Point, end: Point, direction: int, lineSegments: seq<nat>)
      returns (newLineSegments: seq<nat>)
      requires Valid() && IsDirection(direction)
      requires nearby == Gather(grid, NeighbourCells(GridCell(start, segmentLength)))
      requires forall i :: 0 <= i < |nearby| ==> nearby[i] < |segments|
      modifies this
      ensures Valid() && grid == old(grid) && |segments| == |old(segments)|
      ensures Shared(segments, newLineSegments) ==
        ShareAll(old(segments), lineSegments, nearby, lineId, start, end, direction, segmentLength)
    {
      ghost var segs0 := segments;
      newLineSegments := lineSegments;
      var j := 0;
      while j < |nearby|
        invariant 0 <= j <= |nearby|
        invariant Valid() && grid == old(grid) && |segments| == |segs0|
        invariant Shared(segments, newLineSegments) ==
          ShareAll(segs0, lineSegments, nearby[..j], lineId, start, end, direction, segmentLength)
      {
        var segId := nearby[j];
        NearbyExactly(start, segId);
        newLineSegments := ShareSegment(segId, lineId, start, end, direction, newLineSegments);
        assert nearby[..j + 1][..j] == nearby[..j];
        j := j + 1;
      }
      assert nearby[..j] == nearby;
    }

    /** The loop of `detectCorridorSharing` over the candidates near `start`. */
    method ShareNearby(lineId: int, lineSegments: seq<nat>, start: Point, end: Point, direction: int)
      returns (newLineSegments: seq<nat>)
      requires Valid() && IsDirection(direction)
      requires forall i :: 0 <= i < |lineSegments| ==> lineSegments[i] < |segments|
      modifies this
      ensures Valid() && grid == old(grid) && |segments| == |old(segments)|
      ensures forall k :: 0 <= k < |segments| ==>
        segments[k] == if Joins(old(segments)[k], lineId, start, end, direction, segmentLength)
          then Join(old(segments)[k], lineId) else old(segments)[k]
      ensures |newLineSegments| >= |lineSegments| && newLineSegments[..|lineSegments|] == lineSegments
      ensures forall k :: 0 <= k < |segments| && Joins(old(segments)[k], lineId, start, end, direction, segmentLength) ==>
        k in newLineSegments
      ensures forall k :: k in newLineSegments ==> (k in lineSegments ||
        (k < |segments| && Joins(old(segments)[k], lineId, start, end, direction, segmentLength)))
      ensures Distinct(lineSegments) ==> Distinct(newLineSegments)
    {
      var nearby := GetNearbyCandidates(start);
      ghost var segs0 := segments;
      // every grid entry names a segment, so `corridorSegments[segId]` exists
      forall i | 0 <= i < |nearby|
        ensures nearby[i] < |segs0|
      {
        NearbyExactly(start, nearby[i]);
      }
      newLineSegments := ShareEach(nearby, lineId, start, end, direction, lineSegments);
      ShareAllSpec(segs0, lineSegments, nearby, lineId, start, end, direction, segmentLength);
      forall k | 0 <= k < |segs0| && Joins(segs0[k], lineId, start, end, direction, segmentLength)
        ensures k in nearby
      {
        NearbyExactly(start, k);
      }
    }

    /**
     * `detectCorridorSharing` for a segment from `start` to `end` in
     * `direction` just completed by line `lineId`, whose
     * `corridorSegmentIndices` are `lineSegments`: the line joins every
     * nearby segment that `Joins` accepts, then registers a segment of its
     * own (offset 0) in the grid cell of `start`.
     */
    method DetectCorridorSharing(lineId: int, lineSegments: seq<nat>, start: Point, end: Point, direction: int)
      returns (newLineSegments: seq<nat>)
      requires Valid() && IsDirection(direction)
      requires forall i :: 0 <= i < |lineSegments| ==> lineSegments[i] < |segments|
      modifies this
      ensures Valid()
      ensures |segments| == |old(segments)| + 1
      ensures segments[|old(segments)|] == CorridorSegment(start, end, direction, [lineId], map[lineId := 0.0])
      ensures forall k :: 0 <= k < |old(segments)| ==>
        segments[k] == if Joins(old(segments)[k], lineId, start, end, direction, segmentLength)
          then Join(old(segments)[k], lineId) else old(segments)[k]
      ensures var cell := GridCell(start, segmentLength);
        grid == old(grid)[cell := CellEntries(old(grid), cell) + [|old(segments)|]]
      ensures |newLineSegments| > |lineSegments| && newLineSegments[..|lineSegments|] == lineSegments
      ensures newLineSegments[|newLineSegments| - 1] == |old(segments)|
      ensures forall k :: 0 <= k < |old(segments)| && Joins(old(segments)[k], lineId, start, end, direction, segmentLength) ==>
        k in newLineSegments
      ensures forall k :: k in newLineSegments ==> (k in lineSegments || k == |old(segments)| ||
        (k < |old(segments)| && Joins(old(segments)[k], lineId, start, end, direction, segmentLength)))
      ensures Distinct(lineSegments) ==> Distinct(newLineSegments)
    {
      newLineSegments := ShareNearby(lineId, lineSegments, start, end, direction);
      var newSeg := CorridorSegment(start, end, direction, [lineId], map[lineId := 0.0]);
      NewSegmentOk(start, end, direction, lineId);
      ghost var n := |old(segments)|;
      assert n !in newLineSegments;
      var newIndex := Register(newSeg);
      newLineSegments := newLineSegments + [newIndex];
    }

    /** Append a segment and file it in the grid cell of its start point. */
    method Register(seg: CorridorSegment) returns (index: nat)
      requires Valid() && SegmentOk(seg)
      modifies this
      ensures Valid()
      ensures index == |old(segments)| && segments == old(segments) + [seg]
      ensures var cell := GridCell(seg.startPoint, segmentLength);
        grid == old(grid)[cell := CellEntries(old(grid), cell) + [index]]
    {
      segments := segments + [seg];
      index := |segments| - 1;
      var cell := GridCell(seg.startPoint, segmentLength);
      AddToGrid(index, seg.startPoint);
      forall c, j | c in grid && 0 <= j < |grid[c]|
        ensures grid[c][j] < |segments| && GridCell(segments[grid[c][j]].startPoint, segmentLength) == c
      {
        if c != cell || j < |CellEntries(old(grid), cell)| {
          assert grid[c][j] == old(grid)[c][j];
        }
      }
      forall k | 0 <= k < |segments|
        ensures k in CellEntries(grid, GridCell(segments[k].startPoint, segmentLength))
      {
        if k < index {
          var ck := GridCell(segments[k].startPoint, segmentLength);
          assert k in CellEntries(old(grid), ck);
        }
      }
    }
  }
}
