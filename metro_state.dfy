/**
 * The state of the metro map and the pure rules its growth step applies:
 * stations, lines, click waves and the two viewport configurations; the
 * eased growth speed; the filters that keep a new segment from running
 * parallel to, or crossing, the lines already drawn; and the invariants the
 * simulation keeps over lines, stations and trains.
 *
 * Stations are referred to by their index in the map's station list, so a
 * station shared between a line and the list (the same object in the source)
 * is one index; lines are referred to by their index in the map's line list.
 */
module MetroState {
  import opened Wrappers
  import opened MetroDirections
  import opened MetroGeometry
  import opened Color
  import opened MetroTrains
  import MetroCatalog

  /** `MapConfig`: the viewport-dependent constants. */
  datatype Config = Config(
    lineSpeed: real,
    segmentLength: real,
    maxLines: nat,
    stationRadius: real,
    lineWidth: real,
    minBranchDistance: real,
    minStationDistance: real,
    maxLineLength: real,
    padding: real,
    initialLines: nat,
    nearbyStationDistance: real,
    trainWidth: real,
    trainHeight: real,
    stationStopThreshold: real,
    hoverHitRadius: real)

  const DESKTOP_CONFIG: Config := Config(0.63, 60.0, 10, 9.0, 5.0, 120.0, 50.0, 700.0, 60.0, 3, 80.0, 24.0, 10.0, 15.0, 17.0)
  const MOBILE_CONFIG: Config := Config(0.54, 35.0, 8, 6.0, 3.0, 60.0, 30.0, 250.0, 20.0, 3, 50.0, 16.0, 7.0, 10.0, 14.0)

  /** What the simulation relies on: a positive speed, segment length, station spacing and length cap. */
  predicate ConfigOk(c: Config)
  {
    c.lineSpeed > 0.0 && c.segmentLength > 0.0 && c.minStationDistance > 0.0 && c.maxLineLength > 0.0
  }

  lemma ConfigsOk()
    ensures ConfigOk(DESKTOP_CONFIG) && ConfigOk(MOBILE_CONFIG)
    ensures DESKTOP_CONFIG.hoverHitRadius == DESKTOP_CONFIG.stationRadius + 8.0
    ensures MOBILE_CONFIG.hoverHitRadius == MOBILE_CONFIG.stationRadius + 8.0
  {
  }

  const BRANCH_PROBABILITY: real := 0.2
  const STATION_GROW_SPEED: real := 0.08
  const COLOR_LERP_SPEED: real := 0.03
  const COLOR_SHIFT_LERP_SPEED: real := 0.08
  /** How much `targetColorShiftIntensity` decays per frame. */
  const COLOR_SHIFT_DECAY: real := 0.003
  const WAVE_SPEED: real := 200.0
  const WAVE_DURATION: real := 2000.0
  const PARALLEL_AVOIDANCE_DISTANCE: real := 80.0
  /** `checkTrainSpawning` runs at most this often (ms). */
  const SPAWN_CHECK_INTERVAL: real := 500.0
  /** How much `globalOpacity` rises per frame while fading in. */
  const FADE_IN_SPEED: real := 0.015
  /** The two chances of a station at the end of a segment, far from and near the last one. */
  const STATION_CHANCE_FAR: real := 0.4
  const STATION_CHANCE_NEAR: real := 0.15
  /** Segment end points closer than this in both coordinates count as a shared junction. */
  const JUNCTION_TOLERANCE: real := 5.0
  /** The directions of the initial lines: east, north, west, south. */
  const START_DIRECTIONS: seq<int> := [0, 2, 4, 6]

  const DARK_MODE_COLORS: seq<string> := ["#e88a7d", "#7cb5db", "#85c794", "#e5b56a", "#b89fd6", "#6bc4ba", "#e89f7a", "#d69eb5"]
  const LIGHT_MODE_COLORS: seq<string> := ["#c75a55", "#4a7da8", "#4d8a5c", "#b8862e", "#7a5a9e", "#3a918a", "#c06d45", "#a8567a"]
  /** `DEFAULT_COLORS`, the dark palette whatever the theme. */
  const DEFAULT_COLORS: seq<string> := DARK_MODE_COLORS

  /** A station: position, junction flag, grow-in scale and creation time (the hover and pulse fields are not modelled). */
  datatype Station = Station(pos: Point, isJunction: bool, scale: real, createdAt: real)

  datatype MetroLine = MetroLine(
    id: nat,
    name: string,
    location: string,
    wiki: string,
    baseColor: string,
    currentColor: RGB,
    targetColor: RGB,
    points: seq<Point>,
    currentDirection: int,
    growing: bool,
    progress: real,
    totalLength: real,
    lastBranchDistance: real,
    lastStationDistance: real,
    stations: seq<nat>,
    createdAt: real,
    growthDelay: real,
    growthDuration: real,
    corridorSegmentIndices: seq<nat>)

  /**
   * `createLineFromHub` and `createBranchLine`: a growing line with id `id`
   * named after the planned transit line and coloured with the planned
   * colour of its slot (`id` modulo the plan's length), starting and ending
   * at `start`.
   */
  function FreshLine(id: nat, info: MetroCatalog.TransitLine, color: string, start: Point, direction: int,
                     now: real, growthDelay: real, growthDuration: real): (l: MetroLine)
  {
    var rgb := ParseColor(color);
    MetroLine(id, info.name, info.location, info.wiki, color, rgb, rgb, [start, start], direction, true,
              0.0, 0.0, 0.0, 0.0, [], now, growthDelay, growthDuration, [])
  }

  /** A fresh line starting inside the bounds (or at the hub) is a valid line for slot `id`. */
  lemma FreshLineOk(id: nat, info: MetroCatalog.TransitLine, color: string, start: Point, direction: int,
                    now: real, growthDelay: real, growthDuration: real, stationCount: nat, bounds: Bounds, hub: Point)
    requires IsDirection(direction) && growthDuration > 0.0 && (InBounds(start, bounds) || start == hub)
    ensures var l := FreshLine(id, info, color, start, direction, now, growthDelay, growthDuration);
      LineOk(l, id, stationCount, bounds, hub) && l.growing && l.stations == [] && l.points == [start, start] &&
      l.currentColor == l.targetColor == ParseColor(l.baseColor)
  {
  }

  datatype ClickWave = ClickWave(origin: Point, startTime: real, radius: real)

  /** The `Math.random()` draws one call of `updateLine` may consume, each in [0, 1). */
  datatype GrowthDraws = GrowthDraws(direction: real, branch: real, station: real, branchDelay: real, branchDuration: real)

  predicate Draw(r: real)
  {
    0.0 <= r < 1.0
  }

  predicate GrowthDrawsOk(d: GrowthDraws)
  {
    Draw(d.direction) && Draw(d.branch) && Draw(d.station) && Draw(d.branchDelay) && Draw(d.branchDuration)
  }

  // ---------------------------------------------------------------------
  // Growth speed

  /** `growthProgress`: the share of the growth duration elapsed since the delay ended, capped at 1. */
  function GrowthProgress(elapsed: real, growthDelay: real, growthDuration: real): real
    requires growthDuration > 0.0
  {
    Min(1.0, (elapsed - growthDelay) / growthDuration)
  }

  /** `lineSpeed * max(0.3, 3 (1 - p)^2)`: the derivative of ease-out-cubic, floored at 0.3. */
  function EffectiveSpeed(lineSpeed: real, growthProgress: real): real
  {
    lineSpeed * Max(0.3, 3.0 * ((1.0 - growthProgress) * (1.0 - growthProgress)))
  }

  /**
   * Once the delay is over the line grows by between 0.3 and 3 times
   * `lineSpeed` per frame, fastest at the start.
   */
  lemma EffectiveSpeedBounds(lineSpeed: real, elapsed: real, growthDelay: real, growthDuration: real)
    requires lineSpeed > 0.0 && growthDuration > 0.0 && elapsed >= growthDelay
    ensures var s := EffectiveSpeed(lineSpeed, GrowthProgress(elapsed, growthDelay, growthDuration));
      0.3 * lineSpeed <= s <= 3.0 * lineSpeed
    ensures elapsed == growthDelay ==> EffectiveSpeed(lineSpeed, GrowthProgress(elapsed, growthDelay, growthDuration)) == 3.0 * lineSpeed
    ensures elapsed >= growthDelay + growthDuration ==>
      EffectiveSpeed(lineSpeed, GrowthProgress(elapsed, growthDelay, growthDuration)) == 0.3 * lineSpeed
  {
    var p := GrowthProgress(elapsed, growthDelay, growthDuration);
    assert (elapsed - growthDelay) / growthDuration >= 0.0;
    assert 0.0 <= p <= 1.0;
    var q := 1.0 - p;
    assert 0.0 <= q <= 1.0;
    assert q * q <= q * 1.0;
    var m := Max(0.3, 3.0 * (q * q));
    assert 0.3 <= m <= 3.0;
    assert lineSpeed * m <= lineSpeed * 3.0;
    assert lineSpeed * m >= lineSpeed * 0.3;
    if elapsed >= growthDelay + growthDuration {
      assert (elapsed - growthDelay) / growthDuration >= 1.0;
    }
  }

  // ---------------------------------------------------------------------
  // Direction filters
  /** Segment `j` of line `o` is near `position` and, as `getSegmentDirection` classifies it, runs along the axis of `dir`, on a line other than `k`. */
  predicate ParallelAt(lines: seq<MetroLine>, k: nat, position: Point, dir: int, o: nat, j: nat)
    requires k < |lines| && o < |lines| && j + 1 < |lines[o].points|
  {
    var a := lines[o].points[j];
    var b := lines[o].points[j + 1];
    lines[o].id != lines[k].id &&
    DistSq(position, Midpoint(a, b)) <= PARALLEL_AVOIDANCE_DISTANCE * PARALLEL_AVOIDANCE_DISTANCE &&
    SameAxis(dir, SegmentDirectionAsWritten(a, b))
  }

  /**
   * A nearby segment drawn along `e` counts as parallel to `dir` exactly when
   * `dir` shares an axis with the mirror direction `(8 - e) % 8`, the
   * classification `getSegmentDirection` gives it.
   */
  lemma ParallelAtStep(lines: seq<MetroLine>, k: nat, position: Point, dir: int, o: nat, j: nat, e: int, c: real)
    requires k < |lines| && o < |lines| && j + 1 < |lines[o].points| && lines[o].id != lines[k].id
    requires IsDirection(e) && c > 0.0 && lines[o].points[j + 1] == Advance(lines[o].points[j], e, c)
    requires DistSq(position, Midpoint(lines[o].points[j], lines[o].points[j + 1])) <=
      PARALLEL_AVOIDANCE_DISTANCE * PARALLEL_AVOIDANCE_DISTANCE
    ensures ParallelAt(lines, k, position, dir, o, j) <==> SameAxis(dir, (8 - e) % 8)
  {
    SegmentDirectionAsWrittenOfStep(lines[o].points[j], e, c);
  }

  /** `isDirectionParallelToNearbyLines`. */
  predicate ParallelNearby(lines: seq<MetroLine>, k: nat, position: Point, dir: int)
    requires k < |lines|
  {
    exists o, j :: 0 <= o < |lines| && 0 <= j && j + 1 < |lines[o].points| && ParallelAt(lines, k, position, dir, o, j)
  }

  /** Two points within `JUNCTION_TOLERANCE` of each other in both coordinates. */
  predicate NearJunction(p: Point, q: Point)
  {
    Abs(p.x - q.x) < JUNCTION_TOLERANCE && Abs(p.y - q.y) < JUNCTION_TOLERANCE
  }

  /**
   * A segment of `segmentLength` from `start` along `dir` crosses segment `j`
   * of line `o`: the segment's midpoint is within two segment lengths, it
   * has no end at the junction `start`, and the two cross strictly.
   */
  predicate CrossAt(lines: seq<MetroLine>, start: Point, dir: int, segmentLength: real, o: nat, j: nat)
    requires IsDirection(dir) && o < |lines| && j + 1 < |lines[o].points|
  {
    var a := lines[o].points[j];
    var b := lines[o].points[j + 1];
    DistSq(start, Midpoint(a, b)) <= (segmentLength * 2.0) * (segmentLength * 2.0) &&
    !(NearJunction(a, start) || NearJunction(b, start)) &&
    SegmentsIntersect(start, Advance(start, dir, segmentLength), a, b)
  }

  /** `wouldCrossExistingLine`: every line counts, the growing one included. */
  predicate CrossesExisting(lines: seq<MetroLine>, start: Point, dir: int, segmentLength: real)
    requires IsDirection(dir)
  {
    exists o, j :: 0 <= o < |lines| && 0 <= j && j + 1 < |lines[o].points| && CrossAt(lines, start, dir, segmentLength, o, j)
  }

  predicate AllDirections(dirs: seq<int>)
  {
    forall i :: 0 <= i < |dirs| ==> IsDirection(dirs[i])
  }

  /** `dirs.filter(dir => !isDirectionParallelToNearbyLines(...))`, order kept. */
  function NonParallel(lines: seq<MetroLine>, k: nat, position: Point, dirs: seq<int>): (r: seq<int>)
    requires k < |lines|
    ensures |r| <= |dirs|
    ensures forall d :: d in r <==> d in dirs && !ParallelNearby(lines, k, position, d)
    ensures AllDirections(dirs) ==> AllDirections(r)
  {
    if dirs == [] then []
    else
      var last := dirs[|dirs| - 1];
      NonParallel(lines, k, position, dirs[..|dirs| - 1]) + (if ParallelNearby(lines, k, position, last) then [] else [last])
  }

  /** `dirs.filter(dir => !wouldCrossExistingLine(...))`, order kept. */
  function NonCrossing(lines: seq<MetroLine>, position: Point, dirs: seq<int>, segmentLength: real): (r: seq<int>)
    requires AllDirections(dirs)
    ensures |r| <= |dirs|
    ensures forall d :: d in r <==> d in dirs && IsDirection(d) && !CrossesExisting(lines, position, d, segmentLength)
  {
    if dirs == [] then []
    else
      var last := dirs[|dirs| - 1];
      NonCrossing(lines, position, dirs[..|dirs| - 1], segmentLength) +
        (if CrossesExisting(lines, position, last, segmentLength) then [] else [last])
  }

  /** Filtering one more direction appends it unless it runs parallel to a nearby line. */
  lemma NonParallelStep(lines: seq<MetroLine>, k: nat, position: Point, dirs: seq<int>, i: nat)
    requires k < |lines| && i < |dirs|
    ensures NonParallel(lines, k, position, dirs[..i + 1]) ==
      NonParallel(lines, k, position, dirs[..i]) + (if ParallelNearby(lines, k, position, dirs[i]) then [] else [dirs[i]])
  {
    assert dirs[..i + 1][..i] == dirs[..i];
  }

  /** Filtering one more direction appends it unless its next segment crosses a line. */
  lemma NonCrossingStep(lines: seq<MetroLine>, position: Point, dirs: seq<int>, i: nat, segmentLength: real)
    requires AllDirections(dirs) && i < |dirs|
    ensures AllDirections(dirs[..i]) && AllDirections(dirs[..i + 1]) && IsDirection(dirs[i])
    ensures NonCrossing(lines, position, dirs[..i + 1], segmentLength) ==
      NonCrossing(lines, position, dirs[..i], segmentLength) +
        (if CrossesExisting(lines, position, dirs[i], segmentLength) then [] else [dirs[i]])
  {
    assert dirs[..i + 1][..i] == dirs[..i];
  }

  /** The fallback chain: non-crossing directions if any, else non-parallel ones if any, else all. */
  function Fallback(nonCrossing: seq<int>, nonParallel: seq<int>, dirs: seq<int>): seq<int>
  {
    if |nonCrossing| > 0 then nonCrossing else if |nonParallel| > 0 then nonParallel else dirs
  }

  /** The directions a segment end may take next, after both filters and the fallback. */
  function Candidates(lines: seq<MetroLine>, k: nat, position: Point, dirs: seq<int>, segmentLength: real): seq<int>
    requires k < |lines| && AllDirections(dirs)
  {
    var nonParallel := NonParallel(lines, k, position, dirs);
    Fallback(NonCrossing(lines, position, nonParallel, segmentLength), nonParallel, dirs)
  }

  /**
   * The candidates are drawn from `dirs` and never empty when `dirs` is not;
   * when some direction is neither parallel to a nearby line nor crossing one
   * every candidate is such a direction, and otherwise, when some direction
   * is not parallel, every candidate is not parallel.
   */
  lemma CandidatesSpec(lines: seq<MetroLine>, k: nat, position: Point, dirs: seq<int>, segmentLength: real)
    requires k < |lines| && AllDirections(dirs)
    ensures var c := Candidates(lines, k, position, dirs, segmentLength);
      (forall d :: d in c ==> d in dirs) && (|dirs| > 0 ==> |c| > 0) &&
      ((exists d :: d in dirs && !ParallelNearby(lines, k, position, d) && !CrossesExisting(lines, position, d, segmentLength)) ==>
        forall d :: d in c ==> !ParallelNearby(lines, k, position, d) && !CrossesExisting(lines, position, d, segmentLength)) &&
      ((exists d :: d in dirs && !ParallelNearby(lines, k, position, d)) ==>
        forall d :: d in c ==> !ParallelNearby(lines, k, position, d))
  {
    var nonParallel := NonParallel(lines, k, position, dirs);
    var nonCrossing := NonCrossing(lines, position, nonParallel, segmentLength);
    if exists d :: d in dirs && !ParallelNearby(lines, k, position, d) && !CrossesExisting(lines, position, d, segmentLength) {
      var d :| d in dirs && !ParallelNearby(lines, k, position, d) && !CrossesExisting(lines, position, d, segmentLength);
      assert d in nonCrossing;
    }
    if exists d :: d in dirs && !ParallelNearby(lines, k, position, d) {
      var d :| d in dirs && !ParallelNearby(lines, k, position, d);
      assert d in nonParallel;
    }
  }

  /** The weights handed to the wheel: `weights[d]` for each candidate `d`. */
  function WeightsOf(dirs: seq<int>, weights: seq<real>): (w: seq<real>)
    requires AllDirections(dirs) && |weights| == 8
    ensures |w| == |dirs| && forall i :: 0 <= i < |dirs| ==> w[i] == weights[dirs[i]]
  {
    seq(|dirs|, i requires 0 <= i < |dirs| => weights[dirs[i]])
  }

  /** The sort key of a branch direction: best centre score first (`scoreB - scoreA`). */
  function ScoreKey(scores: seq<real>): int -> real
  {
    d => if 0 <= d < |scores| then -scores[d] else 0.0
  }

  /** The first of `dirs` whose test point a segment away stays strictly inside the bounds. */
  function FirstInBounds(dirs: seq<int>, position: Point, segmentLength: real, bounds: Bounds): (r: Option<nat>)
    requires AllDirections(dirs)
    ensures r.Some? ==> r.value < |dirs| && InBounds(Advance(position, dirs[r.value], segmentLength), bounds)
    ensures r.Some? ==> forall i :: 0 <= i < r.value ==> !InBounds(Advance(position, dirs[i], segmentLength), bounds)
    ensures r.None? ==> forall i :: 0 <= i < |dirs| ==> !InBounds(Advance(position, dirs[i], segmentLength), bounds)
  {
    if dirs == [] then None
    else if InBounds(Advance(position, dirs[0], segmentLength), bounds) then Some(0)
    else match FirstInBounds(dirs[1..], position, segmentLength, bounds)
      case None => None
      case Some(i) => Some(i + 1)
  }

  // ---------------------------------------------------------------------
  // Stations

  /** `canPlaceStation`: no station strictly closer than `minDistance` (compared squared). */
  predicate CanPlace(stations: seq<Station>, pos: Point, minDistance: real)
  {
    forall i :: 0 <= i < |stations| ==> DistSq(pos, stations[i].pos) >= minDistance * minDistance
  }

  /** Every two stations are at least `minDistance` apart. */
  predicate StationsApart(stations: seq<Station>, minDistance: real)
  {
    forall i, j :: 0 <= i < j < |stations| ==> DistSq(stations[i].pos, stations[j].pos) >= minDistance * minDistance
  }

  /** Placing only where `CanPlace` allows keeps all stations apart. */
  lemma PlaceKeepsApart(stations: seq<Station>, s: Station, minDistance: real)
    requires StationsApart(stations, minDistance) && CanPlace(stations, s.pos, minDistance)
    ensures StationsApart(stations + [s], minDistance)
  {
    var t := stations + [s];
    forall i, j | 0 <= i < j < |t|
      ensures DistSq(t[i].pos, t[j].pos) >= minDistance * minDistance
    {
      if j == |stations| {
        DistSqSymmetric(s.pos, stations[i].pos);
      }
    }
  }

  predicate ScalesOk(stations: seq<Station>)
  {
    forall i :: 0 <= i < |stations| ==> 0.0 <= stations[i].scale <= 1.0
  }

  /** One frame of a station's grow-in: up by `STATION_GROW_SPEED` while below 1, capped at 1. */
  function GrowScale(scale: real): real
  {
    if scale < 1.0 then Min(1.0, scale + STATION_GROW_SPEED) else scale
  }

  /** The grow-in never shrinks a station, keeps the scale in [0, 1], and leaves a full-size station alone. */
  lemma GrowScaleSpec(scale: real)
    requires 0.0 <= scale <= 1.0
    ensures scale <= GrowScale(scale) <= 1.0
    ensures scale < 1.0 ==> GrowScale(scale) == Min(1.0, scale + STATION_GROW_SPEED)
    ensures scale == 1.0 ==> GrowScale(scale) == 1.0
  {
  }
  /** Growing every station's scale in place keeps the stations apart and every scale in [0, 1]. */
  lemma GrownStationsOk(before: seq<Station>, after: seq<Station>, minDistance: real)
    requires StationsApart(before, minDistance) && ScalesOk(before) && |after| == |before|
    requires forall i :: 0 <= i < |after| ==> after[i] == before[i].(scale := GrowScale(before[i].scale))
    ensures StationsApart(after, minDistance) && ScalesOk(after)
  {
    forall i | 0 <= i < |after|
      ensures after[i].pos == before[i].pos && 0.0 <= after[i].scale <= 1.0
    {
      GrowScaleSpec(before[i].scale);
    }
  }

  /** Setting every station to full scale, as the static map does, keeps the stations apart and every scale in [0, 1]. */
  lemma FullScaleStationsOk(before: seq<Station>, after: seq<Station>, minDistance: real)
    requires StationsApart(before, minDistance) && |after| == |before|
    requires forall i :: 0 <= i < |after| ==> after[i] == before[i].(scale := 1.0)
    ensures StationsApart(after, minDistance) && ScalesOk(after)
  {
    forall i, j | 0 <= i < j < |after|
      ensures DistSq(after[i].pos, after[j].pos) >= minDistance * minDistance
    {
      assert after[i].pos == before[i].pos && after[j].pos == before[j].pos;
    }
  }


  // ---------------------------------------------------------------------
  // Invariants over the lines and trains

  /** Every point is strictly inside the bounds, or is the hub the first lines start from. */
  predicate PointsOk(points: seq<Point>, bounds: Bounds, hub: Point)
  {
    |points| >= 2 && forall i :: 0 <= i < |points| ==> InBounds(points[i], bounds) || points[i] == hub
  }

  /** A line in slot `id`: its id, its points, a direction, a positive duration and stations that exist. */
  predicate LineOk(line: MetroLine, id: nat, stationCount: nat, bounds: Bounds, hub: Point)
  {
    line.id == id && PointsOk(line.points, bounds, hub) && IsDirection(line.currentDirection) &&
    line.growthDuration > 0.0 && line.progress >= 0.0 && line.totalLength >= 0.0 &&
    forall i :: 0 <= i < |line.stations| ==> line.stations[i] < stationCount
  }

  predicate LinesOk(lines: seq<MetroLine>, stationCount: nat, bounds: Bounds, hub: Point)
  {
    forall k :: 0 <= k < |lines| ==> LineOk(lines[k], k, stationCount, bounds, hub)
  }

  lemma LinesOkMoreStations(lines: seq<MetroLine>, n: nat, m: nat, bounds: Bounds, hub: Point)
    requires LinesOk(lines, n, bounds, hub) && n <= m
    ensures LinesOk(lines, m, bounds, hub)
  {
  }

  /** Whether some train runs on line `k`. */
  predicate HasTrain(trains: seq<Train>, k: nat)
  {
    exists i :: 0 <= i < |trains| && trains[i].line == k
  }

  /**
   * Every train runs on an existing line that has stopped growing, knows
   * the distance of each of its stations, and satisfies `TrainOk`; no line
   * has two trains.
   */
  predicate TrainsOk(trains: seq<Train>, lines: seq<MetroLine>)
  {
    (forall i :: 0 <= i < |trains| ==>
      trains[i].line < |lines| && !lines[trains[i].line].growing &&
      |trains[i].stationDistances| == |lines[trains[i].line].stations| && TrainOk(trains[i])) &&
    (forall i, j :: 0 <= i < j < |trains| ==> trains[i].line != trains[j].line)
  }

  /** A growing line carries no train. */
  lemma GrowingHasNoTrain(trains: seq<Train>, lines: seq<MetroLine>, k: nat)
    requires TrainsOk(trains, lines) && k < |lines| && lines[k].growing
    ensures !HasTrain(trains, k)
  {
  }

  /** Changing a line without a train keeps the trains valid, as long as it does not start growing. */
  lemma TrainsOkUpdate(trains: seq<Train>, lines: seq<MetroLine>, k: nat, line: MetroLine)
    requires TrainsOk(trains, lines) && k < |lines| && !HasTrain(trains, k)
    ensures TrainsOk(trains, lines[k := line])
  {
    forall i | 0 <= i < |trains|
      ensures trains[i].line != k
    {
    }
  }

  /** Appending lines keeps the trains valid. */
  lemma TrainsOkAppend(trains: seq<Train>, lines: seq<MetroLine>, more: seq<MetroLine>)
    requires TrainsOk(trains, lines)
    ensures TrainsOk(trains, lines + more)
  {
  }
}
