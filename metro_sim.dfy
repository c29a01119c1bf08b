/**
 * The metro-map simulation of `MetroMap.tsx`: the closure state the effect
 * keeps (lines, stations, trains, click waves, palette, colour shift) as the
 * fields of one object, and the step functions that update it as methods.
 *
 * `performance.now()` is the parameter `now` and each `Math.random()` draw a
 * parameter in [0, 1); the centre-weight scores and their `exp` weights,
 * which need `sqrt` and `exp`, are supplied per direction.
 */
module MetroSim {
  import opened Wrappers
  import opened JsNumber
  import opened Color
  import opened MetroDirections
  import opened MetroGeometry
  import opened MetroWeighted
  import opened StableSort
  import opened MetroTrains
  import opened MetroState
  import MetroCatalog

  /** The first station strictly within `radius` of `pos`, as `handleClick` looks for one. */
  function FirstNear(stations: seq<Station>, pos: Point, radius: real): (r: Option<nat>)
    ensures r.Some? ==> r.value < |stations| && DistSq(pos, stations[r.value].pos) < radius * radius
    ensures r.Some? ==> forall i :: 0 <= i < r.value ==> DistSq(pos, stations[i].pos) >= radius * radius
    ensures r.None? ==> forall i :: 0 <= i < |stations| ==> DistSq(pos, stations[i].pos) >= radius * radius
  {
    if stations == [] then None
    else if DistSq(pos, stations[0].pos) < radius * radius then Some(0)
    else match FirstNear(stations[1..], pos, radius)
      case None => None
      case Some(i) => Some(i + 1)
  }

  /** `FirstNear` finds exactly the first station within the radius. */
  lemma FirstNearAt(stations: seq<Station>, pos: Point, radius: real, i: nat)
    requires i < |stations| && DistSq(pos, stations[i].pos) < radius * radius
    requires forall j :: 0 <= j < i ==> DistSq(pos, stations[j].pos) >= radius * radius
    ensures FirstNear(stations, pos, radius) == Some(i)
  {
  }

  lemma FirstNearNone(stations: seq<Station>, pos: Point, radius: real)
    requires forall j :: 0 <= j < |stations| ==> DistSq(pos, stations[j].pos) >= radius * radius
    ensures FirstNear(stations, pos, radius) == None
  {
  }

  /**
   * `updateClickWaves`: a wave older than `WAVE_DURATION` is dropped, every
   * other one keeps its place and gets the radius `WAVE_SPEED` per second
   * of age, so no kept wave is wider than 400.
   */
  function KeptWaves(waves: seq<ClickWave>, now: real): (r: seq<ClickWave>)
    ensures |r| <= |waves|
    ensures forall i :: 0 <= i < |r| ==>
      now - r[i].startTime <= WAVE_DURATION && r[i].radius == (now - r[i].startTime) / 1000.0 * WAVE_SPEED &&
      r[i].radius <= 400.0
  {
    if waves == [] then []
    else
      var w := waves[|waves| - 1];
      var elapsed := now - w.startTime;
      KeptWaves(waves[..|waves| - 1], now) + (if elapsed > WAVE_DURATION then [] else [w.(radius := elapsed / 1000.0 * WAVE_SPEED)])
  }

  /** Every wave younger than `WAVE_DURATION` survives, with its origin and start time. */
  lemma {:induction false} YoungWavesKept(waves: seq<ClickWave>, now: real, i: nat)
    requires i < |waves| && now - waves[i].startTime <= WAVE_DURATION
    ensures waves[i].(radius := (now - waves[i].startTime) / 1000.0 * WAVE_SPEED) in KeptWaves(waves, now)
    decreases |waves|
  {
    if i < |waves| - 1 {
      YoungWavesKept(waves[..|waves| - 1], now, i);
    }
  }

  /** Every kept wave is a young wave of the input with its radius updated. */
  lemma {:induction false} KeptWavesFromInput(waves: seq<ClickWave>, now: real, w: ClickWave)
    requires w in KeptWaves(waves, now)
    ensures exists i :: (0 <= i < |waves| && now - waves[i].startTime <= WAVE_DURATION &&
      w == waves[i].(radius := (now - waves[i].startTime) / 1000.0 * WAVE_SPEED))
    decreases |waves|
  {
    var prefix := waves[..|waves| - 1];
    if w in KeptWaves(prefix, now) {
      KeptWavesFromInput(prefix, now, w);
      var i :| 0 <= i < |prefix| && now - prefix[i].startTime <= WAVE_DURATION &&
        w == prefix[i].(radius := (now - prefix[i].startTime) / 1000.0 * WAVE_SPEED);
      assert waves[i] == prefix[i];
    } else {
      assert w == waves[|waves| - 1].(radius := (now - waves[|waves| - 1].startTime) / 1000.0 * WAVE_SPEED);
    }
  }

  /** `availableColors.splice(index, 1)`: the pool without its entry `i`. */
  function Without<T>(pool: seq<T>, i: nat): (r: seq<T>)
    requires i < |pool|
    ensures |r| == |pool| - 1
    ensures multiset(r) + multiset{pool[i]} == multiset(pool)
  {
    assert pool == pool[..i] + [pool[i]] + pool[i + 1..];
    pool[..i] + pool[i + 1..]
  }

  /** The parsed colours of a list. */
  function ParsedColors(colors: seq<string>): (rgbs: seq<RGB>)
    ensures |rgbs| == |colors| && forall i :: 0 <= i < |colors| ==> rgbs[i] == ParseColor(colors[i])
  {
    seq(|colors|, i requires 0 <= i < |colors| => ParseColor(colors[i]))
  }

  /** The per-channel "average" `handlePalette` forms: a third of each colour, summed. */
  function ThirdsSum(rgbs: seq<RGB>): (c: RGB)
  {
    if rgbs == [] then RGB(Fin(0.0), Fin(0.0), Fin(0.0))
    else
      var rest := ThirdsSum(rgbs[..|rgbs| - 1]);
      var rgb := rgbs[|rgbs| - 1];
      RGB(Add(rest.r, Mul(rgb.r, 1.0 / 3.0)), Add(rest.g, Mul(rgb.g, 1.0 / 3.0)), Add(rest.b, Mul(rgb.b, 1.0 / 3.0)))
  }

  /**
   * The planning part of `initializeMap`: one transit line per location
   * (all seven, since both configurations allow at least seven lines), and
   * for the i-th of them the i-th colour of the shuffled palette, wrapping
   * round.
   */
  method PlanTransitLines(config: Config, shuffleDraws: seq<real>, pickDraws: seq<real>,
                          shuffledColors: seq<string>, theme: seq<string>)
    returns (planned: seq<MetroCatalog.TransitLine>, colors: seq<string>)
    requires config == DESKTOP_CONFIG || config == MOBILE_CONFIG
    requires MetroCatalog.Draws(shuffleDraws) && |shuffleDraws| >= 6
    requires MetroCatalog.Draws(pickDraws) && |pickDraws| >= 7
    requires multiset(shuffledColors) == multiset(theme) && |theme| > 0
    ensures |planned| == 7 && |colors| == 7
    ensures forall i :: 0 <= i < 7 ==> planned[i] in MetroCatalog.TRANSIT_LINES
    ensures forall i, j :: 0 <= i < j < 7 ==> planned[i].location != planned[j].location
    ensures forall i :: 0 <= i < 7 ==> colors[i] == shuffledColors[i % |shuffledColors|] && colors[i] in theme
  {
    MetroCatalog.CatalogLocations();
    planned := MetroCatalog.SelectLinesOnePerLocation(MetroCatalog.TRANSIT_LINES, config.maxLines, shuffleDraws, pickDraws);
    assert |shuffledColors| > 0 by {
      assert |multiset(shuffledColors)| == |multiset(theme)|;
    }
    colors := [];
    for i := 0 to |planned|
      invariant |colors| == i
      invariant forall j :: 0 <= j < i ==> colors[j] == shuffledColors[j % |shuffledColors|] && colors[j] in theme
    {
      var c := shuffledColors[i % |shuffledColors|];
      assert c in multiset(theme);
      colors := colors + [c];
    }
  }


  // ---------------------------------------------------------------------
  // Colour shift

  /** One frame of `colorShiftIntensity`: it moves `COLOR_SHIFT_LERP_SPEED` of the way to its target. */
  function ShiftStep(intensity: real, target: real): (r: real)
    ensures r - target == (1.0 - COLOR_SHIFT_LERP_SPEED) * (intensity - target)
    ensures 0.0 <= intensity <= 1.0 && 0.0 <= target <= 1.0 ==> 0.0 <= r <= 1.0
  {
    intensity + (target - intensity) * COLOR_SHIFT_LERP_SPEED
  }

  /** One frame of the target's decay: `COLOR_SHIFT_DECAY` less while positive, never below 0. */
  function DecayTarget(target: real): (r: real)
  {
    if target > 0.0 then Max(0.0, target - COLOR_SHIFT_DECAY) else target
  }

  /**
   * The target only falls, by exactly `COLOR_SHIFT_DECAY` while that keeps it
   * positive, stops at 0 and stays there; after `n` frames from a target in
   * [0, 1] it is at most `target - n * COLOR_SHIFT_DECAY`, so it reaches 0
   * within 334 frames.
   */
  lemma {:induction false} DecayTargetFalls(target: real, n: nat)
    requires 0.0 <= target <= 1.0
    ensures 0.0 <= DecayTargetN(target, n) <= target
    ensures DecayTargetN(target, n) == 0.0 || DecayTargetN(target, n) == target - n as real * COLOR_SHIFT_DECAY
    ensures n >= 334 ==> DecayTargetN(target, n) == 0.0
  {
    if n > 0 {
      DecayTargetFalls(target, n - 1);
      var prev := DecayTargetN(target, n - 1);
      if prev != 0.0 && n >= 334 {
        assert prev == target - (n - 1) as real * COLOR_SHIFT_DECAY;
        assert (n - 1) as real * COLOR_SHIFT_DECAY >= 333.0 * COLOR_SHIFT_DECAY;
      }
    }
  }

  /** `n` frames of `DecayTarget`. */
  function DecayTargetN(target: real, n: nat): real
  {
    if n == 0 then target else DecayTarget(DecayTargetN(target, n - 1))
  }

  /**
   * The target colour a handler gives a line: its parsed base colour,
   * shifted `amount` of the way towards `shift` when there is one.
   */
  function Retarget(line: MetroLine, shift: Option<RGB>, amount: real): (l: MetroLine)
    ensures l == line.(targetColor := l.targetColor)
  {
    match shift
    case None => line.(targetColor := ParseColor(line.baseColor))
    case Some(c) => line.(targetColor := LerpColor(ParseColor(line.baseColor), c, amount))
  }

  lemma Thirds(x: Num)
    requires x.Fin?
    ensures Add(Fin(0.0), Mul(x, 1.0 / 3.0)) == Fin(x.v / 3.0)
    ensures Add(Add(Add(Fin(0.0), Mul(x, 1.0 / 3.0)), Mul(x, 1.0 / 3.0)), Mul(x, 1.0 / 3.0)) == x
  {
  }

  /** Three colours average to their mean: three copies of a colour give that colour. */
  lemma ThirdsSumOfThree(c: RGB)
    requires IsFinite(c)
    ensures ThirdsSum([c, c, c]) == c
  {
    assert [c, c, c][..2] == [c, c];
    assert [c, c][..1] == [c];
    assert [c][..0] == [];
    var third := RGB(Mul(c.r, 1.0 / 3.0), Mul(c.g, 1.0 / 3.0), Mul(c.b, 1.0 / 3.0));
    assert ThirdsSum([]) == RGB(Fin(0.0), Fin(0.0), Fin(0.0));
    var one := ThirdsSum([c]);
    assert one == RGB(Add(Fin(0.0), third.r), Add(Fin(0.0), third.g), Add(Fin(0.0), third.b));
    var two := ThirdsSum([c, c]);
    assert two == RGB(Add(one.r, third.r), Add(one.g, third.g), Add(one.b, third.b));
    assert ThirdsSum([c, c, c]) == RGB(Add(two.r, third.r), Add(two.g, third.g), Add(two.b, third.b));
    Thirds(c.r);
    Thirds(c.g);
    Thirds(c.b);
  }

  /** With a single colour the "average" is a third of it: the sum is always divided by three. */
  lemma ThirdsSumOfOne(c: RGB)
    requires IsFinite(c)
    ensures ThirdsSum([c]) == RGB(Fin(c.r.v / 3.0), Fin(c.g.v / 3.0), Fin(c.b.v / 3.0))
  {
    assert [c][..0] == [];
    Thirds(c.r);
    Thirds(c.g);
    Thirds(c.b);
  }

  // ---------------------------------------------------------------------
  // Trains

  /** `findDistanceAlongLine` for each station of a line, with the projection supplied as `distanceAlong`. */
  function StationDistances(line: MetroLine, stations: seq<Station>, distanceAlong: (seq<Point>, Point) -> real): (d: seq<real>)
    requires forall i :: 0 <= i < |line.stations| ==> line.stations[i] < |stations|
    ensures |d| == |line.stations|
    ensures forall i :: 0 <= i < |d| ==> d[i] == distanceAlong(line.points, stations[line.stations[i]].pos)
  {
    seq(|line.stations|, i requires 0 <= i < |line.stations| => distanceAlong(line.points, stations[line.stations[i]].pos))
  }

  /** What the spawn check does for line `k` given the trains so far: a new train, or none. */
  function SpawnFor(lines: seq<MetroLine>, stations: seq<Station>, trains: seq<Train>, k: nat, now: real,
                    lengthOf: seq<Point> -> real, distanceAlong: (seq<Point>, Point) -> real, waitDraw: real): Option<Train>
    requires k < |lines| && 0.0 <= waitDraw < 1.0
    requires forall i :: 0 <= i < |lines[k].stations| ==> lines[k].stations[i] < |stations|
  {
    if HasTrain(trains, k) then None
    else if lines[k].growing || |lines[k].stations| < MIN_STATIONS_FOR_TRAIN then None
    else CreateTrain(k, lines[k].stations, |lines[k].points|, lengthOf(lines[k].points),
                     StationDistances(lines[k], stations, distanceAlong), now, waitDraw)
  }

  /** The train list after the spawn check has visited lines `0 .. n-1`, in order. */
  function Spawned(lines: seq<MetroLine>, stations: seq<Station>, trains: seq<Train>, n: nat, now: real,
                   lengthOf: seq<Point> -> real, distanceAlong: (seq<Point>, Point) -> real, waitDraws: seq<real>): (r: seq<Train>)
    requires n <= |lines| && n <= |waitDraws| && MetroCatalog.Draws(waitDraws)
    requires forall k, i :: 0 <= k < |lines| && 0 <= i < |lines[k].stations| ==> lines[k].stations[i] < |stations|
    ensures |trains| <= |r| && r[..|trains|] == trains
  {
    if n == 0 then trains
    else
      var before := Spawned(lines, stations, trains, n - 1, now, lengthOf, distanceAlong, waitDraws);
      match SpawnFor(lines, stations, before, n - 1, now, lengthOf, distanceAlong, waitDraws[n - 1])
      case None => before
      case Some(t) => before + [t]
  }

  /** A train the check spawns keeps every train valid: its line is free, finished and has two stations or more. */
  lemma SpawnKeepsTrainsOk(lines: seq<MetroLine>, stations: seq<Station>, trains: seq<Train>, k: nat, now: real,
                           lengthOf: seq<Point> -> real, distanceAlong: (seq<Point>, Point) -> real, waitDraw: real)
    requires k < |lines| && 0.0 <= waitDraw < 1.0
    requires forall i :: 0 <= i < |lines[k].stations| ==> lines[k].stations[i] < |stations|
    requires forall pts, p :: 0.0 <= distanceAlong(pts, p) <= lengthOf(pts)
    requires TrainsOk(trains, lines)
    requires SpawnFor(lines, stations, trains, k, now, lengthOf, distanceAlong, waitDraw).Some?
    ensures var t := SpawnFor(lines, stations, trains, k, now, lengthOf, distanceAlong, waitDraw).value;
      TrainsOk(trains + [t], lines) && t.line == k && t.waiting && t.direction == 1 && t.speed == 0.0 &&
      t.lastStoppedAt == Some(lines[k].stations[0]) && !lines[k].growing && |lines[k].stations| >= MIN_STATIONS_FOR_TRAIN
  {
    var line := lines[k];
    var d := StationDistances(line, stations, distanceAlong);
    CreatedTrain(k, line.stations, |line.points|, lengthOf(line.points), d, now, waitDraw);
    var t := SpawnFor(lines, stations, trains, k, now, lengthOf, distanceAlong, waitDraw).value;
    var r := trains + [t];
    forall i, j | 0 <= i < j < |r|
      ensures r[i].line != r[j].line
    {
      if j == |trains| {
        assert r[i] == trains[i];
      }
    }
  }

  /** A line the spawn check gives a train when it has none: finished, two stations, two points, length 10 or more. */
  predicate Eligible(lines: seq<MetroLine>, k: nat, lengthOf: seq<Point> -> real)
    requires k < |lines|
  {
    !lines[k].growing && |lines[k].stations| >= MIN_STATIONS_FOR_TRAIN &&
    |lines[k].points| >= 2 && lengthOf(lines[k].points) >= MIN_TRAIN_LINE_LENGTH
  }

  /** The spawn check keeps the trains valid, so no line ever gets a second train. */
  lemma {:induction false} SpawnedValid(lines: seq<MetroLine>, stations: seq<Station>, trains: seq<Train>, n: nat, now: real,
                                     lengthOf: seq<Point> -> real, distanceAlong: (seq<Point>, Point) -> real, waitDraws: seq<real>)
    requires n <= |lines| && n <= |waitDraws| && MetroCatalog.Draws(waitDraws)
    requires forall k, i :: 0 <= k < |lines| && 0 <= i < |lines[k].stations| ==> lines[k].stations[i] < |stations|
    requires forall pts, p :: 0.0 <= distanceAlong(pts, p) <= lengthOf(pts)
    requires TrainsOk(trains, lines)
    ensures TrainsOk(Spawned(lines, stations, trains, n, now, lengthOf, distanceAlong, waitDraws), lines)
  {
    if n > 0 {
      SpawnedValid(lines, stations, trains, n - 1, now, lengthOf, distanceAlong, waitDraws);
      var before := Spawned(lines, stations, trains, n - 1, now, lengthOf, distanceAlong, waitDraws);
      var spawn := SpawnFor(lines, stations, before, n - 1, now, lengthOf, distanceAlong, waitDraws[n - 1]);
      if spawn.Some? {
        SpawnKeepsTrainsOk(lines, stations, before, n - 1, now, lengthOf, distanceAlong, waitDraws[n - 1]);
      }
    }
  }

  /** Every train the spawn check adds starts waiting, at rest, heading forwards, on a line it has visited. */
  lemma {:induction false} SpawnedAtRest(lines: seq<MetroLine>, stations: seq<Station>, trains: seq<Train>, n: nat, now: real,
                                     lengthOf: seq<Point> -> real, distanceAlong: (seq<Point>, Point) -> real, waitDraws: seq<real>)
    requires n <= |lines| && n <= |waitDraws| && MetroCatalog.Draws(waitDraws)
    requires forall k, i :: 0 <= k < |lines| && 0 <= i < |lines[k].stations| ==> lines[k].stations[i] < |stations|
    requires forall pts, p :: 0.0 <= distanceAlong(pts, p) <= lengthOf(pts)
    requires TrainsOk(trains, lines)
    ensures forall i :: |trains| <= i < |Spawned(lines, stations, trains, n, now, lengthOf, distanceAlong, waitDraws)| ==>
      var t := Spawned(lines, stations, trains, n, now, lengthOf, distanceAlong, waitDraws)[i];
      t.line < n && t.waiting && t.speed == 0.0 && t.direction == 1
  {
    if n > 0 {
      SpawnedAtRest(lines, stations, trains, n - 1, now, lengthOf, distanceAlong, waitDraws);
      SpawnedValid(lines, stations, trains, n - 1, now, lengthOf, distanceAlong, waitDraws);
      var before := Spawned(lines, stations, trains, n - 1, now, lengthOf, distanceAlong, waitDraws);
      var spawn := SpawnFor(lines, stations, before, n - 1, now, lengthOf, distanceAlong, waitDraws[n - 1]);
      var r := Spawned(lines, stations, trains, n, now, lengthOf, distanceAlong, waitDraws);
      if spawn.Some? {
        SpawnKeepsTrainsOk(lines, stations, before, n - 1, now, lengthOf, distanceAlong, waitDraws[n - 1]);
        assert r == before + [spawn.value];
        assert forall i :: |trains| <= i < |before| ==> r[i] == before[i];
      } else {
        assert r == before;
      }
    }
  }

  /**
   * The spawn check keeps the trains valid, so no line ever gets a second
   * train, and every train it adds starts waiting, at rest, heading
   * forwards, on a line it has visited.
   */
  lemma SpawnedOk(lines: seq<MetroLine>, stations: seq<Station>, trains: seq<Train>, n: nat, now: real,
                                     lengthOf: seq<Point> -> real, distanceAlong: (seq<Point>, Point) -> real, waitDraws: seq<real>)
    requires n <= |lines| && n <= |waitDraws| && MetroCatalog.Draws(waitDraws)
    requires forall k, i :: 0 <= k < |lines| && 0 <= i < |lines[k].stations| ==> lines[k].stations[i] < |stations|
    requires forall pts, p :: 0.0 <= distanceAlong(pts, p) <= lengthOf(pts)
    requires TrainsOk(trains, lines)
    ensures TrainsOk(Spawned(lines, stations, trains, n, now, lengthOf, distanceAlong, waitDraws), lines)
    ensures forall i :: |trains| <= i < |Spawned(lines, stations, trains, n, now, lengthOf, distanceAlong, waitDraws)| ==>
      var t := Spawned(lines, stations, trains, n, now, lengthOf, distanceAlong, waitDraws)[i];
      t.line < n && t.waiting && t.speed == 0.0 && t.direction == 1
  {
    SpawnedValid(lines, stations, trains, n, now, lengthOf, distanceAlong, waitDraws);
    SpawnedAtRest(lines, stations, trains, n, now, lengthOf, distanceAlong, waitDraws);
  }

  /** After the check has visited lines `0 .. n-1`, every eligible one among them has a train. */
  lemma {:induction false} SpawnedCovers(lines: seq<MetroLine>, stations: seq<Station>, trains: seq<Train>, n: nat, now: real,
                                         lengthOf: seq<Point> -> real, distanceAlong: (seq<Point>, Point) -> real, waitDraws: seq<real>)
    requires n <= |lines| && n <= |waitDraws| && MetroCatalog.Draws(waitDraws)
    requires forall k, i :: 0 <= k < |lines| && 0 <= i < |lines[k].stations| ==> lines[k].stations[i] < |stations|
    ensures forall k :: 0 <= k < n && Eligible(lines, k, lengthOf) ==>
      HasTrain(Spawned(lines, stations, trains, n, now, lengthOf, distanceAlong, waitDraws), k)
  {
    if n > 0 {
      SpawnedCovers(lines, stations, trains, n - 1, now, lengthOf, distanceAlong, waitDraws);
      var before := Spawned(lines, stations, trains, n - 1, now, lengthOf, distanceAlong, waitDraws);
      var r := Spawned(lines, stations, trains, n, now, lengthOf, distanceAlong, waitDraws);
      assert r[..|before|] == before by {
        var spawn := SpawnFor(lines, stations, before, n - 1, now, lengthOf, distanceAlong, waitDraws[n - 1]);
        assert r == if spawn.Some? then before + [spawn.value] else before;
      }
      forall k | 0 <= k < n && HasTrain(before, k)
        ensures HasTrain(r, k)
      {
        var i :| 0 <= i < |before| && before[i].line == k;
        assert r[i] == r[..|before|][i];
      }
      if Eligible(lines, n - 1, lengthOf) && !HasTrain(before, n - 1) {
        assert r[|before|].line == n - 1;
      }
    }
  }

    /** The fade-in at the top of `animate`: up by `FADE_IN_SPEED` while below 1, capped at 1. */
  function FadeIn(opacity: real): (r: real)
    ensures 0.0 <= opacity <= 1.0 ==> opacity <= r <= 1.0
  {
    if opacity < 1.0 then Min(1.0, opacity + FADE_IN_SPEED) else opacity
  }

  /** `n` frames of fade-in. */
  function FadeInFrames(opacity: real, n: nat): real
  {
    if n == 0 then opacity else FadeIn(FadeInFrames(opacity, n - 1))
  }

  /**
   * From any opacity in [0, 1], `n` frames of fade-in give the opacity plus
   * `n` steps, capped at 1; so the map is fully shown 67 frames after it
   * starts from 0.
   */
  lemma {:induction false} FadeInFramesIs(opacity: real, n: nat)
    requires 0.0 <= opacity <= 1.0
    ensures FadeInFrames(opacity, n) == Min(1.0, opacity + n as real * FADE_IN_SPEED)
    ensures n >= 67 ==> FadeInFrames(opacity, n) == 1.0
  {
    if n > 0 {
      FadeInFramesIs(opacity, n - 1);
    }
  }

  /** Appending lines whose ids continue the list keeps every line valid. */
  lemma LinesOkAppend(lines: seq<MetroLine>, more: seq<MetroLine>, stationCount: nat, bounds: Bounds, hub: Point)
    requires LinesOk(lines, stationCount, bounds, hub)
    requires forall j :: 0 <= j < |more| ==> LineOk(more[j], |lines| + j, stationCount, bounds, hub)
    ensures LinesOk(lines + more, stationCount, bounds, hub)
  {
    forall k | 0 <= k < |lines + more|
      ensures LineOk((lines + more)[k], k, stationCount, bounds, hub)
    {
      if k >= |lines| {
        assert (lines + more)[k] == more[k - |lines|];
      }
    }
  }

  /** A line grows this frame: it is still growing and its start delay is over. */
  predicate Active(line: MetroLine, now: real)
  {
    line.growing && now - line.createdAt >= line.growthDelay
  }

  /** How far a line grows this frame: the eased speed for the share of its growth duration that has elapsed. */
  function FrameSpeed(line: MetroLine, now: real, lineSpeed: real): real
    requires line.growthDuration > 0.0
  {
    EffectiveSpeed(lineSpeed, GrowthProgress(now - line.createdAt, line.growthDelay, line.growthDuration))
  }

  /** The chance of a station at a segment end: 0.4 once the line has run 1.5 segments without one, else 0.15. */
  function StationChance(lastStationDistance: real, segmentLength: real): (c: real)
    ensures c == STATION_CHANCE_FAR <==> lastStationDistance > segmentLength * 1.5
    ensures c == STATION_CHANCE_NEAR <==> lastStationDistance <= segmentLength * 1.5
  {
    if lastStationDistance > segmentLength * 1.5 then STATION_CHANCE_FAR else STATION_CHANCE_NEAR
  }

  /**
   * The order in which a branch tries its directions: the branch directions
   * left by the filters, sorted by centre score, best first, ties kept in
   * their original order.
   */
  function BranchOrder(lines: seq<MetroLine>, k: nat, position: Point, scores: seq<real>, segmentLength: real): (r: seq<int>)
    requires k < |lines| && IsDirection(lines[k].currentDirection)
    ensures |r| > 0 && AllDirections(r)
    ensures forall d :: d in r ==> d in BranchDirections(lines[k].currentDirection)
    ensures multiset(r) == multiset(Candidates(lines, k, position, BranchDirections(lines[k].currentDirection), segmentLength))
    ensures SortedBy(r, ScoreKey(scores))
  {
    var dirs := BranchDirections(lines[k].currentDirection);
    var c := Candidates(lines, k, position, dirs, segmentLength);
    CandidatesWithin(lines, k, position, dirs, segmentLength);
    SortByCorrect(c, ScoreKey(scores));
    var r := SortBy(c, ScoreKey(scores));
    SameElements(r, c, dirs);
    r
  }

  /** The candidates are non-empty and drawn from `dirs`. */
  lemma CandidatesWithin(lines: seq<MetroLine>, k: nat, position: Point, dirs: seq<int>, segmentLength: real)
    requires k < |lines| && AllDirections(dirs) && |dirs| > 0
    ensures var c := Candidates(lines, k, position, dirs, segmentLength);
      |c| > 0 && forall d :: d in c ==> d in dirs
  {
    CandidatesSpec(lines, k, position, dirs, segmentLength);
  }

  /** A permutation of a sequence drawn from `dirs` is drawn from `dirs` too. */
  lemma SameElements(r: seq<int>, c: seq<int>, dirs: seq<int>)
    requires multiset(r) == multiset(c) && (forall d :: d in c ==> d in dirs) && AllDirections(dirs)
    ensures AllDirections(r) && forall d :: d in r ==> d in dirs
  {
    forall d | d in r
      ensures d in dirs
    {
      assert d in multiset(r);
    }
    forall i | 0 <= i < |r|
      ensures IsDirection(r[i])
    {
      assert r[i] in r;
    }
  }

  /** A direction whose test point is in bounds with none before it is the first such. */
  lemma FirstInBoundsAt(dirs: seq<int>, position: Point, segmentLength: real, bounds: Bounds, i: nat)
    requires AllDirections(dirs) && i < |dirs| && InBounds(Advance(position, dirs[i], segmentLength), bounds)
    requires forall j :: 0 <= j < i ==> !InBounds(Advance(position, dirs[j], segmentLength), bounds)
    ensures FirstInBounds(dirs, position, segmentLength, bounds) == Some(i)
  {
  }

/** The train as one `updateTrains` tick leaves it: trains on lines with fewer than two points are skipped. */
  function TrainTick(t: Train, lines: seq<MetroLine>, now: real, waitDraw: real): Train
    requires t.line < |lines| && |lines[t.line].stations| == |t.stationDistances| && 0.0 <= waitDraw < 1.0
  {
    if |lines[t.line].points| < 2 then t else TrainStep(t, lines[t.line].stations, now, waitDraw)
  }

  /** Ticking every train keeps each on its line, well formed, with one train per line. */
  lemma TickedTrainsOk(before: seq<Train>, after: seq<Train>, lines: seq<MetroLine>, now: real, waitDraws: seq<real>)
    requires TrainsOk(before, lines) && |after| == |before| && |waitDraws| >= |before| && MetroCatalog.Draws(waitDraws)
    requires forall i :: 0 <= i < |after| ==> after[i] == TrainTick(before[i], lines, now, waitDraws[i])
    ensures TrainsOk(after, lines)
  {
    forall i | 0 <= i < |after|
      ensures after[i].line == before[i].line && TrainOk(after[i])
      ensures |after[i].stationDistances| == |before[i].stationDistances|
    {
      if |lines[before[i].line].points| >= 2 {
        TrainStepOk(before[i], lines[before[i].line].stations, now, waitDraws[i]);
      }
    }
  }

  /** Recolouring lines leaves their shape, so the lines and the trains on them stay well formed. */
  lemma RecolouredOk(before: seq<MetroLine>, after: seq<MetroLine>, trains: seq<Train>, stationCount: nat, bounds: Bounds, hub: Point)
    requires LinesOk(before, stationCount, bounds, hub) && TrainsOk(trains, before) && |after| == |before|
    requires forall j :: 0 <= j < |after| ==>
      after[j] == before[j].(currentColor := after[j].currentColor, targetColor := after[j].targetColor)
    ensures LinesOk(after, stationCount, bounds, hub) && TrainsOk(trains, after)
  {
    forall k | 0 <= k < |after|
      ensures LineOk(after[k], k, stationCount, bounds, hub)
      ensures after[k].growing == before[k].growing && after[k].stations == before[k].stations
    {
    }
  }

  /** The first `n` draws of a stream of random draws. */
  function DrawsOf(draw: nat -> real, n: nat): (r: seq<real>)
    ensures |r| == n && forall i :: 0 <= i < n ==> r[i] == draw(i)
  {
    seq(n, i requires 0 <= i => draw(i))
  }

  /**
   * The trains `checkTrainSpawning` leaves at `now`: the same trains within
   * 500 ms of the last check, otherwise `Spawned` over every line. Either
   * way every train stays valid.
   */
  function SpawnChecked(lines: seq<MetroLine>, stations: seq<Station>, trains: seq<Train>, lastCheck: real, now: real,
                        lengthOf: seq<Point> -> real, distanceAlong: (seq<Point>, Point) -> real, waitDraws: seq<real>): (r: seq<Train>)
    requires |waitDraws| >= |lines| && MetroCatalog.Draws(waitDraws)
    requires forall k, i :: 0 <= k < |lines| && 0 <= i < |lines[k].stations| ==> lines[k].stations[i] < |stations|
    requires forall pts, p :: 0.0 <= distanceAlong(pts, p) <= lengthOf(pts)
    requires TrainsOk(trains, lines)
    ensures TrainsOk(r, lines) && |trains| <= |r| && r[..|trains|] == trains
  {
    if now - lastCheck < SPAWN_CHECK_INTERVAL then trains
    else
      SpawnedOk(lines, stations, trains, |lines|, now, lengthOf, distanceAlong, waitDraws);
      Spawned(lines, stations, trains, |lines|, now, lengthOf, distanceAlong, waitDraws)
  }

  /**
   * The trains at the end of a frame: the spawn check at `now` (see
   * `SpawnChecked`), then one `TrainTick` for every train, the `i`-th with
   * wait draw `waitDraw(i)`.
   */
  ghost predicate FrameTrains(before: seq<Train>, after: seq<Train>, lines: seq<MetroLine>, stations: seq<Station>,
                        lastCheck: real, now: real, lengthOf: seq<Point> -> real,
                        distanceAlong: (seq<Point>, Point) -> real, spawnDraws: seq<real>, waitDraw: nat -> real)
  {
    |spawnDraws| >= |lines| && MetroCatalog.Draws(spawnDraws) &&
    (forall k, i :: 0 <= k < |lines| && 0 <= i < |lines[k].stations| ==> lines[k].stations[i] < |stations|) &&
    (forall pts, p :: 0.0 <= distanceAlong(pts, p) <= lengthOf(pts)) &&
    TrainsOk(before, lines) &&
    var spawned := SpawnChecked(lines, stations, before, lastCheck, now, lengthOf, distanceAlong, spawnDraws);
    |after| == |spawned| &&
    forall i :: 0 <= i < |after| ==> Draw(waitDraw(i)) && after[i] == TrainTick(spawned[i], lines, now, waitDraw(i))
  }

  /** The spawn check followed by the tick of every train gives `FrameTrains`. */
  lemma FrameTrainsOf(before: seq<Train>, spawned: seq<Train>, after: seq<Train>, lines: seq<MetroLine>, stations: seq<Station>,
                      lastCheck: real, now: real, lengthOf: seq<Point> -> real,
                      distanceAlong: (seq<Point>, Point) -> real, spawnDraws: seq<real>, waitDraws: seq<real>, waitDraw: nat -> real)
    requires |spawnDraws| >= |lines| && MetroCatalog.Draws(spawnDraws)
    requires forall k, i :: 0 <= k < |lines| && 0 <= i < |lines[k].stations| ==> lines[k].stations[i] < |stations|
    requires forall pts, p :: 0.0 <= distanceAlong(pts, p) <= lengthOf(pts)
    requires TrainsOk(before, lines)
    requires now - lastCheck < SPAWN_CHECK_INTERVAL ==> spawned == before
    requires now - lastCheck >= SPAWN_CHECK_INTERVAL ==>
      spawned == Spawned(lines, stations, before, |lines|, now, lengthOf, distanceAlong, spawnDraws)
    requires TrainsOk(spawned, lines) && |after| == |spawned| == |waitDraws|
    requires forall i :: 0 <= i < |waitDraws| ==> waitDraws[i] == waitDraw(i) && 0.0 <= waitDraws[i] < 1.0
    requires forall i :: 0 <= i < |after| ==> after[i] == TrainTick(spawned[i], lines, now, waitDraws[i])
    ensures FrameTrains(before, after, lines, stations, lastCheck, now, lengthOf, distanceAlong, spawnDraws, waitDraw)
  {
    var checked := SpawnChecked(lines, stations, before, lastCheck, now, lengthOf, distanceAlong, spawnDraws);
    assert spawned == checked;
    forall i | 0 <= i < |after|
      ensures Draw(waitDraw(i)) && after[i] == TrainTick(checked[i], lines, now, waitDraw(i))
    {
      assert waitDraws[i] == waitDraw(i);
    }
  }

  /** `trains.some(t => t.line === line)`. */
  method HasTrainOn(trains: seq<Train>, k: nat) returns (has: bool)
    ensures has == HasTrain(trains, k)
  {
    for i := 0 to |trains|
      invariant forall j :: 0 <= j < i ==> trains[j].line != k
    {
      if trains[i].line == k {
        return true;
      }
    }
    return false;
  }

  /** The loop of `checkTrainSpawning` over the lines in order. */
  method SpawnTrains(lines: seq<MetroLine>, stations: seq<Station>, trains: seq<Train>, now: real,
                     lengthOf: seq<Point> -> real, distanceAlong: (seq<Point>, Point) -> real, waitDraws: seq<real>)
    returns (spawned: seq<Train>)
    requires |waitDraws| >= |lines| && MetroCatalog.Draws(waitDraws)
    requires forall k, i :: 0 <= k < |lines| && 0 <= i < |lines[k].stations| ==> lines[k].stations[i] < |stations|
    ensures spawned == Spawned(lines, stations, trains, |lines|, now, lengthOf, distanceAlong, waitDraws)
  {
    spawned := trains;
    for k := 0 to |lines|
      invariant spawned == Spawned(lines, stations, trains, k, now, lengthOf, distanceAlong, waitDraws)
    {
      var has := HasTrainOn(spawned, k);
      if !has && !lines[k].growing && |lines[k].stations| >= MIN_STATIONS_FOR_TRAIN {
        var line := lines[k];
        var train := CreateTrain(k, line.stations, |line.points|, lengthOf(line.points),
                                 StationDistances(line, stations, distanceAlong), now, waitDraws[k]);
        if train.Some? {
          spawned := spawned + [train.value];
        }
      }
    }
  }

  // ---------------------------------------------------------------------
  // Inputs of `initializeMap` and of the reduced-motion static map

  /**
   * The random draws `initializeMap` takes: the location shuffle and the
   * per-location picks of `selectLinesOnePerLocation`, the palette as its
   * random sort leaves it, and the delay and duration draws of the hub lines.
   */
  datatype InitDraws = InitDraws(shuffle: seq<real>, pick: seq<real>, shuffledColors: seq<string>,
                                 delay: seq<real>, duration: seq<real>)

  predicate InitDrawsOk(d: InitDraws, config: Config, palette: seq<string>)
  {
    MetroCatalog.Draws(d.shuffle) && |d.shuffle| >= 6 && MetroCatalog.Draws(d.pick) && |d.pick| >= 7 &&
    |palette| > 0 && multiset(d.shuffledColors) == multiset(palette) &&
    |d.delay| >= config.initialLines && MetroCatalog.Draws(d.delay) &&
    |d.duration| >= config.initialLines && MetroCatalog.Draws(d.duration)
  }

  /**
   * What `drawStaticMap` reads besides the map: the draws of `initializeMap`,
   * `growth(r, i)` for line `i` in growth round `r`, and the clock, read as
   * `clock(0)` while initializing and as `clock(r + 1)` in round `r`.
   */
  datatype StaticDraws = StaticDraws(init: InitDraws, growth: (nat, nat) -> GrowthDraws, clock: nat -> real)

  ghost predicate StaticDrawsOk(s: StaticDraws, config: Config, palette: seq<string>)
  {
    (config == DESKTOP_CONFIG || config == MOBILE_CONFIG) && InitDrawsOk(s.init, config, palette) &&
    forall r: nat, i: nat :: GrowthDrawsOk(s.growth(r, i))
  }

  /** The most growth rounds `drawStaticMap` runs. */
  const STATIC_ROUNDS: nat := 3000

  /** `lines.every((l) => !l.growing)`. */
  predicate AllStopped(lines: seq<MetroLine>)
  {
    forall k :: 0 <= k < |lines| ==> !lines[k].growing
  }

  /** The growth draws of round `r` for `n` lines. */
  function RoundDraws(growth: (nat, nat) -> GrowthDraws, r: nat, n: nat): (ds: seq<GrowthDraws>)
    ensures |ds| == n && forall i :: 0 <= i < n ==> ds[i] == growth(r, i)
  {
    seq(n, i requires 0 <= i => growth(r, i))
  }

  /**
   * The `i`-th line `initializeMap` creates: at the hub, growing in start
   * direction `i % 4`, owning the hub station when it is the first, delayed
   * 300i to 300i + 200 ms and growing for 1500 to 2500 ms.
   */
  predicate IsHubLine(l: MetroLine, i: nat, hub: Point)
  {
    l.points == [hub, hub] && l.growing &&
    l.currentDirection == START_DIRECTIONS[i % 4] &&
    l.stations == (if i == 0 then [0] else []) &&
    i as real * 300.0 <= l.growthDelay < i as real * 300.0 + 200.0 &&
    1500.0 <= l.growthDuration < 2500.0
  }

  class MetroMap {
    const config: Config
    const bounds: Bounds
    /** The centre of the bounds, where the first lines start. */
    const hubCenter: Point
    /** Whether the page asks for reduced motion: then every redraw is the static map. */
    const prefersReducedMotion: bool

    var lines: seq<MetroLine>
    var allStations: seq<Station>
    var availableColors: seq<string>
    var palette: seq<string>
    var globalOpacity: real
    var globalColorShift: Option<RGB>
    var colorShiftIntensity: real
    var targetColorShiftIntensity: real
    var clickWaves: seq<ClickWave>
    var trains: seq<Train>
    var lastTrainSpawnCheck: real
    var lineIdCounter: nat
    /** One transit line per location, and its colour, chosen by `initializeMap`. */
    var plannedLines: seq<MetroCatalog.TransitLine>
    var plannedColors: seq<string>

    /** What every step keeps, including while a frame's new branches are still pending. */
    ghost predicate Core()
      reads this
    {
      ConfigOk(config) &&
      |palette| > 0 && |plannedLines| > 0 && |plannedColors| == |plannedLines| &&
      LinesOk(lines, |allStations|, bounds, hubCenter) && lineIdCounter >= |lines| &&
      StationsApart(allStations, config.minStationDistance) && ScalesOk(allStations) &&
      TrainsOk(trains, lines) &&
      0.0 <= globalOpacity <= 1.0 && 0.0 <= colorShiftIntensity <= 1.0 && 0.0 <= targetColorShiftIntensity <= 1.0
    }

    /** Between frames every line id handed out belongs to a line in the list: line `k` has id `k`. */
    ghost predicate Valid()
      reads this
    {
      Core() && lineIdCounter == |lines|
    }

    /** The fields `initializeMap` clears, none of which growing the lines touches. */
    ghost predicate Cleared()
      reads this`availableColors, this`palette, this`trains, this`clickWaves, this`lastTrainSpawnCheck,
        this`globalOpacity, this`globalColorShift, this`colorShiftIntensity, this`targetColorShiftIntensity
    {
      availableColors == palette && trains == [] && clickWaves == [] && lastTrainSpawnCheck == 0.0 &&
      globalOpacity == 0.0 && globalColorShift.None? && colorShiftIntensity == 0.0 && targetColorShiftIntensity == 0.0
    }

    /**
     * The planned transit lines: seven, at pairwise distinct locations, all
     * from the catalogue, the i-th coloured by the i-th of the shuffled
     * colours, wrapping round.
     */
    ghost predicate Planned(shuffledColors: seq<string>)
      reads this`plannedLines, this`plannedColors
    {
      |shuffledColors| > 0 &&
      |plannedLines| == 7 && (forall i :: 0 <= i < 7 ==> plannedLines[i] in MetroCatalog.TRANSIT_LINES) &&
      (forall i, j :: 0 <= i < j < 7 ==> plannedLines[i].location != plannedLines[j].location) &&
      |plannedColors| == 7 && forall i :: 0 <= i < 7 ==> plannedColors[i] == shuffledColors[i % |shuffledColors|]
    }

    /**
     * The network `initializeMap` leaves: the hub station alone, and
     * `initialLines` growing lines leaving the hub east, north, west and
     * south in turn, staggered by 300 ms, the first owning the hub.
     */
    ghost predicate HubLines()
      reads this
    {
      allStations == [Station(hubCenter, true, 1.0, 0.0)] &&
      |lines| == config.initialLines &&
      forall i :: 0 <= i < |lines| ==> IsHubLine(lines[i], i, hubCenter)
    }

    /**
     * Mounting the component with `initializeMap`, with `theme` the line
     * colours of the page's theme. The hub is the centre of the bounds.
     */
    constructor (config: Config, bounds: Bounds, theme: seq<string>, reducedMotion: bool, init: InitDraws, now: real)
      requires config == DESKTOP_CONFIG || config == MOBILE_CONFIG
      requires InitDrawsOk(init, config, theme)
      ensures this.config == config && this.bounds == bounds && prefersReducedMotion == reducedMotion
      ensures hubCenter == Point(bounds.left + (bounds.right - bounds.left) * 0.5, bounds.top + (bounds.bottom - bounds.top) * 0.5)
      ensures palette == theme
      ensures Valid() && Cleared() && Planned(init.shuffledColors) && HubLines()
    {
      this.config := config;
      this.bounds := bounds;
      hubCenter := Point(bounds.left + (bounds.right - bounds.left) * 0.5, bounds.top + (bounds.bottom - bounds.top) * 0.5);
      prefersReducedMotion := reducedMotion;
      lines := [];
      allStations := [];
      availableColors := theme;
      palette := theme;
      globalOpacity := 0.0;
      globalColorShift := None;
      colorShiftIntensity := 0.0;
      targetColorShiftIntensity := 0.0;
      clickWaves := [];
      trains := [];
      lastTrainSpawnCheck := 0.0;
      lineIdCounter := 0;
      plannedLines := [];
      plannedColors := [];
      new;
      InitializeMap(init, now);
    }

    /**
     * `initializeMap`: clear the network, the trains, the waves and the
     * colour shift, plan the transit lines afresh from the current palette,
     * and start the hub lines.
     */
    method InitializeMap(init: InitDraws, now: real)
      requires config == DESKTOP_CONFIG || config == MOBILE_CONFIG
      requires InitDrawsOk(init, config, palette)
      modifies this`lines, this`allStations, this`availableColors, this`globalOpacity, this`globalColorShift,
        this`colorShiftIntensity, this`targetColorShiftIntensity, this`clickWaves, this`trains,
        this`lastTrainSpawnCheck, this`lineIdCounter, this`plannedLines, this`plannedColors
      ensures Valid() && Cleared() && Planned(init.shuffledColors) && HubLines()
    {
      ClearMap();
      Plan(init);
      ConfigsOk();
      CreateHubLines(init.delay, init.duration, now);
    }

    /** The resets at the head of `initializeMap`, leaving only the hub station. */
    method ClearMap()
      modifies this`lines, this`allStations, this`availableColors, this`globalOpacity, this`globalColorShift,
        this`colorShiftIntensity, this`targetColorShiftIntensity, this`clickWaves, this`trains,
        this`lastTrainSpawnCheck, this`lineIdCounter
      ensures Cleared() && lines == [] && lineIdCounter == 0 && allStations == [Station(hubCenter, true, 1.0, 0.0)]
    {
      lines := [];
      allStations := [Station(hubCenter, true, 1.0, 0.0)];
      availableColors := palette;
      globalOpacity := 0.0;
      globalColorShift := None;
      colorShiftIntensity := 0.0;
      targetColorShiftIntensity := 0.0;
      clickWaves := [];
      trains := [];
      lastTrainSpawnCheck := 0.0;
      lineIdCounter := 0;
    }

    /** The planning part of `initializeMap`, over the current palette. */
    method Plan(init: InitDraws)
      requires config == DESKTOP_CONFIG || config == MOBILE_CONFIG
      requires InitDrawsOk(init, config, palette)
      modifies this`plannedLines, this`plannedColors
      ensures Planned(init.shuffledColors)
    {
      var selected, colors := PlanTransitLines(config, init.shuffle, init.pick, init.shuffledColors, palette);
      plannedLines := selected;
      plannedColors := colors;
      assert |init.shuffledColors| > 0 by {
        assert |multiset(init.shuffledColors)| == |multiset(palette)|;
      }
    }

    /** The `initialLines` loop of `initializeMap`: lines from the hub, staggered by 300 ms each. */
    method CreateHubLines(delayDraws: seq<real>, durationDraws: seq<real>, now: real)
      requires |plannedLines| > 0 && |plannedColors| == |plannedLines|
      requires lines == [] && lineIdCounter == 0 && allStations == [Station(hubCenter, true, 1.0, 0.0)]
      requires |delayDraws| >= config.initialLines && MetroCatalog.Draws(delayDraws)
      requires |durationDraws| >= config.initialLines && MetroCatalog.Draws(durationDraws)
      modifies this`lines, this`lineIdCounter
      ensures |lines| == config.initialLines && lineIdCounter == |lines|
      ensures LinesOk(lines, 1, bounds, hubCenter)
      ensures forall i :: 0 <= i < |lines| ==> IsHubLine(lines[i], i, hubCenter)
    {
      for i := 0 to config.initialLines
        invariant |lines| == i && lineIdCounter == i
        invariant LinesOk(lines, 1, bounds, hubCenter)
        invariant forall j :: 0 <= j < i ==> IsHubLine(lines[j], j, hubCenter)
      {
        var dir := START_DIRECTIONS[i % 4];
        ScaleBelow(delayDraws[i], 200.0);
        ScaleBelow(durationDraws[i], 1000.0);
        var delay := i as real * 300.0 + Scale(delayDraws[i], 200.0);
        var duration := 1500.0 + Scale(durationDraws[i], 1000.0);
        var line := NextLine(hubCenter, dir, delay, duration, now);
        FreshLineOk(i, plannedLines[i % |plannedLines|], plannedColors[i % |plannedColors|], hubCenter, dir, now,
                    delay, duration, 1, bounds, hubCenter);
        if i == 0 {
          line := line.(stations := [0]);
        }
        assert IsHubLine(line, i, hubCenter);
        lines := lines + [line];
      }
    }

    /** `createLineFromHub` and `createBranchLine` share this: take the next id and build a fresh line for it. */
    method NextLine(start: Point, direction: int, growthDelay: real, growthDuration: real, now: real) returns (line: MetroLine)
      requires |plannedLines| > 0 && |plannedColors| == |plannedLines|
      modifies this`lineIdCounter
      ensures lineIdCounter == old(lineIdCounter) + 1
      ensures line == FreshLine(old(lineIdCounter), plannedLines[old(lineIdCounter) % |plannedLines|],
                                plannedColors[old(lineIdCounter) % |plannedColors|], start, direction, now,
                                growthDelay, growthDuration)
    {
      var id := lineIdCounter;
      lineIdCounter := lineIdCounter + 1;
      line := FreshLine(id, plannedLines[id % |plannedLines|], plannedColors[id % |plannedColors|], start, direction, now,
                        growthDelay, growthDuration);
    }

    // -------------------------------------------------------------------
    // Stations and colours

    /** `canPlaceStation`: false as soon as a station lies strictly closer than `minStationDistance`. */
    method CanPlaceStation(pos: Point) returns (ok: bool)
      ensures ok == CanPlace(allStations, pos, config.minStationDistance)
    {
      var minSq := config.minStationDistance * config.minStationDistance;
      for i := 0 to |allStations|
        invariant forall j :: 0 <= j < i ==> DistSq(pos, allStations[j].pos) >= minSq
      {
        if DistSq(pos, allStations[i].pos) < minSq {
          return false;
        }
      }
      return true;
    }

    /**
     * `addStation` on line `k`: when the position may take a station, a new
     * station (scale 0, created `now`) is appended both to the line and to
     * the station list and the line's distance since its last station is
     * reset; otherwise nothing changes.
     */
    method AddStation(k: nat, pos: Point, isJunction: bool, now: real) returns (placed: bool)
      requires Core() && k < |lines| && !HasTrain(trains, k)
      modifies this`lines, this`allStations
      ensures Core()
      ensures placed == CanPlace(old(allStations), pos, config.minStationDistance)
      ensures placed ==> allStations == old(allStations) + [Station(pos, isJunction, 0.0, now)]
      ensures placed ==> lines == old(lines)[k := old(lines)[k].(stations := old(lines)[k].stations + [|old(allStations)|],
                                                                 lastStationDistance := 0.0)]
      ensures !placed ==> allStations == old(allStations) && lines == old(lines)
    {
      placed := CanPlaceStation(pos);
      if placed {
        var station := Station(pos, isJunction, 0.0, now);
        var line := lines[k].(stations := lines[k].stations + [|allStations|], lastStationDistance := 0.0);
        PlaceKeepsApart(allStations, station, config.minStationDistance);
        LinesOkMoreStations(lines, |allStations|, |allStations| + 1, bounds, hubCenter);
        TrainsOkUpdate(trains, lines, k, line);
        lines := lines[k := line];
        allStations := allStations + [station];
      }
    }

    /**
     * `getNextColor`: refill the pool from the palette when it is empty,
     * then take out the entry the draw lands on; the colour and the pool
     * left behind make up the pool it was taken from.
     */
    method GetNextColor(r: real) returns (color: string)
      requires |palette| > 0 && Draw(r)
      modifies this`availableColors
      ensures var pool := if old(availableColors) == [] then palette else old(availableColors);
        color == pool[RandomIndex(r, |pool|)] && availableColors == Without(pool, RandomIndex(r, |pool|))
      ensures multiset(availableColors) + multiset{color} ==
        multiset(if old(availableColors) == [] then palette else old(availableColors))
    {
      if |availableColors| == 0 {
        availableColors := palette;
      }
      var index := RandomIndex(r, |availableColors|);
      color := availableColors[index];
      availableColors := Without(availableColors, index);
    }

    /** `updateStations`: every station below full size grows by one step, positions stay. */
    method UpdateStations()
      requires Core()
      modifies this`allStations
      ensures Core()
      ensures |allStations| == |old(allStations)|
      ensures forall i :: 0 <= i < |allStations| ==>
        allStations[i] == old(allStations)[i].(scale := GrowScale(old(allStations)[i].scale))
    {
      var grown := allStations;
      for i := 0 to |grown|
        invariant |grown| == |allStations|
        invariant forall j :: 0 <= j < i ==> grown[j] == allStations[j].(scale := GrowScale(allStations[j].scale))
        invariant forall j :: i <= j < |grown| ==> grown[j] == allStations[j]
      {
        grown := grown[i := grown[i].(scale := GrowScale(grown[i].scale))];
      }
      GrownStationsOk(allStations, grown, config.minStationDistance);
      allStations := grown;
    }

    /** `updateClickWaves`. */
    method UpdateClickWaves(now: real)
      modifies this`clickWaves
      ensures clickWaves == KeptWaves(old(clickWaves), now)
    {
      var kept: seq<ClickWave> := [];
      for i := 0 to |clickWaves|
        invariant kept == KeptWaves(clickWaves[..i], now)
      {
        assert clickWaves[..i + 1][..i] == clickWaves[..i];
        var wave := clickWaves[i];
        var elapsed := now - wave.startTime;
        if elapsed <= WAVE_DURATION {
          kept := kept + [wave.(radius := elapsed / 1000.0 * WAVE_SPEED)];
        }
      }
      assert clickWaves[..|clickWaves|] == clickWaves;
      clickWaves := kept;
    }

    /** The station part of `handleClick`: a click on a station starts a wave at that station. */
    method HandleClick(clickPos: Point, now: real)
      modifies this`clickWaves
      ensures var hit := FirstNear(allStations, clickPos, config.hoverHitRadius);
        clickWaves == old(clickWaves) + (if hit.Some? then [ClickWave(allStations[hit.value].pos, now, 0.0)] else [])
    {
      var hit := StationAt(clickPos);
      if hit.Some? {
        clickWaves := clickWaves + [ClickWave(allStations[hit.value].pos, now, 0.0)];
      }
    }

    /** The station search of `handleClick`: the first station strictly within `hoverHitRadius` of the click. */
    method StationAt(clickPos: Point) returns (hit: Option<nat>)
      ensures hit == FirstNear(allStations, clickPos, config.hoverHitRadius)
    {
      var radiusSq := config.hoverHitRadius * config.hoverHitRadius;
      for i := 0 to |allStations|
        invariant forall j :: 0 <= j < i ==> DistSq(clickPos, allStations[j].pos) >= radiusSq
      {
        if DistSq(clickPos, allStations[i].pos) < radiusSq {
          FirstNearAt(allStations, clickPos, config.hoverHitRadius, i);
          return Some(i);
        }
      }
      FirstNearNone(allStations, clickPos, config.hoverHitRadius);
      return None;
    }

    // -------------------------------------------------------------------
    // Colours

    /** The loop the colour handlers share: every line's target colour becomes `Retarget` of it. */
    method RetargetLines(shift: Option<RGB>, amount: real)
      requires Core()
      modifies this`lines
      ensures Core()
      ensures |lines| == |old(lines)| && forall k :: 0 <= k < |lines| ==> lines[k] == Retarget(old(lines)[k], shift, amount)
    {
      var before := lines;
      var retargeted := before;
      for k := 0 to |retargeted|
        invariant |retargeted| == |before|
        invariant forall j :: 0 <= j < k ==> retargeted[j] == Retarget(before[j], shift, amount)
        invariant forall j :: k <= j < |retargeted| ==> retargeted[j] == before[j]
      {
        retargeted := retargeted[k := Retarget(retargeted[k], shift, amount)];
      }
      RecolouredOk(before, retargeted, trains, |allStations|, bounds, hubCenter);
      lines := retargeted;
    }

    /** The first loop of `updateColors`: every line's colour moves `COLOR_LERP_SPEED` of the way to its target. */
    method LerpLineColors()
      requires Core()
      modifies this`lines
      ensures Core()
      ensures |lines| == |old(lines)|
      ensures forall k :: 0 <= k < |lines| ==>
        lines[k] == old(lines)[k].(currentColor := LerpColor(old(lines)[k].currentColor, old(lines)[k].targetColor, COLOR_LERP_SPEED))
    {
      var before := lines;
      var lerped := before;
      for k := 0 to |lerped|
        invariant |lerped| == |before|
        invariant forall j :: 0 <= j < k ==>
          lerped[j] == before[j].(currentColor := LerpColor(before[j].currentColor, before[j].targetColor, COLOR_LERP_SPEED))
        invariant forall j :: k <= j < |lerped| ==> lerped[j] == before[j]
      {
        lerped := lerped[k := lerped[k].(currentColor := LerpColor(lerped[k].currentColor, lerped[k].targetColor, COLOR_LERP_SPEED))];
      }
      RecolouredOk(before, lerped, trains, |allStations|, bounds, hubCenter);
      lines := lerped;
    }

    /**
     * `updateColors`: every line's colour moves 3% of the way to its target,
     * the shift intensity moves towards its target and the target decays.
     */
    method UpdateColors()
      requires Core()
      modifies this`lines, this`colorShiftIntensity, this`targetColorShiftIntensity
      ensures Core()
      ensures |lines| == |old(lines)|
      ensures forall k :: 0 <= k < |lines| ==>
        lines[k] == old(lines)[k].(currentColor := LerpColor(old(lines)[k].currentColor, old(lines)[k].targetColor, COLOR_LERP_SPEED))
      ensures colorShiftIntensity == ShiftStep(old(colorShiftIntensity), old(targetColorShiftIntensity))
      ensures targetColorShiftIntensity == DecayTarget(old(targetColorShiftIntensity))
    {
      LerpLineColors();
      colorShiftIntensity := colorShiftIntensity + (targetColorShiftIntensity - colorShiftIntensity) * COLOR_SHIFT_LERP_SPEED;
      if targetColorShiftIntensity > 0.0 {
        targetColorShiftIntensity := targetColorShiftIntensity - COLOR_SHIFT_DECAY;
        if targetColorShiftIntensity < 0.0 {
          targetColorShiftIntensity := 0.0;
        }
      }
    }

    /** Everything but the line colours, the palette and the colour shift is as before. */
    twostate predicate MapKept()
      reads this
    {
      allStations == old(allStations) && availableColors == old(availableColors) && globalOpacity == old(globalOpacity) &&
      clickWaves == old(clickWaves) && trains == old(trains) && lastTrainSpawnCheck == old(lastTrainSpawnCheck) &&
      lineIdCounter == old(lineIdCounter) && plannedLines == old(plannedLines) && plannedColors == old(plannedColors)
    }

    /**
     * `handleColorChange`: shift towards the new colour at full strength,
     * line targets a quarter of the way. Under reduced motion the handler
     * then redraws the static map, whose `initializeMap` clears the shift
     * again and replaces every line.
     */
    method HandleColorChange(detail: string, s: StaticDraws, weight: (Point, int) -> real, score: (Point, int) -> real)
      requires Core()
      requires prefersReducedMotion ==> StaticDrawsOk(s, config, palette) && forall p, dir :: weight(p, dir) > 0.0
      modifies this`lines, this`allStations, this`availableColors, this`globalOpacity, this`globalColorShift,
        this`colorShiftIntensity, this`targetColorShiftIntensity, this`clickWaves, this`trains,
        this`lastTrainSpawnCheck, this`lineIdCounter, this`plannedLines, this`plannedColors
      ensures Core()
      ensures !prefersReducedMotion ==>
        globalColorShift == Some(ParseColor(detail)) && targetColorShiftIntensity == 1.0 &&
        |lines| == |old(lines)| && (forall k :: 0 <= k < |lines| ==> lines[k] == Retarget(old(lines)[k], globalColorShift, 0.25)) &&
        colorShiftIntensity == old(colorShiftIntensity) && MapKept()
      ensures prefersReducedMotion ==> StaticMap(s.init.shuffledColors)
    {
      ShiftLines(ParseColor(detail));
      if prefersReducedMotion {
        var _ := DrawStaticMap(s, weight, score);
      }
    }

    /** The colour part of `handleColorChange`: the shift at full strength, line targets a quarter of the way. */
    method ShiftLines(newColor: RGB)
      requires Core()
      modifies this`globalColorShift, this`targetColorShiftIntensity, this`lines
      ensures Core() && globalColorShift == Some(newColor) && targetColorShiftIntensity == 1.0
      ensures MapKept()
      ensures |lines| == |old(lines)| && forall k :: 0 <= k < |lines| ==> lines[k] == Retarget(old(lines)[k], globalColorShift, 0.25)
    {
      SetShift(newColor);
      RetargetLines(globalColorShift, 0.25);
    }

    /** The shift becomes `newColor`, with a target strength of 1. */
    method SetShift(newColor: RGB)
      requires Core()
      modifies this`globalColorShift, this`targetColorShiftIntensity
      ensures Core() && globalColorShift == Some(newColor) && targetColorShiftIntensity == 1.0
    {
      globalColorShift := Some(newColor);
      targetColorShiftIntensity := 1.0;
    }

    /**
     * The colour average of `handlePalette`: a third of each parsed colour,
     * summed channel by channel from black (so fewer than three colours give
     * a darker average).
     */
    method AverageColor(colors: seq<string>) returns (avgColor: RGB)
      ensures avgColor == ThirdsSum(ParsedColors(colors))
    {
      avgColor := RGB(Fin(0.0), Fin(0.0), Fin(0.0));
      for i := 0 to |colors|
        invariant avgColor == ThirdsSum(ParsedColors(colors[..i]))
      {
        assert ParsedColors(colors[..i + 1])[..i] == ParsedColors(colors[..i]);
        var rgb := ParseColor(colors[i]);
        avgColor := RGB(Add(avgColor.r, Mul(rgb.r, 1.0 / 3.0)), Add(avgColor.g, Mul(rgb.g, 1.0 / 3.0)),
                        Add(avgColor.b, Mul(rgb.b, 1.0 / 3.0)));
      }
      assert colors[..|colors|] == colors;
    }

    /**
     * `handlePalette`: an empty list is ignored; otherwise the palette
     * becomes the first five colours and three defaults, and the shift, at
     * strength 0.8, is the sum of a third of each of the first three
     * colours, line targets moving a fifth of the way towards it.
     */
    method HandlePalette(detail: seq<string>)
      requires Core()
      modifies this`palette, this`globalColorShift, this`targetColorShiftIntensity, this`lines
      ensures Core()
      ensures |detail| == 0 ==> (palette == old(palette) && globalColorShift == old(globalColorShift) &&
        targetColorShiftIntensity == old(targetColorShiftIntensity) && lines == old(lines))
      ensures |detail| > 0 ==> (
        palette == detail[..if |detail| < 5 then |detail| else 5] + DEFAULT_COLORS[..3] &&
        globalColorShift == Some(ThirdsSum(ParsedColors(detail[..if |detail| < 3 then |detail| else 3]))) &&
        targetColorShiftIntensity == 0.8 &&
        |lines| == |old(lines)| && forall k :: 0 <= k < |lines| ==> lines[k] == Retarget(old(lines)[k], globalColorShift, 0.2))
    {
      if |detail| > 0 {
        palette := detail[..if |detail| < 5 then |detail| else 5] + DEFAULT_COLORS[..3];
        var avgColor := AverageColor(detail[..if |detail| < 3 then |detail| else 3]);
        globalColorShift := Some(avgColor);
        targetColorShiftIntensity := 0.8;
        RetargetLines(globalColorShift, 0.2);
      }
    }

    /**
     * `handleColorReset`: default palette, no shift, every line back to its
     * base colour; under reduced motion, then the static map drawn afresh
     * from the default palette.
     */
    method HandleColorReset(s: StaticDraws, weight: (Point, int) -> real, score: (Point, int) -> real)
      requires Core()
      requires prefersReducedMotion ==> StaticDrawsOk(s, config, DEFAULT_COLORS) && forall p, dir :: weight(p, dir) > 0.0
      modifies this`palette, this`lines, this`allStations, this`availableColors, this`globalOpacity, this`globalColorShift,
        this`colorShiftIntensity, this`targetColorShiftIntensity, this`clickWaves, this`trains,
        this`lastTrainSpawnCheck, this`lineIdCounter, this`plannedLines, this`plannedColors
      ensures Core() && palette == DEFAULT_COLORS
      ensures !prefersReducedMotion ==>
        globalColorShift == None && colorShiftIntensity == 0.0 && targetColorShiftIntensity == 0.0 &&
        |lines| == |old(lines)| && (forall k :: 0 <= k < |lines| ==> lines[k] == Retarget(old(lines)[k], None, 0.0)) &&
        MapKept()
      ensures prefersReducedMotion ==> StaticMap(s.init.shuffledColors)
    {
      ResetColors();
      if prefersReducedMotion {
        var _ := DrawStaticMap(s, weight, score);
      }
    }

    /** The colour part of `handleColorReset`: default palette, no shift, every line back to its base colour. */
    method ResetColors()
      requires Core()
      modifies this`palette, this`globalColorShift, this`colorShiftIntensity, this`targetColorShiftIntensity, this`lines
      ensures Core()
      ensures MapKept()
      ensures palette == DEFAULT_COLORS && globalColorShift == None
      ensures colorShiftIntensity == 0.0 && targetColorShiftIntensity == 0.0
      ensures |lines| == |old(lines)| && forall k :: 0 <= k < |lines| ==> lines[k] == Retarget(old(lines)[k], None, 0.0)
    {
      palette := DEFAULT_COLORS;
      globalColorShift := None;
      colorShiftIntensity := 0.0;
      targetColorShiftIntensity := 0.0;
      RetargetLines(None, 0.0);
    }

    /** `handleNewViz`, and the tail of mounting: under reduced motion the static map is drawn afresh; otherwise nothing happens. */
    method HandleNewViz(s: StaticDraws, weight: (Point, int) -> real, score: (Point, int) -> real)
      requires Core()
      requires prefersReducedMotion ==> StaticDrawsOk(s, config, palette) && forall p, dir :: weight(p, dir) > 0.0
      modifies this`lines, this`allStations, this`availableColors, this`globalOpacity, this`globalColorShift,
        this`colorShiftIntensity, this`targetColorShiftIntensity, this`clickWaves, this`trains,
        this`lastTrainSpawnCheck, this`lineIdCounter, this`plannedLines, this`plannedColors
      ensures Core()
      ensures !prefersReducedMotion ==> unchanged(this)
      ensures prefersReducedMotion ==> StaticMap(s.init.shuffledColors)
    {
      if prefersReducedMotion {
        var _ := DrawStaticMap(s, weight, score);
      }
    }

    // -------------------------------------------------------------------
    // The reduced-motion static map

    /**
     * The map `drawStaticMap` leaves: freshly initialized and planned, with
     * the shift, the trains and the waves cleared, the hub first among the
     * stations, the hub lines first among the lines, and every station at
     * full scale.
     */
    ghost predicate StaticMap(shuffledColors: seq<string>)
      reads this
    {
      Valid() && Cleared() && Planned(shuffledColors) &&
      |lines| >= config.initialLines && |allStations| > 0 && allStations[0] == Station(hubCenter, true, 1.0, 0.0) &&
      forall i :: 0 <= i < |allStations| ==> allStations[i].scale == 1.0
    }

    /**
     * `drawStaticMap`, drawing left out: `initializeMap`, then growth rounds
     * over every line, each appending the branches it spawned, until no line
     * grows or 3000 rounds have run, then every station at full scale.
     * `rounds` is the number of growth rounds run.
     */
    method DrawStaticMap(s: StaticDraws, weight: (Point, int) -> real, score: (Point, int) -> real) returns (rounds: nat)
      requires StaticDrawsOk(s, config, palette)
      requires forall p, dir :: weight(p, dir) > 0.0
      modifies this`lines, this`allStations, this`availableColors, this`globalOpacity, this`globalColorShift,
        this`colorShiftIntensity, this`targetColorShiftIntensity, this`clickWaves, this`trains,
        this`lastTrainSpawnCheck, this`lineIdCounter, this`plannedLines, this`plannedColors
      ensures Core() && StaticMap(s.init.shuffledColors) && palette == old(palette)
      ensures 1 <= rounds <= STATIC_ROUNDS
      ensures rounds < STATIC_ROUNDS ==> AllStopped(lines)
    {
      InitializeMap(s.init, s.clock(0));
      rounds := GrowUntilStopped(s, weight, score);
      SetFullScale();
    }

    /**
     * The growth loop of `drawStaticMap`: round `r` updates every line at
     * `clock(r + 1)` and appends the branches, stopping after the first round
     * that leaves no line growing, or after 3000 rounds. The hub station and
     * the hub lines stay first.
     */
    method GrowUntilStopped(s: StaticDraws, weight: (Point, int) -> real, score: (Point, int) -> real) returns (rounds: nat)
      requires Valid() && |lines| >= config.initialLines && |allStations| > 0
      requires forall r: nat, i: nat :: GrowthDrawsOk(s.growth(r, i))
      requires forall p, dir :: weight(p, dir) > 0.0
      modifies this`lines, this`allStations, this`lineIdCounter
      ensures Valid() && |lines| >= config.initialLines
      ensures |allStations| > 0 && allStations[0] == old(allStations)[0]
      ensures 1 <= rounds <= STATIC_ROUNDS
      ensures rounds < STATIC_ROUNDS ==> AllStopped(lines)
    {
      rounds := 0;
      while rounds < STATIC_ROUNDS
        invariant Valid() && rounds <= STATIC_ROUNDS
        invariant |lines| >= config.initialLines && |allStations| > 0 && allStations[0] == old(allStations)[0]
        decreases STATIC_ROUNDS - rounds
      {
        GrowLines(s.clock(rounds + 1), RoundDraws(s.growth, rounds, |lines|), weight, score);
        rounds := rounds + 1;
        if AllStopped(lines) {
          break;
        }
      }
    }

    /** The last loop of `drawStaticMap`: every station at full scale, positions kept. */
    method SetFullScale()
      requires Core()
      modifies this`allStations
      ensures Core() && |allStations| == |old(allStations)|
      ensures forall i :: 0 <= i < |allStations| ==> allStations[i] == old(allStations)[i].(scale := 1.0)
    {
      var full := allStations;
      for i := 0 to |full|
        invariant |full| == |allStations|
        invariant forall j :: 0 <= j < i ==> full[j] == allStations[j].(scale := 1.0)
        invariant forall j :: i <= j < |full| ==> full[j] == allStations[j]
      {
        full := full[i := full[i].(scale := 1.0)];
      }
      FullScaleStationsOk(allStations, full, config.minStationDistance);
      allStations := full;
    }

    // -------------------------------------------------------------------
    // Trains

    /**
     * `checkTrainSpawning`: at most once per 500 ms, visit the lines in
     * order and give each line without a train that has stopped growing and
     * has two stations or more the train `createTrain` makes for it. The
     * line length and the station projections are supplied as `lengthOf`
     * and `distanceAlong`; a projection lies on the line.
     */
    method CheckTrainSpawning(now: real, lengthOf: seq<Point> -> real, distanceAlong: (seq<Point>, Point) -> real,
                              waitDraws: seq<real>)
      requires Core() && |waitDraws| >= |lines| && MetroCatalog.Draws(waitDraws)
      requires forall pts, p :: 0.0 <= distanceAlong(pts, p) <= lengthOf(pts)
      modifies this`trains, this`lastTrainSpawnCheck
      ensures Core()
      ensures now - old(lastTrainSpawnCheck) < SPAWN_CHECK_INTERVAL ==>
        trains == old(trains) && lastTrainSpawnCheck == old(lastTrainSpawnCheck)
      ensures now - old(lastTrainSpawnCheck) >= SPAWN_CHECK_INTERVAL ==> (lastTrainSpawnCheck == now &&
        trains == Spawned(lines, allStations, old(trains), |lines|, now, lengthOf, distanceAlong, waitDraws))
    {
      if now - lastTrainSpawnCheck < SPAWN_CHECK_INTERVAL {
        return;
      }
      lastTrainSpawnCheck := now;
      var before := trains;
      var spawned := SpawnTrains(lines, allStations, before, now, lengthOf, distanceAlong, waitDraws);
      SpawnedOk(lines, allStations, before, |lines|, now, lengthOf, distanceAlong, waitDraws);
      trains := spawned;
    }

    /** `updateTrains`: one tick for every train, in place. */
    method UpdateTrains(now: real, waitDraws: seq<real>)
      requires Core() && |waitDraws| >= |trains| && MetroCatalog.Draws(waitDraws)
      modifies this`trains
      ensures Core()
      ensures |trains| == |old(trains)|
      ensures forall i :: 0 <= i < |trains| ==> trains[i] == TrainTick(old(trains)[i], lines, now, waitDraws[i])
    {
      var before := trains;
      var ticked := before;
      for i := 0 to |ticked|
        invariant |ticked| == |before|
        invariant forall j :: 0 <= j < i ==> ticked[j] == TrainTick(before[j], lines, now, waitDraws[j])
        invariant forall j :: i <= j < |ticked| ==> ticked[j] == before[j]
      {
        var t := ticked[i];
        if |lines[t.line].points| < 2 {
          continue;
        }
        var next := StepTrain(t, lines[t.line].stations, now, waitDraws[i]);
        ticked := ticked[i := next];
      }
      TickedTrainsOk(before, ticked, lines, now, waitDraws);
      trains := ticked;
    }

    // -------------------------------------------------------------------
    // Growth: choosing directions

    /**
     * `isDirectionParallelToNearbyLines`: some segment of another line has
     * its midpoint within 80 of `position` and runs along the axis of `dir`.
     */
    method IsDirectionParallelToNearbyLines(k: nat, position: Point, dir: int) returns (parallel: bool)
      requires k < |lines|
      ensures parallel == ParallelNearby(lines, k, position, dir)
    {
      for o := 0 to |lines|
        invariant forall o', j :: 0 <= o' < o && 0 <= j && j + 1 < |lines[o'].points| ==>
          !ParallelAt(lines, k, position, dir, o', j)
      {
        if lines[o].id == lines[k].id {
          continue;
        }
        var points := lines[o].points;
        var j := 0;
        while j + 1 < |points|
          invariant forall j' :: 0 <= j' < j && j' + 1 < |points| ==> !ParallelAt(lines, k, position, dir, o, j')
          decreases |points| - j
        {
          if DistSq(position, Midpoint(points[j], points[j + 1])) > PARALLEL_AVOIDANCE_DISTANCE * PARALLEL_AVOIDANCE_DISTANCE {
            j := j + 1;
            continue;
          }
          var otherDir := SegmentDirectionAsWritten(points[j], points[j + 1]);
          if otherDir == dir || otherDir == (dir + 4) % 8 {
            assert ParallelAt(lines, k, position, dir, o, j);
            return true;
          }
          j := j + 1;
        }
      }
      return false;
    }

    /**
     * `wouldCrossExistingLine`: a segment from `start` along `dir` strictly
     * crosses a segment of any line, the growing one included, that lies
     * within two segment lengths and does not touch `start`.
     */
    method WouldCrossExistingLine(start: Point, dir: int) returns (crosses: bool)
      requires IsDirection(dir)
      ensures crosses == CrossesExisting(lines, start, dir, config.segmentLength)
    {
      for o := 0 to |lines|
        invariant forall o', j :: 0 <= o' < o && 0 <= j && j + 1 < |lines[o'].points| ==>
          !CrossAt(lines, start, dir, config.segmentLength, o', j)
      {
        var j := CrossingOn(o, start, dir);
        if j.Some? {
          return true;
        }
      }
      return false;
    }

    /** The inner loop of `wouldCrossExistingLine`: the first segment of line `o` that the new segment crosses. */
    method CrossingOn(o: nat, start: Point, dir: int) returns (r: Option<nat>)
      requires IsDirection(dir) && o < |lines|
      ensures r.Some? ==> r.value + 1 < |lines[o].points| && CrossAt(lines, start, dir, config.segmentLength, o, r.value)
      ensures r.None? ==> forall j :: 0 <= j && j + 1 < |lines[o].points| ==> !CrossAt(lines, start, dir, config.segmentLength, o, j)
    {
      var points := lines[o].points;
      var j := 0;
      while j + 1 < |points|
        invariant forall j' :: 0 <= j' < j && j' + 1 < |points| ==> !CrossAt(lines, start, dir, config.segmentLength, o, j')
        decreases |points| - j
      {
        // near the start (midpoint within two segment lengths), not sharing the junction, and strictly crossing
        if CrossAt(lines, start, dir, config.segmentLength, o, j) {
          return Some(j);
        }
        j := j + 1;
      }
      return None;
    }

    /** The first filter: the directions not parallel to a nearby line, in order. */
    method FilterNonParallel(k: nat, position: Point, dirs: seq<int>) returns (r: seq<int>)
      requires k < |lines|
      ensures r == NonParallel(lines, k, position, dirs)
    {
      r := [];
      for i := 0 to |dirs|
        invariant r == NonParallel(lines, k, position, dirs[..i])
      {
        NonParallelStep(lines, k, position, dirs, i);
        var parallel := IsDirectionParallelToNearbyLines(k, position, dirs[i]);
        if !parallel {
          r := r + [dirs[i]];
        }
      }
      assert dirs[..|dirs|] == dirs;
    }

    /** The second filter: the directions whose next segment crosses no line, in order. */
    method FilterNonCrossing(position: Point, dirs: seq<int>) returns (r: seq<int>)
      requires AllDirections(dirs)
      ensures r == NonCrossing(lines, position, dirs, config.segmentLength)
    {
      r := [];
      for i := 0 to |dirs|
        invariant r == NonCrossing(lines, position, dirs[..i], config.segmentLength)
      {
        NonCrossingStep(lines, position, dirs, i, config.segmentLength);
        var crosses := WouldCrossExistingLine(position, dirs[i]);
        if !crosses {
          r := r + [dirs[i]];
        }
      }
      assert dirs[..|dirs|] == dirs;
    }

    /** Both filters and the fallback chain, as `updateLine` applies them to `dirs`. */
    method FilterDirections(k: nat, position: Point, dirs: seq<int>) returns (r: seq<int>)
      requires k < |lines| && AllDirections(dirs)
      ensures r == Candidates(lines, k, position, dirs, config.segmentLength)
      ensures AllDirections(r) && (forall d :: d in r ==> d in dirs) && (|dirs| > 0 ==> |r| > 0)
    {
      var nonParallel := FilterNonParallel(k, position, dirs);
      var nonCrossing := FilterNonCrossing(position, nonParallel);
      r := Fallback(nonCrossing, nonParallel, dirs);
      CandidatesSpec(lines, k, position, dirs, config.segmentLength);
      forall i | 0 <= i < |r|
        ensures IsDirection(r[i])
      {
        assert r[i] in r;
      }
    }

    /**
     * The turn at the end of a segment: the continue directions (ahead five
     * times in seven, or 45 degrees either way) after the filters, then the
     * weighted wheel over them with `weights[d]` the weight of direction `d`.
     */
    method ChooseDirection(k: nat, position: Point, weights: seq<real>, draw: real) returns (newDir: int)
      requires k < |lines| && IsDirection(lines[k].currentDirection)
      requires |weights| == 8 && AllPositive(weights) && Draw(draw)
      ensures var c := Candidates(lines, k, position, ContinueDirections(lines[k].currentDirection), config.segmentLength);
        newDir in c && (|c| >= 2 ==> newDir == c[PickIndex(WeightsOf(c, weights), WheelTarget(draw, WeightsOf(c, weights)))])
      ensures IsDirection(newDir) && Turn(lines[k].currentDirection, newDir) in {0, 1, 7}
    {
      var continueDirs := ContinueDirections(lines[k].currentDirection);
      var available := FilterDirections(k, position, continueDirs);
      var w := WeightsOf(available, weights);
      newDir := SelectWeightedDirection(available, w, draw);
      assert newDir in continueDirs;
      ContinueDirectionsTurns(lines[k].currentDirection);
    }

    /**
     * The branch attempt of `updateLine` at `position`, the end of a
     * segment of line `k`. It is made only while there are fewer than
     * `maxLines` lines, the line has grown `minBranchDistance` since its last
     * branch and the draw is below `BRANCH_PROBABILITY`. Then the branch
     * directions are tried best first; at the first whose test point a
     * segment away is in bounds the branch distance is reset and a junction
     * station is placed, and when it can be placed a branch line leaves from
     * `position` in that direction. When it cannot, no later direction can
     * place it either.
     */
    method TryBranch(k: nat, position: Point, d: GrowthDraws, scores: seq<real>, now: real) returns (branch: Option<MetroLine>)
      requires Core() && k < |lines| && !HasTrain(trains, k) && InBounds(position, bounds) && GrowthDrawsOk(d)
      modifies this`lines, this`allStations, this`lineIdCounter
      ensures Core() && |lines| == |old(lines)|
      ensures var attempt := |old(lines)| < config.maxLines &&
          old(lines)[k].lastBranchDistance >= config.minBranchDistance && d.branch < BRANCH_PROBABILITY;
        var order := BranchOrder(old(lines), k, position, scores, config.segmentLength);
        var first := FirstInBounds(order, position, config.segmentLength, bounds);
        var placeable := CanPlace(old(allStations), position, config.minStationDistance);
        ((!attempt || first.None?) ==>
          branch.None? && lines == old(lines) && allStations == old(allStations) && lineIdCounter == old(lineIdCounter)) &&
        ((attempt && first.Some? && !placeable) ==>
          branch.None? && lines == old(lines)[k := old(lines)[k].(lastBranchDistance := 0.0)] &&
          allStations == old(allStations) && lineIdCounter == old(lineIdCounter)) &&
        ((attempt && first.Some? && placeable) ==>
          lines == old(lines)[k := old(lines)[k].(lastBranchDistance := 0.0, stations := old(lines)[k].stations + [|old(allStations)|],
                                                  lastStationDistance := 0.0)] &&
          allStations == old(allStations) + [Station(position, true, 0.0, now)] &&
          lineIdCounter == old(lineIdCounter) + 1 &&
          branch == Some(FreshLine(old(lineIdCounter), plannedLines[old(lineIdCounter) % |plannedLines|],
                                   plannedColors[old(lineIdCounter) % |plannedColors|], position, order[first.value], now,
                                   200.0 + Scale(d.branchDelay, 600.0), 1200.0 + Scale(d.branchDuration, 800.0))))
      ensures branch.Some? ==> LineOk(branch.value, old(lineIdCounter), |allStations|, bounds, hubCenter) && branch.value.growing
      ensures branch.Some? ==> 200.0 <= branch.value.growthDelay < 800.0 && 1200.0 <= branch.value.growthDuration < 2000.0
    {
      branch := None;
      if !(|lines| < config.maxLines && lines[k].lastBranchDistance >= config.minBranchDistance && d.branch < BRANCH_PROBABILITY) {
        return;
      }
      var candidates := FilterDirections(k, position, BranchDirections(lines[k].currentDirection));
      var sorted := SortBy(candidates, ScoreKey(scores));
      assert sorted == BranchOrder(lines, k, position, scores, config.segmentLength);
      branch := BranchLoop(k, position, sorted, d, now);
    }

    /**
     * The loop over the sorted branch directions: the first whose test
     * point is in bounds decides; later ones retry the same junction, which
     * cannot be placed either.
     */
    method BranchLoop(k: nat, position: Point, sorted: seq<int>, d: GrowthDraws, now: real) returns (branch: Option<MetroLine>)
      requires Core() && k < |lines| && !HasTrain(trains, k) && InBounds(position, bounds) && GrowthDrawsOk(d)
      requires AllDirections(sorted)
      modifies this`lines, this`allStations, this`lineIdCounter
      ensures Core() && |lines| == |old(lines)|
      ensures var first := FirstInBounds(sorted, position, config.segmentLength, bounds);
        first.None? ==> branch.None? && lines == old(lines) && allStations == old(allStations) && lineIdCounter == old(lineIdCounter)
      ensures var first := FirstInBounds(sorted, position, config.segmentLength, bounds);
        (first.Some? && !CanPlace(old(allStations), position, config.minStationDistance)) ==>
          (branch.None? && lines == old(lines)[k := old(lines)[k].(lastBranchDistance := 0.0)] &&
           allStations == old(allStations) && lineIdCounter == old(lineIdCounter))
      ensures var first := FirstInBounds(sorted, position, config.segmentLength, bounds);
        (first.Some? && CanPlace(old(allStations), position, config.minStationDistance)) ==>
          (lines == old(lines)[k := old(lines)[k].(lastBranchDistance := 0.0, stations := old(lines)[k].stations + [|old(allStations)|],
                                                   lastStationDistance := 0.0)] &&
           allStations == old(allStations) + [Station(position, true, 0.0, now)] &&
           lineIdCounter == old(lineIdCounter) + 1 &&
           branch == Some(FreshLine(old(lineIdCounter), plannedLines[old(lineIdCounter) % |plannedLines|],
                                    plannedColors[old(lineIdCounter) % |plannedColors|], position, sorted[first.value], now,
                                    200.0 + Scale(d.branchDelay, 600.0), 1200.0 + Scale(d.branchDuration, 800.0))))
      ensures branch.Some? ==> LineOk(branch.value, old(lineIdCounter), |allStations|, bounds, hubCenter) && branch.value.growing
      ensures branch.Some? ==> 200.0 <= branch.value.growthDelay < 800.0 && 1200.0 <= branch.value.growthDuration < 2000.0
    {
      ghost var lines0 := lines;
      ghost var first := FirstInBounds(sorted, position, config.segmentLength, bounds);
      ghost var tried := false;
      for i := 0 to |sorted|
        invariant Core() && allStations == old(allStations) && lineIdCounter == old(lineIdCounter)
        invariant !tried ==> lines == lines0 && forall j :: 0 <= j < i ==> !InBounds(Advance(position, sorted[j], config.segmentLength), bounds)
        invariant tried ==> (first.Some? && lines == lines0[k := lines0[k].(lastBranchDistance := 0.0)] &&
          !CanPlace(allStations, position, config.minStationDistance))
      {
        if InBounds(Advance(position, sorted[i], config.segmentLength), bounds) {
          if !tried {
            FirstInBoundsAt(sorted, position, config.segmentLength, bounds, i);
          }
          var placed := ResetAndPlaceJunction(k, position, now);
          if placed {
            var line := CreateBranchLine(position, sorted[i], d, now);
            return Some(line);
          }
          tried := true;
        }
      }
      return None;
    }

    /** One in-bounds attempt of the branch loop: reset the branch distance, then try the junction station. */
    method ResetAndPlaceJunction(k: nat, position: Point, now: real) returns (placed: bool)
      requires Core() && k < |lines| && !HasTrain(trains, k)
      modifies this`lines, this`allStations
      ensures Core()
      ensures placed == CanPlace(old(allStations), position, config.minStationDistance)
      ensures placed ==> (lines == old(lines)[k := old(lines)[k].(lastBranchDistance := 0.0, stations := old(lines)[k].stations + [|old(allStations)|],
                                                                  lastStationDistance := 0.0)] &&
        allStations == old(allStations) + [Station(position, true, 0.0, now)])
      ensures !placed ==> lines == old(lines)[k := old(lines)[k].(lastBranchDistance := 0.0)] && allStations == old(allStations)
    {
      var reset := lines[k].(lastBranchDistance := 0.0);
      TrainsOkUpdate(trains, lines, k, reset);
      assert LineOk(reset, k, |allStations|, bounds, hubCenter);
      lines := lines[k := reset];
      placed := AddStation(k, position, true, now);
    }

    /** `createBranchLine`: the next id, a fresh growing line from `position`, waiting 200 to 800 ms and growing for 1.2 to 2 s. */
    method CreateBranchLine(position: Point, direction: int, d: GrowthDraws, now: real) returns (line: MetroLine)
      requires Core() && IsDirection(direction) && InBounds(position, bounds) && GrowthDrawsOk(d)
      modifies this`lineIdCounter
      ensures Core() && lineIdCounter == old(lineIdCounter) + 1
      ensures line == FreshLine(old(lineIdCounter), plannedLines[old(lineIdCounter) % |plannedLines|],
                                plannedColors[old(lineIdCounter) % |plannedColors|], position, direction, now,
                                200.0 + Scale(d.branchDelay, 600.0), 1200.0 + Scale(d.branchDuration, 800.0))
      ensures LineOk(line, old(lineIdCounter), |allStations|, bounds, hubCenter) && line.growing
      ensures 200.0 <= line.growthDelay < 800.0 && 1200.0 <= line.growthDuration < 2000.0
    {
      ScaleBelow(d.branchDelay, 600.0);
      ScaleBelow(d.branchDuration, 800.0);
      var delay := 200.0 + Scale(d.branchDelay, 600.0);
      var duration := 1200.0 + Scale(d.branchDuration, 800.0);
      var id := lineIdCounter;
      line := NextLine(position, direction, delay, duration, now);
      FreshLineOk(id, plannedLines[id % |plannedLines|], plannedColors[id % |plannedColors|], position, direction, now,
                  delay, duration, |allStations|, bounds, hubCenter);
    }

    /**
     * The end of a segment of line `k` at `position`, its new tip: the turn
     * is chosen (a changed direction starts a new point at `position`), the
     * segment progress restarts, a branch may leave, and when none does a
     * station is placed with `StationChance` once the line is longer than a
     * segment. `weight(p, dir)` is the positive weight `Math.exp` gives
     * direction `dir` at `p`, and `score(p, dir)` its centre score.
     */
    method CompleteSegment(k: nat, position: Point, d: GrowthDraws, weight: (Point, int) -> real,
                           score: (Point, int) -> real, now: real) returns (branch: Option<MetroLine>)
      requires Core() && k < |lines| && lines[k].growing && !HasTrain(trains, k) && InBounds(position, bounds)
      requires GrowthDrawsOk(d) && forall p, dir :: weight(p, dir) > 0.0
      modifies this`lines, this`allStations, this`lineIdCounter
      ensures Core() && |lines| == |old(lines)|
      ensures forall j :: 0 <= j < |lines| && j != k ==> lines[j] == old(lines)[j]
      ensures lines[k].growing && lines[k].progress == 0.0 && lines[k].totalLength == old(lines)[k].totalLength
      ensures lines[k].currentDirection in
        Candidates(old(lines), k, position, ContinueDirections(old(lines)[k].currentDirection), config.segmentLength)
      ensures (lines[k].currentDirection == old(lines)[k].currentDirection && lines[k].points == old(lines)[k].points) ||
        (lines[k].currentDirection != old(lines)[k].currentDirection && lines[k].points == old(lines)[k].points + [position])
      ensures branch.Some? ==> (|old(lines)| < config.maxLines && lineIdCounter == old(lineIdCounter) + 1 &&
        allStations == old(allStations) + [Station(position, true, 0.0, now)] &&
        LineOk(branch.value, old(lineIdCounter), |allStations|, bounds, hubCenter) && branch.value.growing &&
        branch.value.stations == [] && branch.value.points == [position, position])
      ensures branch.None? ==> (lineIdCounter == old(lineIdCounter) &&
        (allStations == old(allStations) || allStations == old(allStations) + [Station(position, false, 0.0, now)]) &&
        (|allStations| > |old(allStations)| <==>
          d.station < StationChance(old(lines)[k].lastStationDistance, config.segmentLength) &&
          old(lines)[k].totalLength > config.segmentLength && CanPlace(old(allStations), position, config.minStationDistance)))
    {
      TurnAtSegmentEnd(k, position, seq(8, dir => weight(position, dir)), d.direction);
      branch := BranchOrStation(k, position, d, seq(8, dir => score(position, dir)), now);
    }

    /** The rest of a segment end after the turn: a branch if one starts, otherwise maybe a periodic station. */
    method BranchOrStation(k: nat, position: Point, d: GrowthDraws, scores: seq<real>, now: real) returns (branch: Option<MetroLine>)
      requires Core() && k < |lines| && !HasTrain(trains, k) && InBounds(position, bounds) && GrowthDrawsOk(d)
      modifies this`lines, this`allStations, this`lineIdCounter
      ensures Core() && |lines| == |old(lines)|
      ensures forall j :: 0 <= j < |lines| && j != k ==> lines[j] == old(lines)[j]
      ensures lines[k] == old(lines)[k].(lastBranchDistance := lines[k].lastBranchDistance, stations := lines[k].stations,
                                         lastStationDistance := lines[k].lastStationDistance)
      ensures branch.Some? ==> (|old(lines)| < config.maxLines && lineIdCounter == old(lineIdCounter) + 1 &&
        allStations == old(allStations) + [Station(position, true, 0.0, now)] &&
        LineOk(branch.value, old(lineIdCounter), |allStations|, bounds, hubCenter) && branch.value.growing &&
        branch.value.stations == [] && branch.value.points == [position, position])
      ensures branch.None? ==> (lineIdCounter == old(lineIdCounter) &&
        (allStations == old(allStations) || allStations == old(allStations) + [Station(position, false, 0.0, now)]) &&
        (|allStations| > |old(allStations)| <==>
          d.station < StationChance(old(lines)[k].lastStationDistance, config.segmentLength) &&
          old(lines)[k].totalLength > config.segmentLength && CanPlace(old(allStations), position, config.minStationDistance)))
    {
      branch := TryBranch(k, position, d, scores, now);
      if branch.Some? {
        return;
      }
      MaybeStation(k, position, d.station, now);
    }

    /** The turn at a segment end: progress restarts, and a new direction starts a new point at `position`. */
    method TurnAtSegmentEnd(k: nat, position: Point, weights: seq<real>, draw: real)
      requires Core() && k < |lines| && lines[k].growing && !HasTrain(trains, k) && InBounds(position, bounds)
      requires |weights| == 8 && AllPositive(weights) && Draw(draw)
      modifies this`lines
      ensures Core() && |lines| == |old(lines)| && !HasTrain(trains, k)
      ensures forall j :: 0 <= j < |lines| && j != k ==> lines[j] == old(lines)[j]
      ensures var c := Candidates(old(lines), k, position, ContinueDirections(old(lines)[k].currentDirection), config.segmentLength);
        lines[k].currentDirection in c &&
        (|c| >= 2 ==> lines[k].currentDirection == c[PickIndex(WeightsOf(c, weights), WheelTarget(draw, WeightsOf(c, weights)))])
      ensures lines[k].currentDirection == old(lines)[k].currentDirection ==>
        lines[k] == old(lines)[k].(progress := 0.0)
      ensures lines[k].currentDirection != old(lines)[k].currentDirection ==>
        lines[k] == old(lines)[k].(progress := 0.0, points := old(lines)[k].points + [position], currentDirection := lines[k].currentDirection)
    {
      var newDir := ChooseDirection(k, position, weights, draw);
      ApplyTurn(k, position, newDir);
    }

    /** Progress restarts, and a turn into `newDir` starts a new point at `position`. */
    method ApplyTurn(k: nat, position: Point, newDir: int)
      requires Core() && k < |lines| && lines[k].growing && !HasTrain(trains, k) && InBounds(position, bounds)
      requires IsDirection(newDir)
      modifies this`lines
      ensures Core() && !HasTrain(trains, k)
      ensures var line := old(lines)[k].(progress := 0.0);
        lines == old(lines)[k := if newDir == line.currentDirection then line
                                 else line.(points := line.points + [position], currentDirection := newDir)]
    {
      var line := lines[k].(progress := 0.0);
      if newDir != line.currentDirection {
        line := line.(points := line.points + [position], currentDirection := newDir);
      }
      TrainsOkUpdate(trains, lines, k, line);
      lines := lines[k := line];
    }

    /** The periodic station: with `StationChance`, once the line is longer than a segment, where one can be placed. */
    method MaybeStation(k: nat, position: Point, draw: real, now: real)
      requires Core() && k < |lines| && !HasTrain(trains, k)
      modifies this`lines, this`allStations
      ensures Core()
      ensures var attempt := draw < StationChance(old(lines)[k].lastStationDistance, config.segmentLength) &&
          old(lines)[k].totalLength > config.segmentLength;
        if attempt && CanPlace(old(allStations), position, config.minStationDistance) then
          allStations == old(allStations) + [Station(position, false, 0.0, now)] &&
          lines == old(lines)[k := old(lines)[k].(stations := old(lines)[k].stations + [|old(allStations)|], lastStationDistance := 0.0)]
        else
          allStations == old(allStations) && lines == old(lines)
    {
      if draw < StationChance(lines[k].lastStationDistance, config.segmentLength) && lines[k].totalLength > config.segmentLength {
        var _ := AddStation(k, position, false, now);
      }
    }

    /**
     * `updateLine` for line `k`. A line that has stopped, or is still in its
     * start delay, is left alone. Otherwise its counters grow by the frame's
     * speed and the tip moves on along the current direction. A tip that
     * would leave the bounds stops the line with a station at the old tip; a
     * line reaching `maxLineLength` stops with a station at the new tip,
     * which is not drawn; otherwise the tip is moved, and a completed segment
     * turns, may branch and may add a station.
     */
    method UpdateLine(k: nat, now: real, d: GrowthDraws, weight: (Point, int) -> real, score: (Point, int) -> real)
      returns (branch: Option<MetroLine>)
      requires Core() && k < |lines| && GrowthDrawsOk(d) && forall p, dir :: weight(p, dir) > 0.0
      modifies this`lines, this`allStations, this`lineIdCounter
      ensures Core() && |lines| == |old(lines)|
      ensures forall j :: 0 <= j < |lines| && j != k ==> lines[j] == old(lines)[j]
      ensures !Active(old(lines)[k], now) ==>
        branch.None? && lines == old(lines) && allStations == old(allStations) && lineIdCounter == old(lineIdCounter)
      ensures lines[k].growing ==> old(lines)[k].growing
      ensures Active(old(lines)[k], now) ==> (
        var speed := FrameSpeed(old(lines)[k], now, config.lineSpeed);
        var tip := old(lines)[k].points[|old(lines)[k].points| - 1];
        0.3 * config.lineSpeed <= speed <= 3.0 * config.lineSpeed &&
        lines[k].totalLength == old(lines)[k].totalLength + speed &&
        (lines[k].growing <==>
          InBounds(Advance(tip, old(lines)[k].currentDirection, speed), bounds) &&
          old(lines)[k].totalLength + speed < config.maxLineLength))
      ensures var n := |old(lines)[k].points|;
        n <= |lines[k].points| <= n + 1 && lines[k].points[..n - 1] == old(lines)[k].points[..n - 1] &&
        forall i :: n - 1 <= i < |lines[k].points| ==>
          lines[k].points[i] == old(lines)[k].points[n - 1] || InBounds(lines[k].points[i], bounds)
      ensures |old(allStations)| <= |allStations| <= |old(allStations)| + 1 &&
        allStations[..|old(allStations)|] == old(allStations)
      ensures branch.Some? ==> (|old(lines)| < config.maxLines && lineIdCounter == old(lineIdCounter) + 1 &&
        LineOk(branch.value, old(lineIdCounter), |allStations|, bounds, hubCenter) && branch.value.growing &&
        branch.value.stations == [] && |branch.value.points| == 2)
      ensures branch.None? ==> lineIdCounter == old(lineIdCounter)
    {
      if !Active(lines[k], now) {
        return None;
      }
      GrowingHasNoTrain(trains, lines, k);
      EffectiveSpeedBounds(config.lineSpeed, now - lines[k].createdAt, lines[k].growthDelay, lines[k].growthDuration);
      branch := Grow(k, FrameSpeed(lines[k], now, config.lineSpeed), now, d, weight, score);
    }

    /** The growing part of `updateLine`, for a line that advances by `speed` this frame. */
    method Grow(k: nat, speed: real, now: real, d: GrowthDraws, weight: (Point, int) -> real, score: (Point, int) -> real)
      returns (branch: Option<MetroLine>)
      requires Core() && k < |lines| && lines[k].growing && !HasTrain(trains, k) && speed > 0.0
      requires GrowthDrawsOk(d) && forall p, dir :: weight(p, dir) > 0.0
      modifies this`lines, this`allStations, this`lineIdCounter
      ensures Core() && |lines| == |old(lines)|
      ensures forall j :: 0 <= j < |lines| && j != k ==> lines[j] == old(lines)[j]
      ensures lines[k].totalLength == old(lines)[k].totalLength + speed
      ensures var tip := old(lines)[k].points[|old(lines)[k].points| - 1];
        lines[k].growing <==>
          InBounds(Advance(tip, old(lines)[k].currentDirection, speed), bounds) &&
          old(lines)[k].totalLength + speed < config.maxLineLength
      ensures var n := |old(lines)[k].points|;
        n <= |lines[k].points| <= n + 1 && lines[k].points[..n - 1] == old(lines)[k].points[..n - 1] &&
        forall i :: n - 1 <= i < |lines[k].points| ==>
          lines[k].points[i] == old(lines)[k].points[n - 1] || InBounds(lines[k].points[i], bounds)
      ensures |old(allStations)| <= |allStations| <= |old(allStations)| + 1 &&
        allStations[..|old(allStations)|] == old(allStations)
      ensures branch.Some? ==> (|old(lines)| < config.maxLines && lineIdCounter == old(lineIdCounter) + 1 &&
        LineOk(branch.value, old(lineIdCounter), |allStations|, bounds, hubCenter) && branch.value.growing &&
        branch.value.stations == [] && |branch.value.points| == 2)
      ensures branch.None? ==> lineIdCounter == old(lineIdCounter)
    {
      var line := lines[k];
      var lastPoint := line.points[|line.points| - 1];
      var newPoint := Advance(lastPoint, line.currentDirection, speed);
      if InBounds(newPoint, bounds) && line.totalLength + speed < config.maxLineLength {
        branch := Extend(k, speed, now, d, weight, score);
        return;
      }
      line := line.(progress := line.progress + speed, totalLength := line.totalLength + speed,
                    lastBranchDistance := line.lastBranchDistance + speed,
                    lastStationDistance := line.lastStationDistance + speed);
      StopLine(k, line, if InBounds(newPoint, bounds) then newPoint else lastPoint, now);
      branch := None;
    }

    /** `updateLine` when the new tip is inside the bounds and the line is still short enough: the tip moves. */
    method Extend(k: nat, speed: real, now: real, d: GrowthDraws, weight: (Point, int) -> real, score: (Point, int) -> real)
      returns (branch: Option<MetroLine>)
      requires Core() && k < |lines| && lines[k].growing && !HasTrain(trains, k) && speed > 0.0
      requires GrowthDrawsOk(d) && forall p, dir :: weight(p, dir) > 0.0
      requires InBounds(Advance(lines[k].points[|lines[k].points| - 1], lines[k].currentDirection, speed), bounds)
      requires lines[k].totalLength + speed < config.maxLineLength
      modifies this`lines, this`allStations, this`lineIdCounter
      ensures Core() && |lines| == |old(lines)|
      ensures forall j :: 0 <= j < |lines| && j != k ==> lines[j] == old(lines)[j]
      ensures lines[k].totalLength == old(lines)[k].totalLength + speed
      ensures lines[k].growing
      ensures var n := |old(lines)[k].points|;
        n <= |lines[k].points| <= n + 1 && lines[k].points[..n - 1] == old(lines)[k].points[..n - 1] &&
        forall i :: n - 1 <= i < |lines[k].points| ==>
          lines[k].points[i] == old(lines)[k].points[n - 1] || InBounds(lines[k].points[i], bounds)
      ensures |old(allStations)| <= |allStations| <= |old(allStations)| + 1 &&
        allStations[..|old(allStations)|] == old(allStations)
      ensures branch.Some? ==> (|old(lines)| < config.maxLines && lineIdCounter == old(lineIdCounter) + 1 &&
        LineOk(branch.value, old(lineIdCounter), |allStations|, bounds, hubCenter) && branch.value.growing &&
        branch.value.stations == [] && |branch.value.points| == 2)
      ensures branch.None? ==> lineIdCounter == old(lineIdCounter)
    {
      if lines[k].progress + speed >= config.segmentLength {
        branch := ExtendToSegmentEnd(k, speed, now, d, weight, score);
      } else {
        var _ := MoveTip(k, speed);
        branch := None;
      }
    }

    /** `Extend` when the move completes a segment: the tip moves, then the segment end is handled. */
    method ExtendToSegmentEnd(k: nat, speed: real, now: real, d: GrowthDraws, weight: (Point, int) -> real, score: (Point, int) -> real)
      returns (branch: Option<MetroLine>)
      requires Core() && k < |lines| && lines[k].growing && !HasTrain(trains, k) && speed > 0.0
      requires GrowthDrawsOk(d) && forall p, dir :: weight(p, dir) > 0.0
      requires InBounds(Advance(lines[k].points[|lines[k].points| - 1], lines[k].currentDirection, speed), bounds)
      requires lines[k].totalLength + speed < config.maxLineLength && lines[k].progress + speed >= config.segmentLength
      modifies this`lines, this`allStations, this`lineIdCounter
      ensures Core() && |lines| == |old(lines)|
      ensures forall j :: 0 <= j < |lines| && j != k ==> lines[j] == old(lines)[j]
      ensures lines[k].totalLength == old(lines)[k].totalLength + speed
      ensures lines[k].growing
      ensures var n := |old(lines)[k].points|;
        n <= |lines[k].points| <= n + 1 && lines[k].points[..n - 1] == old(lines)[k].points[..n - 1] &&
        forall i :: n - 1 <= i < |lines[k].points| ==>
          lines[k].points[i] == old(lines)[k].points[n - 1] || InBounds(lines[k].points[i], bounds)
      ensures |old(allStations)| <= |allStations| <= |old(allStations)| + 1 &&
        allStations[..|old(allStations)|] == old(allStations)
      ensures branch.Some? ==> (|old(lines)| < config.maxLines && lineIdCounter == old(lineIdCounter) + 1 &&
        LineOk(branch.value, old(lineIdCounter), |allStations|, bounds, hubCenter) && branch.value.growing &&
        branch.value.stations == [] && |branch.value.points| == 2)
      ensures branch.None? ==> lineIdCounter == old(lineIdCounter)
    {
      var newPoint := MoveTip(k, speed);
      branch := CompleteSegment(k, newPoint, d, weight, score, now);
    }

    /** The tip of line `k` moves `speed` along its direction, and its counters grow by `speed`. */
    method MoveTip(k: nat, speed: real) returns (newPoint: Point)
      requires Core() && k < |lines| && lines[k].growing && !HasTrain(trains, k) && speed > 0.0
      requires InBounds(Advance(lines[k].points[|lines[k].points| - 1], lines[k].currentDirection, speed), bounds)
      modifies this`lines
      ensures Core() && !HasTrain(trains, k) && InBounds(newPoint, bounds)
      ensures var line := old(lines)[k];
        newPoint == Advance(line.points[|line.points| - 1], line.currentDirection, speed) &&
        lines == old(lines)[k := line.(progress := line.progress + speed, totalLength := line.totalLength + speed,
                                       lastBranchDistance := line.lastBranchDistance + speed,
                                       lastStationDistance := line.lastStationDistance + speed,
                                       points := line.points[|line.points| - 1 := newPoint])]
    {
      var line := lines[k];
      newPoint := Advance(line.points[|line.points| - 1], line.currentDirection, speed);
      line := line.(progress := line.progress + speed, totalLength := line.totalLength + speed,
                    lastBranchDistance := line.lastBranchDistance + speed,
                    lastStationDistance := line.lastStationDistance + speed,
                    points := line.points[|line.points| - 1 := newPoint]);
      TrainsOkUpdate(trains, lines, k, line);
      lines := lines[k := line];
    }

    /** A line stops growing: it becomes `line` with `growing` off, and a station is placed at `stop` if it can be. */
    method StopLine(k: nat, line: MetroLine, stop: Point, now: real)
      requires Core() && k < |lines| && !HasTrain(trains, k) && LineOk(line, k, |allStations|, bounds, hubCenter)
      modifies this`lines, this`allStations
      ensures Core() && |lines| == |old(lines)| && !lines[k].growing
      ensures forall j :: 0 <= j < |lines| && j != k ==> lines[j] == old(lines)[j]
      ensures lines[k].points == line.points && lines[k].totalLength == line.totalLength
      ensures if CanPlace(old(allStations), stop, config.minStationDistance) then
          allStations == old(allStations) + [Station(stop, false, 0.0, now)] &&
          lines[k] == line.(growing := false, stations := line.stations + [|old(allStations)|], lastStationDistance := 0.0)
        else
          allStations == old(allStations) && lines[k] == line.(growing := false)
    {
      TrainsOkUpdate(trains, lines, k, line.(growing := false));
      lines := lines[k := line.(growing := false)];
      var _ := AddStation(k, stop, false, now);
    }

    // -------------------------------------------------------------------
    // The frame

    /**
     * The growth loop of `animate`: `updateLine` for every line present at
     * the start of the frame, in order, with the frame's branches appended
     * afterwards. A stopped line never starts again, a line that does not
     * grow this frame is untouched, and no line branches once `maxLines`
     * lines exist.
     */
    method GrowLines(now: real, draws: seq<GrowthDraws>, weight: (Point, int) -> real, score: (Point, int) -> real)
      requires Valid() && |draws| >= |lines| && (forall i :: 0 <= i < |draws| ==> GrowthDrawsOk(draws[i]))
      requires forall p, dir :: weight(p, dir) > 0.0
      modifies this`lines, this`allStations, this`lineIdCounter
      ensures Valid()
      ensures |old(lines)| <= |lines| <= 2 * |old(lines)|
      ensures |old(lines)| >= config.maxLines ==> |lines| == |old(lines)|
      ensures forall j :: 0 <= j < |old(lines)| ==> (lines[j].growing ==> old(lines)[j].growing)
      ensures forall j :: 0 <= j < |old(lines)| && !Active(old(lines)[j], now) ==> lines[j] == old(lines)[j]
      ensures forall j :: |old(lines)| <= j < |lines| ==> lines[j].growing && lines[j].stations == [] && |lines[j].points| == 2
      ensures |old(allStations)| <= |allStations| && allStations[..|old(allStations)|] == old(allStations)
    {
      var newLines := UpdateEachLine(now, draws, weight, score);
      LinesOkAppend(lines, newLines, |allStations|, bounds, hubCenter);
      TrainsOkAppend(trains, lines, newLines);
      lines := lines + newLines;
    }

    /** The loop of `animate` over the lines: each is updated in turn, and the branches are collected. */
    method UpdateEachLine(now: real, draws: seq<GrowthDraws>, weight: (Point, int) -> real, score: (Point, int) -> real)
      returns (newLines: seq<MetroLine>)
      requires Valid() && |draws| >= |lines| && (forall i :: 0 <= i < |draws| ==> GrowthDrawsOk(draws[i]))
      requires forall p, dir :: weight(p, dir) > 0.0
      modifies this`lines, this`allStations, this`lineIdCounter
      ensures Core() && |lines| == |old(lines)| && lineIdCounter == |lines| + |newLines| && |newLines| <= |lines|
      ensures |old(lines)| >= config.maxLines ==> newLines == []
      ensures forall j :: 0 <= j < |newLines| ==>
        LineOk(newLines[j], |lines| + j, |allStations|, bounds, hubCenter) && newLines[j].growing &&
        newLines[j].stations == [] && |newLines[j].points| == 2
      ensures forall j :: 0 <= j < |lines| ==> (lines[j].growing ==> old(lines)[j].growing)
      ensures forall j :: 0 <= j < |lines| && !Active(old(lines)[j], now) ==> lines[j] == old(lines)[j]
      ensures |old(allStations)| <= |allStations| && allStations[..|old(allStations)|] == old(allStations)
    {
      var n := |lines|;
      newLines := [];
      for i := 0 to n
        invariant Core() && |lines| == n && lineIdCounter == n + |newLines| && |newLines| <= i
        invariant n >= config.maxLines ==> newLines == []
        invariant forall j :: 0 <= j < |newLines| ==>
          LineOk(newLines[j], n + j, |allStations|, bounds, hubCenter) && newLines[j].growing &&
          newLines[j].stations == [] && |newLines[j].points| == 2
        invariant forall j :: 0 <= j < i ==> (lines[j].growing ==> old(lines)[j].growing)
        invariant forall j :: 0 <= j < i && !Active(old(lines)[j], now) ==> lines[j] == old(lines)[j]
        invariant forall j :: i <= j < n ==> lines[j] == old(lines)[j]
        invariant |old(allStations)| <= |allStations| && allStations[..|old(allStations)|] == old(allStations)
      {
        ghost var stations := allStations;
        var branch := UpdateLine(i, now, draws[i], weight, score);
        assert allStations[..|stations|] == stations;
        assert allStations[..|old(allStations)|] == stations[..|old(allStations)|];
        if branch.Some? {
          newLines := newLines + [branch.value];
        }
      }
    }

    /**
     * One frame of `animate` at time `now`, drawing left out: fade in, grow
     * the lines, move the colours, grow the stations, age the click waves,
     * spawn trains and move them. `spawnDraw(k)` is the wait draw for a train
     * spawned on line `k` and `waitDraw(i)` the one for train `i`.
     */
    method Animate(now: real, draws: seq<GrowthDraws>, weight: (Point, int) -> real, score: (Point, int) -> real,
                   lengthOf: seq<Point> -> real, distanceAlong: (seq<Point>, Point) -> real,
                   spawnDraw: nat -> real, waitDraw: nat -> real)
      requires Valid() && |draws| >= |lines| && (forall i :: 0 <= i < |draws| ==> GrowthDrawsOk(draws[i]))
      requires forall p, dir :: weight(p, dir) > 0.0
      requires forall pts, p :: 0.0 <= distanceAlong(pts, p) <= lengthOf(pts)
      requires forall i: nat :: Draw(spawnDraw(i)) && Draw(waitDraw(i))
      modifies this`globalOpacity, this`lines, this`allStations, this`lineIdCounter, this`colorShiftIntensity,
        this`targetColorShiftIntensity, this`clickWaves, this`trains, this`lastTrainSpawnCheck
      ensures Valid()
      ensures globalOpacity == FadeIn(old(globalOpacity))
      ensures |old(lines)| <= |lines| && forall j :: 0 <= j < |old(lines)| ==> (lines[j].growing ==> old(lines)[j].growing)
      ensures |old(allStations)| <= |allStations| &&
        forall i :: 0 <= i < |old(allStations)| ==> allStations[i].pos == old(allStations)[i].pos
      ensures colorShiftIntensity == ShiftStep(old(colorShiftIntensity), old(targetColorShiftIntensity))
      ensures targetColorShiftIntensity == DecayTarget(old(targetColorShiftIntensity))
      ensures clickWaves == KeptWaves(old(clickWaves), now)
      ensures lastTrainSpawnCheck == if now - old(lastTrainSpawnCheck) < SPAWN_CHECK_INTERVAL then old(lastTrainSpawnCheck) else now
      ensures FrameTrains(old(trains), trains, lines, allStations, old(lastTrainSpawnCheck), now, lengthOf, distanceAlong,
                          DrawsOf(spawnDraw, |lines|), waitDraw)
    {
      GrowScene(now, draws, weight, score);
      MoveTrains(now, lengthOf, distanceAlong, spawnDraw, waitDraw);
    }

    /** Everything in a frame before the trains: fade in, grow the lines, then refresh colours, stations and waves. */
    method GrowScene(now: real, draws: seq<GrowthDraws>, weight: (Point, int) -> real, score: (Point, int) -> real)
      requires Valid() && |draws| >= |lines| && (forall i :: 0 <= i < |draws| ==> GrowthDrawsOk(draws[i]))
      requires forall p, dir :: weight(p, dir) > 0.0
      modifies this`globalOpacity, this`lines, this`allStations, this`lineIdCounter, this`colorShiftIntensity,
        this`targetColorShiftIntensity, this`clickWaves
      ensures Valid()
      ensures globalOpacity == FadeIn(old(globalOpacity))
      ensures |old(lines)| <= |lines| && forall j :: 0 <= j < |old(lines)| ==> (lines[j].growing ==> old(lines)[j].growing)
      ensures |old(allStations)| <= |allStations| &&
        forall i :: 0 <= i < |old(allStations)| ==> allStations[i].pos == old(allStations)[i].pos
      ensures colorShiftIntensity == ShiftStep(old(colorShiftIntensity), old(targetColorShiftIntensity))
      ensures targetColorShiftIntensity == DecayTarget(old(targetColorShiftIntensity))
      ensures clickWaves == KeptWaves(old(clickWaves), now)
    {
      FadeInStep();
      GrowLines(now, draws, weight, score);
      RefreshScene(now);
    }

    /** The start of a frame: the opacity rises by `FADE_IN_SPEED` while below 1, capped at 1. */
    method FadeInStep()
      requires Core()
      modifies this`globalOpacity
      ensures Core() && globalOpacity == FadeIn(old(globalOpacity))
    {
      if globalOpacity < 1.0 {
        globalOpacity := globalOpacity + FADE_IN_SPEED;
        if globalOpacity > 1.0 {
          globalOpacity := 1.0;
        }
      }
    }

    /** The middle of a frame: colours, station grow-in and click waves. */
    method RefreshScene(now: real)
      requires Core()
      modifies this`lines, this`colorShiftIntensity, this`targetColorShiftIntensity, this`allStations, this`clickWaves
      ensures Core() && |lines| == |old(lines)| && |allStations| == |old(allStations)|
      ensures forall j :: 0 <= j < |lines| ==> lines[j].growing == old(lines)[j].growing
      ensures forall i :: 0 <= i < |allStations| ==> allStations[i].pos == old(allStations)[i].pos
      ensures colorShiftIntensity == ShiftStep(old(colorShiftIntensity), old(targetColorShiftIntensity))
      ensures targetColorShiftIntensity == DecayTarget(old(targetColorShiftIntensity))
      ensures clickWaves == KeptWaves(old(clickWaves), now)
    {
      UpdateColors();
      UpdateStations();
      UpdateClickWaves(now);
    }

    /** The end of a frame: spawn trains where due, then move every train. */
    method MoveTrains(now: real, lengthOf: seq<Point> -> real, distanceAlong: (seq<Point>, Point) -> real,
                      spawnDraw: nat -> real, waitDraw: nat -> real)
      requires Core()
      requires forall pts, p :: 0.0 <= distanceAlong(pts, p) <= lengthOf(pts)
      requires forall i: nat :: Draw(spawnDraw(i)) && Draw(waitDraw(i))
      modifies this`trains, this`lastTrainSpawnCheck
      ensures Core()
      ensures lastTrainSpawnCheck == if now - old(lastTrainSpawnCheck) < SPAWN_CHECK_INTERVAL then old(lastTrainSpawnCheck) else now
      ensures FrameTrains(old(trains), trains, lines, allStations, old(lastTrainSpawnCheck), now, lengthOf, distanceAlong,
                          DrawsOf(spawnDraw, |lines|), waitDraw)
    {
      ghost var before, last := trains, lastTrainSpawnCheck;
      CheckTrainSpawning(now, lengthOf, distanceAlong, DrawsOf(spawnDraw, |lines|));
      ghost var spawned := trains;
      var waitDraws := DrawsOf(waitDraw, |trains|);
      UpdateTrains(now, waitDraws);
      FrameTrainsOf(before, spawned, trains, lines, allStations, last, now, lengthOf, distanceAlong,
                    DrawsOf(spawnDraw, |lines|), waitDraws, waitDraw);
    }
  }
}
