/**
 * The trains of the metro map: `createTrain` and one tick of `updateTrains`
 * for a single train, a state machine over speed, position along the line
 * and waiting at stations.
 *
 * A train refers to its line by index into the map's lines and to stations
 * by index into the map's station list, so `station === train.lastStoppedAt`
 * becomes equality of indices. The geometry that needs `sqrt` (the length of
 * the line and each station's distance along it) is supplied by the caller.
 */
module MetroTrains {
  import opened Wrappers

  const TRAIN_MAX_SPEED: real := 0.4
  const ACCELERATION: real := 0.015
  const DECELERATION: real := 0.025
  const APPROACH_DISTANCE: real := 40.0
  /** A train closer than this to a station stops there. */
  const STOP_RADIUS: real := 3.0
  const TRAIN_MIN_WAIT: real := 800.0
  const TRAIN_MAX_WAIT: real := 2500.0
  const MIN_STATIONS_FOR_TRAIN: nat := 2
  /** `createTrain` refuses lines shorter than this. */
  const MIN_TRAIN_LINE_LENGTH: real := 10.0

  datatype Train = Train(
    line: nat,
    distanceAlongLine: real,
    direction: int,
    waiting: bool,
    waitEndTime: real,
    lastStoppedAt: Option<nat>,
    lineLength: real,
    stationDistances: seq<real>,
    speed: real)

  /** What every tick keeps: a direction of +1 or -1, a position on the line, a speed up to the maximum. */
  predicate TrainOk(t: Train)
  {
    (t.direction == 1 || t.direction == -1) &&
    t.lineLength > 0.0 &&
    0.0 <= t.distanceAlongLine <= t.lineLength &&
    0.0 <= t.speed <= TRAIN_MAX_SPEED
  }

  /** `randomWaitTime` for the draw `r` of `Math.random()`. */
  function WaitTime(r: real): (w: real)
    requires 0.0 <= r < 1.0
    ensures TRAIN_MIN_WAIT <= w < TRAIN_MAX_WAIT
  {
    TRAIN_MIN_WAIT + r * (TRAIN_MAX_WAIT - TRAIN_MIN_WAIT)
  }

  /**
   * `createTrain`: no train for a line with fewer than two stations, fewer
   * than two points or a length under 10; otherwise a train waiting at the
   * first station, heading forwards, at rest.
   */
  function CreateTrain(line: nat, stationIds: seq<nat>, pointCount: nat, lineLength: real,
                       stationDistances: seq<real>, now: real, waitDraw: real): (r: Option<Train>)
    requires |stationDistances| == |stationIds| && 0.0 <= waitDraw < 1.0
    ensures r.Some? <==> |stationIds| >= MIN_STATIONS_FOR_TRAIN && pointCount >= 2 && lineLength >= MIN_TRAIN_LINE_LENGTH
  {
    if |stationIds| < MIN_STATIONS_FOR_TRAIN then None
    else if pointCount < 2 then None
    else if lineLength < MIN_TRAIN_LINE_LENGTH then None
    else Some(Train(line, stationDistances[0], 1, true, now + WaitTime(waitDraw), Some(stationIds[0]),
                    lineLength, stationDistances, 0.0))
  }

  /**
   * A created train starts at its first station, waiting, heading forwards
   * at rest, with a wait of 800 to 2500 ms; when every station lies on the
   * line it satisfies `TrainOk`.
   */
  lemma CreatedTrain(line: nat, stationIds: seq<nat>, pointCount: nat, lineLength: real,
                     stationDistances: seq<real>, now: real, waitDraw: real)
    requires |stationDistances| == |stationIds| && 0.0 <= waitDraw < 1.0
    requires forall i :: 0 <= i < |stationDistances| ==> 0.0 <= stationDistances[i] <= lineLength
    requires CreateTrain(line, stationIds, pointCount, lineLength, stationDistances, now, waitDraw).Some?
    ensures var t := CreateTrain(line, stationIds, pointCount, lineLength, stationDistances, now, waitDraw).value;
      TrainOk(t) && t.line == line && t.waiting && t.direction == 1 && t.speed == 0.0 &&
      t.lastStoppedAt == Some(stationIds[0]) && t.distanceAlongLine == stationDistances[0] &&
      now + TRAIN_MIN_WAIT <= t.waitEndTime < now + TRAIN_MAX_WAIT &&
      t.stationDistances == stationDistances && t.lineLength == lineLength
  {
  }

  /** How far ahead of the train station `i` lies, in its direction of travel. */
  function Ahead(t: Train, i: nat): real
    requires i < |t.stationDistances|
  {
    (t.stationDistances[i] - t.distanceAlongLine) * t.direction as real
  }

  /** Station `i` is one the train may head for: not the one it just left, and strictly ahead. */
  predicate Candidate(t: Train, ids: seq<nat>, i: nat)
    requires i < |ids| == |t.stationDistances|
  {
    Some(ids[i]) != t.lastStoppedAt && Ahead(t, i) > 0.0
  }

  /**
   * The nearest-station search over the first `n` stations: the distance to
   * the nearest candidate, `None` where the source keeps `Infinity`; a later
   * station replaces the current best only when strictly nearer.
   */
  function Nearest(t: Train, ids: seq<nat>, n: nat): (r: Option<real>)
    requires n <= |ids| == |t.stationDistances|
    ensures r.Some? ==> r.value > 0.0
  {
    if n == 0 then None
    else
      var best := Nearest(t, ids, n - 1);
      if Candidate(t, ids, n - 1) && (best.None? || Ahead(t, n - 1) < best.value) then Some(Ahead(t, n - 1))
      else best
  }

  /** The search finds the distance of some candidate, and none is nearer; it finds nothing only when there is no candidate. */
  lemma {:induction false} NearestIsMinimal(t: Train, ids: seq<nat>, n: nat)
    requires n <= |ids| == |t.stationDistances|
    ensures Nearest(t, ids, n).Some? ==>
      exists i :: 0 <= i < n && Candidate(t, ids, i) && Ahead(t, i) == Nearest(t, ids, n).value
    ensures forall i :: 0 <= i < n && Candidate(t, ids, i) ==>
      Nearest(t, ids, n).Some? && Nearest(t, ids, n).value <= Ahead(t, i)
  {
    if n > 0 {
      NearestIsMinimal(t, ids, n - 1);
    }
  }

  function Max(a: real, b: real): real
  {
    if a >= b then a else b
  }

  function Min(a: real, b: real): real
  {
    if a <= b then a else b
  }

  /**
   * The speed rule: within `APPROACH_DISTANCE` of the nearest station a
   * faster train brakes towards `TRAIN_MAX_SPEED * d / APPROACH_DISTANCE / 2`
   * by at most `DECELERATION`; otherwise it accelerates by `ACCELERATION` up
   * to `TRAIN_MAX_SPEED`.
   */
  function NextSpeed(speed: real, nearest: Option<real>): real
  {
    if nearest.Some? && nearest.value < APPROACH_DISTANCE then
      var targetSpeed := TRAIN_MAX_SPEED * (nearest.value / APPROACH_DISTANCE) * 0.5;
      if speed > targetSpeed then Max(targetSpeed, speed - DECELERATION) else speed
    else if speed < TRAIN_MAX_SPEED then Min(TRAIN_MAX_SPEED, speed + ACCELERATION)
    else speed
  }

  /** The speed rule keeps the speed in [0, TRAIN_MAX_SPEED], never brakes below the target, and never speeds up near a station. */
  lemma NextSpeedBounds(speed: real, nearest: Option<real>)
    requires 0.0 <= speed <= TRAIN_MAX_SPEED
    requires nearest.Some? ==> nearest.value > 0.0
    ensures 0.0 <= NextSpeed(speed, nearest) <= TRAIN_MAX_SPEED
    ensures nearest.Some? && nearest.value < APPROACH_DISTANCE ==>
      NextSpeed(speed, nearest) <= speed &&
      NextSpeed(speed, nearest) >= Min(speed, TRAIN_MAX_SPEED * (nearest.value / APPROACH_DISTANCE) * 0.5)
    ensures (nearest.None? || nearest.value >= APPROACH_DISTANCE) ==> NextSpeed(speed, nearest) >= speed
  {
    if nearest.Some? && nearest.value < APPROACH_DISTANCE {
      assert nearest.value / APPROACH_DISTANCE > 0.0;
    }
  }

  /**
   * The station the train stops at after moving: the first of the first `n`
   * stations closer than `STOP_RADIUS` that is not the one it last stopped
   * at.
   */
  function FirstStop(t: Train, ids: seq<nat>, n: nat): (r: Option<nat>)
    requires n <= |ids| == |t.stationDistances|
    ensures r.Some? ==> r.value < n
  {
    if n == 0 then None
    else match FirstStop(t, ids, n - 1)
      case Some(i) => Some(i)
      case None =>
        if StopsAt(t, ids, n - 1) then Some(n - 1) else None
  }

  predicate StopsAt(t: Train, ids: seq<nat>, i: nat)
    requires i < |ids| == |t.stationDistances|
  {
    -STOP_RADIUS < t.distanceAlongLine - t.stationDistances[i] < STOP_RADIUS && Some(ids[i]) != t.lastStoppedAt
  }

  /** `FirstStop` is the least index the train stops at. */
  lemma {:induction false} FirstStopIsFirst(t: Train, ids: seq<nat>, n: nat)
    requires n <= |ids| == |t.stationDistances|
    ensures FirstStop(t, ids, n).Some? ==> StopsAt(t, ids, FirstStop(t, ids, n).value)
    ensures forall i :: 0 <= i < n && StopsAt(t, ids, i) ==>
      FirstStop(t, ids, n).Some? && FirstStop(t, ids, n).value <= i
  {
    if n > 0 {
      FirstStopIsFirst(t, ids, n - 1);
    }
  }

  /** A waiting train whose wait has not ended stays as it is. */
  predicate Held(t: Train, now: real)
  {
    t.waiting && now < t.waitEndTime
  }

  /** Move by `speed` in the train's direction, turning round at either end of the line. */
  function Move(t: Train, speed: real): (r: Train)
  {
    var moved := t.distanceAlongLine + speed * t.direction as real;
    if moved <= 0.0 then t.(distanceAlongLine := 0.0, direction := 1, speed := 0.0)
    else if moved >= t.lineLength then t.(distanceAlongLine := t.lineLength, direction := -1, speed := 0.0)
    else t.(distanceAlongLine := moved, speed := speed)
  }

  /**
   * One tick of `updateTrains` for one train on a line whose stations are
   * `ids`: a held train stays put; a train whose wait is over sets off from
   * rest; then the speed rule, the move, and a stop at the first station
   * reached.
   */
  function TrainStep(t: Train, ids: seq<nat>, now: real, waitDraw: real): (r: Train)
    requires |ids| == |t.stationDistances| && 0.0 <= waitDraw < 1.0
  {
    if Held(t, now) then t
    else
      var t1 := if t.waiting then t.(waiting := false, speed := 0.0) else t;
      var t2 := Move(t1, NextSpeed(t1.speed, Nearest(t1, ids, |ids|)));
      match FirstStop(t2, ids, |ids|)
      case None => t2
      case Some(i) =>
        t2.(waiting := true, waitEndTime := now + WaitTime(waitDraw), lastStoppedAt := Some(ids[i]), speed := 0.0)
  }

  /**
   * Every tick keeps the train on its line (`0 <= distanceAlongLine <=
   * lineLength`) with a speed in [0, TRAIN_MAX_SPEED] and a direction of +1
   * or -1, and leaves its line, length and station distances alone.
   */
  lemma TrainStepOk(t: Train, ids: seq<nat>, now: real, waitDraw: real)
    requires |ids| == |t.stationDistances| && 0.0 <= waitDraw < 1.0
    requires TrainOk(t)
    ensures var r := TrainStep(t, ids, now, waitDraw);
      TrainOk(r) && r.line == t.line && r.lineLength == t.lineLength && r.stationDistances == t.stationDistances
  {
    if !Held(t, now) {
      var t1 := if t.waiting then t.(waiting := false, speed := 0.0) else t;
      NextSpeedBounds(t1.speed, Nearest(t1, ids, |ids|));
      var s := NextSpeed(t1.speed, Nearest(t1, ids, |ids|));
      assert s * t1.direction as real == s || s * t1.direction as real == -s;
    }
  }

  /** A held train does not move: `distanceAlongLine` and everything else stay unchanged. */
  lemma HeldTrainStays(t: Train, ids: seq<nat>, now: real, waitDraw: real)
    requires |ids| == |t.stationDistances| && 0.0 <= waitDraw < 1.0
    requires t.waiting && now < t.waitEndTime
    ensures TrainStep(t, ids, now, waitDraw).distanceAlongLine == t.distanceAlongLine
    ensures TrainStep(t, ids, now, waitDraw) == t
  {
  }

  /**
   * Turning round at the ends: a train that moves this tick and ends at 0
   * heads forwards at rest, and one that ends at `lineLength` heads
   * backwards at rest.
   */
  lemma TrainStepEnds(t: Train, ids: seq<nat>, now: real, waitDraw: real)
    requires |ids| == |t.stationDistances| && 0.0 <= waitDraw < 1.0
    requires TrainOk(t) && !Held(t, now)
    ensures var r := TrainStep(t, ids, now, waitDraw);
      (r.distanceAlongLine == 0.0 ==> r.direction == 1 && r.speed == 0.0) &&
      (r.distanceAlongLine == t.lineLength ==> r.direction == -1 && r.speed == 0.0)
  {
  }

  /**
   * A stop: when the tick ends with the train waiting, it is at rest within
   * `STOP_RADIUS` of a station other than the one it left, that station is
   * now `lastStoppedAt`, and the wait ends 800 to 2500 ms from now.
   */
  lemma TrainStepStops(t: Train, ids: seq<nat>, now: real, waitDraw: real)
    requires |ids| == |t.stationDistances| && 0.0 <= waitDraw < 1.0
    requires !Held(t, now)
    ensures var r := TrainStep(t, ids, now, waitDraw);
      r.waiting ==> (r.speed == 0.0 && now + TRAIN_MIN_WAIT <= r.waitEndTime < now + TRAIN_MAX_WAIT &&
        exists i :: 0 <= i < |ids| && r.lastStoppedAt == Some(ids[i]) && Some(ids[i]) != t.lastStoppedAt &&
          -STOP_RADIUS < r.distanceAlongLine - t.stationDistances[i] < STOP_RADIUS)
  {
    var t1 := if t.waiting then t.(waiting := false, speed := 0.0) else t;
    var t2 := Move(t1, NextSpeed(t1.speed, Nearest(t1, ids, |ids|)));
    FirstStopIsFirst(t2, ids, |ids|);
  }

  /**
   * `updateTrains` for one train: release from a finished wait, the speed
   * rule, the move with turning round, and the stop.
   */
  method StepTrain(t: Train, ids: seq<nat>, now: real, waitDraw: real) returns (r: Train)
    requires |ids| == |t.stationDistances| && 0.0 <= waitDraw < 1.0
    ensures r == TrainStep(t, ids, now, waitDraw)
  {
    r := t;
    if r.waiting {
      if now >= r.waitEndTime {
        r := r.(waiting := false, speed := 0.0);
      } else {
        return;
      }
    }
    var nearest := FindNearest(r, ids);
    r := Move(r, NextSpeed(r.speed, nearest));
    var stop := FindStop(r, ids);
    if stop.Some? {
      r := r.(waiting := true, waitEndTime := now + WaitTime(waitDraw), lastStoppedAt := Some(ids[stop.value]), speed := 0.0);
    }
  }

  /** The loop over the line's stations that finds the nearest one ahead. */
  method FindNearest(t: Train, ids: seq<nat>) returns (nearest: Option<real>)
    requires |ids| == |t.stationDistances|
    ensures nearest == Nearest(t, ids, |ids|)
  {
    nearest := None;
    var i := 0;
    while i < |ids|
      invariant 0 <= i <= |ids|
      invariant nearest == Nearest(t, ids, i)
    {
      var distToStation := (t.stationDistances[i] - t.distanceAlongLine) * t.direction as real;
      assert distToStation == Ahead(t, i);
      if Some(ids[i]) != t.lastStoppedAt && distToStation > 0.0 && (nearest.None? || distToStation < nearest.value) {
        nearest := Some(distToStation);
      }
      i := i + 1;
    }
  }

  /** The loop over the line's stations that stops at the first one within reach, with its `break`. */
  method FindStop(t: Train, ids: seq<nat>) returns (stop: Option<nat>)
    requires |ids| == |t.stationDistances|
    ensures stop == FirstStop(t, ids, |ids|)
  {
    var j := 0;
    while j < |ids|
      invariant 0 <= j <= |ids|
      invariant FirstStop(t, ids, j) == None
    {
      if -STOP_RADIUS < t.distanceAlongLine - t.stationDistances[j] < STOP_RADIUS && Some(ids[j]) != t.lastStoppedAt {
        assert FirstStop(t, ids, j + 1) == Some(j);
        FirstStopAfter(t, ids, j + 1);
        return Some(j);
      }
      j := j + 1;
    }
    return None;
  }

  /** Once found, the first stop among the first `n` stations is the first stop among all of them. */
  lemma {:induction false} FirstStopAfter(t: Train, ids: seq<nat>, n: nat)
    requires n <= |ids| == |t.stationDistances|
    requires FirstStop(t, ids, n).Some?
    ensures FirstStop(t, ids, |ids|) == FirstStop(t, ids, n)
    decreases |ids| - n
  {
    if n < |ids| {
      assert FirstStop(t, ids, n + 1) == FirstStop(t, ids, n);
      FirstStopAfter(t, ids, n + 1);
    }
  }
}
