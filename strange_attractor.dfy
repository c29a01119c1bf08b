/**
 * The strange-attractor background: a point integrated along one of three
 * chaotic systems leaves a trail that fades over ten seconds; on request the
 * view fades out, swaps in a different attractor and fades back in. In
 * reduced-motion mode a precomputed path is drawn once instead.
 *
 * The numerics are supplied: `step(p, dt)` stands for one `rk4Step` of the
 * attractor being drawn and `project(p)` for `project` onto the canvas (both
 * need floating point, trigonometry and the bounds from `computeBounds`).
 * `Math.random()` draws and animation-frame times are parameters.
 */
module StrangeAttractor {
  import opened Wrappers
  import opened JsNumber
  import opened Color

  datatype Vec3 = Vec3(x: real, y: real, z: real)
  datatype TrailPoint = TrailPoint(x: real, y: real, time: real)

  /** What the model keeps of an `AttractorConfig`; the derivative and rotation only feed the numerics. */
  datatype AttractorConfig = AttractorConfig(name: string, speed: real, initial: Vec3, staticIterations: nat)

  const ATTRACTORS: seq<AttractorConfig> := [
    AttractorConfig("Aizawa", 0.002, Vec3(0.1, 0.0, 0.0), 5000),
    AttractorConfig("Sprott", 0.004, Vec3(0.63, 0.47, -0.54), 10000),
    AttractorConfig("ThreeScroll", 0.00015, Vec3(0.1, 0.1, 0.1), 500)]

  const LIFESPAN: real := 10000.0
  const STEPS_PER_FRAME: nat := 8
  const COLOR_LERP_SPEED: real := 0.015
  const FADE_SPEED: real := 0.003
  const MAX_FRAME_DELTA: real := 50.0
  const STATIC_DT: real := 0.01

  // ------------------------------------------------------------ choosing an attractor

  /**
   * `pickNewAttractor` over `count` attractors: with at most one there is
   * nothing to choose; otherwise draw until the index differs from the
   * current one. The draws are the successive `Math.random()` results; the
   * source would draw forever, so the caller supplies a sequence in which
   * some draw lands elsewhere.
   */
  method PickNewAttractor(count: nat, currentIndex: nat, draws: seq<real>) returns (index: nat)
    requires forall j :: 0 <= j < |draws| ==> 0.0 <= draws[j] < 1.0
    requires count > 1 ==> exists j :: 0 <= j < |draws| && RandomIndex(draws[j], count) != currentIndex
    ensures count <= 1 ==> index == 0
    ensures count > 1 ==> index < count && index != currentIndex
    ensures count > 1 ==> exists j :: 0 <= j < |draws| && index == RandomIndex(draws[j], count) &&
                                   (forall i :: 0 <= i < j ==> RandomIndex(draws[i], count) == currentIndex)
  {
    if count <= 1 {
      return 0;
    }
    var j := 0;
    index := RandomIndex(draws[0], count);
    while index == currentIndex
      invariant 0 <= j < |draws| && index == RandomIndex(draws[j], count)
      invariant forall i :: 0 <= i < j ==> RandomIndex(draws[i], count) == currentIndex
      invariant exists k :: j <= k < |draws| && RandomIndex(draws[k], count) != currentIndex
      decreases |draws| - j
    {
      j := j + 1;
      index := RandomIndex(draws[j], count);
    }
  }

  // ------------------------------------------------------------ the trail

  /** The position after `n` integration steps of size `dt` from `p`. */
  function PosAfter(p: Vec3, dt: real, step: (Vec3, real) -> Vec3, n: nat): Vec3
  {
    if n == 0 then p else step(PosAfter(p, dt, step, n - 1), dt)
  }

  /** The projected points of steps `lo + 1` to `hi`, all stamped `now`. */
  function Stamped(p: Vec3, dt: real, step: (Vec3, real) -> Vec3, project: Vec3 -> (real, real),
                   lo: nat, hi: nat, now: real): (r: seq<TrailPoint>)
    requires lo <= hi
    ensures |r| == hi - lo
    ensures forall k :: 0 <= k < |r| ==> r[k].time == now
    decreases hi - lo
  {
    if lo == hi then []
    else
      var q := project(PosAfter(p, dt, step, hi));
      Stamped(p, dt, step, project, lo, hi - 1, now) + [TrailPoint(q.0, q.1, now)]
  }

  /** How many points at the front of the trail are older than `LIFESPAN`. */
  function Expired(points: seq<TrailPoint>, now: real): (n: nat)
    ensures n <= |points|
    ensures forall i :: 0 <= i < n ==> now - points[i].time > LIFESPAN
    ensures n < |points| ==> now - points[n].time <= LIFESPAN
  {
    if points != [] && now - points[0].time > LIFESPAN then 1 + Expired(points[1..], now) else 0
  }

  predicate TimesSorted(points: seq<TrailPoint>)
  {
    forall i, j :: 0 <= i < j < |points| ==> points[i].time <= points[j].time
  }

  /** Points stamped `now` are never expired, so trimming stops before the points just added. */
  lemma {:induction false} ExpiredBeforeNew(old_: seq<TrailPoint>, added: seq<TrailPoint>, now: real)
    requires forall k :: 0 <= k < |added| ==> added[k].time == now
    ensures Expired(old_ + added, now) <= |old_|
    ensures Expired(old_ + added, now) == Expired(old_, now)
  {
    if old_ == [] {
      assert [] + added == added;
    } else {
      assert (old_ + added)[0] == old_[0] && (old_ + added)[1..] == old_[1..] + added;
      if now - old_[0].time > LIFESPAN {
        ExpiredBeforeNew(old_[1..], added, now);
      }
    }
  }

  /**
   * On a trail in time order, the points left after trimming are all within
   * `LIFESPAN` of `now`, and the trail stays in time order.
   */
  lemma TrimmedAllLive(points: seq<TrailPoint>, now: real)
    requires TimesSorted(points)
    ensures var kept := points[Expired(points, now)..];
      TimesSorted(kept) && forall i :: 0 <= i < |kept| ==> now - kept[i].time <= LIFESPAN
  {
    var n := Expired(points, now);
    var kept := points[n..];
    forall i | 0 <= i < |kept|
      ensures now - kept[i].time <= LIFESPAN
    {
      assert kept[i] == points[n + i];
      assert points[n].time <= points[n + i].time;
    }
  }

  /** The step size of one of a frame's eight integration steps. */
  function FrameDt(index: nat, delta: real): real
    requires index < |ATTRACTORS|
  {
    ATTRACTORS[index].speed * delta / STEPS_PER_FRAME as real
  }

  /** An `AttractorState`: the attractor, the integrated position and the trail of projected points. */
  class AttractorState {
    const index: nat
    var pos: Vec3
    var points: seq<TrailPoint>

    /** `createAttractorState`: start at the attractor's initial point with an empty trail. */
    constructor (index: nat)
      requires index < |ATTRACTORS|
      ensures this.index == index && pos == ATTRACTORS[index].initial && points == []
    {
      this.index := index;
      pos := ATTRACTORS[index].initial;
      points := [];
    }

    /**
     * `updateState`: eight integration steps of `speed * delta / 8` each,
     * every new position projected and appended stamped `now`; then the
     * points older than `LIFESPAN` are shifted off the front.
     */
    method UpdateState(now: real, delta: real, step: (Vec3, real) -> Vec3, project: Vec3 -> (real, real))
      requires index < |ATTRACTORS|
      modifies this
      ensures pos == PosAfter(old(pos), FrameDt(index, delta), step, STEPS_PER_FRAME)
      ensures var all := old(points) + Stamped(old(pos), FrameDt(index, delta), step, project, 0, STEPS_PER_FRAME, now);
        points == all[Expired(all, now)..]
    {
      var dt := FrameDt(index, delta);
      ghost var p0 := pos;
      ghost var before := points;
      for i := 0 to STEPS_PER_FRAME
        invariant pos == PosAfter(p0, dt, step, i)
        invariant points == before + Stamped(p0, dt, step, project, 0, i, now)
      {
        pos := step(pos, dt);
        var screen := project(pos);
        points := points + [TrailPoint(screen.0, screen.1, now)];
      }
      ghost var all := points;
      ghost var dropped := 0;
      while |points| > 0 && now - points[0].time > LIFESPAN
        invariant pos == PosAfter(p0, dt, step, STEPS_PER_FRAME)
        invariant dropped <= |all| && points == all[dropped..]
        invariant dropped + Expired(points, now) == Expired(all, now)
        decreases |points|
      {
        points := points[1..];
        dropped := dropped + 1;
      }
      assert Expired(points, now) == 0;
    }
  }

  /**
   * What a frame leaves of the trail: the new points all survive, at the
   * end and in order, the first point left is within `LIFESPAN` of `now`,
   * and a trail that was in time order and no newer than `now` is still in
   * time order with every point within `LIFESPAN`.
   */
  lemma UpdatedTrail(before: seq<TrailPoint>, added: seq<TrailPoint>, now: real)
    requires |added| == STEPS_PER_FRAME && forall k :: 0 <= k < |added| ==> added[k].time == now
    ensures var all := before + added;
      var kept := all[Expired(all, now)..];
      |kept| >= STEPS_PER_FRAME && kept[|kept| - STEPS_PER_FRAME..] == added &&
      now - kept[0].time <= LIFESPAN
    ensures TimesSorted(before) && (forall i :: 0 <= i < |before| ==> before[i].time <= now) ==>
      var all := before + added;
      var kept := all[Expired(all, now)..];
      TimesSorted(kept) && forall i :: 0 <= i < |kept| ==> now - kept[i].time <= LIFESPAN
  {
    var all := before + added;
    ExpiredBeforeNew(before, added, now);
    var n := Expired(all, now);
    assert all[n..][|all[n..]| - STEPS_PER_FRAME..] == added;
    if TimesSorted(before) && (forall i :: 0 <= i < |before| ==> before[i].time <= now) {
      assert TimesSorted(all) by {
        forall i, j | 0 <= i < j < |all|
          ensures all[i].time <= all[j].time
        {
          if j < |before| {
          } else if i < |before| {
            assert all[j] == added[j - |before|];
          } else {
            assert all[i] == added[i - |before|] && all[j] == added[j - |before|];
          }
        }
      }
      TrimmedAllLive(all, now);
    }
  }

  // ------------------------------------------------------------ fading

  /** The opacity part of `animate`: the new opacity and fading flag, and whether a fade-out just ended. */
  datatype Fade = Fade(opacity: real, fadingOut: bool, ended: bool)

  function FadeStep(opacity: real, fadingOut: bool): (f: Fade)
  {
    if fadingOut then
      if opacity - FADE_SPEED <= 0.0 then Fade(0.0, false, true) else Fade(opacity - FADE_SPEED, true, false)
    else if opacity < 1.0 then
      Fade(if opacity + FADE_SPEED > 1.0 then 1.0 else opacity + FADE_SPEED, false, false)
    else Fade(opacity, false, false)
  }

  /**
   * While fading out the opacity drops by `FADE_SPEED` until it would reach
   * zero, where it is pinned at 0 and the fade-out ends; otherwise it rises by
   * `FADE_SPEED` up to 1. Opacity in [0, 1] stays there.
   */
  lemma FadeStepSpec(opacity: real, fadingOut: bool)
    ensures var f := FadeStep(opacity, fadingOut);
      (fadingOut && opacity - FADE_SPEED > 0.0 ==> f == Fade(opacity - FADE_SPEED, true, false)) &&
      (fadingOut && opacity - FADE_SPEED <= 0.0 ==> f == Fade(0.0, false, true)) &&
      (!fadingOut ==> !f.fadingOut && !f.ended && (opacity < 1.0 ==> f.opacity == Min(opacity + FADE_SPEED, 1.0))) &&
      (0.0 <= opacity <= 1.0 ==> 0.0 <= f.opacity <= 1.0)
  {
  }

  function Min(a: real, b: real): real
  {
    if a <= b then a else b
  }

  /** `n` frames of `FadeStep` from `f`; `ended` reports the last frame. */
  function FadeFrames(f: Fade, n: nat): Fade
  {
    if n == 0 then f else
      var prev := FadeFrames(f, n - 1);
      FadeStep(prev.opacity, prev.fadingOut)
  }

  /** Before the 334th frame, a fade-out from full opacity has dropped by `FADE_SPEED` a frame and is still going. */
  lemma {:induction false} FadingOutRun(n: nat)
    requires 1 <= n <= 333
    ensures FadeFrames(Fade(1.0, true, false), n) == Fade(1.0 - n as real * FADE_SPEED, true, false)
  {
    if n > 1 {
      FadingOutRun(n - 1);
    }
  }

  /**
   * From full opacity a fade-out lasts exactly 334 frames: after 333 the
   * attractor is still visible and fading, and the 334th pins the opacity at
   * 0, clears `fadingOut` and ends the fade-out, which is when the swap happens.
   */
  lemma FadeOutFrames()
    ensures var f := FadeFrames(Fade(1.0, true, false), 333); f.opacity > 0.0 && f.fadingOut && !f.ended
    ensures FadeFrames(Fade(1.0, true, false), 334) == Fade(0.0, false, true)
  {
    FadingOutRun(333);
  }

  /** The number of points `precomputeStaticPoints` keeps: those after the warm-up of `min(500, iterations / 10)` steps. */
  function StaticCount(iterations: nat): (n: nat)
  {
    var warmup := Min(500.0, iterations as real / 10.0);
    var first := warmup.Floor + 1;
    if first >= iterations then 0 else iterations - first
  }

  /** Every configured attractor keeps at least three static points, so `drawStatic` always draws. */
  lemma StaticCounts()
    ensures StaticCount(ATTRACTORS[0].staticIterations) == 4499
    ensures StaticCount(ATTRACTORS[1].staticIterations) == 9499
    ensures StaticCount(ATTRACTORS[2].staticIterations) == 449
    ensures forall i :: 0 <= i < |ATTRACTORS| ==> StaticCount(ATTRACTORS[i].staticIterations) >= 3
  {
    assert (5000 as real / 10.0).Floor == 500;
    assert (10000 as real / 10.0).Floor == 1000;
    assert (500.0 / 10.0).Floor == 50;
  }

  /** The loop of `precomputeStaticPoints` for attractor `a`. */
  method StaticPoints(a: AttractorConfig, step: (Vec3, real) -> Vec3, project: Vec3 -> (real, real)) returns (points: seq<(real, real)>)
    ensures var first := Min(500.0, a.staticIterations as real / 10.0).Floor + 1;
      |points| == StaticCount(a.staticIterations) &&
      forall k :: 0 <= k < |points| ==> points[k] == project(PosAfter(a.initial, STATIC_DT, step, first + k + 1))
  {
    var iterations := a.staticIterations;
    var warmup := Min(500.0, iterations as real / 10.0);
    var first := warmup.Floor + 1;
    points := [];
    var p := a.initial;
    for i := 0 to iterations
      invariant p == PosAfter(a.initial, STATIC_DT, step, i)
      invariant |points| == if i <= first then 0 else i - first
      invariant forall k :: 0 <= k < |points| ==> points[k] == project(PosAfter(a.initial, STATIC_DT, step, first + k + 1))
    {
      p := step(p, STATIC_DT);
      PastWarmup(i, warmup);
      if i as real > warmup {
        points := points + [project(p)];
      }
    }
  }

  /** Step `i` is past a warm-up of `w` steps exactly when it is at least `floor(w) + 1`. */
  lemma PastWarmup(i: nat, w: real)
    requires w >= 0.0
    ensures i as real > w <==> i >= w.Floor + 1
  {
  }

  /** The view: the closure state of the component's effect and its event handlers. */
  class AttractorView {
    const prefersReducedMotion: bool
    const startTime: real
    var currentIndex: nat
    var state: AttractorState
    var nextState: Option<AttractorState>
    var opacity: real
    var fadingOut: bool
    var currentColor: RGB
    var targetColor: RGB
    var lastTime: real
    var staticPoints: seq<(real, real)>

    /**
     * What every event leaves true: the index names the attractor drawn, the
     * opacity is in [0, 1], and a pending attractor exists only during a
     * fade-out and always differs from the one drawn.
     */
    ghost predicate Valid()
      reads this
    {
      currentIndex < |ATTRACTORS| && state.index == currentIndex &&
      0.0 <= opacity <= 1.0 && (prefersReducedMotion ==> nextState.None?) &&
      (nextState.Some? ==> fadingOut && nextState.value.index < |ATTRACTORS| && nextState.value.index != currentIndex)
    }

    /** Mounting the component: a random attractor, full opacity, white, and in reduced-motion mode the static path. */
    constructor (prefersReducedMotion: bool, startTime: real, draw: real,
                 step: (Vec3, real) -> Vec3, project: Vec3 -> (real, real))
      requires 0.0 <= draw < 1.0
      ensures Valid() && fresh(state)
      ensures this.prefersReducedMotion == prefersReducedMotion && this.startTime == startTime
      ensures currentIndex == RandomIndex(draw, |ATTRACTORS|) && state.points == []
      ensures nextState.None? && opacity == 1.0 && !fadingOut && lastTime == 0.0
      ensures currentColor == WHITE && targetColor == WHITE
      ensures prefersReducedMotion ==> |staticPoints| == StaticCount(ATTRACTORS[currentIndex].staticIterations)
      ensures !prefersReducedMotion ==> staticPoints == []
    {
      this.prefersReducedMotion := prefersReducedMotion;
      this.startTime := startTime;
      var index := RandomIndex(draw, |ATTRACTORS|);
      currentIndex := index;
      state := new AttractorState(index);
      nextState := None;
      opacity := 1.0;
      fadingOut := false;
      currentColor := WHITE;
      targetColor := WHITE;
      lastTime := 0.0;
      staticPoints := [];
      new;
      if prefersReducedMotion {
        PrecomputeStaticPoints(step, project);
        DrawStatic();
      }
    }

    /**
     * `precomputeStaticPoints`: run the attractor's `staticIterations` steps
     * of 0.01 from its initial point and keep the projections after the
     * warm-up.
     */
    method PrecomputeStaticPoints(step: (Vec3, real) -> Vec3, project: Vec3 -> (real, real))
      requires currentIndex < |ATTRACTORS| && state.index == currentIndex
      modifies this`staticPoints
      ensures var a := ATTRACTORS[currentIndex];
        var first := Min(500.0, a.staticIterations as real / 10.0).Floor + 1;
        |staticPoints| == StaticCount(a.staticIterations) &&
        forall k :: 0 <= k < |staticPoints| ==> staticPoints[k] == project(PosAfter(a.initial, STATIC_DT, step, first + k + 1))
    {
      staticPoints := StaticPoints(ATTRACTORS[state.index], step, project);
    }

    /** The state change of `drawStatic`: with at least three points the colour moves 30% of the way to the target. */
    method DrawStatic()
      modifies this`currentColor
      ensures currentColor == if |staticPoints| < 3 then old(currentColor) else LerpColor(old(currentColor), targetColor, 0.3)
    {
      if |staticPoints| < 3 {
        return;
      }
      currentColor := LerpColor(currentColor, targetColor, 0.3);
    }

    /** `handleColorChange`: the target becomes the parsed colour (white for anything not starting with '#'). */
    method HandleColorChange(detail: string)
      modifies this`targetColor, this`currentColor
      ensures targetColor == ParseColor(detail)
      ensures |detail| == 0 || detail[0] != '#' ==> targetColor == WHITE
      ensures !prefersReducedMotion ==> currentColor == old(currentColor)
      ensures prefersReducedMotion && |staticPoints| >= 3 ==> currentColor == LerpColor(old(currentColor), targetColor, 0.3)
    {
      targetColor := ParseColor(detail);
      if prefersReducedMotion {
        DrawStatic();
      }
    }

    /** `handleColorReset`: back to white. */
    method HandleColorReset()
      modifies this`targetColor, this`currentColor
      ensures targetColor == WHITE
      ensures !prefersReducedMotion ==> currentColor == old(currentColor)
      ensures prefersReducedMotion && |staticPoints| >= 3 ==> currentColor == LerpColor(old(currentColor), WHITE, 0.3)
    {
      targetColor := WHITE;
      if prefersReducedMotion {
        DrawStatic();
      }
    }

    /**
     * `handleNewAttractor`: in reduced-motion mode switch at once and redraw;
     * when animating, schedule a different attractor and start fading out,
     * but only if no swap is already under way.
     */
    method HandleNewAttractor(draws: seq<real>, step: (Vec3, real) -> Vec3, project: Vec3 -> (real, real))
      requires Valid()
      requires forall j :: 0 <= j < |draws| ==> 0.0 <= draws[j] < 1.0
      requires exists j :: 0 <= j < |draws| && RandomIndex(draws[j], |ATTRACTORS|) != currentIndex
      modifies this
      ensures Valid()
      ensures prefersReducedMotion ==>
        currentIndex != old(currentIndex) && fresh(state) && state.points == [] &&
        nextState == old(nextState) && fadingOut == old(fadingOut) && opacity == old(opacity) &&
        |staticPoints| == StaticCount(ATTRACTORS[currentIndex].staticIterations)
      ensures !prefersReducedMotion && !old(fadingOut) && old(nextState).None? ==>
        fadingOut && nextState.Some? && fresh(nextState.value) && nextState.value.points == [] &&
        nextState.value.index != currentIndex &&
        state == old(state) && currentIndex == old(currentIndex) && opacity == old(opacity)
      ensures !prefersReducedMotion && (old(fadingOut) || old(nextState).Some?) ==>
        nextState == old(nextState) && fadingOut == old(fadingOut) && state == old(state) &&
        currentIndex == old(currentIndex) && opacity == old(opacity)
      ensures targetColor == old(targetColor)
    {
      if prefersReducedMotion {
        var index := PickNewAttractor(|ATTRACTORS|, currentIndex, draws);
        currentIndex := index;
        state := new AttractorState(index);
        PrecomputeStaticPoints(step, project);
        DrawStatic();
      } else if !fadingOut && nextState.None? {
        var index := PickNewAttractor(|ATTRACTORS|, currentIndex, draws);
        var s := new AttractorState(index);
        nextState := Some(s);
        fadingOut := true;
      }
    }

    /**
     * The opacity part of `animate`: one fade step, and when a fade-out ends
     * with an attractor pending, that attractor becomes the one drawn.
     */
    method StepFade()
      requires Valid()
      modifies this`opacity, this`fadingOut, this`currentIndex, this`state, this`nextState
      ensures Valid()
      ensures var f := FadeStep(old(opacity), old(fadingOut));
        opacity == f.opacity && fadingOut == f.fadingOut &&
        (f.ended && old(nextState).Some? ==> state == old(nextState).value && nextState.None?) &&
        (!(f.ended && old(nextState).Some?) ==> state == old(state) && nextState == old(nextState))
    {
      var f := FadeStep(opacity, fadingOut);
      FadeStepSpec(opacity, fadingOut);
      opacity, fadingOut := f.opacity, f.fadingOut;
      if f.ended && nextState.Some? {
        currentIndex := nextState.value.index;
        state := nextState.value;
        nextState := None;
      }
    }

    /**
     * `animate` at frame time `time`: the frame delta is capped at 50 ms, the
     * colour moves 1.5% towards the target, the opacity takes one fade step
     * (swapping in a pending attractor when a fade-out ends), and the
     * attractor then drawn advances its trail at `time - startTime`.
     */
    method Animate(time: real, step: (Vec3, real) -> Vec3, project: Vec3 -> (real, real))
      requires Valid()
      modifies this, state, if nextState.Some? then {nextState.value} else {}
      ensures Valid()
      ensures var f := FadeStep(old(opacity), old(fadingOut));
        opacity == f.opacity && fadingOut == f.fadingOut &&
        (f.ended && old(nextState).Some? ==> state == old(nextState).value && nextState.None?) &&
        (!(f.ended && old(nextState).Some?) ==> state == old(state) && nextState == old(nextState))
      ensures lastTime == time && currentColor == LerpColor(old(currentColor), targetColor, COLOR_LERP_SPEED)
      ensures targetColor == old(targetColor) && staticPoints == old(staticPoints)
      ensures var drawn := state;
        var dt := FrameDt(drawn.index, Min(time - old(lastTime), MAX_FRAME_DELTA));
        var all := old(drawn.points) + Stamped(old(drawn.pos), dt, step, project, 0, STEPS_PER_FRAME, time - startTime);
        drawn.pos == PosAfter(old(drawn.pos), dt, step, STEPS_PER_FRAME) &&
        drawn.points == all[Expired(all, time - startTime)..]
    {
      var delta := Frame(time);
      state.UpdateState(time - startTime, delta, step, project);
    }

    /** The part of `animate` before the trail moves: the capped delta, the clock, the colour and the fade. */
    method Frame(time: real) returns (delta: real)
      requires Valid()
      modifies this
      ensures Valid() && delta == Min(time - old(lastTime), MAX_FRAME_DELTA)
      ensures delta <= MAX_FRAME_DELTA && (time - old(lastTime) <= MAX_FRAME_DELTA ==> delta == time - old(lastTime))
      ensures var f := FadeStep(old(opacity), old(fadingOut));
        opacity == f.opacity && fadingOut == f.fadingOut &&
        (f.ended && old(nextState).Some? ==> state == old(nextState).value && nextState.None?) &&
        (!(f.ended && old(nextState).Some?) ==> state == old(state) && nextState == old(nextState))
      ensures lastTime == time && currentColor == LerpColor(old(currentColor), targetColor, COLOR_LERP_SPEED)
      ensures targetColor == old(targetColor) && staticPoints == old(staticPoints)
    {
      delta := Min(time - lastTime, MAX_FRAME_DELTA);
      lastTime := time;
      currentColor := LerpColor(currentColor, targetColor, COLOR_LERP_SPEED);
      StepFade();
    }
  }
}
