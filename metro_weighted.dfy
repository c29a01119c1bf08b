/**
 * `selectWeightedDirection`: a roulette-wheel choice among candidate
 * directions. The weights (`Math.exp` of the centre-weight score) are
 * supplied as positive reals and the single `Math.random()` draw as `rand`.
 */
module MetroWeighted {
  import opened JsNumber

  function Sum(w: seq<real>): real
  {
    if w == [] then 0.0 else w[0] + Sum(w[1..])
  }

  predicate AllPositive(w: seq<real>)
  {
    forall i :: 0 <= i < |w| ==> w[i] > 0.0
  }

  lemma {:induction false} SumAppend(w: seq<real>, x: real)
    ensures Sum(w + [x]) == Sum(w) + x
  {
    if w != [] {
      assert (w + [x])[1..] == w[1..] + [x];
      SumAppend(w[1..], x);
    }
  }

  lemma {:induction false} SumPositive(w: seq<real>)
    requires AllPositive(w) && |w| > 0
    ensures Sum(w) > 0.0
  {
    if |w| > 1 {
      SumPositive(w[1..]);
    }
  }

  /**
   * The slot the wheel stops in for target `t`: subtract the weights in order
   * and stop at the first that takes the remainder to 0 or below; the last
   * slot when none does.
   */
  function PickIndex(w: seq<real>, t: real): (i: nat)
    requires |w| > 0
    ensures i < |w|
  {
    if |w| == 1 || t - w[0] <= 0.0 then 0 else 1 + PickIndex(w[1..], t - w[0])
  }

  /**
   * For positive weights and a target in [0, total), slot `i` is chosen
   * exactly when the target falls in (w[0] + ... + w[i-1], w[0] + ... + w[i]]
   * (slot 0 also takes the target 0), so the last-slot fallback is never what
   * decides.
   */
  lemma {:induction false} PickIndexInterval(w: seq<real>, t: real)
    requires |w| > 0 && AllPositive(w) && 0.0 <= t < Sum(w)
    ensures var i := PickIndex(w, t);
      (i == 0 || Sum(w[..i]) < t) && t <= Sum(w[..i + 1])
  {
    var i := PickIndex(w, t);
    assert w[..1] == [w[0]];
    if |w| > 1 && t - w[0] > 0.0 {
      var v := w[1..];
      PickIndexInterval(v, t - w[0]);
      var j := PickIndex(v, t - w[0]);
      assert i == j + 1;
      PrefixSum(w, j);
      PrefixSum(w, j + 1);
    } else if |w| == 1 {
      assert w[1..] == [];
    }
  }

  lemma PrefixSum(w: seq<real>, j: nat)
    requires j < |w|
    ensures Sum(w[..j + 1]) == w[0] + Sum(w[1..][..j])
  {
    assert w[..j + 1][1..] == w[1..][..j];
  }

  /** The interval property pins the slot down: no other slot satisfies it. */
  lemma {:induction false} PickIndexUnique(w: seq<real>, t: real, k: nat)
    requires |w| > 0 && AllPositive(w) && 0.0 <= t < Sum(w)
    requires k < |w| && (k == 0 || Sum(w[..k]) < t) && t <= Sum(w[..k + 1])
    ensures PickIndex(w, t) == k
  {
    var i := PickIndex(w, t);
    PickIndexInterval(w, t);
    if i < k {
      PrefixMonotone(w, i + 1, k);
    } else if k < i {
      PrefixMonotone(w, k + 1, i);
    }
  }

  lemma {:induction false} PrefixMonotone(w: seq<real>, a: nat, b: nat)
    requires AllPositive(w) && a <= b <= |w|
    ensures Sum(w[..a]) <= Sum(w[..b])
    decreases b - a
  {
    if a < b {
      PrefixMonotone(w, a, b - 1);
      assert w[..b] == w[..b - 1] + [w[b - 1]];
      SumAppend(w[..b - 1], w[b - 1]);
    }
  }

  /** `Math.random() * totalWeight`: where on the wheel the draw lands. */
  function WheelTarget(rand: real, w: seq<real>): real
  {
    Scale(rand, Sum(w))
  }

  /** For a draw in [0, 1) the target lies in [0, total). */
  lemma WheelTargetRange(rand: real, w: seq<real>)
    requires 0.0 <= rand < 1.0 && |w| > 0 && AllPositive(w)
    ensures 0.0 <= WheelTarget(rand, w) < Sum(w)
  {
    SumPositive(w);
    ScaleBelow(rand, Sum(w));
  }

  /**
   * `selectWeightedDirection`: 0 when there is no candidate, the candidate
   * when there is one, otherwise the candidate in the slot that
   * `rand * total` falls in.
   */
  method SelectWeightedDirection(availableDirs: seq<int>, weights: seq<real>, rand: real) returns (dir: int)
    requires |weights| == |availableDirs| && AllPositive(weights)
    requires 0.0 <= rand < 1.0
    ensures |availableDirs| == 0 ==> dir == 0
    ensures |availableDirs| == 1 ==> dir == availableDirs[0]
    ensures |availableDirs| >= 2 ==> dir == availableDirs[PickIndex(weights, WheelTarget(rand, weights))]
    ensures |availableDirs| >= 1 ==> dir in availableDirs
  {
    if |availableDirs| == 0 {
      return 0;
    }
    if |availableDirs| == 1 {
      return availableDirs[0];
    }
    var totalWeight := 0.0;
    var k := 0;
    while k < |weights|
      invariant 0 <= k <= |weights|
      invariant totalWeight == Sum(weights[..k])
    {
      assert weights[..k + 1] == weights[..k] + [weights[k]];
      SumAppend(weights[..k], weights[k]);
      totalWeight := totalWeight + weights[k];
      k := k + 1;
    }
    assert weights[..k] == weights;
    ghost var target := WheelTarget(rand, weights);
    var random := Scale(rand, totalWeight);
    assert random == target;
    var i := 0;
    while i < |availableDirs|
      invariant 0 <= i < |availableDirs|
      invariant PickIndex(weights, target) == i + PickIndex(weights[i..], random)
    {
      ghost var before := random;
      assert weights[i..][0] == weights[i];
      random := random - weights[i];
      if random <= 0.0 {
        assert PickIndex(weights[i..], before) == 0;
        return availableDirs[i];
      }
      if i == |availableDirs| - 1 {
        break;
      }
      assert weights[i..][1..] == weights[i + 1..];
      i := i + 1;
    }
    return availableDirs[|availableDirs| - 1];
  }
}
