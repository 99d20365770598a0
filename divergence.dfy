/**
 * The skeleton of `calculate_lyapunov_exponent` in rossler_attractor.py:
 * pointwise distances of two trajectories, the second-half window, the
 * re-zeroed time axis, the filter to positive distances, and the 0.05
 * noise floor. The numeric library calls it makes (the Euclidean norm, the
 * logarithm, the degree-one least-squares fit) are the parameters `norm`,
 * `log` and `polyfit`, about which nothing is assumed.
 */
module Divergence {
  import opened VectorField

  /** Slopes below this are reported as no divergence at all. */
  const NOISE_FLOOR: real := 0.05

  /** The distance between corresponding rows of two trajectories. */
  function Distances(traj1: seq<State>, traj2: seq<State>, norm: State -> real): (d: seq<real>)
    requires |traj1| == |traj2|
  {
    seq(|traj1|, i requires 0 <= i < |traj1| => norm(Sub(traj1[i], traj2[i])))
  }

  /** The second half of a sequence, from index |s|/2 (rounded down) on. */
  function SecondHalf(s: seq<real>): (w: seq<real>)
    ensures |w| == |s| - |s| / 2
    ensures forall i :: 0 <= i < |w| ==> w[i] == s[|s| / 2 + i]
  {
    s[|s| / 2..]
  }

  /** The time of each retained sample, counted from the start of the window. */
  function TimeAxis(n: nat, dt: real): (t: seq<real>)
  {
    seq(n, i requires 0 <= i < n => i as real * dt)
  }

  /**
   * The indices below `n` at which `d` is strictly positive, in increasing
   * order: the boolean mask `distances > 0` as a list of positions.
   */
  function PositiveIndices(d: seq<real>, n: nat): (idx: seq<nat>)
    requires n <= |d|
    ensures forall k :: 0 <= k < |idx| ==> idx[k] < n && d[idx[k]] > 0.0
    ensures forall j, k :: 0 <= j < k < |idx| ==> idx[j] < idx[k]
    ensures forall i :: 0 <= i < n && d[i] > 0.0 ==> i in idx
    decreases n
  {
    if n == 0 then []
    else
      var rest := PositiveIndices(d, n - 1);
      if d[n - 1] > 0.0 then rest + [n - 1] else rest
  }

  /** `xs` picked at the positions `idx`. */
  function Pick(xs: seq<real>, idx: seq<nat>): (r: seq<real>)
    requires forall k :: 0 <= k < |idx| ==> idx[k] < |xs|
  {
    seq(|idx|, k requires 0 <= k < |idx| => xs[idx[k]])
  }

  /** The noise floor: a slope below 0.05 is reported as exactly 0, any other slope unchanged. */
  function Threshold(slope: real): (r: real)
    ensures r == 0.0 || r >= NOISE_FLOOR
    ensures slope >= NOISE_FLOOR ==> r == slope
    ensures slope < NOISE_FLOOR ==> r == 0.0
  {
    if slope < NOISE_FLOOR then 0.0 else slope
  }

  /**
   * The fitted slope of log(distance/epsilon) against window time, over the
   * window positions `valid`: the fit sees, for the k-th position p, the
   * time p * dt and the value log(distances[p] / epsilon).
   */
  function FitSlope(distances: seq<real>, valid: seq<nat>, dt: real, epsilon: real,
                    log: real -> real, polyfit: (seq<real>, seq<real>) -> (real, real)): (slope: real)
    requires epsilon != 0.0
    requires forall k :: 0 <= k < |valid| ==> valid[k] < |distances|
    ensures slope == polyfit(FitTimes(valid, dt), FitValues(distances, valid, epsilon, log)).0
  {
    var validDistances := Pick(distances, valid);
    var logRatios := seq(|validDistances|, k requires 0 <= k < |validDistances| => log(validDistances[k] / epsilon));
    var times := Pick(TimeAxis(|distances|, dt), valid);
    forall k | 0 <= k < |valid|
      ensures times[k] == FitTimes(valid, dt)[k]
    {
      TimeAt(|distances|, dt, valid[k]);
    }
    assert times == FitTimes(valid, dt);
    assert logRatios == FitValues(distances, valid, epsilon, log);
    polyfit(times, logRatios).0
  }

  /** The times handed to the fit: position p of the window is time p * dt. */
  function FitTimes(valid: seq<nat>, dt: real): seq<real>
  {
    seq(|valid|, k requires 0 <= k < |valid| => valid[k] as real * dt)
  }

  /** The values handed to the fit: log(d / epsilon) for each retained distance d. */
  function FitValues(distances: seq<real>, valid: seq<nat>, epsilon: real, log: real -> real): seq<real>
    requires epsilon != 0.0
    requires forall k :: 0 <= k < |valid| ==> valid[k] < |distances|
  {
    seq(|valid|, k requires 0 <= k < |valid| => log(distances[valid[k]] / epsilon))
  }

  /** Window position i holds the distance of rows |traj1|/2 + i. */
  lemma WindowDistance(traj1: seq<State>, traj2: seq<State>, norm: State -> real, i: nat)
    requires |traj1| == |traj2|
    requires i < |traj1| - |traj1| / 2
    ensures SecondHalf(Distances(traj1, traj2, norm))[i]
         == norm(Sub(traj1[|traj1| / 2 + i], traj2[|traj1| / 2 + i]))
  {
  }

  /**
   * The divergence-rate estimate of two equally long trajectories: 0 when
   * no distance in the second half is positive; otherwise the fitted slope
   * of log(distance/epsilon) against window time, reported as 0 below the
   * noise floor. The result is 0 or at least 0.05; when some window
   * distance is positive it is the fitted slope itself if that is at least
   * 0.05, and 0 otherwise.
   */
  function LyapunovExponent(traj1: seq<State>, traj2: seq<State>, dt: real, epsilon: real,
                            norm: State -> real, log: real -> real,
                            polyfit: (seq<real>, seq<real>) -> (real, real)): (r: real)
    requires |traj1| == |traj2|
    requires epsilon != 0.0
    ensures r == 0.0 || r >= NOISE_FLOOR
    ensures (forall i :: |traj1| / 2 <= i < |traj1| ==> norm(Sub(traj1[i], traj2[i])) <= 0.0) ==> r == 0.0
    ensures var w := SecondHalf(Distances(traj1, traj2, norm));
            var idx := PositiveIndices(w, |w|);
            var slope := polyfit(FitTimes(idx, dt), FitValues(w, idx, epsilon, log)).0;
            idx != [] ==> r == (if slope < NOISE_FLOOR then 0.0 else slope)
  {
    var distances := SecondHalf(Distances(traj1, traj2, norm));
    var valid := PositiveIndices(distances, |distances|);
    if valid == [] then 0.0
    else
      WindowDistance(traj1, traj2, norm, valid[0]);
      Threshold(FitSlope(distances, valid, dt, epsilon, log, polyfit))
  }

  /**
   * Only the second half matters: trajectories that agree with another pair
   * from index |traj1|/2 on give the same estimate.
   */
  lemma FirstHalfIrrelevant(traj1: seq<State>, traj2: seq<State>, other1: seq<State>, other2: seq<State>,
                            dt: real, epsilon: real, norm: State -> real, log: real -> real,
                            polyfit: (seq<real>, seq<real>) -> (real, real))
    requires |traj1| == |traj2| == |other1| == |other2|
    requires epsilon != 0.0
    requires forall i :: |traj1| / 2 <= i < |traj1| ==> traj1[i] == other1[i] && traj2[i] == other2[i]
    ensures LyapunovExponent(traj1, traj2, dt, epsilon, norm, log, polyfit)
         == LyapunovExponent(other1, other2, dt, epsilon, norm, log, polyfit)
  {
    var w := SecondHalf(Distances(traj1, traj2, norm));
    var w' := SecondHalf(Distances(other1, other2, norm));
    forall i | 0 <= i < |w|
      ensures w[i] == w'[i]
    {
      assert w[i] == norm(Sub(traj1[|traj1| / 2 + i], traj2[|traj1| / 2 + i]));
    }
    assert w == w';
  }

  /**
   * With a norm that ignores sign, the estimate does not depend on which
   * trajectory comes first.
   */
  lemma SwapSymmetric(traj1: seq<State>, traj2: seq<State>, dt: real, epsilon: real,
                      norm: State -> real, log: real -> real,
                      polyfit: (seq<real>, seq<real>) -> (real, real))
    requires |traj1| == |traj2|
    requires epsilon != 0.0
    requires forall v :: norm(Scale(-1.0, v)) == norm(v)
    ensures LyapunovExponent(traj1, traj2, dt, epsilon, norm, log, polyfit)
         == LyapunovExponent(traj2, traj1, dt, epsilon, norm, log, polyfit)
  {
    var d := Distances(traj1, traj2, norm);
    var d' := Distances(traj2, traj1, norm);
    forall i | 0 <= i < |d|
      ensures d[i] == d'[i]
    {
      SubAntisymmetric(traj1[i], traj2[i]);
      assert norm(Sub(traj2[i], traj1[i])) == norm(Scale(-1.0, Sub(traj1[i], traj2[i])));
    }
    assert d == d';
  }

  /** A trajectory compared with itself shows no divergence, for a norm with norm(0) == 0. */
  lemma IdenticalTrajectoriesGiveZero(traj: seq<State>, dt: real, epsilon: real,
                                      norm: State -> real, log: real -> real,
                                      polyfit: (seq<real>, seq<real>) -> (real, real))
    requires epsilon != 0.0
    requires norm(ORIGIN) == 0.0
    ensures LyapunovExponent(traj, traj, dt, epsilon, norm, log, polyfit) == 0.0
  {
    forall i | |traj| / 2 <= i < |traj|
      ensures norm(Sub(traj[i], traj[i])) <= 0.0
    {
      assert Sub(traj[i], traj[i]) == ORIGIN;
    }
  }

  /**
   * The samples handed to the fit: the k-th retained sample pairs the time
   * p * dt with distance d[p] > 0, where p is the window position of the
   * k-th positive distance.
   */
  lemma RetainedSample(d: seq<real>, dt: real, k: nat)
    requires k < |PositiveIndices(d, |d|)|
    ensures var p := PositiveIndices(d, |d|)[k];
            Pick(TimeAxis(|d|, dt), PositiveIndices(d, |d|))[k] == p as real * dt
            && Pick(d, PositiveIndices(d, |d|))[k] == d[p] > 0.0
  {
    var idx := PositiveIndices(d, |d|);
    TimeAt(|d|, dt, idx[k]);
  }

  /** The sample at window position i is taken at time i * dt. */
  lemma TimeAt(n: nat, dt: real, i: nat)
    requires i < n
    ensures TimeAxis(n, dt)[i] == i as real * dt
  {
  }
}
