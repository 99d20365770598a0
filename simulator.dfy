/**
 * The trajectory driver `simulate_rossler` of rossler_attractor.py: the
 * guards on its inputs, the effective step size, the adjusted initial state
 * and the loop that fills the trajectory array one row per step, keeping
 * the previous state whenever a candidate step is not finite.
 *
 * Whether a floating-point number is finite is not a property of reals, so
 * it is the parameter `isFinite`, about which nothing is assumed.
 */
module Simulator {
  import opened Wrappers
  import opened VectorField
  import opened Integrator

  /** Parameters larger than this in magnitude shrink the step. */
  const LARGE_PARAMETER: real := 100.0
  /** The largest step allowed for large parameters (1e-4 in rossler_attractor.py). */
  const STIFF_STEP: real := 0.0001
  /** The offset added to an all-zero initial state (1e-6 in rossler_attractor.py). */
  const ZERO_OFFSET: real := 0.000001

  /** The integration rules the simulator accepts, by name "rk4" and "euler". */
  datatype StepMethod = Rk4 | Euler

  /** The errors the simulator raises. */
  datatype SimError =
    | InvalidStepSize               // dt <= 0
    | InvalidStepCount              // num_steps < 0: the array cannot be shaped or its row 0 written
    | InvalidMethod(name: string)   // a method other than "rk4" or "euler", once a step is taken

  /** The rule a method name selects, if any. */
  function ParseMethod(name: string): (m: Option<StepMethod>)
    ensures m == Some(Rk4) <==> name == "rk4"
    ensures m == Some(Euler) <==> name == "euler"
    ensures m == None <==> name != "rk4" && name != "euler"
  {
    if name == "rk4" then Some(Rk4) else if name == "euler" then Some(Euler) else None
  }

  function Abs(r: real): real {
    if r < 0.0 then -r else r
  }

  function Min(u: real, v: real): real {
    if u <= v then u else v
  }

  /** max(|a|, |b|, |c|). */
  function MaxAbs(p: Params): (m: real)
    ensures m >= Abs(p.a) && m >= Abs(p.b) && m >= Abs(p.c)
    ensures m == Abs(p.a) || m == Abs(p.b) || m == Abs(p.c)
  {
    var ab := if Abs(p.a) >= Abs(p.b) then Abs(p.a) else Abs(p.b);
    if ab >= Abs(p.c) then ab else Abs(p.c)
  }

  /**
   * The step size a run actually uses: never larger than requested,
   * positive when the request is, at most 1e-4 once a parameter exceeds 100
   * in magnitude, and the request itself otherwise.
   */
  function EffectiveStep(p: Params, dt: real): (h: real)
    ensures h <= dt
    ensures dt > 0.0 ==> h > 0.0
    ensures MaxAbs(p) > LARGE_PARAMETER ==> h <= STIFF_STEP && (h == dt || h == STIFF_STEP)
    ensures MaxAbs(p) <= LARGE_PARAMETER ==> h == dt
  {
    if MaxAbs(p) > LARGE_PARAMETER then Min(dt, STIFF_STEP) else dt
  }

  /**
   * Row 0 of a trajectory: the supplied state, except that an absent or
   * all-zero one becomes (1e-6, 1e-6, 1e-6); it is never the origin.
   */
  function StartState(initial: Option<State>): (s: State)
    ensures s != ORIGIN
    ensures initial.Some? && initial.value != ORIGIN ==> s == initial.value
    ensures initial == None || initial == Some(ORIGIN) ==> s == State(ZERO_OFFSET, ZERO_OFFSET, ZERO_OFFSET)
  {
    var s := if initial.None? then ORIGIN else initial.value;
    if s == ORIGIN then Add(s, State(ZERO_OFFSET, ZERO_OFFSET, ZERO_OFFSET)) else s
  }

  /** All three components are finite. */
  predicate AllFinite(isFinite: real -> bool, s: State) {
    isFinite(s.x) && isFinite(s.y) && isFinite(s.z)
  }

  /**
   * The state one step of rule `m` proposes after `s`: the Runge-Kutta step
   * or the inline Euler update of the Roessler field.
   */
  function Candidate(m: StepMethod, p: Params, dt: real, s: State): State {
    match m
    case Rk4 => Rk4Step(STATE_OPS, RosslerOde, s, dt, p)
    case Euler => EulerStep(STATE_OPS, RosslerOde, s, dt, p)
  }

  /** Either rule proposes a rest point of the Roessler field as its own successor. */
  lemma CandidateKeepsRestPoint(m: StepMethod, p: Params, dt: real, s: State)
    requires RosslerOde(s, p) == ORIGIN
    ensures Candidate(m, p, dt, s) == s
  {
    match m
    case Rk4 => Rk4KeepsRestPoint(RosslerOde, s, dt, p);
    case Euler => EulerKeepsRestPoint(RosslerOde, s, dt, p);
  }

  /**
   * The state the simulator stores after `s`: the candidate when it is
   * finite, `s` itself otherwise. A finite state is never followed by a
   * non-finite one.
   */
  function Advance(m: StepMethod, p: Params, dt: real, isFinite: real -> bool, s: State): (r: State)
    ensures AllFinite(isFinite, s) ==> AllFinite(isFinite, r)
    ensures r == s || (r == Candidate(m, p, dt, s) && AllFinite(isFinite, r))
    ensures AllFinite(isFinite, Candidate(m, p, dt, s)) ==> r == Candidate(m, p, dt, s)
    ensures !AllFinite(isFinite, Candidate(m, p, dt, s)) ==> r == s
  {
    var c := Candidate(m, p, dt, s);
    if AllFinite(isFinite, c) then c else s
  }

  /** The step rule of one run, as a function from a stored row to the next. */
  function Stepper(m: StepMethod, p: Params, dt: real, isFinite: real -> bool): State -> State {
    s => Advance(m, p, dt, isFinite, s)
  }

  /**
   * The first `n` steps of a run from `start`: `n + 1` rows starting at
   * `start`, row `k + 1` being `step` of row `k` (TrajectoryStep).
   */
  function Trajectory(step: State -> State, start: State, n: nat): (t: seq<State>)
    ensures |t| == n + 1 && t[0] == start
    decreases n
  {
    if n == 0 then [start]
    else
      var prev := Trajectory(step, start, n - 1);
      prev + [step(prev[n - 1])]
  }

  /**
   * Runs the simulation: fails on a non-positive step, on a negative step
   * count, and on an unsupported method name only when at least one step is
   * taken; otherwise returns a fresh array of `numSteps + 1` rows that is
   * the trajectory of the effective step from the adjusted initial state,
   * finite throughout when its first row is.
   */
  method SimulateRossler(p: Params, dt: real, numSteps: int, initial: Option<State>,
                         methodName: string, isFinite: real -> bool)
    returns (r: Result<array<State>, SimError>)
    ensures r.Failure? <==> dt <= 0.0 || numSteps < 0 || (numSteps > 0 && ParseMethod(methodName) == None)
    ensures r.Failure? ==> r.error == (if dt <= 0.0 then InvalidStepSize
                                       else if numSteps < 0 then InvalidStepCount
                                       else InvalidMethod(methodName))
    ensures r.Success? ==> fresh(r.value) && r.value.Length == numSteps + 1
                           && r.value[0] == StartState(initial)
    ensures r.Success? && ParseMethod(methodName).Some? ==>
              r.value[..] == Trajectory(Stepper(ParseMethod(methodName).value, p, EffectiveStep(p, dt), isFinite),
                                        StartState(initial), numSteps)
    ensures r.Success? && AllFinite(isFinite, StartState(initial)) ==>
              forall i :: 0 <= i < r.value.Length ==> AllFinite(isFinite, r.value[i])
  {
    if dt <= 0.0 {
      return Failure(InvalidStepSize);
    }
    var h := EffectiveStep(p, dt);
    var start := StartState(initial);
    if numSteps < 0 {
      return Failure(InvalidStepCount);
    }
    var trajectory := new State[numSteps + 1];
    trajectory[0] := start;
    var rule := ParseMethod(methodName);
    var step := if rule.Some? then Some(Stepper(rule.value, p, h, isFinite)) else None;
    var ok := FillTrajectory(trajectory, step);
    if !ok {
      return Failure(InvalidMethod(methodName));
    }
    if AllFinite(isFinite, start) && rule.Some? {
      TrajectoryFinite(rule.value, p, h, isFinite, start, numSteps);
    }
    return Success(trajectory);
  }

  /**
   * The loop of the simulation: writes rows 1.. of `trajectory`, each the
   * `step` of the row before, starting from row 0. With no supported step
   * rule it fails as soon as a step is attempted, so a one-row array is
   * returned untouched.
   */
  method FillTrajectory(trajectory: array<State>, step: Option<State -> State>) returns (ok: bool)
    requires trajectory.Length > 0
    modifies trajectory
    ensures ok <==> trajectory.Length == 1 || step.Some?
    ensures ok ==> trajectory[0] == old(trajectory[0])
    ensures ok && step.Some? ==>
              trajectory[..] == Trajectory(step.value, old(trajectory[0]), trajectory.Length - 1)
  {
    var numSteps := trajectory.Length - 1;
    var current := trajectory[0];
    ghost var rows := if step.Some? then Trajectory(step.value, current, numSteps) else [current];
    for i := 0 to numSteps
      invariant current == trajectory[i]
      invariant i > 0 ==> step.Some?
      invariant trajectory[0] == rows[0]
      invariant step.Some? ==> forall k :: 0 <= k <= i ==> trajectory[k] == rows[k]
    {
      if step.None? {
        return false;
      }
      TrajectoryStep(step.value, rows[0], numSteps, i);
      current := step.value(current);
      trajectory[i + 1] := current;
    }
    assert step.Some? ==> trajectory[..] == rows;
    return true;
  }

  /** A longer run extends a shorter one: the first `k + 1` rows of `n` steps are the run of `k` steps. */
  lemma {:induction false} TrajectoryPrefix(step: State -> State, start: State, n: nat, k: nat)
    requires k <= n
    ensures Trajectory(step, start, n)[..k + 1] == Trajectory(step, start, k)
    decreases n
  {
    if k < n {
      var prev := Trajectory(step, start, n - 1);
      assert Trajectory(step, start, n)[..n] == prev;
      TrajectoryPrefix(step, start, n - 1, k);
      assert Trajectory(step, start, n)[..k + 1] == prev[..k + 1];
    }
  }

  /** Row `k + 1` of a trajectory is `step` of row `k`. */
  lemma TrajectoryStep(step: State -> State, start: State, n: nat, k: nat)
    requires k < n
    ensures Trajectory(step, start, n)[k + 1] == step(Trajectory(step, start, n)[k])
  {
    var t := Trajectory(step, start, n);
    TrajectoryPrefix(step, start, n, k + 1);
    var u := Trajectory(step, start, k + 1);
    assert t[k + 1] == u[k + 1] && t[k] == u[k];
  }

  /**
   * Each step of a run either moves to the candidate of the chosen rule,
   * which is then finite, or is stuck: the row repeats because the
   * candidate is not finite.
   */
  lemma StepOrStuck(m: StepMethod, p: Params, dt: real, isFinite: real -> bool, start: State, n: nat, k: nat)
    requires k < n
    ensures var t := Trajectory(Stepper(m, p, dt, isFinite), start, n);
            (t[k + 1] == Candidate(m, p, dt, t[k]) && AllFinite(isFinite, t[k + 1]))
            || (t[k + 1] == t[k] && !AllFinite(isFinite, Candidate(m, p, dt, t[k])))
  {
    TrajectoryStep(Stepper(m, p, dt, isFinite), start, n, k);
  }

  /** Every row of a run that starts finite is finite: non-finite candidates are never stored. */
  lemma TrajectoryFinite(m: StepMethod, p: Params, dt: real, isFinite: real -> bool, start: State, n: nat)
    requires AllFinite(isFinite, start)
    ensures forall i :: 0 <= i <= n ==> AllFinite(isFinite, Trajectory(Stepper(m, p, dt, isFinite), start, n)[i])
  {
    forall i | 0 <= i <= n
      ensures AllFinite(isFinite, Trajectory(Stepper(m, p, dt, isFinite), start, n)[i])
    {
      RowFinite(m, p, dt, isFinite, start, n, i);
    }
  }

  lemma {:induction false} RowFinite(m: StepMethod, p: Params, dt: real, isFinite: real -> bool,
                                     start: State, n: nat, i: nat)
    requires AllFinite(isFinite, start) && i <= n
    ensures AllFinite(isFinite, Trajectory(Stepper(m, p, dt, isFinite), start, n)[i])
    decreases i
  {
    if i > 0 {
      RowFinite(m, p, dt, isFinite, start, n, i - 1);
      TrajectoryStep(Stepper(m, p, dt, isFinite), start, n, i - 1);
    }
  }

  /** Once a step repeats its row, every later row repeats it too: a stuck run stays stuck. */
  lemma {:induction false} StuckStaysStuck(step: State -> State, start: State, n: nat, j: nat, k: nat)
    requires j < k <= n
    requires Trajectory(step, start, n)[j + 1] == Trajectory(step, start, n)[j]
    ensures Trajectory(step, start, n)[k] == Trajectory(step, start, n)[j]
    decreases k
  {
    if k > j + 1 {
      StuckStaysStuck(step, start, n, j, k - 1);
      TrajectoryStep(step, start, n, j);
      TrajectoryStep(step, start, n, k - 1);
    }
  }

  /** A run started at a rest point of the field never moves, whichever rule is used. */
  lemma {:induction false} RestPointStaysPut(m: StepMethod, p: Params, dt: real, isFinite: real -> bool,
                                             start: State, n: nat, i: nat)
    requires RosslerOde(start, p) == ORIGIN && i <= n
    ensures Trajectory(Stepper(m, p, dt, isFinite), start, n)[i] == start
    decreases i
  {
    if i > 0 {
      RestPointStaysPut(m, p, dt, isFinite, start, n, i - 1);
      TrajectoryStep(Stepper(m, p, dt, isFinite), start, n, i - 1);
      CandidateKeepsRestPoint(m, p, dt, start);
    }
  }
}
