# Rössler attractor integrator and divergence estimator, in Dafny

This project models the numerical core of the Rössler-attractor package. It
proves properties of that model.

- `vector_field.dfy` (module `VectorField`): the Rössler vector field
  `(-y - z, x + a*y, b + z*(x - c))` over real states, with a proof of where
  it vanishes.
- `integrator.dfy` (module `Integrator`): the classical fourth-order
  Runge-Kutta step and the explicit Euler step. Both are generic in the
  vector type and in the extra arguments passed to the derivative.
  - The exactness lemmas are proved for scalar states: both steps are exact
    for a constant derivative. For `y' = λy`, one RK4 step multiplies `y` by
    the degree-4 Taylor polynomial of `exp(λ dt)`, and one Euler step
    multiplies it by `1 + λ dt`.
  - On three-component states, both steps keep a rest point of the field in
    place.
- `simulator.dfy` (module `Simulator`): the trajectory driver. It covers:
  - the guard that rejects a non-positive step;
  - the step shrinking to `min(dt, 1e-4)` when some parameter exceeds 100
    in magnitude;
  - the replacement of an absent or all-zero start by `(1e-6, 1e-6, 1e-6)`;
  - the loop that fills a fresh array with `num_steps + 1` rows, where a
    candidate state that is not finite is replaced by the previous state;
  - the error for an unsupported method.

  The method is proved to produce exactly the rows of the specification
  function `Trajectory`. Lemmas about `Trajectory` prove:
  - each step is either the candidate, which is then finite, or a repeat;
  - a run that starts finite stays finite;
  - a stuck run stays stuck;
  - a run started at a rest point never moves.
- `divergence.dfy` (module `Divergence`): the divergence-rate estimator. It
  covers the pointwise distances, the second-half window, the re-zeroed
  time axis, the filter to positive distances, the fit and the 0.05 noise
  floor.
  - The estimate is 0 or at least 0.05.
  - It is 0 when no distance in the window is positive.
  - Otherwise it is the slope fitted to the samples (p·dt, log(d_p/ε)) at
    the positive window positions p, when that slope is at least 0.05, and
    0 when it is below.
  - It ignores the first half of the trajectories.
  - It is symmetric in the two trajectories when the norm ignores sign.
  - It is 0 for a trajectory compared with itself.
- `wrappers.dfy` (module `Wrappers`): `Option` and `Result`.

Numbers are Dafny reals, so there is no rounding. Whether a float is
finite is the parameter `isFinite: real -> bool`, with no properties
assumed. The Euclidean norm, the logarithm and the degree-one least-squares
fit are likewise the parameters `norm`, `log` and `polyfit`.

Two behaviours of the code are easy to miss:
- The method name is checked inside the loop (rossler_attractor.py:30-37).
  A zero-step run therefore returns the one-row trajectory for any method
  name, and that is what `SimulateRossler` promises.
- A negative step count fails either in `np.zeros` or in the write of row 0
  (rossler_attractor.py:27-28). The model returns `InvalidStepCount`.

The loop `FillTrajectory` takes the step rule as an optional function value
and fails when it is absent and a step is attempted. `SimulateRossler` builds
that rule from the method name with `ParseMethod` and `Stepper`. This gives
the same observable behaviour as testing the name on every iteration: the
name never changes within a run, and the first test either fails or succeeds
for all rows.

## Model

| member | source | states |
|---|---|---|
| VectorField.EquilibriumCharacterisation | rossler_attractor.py:3-8 | the derivative is zero exactly when y = -z, x = a*z and a*z² - c*z + b = 0 (both directions) |
| VectorField.OriginRestIffNoOffset | rossler_attractor.py:3-8 | the origin is a rest point exactly when b = 0 |
| VectorField.SubAntisymmetric | rossler_attractor.py:45 | traj2 - traj1 is the negation of traj1 - traj2, row by row |
| Integrator.Rk4ConstantDerivative | rossler_attractor.py:10-16 | for a derivative constant at c, one RK4 step gives y + c*dt exactly |
| Integrator.EulerConstantDerivative | rossler_attractor.py:34-35 | for a derivative constant at c, one Euler step gives y + c*dt |
| Integrator.Rk4Linear | rossler_attractor.py:10-16 | for f(y) = λy, one RK4 step gives y * (1 + z + z²/2 + z³/6 + z⁴/24) with z = λ*dt |
| Integrator.EulerLinear | rossler_attractor.py:34-35 | for f(y) = λy, one Euler step gives y * (1 + λ*dt) |
| Integrator.Rk4UnitDerivativeFromZero | test_rossler_attractor.py:5-11 | derivative 1 from state 0: one RK4 step gives exactly dt |
| Integrator.Rk4ExponentialFromOne | test_rossler_attractor.py:13-18 | derivative y from state 1: one RK4 step gives 1 + dt + dt²/2 + dt³/6 + dt⁴/24 |
| Integrator.Rk4KeepsRestPoint | rossler_attractor.py:10-16 | an RK4 step leaves a state with zero derivative unchanged |
| Integrator.EulerKeepsRestPoint | rossler_attractor.py:34-35 | an Euler step leaves a state with zero derivative unchanged |
| Simulator.ParseMethod | rossler_attractor.py:31-37 | "rk4" selects RK4 and "euler" selects Euler; any other name, and only those, selects nothing |
| Simulator.MaxAbs | rossler_attractor.py:21 | the result is at least each of abs(a), abs(b), abs(c) and equals one of them |
| Simulator.EffectiveStep | rossler_attractor.py:21-22 | the step used is never above dt and positive when dt is; at most 1e-4 and either dt or 1e-4 when max(abs(a), abs(b), abs(c)) > 100; otherwise it is dt |
| Simulator.StartState | rossler_attractor.py:23-26 | row 0 is the given state unless that is absent or all zero, in which case it is (1e-6, 1e-6, 1e-6); it is never the origin |
| Simulator.CandidateKeepsRestPoint | rossler_attractor.py:31-35 | the RK4 step and the inline Euler update both propose a rest point of the field as its own successor |
| Simulator.Advance | rossler_attractor.py:31-40 | the stored next state is the candidate when that is finite and the current state when it is not; a finite state is never followed by a non-finite one |
| Simulator.Trajectory | rossler_attractor.py:27-42 | n steps give n + 1 rows, and row 0 is the start |
| Simulator.SimulateRossler | rossler_attractor.py:18-42 | fails exactly when dt ≤ 0, num_steps < 0, or num_steps > 0 with an unsupported method, with that error; otherwise returns a fresh array of num_steps + 1 rows equal to the trajectory of the effective step from the adjusted start, all finite when row 0 is |
| Simulator.FillTrajectory | rossler_attractor.py:29-42 | with a step rule, the array becomes the trajectory of that rule from its row 0; without one it fails exactly when a step would be taken |
| Simulator.TrajectoryPrefix | rossler_attractor.py:29-41 | the first k + 1 rows of an n-step run are the k-step run, so a longer run extends a shorter one |
| Simulator.TrajectoryStep | rossler_attractor.py:41 | row k + 1 is the step rule applied to row k |
| Simulator.StepOrStuck | rossler_attractor.py:30-41 | each row is the candidate of the previous one, which is then finite, or repeats the previous row because the candidate is not finite |
| Simulator.TrajectoryFinite | rossler_attractor.py:38-41 | every row of a run whose row 0 is finite is finite |
| Simulator.StuckStaysStuck | rossler_attractor.py:38-41 | once a row repeats the one before, all later rows equal it |
| Simulator.RestPointStaysPut | rossler_attractor.py:29-41 | from a rest point of the field, every row equals the start, for either method |
| Divergence.SecondHalf | rossler_attractor.py:47-48 | the window keeps N - N/2 samples, and sample i is the original sample N/2 + i |
| Divergence.PositiveIndices | rossler_attractor.py:50 | the retained positions are exactly those with a positive distance, in strictly increasing order |
| Divergence.WindowDistance | rossler_attractor.py:45-48 | window position i holds the distance between rows N/2 + i of the two trajectories |
| Divergence.TimeAt | rossler_attractor.py:49 | window position i is at time i*dt |
| Divergence.FitSlope | rossler_attractor.py:53-54 | the slope is the first coefficient the fit returns for the times p*dt and the values log(d[p]/epsilon), with p running over the retained positions in order |
| Divergence.Threshold | rossler_attractor.py:55-57 | a slope of at least 0.05 is returned unchanged and a smaller one becomes 0, so the result is 0 or at least 0.05 |
| Divergence.LyapunovExponent | rossler_attractor.py:44-57 | the estimate is 0 or at least 0.05; it is 0 when no distance in the second half is positive; otherwise, with idx the positive window positions, it is the slope fitted to (idx[k]*dt, log(w[idx[k]]/epsilon)) when that slope is at least 0.05, and 0 when it is below |
| Divergence.FirstHalfIrrelevant | rossler_attractor.py:46-48 | pairs that agree from row N/2 on give the same estimate |
| Divergence.SwapSymmetric | rossler_attractor.py:45 | with a norm that ignores sign, swapping the trajectories leaves the estimate unchanged |
| Divergence.IdenticalTrajectoriesGiveZero | rossler_attractor.py:45-52 | a trajectory compared with itself gives 0 when the norm of zero is zero |
| Divergence.RetainedSample | rossler_attractor.py:49-54 | the k-th sample given to the fit has time p*dt and distance d[p] > 0, where p is the k-th positive position |

## Left out

- Floating point: states, parameters and steps are exact reals. There is no rounding, overflow, NaN or infinity. Finiteness is the uninterpreted parameter `isFinite`.
- The accuracy comparison of RK4 and Euler against exp(-1) after ten steps of y' = -y (test_rossler_attractor.py:58-75): it needs the exponential, which is a transcendental function. The exact Taylor-polynomial form of one step is proved instead (`Integrator.Rk4Linear`, `Integrator.EulerLinear`).
- The chaotic and non-chaotic exponent tests and the divergence-of-trajectories test (test_rossler_attractor.py:20-44): they depend on the numerical behaviour of thousands of floating-point steps.
- `numpy.linalg.norm`, `numpy.log`, `numpy.polyfit`: uninterpreted parameters. Nothing depends on their values except through the stated lemma hypotheses.
- Divergence.LyapunovExponent: requires `epsilon != 0`, because real division by zero is undefined. In floating point, a zero epsilon gives infinities that are not modelled.
- Divergence.LyapunovExponent: requires the two trajectories to have the same length. With other lengths, `traj1 - traj2` either fails or, when one trajectory has a single row, broadcasts it against every row of the other and yields an estimate. Neither case is modelled.
- The numpy types: a state is a three-field record rather than an array of length 3. The derivative function takes the parameters as one record rather than as `*args`. `rk4_step` is generic in both.
- Argument types: a non-integer `num_steps`, a state of the wrong length, and a method name that is not a string are outside the model. A negative `num_steps` is collapsed into the single error `InvalidStepCount`.
- The default arguments are not modelled: every call passes all of them. For `simulate_rossler` they are a = 0.2, b = 0.2, c = 5.7, dt = 0.01, num_steps = 100000 and method "rk4". For `calculate_lyapunov_exponent` the default is epsilon = 1e-5.
- The command-line block that prints results (test_rossler_attractor.py:77-85) is I/O.
