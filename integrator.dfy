/**
 * The fixed-step integrators of rossler_attractor.py: the generic
 * four-stage Runge-Kutta step `rk4_step` and the explicit Euler update the
 * simulator writes inline. Both are generic in the state type, as the
 * Python code is (it steps one-element arrays in its tests and
 * three-element Roessler states in the simulator); the extra arguments
 * `rk4_step` passes through `*args` to the derivative are the parameter
 * `args`. The exactness lemmas are stated for scalar states.
 */
module Integrator {
  import opened VectorField

  /** The elementwise sum and scalar product a step is built from. */
  datatype VectorOps<!V> = VectorOps(add: (V, V) -> V, scale: (real, V) -> V)

  /** Scalars, the one-element states of the solver's own exactness checks. */
  const REAL_OPS: VectorOps<real> := VectorOps((u: real, v: real) => u + v, (k: real, v: real) => k * v)

  /** Roessler states with componentwise arithmetic. */
  const STATE_OPS: VectorOps<State> := VectorOps(Add, Scale)

  /** One classic Runge-Kutta step of size `dt` from `s` for the field `f`. */
  function Rk4Step<V, A>(ops: VectorOps<V>, f: (V, A) -> V, s: V, dt: real, args: A): V {
    var k1 := ops.scale(dt, f(s, args));
    var k2 := ops.scale(dt, f(ops.add(s, ops.scale(0.5, k1)), args));
    var k3 := ops.scale(dt, f(ops.add(s, ops.scale(0.5, k2)), args));
    var k4 := ops.scale(dt, f(ops.add(s, k3), args));
    ops.add(s, ops.scale(1.0 / 6.0, ops.add(ops.add(ops.add(k1, ops.scale(2.0, k2)), ops.scale(2.0, k3)), k4)))
  }

  /** One explicit Euler step: the state plus the derivative times `dt`. */
  function EulerStep<V, A>(ops: VectorOps<V>, f: (V, A) -> V, s: V, dt: real, args: A): V {
    ops.add(s, ops.scale(dt, f(s, args)))
  }

  /** For a constant derivative `c`, a Runge-Kutta step is exact: it moves by `c*dt`. */
  lemma Rk4ConstantDerivative<A>(f: (real, A) -> real, y: real, dt: real, args: A, c: real)
    requires forall v :: f(v, args) == c
    ensures Rk4Step(REAL_OPS, f, y, dt, args) == y + c * dt
  {
    var k := dt * c;
    assert f(y + 0.5 * k, args) == c;
    assert f(y + k, args) == c;
    assert (1.0 / 6.0) * (k + 2.0 * k + 2.0 * k + k) == k;
  }

  /** For a constant derivative `c`, an Euler step is exact as well. */
  lemma EulerConstantDerivative<A>(f: (real, A) -> real, y: real, dt: real, args: A, c: real)
    requires forall v :: f(v, args) == c
    ensures EulerStep(REAL_OPS, f, y, dt, args) == y + c * dt
  {
    assert f(y, args) == c;
  }

  /** The degree-four Taylor polynomial of exp at `z`. */
  function Taylor4(z: real): real {
    1.0 + z + z * z / 2.0 + z * z * z / 6.0 + z * z * z * z / 24.0
  }

  /**
   * On the linear equation y' = lam*y a Runge-Kutta step multiplies the
   * state by the degree-four Taylor polynomial of exp(lam*dt).
   */
  lemma Rk4Linear<A>(f: (real, A) -> real, y: real, dt: real, args: A, lam: real)
    requires forall v :: f(v, args) == lam * v
    ensures Rk4Step(REAL_OPS, f, y, dt, args) == y * Taylor4(lam * dt)
  {
    var k1 := dt * f(y, args);
    var k2 := dt * f(y + 0.5 * k1, args);
    var k3 := dt * f(y + 0.5 * k2, args);
    var k4 := dt * f(y + k3, args);
    Rk4LinearWithStages(f, y, dt, args, lam, lam * dt, k1, k2, k3, k4);
  }

  /** Rk4Linear with the four stages and z = lam*dt named. */
  lemma Rk4LinearWithStages<A>(f: (real, A) -> real, y: real, dt: real, args: A, lam: real,
                               z: real, k1: real, k2: real, k3: real, k4: real)
    requires forall v :: f(v, args) == lam * v
    requires z == lam * dt
    requires k1 == dt * f(y, args)
    requires k2 == dt * f(y + 0.5 * k1, args)
    requires k3 == dt * f(y + 0.5 * k2, args)
    requires k4 == dt * f(y + k3, args)
    ensures Rk4Step(REAL_OPS, f, y, dt, args) == y * Taylor4(z)
  {
    LinearStage(f, args, lam, dt, z, y, k1);
    LinearStage(f, args, lam, dt, z, y + 0.5 * k1, k2);
    LinearStage(f, args, lam, dt, z, y + 0.5 * k2, k3);
    LinearStage(f, args, lam, dt, z, y + k3, k4);
    Rk4LinearStages(y, z, k1, k2, k3, k4);
    Rk4RealStages(f, y, dt, args, k1, k2, k3, k4);
  }

  /** On reals a Runge-Kutta step is y + (k1 + 2*k2 + 2*k3 + k4)/6 with the usual stages. */
  lemma Rk4RealStages<A>(f: (real, A) -> real, y: real, dt: real, args: A,
                         k1: real, k2: real, k3: real, k4: real)
    requires k1 == dt * f(y, args)
    requires k2 == dt * f(y + 0.5 * k1, args)
    requires k3 == dt * f(y + 0.5 * k2, args)
    requires k4 == dt * f(y + k3, args)
    ensures Rk4Step(REAL_OPS, f, y, dt, args) == y + (1.0 / 6.0) * (k1 + 2.0 * k2 + 2.0 * k3 + k4)
  {
    var ops := REAL_OPS;
    assert ops.scale(dt, f(y, args)) == k1;
    assert ops.add(y, ops.scale(0.5, k1)) == y + 0.5 * k1;
    assert ops.scale(dt, f(ops.add(y, ops.scale(0.5, k1)), args)) == k2;
    assert ops.add(y, ops.scale(0.5, k2)) == y + 0.5 * k2;
    assert ops.scale(dt, f(ops.add(y, ops.scale(0.5, k2)), args)) == k3;
    assert ops.scale(dt, f(ops.add(y, k3), args)) == k4;
  }

  /** One stage of a step on y' = lam*y: the stage k = dt*f(v) is z*v, for z = lam*dt. */
  lemma LinearStage<A>(f: (real, A) -> real, args: A, lam: real, dt: real, z: real, v: real, k: real)
    requires forall u :: f(u, args) == lam * u
    requires z == lam * dt
    requires k == dt * f(v, args)
    ensures k == z * v
  {
    assert f(v, args) == lam * v;
  }

  /** The stage arithmetic behind Rk4Linear, with `z` for lam*dt. */
  lemma Rk4LinearStages(y: real, z: real, k1: real, k2: real, k3: real, k4: real)
    requires k1 == z * y
    requires k2 == z * (y + 0.5 * k1)
    requires k3 == z * (y + 0.5 * k2)
    requires k4 == z * (y + k3)
    ensures y + (1.0 / 6.0) * (k1 + 2.0 * k2 + 2.0 * k3 + k4) == y * Taylor4(z)
  {
    assert k2 == y * (z + z * z / 2.0);
    assert k3 == y * (z + z * z / 2.0 + z * z * z / 4.0);
    assert k4 == y * (z + z * z + z * z * z / 2.0 + z * z * z * z / 4.0);
  }

  /** On y' = lam*y an Euler step multiplies the state by 1 + lam*dt only. */
  lemma EulerLinear<A>(f: (real, A) -> real, y: real, dt: real, args: A, lam: real)
    requires forall v :: f(v, args) == lam * v
    ensures EulerStep(REAL_OPS, f, y, dt, args) == y * (1.0 + lam * dt)
  {
    assert f(y, args) == lam * y;
  }

  /**
   * The solver's first exactness check: derivative 1 from 0 with any step
   * gives exactly `dt`.
   */
  lemma Rk4UnitDerivativeFromZero(dt: real)
    ensures Rk4Step(REAL_OPS, (v: real, u: ()) => 1.0, 0.0, dt, ()) == dt
  {
    Rk4ConstantDerivative((v: real, u: ()) => 1.0, 0.0, dt, (), 1.0);
  }

  /**
   * The solver's second exactness check: y' = y from 1 gives the truncated
   * exponential series 1 + dt + dt^2/2 + dt^3/6 + dt^4/24.
   */
  lemma Rk4ExponentialFromOne(dt: real)
    ensures Rk4Step(REAL_OPS, (v: real, u: ()) => v, 1.0, dt, ())
         == 1.0 + dt + dt * dt / 2.0 + dt * dt * dt / 6.0 + dt * dt * dt * dt / 24.0
  {
    Rk4Linear((v: real, u: ()) => v, 1.0, dt, (), 1.0);
  }

  /** A rest point of a field on states is left in place by a Runge-Kutta step. */
  lemma Rk4KeepsRestPoint<A>(f: (State, A) -> State, s: State, dt: real, args: A)
    requires f(s, args) == ORIGIN
    ensures Rk4Step(STATE_OPS, f, s, dt, args) == s
  {
    var k1 := Scale(dt, f(s, args));
    assert k1 == ORIGIN;
    assert Add(s, Scale(0.5, k1)) == s;
    assert Add(s, k1) == s;
  }

  /** A rest point of a field on states is left in place by an Euler step. */
  lemma EulerKeepsRestPoint<A>(f: (State, A) -> State, s: State, dt: real, args: A)
    requires f(s, args) == ORIGIN
    ensures EulerStep(STATE_OPS, f, s, dt, args) == s
  {
    assert Scale(dt, f(s, args)) == ORIGIN;
  }
}
