/**
 * The Roessler vector field (rossler_attractor.py, `rossler_ode`) over
 * three-component real states, with the elementwise vector operations the
 * integrators use in place of numpy's array arithmetic.
 */
module VectorField {

  /** A point (x, y, z) of the phase space. */
  datatype State = State(x: real, y: real, z: real)

  /** The parameters a, b, c of the system; fixed for one run. */
  datatype Params = Params(a: real, b: real, c: real)

  const ORIGIN: State := State(0.0, 0.0, 0.0)

  function Add(u: State, v: State): State {
    State(u.x + v.x, u.y + v.y, u.z + v.z)
  }

  function Sub(u: State, v: State): State {
    State(u.x - v.x, u.y - v.y, u.z - v.z)
  }

  function Scale(k: real, v: State): State {
    State(k * v.x, k * v.y, k * v.z)
  }

  /** The derivative (dx, dy, dz) of the Roessler system at `s`. */
  function RosslerOde(s: State, p: Params): State {
    State(-s.y - s.z, s.x + p.a * s.y, p.b + s.z * (s.x - p.c))
  }

  /**
   * The rest points of the field: the derivative vanishes exactly when
   * y = -z, x = a*z and z is a root of a*z^2 - c*z + b.
   */
  lemma EquilibriumCharacterisation(s: State, p: Params)
    ensures RosslerOde(s, p) == ORIGIN
        <==> s.y == -s.z && s.x == p.a * s.z && p.a * s.z * s.z - p.c * s.z + p.b == 0.0
  {
    if RosslerOde(s, p) == ORIGIN {
      assert s.y == -s.z;
      assert s.x == -(p.a * s.y);
      assert p.a * s.y == -(p.a * s.z);
      assert s.x == p.a * s.z;
      assert s.z * (s.x - p.c) == p.a * s.z * s.z - p.c * s.z;
    }
    if s.y == -s.z && s.x == p.a * s.z && p.a * s.z * s.z - p.c * s.z + p.b == 0.0 {
      assert p.a * s.y == -(p.a * s.z);
      assert s.z * (s.x - p.c) == p.a * s.z * s.z - p.c * s.z;
    }
  }

  /**
   * The origin is a rest point exactly when b = 0: the regime in which an
   * all-zero start would never move.
   */
  lemma OriginRestIffNoOffset(p: Params)
    ensures RosslerOde(ORIGIN, p) == ORIGIN <==> p.b == 0.0
  {
    EquilibriumCharacterisation(ORIGIN, p);
  }

  /** The difference of two states is the negation of the reversed difference. */
  lemma SubAntisymmetric(u: State, v: State)
    ensures Sub(v, u) == Scale(-1.0, Sub(u, v))
  {
  }
}
