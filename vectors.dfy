/** Fixed-length real vectors used by the gripper: DoF directions, velocities
    and joystick readings, all of the form [x, y, rotation, grip]. */
module Vectors {

  /** Number of candidate DoF vectors the model provides (and of components per vector). */
  const NUM_DOFS: nat := 4

  /** A 4-component control vector. */
  type Vec = v: seq<real> | |v| == 4 witness [0.0, 0.0, 0.0, 0.0]

  /** The candidate DoF vectors, one per row. */
  type DofSet = s: seq<Vec> | |s| == 4
    witness [ZERO, ZERO, ZERO, ZERO]

  const ZERO: Vec := [0.0, 0.0, 0.0, 0.0]

  /** Componentwise sum, as the top-level helper `addVec`. */
  function AddVec(a: Vec, b: Vec): (r: Vec)
  {
    seq(4, i requires 0 <= i < 4 => a[i] + b[i])
  }

  /** Componentwise difference, as the top-level helper `subVec`. */
  function SubVec(a: Vec, b: Vec): (r: Vec)
  {
    seq(4, i requires 0 <= i < 4 => a[i] - b[i])
  }

  /** Adding and subtracting the same vector are inverse to each other. */
  lemma AddSubRoundTrip(a: Vec, b: Vec)
    ensures SubVec(AddVec(a, b), b) == a
    ensures AddVec(SubVec(a, b), b) == a
    ensures AddVec(a, b) == AddVec(b, a)
  {
    assert forall i :: 0 <= i < 4 ==> SubVec(AddVec(a, b), b)[i] == a[i];
    assert forall i :: 0 <= i < 4 ==> AddVec(SubVec(a, b), b)[i] == a[i];
  }

  /** Every component multiplied by `c` (the `vec.map(v => v * c)` idiom). */
  function Scale(v: Vec, c: real): (r: Vec)
  {
    seq(4, i requires 0 <= i < 4 => v[i] * c)
  }

  function Abs(x: real): real
  {
    if x < 0.0 then -x else x
  }

  /** Math.sign: -1, 0 or 1. */
  function Sign(x: real): real
  {
    if x > 0.0 then 1.0 else if x < 0.0 then -1.0 else 0.0
  }

  function Sq(x: real): real
  {
    x * x
  }

  /** Squared distance between `o` and `s * n`. */
  function SqDist(o: Vec, n: Vec, s: real): (d: real)
  {
    Sq(o[0] - s * n[0]) + Sq(o[1] - s * n[1]) + Sq(o[2] - s * n[2]) + Sq(o[3] - s * n[3])
  }

  /** Scaling the candidate by a sign is the same as measuring against that sign. */
  lemma SqDistScaled(o: Vec, n: Vec, s: real)
    ensures SqDist(o, Scale(n, s), 1.0) == SqDist(o, n, s)
    ensures SqDist(o, Scale(n, s), -1.0) == SqDist(o, n, -s)
  {
  }

  /** A product of two positive reals is positive. */
  lemma MulPos(a: real, b: real)
    requires a > 0.0 && b > 0.0
    ensures a * b > 0.0
  {
  }

  /** The square of a non-zero real is positive. */
  lemma SquarePositive(x: real)
    requires x != 0.0
    ensures Sq(x) > 0.0
  {
    calc {
      Sq(x);
    ==
      x * x;
    >  { if x > 0.0 { MulPos(x, x); } else { MulPos(-x, -x); assert (-x) * (-x) == x * x; } }
      0.0;
    }
  }

  /** A square is never negative, and zero only at zero. */
  lemma SqZero(x: real)
    ensures Sq(x) >= 0.0
    ensures Sq(x) == 0.0 ==> x == 0.0
  {
    if x != 0.0 {
      SquarePositive(x);
    }
  }

  /** A squared distance is never negative. */
  lemma SqDistNonNegative(o: Vec, n: Vec, s: real)
    ensures SqDist(o, n, s) >= 0.0
  {
    SqZero(o[0] - s * n[0]);
    SqZero(o[1] - s * n[1]);
    SqZero(o[2] - s * n[2]);
    SqZero(o[3] - s * n[3]);
  }
}
