/**
 * The numeric primitives the filters borrow from Eigen and the C++ library.
 *
 * `sqrt`, `AngleAxisd`, `FromTwoVectors`, `slerp` and the 3x3 `inverse` are
 * not given definitions: they are fields of an `Ops` record that every filter
 * operation takes as a parameter, so that each property below holds for any
 * implementation of them.  The one thing assumed of `sqrt` everywhere is that
 * a positive argument has a positive root, which IEEE `sqrt` guarantees;
 * lemmas that need the exact root say so with `ExactSqrt`.
 *
 * Eigen's `normalized()`/`normalize()` (skip the division when the squared
 * norm is zero) are defined on top of `sqrt`.
 */
module Numerics {
  import opened LinAlg

  /** A square root that keeps positive arguments positive. */
  type Sqrt = f: real -> real | forall x: real :: 0.0 < x ==> 0.0 < f(x)
    witness (x: real) => x

  datatype Ops = Ops(
    sqrt: Sqrt,
    /** `Quaterniond(AngleAxisd(angle, axis))`. */
    angleAxis: (real, Vec3) -> Quat,
    /** `Quaterniond::FromTwoVectors(a, b)`. */
    fromTwoVectors: (Vec3, Vec3) -> Quat,
    /** `a.slerp(t, b)`. */
    slerp: (Quat, real, Quat) -> Quat,
    /** `Matrix3d::inverse()`. */
    inverse: Mat3 -> Mat3)

  /** `sqrt(x)` is the non-negative square root of `x`. */
  ghost predicate IsRootAt(ops: Ops, x: real) {
    0.0 <= ops.sqrt(x) && ops.sqrt(x) * ops.sqrt(x) == x
  }

  /** `sqrt` is the exact non-negative square root. */
  ghost predicate ExactSqrt(ops: Ops) {
    forall x: real :: 0.0 <= x ==> IsRootAt(ops, x)
  }

  /** The exact root of one non-negative value. */
  lemma RootSquared(ops: Ops, x: real)
    requires ExactSqrt(ops) && 0.0 <= x
    ensures 0.0 <= ops.sqrt(x) && ops.sqrt(x) * ops.sqrt(x) == x
  {
    assert IsRootAt(ops, x);
  }

  /** `v.norm()`. */
  function Norm(ops: Ops, v: Vec3): real {
    ops.sqrt(NormSq(v))
  }

  function QNorm(ops: Ops, q: Quat): real {
    ops.sqrt(QNormSq(q))
  }

  /** `v.normalized()`: a zero vector is returned unchanged. */
  function Normalized(ops: Ops, v: Vec3): (r: Vec3)
    ensures NormSq(v) == 0.0 ==> r == v
  {
    var n := NormSq(v);
    if n > 0.0 then Scale(v, 1.0 / ops.sqrt(n)) else v
  }

  /** `q.normalize()` / `q.normalized()` on a quaternion. */
  function NormalizedQ(ops: Ops, q: Quat): (r: Quat)
    ensures QNormSq(q) == 0.0 ==> r == q
  {
    var n := QNormSq(q);
    if n > 0.0 then QScale(q, 1.0 / ops.sqrt(n)) else q
  }

  /**
   * The rotation increment both the complementary and the Kalman filter build
   * from a rotation vector: the identity when its length is at most
   * `threshold`, otherwise the angle-axis quaternion of length and direction.
   */
  function RotationDelta(ops: Ops, theta: Vec3, threshold: real): (r: Quat)
    requires 0.0 <= threshold
    ensures Norm(ops, theta) <= threshold ==> r == QIdentity
    ensures threshold < Norm(ops, theta) ==>
              r == ops.angleAxis(Norm(ops, theta), Scale(theta, 1.0 / Norm(ops, theta)))
  {
    var angle := Norm(ops, theta);
    if angle > threshold then ops.angleAxis(angle, Scale(theta, 1.0 / angle)) else QIdentity
  }

  /** `k * k * n == 1` when `k` is the reciprocal of an exact root of `n`. */
  lemma ReciprocalRootSquared(n: real, s: real)
    requires 0.0 < s && s * s == n
    ensures (1.0 / s) * (1.0 / s) * n == 1.0
  {
    calc {
      (1.0 / s) * (1.0 / s) * n;
      (1.0 / s) * (1.0 / s) * (s * s);
      ((1.0 / s) * s) * ((1.0 / s) * s);
    }
  }

  lemma NormSqScale(v: Vec3, k: real)
    ensures NormSq(Scale(v, k)) == k * k * NormSq(v)
  {
  }

  lemma QNormSqScale(q: Quat, k: real)
    ensures QNormSq(QScale(q, k)) == k * k * QNormSq(q)
  {
  }

  /** Dividing by an exact root of the squared norm gives a unit vector. */
  lemma ScaledToUnit(v: Vec3, s: real)
    requires 0.0 < s && s * s == NormSq(v)
    ensures NormSq(Scale(v, 1.0 / s)) == 1.0
  {
    NormSqScale(v, 1.0 / s);
    ReciprocalRootSquared(NormSq(v), s);
  }

  /** Dividing by an exact root of the squared norm gives a unit quaternion. */
  lemma ScaledToUnitQ(q: Quat, s: real)
    requires 0.0 < s && s * s == QNormSq(q)
    ensures QNormSq(QScale(q, 1.0 / s)) == 1.0
  {
    QNormSqScale(q, 1.0 / s);
    ReciprocalRootSquared(QNormSq(q), s);
  }

  /** With an exact root, normalising a non-zero vector gives a unit vector. */
  lemma NormalizedIsUnit(ops: Ops, v: Vec3)
    requires ExactSqrt(ops)
    requires NormSq(v) != 0.0
    ensures NormSq(Normalized(ops, v)) == 1.0
  {
    var n := NormSq(v);
    NormSqNonNegative(v);
    RootSquared(ops, n);
    ScaledToUnit(v, ops.sqrt(n));
  }

  /** With an exact root, normalising a non-zero quaternion gives a unit quaternion. */
  lemma NormalizedQIsUnit(ops: Ops, q: Quat)
    requires ExactSqrt(ops)
    requires QNormSq(q) != 0.0
    ensures QNormSq(NormalizedQ(ops, q)) == 1.0
  {
    var n := QNormSq(q);
    QNormSqNonNegative(q);
    RootSquared(ops, n);
    ScaledToUnitQ(q, ops.sqrt(n));
  }

  /** A vector that is already a unit vector is left alone when `sqrt(1) == 1`. */
  lemma NormalizedUnit(ops: Ops, v: Vec3)
    requires ops.sqrt(1.0) == 1.0
    requires NormSq(v) == 1.0
    ensures Normalized(ops, v) == v
  {
  }

  /** A unit quaternion is left alone when `sqrt(1) == 1`. */
  lemma NormalizedQUnit(ops: Ops, q: Quat)
    requires ops.sqrt(1.0) == 1.0
    requires QNormSq(q) == 1.0
    ensures NormalizedQ(ops, q) == q
  {
  }

  /** With an exact root, a delta taken from a long enough vector rotates about a unit axis. */
  lemma RotationDeltaAxisIsUnit(ops: Ops, theta: Vec3, threshold: real)
    requires ExactSqrt(ops)
    requires 0.0 <= threshold < Norm(ops, theta)
    ensures NormSq(Scale(theta, 1.0 / Norm(ops, theta))) == 1.0
  {
    var n := NormSq(theta);
    NormSqNonNegative(theta);
    RootSquared(ops, n);
    ScaledToUnit(theta, ops.sqrt(n));
  }
}
