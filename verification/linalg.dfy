/**
 * Exact real-valued 3-vectors, 3x3 matrices and quaternions: the Eigen types
 * the orientation filters and the firmware compute with, minus rounding.
 */
module LinAlg {

  datatype Vec3 = Vec3(x: real, y: real, z: real)

  const Zero3 := Vec3(0.0, 0.0, 0.0)
  const UnitZ := Vec3(0.0, 0.0, 1.0)

  function Add(a: Vec3, b: Vec3): Vec3 {
    Vec3(a.x + b.x, a.y + b.y, a.z + b.z)
  }

  function Sub(a: Vec3, b: Vec3): Vec3 {
    Vec3(a.x - b.x, a.y - b.y, a.z - b.z)
  }

  function Scale(a: Vec3, k: real): Vec3 {
    Vec3(k * a.x, k * a.y, k * a.z)
  }

  function Dot(a: Vec3, b: Vec3): real {
    a.x * b.x + a.y * b.y + a.z * b.z
  }

  function Cross(a: Vec3, b: Vec3): Vec3 {
    Vec3(a.y * b.z - a.z * b.y, a.z * b.x - a.x * b.z, a.x * b.y - a.y * b.x)
  }

  /** The squared Euclidean norm; `norm()` is its square root. */
  function NormSq(a: Vec3): real {
    a.x * a.x + a.y * a.y + a.z * a.z
  }

  lemma NormSqNonNegative(a: Vec3)
    ensures 0.0 <= NormSq(a)
  {
  }

  /** A 3x3 matrix, by rows. */
  datatype Mat3 = Mat3(r0: Vec3, r1: Vec3, r2: Vec3)

  const Identity3 := Mat3(Vec3(1.0, 0.0, 0.0), Vec3(0.0, 1.0, 0.0), Vec3(0.0, 0.0, 1.0))

  /** `Matrix3d::Identity() * k`, entry by entry. */
  function ScalarM(k: real): Mat3 {
    Mat3(Vec3(k, 0.0, 0.0), Vec3(0.0, k, 0.0), Vec3(0.0, 0.0, k))
  }

  function Transpose(m: Mat3): Mat3 {
    Mat3(Vec3(m.r0.x, m.r1.x, m.r2.x), Vec3(m.r0.y, m.r1.y, m.r2.y), Vec3(m.r0.z, m.r1.z, m.r2.z))
  }

  function MulMV(m: Mat3, v: Vec3): Vec3 {
    Vec3(Dot(m.r0, v), Dot(m.r1, v), Dot(m.r2, v))
  }

  /** Row i of `a * b` is row i of `a` times `b`. */
  function MulMM(a: Mat3, b: Mat3): Mat3 {
    var bt := Transpose(b);
    Mat3(MulMV(bt, a.r0), MulMV(bt, a.r1), MulMV(bt, a.r2))
  }

  lemma MulMVZero(m: Mat3)
    ensures MulMV(m, Zero3) == Zero3
  {
  }

  lemma MulIdentityLeft(m: Mat3)
    ensures MulMM(Identity3, m) == m
  {
  }

  lemma MulIdentityRight(m: Mat3)
    ensures MulMM(m, Identity3) == m
  {
  }

  function AddM(a: Mat3, b: Mat3): Mat3 {
    Mat3(Add(a.r0, b.r0), Add(a.r1, b.r1), Add(a.r2, b.r2))
  }

  function SubM(a: Mat3, b: Mat3): Mat3 {
    Mat3(Sub(a.r0, b.r0), Sub(a.r1, b.r1), Sub(a.r2, b.r2))
  }

  function ScaleM(m: Mat3, k: real): Mat3 {
    Mat3(Scale(m.r0, k), Scale(m.r1, k), Scale(m.r2, k))
  }

  predicate Symmetric(m: Mat3) {
    Transpose(m) == m
  }

  /** A scalar matrix is the scaled identity, and symmetric. */
  lemma ScalarIsScaledIdentity(k: real)
    ensures ScalarM(k) == ScaleM(Identity3, k)
    ensures Symmetric(ScalarM(k))
  {
  }

  /** `skewSymmetric`: the matrix of the cross product with `v`. */
  function Skew(v: Vec3): (s: Mat3)
    ensures forall w :: MulMV(s, w) == Cross(v, w)
    ensures Transpose(s) == ScaleM(s, -1.0)
    ensures s.r0.x == 0.0 && s.r1.y == 0.0 && s.r2.z == 0.0
  {
    Mat3(Vec3(0.0, -v.z, v.y), Vec3(v.z, 0.0, -v.x), Vec3(-v.y, v.x, 0.0))
  }

  lemma TransposeOfProduct(a: Mat3, b: Mat3)
    ensures Transpose(MulMM(a, b)) == MulMM(Transpose(b), Transpose(a))
  {
  }

  /** `(r b) c == r (b c)` for a row vector `r`. */
  lemma RowAssoc(r: Vec3, b: Mat3, c: Mat3)
    ensures MulMV(Transpose(c), MulMV(Transpose(b), r)) == MulMV(Transpose(MulMM(b, c)), r)
  {
    var lhs := MulMV(Transpose(c), MulMV(Transpose(b), r));
    var rhs := MulMV(Transpose(MulMM(b, c)), r);
    assert lhs.x == rhs.x;
    assert lhs.y == rhs.y;
    assert lhs.z == rhs.z;
  }

  lemma MulAssoc(a: Mat3, b: Mat3, c: Mat3)
    ensures MulMM(MulMM(a, b), c) == MulMM(a, MulMM(b, c))
  {
    RowAssoc(a.r0, b, c);
    RowAssoc(a.r1, b, c);
    RowAssoc(a.r2, b, c);
  }

  /** `F * P * F^T` is symmetric whenever `P` is. */
  lemma CongruenceSymmetric(f: Mat3, p: Mat3)
    requires Symmetric(p)
    ensures Symmetric(MulMM(MulMM(f, p), Transpose(f)))
  {
    var fp := MulMM(f, p);
    var ft := Transpose(f);
    calc {
      Transpose(MulMM(fp, ft));
      { TransposeOfProduct(fp, ft); }
      MulMM(Transpose(ft), Transpose(fp));
      { assert Transpose(ft) == f; TransposeOfProduct(f, p); }
      MulMM(f, MulMM(Transpose(p), ft));
      MulMM(f, MulMM(p, ft));
      { MulAssoc(f, p, ft); }
      MulMM(fp, ft);
    }
  }

  lemma SumSymmetric(a: Mat3, b: Mat3)
    requires Symmetric(a) && Symmetric(b)
    ensures Symmetric(AddM(a, b))
  {
  }

  /** A quaternion `w + xi + yj + zk`, in Eigen's `Quaterniond(w, x, y, z)` order. */
  datatype Quat = Quat(w: real, x: real, y: real, z: real)

  const QIdentity := Quat(1.0, 0.0, 0.0, 0.0)

  /** The Hamilton product, Eigen's `operator*` on quaternions. */
  function QMul(a: Quat, b: Quat): Quat {
    Quat(a.w * b.w - a.x * b.x - a.y * b.y - a.z * b.z,
         a.w * b.x + a.x * b.w + a.y * b.z - a.z * b.y,
         a.w * b.y + a.y * b.w + a.z * b.x - a.x * b.z,
         a.w * b.z + a.z * b.w + a.x * b.y - a.y * b.x)
  }

  function Conjugate(q: Quat): Quat {
    Quat(q.w, -q.x, -q.y, -q.z)
  }

  function QAdd(a: Quat, b: Quat): Quat {
    Quat(a.w + b.w, a.x + b.x, a.y + b.y, a.z + b.z)
  }

  function QScale(q: Quat, k: real): Quat {
    Quat(k * q.w, k * q.x, k * q.y, k * q.z)
  }

  function QNormSq(q: Quat): real {
    q.w * q.w + q.x * q.x + q.y * q.y + q.z * q.z
  }

  lemma QNormSqNonNegative(q: Quat)
    ensures 0.0 <= QNormSq(q)
  {
    assert 0.0 <= q.w * q.w && 0.0 <= q.x * q.x && 0.0 <= q.y * q.y && 0.0 <= q.z * q.z;
  }

  /** The vector part. */
  function Vec(q: Quat): Vec3 {
    Vec3(q.x, q.y, q.z)
  }

  /** The pure quaternion `(0, v)`. */
  function Pure(v: Vec3): Quat {
    Quat(0.0, v.x, v.y, v.z)
  }

  /**
   * Eigen's `q * v` for a quaternion and a vector: with `t = 2 (u x v)` for the
   * vector part `u`, the result is `v + w t + u x t`, which is the rotation
   * of `v` when `q` has unit norm.
   */
  function Rotate(q: Quat, v: Vec3): Vec3 {
    var u := Vec(q);
    var t := Scale(Cross(u, v), 2.0);
    Add(Add(v, Scale(t, q.w)), Cross(u, t))
  }

  /** The image of the z axis, written out. */
  lemma RotateUnitZ(q: Quat)
    ensures Rotate(q, UnitZ) == Vec3(2.0 * (q.w * q.y + q.x * q.z), 2.0 * (q.y * q.z - q.w * q.x),
                                     1.0 - 2.0 * (q.x * q.x + q.y * q.y))
  {
    var u := Vec(q);
    assert Cross(u, UnitZ) == Vec3(q.y, -q.x, 0.0);
    var t := Scale(Cross(u, UnitZ), 2.0);
    assert t == Vec3(2.0 * q.y, -2.0 * q.x, 0.0);
    assert Cross(u, t) == Vec3(2.0 * q.x * q.z, 2.0 * q.y * q.z, -2.0 * q.x * q.x - 2.0 * q.y * q.y);
  }

  /** The image of the negative z axis, written out. */
  lemma RotateMinusZ(q: Quat)
    ensures Rotate(q, Vec3(0.0, 0.0, -1.0)) == Vec3(-2.0 * (q.w * q.y + q.x * q.z), -2.0 * (q.y * q.z - q.w * q.x),
                                                    2.0 * (q.x * q.x + q.y * q.y) - 1.0)
  {
    var u := Vec(q);
    var v := Vec3(0.0, 0.0, -1.0);
    assert Cross(u, v) == Vec3(-q.y, q.x, 0.0);
    var t := Scale(Cross(u, v), 2.0);
    assert t == Vec3(-2.0 * q.y, 2.0 * q.x, 0.0);
    assert Cross(u, t) == Vec3(-2.0 * q.x * q.z, -2.0 * q.y * q.z, 2.0 * q.x * q.x + 2.0 * q.y * q.y);
  }

  lemma QMulIdentity(q: Quat)
    ensures QMul(q, QIdentity) == q && QMul(QIdentity, q) == q
  {
  }
}
