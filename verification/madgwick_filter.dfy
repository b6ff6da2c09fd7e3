/**
 * `MadgwickFilter`: one gradient-descent step on the gravity residual,
 * combined with the quaternion kinematics of the gyroscope rate and
 * integrated with a single Euler step.
 */
module MadgwickFilter {
  import opened LinAlg
  import opened Numerics

  const DefaultBeta: real := 0.1
  /** Steps whose magnitude is at or below this are not normalised. */
  const SmallStep: real := 1e-10

  const QZero := Quat(0.0, 0.0, 0.0, 0.0)

  datatype State = State(beta: real, orientation: Quat)

  /** The constructor: the given gain (0.1 by default), identity orientation. */
  function New(beta: real): (s: State)
    ensures s.beta == beta && s.orientation == QIdentity
  {
    State(beta, QIdentity)
  }

  /** `reset`: back to the identity; the gain is kept. */
  function Reset(s: State): (r: State)
    ensures r.beta == s.beta && r.orientation == QIdentity
    ensures r == New(s.beta)
  {
    s.(orientation := QIdentity)
  }

  /** `F_g`: the predicted direction of gravity in the sensor frame minus the measured one. */
  function Residual(q: Quat, a: Vec3): Vec3 {
    Vec3(2.0 * (q.x * q.z - q.w * q.y) - a.x,
         2.0 * (q.w * q.x + q.y * q.z) - a.y,
         2.0 * (0.5 - q.x * q.x - q.y * q.y) - a.z)
  }

  /** The three rows of `J_g`, each over the coefficients `(q0, q1, q2, q3)`. */
  function JacobianRow0(q: Quat): Quat {
    Quat(-2.0 * q.y, 2.0 * q.z, -2.0 * q.w, 2.0 * q.x)
  }

  function JacobianRow1(q: Quat): Quat {
    Quat(2.0 * q.x, 2.0 * q.w, 2.0 * q.z, 2.0 * q.y)
  }

  function JacobianRow2(q: Quat): Quat {
    Quat(0.0, -4.0 * q.x, -4.0 * q.y, 0.0)
  }

  /** `step = J_g^T F_g`, accumulated row by row as the nested loop does. */
  function Gradient(q: Quat, a: Vec3): Quat {
    var f := Residual(q, a);
    QAdd(QAdd(QAdd(QZero, QScale(JacobianRow0(q), f.x)), QScale(JacobianRow1(q), f.y)), QScale(JacobianRow2(q), f.z))
  }

  /** The step divided by its magnitude when that exceeds the threshold. */
  function NormalizedStep(ops: Ops, step: Quat): (r: Quat)
    ensures QNorm(ops, step) <= SmallStep ==> r == step
  {
    var mag := QNorm(ops, step);
    if mag > SmallStep then QScale(step, 1.0 / mag) else step
  }

  /** `qDot`: the rate of change of `q` under the angular rate `gyro`. */
  function QDot(q: Quat, gyro: Vec3): Quat {
    Quat(0.5 * (-q.x * gyro.x - q.y * gyro.y - q.z * gyro.z),
         0.5 * (q.w * gyro.x + q.y * gyro.z - q.z * gyro.y),
         0.5 * (q.w * gyro.y - q.x * gyro.z + q.z * gyro.x),
         0.5 * (q.w * gyro.z + q.x * gyro.y - q.y * gyro.x))
  }

  /** The Euler-integrated, not yet normalised, orientation. */
  function Integrate(ops: Ops, s: State, accel: Vec3, gyro: Vec3, dt: real): Quat {
    var q := s.orientation;
    var step := NormalizedStep(ops, Gradient(q, Normalized(ops, accel)));
    var rate := QAdd(QDot(q, gyro), QScale(step, -s.beta));
    QAdd(q, QScale(rate, dt))
  }

  /** `update(accel, gyro, dt)`. */
  function Update(ops: Ops, s: State, accel: Vec3, gyro: Vec3, dt: real): (r: State)
    ensures r.beta == s.beta
  {
    s.(orientation := NormalizedQ(ops, Integrate(ops, s, accel, gyro, dt)))
  }

  /** The kinematics are half the Hamilton product of `q` with the pure quaternion of the rate. */
  lemma QDotIsHalfProduct(q: Quat, gyro: Vec3)
    ensures QDot(q, gyro) == QScale(QMul(q, Pure(gyro)), 0.5)
  {
  }

  /** The residual is the world z axis seen from the sensor frame, minus the measurement. */
  lemma ResidualIsGravityError(q: Quat, a: Vec3)
    ensures Residual(q, a) == Sub(Rotate(Conjugate(q), UnitZ), a)
  {
    RotateUnitZ(Conjugate(q));
  }

  /** No residual, no gradient. */
  lemma GradientVanishes(q: Quat, a: Vec3)
    requires Residual(q, a) == Zero3
    ensures Gradient(q, a) == QZero
  {
  }

  /** At the identity with gravity straight along z the residual vanishes. */
  lemma ResidualAtIdentity()
    ensures Residual(QIdentity, UnitZ) == Zero3
  {
  }

  /** With an exact root, a step above the threshold is scaled to unit length. */
  lemma NormalizedStepIsUnit(ops: Ops, step: Quat)
    requires ExactSqrt(ops)
    requires SmallStep < QNorm(ops, step)
    ensures QNormSq(NormalizedStep(ops, step)) == 1.0
  {
    var n := QNormSq(step);
    QNormSqNonNegative(step);
    RootSquared(ops, n);
    ScaledToUnitQ(step, ops.sqrt(n));
  }

  /** With an exact root the new orientation is a unit quaternion unless the integrated one is zero. */
  lemma UpdateIsUnit(ops: Ops, s: State, accel: Vec3, gyro: Vec3, dt: real)
    requires ExactSqrt(ops)
    requires QNormSq(Integrate(ops, s, accel, gyro, dt)) != 0.0
    ensures QNormSq(Update(ops, s, accel, gyro, dt).orientation) == 1.0
  {
    NormalizedQIsUnit(ops, Integrate(ops, s, accel, gyro, dt));
  }

  /** A zero step stays zero whether or not it is divided by its magnitude. */
  lemma NormalizedStepZero(ops: Ops)
    ensures NormalizedStep(ops, QZero) == QZero
  {
    var mag := QNorm(ops, QZero);
    if mag > SmallStep {
      assert QScale(QZero, 1.0 / mag) == QZero;
    }
  }

  /**
   * The identity is a fixed point: level, at rest, gravity along z, for any
   * gain and time step (given only `sqrt(1) == 1`).
   */
  lemma IdentityIsFixedPoint(ops: Ops, s: State, dt: real)
    requires ops.sqrt(1.0) == 1.0
    requires s.orientation == QIdentity
    ensures Update(ops, s, UnitZ, Zero3, dt) == s
  {
    StepAtIdentity(ops);
    IntegrateAtIdentity(ops, s, dt);
    NormalizedQUnit(ops, QIdentity);
  }

  lemma StepAtIdentity(ops: Ops)
    requires ops.sqrt(1.0) == 1.0
    ensures NormalizedStep(ops, Gradient(QIdentity, Normalized(ops, UnitZ))) == QZero
  {
    NormalizedUnit(ops, UnitZ);
    ResidualAtIdentity();
    GradientVanishes(QIdentity, UnitZ);
    NormalizedStepZero(ops);
  }

  lemma IntegrateAtIdentity(ops: Ops, s: State, dt: real)
    requires s.orientation == QIdentity
    requires NormalizedStep(ops, Gradient(QIdentity, Normalized(ops, UnitZ))) == QZero
    ensures Integrate(ops, s, UnitZ, Zero3, dt) == QIdentity
  {
    var step := NormalizedStep(ops, Gradient(QIdentity, Normalized(ops, UnitZ)));
    var rate := QAdd(QDot(QIdentity, Zero3), QScale(step, -s.beta));
    assert rate == QZero by {
      assert QDot(QIdentity, Zero3) == QZero;
      assert QScale(QZero, -s.beta) == QZero;
    }
    assert QScale(QZero, dt) == QZero;
  }
}
