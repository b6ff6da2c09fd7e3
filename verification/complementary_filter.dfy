/**
 * `ComplementaryFilter`: integrate the gyroscope, then pull the estimate
 * towards the attitude the accelerometer alone implies by a fixed weight.
 */
module ComplementaryFilter {
  import opened LinAlg
  import opened Numerics

  const DefaultAccelWeight: real := 0.02
  /** Rotation angles at or below this are treated as no rotation. */
  const SmallAngle: real := 1e-10

  datatype State = State(accelWeight: real, orientation: Quat)

  /** The constructor: the given weight (0.02 by default), identity orientation. */
  function New(accelWeight: real): (s: State)
    ensures s.accelWeight == accelWeight && s.orientation == QIdentity
  {
    State(accelWeight, QIdentity)
  }

  /** `reset`: back to the identity; the weight is kept. */
  function Reset(s: State): (r: State)
    ensures r.accelWeight == s.accelWeight && r.orientation == QIdentity
    ensures r == New(s.accelWeight)
  {
    s.(orientation := QIdentity)
  }

  /** The gyroscope-only estimate: the current orientation followed by the rotation `gyro * dt`. */
  function GyroEstimate(ops: Ops, q: Quat, gyro: Vec3, dt: real): Quat {
    QMul(q, RotationDelta(ops, Scale(gyro, dt), SmallAngle))
  }

  /** The attitude that turns the z axis onto the measured acceleration direction. */
  function AccelEstimate(ops: Ops, accel: Vec3): Quat {
    ops.fromTwoVectors(UnitZ, Normalized(ops, accel))
  }

  /** `update(accel, gyro, dt)`. */
  function Update(ops: Ops, s: State, accel: Vec3, gyro: Vec3, dt: real): (r: State)
    ensures r.accelWeight == s.accelWeight
  {
    var blended := ops.slerp(GyroEstimate(ops, s.orientation, gyro, dt), s.accelWeight, AccelEstimate(ops, accel));
    s.(orientation := NormalizedQ(ops, blended))
  }

  /** Below the small-angle threshold the gyroscope contributes no rotation. */
  lemma GyroEstimateSmallAngle(ops: Ops, q: Quat, gyro: Vec3, dt: real)
    requires Norm(ops, Scale(gyro, dt)) <= SmallAngle
    ensures GyroEstimate(ops, q, gyro, dt) == q
  {
    QMulIdentity(q);
  }

  /** Above the threshold the estimate is `q` followed by the angle-axis rotation of `gyro * dt`. */
  lemma GyroEstimateLargeAngle(ops: Ops, q: Quat, gyro: Vec3, dt: real)
    requires SmallAngle < Norm(ops, Scale(gyro, dt))
    ensures var theta := Scale(gyro, dt);
            var angle := Norm(ops, theta);
            GyroEstimate(ops, q, gyro, dt) == QMul(q, ops.angleAxis(angle, Scale(theta, 1.0 / angle)))
  {
  }

  /** With an exact root the output is a unit quaternion unless the slerp returned zero. */
  lemma UpdateIsUnit(ops: Ops, s: State, accel: Vec3, gyro: Vec3, dt: real)
    requires ExactSqrt(ops)
    requires QNormSq(ops.slerp(GyroEstimate(ops, s.orientation, gyro, dt), s.accelWeight, AccelEstimate(ops, accel))) != 0.0
    ensures QNormSq(Update(ops, s, accel, gyro, dt).orientation) == 1.0
  {
    NormalizedQIsUnit(ops, ops.slerp(GyroEstimate(ops, s.orientation, gyro, dt), s.accelWeight, AccelEstimate(ops, accel)));
  }

  /**
   * With no rotation and zero weight, and a slerp that returns its start at
   * `t = 0`, a unit orientation is kept exactly.
   */
  lemma UpdateAtRestKeepsOrientation(ops: Ops, s: State, accel: Vec3, dt: real)
    requires ops.sqrt(0.0) == 0.0 && ops.sqrt(1.0) == 1.0
    requires forall a: Quat, b: Quat :: ops.slerp(a, 0.0, b) == a
    requires s.accelWeight == 0.0 && QNormSq(s.orientation) == 1.0
    ensures Update(ops, s, accel, Zero3, dt) == s
  {
    assert Scale(Zero3, dt) == Zero3;
    GyroEstimateSmallAngle(ops, s.orientation, Zero3, dt);
    NormalizedQUnit(ops, s.orientation);
  }
}
