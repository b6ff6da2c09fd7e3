/**
 * `KalmanFilter`: an error-state filter over a three-dimensional rotation
 * error, predicted from the gyroscope and corrected from the direction of the
 * accelerometer reading.
 */
module KalmanFilter {
  import opened LinAlg
  import opened Numerics

  /** Rotation angles at or below this are treated as no rotation. */
  const SmallAngle: real := 1e-6

  const InitialCovariance := ScalarM(0.1)
  const ProcessNoise := ScalarM(0.001)
  const MeasurementNoise := ScalarM(0.1)

  /** The direction the filter expects the accelerometer to report in the world frame. */
  const GravityWorld := Vec3(0.0, 0.0, -1.0)

  datatype State = State(orientation: Quat, covariance: Mat3, processNoise: Mat3, measurementNoise: Mat3)

  /** The constructor: identity orientation and the matrices `initializeState` assigns. */
  function New(): (s: State)
    ensures s.orientation == QIdentity
    ensures s.covariance == ScalarM(0.1)
    ensures s.processNoise == ScalarM(0.001) && s.measurementNoise == ScalarM(0.1)
  {
    State(QIdentity, InitialCovariance, ProcessNoise, MeasurementNoise)
  }

  /** `reset`: identity orientation and `initializeState` again, so nothing of `s` survives. */
  function Reset(s: State): (r: State)
    ensures r == New()
  {
    State(QIdentity, InitialCovariance, ProcessNoise, MeasurementNoise)
  }

  /** `F = I - skew(gyro * dt)`. */
  function Transition(gyro: Vec3, dt: real): Mat3 {
    SubM(Identity3, Skew(Scale(gyro, dt)))
  }

  /** `predict(gyro, dt)`. */
  function Predict(ops: Ops, s: State, gyro: Vec3, dt: real): (r: State)
    ensures r.processNoise == s.processNoise && r.measurementNoise == s.measurementNoise
  {
    var delta := RotationDelta(ops, Scale(gyro, dt), SmallAngle);
    var f := Transition(gyro, dt);
    s.(orientation := NormalizedQ(ops, QMul(s.orientation, delta)),
       covariance := AddM(MulMM(MulMM(f, s.covariance), Transpose(f)), s.processNoise))
  }

  /** `h`: the world gravity direction seen from the sensor frame. */
  function ExpectedMeasurement(q: Quat): Vec3 {
    Rotate(Conjugate(q), GravityWorld)
  }

  /** `H = -skew(h)`. */
  function MeasurementMatrix(h: Vec3): Mat3 {
    ScaleM(Skew(h), -1.0)
  }

  /** `K = P H^T S^-1` with `S = H P H^T + R`. */
  function Gain(ops: Ops, p: Mat3, hm: Mat3, r: Mat3): Mat3 {
    var innovation := AddM(MulMM(MulMM(hm, p), Transpose(hm)), r);
    MulMM(MulMM(p, Transpose(hm)), ops.inverse(innovation))
  }

  /** The rotation error the correction applies: `K (z - h)`. */
  function Correction(ops: Ops, s: State, accel: Vec3): Vec3 {
    var h := ExpectedMeasurement(s.orientation);
    var k := Gain(ops, s.covariance, MeasurementMatrix(h), s.measurementNoise);
    MulMV(k, Sub(Normalized(ops, accel), h))
  }

  /** `correct(accel)`. */
  function Correct(ops: Ops, s: State, accel: Vec3): (r: State)
    ensures r.processNoise == s.processNoise && r.measurementNoise == s.measurementNoise
  {
    var h := ExpectedMeasurement(s.orientation);
    var hm := MeasurementMatrix(h);
    var k := Gain(ops, s.covariance, hm, s.measurementNoise);
    var delta := RotationDelta(ops, Correction(ops, s, accel), SmallAngle);
    s.(orientation := NormalizedQ(ops, QMul(delta, s.orientation)),
       covariance := MulMM(SubM(Identity3, MulMM(k, hm)), s.covariance))
  }

  /** `update(accel, gyro, dt)`: `predict`, then `correct` on the predicted state. */
  function Update(ops: Ops, s: State, accel: Vec3, gyro: Vec3, dt: real): (r: State)
    ensures r.processNoise == s.processNoise && r.measurementNoise == s.measurementNoise
  {
    Correct(ops, Predict(ops, s, gyro, dt), accel)
  }

  /** `Q` and `R` are those of a fresh filter however many updates and resets have happened. */
  ghost predicate NoiseFixed(s: State) {
    s.processNoise == ProcessNoise && s.measurementNoise == MeasurementNoise
  }

  lemma NoiseFixedPreserved(ops: Ops, s: State, accel: Vec3, gyro: Vec3, dt: real)
    requires NoiseFixed(s)
    ensures NoiseFixed(Update(ops, s, accel, gyro, dt)) && NoiseFixed(Reset(s))
  {
  }

  /** The predicted covariance stays symmetric when the covariance and `Q` are. */
  lemma PredictKeepsSymmetry(ops: Ops, s: State, gyro: Vec3, dt: real)
    requires Symmetric(s.covariance) && Symmetric(s.processNoise)
    ensures Symmetric(Predict(ops, s, gyro, dt).covariance)
  {
    var f := Transition(gyro, dt);
    CongruenceSymmetric(f, s.covariance);
    SumSymmetric(MulMM(MulMM(f, s.covariance), Transpose(f)), s.processNoise);
  }

  /** A fresh filter's covariance and noise matrices are symmetric, so every prediction's is. */
  lemma InitialSymmetric()
    ensures Symmetric(New().covariance) && Symmetric(New().processNoise) && Symmetric(New().measurementNoise)
  {
    ScalarIsScaledIdentity(0.1);
    ScalarIsScaledIdentity(0.001);
  }

  /** Without rotation the transition is the identity and the prediction only adds `Q`. */
  lemma PredictAtRest(ops: Ops, s: State, dt: real)
    ensures Predict(ops, s, Zero3, dt).covariance == AddM(s.covariance, s.processNoise)
  {
    assert Scale(Zero3, dt) == Zero3;
    assert Transition(Zero3, dt) == Identity3;
    assert Transpose(Identity3) == Identity3;
    MulIdentityLeft(s.covariance);
    MulIdentityRight(s.covariance);
  }

  /** Below the small-angle threshold the prediction only renormalises the orientation. */
  lemma PredictSmallAngle(ops: Ops, s: State, gyro: Vec3, dt: real)
    requires Norm(ops, Scale(gyro, dt)) <= SmallAngle
    ensures Predict(ops, s, gyro, dt).orientation == NormalizedQ(ops, s.orientation)
  {
    QMulIdentity(s.orientation);
  }

  /** Above it the rotation is composed on the right of the orientation (a body-frame increment). */
  lemma PredictLargeAngle(ops: Ops, s: State, gyro: Vec3, dt: real)
    requires SmallAngle < Norm(ops, Scale(gyro, dt))
    ensures var theta := Scale(gyro, dt);
            var angle := Norm(ops, theta);
            Predict(ops, s, gyro, dt).orientation
              == NormalizedQ(ops, QMul(s.orientation, ops.angleAxis(angle, Scale(theta, 1.0 / angle))))
  {
  }

  /** Below the threshold the correction only renormalises the orientation. */
  lemma CorrectSmallAngle(ops: Ops, s: State, accel: Vec3)
    requires Norm(ops, Correction(ops, s, accel)) <= SmallAngle
    ensures Correct(ops, s, accel).orientation == NormalizedQ(ops, s.orientation)
  {
    QMulIdentity(s.orientation);
  }

  /** Above it the correction is composed on the left (a world-frame increment). */
  lemma CorrectLargeAngle(ops: Ops, s: State, accel: Vec3)
    requires SmallAngle < Norm(ops, Correction(ops, s, accel))
    ensures var e := Correction(ops, s, accel);
            var angle := Norm(ops, e);
            Correct(ops, s, accel).orientation
              == NormalizedQ(ops, QMul(ops.angleAxis(angle, Scale(e, 1.0 / angle)), s.orientation))
  {
  }

  /**
   * A measurement that agrees with the expected one leaves no innovation, so
   * the correction is zero and the orientation is only renormalised; a unit
   * orientation is then kept exactly.
   */
  lemma ConsistentMeasurementKeepsOrientation(ops: Ops, s: State, accel: Vec3)
    requires ops.sqrt(0.0) == 0.0
    requires Normalized(ops, accel) == ExpectedMeasurement(s.orientation)
    ensures Correction(ops, s, accel) == Zero3
    ensures Correct(ops, s, accel).orientation == NormalizedQ(ops, s.orientation)
    ensures ops.sqrt(1.0) == 1.0 && QNormSq(s.orientation) == 1.0 ==> Correct(ops, s, accel).orientation == s.orientation
  {
    ZeroInnovation(ops, s, accel);
    CorrectSmallAngle(ops, s, accel);
    if ops.sqrt(1.0) == 1.0 && QNormSq(s.orientation) == 1.0 {
      NormalizedQUnit(ops, s.orientation);
    }
  }

  /** No innovation, no correction: the gain applied to a zero vector. */
  lemma ZeroInnovation(ops: Ops, s: State, accel: Vec3)
    requires ops.sqrt(0.0) == 0.0
    requires Normalized(ops, accel) == ExpectedMeasurement(s.orientation)
    ensures Correction(ops, s, accel) == Zero3 && Norm(ops, Zero3) == 0.0
  {
    var h := ExpectedMeasurement(s.orientation);
    var k := Gain(ops, s.covariance, MeasurementMatrix(h), s.measurementNoise);
    assert Sub(Normalized(ops, accel), h) == Zero3;
    MulMVZero(k);
    assert NormSq(Zero3) == 0.0;
  }

  /**
   * The expected measurement is the opposite of the gravity direction the
   * Madgwick residual predicts for the same orientation.
   */
  lemma ExpectedMeasurementPointsDown(q: Quat)
    ensures ExpectedMeasurement(q) == Scale(Rotate(Conjugate(q), UnitZ), -1.0)
  {
    var c := Conjugate(q);
    RotateUnitZ(c);
    RotateMinusZ(c);
  }

  /** `H w = w x h`: the measurement matrix is the cross product with `h` from the right. */
  lemma MeasurementMatrixIsCross(h: Vec3, w: Vec3)
    ensures MulMV(MeasurementMatrix(h), w) == Cross(w, h)
  {
  }
}
