/**
 * `DataProcessor`: the host pipeline's state record and one transition per
 * slot.  Each slot runs as one atomic step (the mutex only serialises them);
 * what the slot emits is returned as a list of events.
 *
 * As written, `processIMUData` feeds the filter the raw sample scaled by 0.1
 * and never applies the stored calibration, and it neither reads nor feeds
 * the calibration buffers; `updateCalibration` is the only way samples reach
 * them.
 */
module DataProcessor {
  import opened Wrappers
  import opened LinAlg
  import opened Numerics
  import opened Doubles
  import opened ImuData
  import opened FilterFactory
  import CalibrationStats

  const CalibrationSamples: nat := 1000
  /** `MIN_TIMESTAMP_DELTA`, in seconds. */
  const MinTimestampDelta: real := 0.001
  const AccelScale: real := 0.1
  const GyroScale: real := 0.1
  const Gravity: real := 9.81

  const MinAccelMagnitude: real := 0.981
  const MaxAccelMagnitude: real := 39.24
  const MaxGyroMagnitude: real := 8.726

  datatype Processor = Processor(
    filter: Filter,
    calibration: CalibrationData,
    isCalibrating: bool,
    lastTimestamp: U64,
    accelBuffer: seq<DVec3>,
    gyroBuffer: seq<DVec3>)

  datatype Event =
    | NewOrientation(orientation: Quat)
    | NewCalibrationData(calibration: CalibrationData)
    | ErrorOccurred(message: string)

  /** A slot's effect: the next state and the signals emitted, in order. */
  datatype Step = Step(state: Processor, events: seq<Event>)

  /** The constructor: a Kalman filter and the member initialisers. */
  function Create(): (p: Processor)
    ensures p.filter == CreateFilter(Kalman).value
    ensures !p.isCalibrating && p.lastTimestamp == 0
    ensures p.accelBuffer == [] && p.gyroBuffer == []
    ensures p.calibration == DefaultCalibration
  {
    Processor(CreateFilter(Kalman).value, DefaultCalibration, false, 0, [], [])
  }

  /** What every reachable processor satisfies. */
  ghost predicate Inv(p: Processor) {
    && |p.accelBuffer| <= CalibrationSamples
    && |p.gyroBuffer| == |p.accelBuffer|
    && (!p.isCalibrating ==> p.accelBuffer == [])
    && HasDefaults(p.filter)
  }

  /** `setFilterType`: a fresh filter of the given kind; an unknown kind throws and nothing changes. */
  function SetFilterType(p: Processor, kind: int): (r: Result<Processor>)
    ensures r.Success? <==> CreateFilter(kind).Success?
    ensures r.Success? ==> r.value == p.(filter := r.value.filter)
    ensures r.Success? ==> Kind(r.value.filter) == kind && Orientation(r.value.filter) == QIdentity
    ensures r.Failure? ==> r.error == "Unknown filter type"
  {
    match CreateFilter(kind)
    case Success(f) => CreatedFilterIsFresh(kind); Success(p.(filter := f))
    case Failure(e) => Failure(e)
  }

  /** `resetOrientation`: only the filter is reset. */
  function ResetOrientation(p: Processor): (r: Processor)
    ensures r == p.(filter := r.filter)
    ensures Kind(r.filter) == Kind(p.filter) && Orientation(r.filter) == QIdentity
  {
    p.(filter := FilterFactory.Reset(p.filter))
  }

  /** `setCalibrationData`: only the calibration is replaced. */
  function SetCalibrationData(p: Processor, c: CalibrationData): (r: Processor)
    ensures r.calibration == c && r == p.(calibration := c)
  {
    p.(calibration := c)
  }

  /** `applyCalibration(raw, bias, scale)`: `scale * (raw - bias)`. */
  function ApplyCalibration(raw: DVec3, bias: DVec3, scale: DMat3): (r: DVec3)
    ensures !AllFinite(raw) ==> r == DVec3(NonFinite, NonFinite, NonFinite)
  {
    DMulMV(scale, DSub(raw, bias))
  }

  /** `validateIMUData`: finite components, then the magnitude bounds on the norms. */
  function ValidateIMUData(ops: Ops, data: IMUData): (ok: bool)
    ensures ok ==> AllFinite(data.acceleration) && AllFinite(data.gyroscope)
  {
    if !(AllFinite(data.acceleration) && AllFinite(data.gyroscope)) then false
    else
      var accelMagnitude := Norm(ops, ToVec3(data.acceleration));
      var gyroMagnitude := Norm(ops, ToVec3(data.gyroscope));
      if accelMagnitude < MinAccelMagnitude || accelMagnitude > MaxAccelMagnitude then false
      else if gyroMagnitude > MaxGyroMagnitude then false
      else true
  }

  /** The `uint64_t` difference `timestamp - lastTimestamp`. */
  function WrappedDelta(timestamp: U64, last: U64): (d: U64)
    ensures last <= timestamp ==> d == timestamp - last
    ensures timestamp < last ==> d == TwoTo64 - (last - timestamp)
  {
    (timestamp - last) % TwoTo64
  }

  /** The delta in seconds. */
  function DeltaSeconds(timestamp: U64, last: U64): real {
    WrappedDelta(timestamp, last) as real / 1000000.0
  }

  /** `processIMUData`. */
  function ProcessIMUData(ops: Ops, p: Processor, data: IMUData): (r: Step)
    ensures !ValidateIMUData(ops, data) ==> r == Step(p, [ErrorOccurred("Invalid IMU data received")])
    ensures ValidateIMUData(ops, data) && p.lastTimestamp != 0 && WrappedDelta(data.timestamp, p.lastTimestamp) < 1000 ==>
              r == Step(p, [])
    ensures ValidateIMUData(ops, data) && (p.lastTimestamp == 0 || 1000 <= WrappedDelta(data.timestamp, p.lastTimestamp)) ==>
              r == Accept(ops, p, data, if p.lastTimestamp == 0 then 0.0 else DeltaSeconds(data.timestamp, p.lastTimestamp))
    ensures r.state == p || r.state == p.(filter := r.state.filter, lastTimestamp := data.timestamp)
  {
    if !ValidateIMUData(ops, data) then Step(p, [ErrorOccurred("Invalid IMU data received")])
    else
      var dt := if p.lastTimestamp != 0 then DeltaSeconds(data.timestamp, p.lastTimestamp) else 0.0;
      GateIsThousandMicros(WrappedDelta(data.timestamp, p.lastTimestamp));
      if p.lastTimestamp != 0 && dt < MinTimestampDelta then Step(p, [])
      else Accept(ops, p, data, dt)
  }

  /** The accepted branch of `processIMUData`: scale, update the filter, record the timestamp, emit. */
  function Accept(ops: Ops, p: Processor, data: IMUData, dt: real): (r: Step)
    requires AllFinite(data.acceleration) && AllFinite(data.gyroscope)
    ensures r.state == p.(filter := r.state.filter, lastTimestamp := data.timestamp)
    ensures r.state.filter == FilterFactory.Update(ops, p.filter, Scale(ToVec3(data.acceleration), AccelScale),
                                                   Scale(ToVec3(data.gyroscope), GyroScale), dt)
    ensures r.events == [NewOrientation(Orientation(r.state.filter))]
  {
    var accel := Scale(ToVec3(data.acceleration), AccelScale);
    var gyro := Scale(ToVec3(data.gyroscope), GyroScale);
    var filter := FilterFactory.Update(ops, p.filter, accel, gyro, dt);
    Step(p.(lastTimestamp := data.timestamp, filter := filter), [NewOrientation(Orientation(filter))])
  }

  /** `startCalibration`. */
  function StartCalibration(p: Processor): (r: Processor)
    ensures r == p.(isCalibrating := true, accelBuffer := [], gyroBuffer := [])
  {
    p.(isCalibrating := true, accelBuffer := [], gyroBuffer := [])
  }

  /** The `pop_front` loop: drop from the front until at most `CALIBRATION_SAMPLES` remain. */
  function Trim(b: seq<DVec3>): (r: seq<DVec3>)
    ensures |r| <= CalibrationSamples
    decreases |b|
  {
    if |b| > CalibrationSamples then Trim(b[1..]) else b
  }

  /** `updateCalibration`. */
  function UpdateCalibration(p: Processor, data: IMUData): (r: Processor)
    ensures !p.isCalibrating ==> r == p
    ensures p.isCalibrating ==> r == p.(accelBuffer := r.accelBuffer, gyroBuffer := r.gyroBuffer)
  {
    if !p.isCalibrating then p
    else p.(accelBuffer := Trim(p.accelBuffer + [data.acceleration]),
            gyroBuffer := Trim(p.gyroBuffer + [data.gyroscope]))
  }

  /** The per-axis mean of a buffer. */
  function MeanVec(b: seq<DVec3>): DVec3
    requires |b| > 0
  {
    DVec3(CalibrationStats.Mean(Xs(b)), CalibrationStats.Mean(Ys(b)), CalibrationStats.Mean(Zs(b)))
  }

  /** The diagonal of a buffer's covariance. */
  function VarianceVec(b: seq<DVec3>): DVec3
    requires |b| > 1
  {
    DVec3(CalibrationStats.Variance(Xs(b)), CalibrationStats.Variance(Ys(b)), CalibrationStats.Variance(Zs(b)))
  }

  function Xs(b: seq<DVec3>): (r: seq<Double>)
    ensures |r| == |b|
  {
    seq(|b|, i requires 0 <= i < |b| => b[i].x)
  }

  function Ys(b: seq<DVec3>): (r: seq<Double>)
    ensures |r| == |b|
  {
    seq(|b|, i requires 0 <= i < |b| => b[i].y)
  }

  function Zs(b: seq<DVec3>): (r: seq<Double>)
    ensures |r| == |b|
  {
    seq(|b|, i requires 0 <= i < |b| => b[i].z)
  }

  /** `Ones() + 0.5 * variance`, placed on a diagonal. */
  function ScaleFromVariance(v: DVec3): DMat3 {
    DDiag(DAdd(DVec3(One, One, One), DScale(v, 0.5)))
  }

  /** The calibration `finishCalibration` derives from full buffers. */
  function Calibrate(accel: seq<DVec3>, gyro: seq<DVec3>): CalibrationData
    requires |accel| > 1 && |gyro| > 1
  {
    CalibrationData(
      DSub(MeanVec(accel), OfVec3(Vec3(0.0, 0.0, Gravity))),
      ScaleFromVariance(VarianceVec(accel)),
      MeanVec(gyro),
      ScaleFromVariance(VarianceVec(gyro)))
  }

  /** `finishCalibration`. */
  function FinishCalibration(p: Processor): (r: Step)
    ensures |p.accelBuffer| < CalibrationSamples || |p.gyroBuffer| < CalibrationSamples ==>
              r == Step(p, [ErrorOccurred("Not enough samples for calibration")])
    ensures CalibrationSamples <= |p.accelBuffer| && CalibrationSamples <= |p.gyroBuffer| ==>
                  && r.state == p.(calibration := r.state.calibration, isCalibrating := false,
                                   accelBuffer := [], gyroBuffer := [])
                  && r.events == [NewCalibrationData(r.state.calibration)]
                  && r.state.calibration == Calibrate(p.accelBuffer, p.gyroBuffer)
  {
    if |p.accelBuffer| < CalibrationSamples || |p.gyroBuffer| < CalibrationSamples then
      Step(p, [ErrorOccurred("Not enough samples for calibration")])
    else
      var c := Calibrate(p.accelBuffer, p.gyroBuffer);
      Step(p.(calibration := c, isCalibrating := false, accelBuffer := [], gyroBuffer := []),
           [NewCalibrationData(c)])
  }

  // ---------------------------------------------------------------------------
  // Properties

  /** With `sqrt` exact, `s < c` and `s > c` for the root `s` of `n` compare `n` with `c^2`. */
  lemma RootComparisons(n: real, s: real, c: real)
    requires 0.0 <= s && s * s == n && 0.0 <= c
    ensures s < c <==> n < c * c
    ensures s > c <==> n > c * c
  {
    var sc := s * c;
    var cc := c * c;
    if s < c {
      assert n <= sc;
      assert sc < cc;
    } else if s > c {
      assert cc <= sc;
      assert sc < n;
    }
  }

  /**
   * With an exact root the gate is the squared-norm test: finite, and
   * `0.981 <= |a| <= 39.24` and `|g| <= 8.726` with the bounds themselves
   * accepted.
   */
  lemma ValidateIsNormBounds(ops: Ops, data: IMUData)
    requires ExactSqrt(ops)
    ensures ValidateIMUData(ops, data) <==>
      && AllFinite(data.acceleration) && AllFinite(data.gyroscope)
      && MinAccelMagnitude * MinAccelMagnitude <= NormSq(ToVec3(data.acceleration))
      && NormSq(ToVec3(data.acceleration)) <= MaxAccelMagnitude * MaxAccelMagnitude
      && NormSq(ToVec3(data.gyroscope)) <= MaxGyroMagnitude * MaxGyroMagnitude
  {
    if AllFinite(data.acceleration) && AllFinite(data.gyroscope) {
      ValidateOnNorms(ops, data);
      AccelNormGate(ops, ToVec3(data.acceleration));
      GyroNormGate(ops, ToVec3(data.gyroscope));
    }
  }

  lemma ValidateOnNorms(ops: Ops, data: IMUData)
    requires AllFinite(data.acceleration) && AllFinite(data.gyroscope)
    ensures var sa := Norm(ops, ToVec3(data.acceleration));
            var sg := Norm(ops, ToVec3(data.gyroscope));
            ValidateIMUData(ops, data) == (!(sa < MinAccelMagnitude || sa > MaxAccelMagnitude) && !(sg > MaxGyroMagnitude))
  {
  }

  /** The accelerometer magnitude test on a root `s` of `n`, stated on `n`. */
  lemma AccelGateOnRoot(n: real, s: real)
    requires 0.0 <= s && s * s == n
    ensures !(s < MinAccelMagnitude || s > MaxAccelMagnitude) <==>
              MinAccelMagnitude * MinAccelMagnitude <= n <= MaxAccelMagnitude * MaxAccelMagnitude
  {
    RootComparisons(n, s, MinAccelMagnitude);
    RootComparisons(n, s, MaxAccelMagnitude);
  }

  /** The gyroscope magnitude test on a root `s` of `n`, stated on `n`. */
  lemma GyroGateOnRoot(n: real, s: real)
    requires 0.0 <= s && s * s == n
    ensures !(s > MaxGyroMagnitude) <==> n <= MaxGyroMagnitude * MaxGyroMagnitude
  {
    RootComparisons(n, s, MaxGyroMagnitude);
  }

  /** The norm is the exact root of the squared norm. */
  lemma NormIsRoot(ops: Ops, v: Vec3)
    requires ExactSqrt(ops)
    ensures 0.0 <= Norm(ops, v) && Norm(ops, v) * Norm(ops, v) == NormSq(v)
  {
    NormSqNonNegative(v);
    RootSquared(ops, NormSq(v));
  }

  /** The accelerometer magnitude test on `|v|`, stated on `|v|^2`. */
  lemma AccelNormGate(ops: Ops, v: Vec3)
    requires ExactSqrt(ops)
    ensures !(Norm(ops, v) < MinAccelMagnitude || Norm(ops, v) > MaxAccelMagnitude) <==>
              MinAccelMagnitude * MinAccelMagnitude <= NormSq(v) <= MaxAccelMagnitude * MaxAccelMagnitude
  {
    NormIsRoot(ops, v);
    AccelGateOnRoot(NormSq(v), Norm(ops, v));
  }

  /** The gyroscope magnitude test on `|v|`, stated on `|v|^2`. */
  lemma GyroNormGate(ops: Ops, v: Vec3)
    requires ExactSqrt(ops)
    ensures !(Norm(ops, v) > MaxGyroMagnitude) <==> NormSq(v) <= MaxGyroMagnitude * MaxGyroMagnitude
  {
    NormIsRoot(ops, v);
    GyroGateOnRoot(NormSq(v), Norm(ops, v));
  }

  /** A sample with any non-finite component is rejected, by any processor, and changes nothing. */
  lemma NonFiniteRejected(ops: Ops, p: Processor, data: IMUData)
    requires !AllFinite(data.acceleration) || !AllFinite(data.gyroscope)
    ensures ProcessIMUData(ops, p, data) == Step(p, [ErrorOccurred("Invalid IMU data received")])
  {
    assert !ValidateIMUData(ops, data);
  }

  /** `MIN_TIMESTAMP_DELTA` of 0.001 s is exactly 1000 microseconds after the `/ 1e6` conversion. */
  lemma GateIsThousandMicros(d: nat)
    ensures (d as real / 1000000.0 < MinTimestampDelta) <==> d < 1000
  {
  }

  /** The first sample, or any after one stamped 0, is taken with `dt = 0`. */
  lemma FirstSampleTaken(ops: Ops, p: Processor, data: IMUData)
    requires ValidateIMUData(ops, data) && p.lastTimestamp == 0
    ensures var r := ProcessIMUData(ops, p, data);
            && r.state.lastTimestamp == data.timestamp
            && r.state.filter == FilterFactory.Update(ops, p.filter, Scale(ToVec3(data.acceleration), 0.1),
                                                      Scale(ToVec3(data.gyroscope), 0.1), 0.0)
            && r.events == [NewOrientation(Orientation(r.state.filter))]
  {
  }

  /** At least 1000 microseconds after the last accepted sample, a valid sample is taken with that `dt`. */
  lemma LaterSampleTaken(ops: Ops, p: Processor, data: IMUData)
    requires ValidateIMUData(ops, data) && p.lastTimestamp != 0
    requires 1000 <= WrappedDelta(data.timestamp, p.lastTimestamp)
    ensures var r := ProcessIMUData(ops, p, data);
            && r.state.lastTimestamp == data.timestamp
            && r.state.filter == FilterFactory.Update(ops, p.filter, Scale(ToVec3(data.acceleration), 0.1),
                                                      Scale(ToVec3(data.gyroscope), 0.1),
                                                      DeltaSeconds(data.timestamp, p.lastTimestamp))
            && r.events == [NewOrientation(Orientation(r.state.filter))]
  {
    var r := ProcessIMUData(ops, p, data);
    assert r == Accept(ops, p, data, DeltaSeconds(data.timestamp, p.lastTimestamp));
  }

  /**
   * A timestamp earlier than the last one wraps to a huge delta and is
   * accepted, moving `lastTimestamp` backwards, unless it lies within 1000
   * microseconds of wrapping all the way round.
   */
  lemma EarlierTimestampAccepted(ops: Ops, p: Processor, data: IMUData)
    requires ValidateIMUData(ops, data) && p.lastTimestamp != 0
    requires data.timestamp < p.lastTimestamp && p.lastTimestamp - data.timestamp <= TwoTo64 - 1000
    ensures ProcessIMUData(ops, p, data).state.lastTimestamp == data.timestamp < p.lastTimestamp
  {
    LaterSampleTaken(ops, p, data);
  }

  /** The stored calibration has no influence on sample processing. */
  lemma ProcessIgnoresCalibration(ops: Ops, p: Processor, data: IMUData, c: CalibrationData)
    ensures var a := ProcessIMUData(ops, p, data);
            var b := ProcessIMUData(ops, p.(calibration := c), data);
            b.events == a.events && b.state == a.state.(calibration := c)
  {
  }

  /** Processing never touches the calibration, the calibration flag or the buffers. */
  lemma ProcessKeepsCalibrationState(ops: Ops, p: Processor, data: IMUData)
    ensures var r := ProcessIMUData(ops, p, data).state;
            r.calibration == p.calibration && r.isCalibrating == p.isCalibrating
            && r.accelBuffer == p.accelBuffer && r.gyroBuffer == p.gyroBuffer
  {
  }

  /** The trimming loop keeps the newest `min(n, 1000)` samples. */
  lemma {:induction false} TrimKeepsNewest(b: seq<DVec3>)
    ensures |b| <= CalibrationSamples ==> Trim(b) == b
    ensures |b| > CalibrationSamples ==> Trim(b) == b[|b| - CalibrationSamples..]
    decreases |b|
  {
    if |b| > CalibrationSamples {
      TrimKeepsNewest(b[1..]);
      assert b[1..][|b| - 1 - CalibrationSamples..] == b[|b| - CalibrationSamples..];
    }
  }

  /** While calibrating, each buffer is the newest `min(n, 1000)` of itself plus the new sample. */
  lemma UpdateCalibrationWindow(p: Processor, data: IMUData)
    requires p.isCalibrating && |p.accelBuffer| <= CalibrationSamples && |p.gyroBuffer| <= CalibrationSamples
    ensures var r := UpdateCalibration(p, data);
            var full := p.accelBuffer + [data.acceleration];
            && |r.accelBuffer| == (if |full| <= CalibrationSamples then |full| else CalibrationSamples)
            && r.accelBuffer[|r.accelBuffer| - 1] == data.acceleration
            && (|full| <= CalibrationSamples ==> r.accelBuffer == full)
            && (|full| > CalibrationSamples ==> r.accelBuffer == p.accelBuffer[1..] + [data.acceleration])
    ensures var r := UpdateCalibration(p, data);
            var full := p.gyroBuffer + [data.gyroscope];
            && |r.gyroBuffer| == (if |full| <= CalibrationSamples then |full| else CalibrationSamples)
            && r.gyroBuffer[|r.gyroBuffer| - 1] == data.gyroscope
            && (|full| <= CalibrationSamples ==> r.gyroBuffer == full)
            && (|full| > CalibrationSamples ==> r.gyroBuffer == p.gyroBuffer[1..] + [data.gyroscope])
  {
    SlidingWindow(p.accelBuffer, data.acceleration);
    SlidingWindow(p.gyroBuffer, data.gyroscope);
  }

  /** Appending to a buffer of at most 1000 samples and trimming slides the window by one. */
  lemma SlidingWindow(b: seq<DVec3>, v: DVec3)
    requires |b| <= CalibrationSamples
    ensures var full := b + [v];
            && |Trim(full)| == (if |full| <= CalibrationSamples then |full| else CalibrationSamples)
            && Trim(full)[|Trim(full)| - 1] == v
            && (|full| <= CalibrationSamples ==> Trim(full) == full)
            && (|full| > CalibrationSamples ==> Trim(full) == b[1..] + [v])
  {
    var full := b + [v];
    TrimKeepsNewest(full);
    if |full| > CalibrationSamples {
      assert full[|full| - CalibrationSamples..] == b[1..] + [v];
    }
  }

  /** Every slot keeps the invariant, starting from the constructor. */
  lemma CreateInv()
    ensures Inv(Create())
  {
    CreatedFilterIsFresh(Kalman);
  }

  lemma ProcessIMUDataInv(ops: Ops, p: Processor, data: IMUData)
    requires Inv(p)
    ensures Inv(ProcessIMUData(ops, p, data).state)
  {
    var dt := if p.lastTimestamp != 0 then DeltaSeconds(data.timestamp, p.lastTimestamp) else 0.0;
    if ValidateIMUData(ops, data) {
      UpdateKeepsDefaults(ops, p.filter, Scale(ToVec3(data.acceleration), AccelScale),
                          Scale(ToVec3(data.gyroscope), GyroScale), dt);
    }
  }

  lemma UpdateCalibrationInv(p: Processor, data: IMUData)
    requires Inv(p)
    ensures Inv(UpdateCalibration(p, data))
  {
    TrimKeepsNewest(p.accelBuffer + [data.acceleration]);
    TrimKeepsNewest(p.gyroBuffer + [data.gyroscope]);
  }

  lemma ControlSlotsInv(p: Processor, kind: int, c: CalibrationData)
    requires Inv(p)
    ensures Inv(StartCalibration(p)) && Inv(FinishCalibration(p).state)
    ensures Inv(ResetOrientation(p)) && Inv(SetCalibrationData(p, c))
    ensures SetFilterType(p, kind).Success? ==> Inv(SetFilterType(p, kind).value)
  {
    ResetIsRecreate(p.filter);
    if CreateFilter(kind).Success? {
      CreatedFilterIsFresh(kind);
    }
  }

  /**
   * Buffers of identical finite samples calibrate to the sample itself as the
   * gyroscope bias, the sample less gravity on z as the accelerometer bias,
   * and identity scales.
   */
  lemma FinishIdenticalSamples(p: Processor, a: Vec3, g: Vec3)
    requires p.accelBuffer == seq(CalibrationSamples, _ => OfVec3(a))
    requires p.gyroBuffer == seq(CalibrationSamples, _ => OfVec3(g))
    ensures var c := FinishCalibration(p).state.calibration;
            && c.accelBias == OfVec3(Vec3(a.x, a.y, a.z - Gravity))
            && c.gyroBias == OfVec3(g)
            && c.accelScale == DIdentity && c.gyroScale == DIdentity
  {
    ConstantAxes(a);
    ConstantAxes(g);
    CalibrationStats.MeanOfConstant(CalibrationSamples, a.x);
    CalibrationStats.MeanOfConstant(CalibrationSamples, a.y);
    CalibrationStats.MeanOfConstant(CalibrationSamples, a.z);
    CalibrationStats.MeanOfConstant(CalibrationSamples, g.x);
    CalibrationStats.MeanOfConstant(CalibrationSamples, g.y);
    CalibrationStats.MeanOfConstant(CalibrationSamples, g.z);
    CalibrationStats.VarianceOfConstant(CalibrationSamples, a.x);
    CalibrationStats.VarianceOfConstant(CalibrationSamples, a.y);
    CalibrationStats.VarianceOfConstant(CalibrationSamples, a.z);
    CalibrationStats.VarianceOfConstant(CalibrationSamples, g.x);
    CalibrationStats.VarianceOfConstant(CalibrationSamples, g.y);
    CalibrationStats.VarianceOfConstant(CalibrationSamples, g.z);
  }

  lemma ConstantAxes(v: Vec3)
    ensures var b := seq(CalibrationSamples, _ => OfVec3(v));
            && Xs(b) == seq(CalibrationSamples, _ => Finite(v.x))
            && Ys(b) == seq(CalibrationSamples, _ => Finite(v.y))
            && Zs(b) == seq(CalibrationSamples, _ => Finite(v.z))
  {
  }

  /** With finite inputs, calibrating is the real affine map `scale (raw - bias)`. */
  lemma ApplyCalibrationFinite(raw: DVec3, bias: DVec3, scale: DMat3)
    requires AllFinite(raw) && AllFinite(bias) && AllFiniteM(scale)
    ensures AllFinite(ApplyCalibration(raw, bias, scale))
    ensures ToVec3(ApplyCalibration(raw, bias, scale)) == MulMV(ToMat3(scale), Sub(ToVec3(raw), ToVec3(bias)))
  {
    DSubFinite(raw, bias);
    DMulMVFinite(scale, DSub(raw, bias));
  }

  /** The default calibration leaves a finite sample unchanged. */
  lemma DefaultCalibrationIsIdentity(raw: DVec3)
    requires AllFinite(raw)
    ensures ApplyCalibration(raw, DefaultCalibration.accelBias, DefaultCalibration.accelScale) == raw
    ensures ApplyCalibration(raw, DefaultCalibration.gyroBias, DefaultCalibration.gyroScale) == raw
  {
  }

  // ---------------------------------------------------------------------------
  // The calibration values, against exact statistics

  /** Every sample of a buffer is finite. */
  predicate FiniteBuffer(b: seq<DVec3>) {
    forall i :: 0 <= i < |b| ==> AllFinite(b[i])
  }

  /** The exact per-axis means and variances of a finite buffer. */
  lemma BufferStatistics(b: seq<DVec3>)
    requires |b| > 1 && FiniteBuffer(b)
    ensures CalibrationStats.AllFiniteSeq(Xs(b)) && CalibrationStats.AllFiniteSeq(Ys(b)) && CalibrationStats.AllFiniteSeq(Zs(b))
    ensures var xs, ys, zs := CalibrationStats.Values(Xs(b)), CalibrationStats.Values(Ys(b)), CalibrationStats.Values(Zs(b));
            && MeanVec(b) == OfVec3(Vec3(CalibrationStats.RealMean(xs), CalibrationStats.RealMean(ys), CalibrationStats.RealMean(zs)))
            && VarianceVec(b) == OfVec3(Vec3(CalibrationStats.RealVariance(xs), CalibrationStats.RealVariance(ys), CalibrationStats.RealVariance(zs)))
            && 0.0 <= CalibrationStats.RealVariance(xs)
            && 0.0 <= CalibrationStats.RealVariance(ys)
            && 0.0 <= CalibrationStats.RealVariance(zs)
  {
    assert CalibrationStats.AllFiniteSeq(Xs(b));
    assert CalibrationStats.AllFiniteSeq(Ys(b));
    assert CalibrationStats.AllFiniteSeq(Zs(b));
    CalibrationStats.StatsOfFinite(Xs(b));
    CalibrationStats.StatsOfFinite(Ys(b));
    CalibrationStats.StatsOfFinite(Zs(b));
  }

  /** `Ones() + 0.5 * variance` on a diagonal, for an exact variance `v`. */
  function ScaleOf(v: Vec3): Mat3 {
    Mat3(Vec3(1.0 + 0.5 * v.x, 0.0, 0.0), Vec3(0.0, 1.0 + 0.5 * v.y, 0.0), Vec3(0.0, 0.0, 1.0 + 0.5 * v.z))
  }

  /**
   * With full buffers of finite samples, `finishCalibration` stores the exact
   * statistics: the accelerometer bias is the per-axis mean less gravity on z,
   * the gyroscope bias is the mean, and each scale is the diagonal
   * `1 + variance / 2`, never below 1 on any axis.
   */
  lemma FinishCalibrationStatistics(p: Processor)
    requires CalibrationSamples <= |p.accelBuffer| && CalibrationSamples <= |p.gyroBuffer|
    requires FiniteBuffer(p.accelBuffer) && FiniteBuffer(p.gyroBuffer)
    ensures var c := FinishCalibration(p).state.calibration;
            var am, av := ExactMean(p.accelBuffer), ExactVariance(p.accelBuffer);
            var gm, gv := ExactMean(p.gyroBuffer), ExactVariance(p.gyroBuffer);
            && c.accelBias == OfVec3(Vec3(am.x, am.y, am.z - Gravity))
            && c.gyroBias == OfVec3(gm)
            && c.accelScale == OfMat3(ScaleOf(av))
            && c.gyroScale == OfMat3(ScaleOf(gv))
            && 0.0 <= av.x && 0.0 <= av.y && 0.0 <= av.z
            && 0.0 <= gv.x && 0.0 <= gv.y && 0.0 <= gv.z
  {
    BufferStatistics(p.accelBuffer);
    BufferStatistics(p.gyroBuffer);
  }

  /** The exact per-axis mean of a finite buffer. */
  function ExactMean(b: seq<DVec3>): Vec3
    requires |b| > 0 && FiniteBuffer(b)
  {
    assert CalibrationStats.AllFiniteSeq(Xs(b)) && CalibrationStats.AllFiniteSeq(Ys(b)) && CalibrationStats.AllFiniteSeq(Zs(b));
    Vec3(CalibrationStats.RealMean(CalibrationStats.Values(Xs(b))),
         CalibrationStats.RealMean(CalibrationStats.Values(Ys(b))),
         CalibrationStats.RealMean(CalibrationStats.Values(Zs(b))))
  }

  /** The exact per-axis sample variance of a finite buffer. */
  function ExactVariance(b: seq<DVec3>): Vec3
    requires |b| > 1 && FiniteBuffer(b)
  {
    assert CalibrationStats.AllFiniteSeq(Xs(b)) && CalibrationStats.AllFiniteSeq(Ys(b)) && CalibrationStats.AllFiniteSeq(Zs(b));
    Vec3(CalibrationStats.RealVariance(CalibrationStats.Values(Xs(b))),
         CalibrationStats.RealVariance(CalibrationStats.Values(Ys(b))),
         CalibrationStats.RealVariance(CalibrationStats.Values(Zs(b))))
  }

  // ---------------------------------------------------------------------------
  // A calibration session and the life of a calibration

  /** The accelerometer vectors of a run of samples. */
  function Accels(samples: seq<IMUData>): (r: seq<DVec3>)
    ensures |r| == |samples| && forall i :: 0 <= i < |samples| ==> r[i] == samples[i].acceleration
  {
    seq(|samples|, i requires 0 <= i < |samples| => samples[i].acceleration)
  }

  /** The gyroscope vectors of a run of samples. */
  function Gyros(samples: seq<IMUData>): (r: seq<DVec3>)
    ensures |r| == |samples| && forall i :: 0 <= i < |samples| ==> r[i] == samples[i].gyroscope
  {
    seq(|samples|, i requires 0 <= i < |samples| => samples[i].gyroscope)
  }

  /** The newest `min(n, 1000)` entries, the reference for the trimmed buffers. */
  function Newest(b: seq<DVec3>): (r: seq<DVec3>)
    ensures |r| == if |b| <= CalibrationSamples then |b| else CalibrationSamples
  {
    if |b| <= CalibrationSamples then b else b[|b| - CalibrationSamples..]
  }

  /** `updateCalibration` for each sample in turn. */
  function Collect(p: Processor, samples: seq<IMUData>): Processor
    decreases |samples|
  {
    if |samples| == 0 then p
    else UpdateCalibration(Collect(p, samples[..|samples| - 1]), samples[|samples| - 1])
  }

  /** Appending to the newest window and trimming gives the newest window of the longer run. */
  lemma NewestStep(b: seq<DVec3>, v: DVec3)
    ensures Trim(Newest(b) + [v]) == Newest(b + [v])
  {
    SlidingWindow(Newest(b), v);
    if |b| >= CalibrationSamples {
      assert Newest(b)[1..] + [v] == (b + [v])[|b| + 1 - CalibrationSamples..];
    }
  }

  /** Collecting into empty buffers leaves the newest window of each vector stream and nothing else changed. */
  lemma {:induction false} CollectWindow(p: Processor, samples: seq<IMUData>)
    requires p.isCalibrating && p.accelBuffer == [] && p.gyroBuffer == []
    ensures Collect(p, samples) == p.(accelBuffer := Newest(Accels(samples)), gyroBuffer := Newest(Gyros(samples)))
    decreases |samples|
  {
    if |samples| > 0 {
      var n := |samples|;
      var init, last := samples[..n - 1], samples[n - 1];
      CollectWindow(p, init);
      assert Accels(samples) == Accels(init) + [last.acceleration];
      assert Gyros(samples) == Gyros(init) + [last.gyroscope];
      NewestStep(Accels(init), last.acceleration);
      NewestStep(Gyros(init), last.gyroscope);
    }
  }

  /**
   * A calibration session: after `startCalibration` and one `updateCalibration`
   * per sample, the buffers hold the newest `min(n, 1000)` samples and nothing
   * else has changed.  `finishCalibration` then fails, changing nothing, when
   * fewer than 1000 samples arrived; otherwise it stores the calibration of
   * the two windows and leaves calibration mode with empty buffers.
   */
  lemma CalibrationSession(p: Processor, samples: seq<IMUData>)
    ensures var q := Collect(StartCalibration(p), samples);
            q == p.(isCalibrating := true, accelBuffer := Newest(Accels(samples)), gyroBuffer := Newest(Gyros(samples)))
    ensures var q := Collect(StartCalibration(p), samples);
            |samples| < CalibrationSamples ==>
              FinishCalibration(q) == Step(q, [ErrorOccurred("Not enough samples for calibration")])
    ensures var q := Collect(StartCalibration(p), samples);
            var a, g := Newest(Accels(samples)), Newest(Gyros(samples));
            CalibrationSamples <= |samples| ==>
              && |a| == CalibrationSamples && |g| == CalibrationSamples
              && FinishCalibration(q)
                   == Step(p.(calibration := Calibrate(a, g), isCalibrating := false, accelBuffer := [], gyroBuffer := []),
                           [NewCalibrationData(Calibrate(a, g))])
  {
    CollectWindow(StartCalibration(p), samples);
  }

  /**
   * A calibration, once set, stays: processing a sample, collecting one, a
   * filter change, an orientation reset, and a new session that is finished
   * before any sample arrives all keep it.
   */
  lemma CalibrationPersists(ops: Ops, p: Processor, c: CalibrationData, data: IMUData, kind: int)
    ensures var q := SetCalibrationData(p, c);
            && ProcessIMUData(ops, q, data).state.calibration == c
            && UpdateCalibration(q, data).calibration == c
            && (SetFilterType(q, kind).Success? ==> SetFilterType(q, kind).value.calibration == c)
            && ResetOrientation(q).calibration == c
            && StartCalibration(q).calibration == c
            && FinishCalibration(StartCalibration(q)).state.calibration == c
  {
  }
}
