/**
 * The Pico's MPU6050 driver (`IMU`): the WHO_AM_I check in `init`, register
 * decoding and unit conversion in `read`, and offset averaging in
 * `calibrate`.  I2C transfers are inputs: a register read either fails
 * (`None`) or delivers its bytes.  The firmware computes in `float`; the
 * model computes over exact reals.
 */
module PicoImu {
  import opened Wrappers
  import opened LinAlg

  /** A register byte (`uint8_t`). */
  type U8 = x: int | 0 <= x < 256

  const ExpectedWhoAmI: U8 := 0x68

  /** LSB per g at the default +-2 g range, and the gravity constant the firmware uses. */
  const AccelLsbPerG: real := 16384.0
  const Gravity: real := 9.81
  /** LSB per degree per second at the default +-250 dps range, and the firmware's pi. */
  const GyroLsbPerDps: real := 131.0
  const Pi: real := 3.141592

  const CalibrationReads: nat := 100

  /** The 14 bytes read from ACCEL_XOUT_H on: accel x/y/z, temperature, gyro x/y/z, each high byte first. */
  type RegisterBlock = s: seq<U8> | |s| == 14 witness seq(14, _ => 0)

  /** `IMU::Data`. */
  datatype Data = Data(accel: Vec3, gyro: Vec3)

  /** `accel_offset` and `gyro_offset`; both start at zero. */
  datatype Offsets = Offsets(accel: Vec3, gyro: Vec3)

  const ZeroOffsets := Offsets(Zero3, Zero3)

  /** `(int16_t)((hi << 8) | lo)`: the two's-complement value of the big-endian pair. */
  function Int16(hi: U8, lo: U8): (r: int)
    ensures -32768 <= r <= 32767
    ensures (r - (hi * 256 + lo)) % 65536 == 0
    ensures r < 0 <==> hi >= 0x80
  {
    var u := hi * 256 + lo;
    if u >= 32768 then u - 65536 else u
  }

  /** The two bytes of a 16-bit value, high byte first. */
  function Int16Bytes(r: int): (b: (U8, U8))
    requires -32768 <= r <= 32767
  {
    var u := r % 65536;
    (u / 256, u % 256)
  }

  /** Every 16-bit value is read back from its two bytes. */
  lemma Int16RoundTrip(r: int)
    requires -32768 <= r <= 32767
    ensures Int16(Int16Bytes(r).0, Int16Bytes(r).1) == r
  {
    var u := r % 65536;
    assert u == if r < 0 then r + 65536 else r;
    assert (u / 256) * 256 + u % 256 == u;
  }

  function AccelValue(raw: int, offset: real): real {
    (raw as real / AccelLsbPerG) * Gravity - offset
  }

  function GyroValue(raw: int, offset: real): real {
    (raw as real / GyroLsbPerDps) * (Pi / 180.0) - offset
  }

  /** Axis `i` of the accelerometer: bytes `2i` and `2i + 1`. */
  function RawAccel(regs: RegisterBlock, i: nat): int
    requires i < 3
  {
    Int16(regs[2 * i], regs[2 * i + 1])
  }

  /** Axis `i` of the gyroscope: bytes `2i + 8` and `2i + 9`. */
  function RawGyro(regs: RegisterBlock, i: nat): int
    requires i < 3
  {
    Int16(regs[2 * i + 8], regs[2 * i + 9])
  }

  /** `read(data)`: `None` when the register read fails, and then nothing is written. */
  function Read(regs: Option<RegisterBlock>, off: Offsets): (r: Option<Data>)
    ensures r.Some? <==> regs.Some?
  {
    match regs
    case None => None
    case Some(b) =>
      Some(Data(
        Vec3(AccelValue(RawAccel(b, 0), off.accel.x), AccelValue(RawAccel(b, 1), off.accel.y),
             AccelValue(RawAccel(b, 2), off.accel.z)),
        Vec3(GyroValue(RawGyro(b, 0), off.gyro.x), GyroValue(RawGyro(b, 1), off.gyro.y),
             GyroValue(RawGyro(b, 2), off.gyro.z))))
  }

  /** Bytes 6 and 7 (the temperature) never influence a reading. */
  lemma ReadIgnoresTemperature(a: RegisterBlock, b: RegisterBlock, off: Offsets)
    requires forall i :: 0 <= i < 14 && i != 6 && i != 7 ==> a[i] == b[i]
    ensures Read(Some(a), off) == Read(Some(b), off)
  {
    assert a[0] == b[0] && a[1] == b[1] && a[2] == b[2] && a[3] == b[3] && a[4] == b[4] && a[5] == b[5];
    assert a[8] == b[8] && a[9] == b[9] && a[10] == b[10] && a[11] == b[11] && a[12] == b[12] && a[13] == b[13];
  }

  /** Before the offset, an accelerometer axis lies within +-2 g. */
  lemma AccelInRange(raw: int, offset: real)
    requires -32768 <= raw <= 32767
    ensures -2.0 * Gravity <= AccelValue(raw, offset) + offset < 2.0 * Gravity
  {
    var t := raw as real / AccelLsbPerG;
    assert -2.0 <= t < 2.0;
  }

  /** Before the offset, a gyroscope axis lies within +-250 degrees per second. */
  lemma GyroInRange(raw: int, offset: real)
    requires -32768 <= raw <= 32767
    ensures -250.2 * (Pi / 180.0) <= GyroValue(raw, offset) + offset <= 250.2 * (Pi / 180.0)
  {
    var t := raw as real / GyroLsbPerDps;
    assert -250.2 <= t <= 250.2;
  }

  /** `init`: the WHO_AM_I read must deliver 0x68, and only then is the wake-up write tried. */
  datatype InitResult = InitResult(ok: bool, wakeAttempted: bool)

  function Init(whoAmI: Option<U8>, wakeWriteOk: bool): (r: InitResult)
    ensures r.wakeAttempted <==> whoAmI == Some(ExpectedWhoAmI)
    ensures r.ok <==> whoAmI == Some(ExpectedWhoAmI) && wakeWriteOk
  {
    if whoAmI.None? || whoAmI.value != ExpectedWhoAmI then InitResult(false, false)
    else InitResult(wakeWriteOk, true)
  }

  /** What one read adds to the calibration sums: nothing when it fails. */
  function Contribution(r: Option<Data>): Data {
    match r
    case None => Data(Zero3, Zero3)
    case Some(d) => d
  }

  /** The sums over the samples, in order; each read subtracts the offsets in force. */
  function Sums(samples: seq<Option<RegisterBlock>>, off: Offsets): Data {
    if |samples| == 0 then Data(Zero3, Zero3)
    else
      var s := Sums(samples[..|samples| - 1], off);
      var c := Contribution(Read(samples[|samples| - 1], off));
      Data(Add(s.accel, c.accel), Add(s.gyro, c.gyro))
  }

  /** The offsets `calibrate` leaves: each sum over 100, then gravity taken off accel z. */
  function OffsetsFromSums(s: Data): Offsets {
    var n := CalibrationReads as real;
    Offsets(Vec3(s.accel.x / n, s.accel.y / n, s.accel.z / n - Gravity),
            Vec3(s.gyro.x / n, s.gyro.y / n, s.gyro.z / n))
  }

  /** `calibrate`: the sampling loop over the 100 register samples. */
  method Calibrate(off: Offsets, samples: seq<Option<RegisterBlock>>) returns (result: Offsets)
    requires |samples| == CalibrationReads
    ensures result == OffsetsFromSums(Sums(samples, off))
  {
    var accelSum := Zero3;
    var gyroSum := Zero3;
    var i := 0;
    while i < CalibrationReads
      invariant 0 <= i <= CalibrationReads
      invariant Data(accelSum, gyroSum) == Sums(samples[..i], off)
    {
      var data := Read(samples[i], off);
      if data.Some? {
        accelSum := Add(accelSum, data.value.accel);
        gyroSum := Add(gyroSum, data.value.gyro);
      }
      assert samples[..i + 1][..i] == samples[..i];
      i := i + 1;
    }
    assert samples[..CalibrationReads] == samples;
    var n := CalibrationReads as real;
    result := Offsets(Vec3(accelSum.x / n, accelSum.y / n, accelSum.z / n),
                      Vec3(gyroSum.x / n, gyroSum.y / n, gyroSum.z / n));
    result := result.(accel := result.accel.(z := result.accel.z - Gravity));
  }

  /** `m` failed register reads. */
  function Failures(m: nat): (r: seq<Option<RegisterBlock>>)
    ensures |r| == m && forall i :: 0 <= i < m ==> r[i].None?
  {
    seq(m, _ => None)
  }

  /** `k` successful reads of the same registers. */
  function Repeated(k: nat, b: RegisterBlock): (r: seq<Option<RegisterBlock>>)
    ensures |r| == k && forall i :: 0 <= i < k ==> r[i] == Some(b)
  {
    seq(k, _ => Some(b))
  }

  /** A failed read leaves the sums as they were. */
  lemma SumsFailedRead(samples: seq<Option<RegisterBlock>>, off: Offsets)
    ensures Sums(samples + [None], off) == Sums(samples, off)
  {
    assert (samples + [None])[..|samples|] == samples;
    assert Add(Sums(samples, off).accel, Zero3) == Sums(samples, off).accel;
    assert Add(Sums(samples, off).gyro, Zero3) == Sums(samples, off).gyro;
  }

  lemma AddScaleStep(v: Vec3, k: nat)
    requires k > 0
    ensures Add(Scale(v, (k - 1) as real), v) == Scale(v, k as real)
  {
  }

  /** `k` successful reads of the same registers sum to `k` times one reading. */
  lemma {:induction false} SumsRepeated(k: nat, b: RegisterBlock, off: Offsets)
    ensures var d := Read(Some(b), off).value;
            Sums(Repeated(k, b), off) == Data(Scale(d.accel, k as real), Scale(d.gyro, k as real))
  {
    var d := Read(Some(b), off).value;
    if k == 0 {
      assert Scale(d.accel, 0.0) == Zero3 && Scale(d.gyro, 0.0) == Zero3;
    } else {
      assert Repeated(k, b)[..k - 1] == Repeated(k - 1, b);
      SumsRepeated(k - 1, b, off);
      AddScaleStep(d.accel, k);
      AddScaleStep(d.gyro, k);
    }
  }

  /** Failed reads appended after the others add nothing. */
  lemma {:induction false} SumsTrailingFailures(prefix: seq<Option<RegisterBlock>>, m: nat, off: Offsets)
    ensures Sums(prefix + Failures(m), off) == Sums(prefix, off)
  {
    if m == 0 {
      assert prefix + Failures(0) == prefix;
    } else {
      assert prefix + Failures(m) == (prefix + Failures(m - 1)) + [None];
      SumsFailedRead(prefix + Failures(m - 1), off);
      SumsTrailingFailures(prefix, m - 1, off);
    }
  }

  /** Reads that all fail sum to zero. */
  lemma SumsOfFailures(m: nat, off: Offsets)
    ensures Sums(Failures(m), off) == Data(Zero3, Zero3)
  {
    var empty: seq<Option<RegisterBlock>> := [];
    SumsTrailingFailures(empty, m, off);
    assert empty + Failures(m) == Failures(m);
  }

  /** `k` good reads of the same registers and then `m` failures sum to `k` times the reading. */
  lemma SumsRepeatedThenFailures(k: nat, m: nat, b: RegisterBlock, off: Offsets)
    ensures var d := Read(Some(b), off).value;
            Sums(Repeated(k, b) + Failures(m), off) == Data(Scale(d.accel, k as real), Scale(d.gyro, k as real))
  {
    SumsTrailingFailures(Repeated(k, b), m, off);
    SumsRepeated(k, b, off);
  }

  /** The offsets a reading `d` yields when it counts `k` times out of 100: `k / 100` of it, less gravity on accel z. */
  function Diluted(d: Data, k: nat): Offsets {
    var f := k as real / CalibrationReads as real;
    Offsets(Vec3(f * d.accel.x, f * d.accel.y, f * d.accel.z - Gravity), Scale(d.gyro, f))
  }

  /** Dividing a `k`-fold sum by 100 scales the reading by `k / 100`. */
  lemma OffsetsOfScaledSums(d: Data, k: nat)
    ensures OffsetsFromSums(Data(Scale(d.accel, k as real), Scale(d.gyro, k as real))) == Diluted(d, k)
  {
  }

  /**
   * Failed reads still count in the divisor: `k` good reads of the same
   * registers followed by `100 - k` failures give offsets `k / 100` of the
   * reading (less gravity on accel z), not the reading itself.
   */
  lemma FailuresDiluteOffsets(k: nat, b: RegisterBlock, off: Offsets)
    requires k <= CalibrationReads
    ensures OffsetsFromSums(Sums(Repeated(k, b) + Failures(CalibrationReads - k), off)) == Diluted(Read(Some(b), off).value, k)
  {
    SumsRepeatedThenFailures(k, CalibrationReads - k, b, off);
    OffsetsOfScaledSums(Read(Some(b), off).value, k);
  }

  /** If every read fails, the gyro offsets are zero and the accel offsets are `(0, 0, -9.81)`. */
  lemma AllReadsFail(off: Offsets)
    ensures OffsetsFromSums(Sums(Failures(CalibrationReads), off)) == Offsets(Vec3(0.0, 0.0, -Gravity), Zero3)
  {
    SumsOfFailures(CalibrationReads, off);
  }

  /** With 100 good reads of the same registers the offsets are that reading, less gravity on accel z. */
  lemma AllReadsSucceed(b: RegisterBlock, off: Offsets)
    ensures var d := Read(Some(b), off).value;
            OffsetsFromSums(Sums(Repeated(CalibrationReads, b), off))
              == Offsets(Vec3(d.accel.x, d.accel.y, d.accel.z - Gravity), d.gyro)
  {
    SumsRepeated(CalibrationReads, b, off);
    OffsetsOfScaledSums(Read(Some(b), off).value, CalibrationReads);
  }
}
