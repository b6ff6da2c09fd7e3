/**
 * The host-side sample and calibration records of `include/core/imu_data.h`.
 */
module ImuData {
  import opened Doubles

  const TwoTo64: nat := 0x1_0000_0000_0000_0000

  /** `uint64_t`. */
  type U64 = x: nat | x < TwoTo64

  /** One sample: a microsecond timestamp and two double vectors. */
  datatype IMUData = IMUData(timestamp: U64, acceleration: DVec3, gyroscope: DVec3)

  datatype CalibrationData = CalibrationData(accelBias: DVec3, accelScale: DMat3, gyroBias: DVec3, gyroScale: DMat3)

  /** The member initialisers: zero biases and identity scales. */
  const DefaultCalibration := CalibrationData(DVec3(Zero, Zero, Zero), DIdentity, DVec3(Zero, Zero, Zero), DIdentity)
}
