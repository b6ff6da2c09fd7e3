# IMU Visualizer — a Dafny model of the sensor pipeline

IMU Visualizer reads an MPU-6050 inertial sensor on a Raspberry Pi Pico and
shows the sensor's orientation on a desktop host. The firmware reads the
accelerometer and gyroscope, subtracts offsets found by a start-up
calibration, and sends a 26-byte packet per reading:

- a start marker `0xAA`;
- twelve bytes of acceleration (three binary32 floats);
- twelve bytes of angular rate;
- an end marker `0x55`.

The host receives the packets over a serial port or a TCP socket and frames
them out of a byte buffer. The host also contains a `DataProcessor`, a
component that nothing in the program calls yet. Given a reading, it
validates the reading, rate-limits it, scales it, and feeds it to one of
three orientation filters: complementary, Madgwick or Kalman. Each reading it
accepts produces a new orientation quaternion. The running program instead
hands each decoded reading to the main window. The main window turns the
reading's acceleration direction straight into the displayed orientation.

This project models that pipeline in Dafny, one module per part of the
program:

| module | program part |
|---|---|
| `Packet`, `Framing`, `FramingStream` | the packet layout and the host's framing loop |
| `Transport`, `SerialTransport`, `TcpTransport` | the two transports' state and decoders |
| `Doubles`, `ImuData`, `CalibrationStats`, `DataProcessor` | validation, the timestamp gate, calibration statistics, and the processor's state machine |
| `LinAlg`, `Numerics` | the Eigen vector, matrix and quaternion arithmetic the filters use |
| `ComplementaryFilter`, `MadgwickFilter`, `KalmanFilter`, `FilterFactory` | the filters and the factory that creates them |
| `PicoImu`, `PicoMain` | the firmware's register decoding, its offset calibration, its status LED, and its packet construction |

Floating point arithmetic is modelled on `real`. The host's `double` values
that may be NaN or infinite are a `Double` datatype, with `NonFinite` for the
non-finite ones. Library routines whose numerics are not modelled (square
root, `angleAxis`, `fromTwoVectors`, `slerp`, the 3×3 inverse) are fields of
an `Ops` record passed in. Lemmas that need an exact square root say so with
the predicate `ExactSqrt(ops)`. Clocks are parameters. The bytes of a float
are an uninterpreted function `bits` from a reading to four bytes.

The model follows the code where the code differs from what its comments or
names suggest:

- No part of the program constructs a `DataProcessor`. The transports' data
  callback goes to `MainWindow::handleIMUData` (src/ui/main_window.cpp:29-33).
  That function (src/ui/main_window.cpp:124-135) sets the view's orientation
  to the rotation from +z to the normalised acceleration. So in the running
  program no reading reaches validation, the timestamp gate, calibration or
  the filters. The model treats `DataProcessor` as the component it is,
  without the main window.
- `processIMUData` never applies the stored calibration. It also ignores
  `isCalibrating` and the calibration buffers.
- The 1 ms timestamp gate subtracts unsigned 64-bit values, so a timestamp
  earlier than the last one wraps around and is accepted.
- The Pico's offset calibration divides by 100 even when some reads failed.
- The TCP decoder negates the x components of both vectors. The serial
  decoder does not.
- The TCP `disconnect` keeps the receive buffer. The serial `disconnect`
  clears it.
- Neither decoder checks anything besides the two marker bytes. The
  declared `calculateChecksum` is never called.

## Model

| member | source | states |
|---|---|---|
| `Packet.Bytes` | src/transport/serial_transport.h:48-54 | a three-float array occupies exactly the 12 payload bytes `memcpy` copies |
| `Packet.WordVecOf` | src/transport/serial_transport.cpp:109-116 | the array a decoder copies out of 12 bytes lays out in memory as exactly those 12 bytes |
| `Packet.WordVecOfBytes` | pico/src/main.cpp:80-83 | copying an array into the packet and back out again gives the same array |
| `Packet.Encode` | pico/src/main.cpp:76-85 | the firmware's packet is a window the host accepts: 26 bytes, `0xAA` first, `0x55` last, accel bytes at 1..12, gyro bytes at 13..24 |
| `Packet.DecodeEncode` | pico/src/main.cpp:76-85 | the host decodes a firmware packet to the same two float arrays that went into it |
| `Packet.EncodeDecode` | src/transport/serial_transport.cpp:96-100 | any 26-byte window with both markers is the encoding of some payload: the markers are the only validity check |
| `Packet.Negate` | src/transport/tcp_transport.h:175-177 | unary minus on a float flips only the sign bit and leaves the other 31 bits alone |
| `Packet.NegateInvolutive` | src/transport/tcp_transport.h:175-182 | negating a float twice gives back its original bytes |
| `Framing.IndexOf` | src/transport/serial_transport.cpp:75 | `indexOf` returns -1 exactly when the byte is absent; otherwise it returns the first position holding the byte |
| `Framing.Iterate` | src/transport/serial_transport.cpp:74-93 | each pass of the framing loop removes at least one byte, so the loop terminates |
| `Framing.IterateKeepsSuffix` | src/transport/serial_transport.cpp:76-91 | bytes leave the buffer only from its front |
| `Framing.IterateWithoutStart` | src/transport/serial_transport.cpp:75-79 | with no start marker, the buffer is cleared and nothing is delivered |
| `Framing.IterateWithStart` | src/transport/serial_transport.cpp:81-92 | the pass drops exactly the bytes before the first start marker; then it waits when fewer than 26 bytes follow, delivers and drops 26 bytes when the end marker is in place, and otherwise drops only the start byte |
| `Framing.Drain` | src/transport/serial_transport.cpp:74-93 | after the loop, fewer than 26 bytes remain buffered |
| `Framing.DrainSkipsPrefix` | src/transport/serial_transport.cpp:81-83 | the garbage before the first start marker has no effect on what is delivered or kept |
| `Framing.DrainAtStart` | src/transport/serial_transport.cpp:85-92 | with a start marker at the front, a well-formed window there is delivered first; a malformed one costs one byte of resynchronisation |
| `Framing.HandleBuffer` | src/transport/serial_transport.cpp:74-93 | the imperative loop ends with fewer than 26 bytes and agrees with the functional `Drain` |
| `FramingStream.DrainWithoutStart` | src/transport/serial_transport.cpp:73-79 | a buffer with no start marker delivers nothing; one of 26 or more bytes is cleared, and a shorter one is kept as it is because the loop does not run |
| `FramingStream.DrainFramed` | src/transport/serial_transport.cpp:74-93 | every delivered window is a 26-byte frame that occurs in the buffer; the windows are disjoint and in stream order, and what is kept is a suffix after the last of them |
| `FramingStream.Feed` | src/transport/serial_transport.cpp:69-93 | after one or more reads from the port, fewer than 26 bytes are buffered |
| `FramingStream.FeedFramed` | src/transport/serial_transport.cpp:71-93 | across any sequence of reads, the delivered windows are disjoint, in-order frames of the concatenated stream |
| `FramingStream.EncodeAll` | pico/src/main.cpp:68-92 | the firmware's output stream is 26 bytes per packet sent |
| `FramingStream.DrainFrameAtFront` | src/transport/serial_transport.cpp:85-88 | a well-formed packet at the front is delivered unchanged, ahead of whatever the rest of the buffer delivers |
| `FramingStream.DrainEncoded` | src/transport/serial_transport.cpp:74-93 | a run of firmware packets followed by a short tail delivers exactly those packets and keeps the tail |
| `FramingStream.DecodeStream` | src/transport/serial_transport.cpp:96-120 | the host recovers every payload the firmware sent, in order, and keeps no bytes |
| `FramingStream.FeedEncoded` | src/transport/serial_transport.cpp:69-94 | however the firmware's stream is split into reads, the host delivers exactly the sent packets, in order, and ends with an empty buffer |
| `FramingStream.EncodeAllSplit` | pico/src/main.cpp:68-92 | the stream of a run of packets is the stream of its first part followed by the stream of the rest |
| `Transport.Deliver` | src/transport/serial_transport.cpp:118-120 | one callback per accepted window, in window order, each with that window's decoding and its own clock reading; partner: `Transport.DeliverAppend` |
| `Transport.DeliverAppend` | src/transport/serial_transport.cpp:69-94 | the callbacks for two runs of windows read back to back are the first run's callbacks followed by the second's, the second's clock continuing where the first left off: reading in pieces loses and reorders nothing |
| `SerialTransport.Connect` | src/transport/serial_transport.cpp:33-54 | an open port reports success and is left as it is; a failed open reports failure and changes nothing; a successful open starts with an empty buffer |
| `SerialTransport.Disconnect` | src/transport/serial_transport.cpp:56-63 | `disconnect` always succeeds and leaves the port closed; it clears the buffer only when the port was open |
| `SerialTransport.ConnectIdempotent` | src/transport/serial_transport.cpp:33-34 | once connected, a further `connect` reports success and changes nothing, whatever the device would do |
| `SerialTransport.ReconnectStartsEmpty` | src/transport/serial_transport.cpp:43-63 | a disconnect followed by a successful connect leaves an open port with an empty buffer: no stale bytes survive |
| `SerialTransport.ProcessPacket` | src/transport/serial_transport.cpp:96-123 | a window yields a reading exactly when both markers are in place; the reading carries the window's float bytes unchanged and the clock reading |
| `SerialTransport.ProcessPacketAsWritten` | src/transport/serial_transport.cpp:96-100 | the marker test as written, with the first and last bytes read as host `char`: whatever it accepts, the byte-level decoder accepts with the same reading |
| `SerialTransport.CharValue` | src/transport/serial_transport.cpp:98 | a byte read as `char` is the byte itself when `char` is unsigned or the byte is below 0x80, and otherwise the congruent value in -128..-1 |
| `SerialTransport.SignedCharRejectsEveryWindow` | src/transport/serial_transport.cpp:96-100 | on a signed-`char` host the marker test as written rejects every 26-byte window |
| `SerialTransport.SignedCharRejectsEveryPacket` | src/transport/serial_transport.cpp:96-100 | on a signed-`char` host every packet the firmware encodes is rejected as written, although the byte-level decoder accepts it |
| `SerialTransport.UnsignedCharAgrees` | src/transport/serial_transport.cpp:96-100 | on an unsigned-`char` host the test as written is the byte comparison of `SerialTransport.ProcessPacket` on every window |
| `SerialTransport.HandleReadyRead` | src/transport/serial_transport.cpp:69-94 | a read keeps the port's open state, leaves fewer than 26 bytes buffered, and makes one callback per window the framing loop accepts, in order |
| `TcpTransport.Connect` | src/transport/tcp_transport.h:30-43 | a server already listening reports success and is left alone; otherwise the result is whether `listen` succeeded |
| `TcpTransport.Disconnect` | src/transport/tcp_transport.h:45-53 | `disconnect` stops listening and drops the client but keeps the receive buffer |
| `TcpTransport.HandleNewConnection` | src/transport/tcp_transport.h:79-102 | a second client is refused and changes nothing; the first pending client is taken with an empty buffer |
| `TcpTransport.HandleClientDisconnected` | src/transport/tcp_transport.h:104-110 | losing the client keeps the listening state and the buffer |
| `TcpTransport.ReconnectKeepsBuffer` | src/transport/tcp_transport.h:30-53 | a disconnect followed by a successful `listen` keeps the bytes a previous client left buffered |
| `TcpTransport.NewClientStartsEmpty` | src/transport/tcp_transport.h:79-110 | a client accepted after the previous one left starts with an empty buffer, so it never sees that client's bytes |
| `TcpTransport.ConnectionLifecycle` | src/transport/tcp_transport.h:55-58 | `isConnected` becomes true when a pending client is accepted, stays true when a second client is refused, becomes false when the client leaves or on `disconnect`, and is not changed by `connect` |
| `TcpTransport.ProcessPacket` | src/transport/tcp_transport.h:159-193 | a window yields a reading exactly when both markers are in place; the x components are sign-flipped and y and z are the window's bytes |
| `TcpTransport.HandleReadyRead` | src/transport/tcp_transport.h:121-147 | without a client nothing happens; with one, the read is framed as on the serial port, with the TCP decoder |
| `TcpTransport.DecodersDifferOnlyInXSign` | src/transport/tcp_transport.h:174-182 | the serial and TCP decoders agree on y and z; on x they differ by exactly a sign flip |
| `Doubles.Plus` | src/processing/data_processor.cpp:121-123 | a double sum is finite exactly when both operands are; when finite it is the real sum |
| `Doubles.Over` | src/processing/data_processor.cpp:124 | dividing by a nonzero count keeps finiteness, and multiplying back gives the dividend |
| `Doubles.ToVec3` | include/core/imu_data.h:12-16 | a finite vector is the embedding of its real components |
| `Doubles.DDiag` | src/processing/data_processor.cpp:159-164 | `asDiagonal` puts the vector on the diagonal and zeros everywhere else |
| `Doubles.DMulMVFinite` | src/processing/data_processor.cpp:191-196 | with finite operands, the double matrix-vector product is the real one |
| `Doubles.DMulMVNonFinite` | src/processing/data_processor.cpp:191-196 | a non-finite component poisons the whole product |
| `CalibrationStats.SumOfFinite` | src/processing/data_processor.cpp:121-123 | the accumulated sum of finite samples is finite and equals their real sum |
| `CalibrationStats.SumOfNonFinite` | src/processing/data_processor.cpp:121-123 | one non-finite sample makes the sum non-finite |
| `CalibrationStats.MeanOfFinite` | src/processing/data_processor.cpp:117-124 | the mean of finite samples is their real sum over their count |
| `CalibrationStats.MeanOfConstant` | src/processing/data_processor.cpp:117-124 | samples that all equal one value have that value as their mean |
| `CalibrationStats.VarianceOfConstant` | src/processing/data_processor.cpp:127-131 | samples that all equal one value have variance zero |
| `CalibrationStats.VarianceNonNegative` | src/processing/data_processor.cpp:127-131 | the sample variance of finite samples is finite and never negative |
| `CalibrationStats.StatsOfNonFinite` | src/processing/data_processor.cpp:117-131 | one non-finite sample makes both the mean and the variance non-finite |
| `CalibrationStats.StatsOfFinite` | src/processing/data_processor.cpp:117-131 | for finite samples the mean is their exact real mean and the variance their exact sample variance with divisor n − 1, which is never negative |
| `DataProcessor.Create` | src/processing/data_processor.cpp:11-20 | a new processor runs a fresh Kalman filter, is not calibrating, has seen no timestamp, has empty buffers, and holds the identity calibration |
| `DataProcessor.SetFilterType` | src/processing/data_processor.cpp:22-30 | a known kind replaces only the filter, with a fresh one of that kind; an unknown kind fails with the factory's message |
| `DataProcessor.ResetOrientation` | src/processing/data_processor.cpp:179-184 | only the filter changes; it keeps its kind and returns to the identity orientation |
| `DataProcessor.SetCalibrationData` | src/processing/data_processor.cpp:186-189 | the calibration is replaced and nothing else changes; partner: `DataProcessor.CalibrationPersists` |
| `DataProcessor.ValidateIMUData` | src/processing/data_processor.cpp:198-218 | a reading that passes validation has finite acceleration and angular rate |
| `DataProcessor.ValidateIsNormBounds` | src/processing/data_processor.cpp:198-218 | with an exact square root, validation passes exactly when both vectors are finite, the squared acceleration magnitude is within [0.981², 39.24²], and the squared rate magnitude is at most 8.726² |
| `DataProcessor.ValidateOnNorms` | src/processing/data_processor.cpp:206-215 | for finite readings, validation is the two magnitude bounds on the computed norms |
| `DataProcessor.AccelNormGate` | src/processing/data_processor.cpp:206-209 | the acceleration magnitude test is the same as a test on its squared magnitude |
| `DataProcessor.GyroNormGate` | src/processing/data_processor.cpp:212-215 | the angular-rate magnitude test is the same as a test on its squared magnitude |
| `DataProcessor.RootComparisons` | src/processing/data_processor.cpp:206-215 | comparing a square root with a non-negative bound is the same as comparing the square with the bound squared |
| `DataProcessor.WrappedDelta` | src/processing/data_processor.cpp:44 | the gap between timestamps is the unsigned 64-bit difference, which wraps when the new timestamp is earlier |
| `DataProcessor.GateIsThousandMicros` | src/processing/data_processor.cpp:44-47 | a reading closer than 0.001 s to the last one is a gap under 1000 µs |
| `DataProcessor.ProcessIMUData` | src/processing/data_processor.cpp:33-80 | an invalid reading emits only the error event; a valid reading inside the 1 ms gate changes nothing; any other valid reading is accepted; nothing but the filter and the last timestamp ever changes |
| `DataProcessor.Accept` | src/processing/data_processor.cpp:49-75 | an accepted reading records its timestamp and changes nothing else; the filter is updated with acceleration and rate each scaled by 0.1 (`ACCEL_SCALE`, `GYRO_SCALE`) over the elapsed seconds; one orientation event is emitted with the filter's new orientation |
| `DataProcessor.NonFiniteRejected` | src/processing/data_processor.cpp:33-37 | for any processor, a reading with a NaN or infinite component is rejected with "Invalid IMU data received" as the only event, and the processor is left unchanged |
| `DataProcessor.FirstSampleTaken` | src/processing/data_processor.cpp:42-75 | the first valid reading is never gated and is accepted with zero elapsed time |
| `DataProcessor.LaterSampleTaken` | src/processing/data_processor.cpp:42-75 | a valid reading at least 1000 µs after the last one is accepted with its elapsed time in seconds |
| `DataProcessor.EarlierTimestampAccepted` | src/processing/data_processor.cpp:42-49 | a valid reading stamped before the last one is accepted, unless it lies within 1000 µs of a full 2^64 wrap, and the recorded timestamp moves backwards |
| `DataProcessor.ProcessIgnoresCalibration` | src/processing/data_processor.cpp:53-62 | the stored calibration has no effect on the filter update or on the events |
| `DataProcessor.ProcessKeepsCalibrationState` | src/processing/data_processor.cpp:33-80 | processing a reading leaves the calibration flag, the buffers, and the calibration as they were |
| `DataProcessor.StartCalibration` | src/processing/data_processor.cpp:82-87 | starting calibration sets the flag and empties both buffers and changes nothing else; partner: `DataProcessor.CalibrationSession` |
| `DataProcessor.Trim` | src/processing/data_processor.cpp:96-102 | a calibration buffer never holds more than 1000 samples |
| `DataProcessor.TrimKeepsNewest` | src/processing/data_processor.cpp:96-102 | trimming keeps the newest 1000 samples, in order, and leaves a short buffer alone |
| `DataProcessor.UpdateCalibration` | src/processing/data_processor.cpp:89-104 | outside calibration nothing changes; during calibration only the two buffers change |
| `DataProcessor.UpdateCalibrationWindow` | src/processing/data_processor.cpp:89-104 | during calibration each buffer ends with the reading just given; below 1000 entries it grows by that reading, and at 1000 it drops its oldest entry, so it never exceeds 1000 |
| `DataProcessor.FinishCalibration` | src/processing/data_processor.cpp:106-177 | with too few samples it only emits the "Not enough samples for calibration" error; otherwise it stores the calibration computed from exactly the buffered samples, stops calibrating, clears the buffers, and emits `calibrationComplete` |
| `DataProcessor.BufferStatistics` | src/processing/data_processor.cpp:117-148 | the per-axis mean and variance vectors of a buffer of finite vectors are finite and equal the exact real means and sample variances of the x, y and z columns |
| `DataProcessor.FinishCalibrationStatistics` | src/processing/data_processor.cpp:106-167 | with full buffers of finite samples, the stored accelerometer bias is the mean with gravity taken off z, the gyroscope bias is the mean, and each scale is the diagonal 1 + variance/2, never below 1 |
| `DataProcessor.CollectWindow` | src/processing/data_processor.cpp:89-104 | feeding samples one by one into empty calibration buffers leaves exactly the newest min(n, 1000) accelerometer and gyroscope vectors, in arrival order, and changes nothing else |
| `DataProcessor.CalibrationSession` | src/processing/data_processor.cpp:82-177 | a whole session: start, n samples, finish; fewer than 1000 samples give only the "Not enough samples for calibration" error; otherwise the calibration of the newest 1000 samples is stored and emitted and calibration mode ends with empty buffers |
| `DataProcessor.CalibrationPersists` | src/processing/data_processor.cpp:186-189 | a calibration that was set is kept by processing a sample, collecting one, a successful filter change, an orientation reset, and starting a session that is finished before any sample arrives |
| `DataProcessor.FinishIdenticalSamples` | src/processing/data_processor.cpp:117-167 | identical samples give biases equal to the sample (less gravity on accel z) and zero variance in the scale matrices |
| `DataProcessor.ConstantAxes` | src/processing/data_processor.cpp:117-131 | splitting identical samples into axes gives constant sequences of the components |
| `DataProcessor.CreateInv` | src/processing/data_processor.h:48-58 | a new processor satisfies the state invariant: buffers within 1000 samples and filter defaults intact |
| `DataProcessor.ProcessIMUDataInv` | src/processing/data_processor.cpp:33-80 | processing a reading preserves the state invariant |
| `DataProcessor.UpdateCalibrationInv` | src/processing/data_processor.cpp:89-104 | collecting a sample preserves the state invariant |
| `DataProcessor.ControlSlotsInv` | src/processing/data_processor.cpp:22-189 | every control slot preserves the state invariant: filter change, reset, start and finish of calibration, and setting calibration data |
| `DataProcessor.ApplyCalibrationFinite` | src/processing/data_processor.cpp:191-196 | with finite inputs, applying a calibration is scale × (raw − bias) on reals |
| `DataProcessor.ApplyCalibration` | src/processing/data_processor.cpp:191-196 | a NaN or infinite raw component makes every component of the result non-finite; the finite case is `DataProcessor.ApplyCalibrationFinite` |
| `DataProcessor.DefaultCalibrationIsIdentity` | include/core/imu_data.h:18-26 | the default calibration (zero bias, identity scale) leaves any finite reading unchanged |
| `LinAlg.Skew` | src/processing/filters/kalman_filter.h:41-47 | the skew matrix multiplies like the cross product, is antisymmetric, and has a zero diagonal |
| `LinAlg.CongruenceSymmetric` | src/processing/filters/kalman_filter.h:72-75 | F·P·Fᵀ is symmetric whenever P is |
| `LinAlg.SumSymmetric` | src/processing/filters/kalman_filter.h:75 | the sum of two symmetric matrices is symmetric |
| `LinAlg.MulAssoc` | src/processing/filters/kalman_filter.h:75 | the matrix product is associative |
| `LinAlg.TransposeOfProduct` | src/processing/filters/kalman_filter.h:75 | the transpose of a product is the product of the transposes, reversed |
| `LinAlg.RotateUnitZ` | src/processing/filters/madgwick_filter.h:24-27 | rotating the z axis by a quaternion gives the closed form the Madgwick residual uses |
| `LinAlg.QMulIdentity` | src/processing/filters/complementary_filter.h:26-28 | the identity quaternion is neutral for the quaternion product |
| `Numerics.Normalized` | src/processing/filters/complementary_filter.h:31-32 | `normalized()` leaves a zero vector as it is |
| `Numerics.NormalizedQ` | src/processing/filters/complementary_filter.h:35-36 | `normalized()` on a quaternion leaves a zero quaternion as it is |
| `Numerics.NormalizedIsUnit` | src/processing/filters/madgwick_filter.h:21 | with an exact square root, a nonzero vector normalises to unit length |
| `Numerics.NormalizedQIsUnit` | src/processing/filters/complementary_filter.h:35-36 | with an exact square root, a nonzero quaternion normalises to unit norm |
| `Numerics.NormalizedUnit` | src/processing/filters/madgwick_filter.h:21 | normalising a unit vector changes nothing |
| `Numerics.NormalizedQUnit` | src/processing/filters/kalman_filter.h:68-69 | normalising a unit quaternion changes nothing |
| `Numerics.RotationDelta` | src/processing/filters/kalman_filter.h:55-65 | a rotation angle up to the threshold gives the identity; a larger one gives the axis-angle rotation about the normalised axis |
| `Numerics.RotationDeltaAxisIsUnit` | src/processing/filters/kalman_filter.h:58-63 | above the threshold the rotation axis handed to `angleAxis` is a unit vector |
| `ComplementaryFilter.New` | src/processing/filters/complementary_filter.h:12-13 | a new filter has the given weight (0.02 by default) and the identity orientation |
| `ComplementaryFilter.Reset` | src/processing/filters/complementary_filter.h:43-45 | a reset is a newly constructed filter with the same weight |
| `ComplementaryFilter.Update` | src/processing/filters/complementary_filter.h:15-37 | an update never changes the weight |
| `ComplementaryFilter.GyroEstimateSmallAngle` | src/processing/filters/complementary_filter.h:17-20 | a rotation of 1e-10 rad or less leaves the gyro estimate at the current orientation |
| `ComplementaryFilter.GyroEstimateLargeAngle` | src/processing/filters/complementary_filter.h:20-28 | a larger rotation composes the orientation with the axis-angle increment about the normalised rotation axis |
| `ComplementaryFilter.UpdateIsUnit` | src/processing/filters/complementary_filter.h:35-36 | whenever the blended estimate is nonzero, the updated orientation is a unit quaternion |
| `ComplementaryFilter.UpdateAtRestKeepsOrientation` | src/processing/filters/complementary_filter.h:15-37 | with no rotation and zero accelerometer weight, a unit orientation is a fixed point, given a slerp that returns its start at t = 0 and a square root exact at 0 and 1 |
| `MadgwickFilter.New` | src/processing/filters/madgwick_filter.h:11-12 | a new filter has the given gain (0.1 by default) and the identity orientation |
| `MadgwickFilter.Reset` | src/processing/filters/madgwick_filter.h:88-90 | a reset is a newly constructed filter with the same gain |
| `MadgwickFilter.NormalizedStep` | src/processing/filters/madgwick_filter.h:53-59 | a gradient step of magnitude 1e-10 or less is used as it is |
| `MadgwickFilter.NormalizedStepIsUnit` | src/processing/filters/madgwick_filter.h:53-59 | a larger gradient step is normalised to unit norm |
| `MadgwickFilter.NormalizedStepZero` | src/processing/filters/madgwick_filter.h:53-59 | a zero gradient step is not divided by its zero norm |
| `MadgwickFilter.Update` | src/processing/filters/madgwick_filter.h:14-82 | an update never changes the gain |
| `MadgwickFilter.UpdateIsUnit` | src/processing/filters/madgwick_filter.h:74-81 | whenever the integrated quaternion is nonzero, the updated orientation is a unit quaternion |
| `MadgwickFilter.QDotIsHalfProduct` | src/processing/filters/madgwick_filter.h:62-66 | the hand-expanded rate of change is half the quaternion product q ⊗ (0, ω) |
| `MadgwickFilter.ResidualIsGravityError` | src/processing/filters/madgwick_filter.h:24-27 | the objective is the difference between gravity rotated into the sensor frame and the measured direction |
| `MadgwickFilter.GradientVanishes` | src/processing/filters/madgwick_filter.h:30-50 | when the measured direction matches, the gradient step is zero |
| `MadgwickFilter.ResidualAtIdentity` | src/processing/filters/madgwick_filter.h:24-27 | at the identity orientation, a reading along +z has zero residual |
| `MadgwickFilter.IdentityIsFixedPoint` | src/processing/filters/madgwick_filter.h:14-82 | at the identity orientation, an update with gravity along +z and no rotation changes nothing |
| `MadgwickFilter.StepAtIdentity` | src/processing/filters/madgwick_filter.h:21-59 | at the identity orientation with gravity along +z, the normalised step is zero |
| `MadgwickFilter.IntegrateAtIdentity` | src/processing/filters/madgwick_filter.h:62-77 | with a zero step and no rotation, integration stays at the identity |
| `KalmanFilter.New` | src/processing/filters/kalman_filter.h:13-17 | a new filter has the identity orientation, covariance 0.1·I, process noise 0.001·I, and measurement noise 0.1·I |
| `KalmanFilter.Reset` | src/processing/filters/kalman_filter.h:28-31 | a reset is a newly constructed filter |
| `KalmanFilter.Predict` | src/processing/filters/kalman_filter.h:49-76 | prediction never changes the noise matrices |
| `KalmanFilter.Correct` | src/processing/filters/kalman_filter.h:78-118 | correction never changes the noise matrices |
| `KalmanFilter.Update` | src/processing/filters/kalman_filter.h:19-22 | an update is a prediction and then a correction, and keeps the noise matrices |
| `KalmanFilter.NoiseFixedPreserved` | src/processing/filters/kalman_filter.h:13-31 | the constructor's noise matrices survive any update and any reset |
| `KalmanFilter.PredictKeepsSymmetry` | src/processing/filters/kalman_filter.h:72-75 | the covariance prediction F·P·Fᵀ + Q keeps the covariance symmetric |
| `KalmanFilter.InitialSymmetric` | src/processing/filters/kalman_filter.h:34-39 | the initial covariance and both noise matrices are symmetric |
| `KalmanFilter.PredictAtRest` | src/processing/filters/kalman_filter.h:72-75 | with no rotation, F is the identity, and prediction only adds the process noise |
| `KalmanFilter.PredictSmallAngle` | src/processing/filters/kalman_filter.h:55-69 | a rotation of 1e-6 rad or less only renormalises the orientation |
| `KalmanFilter.PredictLargeAngle` | src/processing/filters/kalman_filter.h:55-69 | a larger rotation applies the axis-angle increment and renormalises |
| `KalmanFilter.CorrectSmallAngle` | src/processing/filters/kalman_filter.h:99-113 | a correction of 1e-6 rad or less only renormalises the orientation |
| `KalmanFilter.CorrectLargeAngle` | src/processing/filters/kalman_filter.h:99-113 | a larger correction applies the axis-angle increment and renormalises |
| `KalmanFilter.ConsistentMeasurementKeepsOrientation` | src/processing/filters/kalman_filter.h:82-113 | a measurement whose direction equals the expected one gives a zero correction, so the orientation is only renormalised, and a unit orientation is left exactly as it was |
| `KalmanFilter.ExpectedMeasurementPointsDown` | src/processing/filters/kalman_filter.h:85-86 | the expected measurement is the downward z axis rotated into the sensor frame |
| `KalmanFilter.MeasurementMatrixIsCross` | src/processing/filters/kalman_filter.h:92 | the measurement Jacobian maps w to w × h |
| `FilterFactory.CreateFilter` | src/processing/filters/filter_factory.h:19-30 | the three known kinds create a filter of that kind; any other value fails with "Unknown filter type" |
| `FilterFactory.CreatedFilterIsFresh` | src/processing/filters/filter_factory.h:21-26 | a created filter starts at the identity orientation with its default parameters |
| `FilterFactory.FactoryMapping` | src/processing/filters/filter_factory.h:21-26 | complementary gets weight 0.02, Madgwick gets gain 0.1, and Kalman gets its constructor's matrices |
| `FilterFactory.Reset` | src/processing/filters/complementary_filter.h:43-45 | a reset keeps the filter's kind and returns it to the identity orientation |
| `FilterFactory.Update` | src/processing/filters/orientation_filter.h:17 | an update never changes which kind of filter it is |
| `FilterFactory.UpdateKeepsDefaults` | src/processing/filters/filter_factory.h:21-26 | the default parameters survive every update |
| `FilterFactory.ResetIsRecreate` | src/processing/filters/filter_factory.h:19-30 | resetting a filter with default parameters gives the filter the factory creates for that kind |
| `PicoImu.Int16` | pico/src/imu.cpp:50-51 | the two register bytes form a signed 16-bit value: in range, congruent to hi·256 + lo, and negative exactly when the high bit is set |
| `PicoImu.Int16RoundTrip` | pico/src/imu.cpp:50-51 | every signed 16-bit value is read back from its own two bytes |
| `PicoImu.Read` | pico/src/imu.cpp:41-61 | a reading exists exactly when the register read succeeded |
| `PicoImu.ReadIgnoresTemperature` | pico/src/imu.cpp:48-57 | the temperature bytes, offsets 6 and 7 of the register block (`TEMP_OUT_H`/`TEMP_OUT_L`, registers 0x41 and 0x42), have no effect on the reading |
| `PicoImu.AccelInRange` | pico/src/imu.cpp:54 | before the offset is subtracted, acceleration lies within ±2 g |
| `PicoImu.GyroInRange` | pico/src/imu.cpp:57 | before the offset is subtracted, angular rate lies within about ±250 °/s, in rad/s |
| `PicoImu.Init` | pico/src/imu.cpp:16-39 | the wake write is attempted exactly when WHO_AM_I reads 0x68; init succeeds exactly when that read and the write both succeed |
| `PicoImu.Calibrate` | pico/src/imu.cpp:63-88 | the offsets are the sums of the successful reads over 100, with gravity taken off accel z |
| `PicoImu.SumsFailedRead` | pico/src/imu.cpp:69-78 | a failed read adds nothing to the sums |
| `PicoImu.SumsRepeated` | pico/src/imu.cpp:69-78 | k successful reads of the same registers sum to k times one reading |
| `PicoImu.SumsTrailingFailures` | pico/src/imu.cpp:69-78 | failed reads after the others leave the sums unchanged |
| `PicoImu.SumsOfFailures` | pico/src/imu.cpp:69-78 | reads that all fail sum to zero |
| `PicoImu.FailuresDiluteOffsets` | pico/src/imu.cpp:81-87 | k good reads then 100 − k failures give offsets k/100 of the reading (less gravity on z), because failures still count in the divisor |
| `PicoImu.AllReadsFail` | pico/src/imu.cpp:81-87 | if every read fails, the offsets are zero except −9.81 on accel z |
| `PicoImu.AllReadsSucceed` | pico/src/imu.cpp:81-87 | 100 good reads of the same registers give that reading as the offsets, less gravity on accel z |
| `PicoMain.Elapsed` | pico/src/main.cpp:16-18 | the time since the last blink is the unsigned 32-bit difference, wrapping when the timer has wrapped |
| `PicoMain.SetLedStatus` | pico/src/main.cpp:11-24 | connected turns the LED on and leaves the blink clock; disconnected toggles it and restarts the clock only after more than 500 ms |
| `PicoMain.NoToggleWithinInterval` | pico/src/main.cpp:16-22 | after a toggle, the LED does not toggle again within 500 ms, even across the timer's wrap |
| `PicoMain.ToggleAfterInterval` | pico/src/main.cpp:16-22 | after a toggle, it toggles back once more than 500 ms have passed, even across the timer's wrap |
| `PicoMain.ConnectedIsSteady` | pico/src/main.cpp:12-13 | while connected, the LED stays on and the blink clock is untouched |
| `PicoMain.LoopStep` | pico/src/main.cpp:73-85 | a packet is built exactly when the read succeeded, and it decodes to that reading's float bytes |
| `PicoMain.Successes` | pico/src/main.cpp:73-76 | no more packets are sent than loop passes |
| `PicoMain.TransmitIsEncodeAll` | pico/src/main.cpp:68-92 | the bytes sent over the loop's passes are the packets of the successful reads, back to back |
| `PicoMain.TcpDeliversEveryReading` | src/transport/tcp_transport.h:121-193 | end to end, the host's TCP server delivers one reading per successful firmware read, in order, x components sign-flipped, and keeps no bytes |

## Left out

- The Qt user interface, the OpenGL view, the main window, and the mock transport are outside the modelled core. This includes `MainWindow::handleIMUData`, the only consumer of decoded readings, which bypasses `DataProcessor` (see above). Signals and slots become returned event lists. Timers and mutexes have no counterpart.
- The serial port timeout timer and error handler (`handleTimeout`, `handleError`) only log or emit errors.
- The host's system clock and the Pico's `time_us_32` are parameters.
- The firmware's Wi-Fi and TCP client (`pico/src/network.cpp`) is not part of this model. The reconnect after a failed send is left out. The model covers the bytes the loop hands to `send_data`.
- Raw I²C transfers are inputs: the 14-byte register block, or a failed read.
- The `sleep_ms(SAMPLE_RATE_MS)` pacing of the main loop is omitted.
- Floating point rounding is not modelled. Values are `real`, and `Double` distinguishes only finite and non-finite. A `Finite` value never overflows to infinity. For example, `DataProcessor.ApplyCalibration` with a huge scale set through `setCalibrationData` would overflow in C++ but stays `Finite` in the model. `processIMUData` never applies the calibration, so that path is not reached from the reading pipeline.
- The conversion of a reading to binary32 bytes is the `bits` parameter. The host's widening of `float` to `double` is abstracted to carrying the four bytes.
- Square root, `angleAxis`, `fromTwoVectors`, `slerp` and the 3×3 inverse are the `Ops` parameters. Unit-norm results are proved under an exact square root only.
- The smoothing `slerp` against the previous orientation in `processIMUData` is omitted. `DataProcessor.ProcessIMUData` states the emitted orientation without it.
- `updateOrientation`, which nothing calls, is omitted.
- The `try`/`catch` in `processIMUData` and the `!filter` checks guard against cases the model cannot reach, because a processor always holds a filter.
- Saving and loading `CalibrationData` to a file is omitted, as is the `src/core` copy of `imu_data.h`.
- The serial transport's marker test depends on the signedness of the host's `char`; see Findings. The framing loop and `SerialTransport.HandleReadyRead` use the intended byte comparison.
- TcpTransport.IsConnected: the socket's own connection state is abstracted to whether a client socket is held.
- `calculateChecksum` is declared but never defined or called, so it has no counterpart.
- MadgwickFilter.Update: the contract states only that the gain is kept. The source divides the integrated quaternion by its norm without a guard, which yields NaN for a zero quaternion. The model uses the guarded `NormalizedQ`, and `MadgwickFilter.UpdateIsUnit` assumes a nonzero integrated quaternion.
- Framing.Iterate: the contract states only that a pass shrinks the buffer. What a pass does is stated by `Framing.IterateWithoutStart` and `Framing.IterateWithStart`.
- Framing.Drain: the contract states only the bound on what is kept. Which windows are delivered is stated by `Framing.DrainSkipsPrefix`, `Framing.DrainAtStart` and `FramingStream.DrainFramed`.
- FramingStream.Feed: the contract states only the bound on what is kept. Its deliveries are stated by `FramingStream.FeedFramed` and `FramingStream.FeedEncoded`.
- ComplementaryFilter.Update: the contract states only that the weight is kept. The orientation is stated by `ComplementaryFilter.GyroEstimateSmallAngle`, `ComplementaryFilter.GyroEstimateLargeAngle`, `ComplementaryFilter.UpdateIsUnit` and `ComplementaryFilter.UpdateAtRestKeepsOrientation`.
- KalmanFilter.Predict: the contract states only that the noise matrices are kept. The new orientation and covariance are stated by `KalmanFilter.PredictSmallAngle`, `KalmanFilter.PredictLargeAngle`, `KalmanFilter.PredictKeepsSymmetry` and `KalmanFilter.PredictAtRest`.
- KalmanFilter.Correct: the contract states only that the noise matrices are kept. The orientation is stated by `KalmanFilter.CorrectSmallAngle`, `KalmanFilter.CorrectLargeAngle` and `KalmanFilter.ConsistentMeasurementKeepsOrientation`. No property of the updated covariance is proved.
- KalmanFilter.Update: the contract states only that the noise matrices are kept.
- FilterFactory.Update: the contract states only that the kind is kept. Each filter's own lemmas describe the update.
- PicoImu.Read: the contract states only when a reading exists. The values are fixed by the definition and bounded by `PicoImu.AccelInRange` and `PicoImu.GyroInRange`.

## Findings

| source | as written | input that shows it | evidently intended | confidence | as-written member | corrected member |
|---|---|---|---|---|---|---|
| src/transport/serial_transport.cpp:98 | `packet[0]` is a `char` and `PACKET_START` a `uint8_t`; both are promoted to `int`, so on a host with signed `char` the byte 0xAA compares as -86 against 170 and the start-marker test always fails | any packet the firmware sends, e.g. `Packet.Encode` of any payload, read on an x86 host, where `char` is signed | compare the window's bytes with 0xAA and 0x55 as bytes, as the TCP transport does with its `char` markers | medium (not executed; depends on the host's `char` signedness) | `SerialTransport.ProcessPacketAsWritten`, `SerialTransport.SignedCharRejectsEveryPacket` | `SerialTransport.ProcessPacket`, `SerialTransport.UnsignedCharAgrees` |
