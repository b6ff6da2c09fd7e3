/**
 * The orientation filter interface (`update`, `getOrientation`, `reset`) as a
 * closed sum of the three implementations, and `OrientationFilterFactory`.
 */
module FilterFactory {
  import opened Wrappers
  import opened LinAlg
  import opened Numerics
  import ComplementaryFilter
  import MadgwickFilter
  import KalmanFilter

  /** The values of the `FilterType` enumeration. */
  const Complementary: int := 0
  const Madgwick: int := 1
  const Kalman: int := 2

  datatype Filter =
    | ComplementaryF(c: ComplementaryFilter.State)
    | MadgwickF(m: MadgwickFilter.State)
    | KalmanF(k: KalmanFilter.State)

  /** The enumerator a filter was created from. */
  function Kind(f: Filter): int {
    match f
    case ComplementaryF(_) => Complementary
    case MadgwickF(_) => Madgwick
    case KalmanF(_) => Kalman
  }

  /** `createFilter(type)`: default-constructed filters; any other value throws. */
  function CreateFilter(kind: int): (r: Result<Filter>)
    ensures r.Success? <==> kind in {Complementary, Madgwick, Kalman}
    ensures r.Success? ==> Kind(r.value) == kind
    ensures r.Failure? ==> r.error == "Unknown filter type"
  {
    if kind == Complementary then Success(ComplementaryF(ComplementaryFilter.New(ComplementaryFilter.DefaultAccelWeight)))
    else if kind == Madgwick then Success(MadgwickF(MadgwickFilter.New(MadgwickFilter.DefaultBeta)))
    else if kind == Kalman then Success(KalmanF(KalmanFilter.New()))
    else Failure("Unknown filter type")
  }

  /** `getOrientation()`. */
  function Orientation(f: Filter): Quat {
    match f
    case ComplementaryF(c) => c.orientation
    case MadgwickF(m) => m.orientation
    case KalmanF(k) => k.orientation
  }

  /** `reset()`. */
  function Reset(f: Filter): (r: Filter)
    ensures Kind(r) == Kind(f) && Orientation(r) == QIdentity
  {
    match f
    case ComplementaryF(c) => ComplementaryF(ComplementaryFilter.Reset(c))
    case MadgwickF(m) => MadgwickF(MadgwickFilter.Reset(m))
    case KalmanF(k) => KalmanF(KalmanFilter.Reset(k))
  }

  /** `update(accel, gyro, dt)`. */
  function Update(ops: Ops, f: Filter, accel: Vec3, gyro: Vec3, dt: real): (r: Filter)
    ensures Kind(r) == Kind(f)
  {
    match f
    case ComplementaryF(c) => ComplementaryF(ComplementaryFilter.Update(ops, c, accel, gyro, dt))
    case MadgwickF(m) => MadgwickF(MadgwickFilter.Update(ops, m, accel, gyro, dt))
    case KalmanF(k) => KalmanF(KalmanFilter.Update(ops, k, accel, gyro, dt))
  }

  /** The fixed parameters a filter keeps for its whole life: the ones the factory gives it. */
  ghost predicate HasDefaults(f: Filter) {
    match f
    case ComplementaryF(c) => c.accelWeight == ComplementaryFilter.DefaultAccelWeight
    case MadgwickF(m) => m.beta == MadgwickFilter.DefaultBeta
    case KalmanF(k) => KalmanFilter.NoiseFixed(k)
  }

  /** Every filter the factory makes is at the identity with its default parameters. */
  lemma CreatedFilterIsFresh(kind: int)
    requires CreateFilter(kind).Success?
    ensures Orientation(CreateFilter(kind).value) == QIdentity
    ensures HasDefaults(CreateFilter(kind).value)
  {
  }

  /** The three enumerators give the three filters with 0.02, 0.1 and the Kalman initial state. */
  lemma FactoryMapping()
    ensures CreateFilter(Complementary) == Success(ComplementaryF(ComplementaryFilter.State(0.02, QIdentity)))
    ensures CreateFilter(Madgwick) == Success(MadgwickF(MadgwickFilter.State(0.1, QIdentity)))
    ensures CreateFilter(Kalman) == Success(KalmanF(KalmanFilter.State(QIdentity, ScalarM(0.1),
                                                                       ScalarM(0.001), ScalarM(0.1))))
  {
  }

  /** Updates keep the default parameters. */
  lemma UpdateKeepsDefaults(ops: Ops, f: Filter, accel: Vec3, gyro: Vec3, dt: real)
    requires HasDefaults(f)
    ensures HasDefaults(Update(ops, f, accel, gyro, dt))
  {
    if f.KalmanF? {
      KalmanFilter.NoiseFixedPreserved(ops, f.k, accel, gyro, dt);
    }
  }

  /** Resetting a filter with its default parameters is the same as creating a new one of its kind. */
  lemma ResetIsRecreate(f: Filter)
    requires HasDefaults(f)
    ensures CreateFilter(Kind(f)) == Success(Reset(f))
  {
  }
}
