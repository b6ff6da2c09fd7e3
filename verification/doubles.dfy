/**
 * Host-side `double` values: a finite value is a real, and every non-finite
 * value (NaN or an infinity) is one absorbing `NonFinite`.  Once a NaN or an
 * infinity enters a sum, difference or product, the result is non-finite;
 * rounding and overflow of finite values are not represented.
 */
module Doubles {
  import opened LinAlg

  datatype Double = Finite(value: real) | NonFinite

  function Plus(a: Double, b: Double): (r: Double)
    ensures r.Finite? <==> a.Finite? && b.Finite?
    ensures r.Finite? ==> r.value == a.value + b.value
  {
    if a.Finite? && b.Finite? then Finite(a.value + b.value) else NonFinite
  }

  function Minus(a: Double, b: Double): (r: Double)
    ensures r.Finite? <==> a.Finite? && b.Finite?
    ensures r.Finite? ==> r.value == a.value - b.value
  {
    if a.Finite? && b.Finite? then Finite(a.value - b.value) else NonFinite
  }

  function Times(a: Double, b: Double): (r: Double)
    ensures r.Finite? <==> a.Finite? && b.Finite?
    ensures r.Finite? ==> r.value == a.value * b.value
  {
    if a.Finite? && b.Finite? then Finite(a.value * b.value) else NonFinite
  }

  /** Division by a non-zero constant. */
  function Over(a: Double, k: real): (r: Double)
    requires k != 0.0
    ensures r.Finite? <==> a.Finite?
    ensures r.Finite? ==> r.value * k == a.value
  {
    if a.Finite? then Finite(a.value / k) else NonFinite
  }

  /** An Eigen `Vector3d`. */
  datatype DVec3 = DVec3(x: Double, y: Double, z: Double)

  /** `std::isfinite` holds for every component. */
  predicate AllFinite(v: DVec3) {
    v.x.Finite? && v.y.Finite? && v.z.Finite?
  }

  function OfVec3(v: Vec3): (r: DVec3)
    ensures AllFinite(r)
  {
    DVec3(Finite(v.x), Finite(v.y), Finite(v.z))
  }

  function ToVec3(v: DVec3): (r: Vec3)
    requires AllFinite(v)
    ensures OfVec3(r) == v
  {
    Vec3(v.x.value, v.y.value, v.z.value)
  }

  function DAdd(a: DVec3, b: DVec3): DVec3 {
    DVec3(Plus(a.x, b.x), Plus(a.y, b.y), Plus(a.z, b.z))
  }

  function DSub(a: DVec3, b: DVec3): DVec3 {
    DVec3(Minus(a.x, b.x), Minus(a.y, b.y), Minus(a.z, b.z))
  }

  /** `k * v` for a finite constant `k`. */
  function DScale(v: DVec3, k: real): DVec3 {
    DVec3(Times(Finite(k), v.x), Times(Finite(k), v.y), Times(Finite(k), v.z))
  }

  function DDot(a: DVec3, b: DVec3): Double {
    Plus(Plus(Times(a.x, b.x), Times(a.y, b.y)), Times(a.z, b.z))
  }

  /** An Eigen `Matrix3d`, by rows. */
  datatype DMat3 = DMat3(r0: DVec3, r1: DVec3, r2: DVec3)

  predicate AllFiniteM(m: DMat3) {
    AllFinite(m.r0) && AllFinite(m.r1) && AllFinite(m.r2)
  }

  function ToMat3(m: DMat3): Mat3
    requires AllFiniteM(m)
  {
    Mat3(ToVec3(m.r0), ToVec3(m.r1), ToVec3(m.r2))
  }

  function OfMat3(m: Mat3): (r: DMat3)
    ensures AllFiniteM(r) && ToMat3(r) == m
  {
    DMat3(OfVec3(m.r0), OfVec3(m.r1), OfVec3(m.r2))
  }

  const Zero := Finite(0.0)
  const One := Finite(1.0)

  const DIdentity := DMat3(DVec3(One, Zero, Zero), DVec3(Zero, One, Zero), DVec3(Zero, Zero, One))

  /** `d.asDiagonal()`: the off-diagonal entries are exact zeros whatever `d` holds. */
  function DDiag(d: DVec3): (m: DMat3)
    ensures m.r0.x == d.x && m.r1.y == d.y && m.r2.z == d.z
    ensures m.r0.y == m.r0.z == m.r1.x == m.r1.z == m.r2.x == m.r2.y == Zero
  {
    DMat3(DVec3(d.x, Zero, Zero), DVec3(Zero, d.y, Zero), DVec3(Zero, Zero, d.z))
  }

  function DMulMV(m: DMat3, v: DVec3): DVec3 {
    DVec3(DDot(m.r0, v), DDot(m.r1, v), DDot(m.r2, v))
  }

  /** On finite values the double operations are the real ones. */
  lemma DMulMVFinite(m: DMat3, v: DVec3)
    requires AllFiniteM(m) && AllFinite(v)
    ensures AllFinite(DMulMV(m, v))
    ensures ToVec3(DMulMV(m, v)) == MulMV(ToMat3(m), ToVec3(v))
  {
  }

  lemma DSubFinite(a: DVec3, b: DVec3)
    requires AllFinite(a) && AllFinite(b)
    ensures AllFinite(DSub(a, b)) && ToVec3(DSub(a, b)) == Sub(ToVec3(a), ToVec3(b))
  {
  }

  /** A non-finite component of the vector poisons every component of the product, even against a zero entry. */
  lemma DMulMVNonFinite(m: DMat3, v: DVec3)
    requires !AllFinite(v)
    ensures DMulMV(m, v) == DVec3(NonFinite, NonFinite, NonFinite)
  {
  }
}
