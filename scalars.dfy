/**
 * The two fixed-width scalar types a JSONNode carries: Swift's `Int`
 * (a signed 64-bit integer on the platforms the library targets) and
 * Swift's `Double` (an IEEE 754 binary64 value, kept here as its bit
 * pattern so that `==` can be stated exactly, NaN and signed zeros included).
 */
module Scalars {

  const TwoTo63: int := 0x8000_0000_0000_0000
  const TwoTo64: int := 0x1_0000_0000_0000_0000

  /** Swift `Int`. */
  type Int64 = x: int | -TwoTo63 <= x < TwoTo63

  /**
   * Reduction of an arbitrary integer to a signed 64-bit one, two's
   * complement: the conversion Foundation applies when an NSNumber holding a
   * wider or unsigned integer is read through `intValue`.
   */
  function Wrap64(v: int): (r: Int64)
    ensures (v - r) % TwoTo64 == 0
    ensures -TwoTo63 <= v < TwoTo63 ==> r == v
  {
    var low := v % TwoTo64;
    if low < TwoTo63 then low else low - TwoTo64
  }

  /** Swift `Double`, as its IEEE 754 binary64 bit pattern. */
  datatype Double = Double(bits: bv64)

  const ExponentMask: bv64 := 0x7FF0_0000_0000_0000
  const FractionMask: bv64 := 0x000F_FFFF_FFFF_FFFF
  const MagnitudeMask: bv64 := 0x7FFF_FFFF_FFFF_FFFF

  /** All exponent bits set and a non-zero fraction. */
  predicate IsNaN(x: Double) {
    x.bits & ExponentMask == ExponentMask && x.bits & FractionMask != 0
  }

  /** +0.0 or -0.0. */
  predicate IsZero(x: Double) {
    x.bits & MagnitudeMask == 0
  }

  const QuietNaN: Double := Double(0x7FF8_0000_0000_0000)
  const PositiveZero: Double := Double(0x0000_0000_0000_0000)
  const NegativeZero: Double := Double(0x8000_0000_0000_0000)

  /**
   * Swift's `==` on `Double`, the IEEE 754 comparison: a NaN equals nothing,
   * not even itself; the two zeros equal each other; any other pair is equal
   * exactly when the bit patterns are.
   */
  predicate DoubleEqual(x: Double, y: Double): (r: bool)
    ensures IsNaN(x) || IsNaN(y) ==> !r
    ensures !IsNaN(x) && x == y ==> r
    ensures IsZero(x) && IsZero(y) ==> r
  {
    !IsNaN(x) && !IsNaN(y) && (x.bits == y.bits || (IsZero(x) && IsZero(y)))
  }

  lemma DoubleEqualReflexiveUnlessNaN(x: Double)
    ensures DoubleEqual(x, x) <==> !IsNaN(x)
  {
  }

  lemma DoubleEqualSymmetric(x: Double, y: Double)
    ensures DoubleEqual(x, y) ==> DoubleEqual(y, x)
  {
  }

  lemma DoubleEqualTransitive(x: Double, y: Double, z: Double)
    requires DoubleEqual(x, y) && DoubleEqual(y, z)
    ensures DoubleEqual(x, z)
  {
  }

  /** Away from NaN and the zeros, IEEE equality is equality of bit patterns. */
  lemma DoubleEqualIsIdentity(x: Double, y: Double)
    requires !IsNaN(x) && !IsZero(x)
    ensures DoubleEqual(x, y) <==> x == y
  {
  }

  /** The two witnesses that IEEE equality is not identity. */
  lemma DoubleEqualIsNotIdentity()
    ensures !DoubleEqual(QuietNaN, QuietNaN)
    ensures DoubleEqual(PositiveZero, NegativeZero) && PositiveZero != NegativeZero
  {
  }
}
