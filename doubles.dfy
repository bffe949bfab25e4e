/** The part of IEEE 754 double precision that the rating check observes: a finite
    value, one of the two infinities, or NaN, and the comparisons `>=` and `<=` against
    a constant. Rounding and the sign of zero are not represented. */
module Doubles {

  datatype Double = Finite(value: real) | PositiveInfinity | NegativeInfinity | NaN

  /** `d >= bound`; every comparison with NaN is false. */
  predicate AtLeast(d: Double, bound: real) {
    match d
    case Finite(v) => v >= bound
    case PositiveInfinity => true
    case NegativeInfinity => false
    case NaN => false
  }

  /** `d <= bound`; every comparison with NaN is false. */
  predicate AtMost(d: Double, bound: real) {
    match d
    case Finite(v) => v <= bound
    case PositiveInfinity => false
    case NegativeInfinity => true
    case NaN => false
  }

  /** `lo <= d && d <= hi` holds exactly for finite values in the closed interval:
      NaN and both infinities are outside every bounded range. */
  lemma BetweenIff(d: Double, lo: real, hi: real)
    ensures AtLeast(d, lo) && AtMost(d, hi) <==> d.Finite? && lo <= d.value <= hi
  {
  }
}
