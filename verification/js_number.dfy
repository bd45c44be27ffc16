/**
 * JavaScript numbers as the scraper uses them: a value or NaN. Values are
 * exact reals; IEEE-754 rounding, infinities and signed zero are not modelled.
 * Every comparison with NaN is false and every arithmetic operation on NaN
 * yields NaN.
 */
module JsNumber {

  datatype Number = NaN | Finite(value: real)

  /** `x - c` */
  function Sub(x: Number, c: real): Number {
    match x
    case NaN => NaN
    case Finite(v) => Finite(v - c)
  }

  /** `x * c` */
  function Mul(x: Number, c: real): Number {
    match x
    case NaN => NaN
    case Finite(v) => Finite(v * c)
  }

  /** `x < c`: false for NaN. */
  predicate Less(x: Number, c: real) {
    x.Finite? && x.value < c
  }

  /** `x > c`: false for NaN. */
  predicate Greater(x: Number, c: real) {
    x.Finite? && x.value > c
  }

  predicate IsInteger(v: real) {
    v == v.Floor as real
  }

  /** `Math.round(x)`: the integer nearest to `x`, halves rounded up. */
  function Round(x: Number): (r: Number)
    ensures r.NaN? <==> x.NaN?
    ensures r.Finite? ==> IsInteger(r.value) && r.value - 0.5 <= x.value < r.value + 0.5
  {
    match x
    case NaN => NaN
    case Finite(v) => Finite((v + 0.5).Floor as real)
  }
}
