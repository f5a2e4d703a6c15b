/** Floating-point values without rounding: exact reals, plus the non-finite cases and the way
    comparisons treat them. */
module Numbers {

  datatype Num = Real(r: real) | NaN | PosInf | NegInf {
    predicate IsFinite() { Real? }
  }

  predicate Less(a: Num, b: Num) {
    match (a, b)
    case (Real(x), Real(y)) => x < y
    case (NaN, _) => false
    case (_, NaN) => false
    case (NegInf, NegInf) => false
    case (NegInf, _) => true
    case (PosInf, _) => false
    case (Real(_), PosInf) => true
    case (Real(_), NegInf) => false
  }

  predicate AtMost(a: Num, b: Num) {
    !a.NaN? && !b.NaN? && !Less(b, a)
  }

  function Abs(a: Num): Num {
    match a
    case Real(x) => Real(if x < 0.0 then -x else x)
    case NaN => NaN
    case _ => PosInf
  }

  /** The sign is +1 or -1. */
  function WithSign(positive: bool, a: Num): Num {
    if positive then a
    else
      match a
      case Real(x) => Real(-x)
      case NaN => NaN
      case PosInf => NegInf
      case NegInf => PosInf
  }

  function Plus(a: Num, x: real): Num {
    match a
    case Real(y) => Real(y + x)
    case _ => a
  }

  // The double nearest to pi, exactly.
  const PI: real := 3.141592653589793115997963468544185161590576171875
}
