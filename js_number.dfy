/**
 * The part of JavaScript number semantics the scroll handlers depend on.
 * Finite values are taken as exact reals (no rounding); what IEEE-754 adds
 * beyond them, and what matters here, is that dividing by zero yields an
 * infinity or NaN, and that every comparison with NaN is false.
 */
module JsNumber {

  datatype Num = Finite(v: real) | PosInf | NegInf | NaN

  /** `a / b` for finite operands. A zero divisor is +0: in the handlers it is
      always a difference `x - x`, which IEEE-754 rounds to +0. */
  function Div(a: real, b: real): (r: Num)
    ensures b != 0.0 ==> r == Finite(a / b)
    ensures r == NaN <==> a == 0.0 && b == 0.0
    ensures r == PosInf <==> a > 0.0 && b == 0.0
    ensures r == NegInf <==> a < 0.0 && b == 0.0
  {
    if b != 0.0 then Finite(a / b)
    else if a > 0.0 then PosInf
    else if a < 0.0 then NegInf
    else NaN
  }

  /** `n * k` for a positive finite factor. */
  function Times(n: Num, k: real): Num
    requires k > 0.0
  {
    match n
    case Finite(x) => Finite(x * k)
    case _ => n
  }

  /** `Math.floor(n)`: infinities and NaN are returned unchanged. */
  function Floor(n: Num): Num
  {
    match n
    case Finite(x) => Finite(x.Floor as real)
    case _ => n
  }

  /** `a < b`; false whenever either side is NaN. */
  predicate Less(a: Num, b: Num)
  {
    match (a, b)
    case (Finite(x), Finite(y)) => x < y
    case (NegInf, Finite(_)) => true
    case (NegInf, PosInf) => true
    case (Finite(_), PosInf) => true
    case _ => false
  }

  /** `a >= b`; false whenever either side is NaN. */
  predicate AtLeast(a: Num, b: Num)
  {
    !a.NaN? && !b.NaN? && !Less(a, b)
  }

  /** `Math.max(a, b)`: NaN if either argument is NaN. */
  function Max(a: Num, b: Num): (r: Num)
    ensures r.NaN? <==> a.NaN? || b.NaN?
    ensures !r.NaN? ==> AtLeast(r, a) && AtLeast(r, b) && (r == a || r == b)
  {
    if a.NaN? || b.NaN? then NaN else if Less(a, b) then b else a
  }

  /** `Math.min(a, b)`: NaN if either argument is NaN. */
  function Min(a: Num, b: Num): (r: Num)
    ensures r.NaN? <==> a.NaN? || b.NaN?
    ensures !r.NaN? ==> AtLeast(a, r) && AtLeast(b, r) && (r == a || r == b)
  {
    if a.NaN? || b.NaN? then NaN else if Less(b, a) then b else a
  }
}
