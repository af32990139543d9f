/** The few JavaScript values the samplers can hand back. */
module JsValues {

  /** A JavaScript number: a finite value (exact, no IEEE-754 rounding) or NaN.
      Infinities are not modelled. */
  datatype Num = Finite(value: real) | NaN

  /** What a sampler returns: `null`, `undefined` (an element read past the
      end of a buffer, or at a NaN index) or a number. */
  datatype Sampled = Null | Undefined | Number(n: Num)

  /** JavaScript's global `isNaN`, which first coerces its argument to a
      number: `undefined` becomes NaN, `null` becomes 0. */
  predicate IsNaN(v: Sampled)
  {
    match v
    case Null => false
    case Undefined => true
    case Number(n) => n.NaN?
  }
}
