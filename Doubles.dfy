/**
 * Java `double` values, as far as the Feldt-Gilmer computation needs them.
 *
 * A finite double is represented by the exact real it denotes: rounding and
 * overflow are not modelled. What is modelled are the special values that a
 * division by zero brings in (positive and negative infinity, NaN) and the way
 * IEEE 754 arithmetic propagates them through `+`, `-`, `*`, `/` and
 * `Math.pow(x, 2)`. A zero is always taken to be +0.0.
 */
module Doubles {

  datatype Double = Finite(r: real) | PosInf | NegInf | NaN
  {
    predicate IsFinite() { Finite? }
    predicate IsInfinite() { PosInf? || NegInf? }
  }

  const Zero: Double := Finite(0.0)
  const One: Double := Finite(1.0)

  /** The infinity whose sign is given by `positive`. */
  function Inf(positive: bool): Double {
    if positive then PosInf else NegInf
  }

  function Neg(a: Double): Double {
    match a
    case Finite(x) => Finite(-x)
    case PosInf => NegInf
    case NegInf => PosInf
    case NaN => NaN
  }

  /** IEEE 754 addition: NaN is absorbing and opposite infinities give NaN. */
  function Add(a: Double, b: Double): Double {
    if a.NaN? || b.NaN? then NaN
    else if a.Finite? && b.Finite? then Finite(a.r + b.r)
    else if (a.PosInf? && b.NegInf?) || (a.NegInf? && b.PosInf?) then NaN
    else if a.Finite? then b
    else a
  }

  /** Addition is commutative, special values included. */
  lemma AddCommutes(a: Double, b: Double)
    ensures Add(a, b) == Add(b, a)
  {
  }

  /**
   * Addition is associative, special values included: the exact sum of finite
   * values is, and any NaN or any pair of opposite infinities gives NaN
   * whichever way the terms are grouped.
   */
  lemma AddAssociates(a: Double, b: Double, c: Double)
    ensures Add(Add(a, b), c) == Add(a, Add(b, c))
  {
  }

  function Sub(a: Double, b: Double): Double {
    Add(a, Neg(b))
  }

  /** The sign of a non-NaN value, with zero counted as positive. */
  function NonNegative(a: Double): bool
    requires !a.NaN?
  {
    if a.Finite? then a.r >= 0.0 else a.PosInf?
  }

  /** IEEE 754 multiplication: infinity times zero is NaN. */
  function Mul(a: Double, b: Double): Double {
    if a.NaN? || b.NaN? then NaN
    else if a.Finite? && b.Finite? then Finite(a.r * b.r)
    else if (a.Finite? && a.r == 0.0) || (b.Finite? && b.r == 0.0) then NaN
    else Inf(NonNegative(a) == NonNegative(b))
  }

  /**
   * IEEE 754 division: 0/0 and infinity/infinity are NaN, a non-zero finite
   * value or an infinity divided by zero is an infinity, a finite value divided
   * by an infinity is zero.
   */
  function Div(a: Double, b: Double): Double {
    if a.NaN? || b.NaN? then NaN
    else if a.Finite? && b.Finite? then
      if b.r != 0.0 then Finite(a.r / b.r)
      else if a.r == 0.0 then NaN
      else Inf(a.r > 0.0)
    else if a.Finite? then Zero
    else if b.Finite? then Inf(NonNegative(a) == NonNegative(b))
    else NaN
  }

  /** `Math.pow(a, 2)`. */
  function Square(a: Double): Double {
    match a
    case Finite(x) => Finite(x * x)
    case PosInf => PosInf
    case NegInf => PosInf
    case NaN => NaN
  }
}
