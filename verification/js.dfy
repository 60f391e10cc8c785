/** The few pieces of JavaScript value semantics the storefront's checks
    depend on: truthiness, `typeof x === "number"`, NaN, and the rounding
    functions of `Math`. Numbers are exact reals; IEEE rounding is not modelled. */
module Js {

  /** A JavaScript number: a finite value or NaN. */
  datatype Number = Finite(value: real) | NaN

  /** A JavaScript value as far as the storefront inspects it. */
  datatype Value =
    | Undefined
    | Null
    | Bool(b: bool)
    | Num(n: Number)
    | Str(s: string)
    | Obj

  /** ToBoolean: `undefined`, `null`, `false`, `0`, `NaN` and `""` are falsy. */
  predicate Truthy(v: Value) {
    match v
    case Undefined => false
    case Null => false
    case Bool(b) => b
    case Num(n) => n.Finite? && n.value != 0.0
    case Str(s) => s != ""
    case Obj => true
  }

  /** `x / 100` on a number; NaN propagates. */
  function DivideBy100(n: Number): (r: Number)
    ensures n.NaN? <==> r.NaN?
    ensures n.Finite? ==> r.value * 100.0 == n.value
  {
    match n
    case Finite(v) => Finite(v / 100.0)
    case NaN => NaN
  }

  function Abs(x: real): (r: real)
    ensures r >= 0.0
    ensures r == x || r == -x
  {
    if x < 0.0 then -x else x
  }

  /** `Math.floor`: the greatest integer not above `x`. */
  function Floor(x: real): (r: int)
    ensures r as real <= x < r as real + 1.0
  {
    x.Floor
  }

  /** `Math.round`: the nearest integer, halves rounded up towards +infinity. */
  function Round(x: real): (r: int)
    ensures r as real - 0.5 <= x < r as real + 0.5
  {
    Floor(x + 0.5)
  }

  /** A quotient of totals lies between the bounds its total is scaled between:
      an average is no smaller than the least term and no larger than the greatest. */
  lemma QuotientBetween(a: real, n: real, t: real, lo: real, hi: real)
    requires n > 0.0 && a * n == t
    requires n * lo <= t <= n * hi
    ensures lo <= a <= hi
  {
    assert (a - lo) * n >= 0.0;
    assert (hi - a) * n >= 0.0;
  }
}
