/**
 * ECMAScript values as the ES5 tests of dlls/mshtml/tests/es5.js use them:
 * numbers (as exact reals plus NaN and the infinities), strings, booleans,
 * undefined, null and object references, with the ToInteger conversion of
 * ECMA-262 5.1 section 9.4.
 */
module Es5Values {
  /** A Number value; finite numbers are exact reals (IEEE-754 rounding and -0 are not modelled). */
  datatype Number = Finite(r: real) | NaN | PosInf | NegInf

  /** An ECMAScript language value; objects are references by identity. */
  datatype JsValue = Undefined | Null | Bool(b: bool) | Num(n: Number) | Str(s: string) | Obj(id: nat)

  /** Truncation toward zero of a finite number. */
  function Truncate(r: real): (i: int)
    ensures r >= 0.0 ==> i as real <= r < i as real + 1.0
    ensures r < 0.0 ==> i as real - 1.0 < r <= i as real
  {
    if r >= 0.0 then r.Floor else -((-r).Floor)
  }

  /** ToInteger of a number: NaN is 0, the infinities stay infinite. */
  function ToInteger(n: Number): (r: IntegerOrInfinity)
    ensures n.Finite? ==> r == Integral(Truncate(n.r))
  {
    match n
    case Finite(x) => Integral(Truncate(x))
    case NaN => Integral(0)
    case PosInf => Infinite(true)
    case NegInf => Infinite(false)
  }

  /** The result of ToInteger: an integer, or an infinity with its sign (`positive`). */
  datatype IntegerOrInfinity = Integral(i: int) | Infinite(positive: bool)

  /** The strict equality comparison (===) of section 11.9.6: NaN equals nothing. */
  predicate StrictEquals(a: JsValue, b: JsValue)
  {
    a == b && a != Num(NaN)
  }

  /** Truncation drops the fraction in either direction and keeps integers. */
  lemma TruncateExamples()
    ensures Truncate(1.9) == 1 && Truncate(0.9) == 0 && Truncate(-1.9) == -1 && Truncate(9.1) == 9
    ensures Truncate(13.1) == 13 && Truncate(-2.0) == -2
  {
  }
}
