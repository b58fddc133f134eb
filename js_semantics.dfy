/** The parts of JavaScript's and lodash's number semantics that the dashboard's
    formatters rely on: coercion of JSON field values, truthiness, `*` and `/`
    with their infinities and NaN, and lodash's `round`.
    Numbers are exact reals: binary floating-point rounding is not modelled. */
module JsSemantics {

  /** A JavaScript number. Signed zero is not distinguished. */
  datatype Number = Finite(v: real) | Infinity(negative: bool) | NaN

  /** A field value as it arrives from the CoinCap JSON or from a literal:
      `Str(text, numeric)` is a string together with the number its decimal
      text denotes (the text itself is not parsed by the model). */
  datatype Value = Null | Undefined | Num(n: Number) | Str(text: string, numeric: Number)

  /** The global `isFinite` on a number. */
  predicate IsFinite(n: Number) {
    n.Finite?
  }

  /** JavaScript truthiness (`if (x)`, `!x`, `x ? … : …`). */
  predicate Truthy(x: Value) {
    match x
    case Null => false
    case Undefined => false
    case Num(n) => n != Finite(0.0) && n != NaN
    case Str(t, _) => t != ""
  }

  /** `Number(x)`, the coercion applied by `/` and by lodash's `toNumber`. */
  function ToNumber(x: Value): Number {
    match x
    case Null => Finite(0.0)
    case Undefined => NaN
    case Num(n) => n
    case Str(t, n) => if t == "" then Finite(0.0) else n
  }

  /** `parseFloat(x)`: unlike `Number`, it gives NaN for null and for the empty string. */
  function ParseFloat(x: Value): Number {
    match x
    case Null => NaN
    case Undefined => NaN
    case Num(n) => n
    case Str(t, n) => if t == "" then NaN else n
  }

  /** `n > k` for a number literal `k`. */
  predicate GreaterThan(n: Number, k: real) {
    match n
    case Finite(v) => v > k
    case Infinity(negative) => !negative
    case NaN => false
  }

  /** `n < k` for a number literal `k`. */
  predicate LessThan(n: Number, k: real) {
    match n
    case Finite(v) => v < k
    case Infinity(negative) => negative
    case NaN => false
  }

  /** `x * y`. */
  function Mul(x: Number, y: Number): Number {
    match (x, y)
    case (Finite(a), Finite(b)) => Finite(a * b)
    case (Finite(a), Infinity(n)) => if a == 0.0 then NaN else Infinity(n != (a < 0.0))
    case (Infinity(n), Finite(b)) => if b == 0.0 then NaN else Infinity(n != (b < 0.0))
    case (Infinity(m), Infinity(n)) => Infinity(m != n)
    case _ => NaN
  }

  /** `x / y`; a zero divisor is taken as +0. */
  function Div(x: Number, y: Number): Number {
    match (x, y)
    case (Finite(a), Finite(b)) =>
      if b != 0.0 then Finite(a / b) else if a == 0.0 then NaN else Infinity(a < 0.0)
    case (Finite(_), Infinity(_)) => Finite(0.0)
    case (Infinity(n), Finite(b)) => Infinity(n != (b < 0.0))
    case _ => NaN
  }

  lemma MulFinite(x: Number, y: Number)
    requires IsFinite(y) && y.v != 0.0
    ensures IsFinite(Mul(x, y)) <==> IsFinite(x)
  {
  }

  lemma MulOne(x: Number)
    ensures Mul(x, Finite(1.0)) == x
  {
  }

  /** `10^digits`, the scale at which `round` works. */
  function Pow10(digits: nat): (p: nat)
    ensures p >= 1
  {
    if digits == 0 then 1 else 10 * Pow10(digits - 1)
  }

  function Scale(digits: nat): (p: real)
    ensures p >= 1.0
  {
    Pow10(digits) as real
  }

  /** `Math.round(v * 10^digits)`: half rounds up. */
  function Shifted(v: real, digits: nat): int {
    (v * Scale(digits) + 0.5).Floor
  }

  /** lodash `round(v, digits)` on a finite value. */
  function RoundReal(v: real, digits: nat): real {
    Shifted(v, digits) as real / Scale(digits)
  }

  /** lodash `round(x, digits)`: non-finite numbers come back unchanged. */
  function Round(x: Number, digits: nat): (r: Number)
    ensures IsFinite(r) <==> IsFinite(x)
  {
    match x
    case Finite(v) => Finite(RoundReal(v, digits))
    case _ => x
  }

  lemma ShiftedBounds(v: real, digits: nat)
    ensures v * Scale(digits) - 0.5 < Shifted(v, digits) as real <= v * Scale(digits) + 0.5
  {
  }

  /** Dividing by a positive scale keeps order. */
  lemma DivideOrder(a: real, b: real, p: real)
    requires p > 0.0 && a <= b
    ensures a / p <= b / p
  {
  }

  lemma DivideStrictOrder(a: real, b: real, p: real)
    requires p > 0.0 && a < b
    ensures a / p < b / p
  {
  }

  lemma MultiplyOrder(a: real, b: real, p: real)
    requires p > 0.0 && a <= b
    ensures a * p <= b * p
  {
  }

  lemma CancelScale(a: real, p: real)
    requires p > 0.0
    ensures a * p / p == a
  {
  }

  /** The rounded value lies within half a unit of the last kept decimal. */
  lemma RoundErrorBound(v: real, digits: nat)
    ensures v - 0.5 / Scale(digits) < RoundReal(v, digits) <= v + 0.5 / Scale(digits)
  {
    var p := Scale(digits);
    var f := Shifted(v, digits) as real;
    ShiftedBounds(v, digits);
    DivideStrictOrder(v * p - 0.5, f, p);
    DivideOrder(f, v * p + 0.5, p);
    assert (v * p - 0.5) / p == v - 0.5 / p;
    assert (v * p + 0.5) / p == v + 0.5 / p;
  }

  /** A rounded value is positive exactly when the input reaches half a unit
      of the last kept decimal. */
  lemma RoundPositiveIff(v: real, digits: nat)
    ensures RoundReal(v, digits) > 0.0 <==> v >= 0.5 / Scale(digits)
  {
    var p := Scale(digits);
    var f := Shifted(v, digits);
    ShiftedBounds(v, digits);
    CancelScale(v, p);
    if f >= 1 {
      DivideStrictOrder(0.0, f as real, p);
      DivideOrder(0.5, v * p, p);
    } else {
      DivideOrder(f as real, 0.0, p);
      DivideStrictOrder(v * p, 0.5, p);
    }
  }

  /** The rounded value has at most `digits` decimals: scaled back up it is
      the integer `Math.round` produced. */
  lemma RoundOnGrid(v: real, digits: nat)
    ensures RoundReal(v, digits) * Scale(digits) == Shifted(v, digits) as real
  {
    var p := Scale(digits);
    var f := Shifted(v, digits) as real;
    assert f / p * p == f;
  }

  lemma CastProduct(n: int, k: int)
    ensures n as real * k as real == (n * k) as real
  {
  }

  /** Rounding an integral value gives it back. */
  lemma RoundInteger(n: int, digits: nat)
    ensures RoundReal(n as real, digits) == n as real
  {
    var k := Pow10(digits);
    CastProduct(n, k);
    assert Shifted(n as real, digits) == n * k;
    CancelScale(n as real, k as real);
  }

  /** Rounding keeps a value at or above an integer that bounds it from below. */
  lemma RoundAtLeast(v: real, digits: nat, lo: int)
    requires lo as real <= v
    ensures lo as real <= RoundReal(v, digits)
  {
    var k := Pow10(digits);
    CastProduct(lo, k);
    MultiplyOrder(lo as real, v, k as real);
    assert lo * k <= Shifted(v, digits);
    DivideOrder((lo * k) as real, Shifted(v, digits) as real, k as real);
    CancelScale(lo as real, k as real);
  }

  /** Rounding keeps a value at or below an integer that bounds it from above. */
  lemma RoundAtMost(v: real, digits: nat, hi: int)
    requires v <= hi as real
    ensures RoundReal(v, digits) <= hi as real
  {
    var k := Pow10(digits);
    CastProduct(hi, k);
    MultiplyOrder(v, hi as real, k as real);
    assert Shifted(v, digits) <= hi * k;
    DivideOrder(Shifted(v, digits) as real, (hi * k) as real, k as real);
    CancelScale(hi as real, k as real);
  }
}
