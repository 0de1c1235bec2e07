/**
 * The parts of Java's semantics the model of the engine depends on: the
 * exceptions the engine can throw, the IEEE special values it relies on,
 * 32-bit int arithmetic, and the rounding and truncation of doubles.
 */
module JavaLang {

  datatype Option<T> = None | Some(value: T)

  /**
   * The exceptions thrown by the modelled code. Two are the model's own:
   * RedrawLimit says that a bounded list of redraws or retries ran out where
   * the source would keep drawing, and Unrepresentable says that the source
   * would go on computing with an IEEE infinity or NaN that this real-valued
   * model does not carry.
   */
  datatype Exception =
    | IllegalArgument
    | IllegalState
    | IndexOutOfBounds
    | NullPointer
    | Arithmetic
    | UnsupportedOperation
    | NegativeArraySize
    | ClassCast
    | RedrawLimit
    | Unrepresentable

  /** A value, or the exception that was thrown instead of returning it. */
  datatype Outcome<T> = Ok(value: T) | Thrown(ex: Exception)

  // ---------------------------------------------------------------- int

  const INT_MIN: int := -0x8000_0000
  const INT_MAX: int := 0x7FFF_FFFF
  const TWO_TO_32: int := 0x1_0000_0000

  predicate IsInt(x: int) { INT_MIN <= x <= INT_MAX }

  /** A Java int. */
  type Int32 = x: int | IsInt(x)

  /** Two's complement wrap-around of a Java int. */
  function Wrap32(x: int): (r: int)
    ensures IsInt(r)
    ensures (x - r) % TWO_TO_32 == 0
    ensures IsInt(x) ==> r == x
  {
    var m := (x - INT_MIN) % TWO_TO_32;
    assert x - (m + INT_MIN) == TWO_TO_32 * ((x - INT_MIN) / TWO_TO_32);
    m + INT_MIN
  }

  function Abs(x: int): nat { if x < 0 then -x else x }

  /** Java's `/` on ints: the quotient truncated toward zero. */
  function JavaDiv(a: int, b: int): (q: int)
    requires b != 0
    ensures Abs(q) * Abs(b) <= Abs(a) < (Abs(q) + 1) * Abs(b)
    ensures q == 0 || ((q < 0) <==> ((a < 0) != (b < 0)))
  {
    var u: int := Quotient(Abs(a), Abs(b));
    if (a < 0) == (b < 0) then u else -u
  }

  /** How many whole times d fits into n. */
  function Quotient(n: nat, d: nat): (u: nat)
    requires d > 0
    ensures u * d <= n < (u + 1) * d
    decreases n
  {
    if n < d then 0
    else
      var rest := Quotient(n - d, d);
      assert (rest + 1) * d == rest * d + d && (rest + 2) * d == (rest + 1) * d + d;
      rest + 1
  }

  // -------------------------------------------------------------- double

  /** Math.round: the nearest integer, halves rounded up. */
  function Round(x: real): (r: int)
    ensures x - 0.5 < r as real <= x + 0.5
  {
    (x + 0.5).Floor
  }

  /** Math.ceil and Math.floor, followed by the (int) cast of a small value. */
  function Ceil(x: real): (r: int)
    ensures x <= r as real < x + 1.0
  {
    if x.Floor as real == x then x.Floor else x.Floor + 1
  }

  /** The (int) cast of a double: truncation toward zero, saturating at the int range. */
  function DoubleToInt(x: real): (r: int)
    ensures IsInt(r)
    ensures INT_MIN as real <= x <= INT_MAX as real ==> Abs(r) as real <= (if x < 0.0 then -x else x) < Abs(r) as real + 1.0
    ensures INT_MIN as real <= x <= INT_MAX as real ==> (r < 0 ==> x < 0.0) && (r > 0 ==> x > 0.0)
  {
    var t := if x >= 0.0 then x.Floor else -((-x).Floor);
    if t < INT_MIN then INT_MIN else if t > INT_MAX then INT_MAX else t
  }

  /** 2^1074, the reciprocal of Double.MIN_VALUE. */
  const TWO_TO_1074: int := 202402253307310618352495346718917307049556649764142118356901358027430339567995346891960383701437124495187077864316811911389808737385793476867013399940738509921517424276566361364466907742093216341239767678472745068562007483424692698618103355649159556340810056512358769552333414615230502532186327508646006263307707741093494784

  /** Double.MIN_VALUE, the smallest positive double, 2^-1074. */
  const DOUBLE_MIN_VALUE: real := 1.0 / (TWO_TO_1074 as real)

  /** Double.MAX_VALUE, (2 - 2^-52) * 2^1023. */
  const DOUBLE_MAX_VALUE: real := 179769313486231570814527423731704356798070567525844996598917476803157260780028538760589558632766878171540458953514382464234321326889464182768467546703537516986049910576551282076245490090389328944075868508455133942304583236903222948165808559332123348274797826204144723168738177180919299881250404026184124858368.0

  /**
   * A double restricted to what the engine relies on: finite values, the two
   * infinities and NaN. Negative zero is not represented.
   */
  datatype Double = Finite(value: real) | PositiveInfinity | NegativeInfinity | NaN
  {
    predicate IsInfinite() { PositiveInfinity? || NegativeInfinity? }
  }

  /** IEEE addition. */
  function Add(a: Double, b: Double): (r: Double)
    ensures a.Finite? && b.Finite? ==> r == Finite(a.value + b.value)
    ensures a.NaN? || b.NaN? ==> r.NaN?
  {
    match (a, b)
    case (NaN, _) => NaN
    case (_, NaN) => NaN
    case (PositiveInfinity, NegativeInfinity) => NaN
    case (NegativeInfinity, PositiveInfinity) => NaN
    case (PositiveInfinity, _) => PositiveInfinity
    case (_, PositiveInfinity) => PositiveInfinity
    case (NegativeInfinity, _) => NegativeInfinity
    case (_, NegativeInfinity) => NegativeInfinity
    case (Finite(x), Finite(y)) => Finite(x + y)
  }

  /** Unary minus. */
  function Negate(a: Double): (r: Double)
    ensures a.Finite? ==> r == Finite(-a.value)
  {
    match a
    case Finite(x) => Finite(-x)
    case PositiveInfinity => NegativeInfinity
    case NegativeInfinity => PositiveInfinity
    case NaN => NaN
  }

  /** IEEE subtraction. */
  function Sub(a: Double, b: Double): (r: Double)
    ensures a.Finite? && b.Finite? ==> r == Finite(a.value - b.value)
    ensures a.NaN? || b.NaN? ==> r.NaN?
  {
    Add(a, Negate(b))
  }

  function SignOf(x: real): int { if x < 0.0 then -1 else 1 }

  function Infinity(sign: int): Double { if sign < 0 then NegativeInfinity else PositiveInfinity }

  function SignOfDouble(d: Double): int
    requires !d.NaN?
  {
    match d
    case Finite(x) => SignOf(x)
    case PositiveInfinity => 1
    case NegativeInfinity => -1
  }

  /** IEEE multiplication (zeros are positive zeros). */
  function Mul(a: Double, b: Double): (r: Double)
    ensures a.Finite? && b.Finite? ==> r == Finite(a.value * b.value)
    ensures a.NaN? || b.NaN? ==> r.NaN?
  {
    if a.NaN? || b.NaN? then NaN
    else if a.Finite? && b.Finite? then Finite(a.value * b.value)
    else if a == Finite(0.0) || b == Finite(0.0) then NaN
    else Infinity(SignOfDouble(a) * SignOfDouble(b))
  }

  /** IEEE division (zeros are positive zeros). */
  function Div(a: Double, b: Double): (r: Double)
    ensures a.Finite? && b.Finite? && b.value != 0.0 ==> r == Finite(a.value / b.value)
    ensures a.NaN? || b.NaN? ==> r.NaN?
    ensures a == Finite(0.0) && b == Finite(0.0) ==> r.NaN?
  {
    if a.NaN? || b.NaN? then NaN
    else if a.IsInfinite() && b.IsInfinite() then NaN
    else if b.IsInfinite() then Finite(0.0)
    else if a.IsInfinite() then Infinity(SignOfDouble(a) * SignOfDouble(b))
    else if b.value != 0.0 then Finite(a.value / b.value)
    else if a.value == 0.0 then NaN
    else Infinity(SignOf(a.value))
  }

  /** Math.min and Math.max: NaN if either argument is NaN. */
  function Min(a: Double, b: Double): (r: Double)
    ensures a.NaN? || b.NaN? ==> r.NaN?
    ensures !a.NaN? && !b.NaN? ==> r == a || r == b
  {
    if a.NaN? || b.NaN? then NaN else if LessEq(a, b) then a else b
  }

  function Max(a: Double, b: Double): (r: Double)
    ensures a.NaN? || b.NaN? ==> r.NaN?
    ensures !a.NaN? && !b.NaN? ==> r == a || r == b
  {
    if a.NaN? || b.NaN? then NaN else if LessEq(a, b) then b else a
  }

  /** The `<=` comparison of doubles: false whenever NaN is involved. */
  predicate LessEq(a: Double, b: Double)
  {
    match (a, b)
    case (NaN, _) => false
    case (_, NaN) => false
    case (NegativeInfinity, _) => true
    case (_, PositiveInfinity) => true
    case (_, NegativeInfinity) => false
    case (PositiveInfinity, _) => false
    case (Finite(x), Finite(y)) => x <= y
  }
}
