/**
 * JavaScript values as the calculator sees them, and the errors it throws.
 *
 * A finite JavaScript number is modelled as an exact real; the three
 * non-finite numbers and "anything that is not a number" (strings, null,
 * undefined, objects) are separate cases, so that the source's validation
 * checks (`typeof`, `isFinite`, `Number.isInteger`) can be stated.
 */
module JsValues {

  datatype Value = Num(r: real) | NaN | Infinity | NegInfinity | NonNumber

  /** `typeof v === "number"` */
  predicate IsNumber(v: Value) {
    !v.NonNumber?
  }

  /** `typeof v === "number" && isFinite(v)` */
  predicate IsFiniteNumber(v: Value) {
    v.Num?
  }

  predicate IsIntegral(r: real) {
    r.Floor as real == r
  }

  /** `Number.isInteger(v)` */
  predicate IsInteger(v: Value) {
    v.Num? && IsIntegral(v.r)
  }

  /** `v < 0` for a value of type number (false for NaN, as in JavaScript) */
  predicate IsNegative(v: Value)
    requires IsNumber(v)
  {
    v.NegInfinity? || (v.Num? && v.r < 0.0)
  }

  /** Truncation toward zero, as JavaScript's `%` uses it. */
  function Trunc(x: real): (t: int)
    ensures x >= 0.0 ==> 0.0 <= t as real <= x < t as real + 1.0
    ensures x < 0.0 ==> t as real - 1.0 < x <= t as real <= 0.0
  {
    if x >= 0.0 then x.Floor else -((-x).Floor)
  }

  /** JavaScript's `x % y` on finite numbers: the sign follows the dividend. */
  function Remainder(x: real, y: real): (m: real)
    requires y != 0.0
  {
    x - y * Trunc(x / y) as real
  }

  /** `x % 2 === 0` holds exactly for the even integers. */
  lemma {:induction false} RemainderTwoZero(x: real)
    ensures Remainder(x, 2.0) == 0.0 <==> (IsIntegral(x) && x.Floor % 2 == 0)
  {
    var t := Trunc(x / 2.0);
    if Remainder(x, 2.0) == 0.0 {
      assert x == 2.0 * t as real;
      assert x.Floor == 2 * t;
    }
    if IsIntegral(x) && x.Floor % 2 == 0 {
      var k := x.Floor / 2;
      assert x == 2.0 * k as real;
      assert x / 2.0 == k as real;
      assert Trunc(x / 2.0) == k;
    }
  }

  /** The message of each `throw new Error(...)` in the calculator. */
  datatype Failure =
    | NotFiniteNumbers          // "All parameters must be finite numbers"
    | DivisionByZero            // "Division by zero is not allowed"
    | ZeroToNegativePower       // "Cannot raise 0 to negative power"
    | FactorialDomain           // "Factorial requires non-negative integer"
    | SqrtDomain                // "Square root requires non-negative number"
    | NegativeRadius            // "Radius must be a positive number"
    | NonPositiveDimensions     // "Dimensions must be positive"
    | EmptyMean                 // "Mean requires non-empty array of numbers"
    | EmptyMedian               // "Median requires non-empty array of numbers"
    | InvalidPrecision          // "Precision must be non-negative integer"
    | ToFixedRange              // the RangeError of Number.prototype.toFixed

  /** A call either returns a value or throws. */
  datatype Result<T> = Ok(value: T) | Err(error: Failure)

  /** A call that returns nothing either completes or throws. */
  datatype Outcome = Pass | Fail(error: Failure)

  /** An optional value; also JavaScript's `null` operand in a history entry. */
  datatype Option<T> = None | Some(value: T)
}
