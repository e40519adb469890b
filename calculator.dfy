/**
 * The `MathCalculator` class: a precision setting, an append-only history
 * of operation records, and the operations that validate their inputs,
 * compute a result and (for some of them, not on every path) log it.
 *
 * Each operation that throws in the source returns `Err` here, and its
 * contract says that nothing was logged. Operations that only print to
 * the console have no `modifies` clause at all, so they cannot touch the
 * history.
 */
module Calculator {
  import opened JsValues
  import opened Arithmetic
  import opened Statistics

  /** The operation tag of a history record. */
  datatype Operation = ADD | SUBTRACT | MULTIPLY | DIVIDE | POWER | FACTORIAL | SQRT

  /** A history record `{ operation, operands, result }`; the timestamp is left out. */
  datatype Entry = Entry(operation: Operation, operands: seq<Value>, result: Value)

  /** The operands a record keeps: `[a, b]`, or `[a]` when `b` is `null`. */
  function Operands(a: Value, b: Option<Value>): seq<Value>
  {
    if b.Some? then [a, b.value] else [a]
  }

  /** The floating-point library functions the calculator calls, as parameters. */
  datatype MathLibrary = MathLibrary(
    sqrt: Value -> Value,
    pow: (real, real) -> Value,
    sin: real -> real,
    cos: real -> real)

  /** `Math.PI`, written out as a decimal. */
  const PI: real := 3.141592653589793

  /** Every value is a finite number. */
  predicate AllFinite(vs: seq<Value>) {
    forall i :: 0 <= i < |vs| ==> IsFiniteNumber(vs[i])
  }

  class MathCalculator {
    var precision: int
    var history: seq<Entry>
    var debug: bool

    constructor(precision: int := 10)
      ensures this.precision == precision
      ensures history == []
      ensures !debug
    {
      this.precision := precision;
      history := [];
      debug := false;
    }

    // -------------------------------------------------------------------
    // private helpers

    /** `_validateNumbers`: passes exactly when every argument is a finite number. */
    method ValidateNumbers(numbers: seq<Value>) returns (o: Outcome)
      ensures o == Pass <==> AllFinite(numbers)
      ensures o != Pass ==> o == Fail(NotFiniteNumbers)
    {
      var i := 0;
      while i < |numbers|
        invariant 0 <= i <= |numbers|
        invariant AllFinite(numbers[..i])
      {
        if !IsFiniteNumber(numbers[i]) {
          return Fail(NotFiniteNumbers);
        }
        i := i + 1;
      }
      assert numbers[..i] == numbers;
      return Pass;
    }

    /** `_logOperation`: appends exactly one record at the end of the history. */
    method LogOperation(operation: Operation, a: Value, b: Option<Value>, result: Value)
      modifies this`history
      ensures history == old(history) + [Entry(operation, Operands(a, b), result)]
    {
      history := history + [Entry(operation, Operands(a, b), result)];
    }

    // -------------------------------------------------------------------
    // arithmetic

    /** `add`: the sum of two finite numbers, always logged. */
    method Add(a: Value, b: Value) returns (r: Result<Value>)
      modifies this`history
      ensures !(a.Num? && b.Num?) ==> r == Err(NotFiniteNumbers) && history == old(history)
      ensures a.Num? && b.Num? ==> r == Ok(Num(a.r + b.r))
      ensures a.Num? && b.Num? ==> history == old(history) + [Entry(ADD, [a, b], r.value)]
    {
      var v := ValidateNumbers([a, b]);
      assert [a, b][0] == a && [a, b][1] == b;
      if v.Fail? {
        return Err(v.error);
      }
      var result := Num(a.r + b.r);
      LogOperation(ADD, a, Some(b), result);
      return Ok(result);
    }

    /** `subtract`: the difference of two finite numbers, always logged. */
    method Subtract(a: Value, b: Value) returns (r: Result<Value>)
      modifies this`history
      ensures !(a.Num? && b.Num?) ==> r == Err(NotFiniteNumbers) && history == old(history)
      ensures a.Num? && b.Num? ==> r == Ok(Num(a.r - b.r))
      ensures a.Num? && b.Num? ==> history == old(history) + [Entry(SUBTRACT, [a, b], r.value)]
    {
      var v := ValidateNumbers([a, b]);
      assert [a, b][0] == a && [a, b][1] == b;
      if v.Fail? {
        return Err(v.error);
      }
      var result := Num(a.r - b.r);
      LogOperation(SUBTRACT, a, Some(b), result);
      return Ok(result);
    }

    /**
     * `multiply`: always the product; a zero operand or an operand 1 returns
     * early without logging, only the general path logs.
     */
    method Multiply(a: Value, b: Value) returns (r: Result<Value>)
      modifies this`history
      ensures !(a.Num? && b.Num?) ==> r == Err(NotFiniteNumbers) && history == old(history)
      ensures a.Num? && b.Num? ==> r == Ok(Num(a.r * b.r))
      ensures a.Num? && b.Num? && (a.r == 0.0 || b.r == 0.0 || a.r == 1.0 || b.r == 1.0) ==>
        history == old(history)
      ensures a.Num? && b.Num? && !(a.r == 0.0 || b.r == 0.0 || a.r == 1.0 || b.r == 1.0) ==>
        history == old(history) + [Entry(MULTIPLY, [a, b], r.value)]
    {
      var v := ValidateNumbers([a, b]);
      assert [a, b][0] == a && [a, b][1] == b;
      if v.Fail? {
        return Err(v.error);
      }
      var shortcut := MultiplyShortcut(a.r, b.r);
      if shortcut.Some? {
        return Ok(Num(shortcut.value));
      }
      var result := Num(a.r * b.r);
      LogOperation(MULTIPLY, a, Some(b), result);
      return Ok(result);
    }

    /**
     * `divide`: throws on a zero divisor, otherwise logs and returns the
     * quotient rounded to `precision` digits by `toFixed`, which itself
     * throws a RangeError for a precision outside 0..100.
     */
    method Divide(dividend: Value, divisor: Value) returns (r: Result<Value>)
      modifies this`history
      ensures !(dividend.Num? && divisor.Num?) ==> r == Err(NotFiniteNumbers)
      ensures dividend.Num? && divisor.Num? && divisor.r == 0.0 ==> r == Err(DivisionByZero)
      ensures dividend.Num? && divisor.Num? && divisor.r != 0.0 && !(0 <= precision <= MaxFractionDigits) ==>
        r == Err(ToFixedRange)
      ensures dividend.Num? && divisor.Num? && divisor.r != 0.0 && 0 <= precision <= MaxFractionDigits ==>
        r == Ok(Num(ToFixed(dividend.r / divisor.r, precision)))
      ensures r.Err? ==> history == old(history)
      ensures r.Ok? ==> history == old(history) + [Entry(DIVIDE, [dividend, divisor], r.value)]
    {
      var v := ValidateNumbers([dividend, divisor]);
      assert [dividend, divisor][0] == dividend && [dividend, divisor][1] == divisor;
      if v.Fail? {
        return Err(v.error);
      }
      if divisor.r == 0.0 {
        return Err(DivisionByZero);
      }
      var quotient := dividend.r / divisor.r;
      var digits := FractionDigits(precision);
      if digits.Err? {
        return Err(digits.error);
      }
      var rounded := Num(ToFixed(quotient, digits.value));
      LogOperation(DIVIDE, dividend, Some(divisor), rounded);
      return Ok(rounded);
    }

    /**
     * `power`: the shortcuts of `PowerShortcut` (exponent 0, 0 to a negative
     * power, base 1, base -1) return or throw without logging; only the
     * general `Math.pow` path logs.
     */
    method Power(base: Value, exponent: Value, math: MathLibrary) returns (r: Result<Value>)
      modifies this`history
      ensures !(base.Num? && exponent.Num?) ==> r == Err(NotFiniteNumbers) && history == old(history)
      ensures base.Num? && exponent.Num? && exponent.r == 0.0 ==> r == Ok(Num(1.0)) && history == old(history)
      ensures base.Num? && exponent.Num? && exponent.r != 0.0 && base.r == 0.0 && exponent.r < 0.0 ==>
        r == Err(ZeroToNegativePower) && history == old(history)
      ensures base.Num? && exponent.Num? && PowerShortcut(base.r, exponent.r).Some? ==>
        history == old(history) &&
        r == match PowerShortcut(base.r, exponent.r).value
             case Ok(p) => Ok(Num(p))
             case Err(e) => Err(e)
      ensures base.Num? && exponent.Num? && PowerShortcut(base.r, exponent.r).None? ==>
        r == Ok(math.pow(base.r, exponent.r)) &&
        history == old(history) + [Entry(POWER, [base, exponent], r.value)]
    {
      var v := ValidateNumbers([base, exponent]);
      assert [base, exponent][0] == base && [base, exponent][1] == exponent;
      if v.Fail? {
        return Err(v.error);
      }
      var shortcut := PowerShortcut(base.r, exponent.r);
      if shortcut.Some? {
        match shortcut.value
        case Ok(p) => return Ok(Num(p));
        case Err(e) => return Err(e);
      }
      var result := math.pow(base.r, exponent.r);
      LogOperation(POWER, base, Some(exponent), result);
      return Ok(result);
    }

    /**
     * `factorial`: throws unless `n` is a non-negative integer; `n <= 1`
     * returns 1 unlogged; otherwise the product loop gives n! and one
     * record with the single operand `n` is logged.
     */
    method Factorial(n: Value) returns (r: Result<Value>)
      modifies this`history
      ensures !(IsInteger(n) && n.r >= 0.0) ==> r == Err(FactorialDomain) && history == old(history)
      ensures IsInteger(n) && n.r >= 0.0 ==> r == Ok(Num(Arithmetic.Factorial(n.r.Floor) as real))
      ensures IsInteger(n) && 0.0 <= n.r <= 1.0 ==> history == old(history)
      ensures IsInteger(n) && n.r > 1.0 ==> history == old(history) + [Entry(FACTORIAL, [n], r.value)]
    {
      if !IsInteger(n) || n.r < 0.0 {
        return Err(FactorialDomain);
      }
      var k: nat := n.r.Floor;
      if k <= 1 {
        return Ok(Num(1.0));
      }
      var result := 1.0;
      var i := 2;
      while i <= k
        invariant 2 <= i <= k + 1
        invariant result == ProductFromTwo(i - 1) as real
      {
        result := result * i as real;
        i := i + 1;
      }
      ProductIsFactorial(k);
      LogOperation(FACTORIAL, n, None, Num(result));
      return Ok(Num(result));
    }

    /**
     * `sqrt`: throws for a non-number or a negative number (NaN and
     * Infinity pass); 0 and 1 are returned as they are, and every path
     * that does not throw logs, the shortcut included.
     */
    method Sqrt(n: Value, math: MathLibrary) returns (r: Result<Value>)
      modifies this`history
      ensures !IsNumber(n) || IsNegative(n) ==> r == Err(SqrtDomain) && history == old(history)
      ensures IsNumber(n) && !IsNegative(n) && (n == Num(0.0) || n == Num(1.0)) ==> r == Ok(n)
      ensures IsNumber(n) && !IsNegative(n) && !(n == Num(0.0) || n == Num(1.0)) ==> r == Ok(math.sqrt(n))
      ensures r.Ok? ==> history == old(history) + [Entry(SQRT, [n], r.value)]
    {
      if !IsNumber(n) || IsNegative(n) {
        return Err(SqrtDomain);
      }
      if n == Num(0.0) || n == Num(1.0) {
        LogOperation(SQRT, n, None, n);
        return Ok(n);
      }
      var result := math.sqrt(n);
      LogOperation(SQRT, n, None, result);
      return Ok(result);
    }

    // -------------------------------------------------------------------
    // geometry and trigonometry: console output only, never logged

    /** `circleArea`: pi r^2 for a radius that is a number and not negative. */
    method CircleArea(radius: Value) returns (r: Result<Value>)
      ensures !IsNumber(radius) || IsNegative(radius) ==> r == Err(NegativeRadius)
      ensures radius.Num? && radius.r >= 0.0 ==> r.Ok? && r.value.Num? && r.value.r == PI * (radius.r * radius.r)
      ensures radius.Num? && radius.r >= 0.0 ==> r.value.r >= 0.0
      ensures radius.NaN? ==> r == Ok(NaN)
      ensures radius.Infinity? ==> r == Ok(Infinity)
    {
      if !IsNumber(radius) || IsNegative(radius) {
        return Err(NegativeRadius);
      }
      match radius
      case Num(x) =>
        assert x * x >= 0.0;
        return Ok(Num(PI * (x * x)));
      case NaN => return Ok(NaN);
      case Infinity => return Ok(Infinity);
    }

    /** `rectanglePerimeter`: 2 (w + h) for positive finite sides. */
    method RectanglePerimeter(width: Value, height: Value) returns (r: Result<Value>)
      ensures !(width.Num? && height.Num?) ==> r == Err(NotFiniteNumbers)
      ensures width.Num? && height.Num? && (width.r <= 0.0 || height.r <= 0.0) ==> r == Err(NonPositiveDimensions)
      ensures width.Num? && height.Num? && width.r > 0.0 && height.r > 0.0 ==>
        r == Ok(Num(width.r + height.r + width.r + height.r))
      ensures r.Ok? ==> r.value.r > 2.0 * width.r && r.value.r > 2.0 * height.r
    {
      var v := ValidateNumbers([width, height]);
      assert [width, height][0] == width && [width, height][1] == height;
      if v.Fail? {
        return Err(v.error);
      }
      if width.r <= 0.0 || height.r <= 0.0 {
        return Err(NonPositiveDimensions);
      }
      return Ok(Num(2.0 * (width.r + height.r)));
    }

    /** `sin` of a finite angle, by the library. */
    method Sin(angle: Value, math: MathLibrary) returns (r: Result<Value>)
      ensures !angle.Num? ==> r == Err(NotFiniteNumbers)
      ensures angle.Num? ==> r == Ok(Num(math.sin(angle.r)))
    {
      var v := ValidateNumbers([angle]);
      assert [angle][0] == angle;
      if v.Fail? {
        return Err(v.error);
      }
      return Ok(Num(math.sin(angle.r)));
    }

    /** `cos` of a finite angle, by the library. */
    method Cos(angle: Value, math: MathLibrary) returns (r: Result<Value>)
      ensures !angle.Num? ==> r == Err(NotFiniteNumbers)
      ensures angle.Num? ==> r == Ok(Num(math.cos(angle.r)))
    {
      var v := ValidateNumbers([angle]);
      assert [angle][0] == angle;
      if v.Fail? {
        return Err(v.error);
      }
      return Ok(Num(math.cos(angle.r)));
    }

    /** `degreesToRadians`: 180 degrees are pi radians, and the map is linear. */
    method DegreesToRadians(degrees: Value) returns (r: Result<Value>)
      ensures !degrees.Num? ==> r == Err(NotFiniteNumbers)
      ensures degrees.Num? ==> r.Ok? && r.value.Num? && 180.0 * r.value.r == degrees.r * PI
    {
      var v := ValidateNumbers([degrees]);
      assert [degrees][0] == degrees;
      if v.Fail? {
        return Err(v.error);
      }
      return Ok(Num(degrees.r * (PI / 180.0)));
    }

    // -------------------------------------------------------------------
    // statistics: console output only, never logged

    /**
     * `mean`: throws on an empty array, validates every element in order
     * while summing, and returns the sum over the count.
     */
    method Mean(numbers: array<Value>) returns (r: Result<Value>)
      ensures numbers.Length == 0 ==> r == Err(EmptyMean)
      ensures numbers.Length > 0 && !AllFinite(numbers[..]) ==> r == Err(NotFiniteNumbers)
      ensures numbers.Length > 0 && AllFinite(numbers[..]) ==>
        r == Ok(Num(Statistics.Mean(Reals(numbers[..]))))
    {
      if numbers.Length == 0 {
        return Err(EmptyMean);
      }
      var sum := 0.0;
      var i := 0;
      while i < numbers.Length
        invariant 0 <= i <= numbers.Length
        invariant AllFinite(numbers[..i])
        invariant sum == Sum(Reals(numbers[..i]))
      {
        var v := ValidateNumbers([numbers[i]]);
        if v.Fail? {
          assert !AllFinite(numbers[..]) by {
            assert !IsFiniteNumber(numbers[..][i]);
          }
          return Err(v.error);
        }
        assert IsFiniteNumber(numbers[i]) by {
          assert [numbers[i]][0] == numbers[i];
        }
        assert numbers[..i + 1][..i] == numbers[..i];
        assert AllFinite(numbers[..i + 1]);
        assert Reals(numbers[..i + 1])[..i] == Reals(numbers[..i]);
        sum := sum + numbers[i].r;
        i := i + 1;
      }
      assert numbers[..i] == numbers[..];
      return Ok(Num(sum / numbers.Length as real));
    }

    /**
     * `median`: throws on an empty array; otherwise sorts a copy and takes
     * its middle. The caller's array is not modified and nothing is logged.
     */
    method Median(numbers: array<real>) returns (r: Result<Value>)
      ensures numbers.Length == 0 ==> r == Err(EmptyMedian)
      ensures numbers.Length > 0 ==> r.Ok? && r.value.Num?
      ensures r.Ok? ==> forall sorted :: Ascending(sorted) && multiset(sorted) == multiset(numbers[..]) ==>
        sorted != [] && r.value.r == MiddleOf(sorted)
      ensures r.Ok? ==>
        2 * CountBelow(numbers[..], r.value.r) <= numbers.Length &&
        2 * CountAbove(numbers[..], r.value.r) <= numbers.Length
    {
      if numbers.Length == 0 {
        return Err(EmptyMedian);
      }
      var copy := numbers[..];
      var sorted := Sort(copy);
      assert |sorted| == |multiset(sorted)| == |multiset(copy)| == |copy|;
      var result := MiddleOf(sorted);
      forall s | Ascending(s) && multiset(s) == multiset(copy)
        ensures s != [] && result == MiddleOf(s)
      {
        MedianOfAnySort(copy, s);
      }
      MedianSplitsInHalf(copy);
      return Ok(Num(result));
    }

    // -------------------------------------------------------------------
    // utility

    /** `getHistory`: a copy of the history (a sequence is a value, so it cannot alias). */
    method GetHistory() returns (h: seq<Entry>)
      ensures h == history
    {
      h := history;
    }

    /** `clearHistory`: empties the history; returns the count the source prints. */
    method ClearHistory() returns (removed: nat)
      modifies this`history
      ensures history == []
      ensures removed == |old(history)|
    {
      removed := |history|;
      history := [];
    }

    /**
     * `setPrecision`: throws and keeps the precision unless `p` is a
     * non-negative integer; any such `p` is accepted (above 15 it only warns).
     */
    method SetPrecision(p: Value) returns (o: Outcome)
      modifies this`precision
      ensures !(IsInteger(p) && p.r >= 0.0) ==> o == Fail(InvalidPrecision) && precision == old(precision)
      ensures IsInteger(p) && p.r >= 0.0 ==> o == Pass && precision as real == p.r
    {
      if !IsInteger(p) || p.r < 0.0 {
        return Fail(InvalidPrecision);
      }
      precision := p.r.Floor;
      return Pass;
    }
  }

  /**
   * A client of the class: what a caller can conclude from the contracts
   * alone about a short session.
   */
  method Session(math: MathLibrary)
  {
    var calculator := new MathCalculator();
    var s := calculator.Add(Num(2.0), Num(3.0));
    assert s == Ok(Num(5.0));
    var m := calculator.Multiply(Num(0.0), Num(7.0));
    assert m == Ok(Num(0.0));
    var p := calculator.Power(Num(0.0), Num(0.0), math);
    assert p == Ok(Num(1.0));
    var z := calculator.Power(Num(0.0), Num(-1.0), math);
    assert z == Err(ZeroToNegativePower);
    var f := calculator.Factorial(Num(5.0));
    assert Arithmetic.Factorial(5) == 120;
    assert f == Ok(Num(120.0));
    var d := calculator.Divide(Num(1.0), Num(0.0));
    assert d == Err(DivisionByZero);
    var h := calculator.GetHistory();
    assert |h| == 2 && h[0].operation == ADD && h[1].operation == FACTORIAL;
    assert h[1].operands == [Num(5.0)];
    var removed := calculator.ClearHistory();
    assert removed == 2;
    h := calculator.GetHistory();
    assert h == [];
  }
}
