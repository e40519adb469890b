/**
 * The exactly specifiable arithmetic of the calculator: the shortcut
 * returns of `multiply` and `power`, the factorial, and the decimal
 * rounding `divide` applies to its quotient.
 */
module Arithmetic {
  import opened JsValues

  // ---------------------------------------------------------------------
  // multiply

  /**
   * The fast paths of `multiply`: a zero operand gives 0, a left operand 1
   * gives `b`, a right operand 1 gives `a`; any other pair of operands goes
   * on to the general product. Every shortcut value is the true product.
   */
  function MultiplyShortcut(a: real, b: real): (r: Option<real>)
    ensures r.Some? <==> (a == 0.0 || b == 0.0 || a == 1.0 || b == 1.0)
    ensures r.Some? ==> r.value == a * b
  {
    if a == 0.0 || b == 0.0 then Some(0.0)
    else if a == 1.0 then Some(b)
    else if b == 1.0 then Some(a)
    else None
  }

  // ---------------------------------------------------------------------
  // power

  /** `b` raised to a natural exponent, by repeated multiplication. */
  function NatPower(b: real, k: nat): (p: real)
    ensures b != 0.0 ==> p != 0.0
  {
    if k == 0 then 1.0 else b * NatPower(b, k - 1)
  }

  /** `b` raised to an integer exponent; a negative one needs `b != 0`. */
  function IntPower(b: real, k: int): real
    requires b != 0.0 || k >= 0
  {
    if k >= 0 then NatPower(b, k) else 1.0 / NatPower(b, -k)
  }

  /**
   * What `power` does before its general `Math.pow` path, in the source's
   * order: exponent 0 gives 1 (even for base 0), then base 0 with a negative
   * exponent throws, then base 1 gives 1, then base -1 gives 1 or -1 by
   * `exponent % 2 === 0`. `None` means the general path is taken.
   */
  function PowerShortcut(base: real, exponent: real): Option<Result<real>>
  {
    if exponent == 0.0 then Some(Ok(1.0))
    else if base == 0.0 && exponent < 0.0 then Some(Err(ZeroToNegativePower))
    else if base == 1.0 then Some(Ok(1.0))
    else if base == -1.0 then Some(Ok(if Remainder(exponent, 2.0) == 0.0 then 1.0 else -1.0))
    else None
  }

  /** Powers of -1 alternate between 1 and -1. */
  lemma {:induction false} NegOnePower(k: nat)
    ensures NatPower(-1.0, k) == if k % 2 == 0 then 1.0 else -1.0
  {
    if k > 0 {
      NegOnePower(k - 1);
    }
  }

  /** Powers of 1 are 1. */
  lemma {:induction false} OnePower(k: nat)
    ensures NatPower(1.0, k) == 1.0
  {
    if k > 0 {
      OnePower(k - 1);
    }
  }

  /**
   * For an integer exponent every shortcut of `power` is exact: it throws
   * exactly when the power is undefined (0 to a negative exponent) and
   * otherwise returns the mathematical power.
   */
  lemma PowerShortcutExact(base: real, k: int)
    ensures var s := PowerShortcut(base, k as real);
      s.Some? ==>
        (s.value.Err? <==> (base == 0.0 && k < 0)) &&
        (s.value.Ok? ==> s.value.value == IntPower(base, k))
  {
    var s := PowerShortcut(base, k as real);
    if s.Some? && s.value.Ok? && k != 0 {
      if base == 1.0 {
        OnePower(if k >= 0 then k else -k);
      } else {
        assert base == -1.0;
        var m: nat := if k >= 0 then k else -k;
        NegOnePower(m);
        RemainderTwoZero(k as real);
        assert (k as real).Floor == k;
        assert m % 2 == 0 <==> k % 2 == 0;
      }
    }
  }

  // ---------------------------------------------------------------------
  // factorial

  /** The mathematical factorial n!. */
  function Factorial(n: nat): (f: nat)
    ensures f >= 1
    ensures f >= n
  {
    if n == 0 then 1 else n * Factorial(n - 1)
  }

  /** The product 2 * 3 * ... * n that `factorial`'s loop accumulates (1 when empty). */
  function ProductFromTwo(n: nat): nat
  {
    if n < 2 then 1 else ProductFromTwo(n - 1) * n
  }

  /** The loop's product is n!. */
  lemma {:induction false} ProductIsFactorial(n: nat)
    ensures ProductFromTwo(n) == Factorial(n)
  {
    if n >= 2 {
      ProductIsFactorial(n - 1);
      assert ProductFromTwo(n) == ProductFromTwo(n - 1) * n;
      assert Factorial(n) == n * Factorial(n - 1);
    }
  }

  // ---------------------------------------------------------------------
  // divide: parseFloat(x.toFixed(f))

  /** 10^f. */
  function Pow10(f: nat): (p: nat)
    ensures p >= 1
  {
    if f == 0 then 1 else 10 * Pow10(f - 1)
  }

  /** Numbers at or above 10^21 are printed as they are by `toFixed`. */
  const ToFixedLimit: real := 1000000000000000000000.0

  /** The largest `fractionDigits` that `toFixed` accepts. */
  const MaxFractionDigits: int := 100

  /**
   * `x.toFixed(f)` parsed back, for `x >= 0` and `p == 10^f`: the integer
   * `n` with `n / p` nearest to `x`, the larger one on a tie, over `p`.
   */
  function RoundMagnitude(x: real, p: real): real
    requires x >= 0.0 && p >= 1.0
  {
    if x >= ToFixedLimit then x else (x * p + 0.5).Floor as real / p
  }

  /** A negative number is rounded as its magnitude and gets its sign back. */
  function RoundSigned(x: real, p: real): real
    requires p >= 1.0
  {
    if x < 0.0 then -RoundMagnitude(-x, p) else RoundMagnitude(x, p)
  }

  /** `parseFloat(x.toFixed(f))` on an exact real (ties go away from zero). */
  function ToFixed(x: real, f: nat): real
  {
    RoundSigned(x, Pow10(f) as real)
  }

  /** The digit count `toFixed` takes from `this.precision`, or its RangeError. */
  function FractionDigits(precision: int): Result<nat>
  {
    if precision < 0 || precision > MaxFractionDigits then Err(ToFixedRange) else Ok(precision)
  }

  function Abs(x: real): real {
    if x < 0.0 then -x else x
  }

  /** `x` is a whole number of units `1 / p`. */
  predicate OnGrid(x: real, p: real) {
    IsIntegral(x * p)
  }

  /** `x` has at most `f` fractional decimal digits. */
  predicate HasAtMostDigits(x: real, f: nat) {
    OnGrid(x, Pow10(f) as real)
  }

  lemma IntegralOf(y: real, k: int)
    requires y == k as real
    ensures IsIntegral(y)
  {
  }

  lemma OnGridNegateOne(x: real, p: real)
    requires OnGrid(x, p)
    ensures OnGrid(-x, p)
  {
    var k := (x * p).Floor;
    assert (-x) * p == -(x * p);
    IntegralOf((-x) * p, -k);
  }

  lemma OnGridNegate(x: real, p: real)
    ensures OnGrid(-x, p) <==> OnGrid(x, p)
  {
    if OnGrid(x, p) {
      OnGridNegateOne(x, p);
    }
    if OnGrid(-x, p) {
      OnGridNegateOne(-x, p);
      assert -(-x) == x;
    }
  }

  /** Below 10^21 a rounded magnitude is a whole number of units `1 / p`. */
  lemma RoundMagnitudeOnGrid(x: real, p: real)
    requires 0.0 <= x < ToFixedLimit && p >= 1.0
    ensures RoundMagnitude(x, p) * p == (x * p + 0.5).Floor as real
    ensures OnGrid(RoundMagnitude(x, p), p)
  {
    var n := (x * p + 0.5).Floor;
    assert RoundMagnitude(x, p) * p == n as real;
    IntegralOf(RoundMagnitude(x, p) * p, n);
  }

  /** Below 10^21 a rounded magnitude is off by at most half a unit `1 / p`. */
  lemma RoundMagnitudeError(x: real, p: real)
    requires 0.0 <= x < ToFixedLimit && p >= 1.0
    ensures -0.5 < (RoundMagnitude(x, p) - x) * p <= 0.5
  {
    var n := (x * p + 0.5).Floor;
    RoundMagnitudeOnGrid(x, p);
    assert (RoundMagnitude(x, p) - x) * p == n as real - x * p;
  }

  /** A magnitude that is already a whole number of units `1 / p` is kept. */
  lemma RoundMagnitudeKeepsGrid(m: real, p: real)
    requires m >= 0.0 && p >= 1.0 && OnGrid(m, p)
    ensures RoundMagnitude(m, p) == m
  {
    if m < ToFixedLimit {
      var k := (m * p).Floor;
      assert (m * p + 0.5).Floor == k;
      assert k as real / p == m;
    }
  }

  lemma RoundSignedOnGrid(x: real, p: real)
    requires Abs(x) < ToFixedLimit && p >= 1.0
    ensures OnGrid(RoundSigned(x, p), p)
  {
    RoundMagnitudeOnGrid(Abs(x), p);
    OnGridNegate(RoundMagnitude(Abs(x), p), p);
  }

  lemma RoundSignedError(x: real, p: real)
    requires Abs(x) < ToFixedLimit && p >= 1.0
    ensures -1.0 <= 2.0 * (RoundSigned(x, p) - x) * p <= 1.0
  {
    var m := Abs(x);
    var r := RoundMagnitude(m, p);
    RoundMagnitudeError(m, p);
    if x < 0.0 {
      assert (RoundSigned(x, p) - x) * p == -((r - m) * p);
    } else {
      assert (RoundSigned(x, p) - x) * p == (r - m) * p;
    }
  }

  lemma RoundSignedKeepsGrid(x: real, p: real)
    requires p >= 1.0 && OnGrid(x, p)
    ensures RoundSigned(x, p) == x
  {
    OnGridNegate(x, p);
    RoundMagnitudeKeepsGrid(Abs(x), p);
  }

  /** Below 10^21 the rounded value has at most `f` fractional digits. */
  lemma ToFixedHasDigits(x: real, f: nat)
    requires Abs(x) < ToFixedLimit
    ensures HasAtMostDigits(ToFixed(x, f), f)
  {
    RoundSignedOnGrid(x, Pow10(f) as real);
  }

  /** Below 10^21 the rounded value is within half a unit of the last kept digit. */
  lemma ToFixedError(x: real, f: nat)
    requires Abs(x) < ToFixedLimit
    ensures -1.0 <= 2.0 * (ToFixed(x, f) - x) * Pow10(f) as real <= 1.0
  {
    RoundSignedError(x, Pow10(f) as real);
  }

  /** A number that already has at most `f` fractional digits is kept. */
  lemma ToFixedKeepsGrid(x: real, f: nat)
    requires HasAtMostDigits(x, f)
    ensures ToFixed(x, f) == x
  {
    RoundSignedKeepsGrid(x, Pow10(f) as real);
  }

  /** Rounding twice to the same precision is rounding once. */
  lemma ToFixedIdempotent(x: real, f: nat)
    ensures ToFixed(ToFixed(x, f), f) == ToFixed(x, f)
  {
    if Abs(x) < ToFixedLimit {
      ToFixedHasDigits(x, f);
      ToFixedKeepsGrid(ToFixed(x, f), f);
    }
  }
}
