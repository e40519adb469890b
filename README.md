# MathCalculator, modelled in Dafny

This project models the `MathCalculator` class of `test.js`: a calculator
object with a `precision` setting (decimal places for `divide`), a `debug`
flag and an append-only `history` of operation records
`{ operation, operands, result }`. Every operation checks its inputs,
computes a result and, depending on the operation and on the path taken,
appends one record to the history. The policy for logging varies:

- `add`, `subtract`, `divide` and `sqrt` log on every path that does not throw.
  For `sqrt` this includes the shortcut for 0 and 1.
- `multiply` logs only on its general path. A zero operand, or an operand
  equal to 1, returns early without a record.
- `power` logs only on its general `Math.pow` path. These cases return or
  throw without a record:
  - exponent 0 returns 1, even for base 0, because that test comes first;
  - base 0 with a negative exponent throws;
  - base 1 returns 1;
  - base -1 returns 1 or -1, by `exponent % 2 === 0`.
- `factorial` logs `[n]` only when `n > 1`.
- `circleArea`, `rectanglePerimeter`, `sin`, `cos`, `degreesToRadians`,
  `mean` and `median` print to the console but never log. In the model these
  methods have no `modifies` clause, so they cannot change the calculator.

The files:

- `js_values.dfy` (module `JsValues`): JavaScript values. A finite number is an
  exact `real`. There are separate cases for `NaN`, `Infinity`, `-Infinity` and
  "not a number at all", so the source's `typeof`, `isFinite` and
  `Number.isInteger` checks can be stated. It also holds JavaScript's
  truncating `%`, and one `Failure` per error message the class throws.
  A throw is an `Err` result.
- `arithmetic.dfy` (module `Arithmetic`): the fast paths of `multiply` and
  `power`, the factorial product, and the rounding `divide` applies.
  `divide` calls `parseFloat(result.toFixed(this.precision))`; the model
  rounds the exact quotient to `f` decimal places:
  - ties go away from zero;
  - magnitudes of 10^21 or more are kept as they are;
  - `toFixed` throws a RangeError when the digit count is outside 0..100.
- `statistics.dfy` (module `Statistics`): the sum that `mean` reduces to, a
  reference ascending sort, and the middle-element rule of `median`.
- `calculator.dfy` (module `Calculator`): the class with its fields and one
  method per operation. It ends with `Session`, a client that chains a few
  calls and uses only their contracts.

Calls into the floating-point library (`Math.sqrt`, `Math.pow`, `Math.sin`,
`Math.cos`) cannot be computed exactly. They are the fields of a
`MathLibrary` value that the caller passes in. `Math.PI` is the decimal
constant `PI`.

A few plain facts about `test.js` that the model keeps:

- `add` performs no overflow check and has no fast path (test.js:22-32).
- `factorial` has no upper bound on `n` (test.js:111-125).
- `sqrt` returns `Math.sqrt` unrounded (test.js:142).
- `mean` writes no history record (test.js:229-242).

## Model

| member | source | states |
|---|---|---|
| `Calculator.MathCalculator.constructor` | test.js:10-14 | the precision defaults to 10; the history starts empty; `debug` starts false |
| `Calculator.MathCalculator.ValidateNumbers` | test.js:305-311 | passes if and only if every argument is a finite number; otherwise fails with "All parameters must be finite numbers" |
| `Calculator.MathCalculator.LogOperation` | test.js:317-325 | appends exactly one record at the end; the earlier records are unchanged |
| `Calculator.MathCalculator.Add` | test.js:22-32 | non-finite input throws and logs nothing; otherwise returns `a + b` and appends one `ADD` record `[a, b]` |
| `Calculator.MathCalculator.Subtract` | test.js:40-45 | non-finite input throws and logs nothing; otherwise returns `a - b` and appends one `SUBTRACT` record |
| `Calculator.MathCalculator.Multiply` | test.js:53-64 | always returns `a * b`; the history is unchanged when an operand is 0 or 1; otherwise one `MULTIPLY` record is appended; non-finite input throws with no record |
| `Arithmetic.MultiplyShortcut` | test.js:56-59 | a fast path is taken exactly when an operand is 0 or 1, and every fast-path value is the true product |
| `Calculator.MathCalculator.Divide` | test.js:72-83 | non-finite input throws; divisor 0 throws "Division by zero"; a precision outside 0..100 throws the RangeError of `toFixed`; otherwise returns the rounded quotient and appends one `DIVIDE` record; no record on any throw |
| `Arithmetic.RoundMagnitude` | test.js:80 | no contract of its own: `toFixed` on a non-negative magnitude (nearest multiple of `1 / p`, ties upward, 10^21 and above kept); its properties are stated by `RoundMagnitudeOnGrid`, `RoundMagnitudeError` and `RoundMagnitudeKeepsGrid` |
| `Arithmetic.RoundSigned` | test.js:80 | no contract of its own: a negative number is rounded as its magnitude and gets its sign back (ties away from zero); its properties are stated by `RoundSignedOnGrid`, `RoundSignedError` and `RoundSignedKeepsGrid` |
| `Arithmetic.ToFixed` | test.js:80 | no contract of its own: `parseFloat(x.toFixed(f))` on an exact real; its properties are stated by `ToFixedHasDigits`, `ToFixedError`, `ToFixedKeepsGrid` and `ToFixedIdempotent` |
| `Arithmetic.ToFixedHasDigits` | test.js:80 | below 10^21 the rounded quotient has at most `precision` fractional digits |
| `Arithmetic.ToFixedError` | test.js:80 | below 10^21 the rounded quotient is within half a unit of the last kept digit of the exact quotient |
| `Arithmetic.ToFixedKeepsGrid` | test.js:80 | a number that already has at most `precision` fractional digits is returned unchanged |
| `Arithmetic.ToFixedIdempotent` | test.js:80 | rounding twice to the same precision is the same as rounding once |
| `Calculator.MathCalculator.Power` | test.js:91-104 | exponent 0 returns 1 (even for base 0) with no record; base 0 with a negative exponent throws with no record; the other fast paths return without a record; only the general path returns `Math.pow` and appends one `POWER` record |
| `Arithmetic.PowerShortcut` | test.js:94-99 | no contract of its own: the four fast paths of `power` in the source's branch order, or `None` for the general path; `PowerShortcutExact` relates them to the mathematical power |
| `Arithmetic.PowerShortcutExact` | test.js:94-99 | for an integer exponent every fast path of `power` agrees with the mathematical power, and it throws exactly when that power is undefined (0 to a negative exponent) |
| `Arithmetic.NegOnePower` | test.js:99 | the powers of -1 alternate between 1 and -1 by parity, which is what the base -1 fast path returns |
| `Arithmetic.OnePower` | test.js:98 | every power of 1 is 1, which is what the base 1 fast path returns |
| `JsValues.RemainderTwoZero` | test.js:99 | `exponent % 2 === 0` (JavaScript's truncating remainder) holds exactly for the even integers |
| `Calculator.MathCalculator.Factorial` | test.js:111-125 | a non-integer or negative `n` throws with no record; otherwise returns the mathematical n!; `n <= 1` logs nothing; `n > 1` appends one `FACTORIAL` record with the single operand `[n]` |
| `Arithmetic.ProductFromTwo` | test.js:118-121 | no contract of its own: the product 2 * 3 * ... * n the loop accumulates; `ProductIsFactorial` proves it equals n! |
| `Arithmetic.ProductIsFactorial` | test.js:118-121 | the loop's product 2 * 3 * ... * n equals n! |
| `Calculator.MathCalculator.Sqrt` | test.js:132-145 | a non-number or a negative number throws with no record (NaN and Infinity pass); 0 and 1 are returned as they are and ARE logged; otherwise the library root is returned and logged |
| `Calculator.MathCalculator.CircleArea` | test.js:154-162 | throws for a non-number or a negative radius; returns pi r^2, which is not negative; NaN and Infinity pass through; no record |
| `Calculator.MathCalculator.RectanglePerimeter` | test.js:170-182 | non-finite sides throw; a side <= 0 throws "Dimensions must be positive"; otherwise returns the sum of the four sides, which exceeds twice either side; no record |
| `Calculator.MathCalculator.Sin` | test.js:191-196 | throws for a non-finite angle, otherwise the library sine; no record |
| `Calculator.MathCalculator.Cos` | test.js:203-208 | throws for a non-finite angle, otherwise the library cosine; no record |
| `Calculator.MathCalculator.DegreesToRadians` | test.js:215-220 | throws for a non-finite angle; otherwise the result is in proportion to the input, with 180 degrees giving pi; no record |
| `Calculator.MathCalculator.Mean` | test.js:229-242 | an empty array throws; any non-finite element throws; otherwise returns the sum over the count; no record |
| `Statistics.Sum` | test.js:234-237 | no contract of its own: the left-to-right sum of the `reduce`; `SumBounds` bounds it |
| `Statistics.Mean` | test.js:239 | no contract of its own: the sum over the count; `MeanWithinBounds` states that it lies between the bounds of the elements |
| `Statistics.SumBounds` | test.js:234-237 | a sum of n terms between `lo` and `hi` lies between `n * lo` and `n * hi` |
| `Statistics.MeanWithinBounds` | test.js:234-239 | the mean lies between any lower bound and any upper bound of the elements |
| `Calculator.MathCalculator.Median` | test.js:249-263 | an empty array throws; otherwise the result is the middle element (odd length) or the average of the two middle elements (even length) of EVERY ascending permutation of the input; at most half the inputs are below it and at most half above; the caller's array and the history are unchanged |
| `Statistics.MiddleOf` | test.js:255-259 | no contract of its own: the middle element of an odd-length sequence, or the average of the two middle ones; `MiddleSplitsInHalf` states that it splits an ascending sequence in half |
| `Statistics.Median` | test.js:249-259 | no contract of its own: throws on an empty input, otherwise the middle of the sorted copy; `MedianOfAnySort` and `MedianSplitsInHalf` state its properties |
| `Statistics.Sort` | test.js:254 | the sorted copy is ascending and a permutation of the input |
| `Statistics.AscendingPermutationUnique` | test.js:254 | two ascending permutations of the same numbers are equal, so the result does not depend on the sort algorithm |
| `Statistics.MedianOfAnySort` | test.js:254-259 | `median` takes the middle of any ascending permutation of its input, and throws on an empty input |
| `Statistics.MiddleSplitsInHalf` | test.js:255-259 | the middle of an ascending sequence has at most half of the elements below it and at most half above |
| `Statistics.MedianSplitsInHalf` | test.js:249-259 | the median is a median in the statistical sense: at most half of the input is below it and at most half above |
| `Calculator.MathCalculator.GetHistory` | test.js:271-273 | returns a sequence equal to the history |
| `Calculator.MathCalculator.ClearHistory` | test.js:278-282 | the history becomes empty, and the count reported equals its previous length |
| `Calculator.MathCalculator.SetPrecision` | test.js:288-297 | a value that is not a non-negative integer throws and leaves the precision unchanged; any other value becomes the precision, including one above 15 (which only warns) |

## Left out

- Console output is not modelled. This covers every `console.log` and `console.warn`, the `debug` line of `add`, and the operand string and symbol table of `_logOperation` (`_getOperationSymbol`). It is presentational I/O.
- The timestamp of a history record is left out. It is a clock read (`new Date().toISOString()`).
- IEEE-754 arithmetic is not modelled, because numbers are exact reals. As a result:
  - there is no overflow to Infinity (for example `factorial` of 171 or more, which the source does not check);
  - there is no negative zero;
  - sums, products and quotients are not rounded to binary floating point before `toFixed` sees them.
- The results of `Math.sqrt`, `Math.pow`, `Math.sin` and `Math.cos` are parameters (`MathLibrary`), not computed. `Math.PI` is its 16-digit decimal.
- Module wiring is left out: the `calculator` and `debugCalculator` instances, the Portuguese aliases and `module.exports`. They are thin wrappers.
- Calculator.MathCalculator.Power: for base -1 with a non-integer exponent, the model does what the code does: it returns ±1 by the `%` test, where `Math.pow` would give NaN. Only integer exponents are related to the mathematical power.
- Calculator.MathCalculator.constructor: takes an integer precision. The source stores whatever it is given, and `toFixed` later converts it.
- Calculator.MathCalculator.Mean: the argument is an array. A non-array argument, which the source rejects with `Array.isArray`, cannot be expressed.
- Calculator.MathCalculator.Median: covers arrays of finite numbers only. The source does not validate the elements, and the model does not give a result for arrays that contain other values. In the source, NaN makes the comparator `a - b` inconsistent, so the order depends on the JavaScript engine. Other values do have a determined result that the model cannot express: ±Infinity (a NaN comparison between two equal infinities counts as equal, so `median([1, Infinity, 2])` is 2); `undefined`, which is sorted last without calling the comparator; and `null`, booleans and numeric strings, which convert to numbers consistently. Modelling them would need an extended order and an arithmetic with infinities and type conversion.
- Calculator.MathCalculator.GetHistory: the source's copy is shallow, so a caller can still change the entry objects inside it. Here an entry is an immutable value, so that kind of aliasing cannot be expressed.
- Calculator.MathCalculator.ClearHistory: returns the number of records removed. The source only prints this number.
