# Calculator input state machine

A model of the four-function calculator in `script.js`. The calculator keeps
four module-level variables: `currentInput` (the operand text typed so far),
`operator`, `firstOperand` and `waitingForSecondOperand`. It also writes to
the display's text. Four handlers update this state:

- `appendToDisplay` handles a digit or a decimal point;
- `setOperator` records an operator and, when a second operand was typed,
  computes the pending operation first;
- `calculateResult` handles `=`;
- `clearDisplay` resets everything.

The pure helper `performCalculation` applies the operator and turns a
division by zero into the text `"Error"`.

Files:

- `values.dfy` (module `Values`): the values the calculator stores (`Num`,
  `NaN`, `Str`; `"Error"` is `Str("Error")`), `String(v)` as `Show`, the
  operator symbols, and JavaScript's `+ - * /` on numbers. `parseFloat`, the
  printing of a number and string coercion are fields of a `Host` value that
  the model takes as a parameter. `Host.Valid` holds only facts JavaScript
  guarantees: `parseFloat("")`, `parseFloat("NaN")` and `parseFloat("Error")`
  are NaN, `parseFloat` always yields a number, and no number prints as
  `"Error"` or as empty text.
- `calculation.dfy` (module `Calculation`): `performCalculation`.
- `calcspec.dfy` (module `CalcSpec`): the state as a value and each handler
  as a function from the old state to the new one. The contracts give every
  case of every handler. `Inv` is the invariant: waiting implies no operand
  text, and an operator implies a first operand. Every handler preserves it,
  so it holds after any sequence of events (`Run`). This module also holds the
  lemmas relating several calls.
- `machine.dfy` (module `Machine`): the calculator as the page runs it. Class
  `Calculator` has the five variables as mutable fields. Its four methods
  follow the handlers statement by statement, early returns included. Each
  method is proved to produce exactly the state the matching `CalcSpec`
  function gives, and to keep `Inv`.
- `scenarios.dfy` (module `Scenarios`): whole key sequences and the display
  they end with: chaining, operator replacement, division by zero and
  recovery, `=` with no operator, and reuse of a result. Two of them are also
  proved of the `Calculator` class itself.

Behaviours of the code a reader may not expect:

- After `=`, `currentInput` becomes the result's own text (script.js:104).
  So a second `=` parses that text again; it does not see an empty second
  operand. With no operator left, the parsed value passes through unchanged.
  `CalcSpec.RepeatedEqualsKeepsNumber` says a numeric result stays as it is,
  provided its text parses back to the same number.
- `"Error"` is the only failure text `performCalculation` documents
  (script.js:113), but it does not always persist. After `x / 0 =`, both a
  second `=` and an operator press parse the stored text `"Error"` as NaN,
  run the pending computation with no operator, and so show `"NaN"`
  (`CalcSpec.RepeatedEqualsAfterDivisionByZero`,
  `CalcSpec.OperatorAfterDivisionByZero`; the `null` operator returns `num2`,
  script.js:68 and 128-129).
- When the division by zero happens inside a chain (`8 / 0 +`), the operator
  press computes it at script.js:65-71 and leaves the operand text empty.
  Further operator presses then only replace the operator, and `"Error"`
  stays on the display. The next `=` parses the empty text as NaN
  (script.js:95) and applies the pending operator to the stored `'Error'`
  string and NaN. That is JavaScript's coercion, which the model leaves to
  the host (`Scenarios.ChainedDivisionByZero`).
- The comment at script.js:66 presents `!waitingForSecondOperand` as the
  test that decides whether to compute. In every reachable state that test
  is true whenever it is evaluated (`CalcSpec.ChainingGuardNeverFails`). What
  stops a repeated operator press from recomputing is the
  operator-replacement early return at script.js:54-57
  (`CalcSpec.RepeatedOperatorOnlyReplaces`).

## Model

| member | source | states |
|---|---|---|
| `Values.Show` | script.js:99-104 | the text written to the display and kept by `toString()`: a number prints as the host formats it, NaN as `"NaN"`, a string as itself; for a valid host it is `"Error"` exactly for the sentinel, and empty only for the empty string |
| `Values.OpOf` | script.js:116-123 | `"+"`, `"-"`, `"*"` and `"/"` select the four cases of the switch; every other symbol, and null, selects none |
| `Values.Arith` | script.js:117-127 | two numbers give their sum, difference, product or quotient; NaN absorbs; a string operand hands the result to the host's coercion |
| `Calculation.PerformCalculation` | script.js:115-131 | sum, difference, product and quotient of two numbers; `"Error"` when the divisor is exactly 0 and, for numeric operands, only then; NaN propagates; a null or unknown operator returns `num2` |
| `CalcSpec.ClearDisplay` | script.js:38-44 | from any state: empty operand text, no operator, no first operand, not waiting, blank display; the result satisfies the invariant |
| `CalcSpec.AppendToDisplay` | script.js:14-33 | an `"Error"` display resets first, leaving exactly the typed value as operand and display; after an operator the value replaces the operand text and clears the flag; a second `.` changes nothing; otherwise the value is appended; whenever the state changes the display equals the operand text; preserves the invariant |
| `CalcSpec.SetOperator` | script.js:51-76 | with no operand text and a first operand only the operator changes; otherwise it ends waiting, with the new operator and empty operand text; a missing first operand becomes `parseFloat(currentInput)` with the display untouched; a typed second operand makes first operand and display the result of the pending operation; while waiting nothing is computed; preserves the invariant |
| `CalcSpec.CalculateResult` | script.js:81-106 | no-op with nothing entered; with only an operand, just the display shows its parsed value; otherwise display, first operand and operand text become the result, the operator is cleared and the flag is false; with a numeric first operand the display reads `"Error"` exactly on division by zero; preserves the invariant |
| `CalcSpec.Step` | script.js:14-106 | each input event runs one handler, and every handler preserves the invariant |
| `CalcSpec.RunPreservesInv` | script.js:22-105 | from a state satisfying the invariant, any sequence of events leads to a state satisfying it (induction on the events) |
| `CalcSpec.ReachableInv` | script.js:5-8 | the initial values satisfy the invariant, so every reachable state does |
| `CalcSpec.ChainingGuardNeverFails` | script.js:54-71 | in a reachable state that gets past operator replacement with a first operand, the calculator is not waiting, so the pending computation always runs |
| `CalcSpec.RepeatedOperatorOnlyReplaces` | script.js:54-75 | a second operator press straight after a first only replaces the operator |
| `CalcSpec.ClearIdempotent` | script.js:38-44 | clearing twice is clearing once, and both give the initial state with a blank display |
| `CalcSpec.SecondDecimalPointIgnored` | script.js:26-30 | typing `.` twice in a row leaves the state as the first `.` left it |
| `CalcSpec.EqualsLeavesResultAsOperand` | script.js:99-105 | after `=` with a first operand, display and operand text agree, no operator is pending, and the operand text is empty only if the result is the empty string |
| `CalcSpec.RepeatedEqualsKeepsNumber` | script.js:83-105 | a second `=` leaves the state unchanged when the result is NaN, or is a number whose text parses back to itself |
| `CalcSpec.RepeatedEqualsAfterDivisionByZero` | script.js:95-104 | a division by zero shows `"Error"`, and a second `=` then shows `"NaN"` |
| `CalcSpec.OperatorAfterDivisionByZero` | script.js:60-71 | a division by zero shows `"Error"`, and an operator pressed next shows `"NaN"` and keeps NaN as the first operand |
| `Machine.Calculator.constructor` | script.js:5-8 | the fields equal `CalcSpec.Initial(shown)`: the four variables start empty, null, null and false, and the display keeps the page's text; the invariant holds |
| `Machine.Calculator.AppendToDisplay` | script.js:14-33 | the fields end exactly as `CalcSpec.AppendToDisplay` gives; the invariant is kept |
| `Machine.Calculator.ClearDisplay` | script.js:38-44 | the fields end exactly as `CalcSpec.ClearDisplay` gives; the invariant is established |
| `Machine.Calculator.SetOperator` | script.js:51-76 | the fields end exactly as `CalcSpec.SetOperator` gives; the invariant is kept |
| `Machine.Calculator.CalculateResult` | script.js:81-106 | the fields end exactly as `CalcSpec.CalculateResult` gives; the invariant is kept |
| `Scenarios.ChainedOperatorsComputeLeftToRight` | script.js:65-71 | `6 + 4 * 2 =` shows 20: the second operator computes `6 + 4` first |
| `Scenarios.OperatorReplacement` | script.js:54-57 | `5 + - 3 =` shows 2: the `-` replaces the `+` without computing |
| `Scenarios.DivisionByZeroAndRecovery` | script.js:123-126 | `8 / 0 =` shows `"Error"`; then typing `1` takes the reset at script.js:16-18 and leaves exactly `"1"` as operand and display with everything else reset |
| `Scenarios.ChainedDivisionByZero` | script.js:54-71 | `8 / 0 + -` leaves `"Error"` displayed and stored, with `-` pending and the operand text empty; a following `=` stores the host's coercion of `'Error' - NaN` |
| `Scenarios.EqualsWithoutOperator` | script.js:89-92 | `9 =` shows 9 and changes nothing else |
| `Scenarios.ResultIsReused` | script.js:101-104 | `2 + 3 = + 10 =` shows 15: the first result becomes the next first operand |
| `Scenarios.ChainOnCalculator` | script.js:51-106 | the `Calculator` class shows 20 after `6 + 4 * 2 =` |
| `Scenarios.DivideByZeroOnCalculator` | script.js:14-18 | the `Calculator` class shows `"Error"` after `8 / 0 =` and `"1"` after the next `1` |

## Left out

- The page element (script.js:2) and its rendering. The display is a plain
  string field, and its text on page load is a constructor parameter.
- IEEE-754 arithmetic. A finite number is an exact `real`, so rounding,
  overflow to Infinity and negative zero are not modelled.
- `parseFloat` and number printing are used only through `Host`, with the
  facts listed above. Which text parses to which number is a requirement of
  each scenario lemma.
- Values.Arith: does not say what `+ - * /` give when an operand is a string,
  such as the stored `"Error"`. JavaScript's coercion (string concatenation for
  `+`, NaN for the others) is left to the host's `coerce` function.
- Calculation.PerformCalculation: says what it returns for a string `num1`
  only for a division by exactly zero and for an unknown operator. Other
  cases are handed to the host's coercion, for the reason given under
  `Values.Arith`.
- The HTML wiring advice in comments (script.js:133-142) contains no logic.
- Concurrency: the handlers run one at a time on the page's event loop, and
  the model is sequential.
