# Calculator reducer, modelled in Dafny

This project models the logic of a small React calculator (src/App.js): the
reducer that turns each dispatched intent (ADD_DIGIT, CLEAR, DELETE_DIGIT,
CHOOSE_OPERATION, EVALUATE) into a new `{currentOperand, previousOperand,
operation}` record, the binary `evaluate` it calls, and `formatOperand`, the
rule that renders an operand for display.

- `options.dfy` — `Option`, standing for both `null` and `undefined` (the code
  only ever tests `== null`).
- `evaluator.dfy` — `Evaluate`, returning `Ok(text)` or `DivByZero`. The thrown
  "Can't divide by zero" error, caught by the reducer, becomes the `DivByZero`
  value. A JavaScript number is a `Double` kept as its 64-bit pattern. `=== 0`
  is written out on that pattern. parseFloat, the four operators and
  `toString` are the fields of a `FloatOps` record that every evaluator and
  reducer member takes as a parameter, so each property holds for any choice
  of them.
- `display.dfy` — `String.prototype.split` on one character, and
  `FormatOperand`. The `Intl.NumberFormat` grouping is a parameter `group`.
- `calculator.dfy` — the state, the intents, one function for each `switch` case
  except CLEAR, which `Step` answers with `Empty` directly, and `Step`, the
  reducer. Also the lemmas about single transitions.
- `sessions.dfy` — `Run`, which dispatches a sequence of intents. Also the
  invariants that hold in every state reachable from `{}`.
- `scenarios.dfy` — concrete sessions: divide by zero, the second decimal
  point, negative entry, chaining, the deletion floor and display examples.

Three behaviours of the code are worth knowing:
- `+` and `*` are computed as `current op previous`, while `-` and `/` put
  `previous` first; the model follows the code. `EvaluateMeansArithmetic`
  shows that `+` and `*` agree with `previous op current` whenever the
  operator commutes.
- DELETE_DIGIT with no operand resets the whole state, pending operation
  included.
- A digit typed after `=` is appended to the result rather than replacing it.

## Model

| member | source | states |
|---|---|---|
| Evaluator.Evaluate | src/App.js:29-49 | fails exactly when the operator is `/`, both operands are numbers and the current (right-hand) one is zero; a NaN or absent operand, or an absent or unknown operator, gives `""`; any other result is a printed number |
| Evaluator.EvaluateMeansArithmetic | src/App.js:33-45 | for a known operator and two numbers (no zero divisor) the result is the printed value of `previous op current` (given `+`/`*` commute), and re-parses to that value when printing round-trips |
| Display.Split | src/App.js:22 | splitting on `.` gives at least one piece and no piece holds a dot |
| Display.SplitJoin | src/App.js:22 | joining the pieces of a split with `.` gives the text back |
| Display.SplitCount | src/App.js:22-23 | a split has one piece more than the text has dots, so the decimal part is missing exactly when no dot was typed |
| Display.FormatOperand | src/App.js:19-25 | absent stays absent; `"-"` is shown as `"-"`; an operand holding a `.` is shown verbatim; any other operand is shown grouped |
| Calculator.OnAddDigit | src/App.js:54-70 | ADD_DIGIT changes only `currentOperand`, leaves an operand present and keeps the earlier text as a prefix |
| Calculator.AddDigitCases | src/App.js:55-70 | `.` on absent gives `0.`, on `-` gives `-0.`, on an operand already holding `.` is a no-op; in every other case the digit or `.` is appended to the operand (absent read as `""`), so `3` then `.` gives `3.` and `0` then `0` gives `00` |
| Calculator.AddDigitKeepsOneDot | src/App.js:55-70 | typing one character never gives an operand a second decimal point |
| Calculator.OnDeleteDigit | src/App.js:75-80 | with no operand the state becomes `{}`; otherwise exactly the last character goes, `""` stays `""`, and `previousOperand`/`operation` are kept |
| Calculator.DeleteUndoesAddDigit | src/App.js:54-80 | DELETE_DIGIT after an ADD_DIGIT that appended one character restores the state |
| Calculator.OnChooseOperation | src/App.js:81-113 | CHOOSE_OPERATION keeps "operator pending iff operand committed"; once anything is typed the result is `{}` or has the chosen operator pending |
| Calculator.ChooseOperationOnNothing | src/App.js:82-84 | with both operands absent, `-` seeds `currentOperand = "-"` and any other operator changes nothing |
| Calculator.ChooseOperationCommits | src/App.js:85-91 | with no committed operand, the typed text (even `""` or `"-"`) becomes `previousOperand`, the operator is recorded and `currentOperand` is cleared |
| Calculator.ChooseOperationSwitches | src/App.js:92-96 | with an operator pending and nothing typed, only the operator is replaced |
| Calculator.ChooseOperationChains | src/App.js:99-113 | with both operands present, a division by zero gives `{}`; otherwise the evaluation result becomes `previousOperand` with the new operator pending |
| Calculator.LastOperatorWins | src/App.js:85-113 | once an operand is typed, choosing two operators in a row, when the first does not reset, leaves the same state as choosing only the second |
| Calculator.OnEquals | src/App.js:115-133 | EVALUATE leaves a state missing any of the three fields unchanged; a full triple is consumed, leaving `{}` or the result alone |
| Calculator.EqualsCases | src/App.js:115-133 | on a full triple: division by zero gives `{}`, otherwise `currentOperand` is the result and the other two fields are cleared |
| Calculator.EqualsIdempotent | src/App.js:115-133 | pressing `=` a second time changes nothing |
| Calculator.Step | src/App.js:52-137 | every intent keeps "operator pending iff operand committed"; CLEAR gives `{}` |
| Calculator.ClearIdempotent | src/App.js:72-73 | CLEAR gives `{}` from any state, so twice is the same as once |
| Sessions.RunAppend | src/App.js:141-143 | dispatching two batches of intents is dispatching their concatenation |
| Sessions.ClearEndsSession | src/App.js:72-73 | any session ending with CLEAR ends in `{}` |
| Sessions.RunKeepsPaired | src/App.js:52-137 | a session started in a paired state stays paired |
| Sessions.ReachablePaired | src/App.js:141-143 | in every state reachable from `{}`, `operation` is set exactly when `previousOperand` is |
| Sessions.EvaluateGivesOneDot | src/App.js:29-49 | when printing a number never yields two dots, no evaluation result does either |
| Sessions.StepKeepsWellFormed | src/App.js:52-137 | a keypad intent keeps a state well formed: paired, at most one dot per operand, and a pending operator one of `+ - * /` |
| Sessions.RunKeepsWellFormed | src/App.js:52-137 | a keypad session keeps a state well formed |
| Sessions.ReachableWellFormed | src/App.js:141-143 | every state a keypad session reaches from `{}` is well formed |
| Scenarios.DivideByZeroResets | src/App.js:40-43 | `{previous 8, operation /, current 0}` then EVALUATE gives `{}` |
| Scenarios.SecondDotIgnored | src/App.js:55-63 | `.` twice from `{}` gives `currentOperand = "0."` |
| Scenarios.NegativeEntry | src/App.js:82-84 | `-` from `{}` gives `currentOperand = "-"`, and `5` then gives `"-5"` |
| Scenarios.ChainingComputesEagerly | src/App.js:99-113 | `{5, +, 3}` then `*` gives `{previous 8, operation *}` when 3 + 5 prints as `8` |
| Scenarios.DeletionFloor | src/App.js:75-80 | `{current 7}` then two DELETE_DIGITs gives `{current ""}` |
| Scenarios.DeleteWithoutOperandResets | src/App.js:76 | DELETE_DIGIT with no operand drops a pending operation too |
| Scenarios.TypingAfterResultAppends | src/App.js:67-70 | a digit typed after a result is appended to it |
| Scenarios.FormatExamples | src/App.js:19-25 | `1234` is grouped, `1234.5` and `-` are verbatim, absent stays absent |

## Left out

- IEEE-754 semantics of parseFloat, `+ - * /` and `Number.prototype.toString`: they are the fields of `FloatOps`, not defined. Properties that need a fact about them take it as a precondition, for example that printing never gives two dots.
- `Intl.NumberFormat` grouping is the parameter `group`. Only `formatOperand`'s branching is modelled.
- `console.error` in the two catch blocks: logging with no effect on the returned state.
- The check `payload.digit === 0 && state.currentOperand === 0` (src/App.js:65) compares text with the number 0, so it never holds. It is omitted; leading zeros are kept (`AddDigitCases`).
- Digits 1-9 are dispatched as numbers, `0` and `.` as strings. The payload is modelled as text, which is what the template literal makes of it.
- The ACTIONS tag strings (src/App.js:8-14) and the `default: return state` branch: intents are a closed datatype, so an unknown action type cannot be expressed.
- `evaluate` is called twice at each of its two call sites: once inside the try block to detect the error, and again outside it for the value (src/App.js:101 and 110, 121 and 130). It is deterministic, so the model calls it once per site.
- The `App` component, its layout and button wiring (src/App.js:139-228) and src/components/operationButton.jsx: presentation only. `Run` stands for the sequence of dispatches.
