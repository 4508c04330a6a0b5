# Calculator view model, modelled in Dafny

A model of the computation core of a four-function calculator app: the
`CalculatorViewModel` of `Calculator/ViewModel/CalculatorViewModel.swift`.
Its state is the display text, the clear-button label (`"AC"` or `"C"`) and
the pending `Calculation`. The `Calculation` holds a first operand, an optional
second operand and the pending `CalculatorOperation`. Three button actions
move that state:

- `addDigit` extends the display, following its rules for the first key of a
  second operand, a leading zero and the six-character cap;
- `resetOperands` is the two-step clear driven by the button label;
- `perform(operation:)` records a binary operation, handles the negation
  key (which, as written, ends by blanking the display), or evaluates on
  equals through `calculateResult(for:)`.

Every action is a pure function from one immutable `State` to the next.
Numbers are Dafny `real`s. The platform's text/number conversions are
`Double(_:)`, `String(_:)` and `String(format:)` with `"%0.2f"` and `"%1.f"`.
The model does not interpret them: they are the four function-typed fields of
a `Platform` value passed to `Perform`. Lemmas that need a concrete
conversion say so in their `requires`.

Modules:

- `Options`: `Option`, for Swift's optionals.
- `Separator`: the comma/period swap at the display boundary, as a character map.
- `Numbers`: truncation toward zero, and `truncatingRemainder(dividingBy: 1)`.
- `Calculations`: `CalculatorOperation`, `Calculation` and `calculateResult`.
- `ViewModel`: the state and the three actions.
- `Sessions`: runs of button presses, and the properties that span several presses.

Assumption: the declarations of `Calculation` and its `reset()` lie outside
`CalculatorViewModel.swift`. `Calculations.Calculation` models the record from
its uses there, and the model takes `reset()` to set the first operand to 0, the second operand to
absent and the operation to `.none` (`Calculations.Zero`). The optional second
operand follows from `CalculatorViewModel.swift:41` and `:101`.

Behaviour of the code worth noting:

- The initial `Calculation` has second operand `0`, not absent (`:34-36`).
- An equals that evaluates nothing still stores the shown number as the
  second operand (`:78-79`), so it is not a no-op (`ViewModel.FailedEqualStoresOperand`).
- The negation key has no `return` (`:74-76`), so `perform` falls through to
  `display = "0"` (`:97`). The key blanks the display instead of showing the
  negated number, and the calculation is left alone (see "## Findings").
- `perform(operation: .none)` falls into the `default` branch. It records
  `.none` as the pending operation, stores the shown number as the first
  operand and shows "0".
- `calculateResult(for:)` reads the first operand from the view model's own
  record, not from its argument (`:104-113`). `Calculations.CalculateResult`
  takes both records. `Perform` passes the same record twice, as the source does.

`Sessions` drives the code as written (`ViewModel.Perform`). The corrected
`ViewModel.PerformIntended` differs from it only in what negation shows: it
yields the same state apart from the display. So the validity invariant holds
for it too, and the scenarios, which never press negation, are unchanged.

## Model

| member | source | states |
|---|---|---|
| Separator.Replace | Calculator/ViewModel/CalculatorViewModel.swift:71 | the swap keeps the length and, at each position, turns the replaced character into its replacement and keeps every other character |
| Separator.ReplaceEliminates | Calculator/ViewModel/CalculatorViewModel.swift:83 | after the swap no period is left in the displayed text |
| Separator.ReplaceRoundTrip | Calculator/ViewModel/CalculatorViewModel.swift:71-76 | swapping back undoes a swap when the target character did not occur in the text |
| Separator.NormalizeLocalize | Calculator/ViewModel/CalculatorViewModel.swift:71-76 | text without commas that is shown with a decimal comma reads back as the same parser input |
| Separator.NormalizeIgnoresLocalize | Calculator/ViewModel/CalculatorViewModel.swift:71-83 | the parser input read from a localized display equals the one read from the formatter's text, for any text |
| Numbers.Trunc | Calculator/ViewModel/CalculatorViewModel.swift:80 | truncation lies between zero and the number, less than one away from it |
| Numbers.TruncatingRemainder | Calculator/ViewModel/CalculatorViewModel.swift:80 | the remainder by 1 lies strictly between -1 and 1, has the number's sign, and leaves a whole number when subtracted |
| Numbers.RemainderZeroIffWhole | Calculator/ViewModel/CalculatorViewModel.swift:80 | the remainder by 1 is zero exactly when the number is whole, so the format choice asks whether the result has a fractional part |
| Calculations.CalculateResult | Calculator/ViewModel/CalculatorViewModel.swift:100-118 | no result exactly when the second operand is absent or the pending operation is not one of the five binary kinds |
| Calculations.ResultInvertsOperation | Calculator/ViewModel/CalculatorViewModel.swift:102-115 | each result undoes its operation with the first operand read from the view model's record: result minus second is first for addition, result plus second is first for subtraction, result times second is first for division, result over a nonzero second is first for multiplication (zero when second is zero), and 100 times the result is first times second for percentage |
| Calculations.ResultReadsOnlyFirstOperator | Calculator/ViewModel/CalculatorViewModel.swift:104-113 | reading the first operand from the view model's record gives the argument's own result whenever the two first operands agree |
| Calculations.PercentageSymmetric | Calculator/ViewModel/CalculatorViewModel.swift:111-115 | a note on operand order: over the reals, swapping the operand roles of percentage gives the same result, so the reversed roles matter only for floating-point rounding |
| ViewModel.AddDigit | Calculator/ViewModel/CalculatorViewModel.swift:39-56 | the label always becomes "C" and no second operand is awaited afterwards; when one was awaited, it becomes 0 and the display becomes the key; otherwise the calculation is unchanged, a "0" display is replaced by the key, a display of six or more is kept, and a shorter one gets the key appended; with single-character keys the display never grows past six |
| ViewModel.ResetOperands | Calculator/ViewModel/CalculatorViewModel.swift:58-68 | the display always becomes "0"; on "AC" the calculation is reset and the label stays "AC"; on "C" the calculation is kept and the label becomes "AC"; any other label is left alone |
| ViewModel.FormatResult | Calculator/ViewModel/CalculatorViewModel.swift:80-88 | a whole result is shown as the whole-number text; a fractional one is shown without any period and reads back as the two-decimal text would |
| ViewModel.Perform | Calculator/ViewModel/CalculatorViewModel.swift:70-98 | the label never changes; an unreadable display changes nothing; negation falls through to the final blanking and only sets the display to "0"; any other non-equals key stores the shown number as first operand and that key as pending operation, keeps the second operand and shows "0"; equals stores the shown number as second operand, and stops there when nothing evaluates; on a result it shows the formatted result, resets the calculation with the raw result as first operand, and marks the operation finished |
| ViewModel.PerformIntended | Calculator/ViewModel/CalculatorViewModel.swift:74-76 | the corrected negation: the same state as `Perform` apart from the display, which holds the negated number's text with a decimal comma; every other key is exactly `Perform` |
| ViewModel.NegationBlanksDisplay | Calculator/ViewModel/CalculatorViewModel.swift:74-97 | as written, negating a display reading 5 shows "0"; with Swift's text for -5.0, "-5.0", the corrected negation shows "-5,0" |
| ViewModel.NegateTwice | Calculator/ViewModel/CalculatorViewModel.swift:74-76 | with the corrected negation, the display reads back as the negated number, and negating twice shows the original number's text with the calculation untouched, given conversions that read their own text back |
| ViewModel.EqualWithoutPending | Calculator/ViewModel/CalculatorViewModel.swift:77-79 | equals with no binary operation pending keeps the display and label but stores the shown number as the second operand |
| ViewModel.FailedEqualStoresOperand | Calculator/ViewModel/CalculatorViewModel.swift:77-79 | on a fresh view model showing 7, equals keeps the display yet changes the state |
| Sessions.Step | Calculator/ViewModel/CalculatorViewModel.swift:39-98 | every action preserves validity: the label is "AC" or "C", and the pending operation is never negation or equals |
| Sessions.Run | Calculator/ViewModel/CalculatorViewModel.swift:39-98 | any run of presses from a valid state ends in a valid state |
| Sessions.ReachableValid | Calculator/ViewModel/CalculatorViewModel.swift:31-98 | every state reachable from a fresh view model is valid |
| Sessions.DoubleClearResets | Calculator/ViewModel/CalculatorViewModel.swift:58-68 | two clears in a row from any valid state reset the calculation, show "0" and leave "AC" |
| Sessions.ClearAfterEntry | Calculator/ViewModel/CalculatorViewModel.swift:39-68 | after a digit, the first clear keeps the calculation and arms "AC"; the second resets it |
| Sessions.EnterDigits | Calculator/ViewModel/CalculatorViewModel.swift:39-56 | typing digits never changes the pending operation or the first operand |
| Sessions.Room | Calculator/ViewModel/CalculatorViewModel.swift:51-53 | the keys still accepted never exceed the keys typed or push the display past six characters |
| Sessions.AppendDigits | Calculator/ViewModel/CalculatorViewModel.swift:46-55 | from a non-"0" display with no second operand awaited, typing appends each key until the display holds six characters and drops the rest |
| Sessions.TypeSignificantDigits | Calculator/ViewModel/CalculatorViewModel.swift:41-55 | a fresh entry whose first key is not "0" shows exactly the keys typed, up to six, and ignores every key after the sixth |
| Sessions.EnterDigitsAppend | Calculator/ViewModel/CalculatorViewModel.swift:39-56 | typing two key sequences one after the other is typing their concatenation |
| Sessions.LeadingZeros | Calculator/ViewModel/CalculatorViewModel.swift:41-49 | zero keys typed into a fresh entry keep the display at "0" and end any wait for the second operand |
| Sessions.TypeNumber | Calculator/ViewModel/CalculatorViewModel.swift:41-55 | in a fresh entry, leading "0" keys are dropped and the display shows exactly the remaining keys, up to six, ignoring later keys; zero keys alone show "0" |
| Sessions.SumScenario | Calculator/ViewModel/CalculatorViewModel.swift:70-104 | 5 + 3 = shows the whole-number text of 8 and keeps 8 as first operand |
| Sessions.QuotientScenario | Calculator/ViewModel/CalculatorViewModel.swift:77-106 | 1 / 3 = shows the two-decimal text with a decimal comma |
| Sessions.ChainedAddition | Calculator/ViewModel/CalculatorViewModel.swift:77-104 | plus, a key and equals after any readable display evaluate the shown number plus the key's number; after an equals the chain continues from the formatted result as it reads back, not from the raw one |

## Findings

| source | as written | input that shows it | evidently intended | confidence | as-written member | corrected member |
|---|---|---|---|---|---|---|
| Calculator/ViewModel/CalculatorViewModel.swift:74-97 | the negation case writes the negated text and then, lacking a `return`, falls through to `display = "0"` | display "5", then the negation key: the display shows "0" | the display shows the negated number's text with a decimal comma, "-5,0" for Swift's `String(-5.0)` | high; not executed | ViewModel.NegationBlanksDisplay | ViewModel.PerformIntended |

## Left out

- The SwiftUI/Combine plumbing: the `@Published` wrappers, the `ObservableObject` conformance and `CalculatorViewModelProtocol` (`:9-10`, `:23-32`). They only publish state to the screen.
- IEEE-754 `Double` semantics. Numbers are exact reals, so rounding, infinities and NaN are not modelled.
- Calculations.CalculateResult: division by zero is excluded by a precondition (`!DividesByZero`), because the source leaves it to floating point, which yields an infinity or NaN.
- ViewModel.Perform: equals with a pending division and a display that reads as 0 is excluded by `DivisionDefined`, for the same reason. `Sessions.Defined` carries that exclusion through runs of presses.
- Text/number conversion (`Double(_:)`, `String(_:)`, `String(format: "%0.2f")`, `String(format: "%1.f")`) is not interpreted. It enters as the `Platform` parameter, because its rounding and text forms belong to the platform.
- ViewModel.AddDigit: the cap `MaxDisplayLength` counts every character shown, including a comma or minus sign. Display length is the number of Dafny characters. Swift's `count` counts grapheme clusters, and the two agree for the single-character digit keys the buttons send.
- The declarations of `Calculation` and `Calculation.reset()` lie outside `CalculatorViewModel.swift`. The record is modelled from its uses, and the effect of `reset()` is assumed as stated above.
- `operationFinished` is kept as the plain field `finished`. The source writes it and never reads it.
