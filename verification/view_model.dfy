/** `CalculatorViewModel`: the display text, the clear-button label and the
    pending calculation, with the three actions the buttons invoke. Each
    action is a pure transition from one `State` to the next. */
module ViewModel {
  import opened Options
  import opened Separator
  import opened Numbers
  import opened Calculations

  /** The label of the clear button that fully resets the calculation. */
  const FullClear: string := "AC"

  /** The label of the clear button that only blanks the entry. */
  const SoftClear: string := "C"

  /** The display length at which digit entry stops appending. It counts
      every character shown, not only digits. */
  const MaxDisplayLength: nat := 6

  /** The platform's number/text conversions, which this model does not
      interpret: `Double(_:)` on text, `String(_:)` on a number, and
      `String(format:)` with "%0.2f" and with "%1.f". */
  datatype Platform = Platform(
    parse: string -> Option<real>,
    describe: real -> string,
    fixed2: real -> string,
    whole: real -> string)

  /** The view model's state. `finished` is `operationFinished`, which is
      written but never read. */
  datatype State = State(
    display: string,
    buttonText: string,
    operation: Calculation,
    finished: bool)

  /** The state of a freshly created view model. */
  const Init: State := State("0", FullClear, Initial, false)

  /** An operation other than `.none` is pending and entry of its second
      operand has not begun. */
  predicate AwaitsSecondOperand(c: Calculation) {
    !c.operation.NoOp? && c.secondOperator.None?
  }

  /** `addDigit(_:)`. */
  function AddDigit(s: State, digit: string): (t: State)
    ensures t.buttonText == SoftClear
    ensures t.finished == s.finished
    ensures !AwaitsSecondOperand(t.operation)
    ensures t.operation.firstOperator == s.operation.firstOperator
    ensures t.operation.operation == s.operation.operation
    ensures AwaitsSecondOperand(s.operation) ==>
      t.operation.secondOperator == Some(0.0) && t.display == digit
    ensures !AwaitsSecondOperand(s.operation) ==> t.operation == s.operation
    ensures !AwaitsSecondOperand(s.operation) && s.display == "0" ==> t.display == digit
    ensures !AwaitsSecondOperand(s.operation) && s.display != "0" && |s.display| >= MaxDisplayLength ==>
      t.display == s.display
    ensures !AwaitsSecondOperand(s.operation) && s.display != "0" && |s.display| < MaxDisplayLength ==>
      t.display == s.display + digit
    ensures |digit| == 1 && |s.display| <= MaxDisplayLength ==> |t.display| <= MaxDisplayLength
  {
    var s := s.(buttonText := SoftClear);
    if AwaitsSecondOperand(s.operation) then
      s.(operation := s.operation.(secondOperator := Some(0.0)), display := digit)
    else if s.display == "0" then
      s.(display := digit)
    else if |s.display| >= MaxDisplayLength then
      s
    else
      s.(display := s.display + digit)
  }

  /** `resetOperands()`: the first press after entry only blanks the display
      and arms the full clear; a press on "AC" also resets the calculation. */
  function ResetOperands(s: State): (t: State)
    ensures t.display == "0"
    ensures t.finished == s.finished
    ensures s.buttonText == FullClear ==> t.operation == Zero && t.buttonText == FullClear
    ensures s.buttonText == SoftClear ==> t.operation == s.operation && t.buttonText == FullClear
    ensures s.buttonText != FullClear && s.buttonText != SoftClear ==>
      t.operation == s.operation && t.buttonText == s.buttonText
  {
    var s :=
      if s.buttonText == FullClear then s.(operation := Zero)
      else if s.buttonText == SoftClear then s.(buttonText := FullClear)
      else s;
    s.(display := "0")
  }

  /** The number the display currently shows, as the platform reads it once
      the decimal comma is turned back into a period. */
  function Parsed(p: Platform, s: State): Option<real> {
    p.parse(Normalize(s.display))
  }

  /** The display text for a computed result: two decimals with a decimal
      comma when it has a fractional part, otherwise the whole-number form. */
  function FormatResult(p: Platform, result: real): (text: string)
    ensures TruncatingRemainder(result) == 0.0 ==> text == p.whole(result)
    ensures TruncatingRemainder(result) != 0.0 ==>
      '.' !in text && Normalize(text) == Normalize(p.fixed2(result))
  {
    if TruncatingRemainder(result) != 0.0 then
      var text := Localize(p.fixed2(result));
      ReplaceEliminates(p.fixed2(result), '.', ',');
      NormalizeIgnoresLocalize(p.fixed2(result));
      text
    else
      p.whole(result)
  }

  /** Equals would divide by zero: the display reads as 0 and a division is
      pending. The source hands this to floating point, which this model
      does not include. */
  predicate DivisionDefined(p: Platform, s: State, op: CalculatorOperation) {
    op.Equal? && s.operation.operation.Division? ==> Parsed(p, s) != Some(0.0)
  }

  /** `perform(operation:)`. The negation case has no `return`, so like every
      key other than equals it ends at the final `display = "0"`: the negated
      text it writes first is never seen. */
  function Perform(p: Platform, s: State, op: CalculatorOperation): (t: State)
    requires DivisionDefined(p, s, op)
    ensures t.buttonText == s.buttonText
    ensures Parsed(p, s).None? ==> t == s
    ensures Parsed(p, s).Some? && op.SwipeSign? ==> t == s.(display := "0")
    ensures Parsed(p, s).Some? && !op.SwipeSign? && !op.Equal? ==>
      && t.display == "0"
      && t.operation.firstOperator == Parsed(p, s).value
      && t.operation.operation == op
      && t.operation.secondOperator == s.operation.secondOperator
      && t.finished == s.finished
    ensures Parsed(p, s).Some? && op.Equal? ==>
      var entered := s.operation.(secondOperator := Parsed(p, s));
      match CalculateResult(entered, entered)
      case None => t == s.(operation := entered)
      case Some(result) =>
        && t.display == FormatResult(p, result)
        && t.operation == Zero.(firstOperator := result)
        && t.finished
  {
    match Parsed(p, s)
    case None => s
    case Some(value) =>
      if op.Equal? then
        var s := s.(operation := s.operation.(secondOperator := Some(value)));
        match CalculateResult(s.operation, s.operation)
        case None => s
        case Some(result) =>
          s.(display := FormatResult(p, result),
             operation := Zero.(firstOperator := result),
             finished := true)
      else
        var s :=
          if op.SwipeSign? then s.(display := Localize(p.describe(-value)))
          else s.(operation := s.operation.(firstOperator := value, operation := op));
        s.(display := "0")
  }

  /** `perform(operation:)` as evidently intended: negation keeps the negated
      number on the display instead of falling through to the blanking of the
      display. Every other key behaves exactly as in `Perform`, and negation
      still leaves the calculation and the label alone. */
  function PerformIntended(p: Platform, s: State, op: CalculatorOperation): (t: State)
    requires DivisionDefined(p, s, op)
    ensures !op.SwipeSign? ==> t == Perform(p, s, op)
    ensures t == Perform(p, s, op).(display := t.display)
    ensures Parsed(p, s).None? ==> t == s
    ensures Parsed(p, s).Some? && op.SwipeSign? ==>
      && '.' !in t.display
      && Normalize(t.display) == Normalize(p.describe(-Parsed(p, s).value))
  {
    if op.SwipeSign? && Parsed(p, s).Some? then
      var text := p.describe(-Parsed(p, s).value);
      ReplaceEliminates(text, '.', ',');
      NormalizeIgnoresLocalize(text);
      s.(display := Localize(text))
    else
      Perform(p, s, op)
  }

  /** As written, negation does not negate what is shown: a display reading
      5 ends as "0", while the intended behaviour shows the text of -5 with a
      decimal comma. Swift's `String(_:)` writes a `Double` with a fractional
      part, so that text is "-5,0". */
  lemma NegationBlanksDisplay(p: Platform)
    requires p.parse("5") == Some(5.0)
    requires p.describe(-5.0) == "-5.0"
    ensures Perform(p, Init.(display := "5"), SwipeSign).display == "0"
    ensures PerformIntended(p, Init.(display := "5"), SwipeSign).display == "-5,0"
  {
    assert Normalize("5") == "5";
    assert Localize("-5.0") == "-5,0";
  }

  /** With the intended negation, negating twice restores the number shown,
      when the platform's text for a number reads back as that number and
      uses a period, not a comma. The pending calculation is untouched
      throughout. */
  lemma NegateTwice(p: Platform, s: State, v: real)
    requires Parsed(p, s) == Some(v)
    requires ',' !in p.describe(-v) && p.parse(p.describe(-v)) == Some(-v)
    requires ',' !in p.describe(v)
    ensures Parsed(p, PerformIntended(p, s, SwipeSign)) == Some(-v)
    ensures PerformIntended(p, PerformIntended(p, s, SwipeSign), SwipeSign).display == Localize(p.describe(v))
    ensures PerformIntended(p, PerformIntended(p, s, SwipeSign), SwipeSign).operation == s.operation
  {
    NormalizeLocalize(p.describe(-v));
    assert -(-v) == v;
  }

  /** Equals with nothing to evaluate leaves the display and the label as they
      were, yet still stores the display's number as the second operand. */
  lemma EqualWithoutPending(p: Platform, s: State)
    requires !IsBinary(s.operation.operation)
    requires Parsed(p, s).Some?
    ensures Perform(p, s, Equal).display == s.display
    ensures Perform(p, s, Equal).buttonText == s.buttonText
    ensures Perform(p, s, Equal).operation == s.operation.(secondOperator := Parsed(p, s))
  {
  }

  /** A failed equals is not a no-op: on a fresh view model showing 7, the
      second operand changes from 0 to 7 although nothing is evaluated. */
  lemma FailedEqualStoresOperand(p: Platform)
    requires p.parse("7") == Some(7.0)
    ensures Perform(p, Init.(display := "7"), Equal).display == "7"
    ensures Perform(p, Init.(display := "7"), Equal) != Init.(display := "7")
  {
    assert Normalize("7") == "7";
  }
}
