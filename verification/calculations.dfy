/** The operation kinds and the pending-calculation record of the calculator,
    and the pure result computation `calculateResult(for:)`. */
module Calculations {
  import opened Options

  /** `CalculatorOperation`: the keys that act on the pending calculation. */
  datatype CalculatorOperation =
    | NoOp
    | SwipeSign
    | Percentage
    | Division
    | Multiplication
    | Subtraction
    | Addition
    | Equal

  /** The kinds that combine a first and a second operand. */
  predicate IsBinary(op: CalculatorOperation) {
    op.Percentage? || op.Division? || op.Multiplication? || op.Subtraction? || op.Addition?
  }

  /** `Calculation`: first operand, optional second operand, pending operation. */
  datatype Calculation = Calculation(
    firstOperator: real,
    secondOperator: Option<real>,
    operation: CalculatorOperation)

  /** The record the view model starts from: the second operand is present
      and zero, not absent. */
  const Initial: Calculation := Calculation(0.0, Some(0.0), NoOp)

  /** The record after `reset()`. The declarations of `Calculation` and
      `reset()` lie outside CalculatorViewModel.swift; this is the assumed
      zero state: first operand 0, no second operand, no pending operation. */
  const Zero: Calculation := Calculation(0.0, None, NoOp)

  /** Evaluating `values` would divide by zero. */
  predicate DividesByZero(values: Calculation) {
    values.operation.Division? && values.secondOperator == Some(0.0)
  }

  /** `calculateResult(for: values)`. The second operand and the operation come
      from `values`, but the first operand is read from the view model's own
      record, passed here as `self`. */
  function CalculateResult(self: Calculation, values: Calculation): (r: Option<real>)
    requires !DividesByZero(values)
    ensures r.None? <==> values.secondOperator.None? || !IsBinary(values.operation)
  {
    match values.secondOperator
    case None => None
    case Some(second) =>
      match values.operation
      case Addition => Some(self.firstOperator + second)
      case Division => Some(self.firstOperator / second)
      case Multiplication => Some(self.firstOperator * second)
      case Subtraction => Some(self.firstOperator - second)
      case Percentage =>
        var base := second;
        var percentage := self.firstOperator / 100.0;
        Some(base * percentage)
      case _ => None
  }

  /** Each result undoes its operation: subtracting the second operand from
      a sum, adding it to a difference, multiplying a quotient by it or
      dividing a product by it gives back the first operand; a percentage
      times 100 is the product of the operands. The first operand is the one
      read from `self`. */
  lemma ResultInvertsOperation(self: Calculation, values: Calculation)
    requires !DividesByZero(values)
    requires values.secondOperator.Some?
    requires IsBinary(values.operation)
    ensures var r := CalculateResult(self, values).value;
      var first := self.firstOperator;
      var second := values.secondOperator.value;
      match values.operation
      case Addition => r - second == first
      case Subtraction => r + second == first
      case Multiplication => if second == 0.0 then r == 0.0 else r / second == first
      case Division => r * second == first
      case _ => 100.0 * r == first * second
  {
    var r := CalculateResult(self, values).value;
    var first := self.firstOperator;
    var second := values.secondOperator.value;
    match values.operation
    case Addition =>
    case Subtraction =>
    case Multiplication =>
      assert r == first * second;
    case Division =>
      assert r == first / second;
    case Percentage =>
      assert r == second * (first / 100.0);
  }

  /** Of the record it is handed via `self`, the computation reads only the
      first operand; so evaluating `values` against itself, as the only caller
      does, agrees with any record that has the same first operand. */
  lemma ResultReadsOnlyFirstOperator(self: Calculation, values: Calculation)
    requires !DividesByZero(values)
    requires self.firstOperator == values.firstOperator
    ensures CalculateResult(self, values) == CalculateResult(values, values)
  {
    var a := CalculateResult(self, values);
    var b := CalculateResult(values, values);
    assert a.None? <==> b.None?;
    if a.Some? {
      var first := values.firstOperator;
      var second := values.secondOperator.value;
      match values.operation
      case Addition => assert a.value == first + second == b.value;
      case Subtraction => assert a.value == first - second == b.value;
      case Multiplication => assert a.value == first * second == b.value;
      case Division => assert a.value == first / second == b.value;
      case Percentage => assert a.value == second * (first / 100.0) == b.value;
    }
  }

  /** The percentage key computes "second percent of first" and "first percent
      of second" alike: over the reals, swapping the operand roles does not
      change the result. */
  lemma PercentageSymmetric(a: real, b: real)
    ensures CalculateResult(Calculation(a, None, NoOp), Calculation(a, Some(b), Percentage))
         == CalculateResult(Calculation(b, None, NoOp), Calculation(b, Some(a), Percentage))
  {
    var x := CalculateResult(Calculation(a, None, NoOp), Calculation(a, Some(b), Percentage));
    var y := CalculateResult(Calculation(b, None, NoOp), Calculation(b, Some(a), Percentage));
    assert x.value == b * (a / 100.0);
    assert y.value == a * (b / 100.0);
  }
}
