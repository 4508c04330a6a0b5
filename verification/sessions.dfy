/** Sequences of button presses driving the view model, and the properties
    that relate several presses: the invariant every reachable state keeps,
    digit entry as concatenation, the two-step clear, and evaluation end to
    end. */
module Sessions {
  import opened Options
  import opened Separator
  import opened Calculations
  import opened ViewModel

  /** A button press: a digit key, the clear key, or an operation key. */
  datatype Event = Digit(digit: string) | Clear | Apply(op: CalculatorOperation)

  /** Every reachable state shows one of the two clear labels, and the pending
      operation is never negation or equals, which `perform` never records. */
  predicate Valid(s: State) {
    && (s.buttonText == FullClear || s.buttonText == SoftClear)
    && !s.operation.operation.SwipeSign?
    && !s.operation.operation.Equal?
  }

  predicate StepDefined(p: Platform, s: State, e: Event) {
    e.Apply? ==> DivisionDefined(p, s, e.op)
  }

  /** One press. */
  function Step(p: Platform, s: State, e: Event): (t: State)
    requires StepDefined(p, s, e)
    ensures Valid(s) ==> Valid(t)
  {
    match e
    case Digit(d) => AddDigit(s, d)
    case Clear => ResetOperands(s)
    case Apply(op) => Perform(p, s, op)
  }

  /** No press of `events` divides by zero. */
  predicate Defined(p: Platform, s: State, events: seq<Event>)
    decreases |events|
  {
    events == [] || (StepDefined(p, s, events[0]) && Defined(p, Step(p, s, events[0]), events[1..]))
  }

  /** The presses of `events`, in order. */
  function Run(p: Platform, s: State, events: seq<Event>): (t: State)
    requires Defined(p, s, events)
    ensures Valid(s) ==> Valid(t)
    decreases |events|
  {
    if events == [] then s else Run(p, Step(p, s, events[0]), events[1..])
  }

  /** Every state reachable from a fresh view model is valid. */
  lemma ReachableValid(p: Platform, events: seq<Event>)
    requires Defined(p, Init, events)
    ensures Valid(Run(p, Init, events))
  {
  }

  /** Two presses of clear in a row, from any reachable state, leave the
      calculation reset, the display "0" and the label "AC". */
  lemma DoubleClearResets(s: State)
    requires Valid(s)
    ensures ResetOperands(ResetOperands(s)).operation == Zero
    ensures ResetOperands(ResetOperands(s)).display == "0"
    ensures ResetOperands(ResetOperands(s)).buttonText == FullClear
  {
  }

  /** After entry, the first clear keeps the pending calculation and arms the
      full clear; the second one resets it. */
  lemma ClearAfterEntry(s: State, digit: string)
    ensures ResetOperands(AddDigit(s, digit)).operation == AddDigit(s, digit).operation
    ensures ResetOperands(AddDigit(s, digit)).buttonText == FullClear
    ensures ResetOperands(ResetOperands(AddDigit(s, digit))).operation == Zero
  {
  }

  /** Typing a sequence of digit keys. */
  function EnterDigits(s: State, digits: seq<string>): (t: State)
    ensures t.operation.operation == s.operation.operation
    ensures t.operation.firstOperator == s.operation.firstOperator
    decreases |digits|
  {
    if digits == [] then s else EnterDigits(AddDigit(s, digits[0]), digits[1..])
  }

  /** The keys' texts joined. */
  function Concat(digits: seq<string>): string
    decreases |digits|
  {
    if digits == [] then "" else digits[0] + Concat(digits[1..])
  }

  predicate SingleCharacters(digits: seq<string>) {
    forall i :: 0 <= i < |digits| ==> |digits[i]| == 1
  }

  /** How many more keys the display takes before the six-character cap. */
  function Room(display: string, keys: nat): (n: nat)
    ensures n <= keys
    ensures |display| + n <= MaxDisplayLength || n == 0
  {
    if |display| >= MaxDisplayLength then 0
    else if keys < MaxDisplayLength - |display| then keys
    else MaxDisplayLength - |display|
  }

  /** Once the display holds something other than "0" and no second operand is
      awaited, each digit key appends its character until the display holds
      six, and every later key is dropped. */
  lemma {:induction false} AppendDigits(s: State, digits: seq<string>)
    requires SingleCharacters(digits)
    requires !AwaitsSecondOperand(s.operation)
    requires s.display != "0" && |s.display| >= 1
    ensures EnterDigits(s, digits).display == s.display + Concat(digits[..Room(s.display, |digits|)])
    decreases |digits|
  {
    if digits != [] {
      var t := AddDigit(s, digits[0]);
      var rest := digits[1..];
      assert SingleCharacters(rest) by {
        forall i | 0 <= i < |rest| ensures |rest[i]| == 1 {
          assert rest[i] == digits[i + 1];
        }
      }
      if |s.display| >= MaxDisplayLength {
        assert t.display == s.display;
        AppendDigits(t, rest);
        assert Room(s.display, |digits|) == 0 && Room(t.display, |rest|) == 0;
      } else {
        assert |digits[0]| == 1;
        assert t.display == s.display + digits[0];
        assert t.display != "0";
        AppendDigits(t, rest);
        var k := Room(t.display, |rest|);
        assert Room(s.display, |digits|) == k + 1;
        assert digits[..k + 1][1..] == rest[..k];
        assert Concat(digits[..k + 1]) == digits[0] + Concat(rest[..k]);
      }
    }
  }

  /** Typing into a fresh entry, a display of "0" or the first key of the
      second operand, with a first key other than "0": the display shows
      exactly the keys typed, up to six of them; a seventh and later keys
      leave it unchanged. */
  lemma {:induction false} TypeSignificantDigits(s: State, digits: seq<string>)
    requires SingleCharacters(digits)
    requires |digits| >= 1 && digits[0] != "0"
    requires AwaitsSecondOperand(s.operation) || s.display == "0"
    ensures |digits| <= MaxDisplayLength ==> EnterDigits(s, digits).display == Concat(digits)
    ensures |digits| > MaxDisplayLength ==> EnterDigits(s, digits).display == Concat(digits[..MaxDisplayLength])
  {
    var t := AddDigit(s, digits[0]);
    var rest := digits[1..];
    assert t.display == digits[0];
    assert |digits[0]| == 1;
    assert SingleCharacters(rest) by {
      forall i | 0 <= i < |rest| ensures |rest[i]| == 1 {
        assert rest[i] == digits[i + 1];
      }
    }
    AppendDigits(t, rest);
    var k := Room(t.display, |rest|);
    assert digits[..k + 1][1..] == rest[..k];
    assert Concat(digits[..k + 1]) == digits[0] + Concat(rest[..k]);
    if |digits| <= MaxDisplayLength {
      assert digits[..k + 1] == digits;
    }
  }

  /** Every key is "0". */
  predicate ZeroKeys(zeros: seq<string>) {
    forall i :: 0 <= i < |zeros| ==> zeros[i] == "0"
  }

  /** Typing `xs` and then `ys` is typing `xs + ys`. */
  lemma {:induction false} EnterDigitsAppend(s: State, xs: seq<string>, ys: seq<string>)
    ensures EnterDigits(s, xs + ys) == EnterDigits(EnterDigits(s, xs), ys)
    decreases |xs|
  {
    if xs != [] {
      assert (xs + ys)[0] == xs[0];
      assert (xs + ys)[1..] == xs[1..] + ys;
      EnterDigitsAppend(AddDigit(s, xs[0]), xs[1..], ys);
    } else {
      assert xs + ys == ys;
    }
  }

  /** Zero keys typed into a fresh entry leave the display at "0", and
      after the first of them no second operand is awaited. */
  lemma {:induction false} LeadingZeros(s: State, zeros: seq<string>)
    requires ZeroKeys(zeros)
    requires AwaitsSecondOperand(s.operation) || s.display == "0"
    ensures zeros == [] ==> EnterDigits(s, zeros) == s
    ensures zeros != [] ==>
      EnterDigits(s, zeros).display == "0" && !AwaitsSecondOperand(EnterDigits(s, zeros).operation)
    decreases |zeros|
  {
    if zeros != [] {
      var t := AddDigit(s, zeros[0]);
      assert t.display == "0";
      var rest := zeros[1..];
      assert ZeroKeys(rest) by {
        forall i | 0 <= i < |rest| ensures rest[i] == "0" {
          assert rest[i] == zeros[i + 1];
        }
      }
      LeadingZeros(t, rest);
    }
  }

  /** Typing a number into a fresh entry, a display of "0" or the first key
      of the second operand: leading "0" keys are dropped, and the display
      shows exactly the remaining keys, up to six of them; a seventh and later
      keys leave it unchanged. Only zero keys leave the display at "0". */
  lemma TypeNumber(s: State, zeros: seq<string>, digits: seq<string>)
    requires ZeroKeys(zeros)
    requires SingleCharacters(digits)
    requires digits != [] ==> digits[0] != "0"
    requires AwaitsSecondOperand(s.operation) || s.display == "0"
    ensures zeros != [] && digits == [] ==> EnterDigits(s, zeros + digits).display == "0"
    ensures digits != [] && |digits| <= MaxDisplayLength ==>
      EnterDigits(s, zeros + digits).display == Concat(digits)
    ensures |digits| > MaxDisplayLength ==>
      EnterDigits(s, zeros + digits).display == Concat(digits[..MaxDisplayLength])
  {
    EnterDigitsAppend(s, zeros, digits);
    LeadingZeros(s, zeros);
    var t := EnterDigits(s, zeros);
    if digits == [] {
      assert EnterDigits(t, digits) == t;
    } else {
      TypeSignificantDigits(t, digits);
    }
  }

  /** Five plus three equals eight: the display shows the platform's
      whole-number text for 8 and 8 becomes the first operand. */
  lemma SumScenario(p: Platform)
    requires p.parse("5") == Some(5.0) && p.parse("3") == Some(3.0)
    ensures Defined(p, Init, [Digit("5"), Apply(Addition), Digit("3"), Apply(Equal)])
    ensures Run(p, Init, [Digit("5"), Apply(Addition), Digit("3"), Apply(Equal)]).display == p.whole(8.0)
    ensures Run(p, Init, [Digit("5"), Apply(Addition), Digit("3"), Apply(Equal)]).operation
         == Zero.(firstOperator := 8.0)
  {
    assert Normalize("5") == "5";
    assert Normalize("3") == "3";
    var s1 := AddDigit(Init, "5");
    assert s1.display == "5" && s1.operation == Initial;
    var s2 := Perform(p, s1, Addition);
    assert s2.display == "0" && s2.operation == Calculation(5.0, Some(0.0), Addition);
    var s3 := AddDigit(s2, "3");
    assert s3.display == "3" && s3.operation == s2.operation;
    var entered := s3.operation.(secondOperator := Some(3.0));
    ResultInvertsOperation(entered, entered);
    assert CalculateResult(entered, entered).value == 8.0;
    var s4 := Perform(p, s3, Equal);
    Numbers.RemainderZeroIffWhole(8.0);
    assert s4.display == p.whole(8.0) && s4.operation == Zero.(firstOperator := 8.0);
    assert Run(p, s4, []) == s4;
    RunStep(p, s3, Apply(Equal), []);
    RunStep(p, s2, Digit("3"), [Apply(Equal)]);
    RunStep(p, s1, Apply(Addition), [Digit("3"), Apply(Equal)]);
    RunStep(p, Init, Digit("5"), [Apply(Addition), Digit("3"), Apply(Equal)]);
  }

  /** One divided by three: the result has a fractional part, so the display
      shows the platform's two-decimal text with a decimal comma. */
  lemma QuotientScenario(p: Platform)
    requires p.parse("1") == Some(1.0) && p.parse("3") == Some(3.0)
    requires p.fixed2(1.0 / 3.0) == "0.33"
    ensures Defined(p, Init, [Digit("1"), Apply(Division), Digit("3"), Apply(Equal)])
    ensures Run(p, Init, [Digit("1"), Apply(Division), Digit("3"), Apply(Equal)]).display == "0,33"
  {
    assert Normalize("1") == "1";
    assert Normalize("3") == "3";
    var s1 := AddDigit(Init, "1");
    assert s1.display == "1" && s1.operation == Initial;
    var s2 := Perform(p, s1, Division);
    assert s2.display == "0" && s2.operation == Calculation(1.0, Some(0.0), Division);
    var s3 := AddDigit(s2, "3");
    assert s3.display == "3" && s3.operation == s2.operation;
    var entered := s3.operation.(secondOperator := Some(3.0));
    ResultInvertsOperation(entered, entered);
    assert CalculateResult(entered, entered).value == 1.0 / 3.0;
    OneThirdIsFractional();
    assert FormatResult(p, 1.0 / 3.0) == Localize("0.33");
    assert Localize("0.33") == "0,33";
    var s4 := Perform(p, s3, Equal);
    assert s4.display == "0,33";
    assert Run(p, s4, []) == s4;
    RunStep(p, s3, Apply(Equal), []);
    RunStep(p, s2, Digit("3"), [Apply(Equal)]);
    RunStep(p, s1, Apply(Division), [Digit("3"), Apply(Equal)]);
    RunStep(p, Init, Digit("1"), [Apply(Division), Digit("3"), Apply(Equal)]);
  }

  /** One third has a fractional part. */
  lemma OneThirdIsFractional()
    ensures Numbers.TruncatingRemainder(1.0 / 3.0) != 0.0
  {
    Numbers.RemainderZeroIffWhole(1.0 / 3.0);
    assert (1.0 / 3.0).Floor == 0;
  }

  /** A run takes its first press and then the rest. */
  lemma RunStep(p: Platform, s: State, e: Event, rest: seq<Event>)
    requires StepDefined(p, s, e) && Defined(p, Step(p, s, e), rest)
    ensures Defined(p, s, [e] + rest)
    ensures Run(p, s, [e] + rest) == Run(p, Step(p, s, e), rest)
  {
    assert ([e] + rest)[1..] == rest;
  }

  /** Chaining: from any state whose display reads as `a`, pressing plus, one
      key reading as `x`, and equals evaluates `a + x`. Right after an equals
      the display holds the formatted result, so a chain continues from the
      number shown, which is the raw result only when formatting kept it. */
  lemma ChainedAddition(p: Platform, s: State, key: string, a: real, x: real)
    requires Parsed(p, s) == Some(a)
    requires p.parse(Normalize(key)) == Some(x)
    ensures Defined(p, s, [Apply(Addition), Digit(key), Apply(Equal)])
    ensures Run(p, s, [Apply(Addition), Digit(key), Apply(Equal)]).operation == Zero.(firstOperator := a + x)
    ensures Run(p, s, [Apply(Addition), Digit(key), Apply(Equal)]).display == FormatResult(p, a + x)
  {
    var s1 := Perform(p, s, Addition);
    assert s1.display == "0" && s1.operation.operation == Addition && s1.operation.firstOperator == a;
    var s2 := AddDigit(s1, key);
    assert s2.display == key && s2.operation.operation == Addition && s2.operation.firstOperator == a;
    assert Parsed(p, s2) == Some(x);
    var entered := s2.operation.(secondOperator := Some(x));
    ResultInvertsOperation(entered, entered);
    assert CalculateResult(entered, entered).value == a + x;
    var s3 := Perform(p, s2, Equal);
    assert s3.operation == Zero.(firstOperator := a + x) && s3.display == FormatResult(p, a + x);
    assert Run(p, s3, []) == s3;
    RunStep(p, s2, Apply(Equal), []);
    RunStep(p, s1, Digit(key), [Apply(Equal)]);
    RunStep(p, s, Apply(Addition), [Digit(key), Apply(Equal)]);
  }
}
