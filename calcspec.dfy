/** The calculator's state and its four entry points, as functions from the
    state before an input event to the state after it. The imperative
    calculator in module Machine is proved to follow these exactly. */
module CalcSpec {
  import opened Values
  import opened Calculation

  /** The four module-level variables of the calculator and the display text. */
  datatype CalcState = CalcState(
    currentInput: string,              // the operand text typed so far
    operator: Option<string>,          // the pending operator, null as None
    firstOperand: Option<Value>,       // the left-hand operand, null as None
    waitingForSecondOperand: bool,     // an operator was chosen, no digit typed since
    display: string)                   // the text the display shows

  /** The state when the page loads; the display shows whatever the page put there. */
  function Initial(shown: string): CalcState
  {
    CalcState("", None, None, false, shown)
  }

  /** What every entry point preserves: waiting for an operand means none has
      been typed, and an operator is recorded only once a first operand exists. */
  predicate Inv(s: CalcState)
  {
    && (s.waitingForSecondOperand ==> s.currentInput == "")
    && (s.operator.Some? ==> s.firstOperand.Some?)
  }

  /** clearDisplay: every variable back to its initial value, the display blank. */
  function ClearDisplay(s: CalcState): (r: CalcState)
    ensures r == Initial("")
    ensures Inv(r)
  {
    CalcState("", None, None, false, "")
  }

  /** appendToDisplay(value): a digit or a decimal point was pressed. */
  function AppendToDisplay(s: CalcState, value: string): (r: CalcState)
    // an "Error" display resets everything first, so the typed value is all that is left
    ensures s.display == ErrorText ==> r == CalcState(value, None, None, false, value)
    // the first key after an operator starts the second operand afresh
    ensures s.display != ErrorText && s.waitingForSecondOperand ==>
              r == s.(currentInput := value, waitingForSecondOperand := false, display := value)
    // a second decimal point in one operand is refused: nothing changes
    ensures s.display != ErrorText && !s.waitingForSecondOperand && value == "." && '.' in s.currentInput ==>
              r == s
    // otherwise the value is appended to the operand text
    ensures (&& s.display != ErrorText && !s.waitingForSecondOperand
             && !(value == "." && '.' in s.currentInput))
            ==> r == s.(currentInput := s.currentInput + value, display := s.currentInput + value)
    // whenever something changed, the display shows the operand text
    ensures r != s ==> r.display == r.currentInput && !r.waitingForSecondOperand
    ensures Inv(s) ==> Inv(r)
  {
    var t := if s.display == ErrorText then ClearDisplay(s) else s;
    if t.waitingForSecondOperand then
      t.(currentInput := value, waitingForSecondOperand := false, display := value)
    else if value == "." && '.' in t.currentInput then
      t
    else
      t.(currentInput := t.currentInput + value, display := t.currentInput + value)
  }

  /** setOperator(nextOperator): an operator key was pressed. */
  function SetOperator(h: Host, s: CalcState, nextOperator: string): (r: CalcState)
    // nothing typed since the last operator or result: only the operator is replaced
    ensures s.currentInput == "" && s.firstOperand.Some? ==> r == s.(operator := Some(nextOperator))
    // on every other path the operator is recorded and the next operand awaited
    ensures !(s.currentInput == "" && s.firstOperand.Some?) ==>
              && r.waitingForSecondOperand && r.operator == Some(nextOperator) && r.currentInput == ""
    // the first operator of a computation only parses the operand
    ensures s.firstOperand.None? ==>
              r.firstOperand == Some(h.parseFloat(s.currentInput)) && r.display == s.display
    // a typed second operand triggers the pending computation, shown and kept
    ensures s.currentInput != "" && s.firstOperand.Some? && !s.waitingForSecondOperand ==>
              var result := PerformCalculation(h, s.firstOperand.value, h.parseFloat(s.currentInput), s.operator);
              r.firstOperand == Some(result) && r.display == Show(h, result)
    // the chaining guard: while waiting, no computation happens
    ensures s.firstOperand.Some? && s.waitingForSecondOperand ==>
              r.firstOperand == s.firstOperand && r.display == s.display
    ensures Inv(s) ==> Inv(r)
  {
    if s.currentInput == "" && s.firstOperand.Some? then
      s.(operator := Some(nextOperator))
    else
      var inputValue := h.parseFloat(s.currentInput);
      var t :=
        if s.firstOperand.None? then
          s.(firstOperand := Some(inputValue))
        else if !s.waitingForSecondOperand then
          var result := PerformCalculation(h, s.firstOperand.value, inputValue, s.operator);
          s.(display := Show(h, result), firstOperand := Some(result))
        else
          s;
      t.(waitingForSecondOperand := true, operator := Some(nextOperator), currentInput := "")
  }

  /** calculateResult: the "=" key was pressed. */
  function CalculateResult(h: Host, s: CalcState): (r: CalcState)
    // nothing entered at all: no effect
    ensures s.currentInput == "" && s.firstOperand.None? ==> r == s
    // a lone operand: its parsed value is shown, nothing else changes
    ensures s.currentInput != "" && s.firstOperand.None? ==>
              r == s.(display := Show(h, h.parseFloat(s.currentInput)))
    // otherwise the pending operation is finalised and its result seeds what follows
    ensures s.firstOperand.Some? ==>
              var result := PerformCalculation(h, s.firstOperand.value, h.parseFloat(s.currentInput), s.operator);
              r == CalcState(Show(h, result), None, Some(result), false, Show(h, result))
    // with a numeric first operand, "Error" appears exactly on a division by zero
    ensures h.Valid() && s.firstOperand.Some? && s.firstOperand.value.IsNumber() ==>
              (r.display == ErrorText <==> s.operator == Some("/") && h.parseFloat(s.currentInput) == Num(0.0))
    ensures Inv(s) ==> Inv(r)
  {
    if s.currentInput == "" && s.firstOperand.None? then
      s
    else if s.firstOperand.None? && s.currentInput != "" then
      s.(display := Show(h, h.parseFloat(s.currentInput)))
    else
      var secondOperand := h.parseFloat(s.currentInput);
      var result := PerformCalculation(h, s.firstOperand.value, secondOperand, s.operator);
      CalcState(Show(h, result), None, Some(result), false, Show(h, result))
  }

  /** One input event, as the page's buttons deliver them. */
  datatype Event = Key(value: string) | Operator(symbol: string) | Equals | Clear

  function Step(h: Host, s: CalcState, e: Event): (r: CalcState)
    ensures Inv(s) ==> Inv(r)
  {
    match e
    case Key(v) => AppendToDisplay(s, v)
    case Operator(op) => SetOperator(h, s, op)
    case Equals => CalculateResult(h, s)
    case Clear => ClearDisplay(s)
  }

  /** The state after a sequence of input events, the first one first. */
  function Run(h: Host, s: CalcState, events: seq<Event>): CalcState
    decreases |events|
  {
    if events == [] then s else Run(h, Step(h, s, events[0]), events[1..])
  }

  lemma {:induction false} RunPreservesInv(h: Host, s: CalcState, events: seq<Event>)
    requires Inv(s)
    ensures Inv(Run(h, s, events))
    decreases |events|
  {
    if events != [] {
      RunPreservesInv(h, Step(h, s, events[0]), events[1..]);
    }
  }

  /** The invariant holds in every state the calculator can reach. */
  lemma ReachableInv(h: Host, shown: string, events: seq<Event>)
    ensures Inv(Run(h, Initial(shown), events))
  {
    RunPreservesInv(h, Initial(shown), events);
  }

  /** In a reachable state, whenever setOperator gets past operator replacement
      with a first operand present, the calculator is not waiting: the
      `!waitingForSecondOperand` test never fails, so the chaining computation
      always happens there. */
  lemma ChainingGuardNeverFails(h: Host, shown: string, events: seq<Event>)
    ensures var s := Run(h, Initial(shown), events);
            !(s.currentInput == "" && s.firstOperand.Some?) && s.firstOperand.Some? ==>
              !s.waitingForSecondOperand
  {
    ReachableInv(h, shown, events);
  }

  /** Pressing operators repeatedly computes at most once: every press after
      the first only replaces the operator. */
  lemma RepeatedOperatorOnlyReplaces(h: Host, s: CalcState, first: string, second: string)
    ensures SetOperator(h, SetOperator(h, s, first), second)
            == SetOperator(h, s, first).(operator := Some(second))
  {
  }

  /** clearDisplay is idempotent, and from any state leads back to the initial state. */
  lemma ClearIdempotent(s: CalcState)
    ensures ClearDisplay(ClearDisplay(s)) == ClearDisplay(s) == Initial("")
  {
  }

  /** Two decimal points in a row leave the operand text as the first one left it. */
  lemma SecondDecimalPointIgnored(s: CalcState)
    ensures AppendToDisplay(AppendToDisplay(s, "."), ".") == AppendToDisplay(s, ".")
  {
    var r := AppendToDisplay(s, ".");
    if r != s {
      // the operand text now ends in the point, and the display shows it
      assert r.currentInput[|r.currentInput| - 1] == '.';
      assert '.' !in ErrorText;
    }
  }

  /** After "=" the display and the operand text agree, so a further "=" sees a
      non-empty operand (the result's own text) rather than an empty one. */
  lemma EqualsLeavesResultAsOperand(h: Host, s: CalcState)
    requires h.Valid()
    requires s.firstOperand.Some?
    ensures var r := CalculateResult(h, s);
            r.display == r.currentInput && r.operator.None? && r.firstOperand.Some?
            && (r.currentInput == "" <==> r.firstOperand.value == Str(""))
  {
  }

  /** A repeated "=" leaves a numeric result as it is, provided the host reads
      the result's text back as the same number. */
  lemma RepeatedEqualsKeepsNumber(h: Host, s: CalcState)
    requires h.Valid()
    requires s.firstOperand.Some?
    requires var result := CalculateResult(h, s).firstOperand.value;
             result.NaN? || (result.Num? && h.parseFloat(h.format(result.x)) == result)
    ensures CalculateResult(h, CalculateResult(h, s)) == CalculateResult(h, s)
  {
  }

  /** A repeated "=" after a division by zero replaces "Error" by "NaN": the
      sentinel's text parses as NaN and, with no operator left, is passed through. */
  lemma RepeatedEqualsAfterDivisionByZero(h: Host, s: CalcState)
    requires h.Valid()
    requires s.firstOperand.Some? && s.operator == Some("/") && h.parseFloat(s.currentInput) == Num(0.0)
    ensures CalculateResult(h, s).display == ErrorText
    ensures CalculateResult(h, CalculateResult(h, s)).display == "NaN"
  {
  }

  /** An operator pressed straight after a division by zero also replaces
      "Error" by "NaN": the sentinel's text parses as NaN, the pending
      computation runs with no operator, and the NaN operand is passed through. */
  lemma OperatorAfterDivisionByZero(h: Host, s: CalcState, nextOperator: string)
    requires h.Valid()
    requires s.firstOperand.Some? && s.operator == Some("/") && h.parseFloat(s.currentInput) == Num(0.0)
    ensures CalculateResult(h, s).display == ErrorText
    ensures SetOperator(h, CalculateResult(h, s), nextOperator).display == "NaN"
    ensures SetOperator(h, CalculateResult(h, s), nextOperator).firstOperand == Some(NaN)
  {
  }
}
