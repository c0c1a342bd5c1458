/** Whole key sequences and what the display shows at their end, for any host
    whose parseFloat reads the typed numerals as the numbers they denote. */
module Scenarios {
  import opened Values
  import opened CalcSpec
  import Machine

  /** Running a sequence is running its first event, then the rest. */
  lemma RunFirst(h: Host, s: CalcState, e: Event, rest: seq<Event>)
    ensures Run(h, s, [e] + rest) == Run(h, Step(h, s, e), rest)
  {
    assert ([e] + rest)[1..] == rest;
  }

  lemma RunSingle(h: Host, s: CalcState, e: Event)
    ensures Run(h, s, [e]) == Step(h, s, e)
  {
    RunFirst(h, s, e, []);
    assert [e] + [] == [e];
  }

  /** 6 + 4 * 2 = shows 20: the second operator computes 6 + 4 before it is recorded. */
  lemma ChainedOperatorsComputeLeftToRight(h: Host, shown: string)
    requires h.Valid()
    requires h.parseFloat("6") == Num(6.0) && h.parseFloat("4") == Num(4.0) && h.parseFloat("2") == Num(2.0)
    ensures Run(h, Initial(shown), [Key("6"), Operator("+"), Key("4"), Operator("*"), Key("2"), Equals]).display
            == h.format(20.0)
  {
    var s0 := Initial(shown);
    var s1 := Step(h, s0, Key("6"));
    assert s1 == CalcState("6", None, None, false, "6");
    var s2 := Step(h, s1, Operator("+"));
    assert s2 == CalcState("", Some("+"), Some(Num(6.0)), true, "6");
    var s3 := Step(h, s2, Key("4"));
    assert s3 == CalcState("4", Some("+"), Some(Num(6.0)), false, "4");
    var s4 := Step(h, s3, Operator("*"));
    assert s4 == CalcState("", Some("*"), Some(Num(10.0)), true, h.format(10.0));
    var s5 := Step(h, s4, Key("2"));
    assert s5 == CalcState("2", Some("*"), Some(Num(10.0)), false, "2");
    var s6 := Step(h, s5, Equals);
    assert s6.display == h.format(20.0);
    RunFirst(h, s0, Key("6"), [Operator("+"), Key("4"), Operator("*"), Key("2"), Equals]);
    RunFirst(h, s1, Operator("+"), [Key("4"), Operator("*"), Key("2"), Equals]);
    RunFirst(h, s2, Key("4"), [Operator("*"), Key("2"), Equals]);
    RunFirst(h, s3, Operator("*"), [Key("2"), Equals]);
    RunFirst(h, s4, Key("2"), [Equals]);
    RunSingle(h, s5, Equals);
  }

  /** 5 + - 3 = shows 2: the second operator replaces the first without computing. */
  lemma OperatorReplacement(h: Host, shown: string)
    requires h.Valid()
    requires h.parseFloat("5") == Num(5.0) && h.parseFloat("3") == Num(3.0)
    ensures Run(h, Initial(shown), [Key("5"), Operator("+"), Operator("-"), Key("3"), Equals]).display
            == h.format(2.0)
  {
    var s0 := Initial(shown);
    var s1 := Step(h, s0, Key("5"));
    assert s1 == CalcState("5", None, None, false, "5");
    var s2 := Step(h, s1, Operator("+"));
    assert s2 == CalcState("", Some("+"), Some(Num(5.0)), true, "5");
    var s3 := Step(h, s2, Operator("-"));
    assert s3 == CalcState("", Some("-"), Some(Num(5.0)), true, "5");
    var s4 := Step(h, s3, Key("3"));
    assert s4 == CalcState("3", Some("-"), Some(Num(5.0)), false, "3");
    var s5 := Step(h, s4, Equals);
    assert s5.display == h.format(2.0);
    RunFirst(h, s0, Key("5"), [Operator("+"), Operator("-"), Key("3"), Equals]);
    RunFirst(h, s1, Operator("+"), [Operator("-"), Key("3"), Equals]);
    RunFirst(h, s2, Operator("-"), [Key("3"), Equals]);
    RunFirst(h, s3, Key("3"), [Equals]);
    RunSingle(h, s4, Equals);
  }

  /** 8 / 0 = shows "Error", and the next digit starts afresh. */
  lemma DivisionByZeroAndRecovery(h: Host, shown: string)
    requires h.Valid()
    requires h.parseFloat("8") == Num(8.0) && h.parseFloat("0") == Num(0.0)
    ensures Run(h, Initial(shown), [Key("8"), Operator("/"), Key("0"), Equals]).display == ErrorText
    ensures Run(h, Initial(shown), [Key("8"), Operator("/"), Key("0"), Equals, Key("1")])
            == CalcState("1", None, None, false, "1")
  {
  }

  /** 8 / 0 + - keeps "Error" on the display: the "+" computes the division by
      zero, the "-" only replaces the operator, and the "=" that follows hands
      the stored sentinel and the NaN of the empty operand text to the
      pending "-", where the host's coercion decides. */
  lemma ChainedDivisionByZero(h: Host, shown: string)
    requires h.Valid()
    requires h.parseFloat("8") == Num(8.0) && h.parseFloat("0") == Num(0.0)
    ensures Run(h, Initial(shown), [Key("8"), Operator("/"), Key("0"), Operator("+"), Operator("-")])
            == CalcState("", Some("-"), Some(ErrorSentinel), true, ErrorText)
    ensures Run(h, Initial(shown), [Key("8"), Operator("/"), Key("0"), Operator("+"), Operator("-"), Equals]).firstOperand
            == Some(h.coerce(Sub, ErrorSentinel, NaN))
  {
    var s0 := Initial(shown);
    var s1 := Step(h, s0, Key("8"));
    assert s1 == CalcState("8", None, None, false, "8");
    var s2 := Step(h, s1, Operator("/"));
    assert s2 == CalcState("", Some("/"), Some(Num(8.0)), true, "8");
    var s3 := Step(h, s2, Key("0"));
    assert s3 == CalcState("0", Some("/"), Some(Num(8.0)), false, "0");
    var s4 := Step(h, s3, Operator("+"));
    assert s4 == CalcState("", Some("+"), Some(ErrorSentinel), true, ErrorText);
    var s5 := Step(h, s4, Operator("-"));
    assert s5 == CalcState("", Some("-"), Some(ErrorSentinel), true, ErrorText);
    var s6 := Step(h, s5, Equals);
    assert s6.firstOperand == Some(h.coerce(Sub, ErrorSentinel, NaN));
    RunFirst(h, s0, Key("8"), [Operator("/"), Key("0"), Operator("+"), Operator("-")]);
    RunFirst(h, s1, Operator("/"), [Key("0"), Operator("+"), Operator("-")]);
    RunFirst(h, s2, Key("0"), [Operator("+"), Operator("-")]);
    RunFirst(h, s3, Operator("+"), [Operator("-")]);
    RunSingle(h, s4, Operator("-"));
    RunFirst(h, s0, Key("8"), [Operator("/"), Key("0"), Operator("+"), Operator("-"), Equals]);
    RunFirst(h, s1, Operator("/"), [Key("0"), Operator("+"), Operator("-"), Equals]);
    RunFirst(h, s2, Key("0"), [Operator("+"), Operator("-"), Equals]);
    RunFirst(h, s3, Operator("+"), [Operator("-"), Equals]);
    RunFirst(h, s4, Operator("-"), [Equals]);
    RunSingle(h, s5, Equals);
  }

  /** 9 = shows 9: with no operator, "=" only shows the parsed operand. */
  lemma EqualsWithoutOperator(h: Host, shown: string)
    requires h.Valid()
    requires h.parseFloat("9") == Num(9.0)
    ensures Run(h, Initial(shown), [Key("9"), Equals])
            == CalcState("9", None, None, false, h.format(9.0))
  {
    var s1 := Step(h, Initial(shown), Key("9"));
    assert s1 == CalcState("9", None, None, false, "9");
    RunFirst(h, Initial(shown), Key("9"), [Equals]);
    RunSingle(h, s1, Equals);
  }

  /** 2 + 3 = + 10 = shows 15: the first result becomes the next first operand. */
  lemma ResultIsReused(h: Host, shown: string)
    requires h.Valid()
    requires h.parseFloat("2") == Num(2.0) && h.parseFloat("3") == Num(3.0) && h.parseFloat("10") == Num(10.0)
    requires h.parseFloat(h.format(5.0)) == Num(5.0)
    ensures Run(h, Initial(shown),
                [Key("2"), Operator("+"), Key("3"), Equals, Operator("+"), Key("1"), Key("0"), Equals]).display
            == h.format(15.0)
  {
    var s0 := Initial(shown);
    var s1 := Step(h, s0, Key("2"));
    assert s1 == CalcState("2", None, None, false, "2");
    var s2 := Step(h, s1, Operator("+"));
    assert s2 == CalcState("", Some("+"), Some(Num(2.0)), true, "2");
    var s3 := Step(h, s2, Key("3"));
    assert s3 == CalcState("3", Some("+"), Some(Num(2.0)), false, "3");
    var s4 := Step(h, s3, Equals);
    assert s4 == CalcState(h.format(5.0), None, Some(Num(5.0)), false, h.format(5.0));
    var s5 := Step(h, s4, Operator("+"));
    assert s5 == CalcState("", Some("+"), Some(Num(5.0)), true, h.format(5.0));
    var s6 := Step(h, s5, Key("1"));
    assert s6 == CalcState("1", Some("+"), Some(Num(5.0)), false, "1");
    var s7 := Step(h, s6, Key("0"));
    assert s7 == CalcState("10", Some("+"), Some(Num(5.0)), false, "10");
    var s8 := Step(h, s7, Equals);
    assert s8.display == h.format(15.0);
    RunFirst(h, s0, Key("2"), [Operator("+"), Key("3"), Equals, Operator("+"), Key("1"), Key("0"), Equals]);
    RunFirst(h, s1, Operator("+"), [Key("3"), Equals, Operator("+"), Key("1"), Key("0"), Equals]);
    RunFirst(h, s2, Key("3"), [Equals, Operator("+"), Key("1"), Key("0"), Equals]);
    RunFirst(h, s3, Equals, [Operator("+"), Key("1"), Key("0"), Equals]);
    RunFirst(h, s4, Operator("+"), [Key("1"), Key("0"), Equals]);
    RunFirst(h, s5, Key("1"), [Key("0"), Equals]);
    RunFirst(h, s6, Key("0"), [Equals]);
    RunSingle(h, s7, Equals);
  }

  /** The same chained computation on the imperative calculator. */
  method ChainOnCalculator(h: Host, shown: string) returns (result: string)
    requires h.Valid()
    requires h.parseFloat("6") == Num(6.0) && h.parseFloat("4") == Num(4.0) && h.parseFloat("2") == Num(2.0)
    ensures result == h.format(20.0)
  {
    var c := new Machine.Calculator(h, shown);
    c.AppendToDisplay("6");
    assert c.State() == CalcState("6", None, None, false, "6");
    c.SetOperator("+");
    assert c.State() == CalcState("", Some("+"), Some(Num(6.0)), true, "6");
    c.AppendToDisplay("4");
    assert c.State() == CalcState("4", Some("+"), Some(Num(6.0)), false, "4");
    c.SetOperator("*");
    assert c.State() == CalcState("", Some("*"), Some(Num(10.0)), true, h.format(10.0));
    c.AppendToDisplay("2");
    assert c.State() == CalcState("2", Some("*"), Some(Num(10.0)), false, "2");
    c.CalculateResult();
    result := c.display;
  }

  /** Division by zero and recovery on the imperative calculator. */
  method DivideByZeroOnCalculator(h: Host, shown: string) returns (afterEquals: string, afterDigit: string)
    requires h.Valid()
    requires h.parseFloat("8") == Num(8.0) && h.parseFloat("0") == Num(0.0)
    ensures afterEquals == ErrorText
    ensures afterDigit == "1"
  {
    var c := new Machine.Calculator(h, shown);
    c.AppendToDisplay("8");
    assert c.State() == CalcState("8", None, None, false, "8");
    c.SetOperator("/");
    assert c.State() == CalcState("", Some("/"), Some(Num(8.0)), true, "8");
    c.AppendToDisplay("0");
    assert c.State() == CalcState("0", Some("/"), Some(Num(8.0)), false, "0");
    c.CalculateResult();
    afterEquals := c.display;
    c.AppendToDisplay("1");
    afterDigit := c.display;
  }
}
