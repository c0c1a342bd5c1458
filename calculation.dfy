/** The pure helper `performCalculation`. */
module Calculation {
  import opened Values

  /** Apply the pending operator `op` to `num1` and `num2`. A division whose
      divisor is exactly zero yields the "Error" sentinel instead of a number;
      a missing or unknown operator yields `num2` unchanged. */
  function PerformCalculation(h: Host, num1: Value, num2: Value, op: Option<string>): (r: Value)
    // the sum, difference and product of two numbers
    ensures num1.Num? && num2.Num? && op == Some("+") ==> r == Num(num1.x + num2.x)
    ensures num1.Num? && num2.Num? && op == Some("-") ==> r == Num(num1.x - num2.x)
    ensures num1.Num? && num2.Num? && op == Some("*") ==> r == Num(num1.x * num2.x)
    // the division guard: dividing by zero gives the sentinel, anything else the quotient
    ensures op == Some("/") && num2 == Num(0.0) ==> r == ErrorSentinel
    ensures num1.Num? && num2.Num? && op == Some("/") && num2.x != 0.0 ==> r == Num(num1.x / num2.x)
    // for numeric operands the sentinel arises from a division by zero and from nothing else
    ensures num1.IsNumber() && num2.IsNumber() ==>
              (r == ErrorSentinel <==> op == Some("/") && num2 == Num(0.0))
    // NaN propagates through every arithmetic operator short of the guard
    ensures (&& num1.IsNumber() && num2.IsNumber() && (num1.NaN? || num2.NaN?) && OpOf(op).Some?
             && !(op == Some("/") && num2 == Num(0.0)))
            ==> r == NaN
    // null or unknown operator: the second operand is passed through
    ensures OpOf(op).None? ==> r == num2
  {
    match OpOf(op)
    case Some(Div) => if num2 == Num(0.0) then ErrorSentinel else Arith(h, Div, num1, num2)
    case Some(o) => Arith(h, o, num1, num2)
    case None => num2
  }
}
