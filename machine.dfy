/** The calculator as the page runs it: the four module-level variables and
    the display's text are mutable fields, and each handler updates them step
    by step, with the same early returns. */
module Machine {
  import opened Values
  import opened Calculation
  import CalcSpec

  class Calculator {
    const host: Host
    var currentInput: string
    var operator: Option<string>
    var firstOperand: Option<Value>
    var waitingForSecondOperand: bool
    var display: string

    /** The abstract state the fields hold. */
    function State(): CalcSpec.CalcState
      reads this
    {
      CalcSpec.CalcState(currentInput, operator, firstOperand, waitingForSecondOperand, display)
    }

    predicate Valid()
      reads this
    {
      CalcSpec.Inv(State())
    }

    /** The variables' initial values; `shown` is the display's text on page load. */
    constructor (host: Host, shown: string)
      ensures this.host == host
      ensures State() == CalcSpec.Initial(shown)
      ensures Valid()
    {
      this.host := host;
      currentInput := "";
      operator := None;
      firstOperand := None;
      waitingForSecondOperand := false;
      display := shown;
    }

    method AppendToDisplay(value: string)
      requires Valid()
      modifies this
      ensures Valid()
      ensures State() == CalcSpec.AppendToDisplay(old(State()), value)
    {
      if display == ErrorText {
        ClearDisplay();
      }
      if waitingForSecondOperand {
        currentInput := value;
        waitingForSecondOperand := false;
      } else {
        if value == "." && '.' in currentInput {
          return;
        }
        currentInput := currentInput + value;
      }
      display := currentInput;
    }

    method ClearDisplay()
      modifies this
      ensures Valid()
      ensures State() == CalcSpec.ClearDisplay(old(State()))
    {
      currentInput := "";
      operator := None;
      firstOperand := None;
      waitingForSecondOperand := false;
      display := "";
    }

    method SetOperator(nextOperator: string)
      requires Valid()
      modifies this
      ensures Valid()
      ensures State() == CalcSpec.SetOperator(host, old(State()), nextOperator)
    {
      if currentInput == "" && firstOperand.Some? {
        operator := Some(nextOperator);
        return;
      }

      var inputValue := host.parseFloat(currentInput);

      if firstOperand.None? {
        firstOperand := Some(inputValue);
      } else if !waitingForSecondOperand {
        var result := PerformCalculation(host, firstOperand.value, inputValue, operator);
        display := Show(host, result);
        firstOperand := Some(result);
      }

      waitingForSecondOperand := true;
      operator := Some(nextOperator);
      currentInput := "";
    }

    method CalculateResult()
      requires Valid()
      modifies this
      ensures Valid()
      ensures State() == CalcSpec.CalculateResult(host, old(State()))
    {
      if currentInput == "" && firstOperand.None? {
        return;
      }

      if firstOperand.None? && currentInput != "" {
        display := Show(host, host.parseFloat(currentInput));
        return;
      }

      var secondOperand := host.parseFloat(currentInput);
      var result := PerformCalculation(host, firstOperand.value, secondOperand, operator);
      display := Show(host, result);

      firstOperand := Some(result);
      operator := None;
      currentInput := Show(host, result);
      waitingForSecondOperand := false;
    }
  }
}
