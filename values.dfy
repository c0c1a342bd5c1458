/** JavaScript values as the calculator stores them, and the host services
    (parseFloat, number formatting, coercing operators) the calculator relies on. */
module Values {

  datatype Option<+T> = None | Some(value: T)

  /** A value held in `firstOperand` or produced by `performCalculation`:
      a number (exact real, standing for a finite double), NaN, or a string
      (the "Error" sentinel, or whatever a coercing operator produced). */
  datatype Value = Num(x: real) | NaN | Str(s: string)
  {
    /** A JavaScript number, as opposed to a string. */
    predicate IsNumber() { !Str? }
  }

  /** The text the calculator uses to signal a division by zero. */
  const ErrorText: string := "Error"
  const ErrorSentinel: Value := Str(ErrorText)

  /** The four operators `performCalculation` knows. */
  datatype BinOp = Add | Sub | Mul | Div

  /** The JavaScript host, left abstract: `parseFloat`, the conversion of a
      finite number to text, and what `+ - * /` do once a string operand
      forces a coercion. */
  datatype Host = Host(
    parseFloat: string -> Value,
    format: real -> string,
    coerce: (BinOp, Value, Value) -> Value)
  {
    /** Facts about the host that JavaScript guarantees: parseFloat of "",
        "NaN" and "Error" is NaN, parseFloat always yields a number, and a
        finite number never prints as "Error" or as the empty text. */
    ghost predicate Valid()
    {
      && parseFloat("") == NaN
      && parseFloat("NaN") == NaN
      && parseFloat(ErrorText) == NaN
      && (forall t :: parseFloat(t).IsNumber())
      && (forall x :: format(x) != ErrorText && format(x) != "")
    }
  }

  /** String(v): the text a value becomes when it is written to the display or
      turned into text with toString(). */
  function Show(h: Host, v: Value): (t: string)
    ensures h.Valid() ==> (t == ErrorText <==> v == ErrorSentinel)
    ensures h.Valid() ==> (t == "" <==> v == Str(""))
    ensures v.Num? ==> t == h.format(v.x)
    ensures v.NaN? ==> t == "NaN"
    ensures v.Str? ==> t == v.s
  {
    match v
    case Num(x) => h.format(x)
    case NaN => "NaN"
    case Str(s) => s
  }

  /** The operator named by an operator symbol, if it is one of the four. */
  function OpOf(symbol: Option<string>): (r: Option<BinOp>)
    ensures r == Some(Add) <==> symbol == Some("+")
    ensures r == Some(Sub) <==> symbol == Some("-")
    ensures r == Some(Mul) <==> symbol == Some("*")
    ensures r == Some(Div) <==> symbol == Some("/")
  {
    match symbol
    case Some("+") => Some(Add)
    case Some("-") => Some(Sub)
    case Some("*") => Some(Mul)
    case Some("/") => Some(Div)
    case _ => None
  }

  /** JavaScript's `a op b`. On two numbers it is exact arithmetic with NaN
      absorbing; once a string is involved the host's coercion decides. */
  function Arith(h: Host, op: BinOp, a: Value, b: Value): (r: Value)
    requires op == Div ==> b != Num(0.0)
    // two numbers: their sum, difference, product or quotient
    ensures a.Num? && b.Num? && op == Add ==> r == Num(a.x + b.x)
    ensures a.Num? && b.Num? && op == Sub ==> r == Num(a.x - b.x)
    ensures a.Num? && b.Num? && op == Mul ==> r == Num(a.x * b.x)
    ensures a.Num? && b.Num? && op == Div ==> r == Num(a.x / b.x)
    ensures a.IsNumber() && b.IsNumber() && (a.NaN? || b.NaN?) ==> r == NaN
    ensures a.Str? || b.Str? ==> r == h.coerce(op, a, b)
  {
    if a.Str? || b.Str? then h.coerce(op, a, b)
    else if a.NaN? || b.NaN? then NaN
    else
      match op
      case Add => Num(a.x + b.x)
      case Sub => Num(a.x - b.x)
      case Mul => Num(a.x * b.x)
      case Div => Num(a.x / b.x)
  }
}
