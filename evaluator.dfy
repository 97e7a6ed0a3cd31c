/** The binary evaluator of the calculator (`evaluate` in src/App.js).

    Floating-point parsing, arithmetic and printing are not modelled: they are
    the fields of a `FloatOps` record that every member takes as a parameter,
    so each property proved here holds for any choice of them, the IEEE-754
    ones included. Only the zero test is spelled out, on the bit pattern. */
module Evaluator {
  import opened Options

  /** The four operator symbols the keypad dispatches. */
  const Operators: set<string> := {"+", "-", "*", "/"}

  /** A JavaScript number: an IEEE-754 double, kept as its 64-bit pattern. */
  datatype Double = Double(bits: bv64)

  /** `x === 0`: true of both signed zeros, whose patterns differ only in the
      sign bit. */
  predicate IsZero(x: Double)
  {
    x.bits & 0x7FFF_FFFF_FFFF_FFFF == 0
  }

  /** The numeric primitives the evaluator relies on:
      `parse` is parseFloat, with `None` standing for NaN;
      `add`, `sub`, `mul`, `div` are the arithmetic operators;
      `show` is Number.prototype.toString. */
  datatype FloatOps = FloatOps(
    parse: string -> Option<Double>,
    add: (Double, Double) -> Double,
    sub: (Double, Double) -> Double,
    mul: (Double, Double) -> Double,
    div: (Double, Double) -> Double,
    show: Double -> string)

  /** What an evaluation yields: a result text, or the one raised error. */
  datatype EvalResult = Ok(text: string) | DivByZero

  /** parseFloat of an operand; an absent operand parses to NaN. */
  function ParseOperand(f: FloatOps, operand: Option<string>): Option<Double>
  {
    match operand
    case None => None
    case Some(text) => f.parse(text)
  }

  /** True when the operand parses to a number (not NaN). */
  predicate IsNumber(f: FloatOps, operand: Option<string>)
  {
    ParseOperand(f, operand).Some?
  }

  /** The reference meaning of `x op y`, with `x` the left-hand (previous)
      operand and `y` the right-hand (current) one. */
  function Apply(f: FloatOps, op: string, x: Double, y: Double): Double
    requires op in Operators
  {
    if op == "+" then f.add(x, y)
    else if op == "-" then f.sub(x, y)
    else if op == "*" then f.mul(x, y)
    else f.div(x, y)
  }

  /** `evaluate({currentOperand, previousOperand, operation})`: the thrown
      "Can't divide by zero" error becomes `DivByZero`. */
  function Evaluate(f: FloatOps, previous: Option<string>, current: Option<string>,
                    operation: Option<string>): (r: EvalResult)
    // the only failure: dividing two numbers when the divisor is zero
    ensures r.DivByZero? <==>
              && operation == Some("/")
              && IsNumber(f, previous) && IsNumber(f, current)
              && IsZero(ParseOperand(f, current).value)
    // silent degradation: NaN operands or an unknown operator give ""
    ensures !IsNumber(f, previous) || !IsNumber(f, current) ==> r == Ok("")
    ensures operation.None? || operation.value !in Operators ==> r == Ok("")
    // a successful text is empty or a printed number
    ensures r.Ok? ==> r.text == "" || exists x :: r.text == f.show(x)
  {
    var cur := ParseOperand(f, current);
    var prev := ParseOperand(f, previous);
    if cur.None? || prev.None? then Ok("")
    else if operation == Some("+") then Ok(f.show(f.add(cur.value, prev.value)))
    else if operation == Some("-") then Ok(f.show(f.sub(prev.value, cur.value)))
    else if operation == Some("*") then Ok(f.show(f.mul(cur.value, prev.value)))
    else if operation == Some("/") then
      if IsZero(cur.value) then DivByZero
      else Ok(f.show(f.div(prev.value, cur.value)))
    else Ok("")
  }

  /** With both operands numbers and a known operator, evaluation prints
      `previous op current`; `+` and `*` are computed as `current op previous`,
      which agrees whenever the two operators commute (as IEEE-754 addition and
      multiplication do). Re-parsing the text gives the value back whenever
      printing round-trips. */
  lemma EvaluateMeansArithmetic(f: FloatOps, previous: string, current: string, op: string)
    requires op in Operators
    requires f.parse(previous).Some? && f.parse(current).Some?
    requires !(op == "/" && IsZero(f.parse(current).value))
    requires f.add(f.parse(current).value, f.parse(previous).value)
             == f.add(f.parse(previous).value, f.parse(current).value)
    requires f.mul(f.parse(current).value, f.parse(previous).value)
             == f.mul(f.parse(previous).value, f.parse(current).value)
    ensures var v := Apply(f, op, f.parse(previous).value, f.parse(current).value);
            && Evaluate(f, Some(previous), Some(current), Some(op)) == Ok(f.show(v))
            && (f.parse(f.show(v)) == Some(v) ==>
                  f.parse(Evaluate(f, Some(previous), Some(current), Some(op)).text) == Some(v))
  {
  }
}
