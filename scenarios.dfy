/** Concrete sessions of the calculator, each stated for every choice of the
    floating-point primitives that gives the named numbers their usual
    values. */
module Scenarios {
  import opened Options
  import opened Evaluator
  import opened Calculator
  import opened Sessions
  import opened Display

  /** `8 / 0 =` resets the calculator. */
  lemma DivideByZeroResets(f: FloatOps)
    requires f.parse("8").Some? && f.parse("0").Some? && IsZero(f.parse("0").value)
    ensures Step(f, State(Some("0"), Some("8"), Some("/")), Equals) == Empty
  {
  }

  /** A second decimal point is ignored: `. .` shows `0.`. */
  lemma SecondDotIgnored(f: FloatOps)
    ensures Run(f, Empty, [AddDigit("."), AddDigit(".")]) == State(Some("0."), None, None)
  {
  }

  /** `- 5` types the negative number `-5`. */
  lemma NegativeEntry(f: FloatOps)
    ensures Run(f, Empty, [ChooseOperation("-")]) == State(Some("-"), None, None)
    ensures Run(f, Empty, [ChooseOperation("-"), AddDigit("5")]) == State(Some("-5"), None, None)
  {
    assert [ChooseOperation("-"), AddDigit("5")][1..] == [AddDigit("5")];
    assert "-" + "5" == "-5";
  }

  /** `5 + 3 *` computes `8` at once and leaves `*` pending. */
  lemma ChainingComputesEagerly(f: FloatOps)
    requires f.parse("5").Some? && f.parse("3").Some?
    requires f.show(f.add(f.parse("3").value, f.parse("5").value)) == "8"
    ensures Step(f, State(Some("3"), Some("5"), Some("+")), ChooseOperation("*")) == State(None, Some("8"), Some("*"))
  {
  }

  /** Deleting past the last digit leaves the empty text, not an absent
      operand. */
  lemma DeletionFloor(f: FloatOps)
    ensures Run(f, State(Some("7"), None, None), [DeleteDigit]) == State(Some(""), None, None)
    ensures Run(f, State(Some("7"), None, None), [DeleteDigit, DeleteDigit]) == State(Some(""), None, None)
  {
  }

  /** With no operand typed, DELETE_DIGIT also drops the pending operation. */
  lemma DeleteWithoutOperandResets(f: FloatOps)
    ensures Step(f, State(None, Some("5"), Some("+")), DeleteDigit) == Empty
  {
  }

  /** A result is not replaced by the next digit: the digit is appended. */
  lemma TypingAfterResultAppends(f: FloatOps)
    ensures Step(f, State(Some("8"), None, None), AddDigit("5")) == State(Some("85"), None, None)
  {
    assert "8" + "5" == "85";
  }

  /** The display examples: grouping applies only before a decimal point is
      typed. */
  lemma FormatExamples(group: string -> string)
    requires group("1234") == "1,234"
    ensures FormatOperand(group, Some("1234")) == Some("1,234")
    ensures FormatOperand(group, Some("1234.5")) == Some("1234.5")
    ensures FormatOperand(group, Some("-")) == Some("-")
    ensures FormatOperand(group, None) == None
  {
  }
}
