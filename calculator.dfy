/** The calculator's state machine (`reducer` in src/App.js): one pure
    transition per intent over a record of three optional fields. */
module Calculator {
  import opened Options
  import opened Evaluator

  /** `{currentOperand, previousOperand, operation}`; operands are kept as the
      text the user typed. */
  datatype State = State(current: Option<string>, previous: Option<string>, operation: Option<string>)

  /** `{}`: the initial state, and the state CLEAR and errors reset to. */
  const Empty := State(None, None, None)

  /** The `ACTIONS` a dispatch carries, each with its payload. */
  datatype Intent =
    | AddDigit(digit: string)
    | Clear
    | DeleteDigit
    | ChooseOperation(op: string)
    | Equals

  /** An operator is pending exactly when a left-hand operand is committed. */
  predicate Paired(s: State)
  {
    s.operation.Some? <==> s.previous.Some?
  }

  /** `operand || ""`: an absent operand and an empty one both read as "". */
  function TextOf(operand: Option<string>): string
  {
    if operand.Some? then operand.value else ""
  }

  /** `text.slice(0, -1)`: everything but the last character. */
  function DropLast(text: string): string
  {
    if text == [] then [] else text[..|text| - 1]
  }

  /** ADD_DIGIT: only `currentOperand` changes, an operand is present
      afterwards, and what was typed before is kept as a prefix. */
  function OnAddDigit(s: State, digit: string): (r: State)
    ensures r.previous == s.previous && r.operation == s.operation
    ensures r.current.Some?
    ensures s.current.Some? ==> s.current.value <= r.current.value
  {
    if digit == "." && s.current.None? then s.(current := Some("0."))
    else if digit == "." && s.current == Some("-") then s.(current := Some("-0."))
    else if digit == "." && '.' in s.current.value then s
    else s.(current := Some(TextOf(s.current) + digit))
  }

  /** DELETE_DIGIT: with no operand the whole state is reset; otherwise the
      operand loses its last character and nothing else changes. */
  function OnDeleteDigit(s: State): (r: State)
    ensures s.current.None? ==> r == Empty
    ensures s.current.Some? ==> r.previous == s.previous && r.operation == s.operation && r.current.Some?
    ensures s.current.Some? && s.current.value != [] ==>
              r.current.value + [s.current.value[|s.current.value| - 1]] == s.current.value
    ensures s.current == Some("") ==> r.current == Some("")
  {
    match s.current
    case None => Empty
    case Some(text) => s.(current := Some(DropLast(text)))
  }

  /** CHOOSE_OPERATION: whatever the branch, a state with an operator pending
      exactly when an operand is committed keeps that shape. */
  function OnChooseOperation(f: FloatOps, s: State, op: string): (r: State)
    ensures Paired(s) ==> Paired(r)
    ensures s.previous.Some? || s.current.Some? ==> Paired(r) && (r == Empty || r.operation == Some(op))
  {
    if s.previous.None? && s.current.None? then
      if op == "-" then s.(current := Some("-")) else s
    else if s.previous.None? then
      s.(previous := Some(s.current.value), operation := Some(op), current := None)
    else if s.operation.Some? && s.current.None? then
      s.(operation := Some(op))
    else
      match Evaluate(f, s.previous, s.current, s.operation)
      case DivByZero => Empty
      case Ok(result) => s.(previous := Some(result), current := None, operation := Some(op))
  }

  /** EVALUATE: a full triple is consumed (reset on a division by zero),
      anything less is left alone. */
  function OnEquals(f: FloatOps, s: State): (r: State)
    ensures s.operation.None? || s.previous.None? || s.current.None? ==> r == s
    ensures s.operation.Some? && s.previous.Some? && s.current.Some? ==>
              r.previous.None? && r.operation.None? && (r == Empty || r.current.Some?)
  {
    if s.operation.None? || s.previous.None? || s.current.None? then s
    else
      match Evaluate(f, s.previous, s.current, s.operation)
      case DivByZero => Empty
      case Ok(result) => s.(current := Some(result), previous := None, operation := None)
  }

  /** `reducer(state, action)`. */
  function Step(f: FloatOps, s: State, a: Intent): (r: State)
    ensures Paired(s) ==> Paired(r)
    ensures a.Clear? ==> r == Empty
  {
    match a
    case AddDigit(digit) => OnAddDigit(s, digit)
    case Clear => Empty
    case DeleteDigit => OnDeleteDigit(s)
    case ChooseOperation(op) => OnChooseOperation(f, s, op)
    case Equals => OnEquals(f, s)
  }

  // ---------------------------------------------------------------------
  // ADD_DIGIT and DELETE_DIGIT

  /** The decimal-point guard and the append rule. */
  lemma AddDigitCases(s: State, digit: string)
    ensures digit == "." && s.current.None? ==> OnAddDigit(s, digit) == s.(current := Some("0."))
    ensures digit == "." && s.current == Some("-") ==> OnAddDigit(s, digit) == s.(current := Some("-0."))
    ensures digit == "." && s.current.Some? && '.' in s.current.value ==> OnAddDigit(s, digit) == s
    ensures !(digit == "." && (s.current.None? || s.current == Some("-") || '.' in s.current.value)) ==>
              OnAddDigit(s, digit) == s.(current := Some(TextOf(s.current) + digit))
    ensures s.current == Some("3") && digit == "." ==> OnAddDigit(s, digit).current == Some("3.")
    ensures s.current == Some("0") && digit == "0" ==> OnAddDigit(s, digit).current == Some("00")
  {
    assert "3" + "." == "3.";
    assert "0" + "0" == "00";
  }

  /** Typing one character never gives an operand a second decimal point. */
  lemma AddDigitKeepsOneDot(s: State, digit: string)
    requires |digit| == 1
    requires s.current.Some? ==> multiset(s.current.value)['.'] <= 1
    ensures multiset(OnAddDigit(s, digit).current.value)['.'] <= 1
  {
  }

  /** DELETE_DIGIT undoes the ADD_DIGIT of one character that was appended. */
  lemma DeleteUndoesAddDigit(s: State, digit: string)
    requires s.current.Some?
    requires |digit| == 1
    requires digit == "." ==> s.current.value != "-" && '.' !in s.current.value
    ensures OnDeleteDigit(OnAddDigit(s, digit)) == s
  {
  }

  /** CLEAR resets from any state, so clearing twice is clearing once. */
  lemma ClearIdempotent(f: FloatOps, s: State)
    ensures Step(f, s, Clear) == Empty
    ensures Step(f, Step(f, s, Clear), Clear) == Step(f, s, Clear)
  {
  }

  // ---------------------------------------------------------------------
  // CHOOSE_OPERATION

  /** With nothing typed, `-` starts a negative number; any other operator is
      ignored. */
  lemma ChooseOperationOnNothing(f: FloatOps, s: State, op: string)
    requires s.previous.None? && s.current.None?
    ensures op == "-" ==> OnChooseOperation(f, s, op) == s.(current := Some("-"))
    ensures op != "-" ==> OnChooseOperation(f, s, op) == s
  {
  }

  /** The first operator commits the typed operand, whatever its text. */
  lemma ChooseOperationCommits(f: FloatOps, s: State, op: string)
    requires s.previous.None? && s.current.Some?
    ensures OnChooseOperation(f, s, op) == State(None, s.current, Some(op))
  {
  }

  /** Choosing again before a second operand only replaces the operator. */
  lemma ChooseOperationSwitches(f: FloatOps, s: State, op: string)
    requires s.previous.Some? && s.operation.Some? && s.current.None?
    ensures OnChooseOperation(f, s, op) == s.(operation := Some(op))
  {
  }

  /** With a full triple the pending operation is carried out first (left to
      right chaining); a division by zero resets everything. */
  lemma ChooseOperationChains(f: FloatOps, s: State, op: string)
    requires s.previous.Some? && s.current.Some?
    ensures Evaluate(f, s.previous, s.current, s.operation).DivByZero? ==>
              OnChooseOperation(f, s, op) == Empty
    ensures Evaluate(f, s.previous, s.current, s.operation).Ok? ==>
              OnChooseOperation(f, s, op) ==
                State(None, Some(Evaluate(f, s.previous, s.current, s.operation).text), Some(op))
  {
  }

  /** Whenever the first choice does not reset, the last operator chosen is
      the one that stays pending. */
  lemma LastOperatorWins(f: FloatOps, s: State, op1: string, op2: string)
    requires s.current.Some?
    requires s.previous.Some? ==> Evaluate(f, s.previous, s.current, s.operation).Ok?
    ensures OnChooseOperation(f, OnChooseOperation(f, s, op1), op2) == OnChooseOperation(f, s, op2)
  {
  }

  // ---------------------------------------------------------------------
  // EVALUATE

  /** A full triple becomes the result alone, or the empty state on a
      division by zero. */
  lemma EqualsCases(f: FloatOps, s: State)
    requires s.operation.Some? && s.previous.Some? && s.current.Some?
    ensures Evaluate(f, s.previous, s.current, s.operation).DivByZero? ==> OnEquals(f, s) == Empty
    ensures Evaluate(f, s.previous, s.current, s.operation).Ok? ==>
              OnEquals(f, s) == State(Some(Evaluate(f, s.previous, s.current, s.operation).text), None, None)
  {
  }

  /** Pressing `=` a second time changes nothing. */
  lemma EqualsIdempotent(f: FloatOps, s: State)
    ensures OnEquals(f, OnEquals(f, s)) == OnEquals(f, s)
  {
  }
}
