/** A calculator session: the states `useReducer(reducer, {})` goes through
    as intents are dispatched one after another, and what holds in all of
    them. */
module Sessions {
  import opened Options
  import opened Evaluator
  import opened Calculator

  /** The state after dispatching `intents` in order, starting from `s`. */
  function Run(f: FloatOps, s: State, intents: seq<Intent>): State
    decreases |intents|
  {
    if intents == [] then s else Run(f, Step(f, s, intents[0]), intents[1..])
  }

  /** Dispatching two batches is dispatching their concatenation. */
  lemma {:induction false} RunAppend(f: FloatOps, s: State, xs: seq<Intent>, ys: seq<Intent>)
    ensures Run(f, s, xs + ys) == Run(f, Run(f, s, xs), ys)
    decreases |xs|
  {
    if xs == [] {
      assert xs + ys == ys;
    } else {
      assert (xs + ys)[1..] == xs[1..] + ys;
      RunAppend(f, Step(f, s, xs[0]), xs[1..], ys);
    }
  }

  /** A session that ends with CLEAR ends in the empty state, whatever came
      before. */
  lemma ClearEndsSession(f: FloatOps, s: State, intents: seq<Intent>)
    ensures Run(f, s, intents + [Clear]) == Empty
  {
    RunAppend(f, s, intents, [Clear]);
  }

  /** Every dispatch keeps the pairing of operator and committed operand. */
  lemma {:induction false} RunKeepsPaired(f: FloatOps, s: State, intents: seq<Intent>)
    requires Paired(s)
    ensures Paired(Run(f, s, intents))
    decreases |intents|
  {
    if intents != [] {
      RunKeepsPaired(f, Step(f, s, intents[0]), intents[1..]);
    }
  }

  /** In every state reachable from `{}`, `operation` is set exactly when
      `previousOperand` is. */
  lemma ReachablePaired(f: FloatOps, intents: seq<Intent>)
    ensures Paired(Run(f, Empty, intents))
  {
    RunKeepsPaired(f, Empty, intents);
  }

  /** The characters the keypad's digit buttons send. */
  const KeypadDigits: set<string> := {"0", "1", "2", "3", "4", "5", "6", "7", "8", "9", "."}

  /** An intent the on-screen buttons can dispatch. */
  predicate FromKeypad(a: Intent)
  {
    match a
    case AddDigit(digit) => digit in KeypadDigits
    case ChooseOperation(op) => op in Operators
    case _ => true
  }

  predicate AtMostOneDot(operand: Option<string>)
  {
    operand.Some? ==> multiset(operand.value)['.'] <= 1
  }

  /** What every reachable calculator state satisfies. */
  predicate WellFormed(s: State)
  {
    && Paired(s)
    && AtMostOneDot(s.current)
    && AtMostOneDot(s.previous)
    && (s.operation.Some? ==> s.operation.value in Operators)
  }

  /** Number.prototype.toString never prints more than one decimal point. */
  ghost predicate PrintsOneDotAtMost(f: FloatOps)
  {
    forall x :: multiset(f.show(x))['.'] <= 1
  }

  /** A result the evaluator hands back is a well-shaped operand. */
  lemma EvaluateGivesOneDot(f: FloatOps, previous: Option<string>, current: Option<string>, operation: Option<string>)
    requires PrintsOneDotAtMost(f)
    requires Evaluate(f, previous, current, operation).Ok?
    ensures AtMostOneDot(Some(Evaluate(f, previous, current, operation).text))
  {
  }

  /** One keypad dispatch keeps a state well formed. */
  lemma StepKeepsWellFormed(f: FloatOps, s: State, a: Intent)
    requires PrintsOneDotAtMost(f)
    requires WellFormed(s) && FromKeypad(a)
    ensures WellFormed(Step(f, s, a))
  {
  }

  /** A session of keypad intents never leaves the well-formed states. */
  lemma {:induction false} RunKeepsWellFormed(f: FloatOps, s: State, intents: seq<Intent>)
    requires PrintsOneDotAtMost(f)
    requires WellFormed(s)
    requires forall i :: 0 <= i < |intents| ==> FromKeypad(intents[i])
    ensures WellFormed(Run(f, s, intents))
    decreases |intents|
  {
    if intents != [] {
      StepKeepsWellFormed(f, s, intents[0]);
      RunKeepsWellFormed(f, Step(f, s, intents[0]), intents[1..]);
    }
  }

  /** Every state a keypad session reaches from `{}` is well formed. */
  lemma ReachableWellFormed(f: FloatOps, intents: seq<Intent>)
    requires PrintsOneDotAtMost(f)
    requires forall i :: 0 <= i < |intents| ==> FromKeypad(intents[i])
    ensures WellFormed(Run(f, Empty, intents))
  {
    RunKeepsWellFormed(f, Empty, intents);
  }
}
