/** Formula.Evaluate as the loop it is: one pass over the tokens with a value stack and an
    operator stack, the top of each at the end of its sequence. Every branch of the loop
    body is one branch of Machine.Step, and the method is proved to return what the
    machine computes, and so the value of the parsed expression of a constructed formula.
    The branch methods below restate the machine's step functions on purpose: the
    functions are what the lemmas about whole runs reason with, and the methods are the
    in-place loop body of the source, each proved equal to its function. */
module Evaluator {
  import opened Results
  import opened TokenClasses
  import opened Validator
  import opened Syntax
  import opened Parser
  import opened Machine

  /** Evaluate(lookup): the stacks after each token are the machine's; an exception ends
      the loop with the machine's error. On a formula the constructor returns, the result is
      the value of its expression with the standard precedence, and the only failure is an
      evaluation error (an undefined variable or a division by zero). */
  method Evaluate(f: Formula, lookup: string -> Option<real>) returns (r: Result<real>)
    ensures r == Evaluation(f.tokens, lookup)
    ensures f.Valid() ==> r == Value(Parse(f.tokens), lookup)
    ensures f.Valid() && r.Failure? ==> r.error == EvaluationError
  {
    FormulaEvaluation(f, lookup);
    var tokens := f.tokens;
    var valueStack: seq<real> := [];
    var operatorStack: seq<string> := [];
    var i := 0;
    while i < |tokens|
      invariant 0 <= i <= |tokens|
      invariant Run(Start, tokens[..i], lookup) == Running(valueStack, operatorStack)
    {
      var t := tokens[i];
      RunPrefix(tokens, i, lookup);
      var next: State;
      if IsDouble(t) {
        next := PushOperand(valueStack, operatorStack, NumberValue(t));
      } else if IsVariable(t) {
        var found := lookup(t);
        if found.None? {
          next := Halted(EvaluationError);
        } else {
          next := PushOperand(valueStack, operatorStack, found.value);
        }
      } else if t == "+" || t == "-" {
        next := PushAdditive(valueStack, operatorStack, t);
      } else if t == "*" || t == "/" || t == "(" {
        next := Running(valueStack, operatorStack + [t]);
      } else {
        next := CloseParenthesis(valueStack, operatorStack);
      }
      match next
      case Halted(err) =>
        HaltedEvaluation(tokens, i + 1, err, lookup);
        return Failure(err);
      case Running(values, ops) =>
        valueStack, operatorStack := values, ops;
      i := i + 1;
    }
    assert tokens[..i] == tokens;
    if |operatorStack| == 0 {
      if |valueStack| == 0 {
        return Failure(EmptyStack);
      }
      return Success(valueStack[|valueStack| - 1]);
    }
    if |valueStack| < 2 {
      return Failure(EmptyStack);
    }
    var second, first := valueStack[|valueStack| - 1], valueStack[|valueStack| - 2];
    return Success(Combine(Top(operatorStack), first, second));
  }

  /** A number or a variable's value arrives (the first two branches of the loop). */
  method PushOperand(valueStack: seq<real>, operatorStack: seq<string>, v: real) returns (s: State)
    ensures s == Operand(valueStack, operatorStack, v)
  {
    if |operatorStack| != 0 && Top(operatorStack) == "*" {
      if |valueStack| == 0 {
        return Halted(EmptyStack);
      }
      var first := valueStack[|valueStack| - 1];
      return Running(valueStack[..|valueStack| - 1] + [Times(first, v)], operatorStack[..|operatorStack| - 1]);
    } else if |operatorStack| != 0 && Top(operatorStack) == "/" {
      if v == 0.0 {
        return Halted(EvaluationError);
      }
      if |valueStack| == 0 {
        return Halted(EmptyStack);
      }
      var first := valueStack[|valueStack| - 1];
      return Running(valueStack[..|valueStack| - 1] + [Over(first, v)], operatorStack[..|operatorStack| - 1]);
    }
    return Running(valueStack + [v], operatorStack);
  }

  /** The pending `+` or `-` on top applied to the two values on top: the second value
      popped is the first operand. */
  method ApplyTop(valueStack: seq<real>, operatorStack: seq<string>) returns (s: State)
    requires |operatorStack| > 0 && IsAddOp(Top(operatorStack))
    ensures s == ApplyAdditive(valueStack, operatorStack)
  {
    if |valueStack| < 2 {
      return Halted(EmptyStack);
    }
    var second, first := valueStack[|valueStack| - 1], valueStack[|valueStack| - 2];
    return Running(valueStack[..|valueStack| - 2] + [Combine(Top(operatorStack), first, second)],
      operatorStack[..|operatorStack| - 1]);
  }

  /** A `+` or `-` arrives (the third branch of the loop). */
  method PushAdditive(valueStack: seq<real>, operatorStack: seq<string>, t: string) returns (s: State)
    ensures s == AddOperator(valueStack, operatorStack, t)
  {
    if |operatorStack| != 0 && IsAddOp(Top(operatorStack)) {
      var applied := ApplyTop(valueStack, operatorStack);
      match applied
      case Halted(err) =>
        return Halted(err);
      case Running(values, ops) =>
        return Running(values, ops + [t]);
    }
    return Running(valueStack, operatorStack + [t]);
  }

  /** A `)` arrives (the last branch of the loop): a pending `+` or `-` is applied, the
      `(` popped, and a `*` or `/` under it applied to the group's value. Peeking or
      popping an empty stack is the error EmptyStack. */
  method CloseParenthesis(valueStack0: seq<real>, operatorStack0: seq<string>) returns (s: State)
    ensures s == CloseParen(valueStack0, operatorStack0)
  {
    var valueStack, operatorStack := valueStack0, operatorStack0;
    if |operatorStack| == 0 {
      return Halted(EmptyStack);
    }
    if IsAddOp(Top(operatorStack)) {
      var applied := ApplyTop(valueStack, operatorStack);
      match applied
      case Halted(err) =>
        return Halted(err);
      case Running(values, ops) =>
        valueStack, operatorStack := values, ops;
    }
    assert CloseParen(valueStack0, operatorStack0) == PopParen(valueStack, operatorStack);
    if |operatorStack| == 0 {
      return Halted(EmptyStack);
    }
    operatorStack := operatorStack[..|operatorStack| - 1];
    if |operatorStack| != 0 && Top(operatorStack) == "*" {
      if |valueStack| < 2 {
        return Halted(EmptyStack);
      }
      var second, first := valueStack[|valueStack| - 1], valueStack[|valueStack| - 2];
      return Running(valueStack[..|valueStack| - 2] + [Times(first, second)], operatorStack[..|operatorStack| - 1]);
    } else if |operatorStack| != 0 && Top(operatorStack) == "/" {
      if |valueStack| == 0 {
        return Halted(EmptyStack);
      }
      if valueStack[|valueStack| - 1] == 0.0 {
        return Halted(EvaluationError);
      }
      if |valueStack| < 2 {
        return Halted(EmptyStack);
      }
      var second, first := valueStack[|valueStack| - 1], valueStack[|valueStack| - 2];
      return Running(valueStack[..|valueStack| - 2] + [Over(first, second)], operatorStack[..|operatorStack| - 1]);
    }
    return Running(valueStack, operatorStack);
  }

  /** The machine after one more token. */
  lemma RunPrefix(ts: seq<string>, i: nat, lookup: string -> Option<real>)
    requires i < |ts|
    ensures Run(Start, ts[..i + 1], lookup) == Step(Run(Start, ts[..i], lookup), ts[i], lookup)
  {
    assert ts[..i + 1][..i] == ts[..i];
  }

  /** A machine halted after some of the tokens stays halted to the end. */
  lemma HaltedEvaluation(ts: seq<string>, i: nat, err: Error, lookup: string -> Option<real>)
    requires i <= |ts| && Run(Start, ts[..i], lookup) == Halted(err)
    ensures Evaluation(ts, lookup) == Failure(err)
  {
    assert ts[..i] + ts[i..] == ts;
    RunAppend(Start, ts[..i], ts[i..], lookup);
    RunHalted(err, ts[i..], lookup);
  }

  /** What the machine computes for a constructed formula: the value of its expression,
      which fails only with an evaluation error. */
  lemma FormulaEvaluation(f: Formula, lookup: string -> Option<real>)
    ensures f.Valid() ==> Evaluation(f.tokens, lookup) == Value(Parse(f.tokens), lookup)
    ensures f.Valid() && Evaluation(f.tokens, lookup).Failure? ==> Evaluation(f.tokens, lookup).error == EvaluationError
  {
    if f.Valid() {
      EvaluationIsValue(f.tokens, lookup);
      ParseSum(f.tokens);
      FailureIsEvaluationError(Parse(f.tokens), lookup);
    }
  }

  /** A variable of a constructed formula that `lookup` leaves undefined makes the
      evaluation fail with an evaluation error. */
  lemma UndefinedVariableEvaluation(f: Formula, lookup: string -> Option<real>, x: string)
    requires f.Valid() && IsVariable(x) && x in f.tokens && lookup(x).None?
    ensures Evaluation(f.tokens, lookup) == Failure(EvaluationError)
  {
    FormulaEvaluation(f, lookup);
    ParseSum(f.tokens);
    var i :| 0 <= i < |f.tokens| && f.tokens[i] == x;
    assert Tokens(Parse(f.tokens))[i] == x;
    UndefinedVariableFails(Parse(f.tokens), lookup, x);
  }
}
