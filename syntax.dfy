/** The expressions a formula denotes, with the standard precedence of the four
    operators, and their value: the reference meaning against which Evaluate is proved. */
module Syntax {
  import opened Results
  import opened TokenClasses

  datatype Op = Add | Sub | Mul | Div

  /** An expression tree. A number keeps the literal it was written as, so that printing
      a tree gives back its tokens; `Group` is a parenthesized expression. */
  datatype Expr =
    | Number(literal: string)
    | Variable(name: string)
    | Binary(left: Expr, op: Op, right: Expr)
    | Group(inner: Expr)

  function OpToken(op: Op): (t: string)
    ensures IsOperator(t)
  {
    match op
    case Add => "+"
    case Sub => "-"
    case Mul => "*"
    case Div => "/"
  }

  predicate IsAdditive(op: Op) {
    op == Add || op == Sub
  }

  /** The tokens of an expression, left to right. */
  function Tokens(e: Expr): (ts: seq<string>)
    ensures |ts| > 0
  {
    match e
    case Number(t) => [t]
    case Variable(x) => [x]
    case Binary(l, op, r) => Tokens(l) + [OpToken(op)] + Tokens(r)
    case Group(inner) => ["("] + Tokens(inner) + [")"]
  }

  // ---------------------------------------------------------------------------
  // The grammar with precedence:
  //   sum    ::= sum ('+' | '-') term | term
  //   term   ::= term ('*' | '/') factor | factor
  //   factor ::= number | variable | '(' sum ')'
  // Left recursion makes every operator left-associative, and a product binds
  // tighter than a sum.
  // ---------------------------------------------------------------------------

  predicate IsSum(e: Expr)
    decreases e, 2
  {
    match e
    case Binary(l, op, r) => if IsAdditive(op) then IsSum(l) && IsTerm(r) else IsTerm(e)
    case _ => IsTerm(e)
  }

  predicate IsTerm(e: Expr)
    decreases e, 1
  {
    match e
    case Binary(l, op, r) => !IsAdditive(op) && IsTerm(l) && IsFactor(r)
    case _ => IsFactor(e)
  }

  predicate IsFactor(e: Expr)
    decreases e, 0
  {
    match e
    case Number(t) => IsDouble(t)
    case Variable(x) => IsVariable(x)
    case Binary(_, _, _) => false
    case Group(inner) => IsSum(inner)
  }

  /** Every term is a sum and every factor a term. */
  lemma TermIsSum(e: Expr)
    requires IsTerm(e)
    ensures IsSum(e)
  {
  }

  lemma FactorIsTerm(e: Expr)
    requires IsFactor(e)
    ensures IsTerm(e)
  {
  }

  // ---------------------------------------------------------------------------
  // Value
  // ---------------------------------------------------------------------------

  /** The product and the quotient of two values, named so that the verifier compares
      them by their operands. */
  function Times(a: real, b: real): real {
    a * b
  }

  function Over(a: real, b: real): real
    requires b != 0.0
  {
    a / b
  }

  /** One operator applied to two values; dividing by exactly zero is an evaluation error. */
  function Apply(op: Op, a: real, b: real): (r: Result<real>)
    ensures r.Failure? <==> op == Div && b == 0.0
    ensures r.Failure? ==> r.error == EvaluationError
  {
    match op
    case Add => Success(a + b)
    case Sub => Success(a - b)
    case Mul => Success(Times(a, b))
    case Div => if b == 0.0 then Failure(EvaluationError) else Success(Over(a, b))
  }

  /** The value of an expression, the variables valued by `lookup`. The left operand is
      evaluated before the right one, and the first failure is the result. A number that
      is not a literal has no value (such a tree is not the parse of a formula). */
  function Value(e: Expr, lookup: string -> Option<real>): Result<real> {
    match e
    case Number(t) => if IsDouble(t) then Success(NumberValue(t)) else Failure(FormatError)
    case Variable(x) => if lookup(x).Some? then Success(lookup(x).value) else Failure(EvaluationError)
    case Binary(l, op, r) =>
      (match Value(l, lookup)
       case Failure(err) => Failure(err)
       case Success(a) =>
         (match Value(r, lookup)
          case Failure(err) => Failure(err)
          case Success(b) => Apply(op, a, b)))
    case Group(inner) => Value(inner, lookup)
  }

  /** An operation on two operands that have values is the operator applied to them. */
  lemma BinaryValue(l: Expr, op: Op, r: Expr, a: real, b: real, lookup: string -> Option<real>)
    requires Value(l, lookup) == Success(a) && Value(r, lookup) == Success(b)
    ensures Value(Binary(l, op, r), lookup) == Apply(op, a, b)
  {
  }

  /** The variables of an expression are the variable tokens it prints. */
  predicate Mentions(e: Expr, x: string) {
    exists i :: 0 <= i < |Tokens(e)| && Tokens(e)[i] == x
  }

  /** Every failure of a formula's expression is an evaluation error, and a formula
      with a variable that `lookup` leaves undefined fails. */
  lemma {:induction false} FailureIsEvaluationError(e: Expr, lookup: string -> Option<real>)
    requires IsSum(e)
    ensures Value(e, lookup).Failure? ==> Value(e, lookup).error == EvaluationError
    decreases e, 1
  {
    if e.Binary? && IsAdditive(e.op) {
      FailureIsEvaluationError(e.left, lookup);
      TermFailureIsEvaluationError(e.right, lookup);
    } else {
      TermFailureIsEvaluationError(e, lookup);
    }
  }

  lemma {:induction false} TermFailureIsEvaluationError(e: Expr, lookup: string -> Option<real>)
    requires IsTerm(e)
    ensures Value(e, lookup).Failure? ==> Value(e, lookup).error == EvaluationError
    decreases e, 0
  {
    match e
    case Number(t) =>
    case Variable(x) =>
    case Binary(l, op, r) =>
      TermFailureIsEvaluationError(l, lookup);
      TermFailureIsEvaluationError(r, lookup);
    case Group(inner) =>
      FailureIsEvaluationError(inner, lookup);
  }

  /** A variable of the expression that `lookup` does not define makes its value a failure. */
  lemma {:induction false} UndefinedVariableFails(e: Expr, lookup: string -> Option<real>, x: string)
    requires IsVariable(x) && Mentions(e, x) && lookup(x).None?
    ensures Value(e, lookup).Failure?
  {
    var i :| 0 <= i < |Tokens(e)| && Tokens(e)[i] == x;
    match e
    case Number(t) =>
      ClassesDisjoint(x);
    case Variable(y) =>
    case Binary(l, op, r) =>
      if i < |Tokens(l)| {
        assert Tokens(l)[i] == x;
        UndefinedVariableFails(l, lookup, x);
      } else if i > |Tokens(l)| {
        assert Tokens(r)[i - |Tokens(l)| - 1] == x;
        UndefinedVariableFails(r, lookup, x);
      }
    case Group(inner) =>
      if 0 < i < |Tokens(e)| - 1 {
        assert Tokens(inner)[i - 1] == x;
        UndefinedVariableFails(inner, lookup, x);
      }
  }
}
