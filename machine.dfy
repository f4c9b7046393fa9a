/** The two-stack machine of Formula.Evaluate, one token at a time: a value stack and an
    operator stack, the top of each at the end of its sequence. An exception halts the
    machine; a pop or a peek of an empty stack is the error EmptyStack. The lemmas show
    that on well-formed tokens the machine computes the value of the parsed expression,
    so that it never touches an empty stack. */
module Machine {
  import opened Results
  import opened TokenClasses
  import opened Validator
  import opened Syntax
  import opened Parser

  /** The machine between two tokens: running with its two stacks, or halted by an error. */
  datatype State =
    | Running(values: seq<real>, ops: seq<string>)
    | Halted(error: Error)

  const Start := Running([], [])

  /** The operator on top of a non-empty operator stack. */
  function Top(ops: seq<string>): string
    requires |ops| > 0
  {
    ops[|ops| - 1]
  }

  predicate IsAddOp(t: string) {
    t == "+" || t == "-"
  }

  /** A number or a variable's value arrives: a `*` or `/` on top of the operator stack
      is applied at once to the value below it and the new one; otherwise the value is
      pushed. Dividing by exactly zero is an evaluation error. */
  function Operand(vs: seq<real>, os: seq<string>, v: real): (r: State)
    ensures r.Running? ==> |r.values| >= 1 && r.ops <= os
    ensures r.Halted? ==> |os| > 0 && (Top(os) == "*" || Top(os) == "/")
  {
    if |os| > 0 && Top(os) == "*" then
      if |vs| == 0 then Halted(EmptyStack)
      else Running(vs[..|vs| - 1] + [Times(vs[|vs| - 1], v)], os[..|os| - 1])
    else if |os| > 0 && Top(os) == "/" then
      if v == 0.0 then Halted(EvaluationError)
      else if |vs| == 0 then Halted(EmptyStack)
      else Running(vs[..|vs| - 1] + [Over(vs[|vs| - 1], v)], os[..|os| - 1])
    else Running(vs + [v], os)
  }

  /** The `+` or `-` written `t` applied to two values. */
  function Combine(t: string, a: real, b: real): real {
    if t == "+" then a + b else a - b
  }

  /** The `+` or `-` on top of the operator stack applied to the two values on top of the
      value stack: the second value popped is the left operand. */
  function ApplyAdditive(vs: seq<real>, os: seq<string>): (r: State)
    requires |os| > 0 && IsAddOp(Top(os))
    ensures r.Halted? <==> |vs| < 2
    ensures r.Halted? ==> r.error == EmptyStack
    ensures r.Running? ==> |r.values| == |vs| - 1 && r.ops == os[..|os| - 1]
  {
    if |vs| < 2 then Halted(EmptyStack)
    else
      var a, b := vs[|vs| - 2], vs[|vs| - 1];
      Running(vs[..|vs| - 2] + [Combine(Top(os), a, b)], os[..|os| - 1])
  }

  /** A `+` or `-` arrives: a pending `+` or `-` is applied first, then it is pushed. */
  function AddOperator(vs: seq<real>, os: seq<string>, t: string): (r: State)
    ensures r.Running? ==> |r.ops| > 0 && Top(r.ops) == t
  {
    if |os| > 0 && IsAddOp(Top(os)) then
      match ApplyAdditive(vs, os)
      case Halted(err) => Halted(err)
      case Running(vs1, os1) => Running(vs1, os1 + [t])
    else Running(vs, os + [t])
  }

  /** A `)` arrives: a pending `+` or `-` is applied, then the matching `(` is popped. */
  function CloseParen(vs: seq<real>, os: seq<string>): State {
    if |os| == 0 then Halted(EmptyStack)
    else if IsAddOp(Top(os)) then
      match ApplyAdditive(vs, os)
      case Halted(err) => Halted(err)
      case Running(vs1, os1) => PopParen(vs1, os1)
    else PopParen(vs, os)
  }

  /** The operator on top (the matching `(`) is popped, and then a `*` or `/` below it is
      applied to the value of the group. The division checks the value on top before
      popping it. */
  function PopParen(vs: seq<real>, os0: seq<string>): State {
    if |os0| == 0 then Halted(EmptyStack)
    else
      var os := os0[..|os0| - 1];
      if |os| > 0 && Top(os) == "*" then
        if |vs| < 2 then Halted(EmptyStack)
        else Running(vs[..|vs| - 2] + [Times(vs[|vs| - 2], vs[|vs| - 1])], os[..|os| - 1])
      else if |os| > 0 && Top(os) == "/" then
        if |vs| == 0 then Halted(EmptyStack)
        else if vs[|vs| - 1] == 0.0 then Halted(EvaluationError)
        else if |vs| < 2 then Halted(EmptyStack)
        else Running(vs[..|vs| - 2] + [Over(vs[|vs| - 2], vs[|vs| - 1])], os[..|os| - 1])
      else Running(vs, os)
  }

  /** One iteration of the evaluation loop: the token's class picks the branch. */
  function Step(s: State, t: string, lookup: string -> Option<real>): State {
    match s
    case Halted(_) => s
    case Running(vs, os) =>
      if IsDouble(t) then Operand(vs, os, NumberValue(t))
      else if IsVariable(t) then
        if lookup(t).None? then Halted(EvaluationError) else Operand(vs, os, lookup(t).value)
      else if IsAddOp(t) then AddOperator(vs, os, t)
      else if t == "*" || t == "/" || t == "(" then Running(vs, os + [t])
      else CloseParen(vs, os)
  }

  /** The machine after the tokens `ts`, from `s`; an error halts it for good. */
  function Run(s: State, ts: seq<string>, lookup: string -> Option<real>): State
    decreases |ts|
  {
    if |ts| == 0 then s else Step(Run(s, ts[..|ts| - 1], lookup), ts[|ts| - 1], lookup)
  }

  /** After the last token: with no operator left the single value is the result;
      otherwise the remaining `+` or `-` is applied to the two values left. */
  function Finish(s: State): Result<real> {
    match s
    case Halted(err) => Failure(err)
    case Running(vs, os) =>
      if |os| == 0 then
        if |vs| == 0 then Failure(EmptyStack) else Success(vs[|vs| - 1])
      else if |vs| < 2 then Failure(EmptyStack)
      else Success(Combine(Top(os), vs[|vs| - 2], vs[|vs| - 1]))
  }

  /** What Evaluate returns for the tokens `ts`. */
  function Evaluation(ts: seq<string>, lookup: string -> Option<real>): Result<real> {
    Finish(Run(Start, ts, lookup))
  }

  // ---------------------------------------------------------------------------
  // Runs compose
  // ---------------------------------------------------------------------------

  lemma {:induction false} RunHalted(err: Error, ts: seq<string>, lookup: string -> Option<real>)
    ensures Run(Halted(err), ts, lookup) == Halted(err)
    decreases |ts|
  {
    if |ts| > 0 {
      RunHalted(err, ts[..|ts| - 1], lookup);
    }
  }

  /** Running two token sequences one after the other is running their concatenation. */
  lemma {:induction false} RunAppend(s: State, a: seq<string>, b: seq<string>, lookup: string -> Option<real>)
    ensures Run(s, a + b, lookup) == Run(Run(s, a, lookup), b, lookup)
    decreases |b|
  {
    if |b| == 0 {
      assert a + b == a;
    } else {
      assert (a + b)[..|a + b| - 1] == a + b[..|b| - 1];
      RunAppend(s, a, b[..|b| - 1], lookup);
    }
  }

  lemma RunOne(s: State, t: string, lookup: string -> Option<real>)
    ensures Run(s, [t], lookup) == Step(s, t, lookup)
  {
    assert [t][..0] == [];
  }

  // ---------------------------------------------------------------------------
  // One step per token class
  // ---------------------------------------------------------------------------

  lemma StepPush(vs: seq<real>, os: seq<string>, t: string, lookup: string -> Option<real>)
    requires t == "*" || t == "/" || t == "("
    ensures Step(Running(vs, os), t, lookup) == Running(vs, os + [t])
  {
    ClassesDisjoint(t);
  }

  lemma StepAdd(vs: seq<real>, os: seq<string>, t: string, lookup: string -> Option<real>)
    requires IsAddOp(t)
    ensures Step(Running(vs, os), t, lookup) == AddOperator(vs, os, t)
  {
    ClassesDisjoint(t);
  }

  lemma StepClose(vs: seq<real>, os: seq<string>, lookup: string -> Option<real>)
    ensures Step(Running(vs, os), ")", lookup) == CloseParen(vs, os)
  {
    ClassesDisjoint(")");
  }

  // ---------------------------------------------------------------------------
  // What a factor, a term and a sum do to the stacks
  // ---------------------------------------------------------------------------

  /** The value of an expression, fed to the machine as an arriving operand. */
  function Feed(v: Result<real>, vs: seq<real>, os: seq<string>): State {
    match v
    case Failure(err) => Halted(err)
    case Success(x) => Operand(vs, os, x)
  }

  /** The value of an expression pushed on the value stack. */
  function Pushed(v: Result<real>, vs: seq<real>, os: seq<string>): State {
    match v
    case Failure(err) => Halted(err)
    case Success(x) => Running(vs + [x], os)
  }

  /** The stacks after a sum: its value pushed, or, when its last operator is a top-level
      `+` or `-`, that operator still pending over the values of its two operands. */
  function AfterSum(e: Expr, vs: seq<real>, os: seq<string>, lookup: string -> Option<real>): State {
    if e.Binary? && IsAdditive(e.op) then
      match Value(e.left, lookup)
      case Failure(err) => Halted(err)
      case Success(a) =>
        match Value(e.right, lookup)
        case Failure(err) => Halted(err)
        case Success(b) => Running(vs + [a, b], os + [OpToken(e.op)])
    else Pushed(Value(e, lookup), vs, os)
  }

  /** Nothing pending that binds tighter than `+` or `-`. */
  predicate NoProductPending(os: seq<string>) {
    |os| == 0 || !(Top(os) == "*" || Top(os) == "/")
  }

  /** At the start of the formula or just after a `(`. */
  predicate AtBoundary(os: seq<string>) {
    |os| == 0 || Top(os) == "("
  }

  /** The tokens of a factor act like one operand with the factor's value. */
  lemma {:induction false} FactorRun(e: Expr, vs: seq<real>, os: seq<string>, lookup: string -> Option<real>)
    requires IsFactor(e)
    ensures Run(Running(vs, os), Tokens(e), lookup) == Feed(Value(e, lookup), vs, os)
    decreases e, 0
  {
    match e
    case Number(t) =>
      RunOne(Running(vs, os), t, lookup);
    case Variable(x) =>
      ClassesDisjoint(x);
      RunOne(Running(vs, os), x, lookup);
    case Group(inner) =>
      var s := Running(vs, os);
      StepPush(vs, os, "(", lookup);
      RunOne(s, "(", lookup);
      SumRun(inner, vs, os + ["("], lookup);
      RunAppend(s, ["("], Tokens(inner), lookup);
      CloseGroup(inner, vs, os, lookup);
  }

  /** The `)` of a group closes what its sum left on the stacks and feeds its value on. */
  lemma CloseGroup(inner: Expr, vs: seq<real>, os: seq<string>, lookup: string -> Option<real>)
    requires IsSum(inner)
    requires Run(Running(vs, os), ["("] + Tokens(inner), lookup) == AfterSum(inner, vs, os + ["("], lookup)
    ensures Run(Running(vs, os), Tokens(Group(inner)), lookup) == Feed(Value(Group(inner), lookup), vs, os)
  {
    var s := Running(vs, os);
    var mid := Run(s, ["("] + Tokens(inner), lookup);
    RunAppend(s, ["("] + Tokens(inner), [")"], lookup);
    assert Tokens(Group(inner)) == ["("] + Tokens(inner) + [")"];
    RunOne(mid, ")", lookup);
    match mid
    case Halted(err) =>
      AfterSumHalted(inner, vs, os + ["("], lookup);
    case Running(mvs, mos) =>
      StepClose(mvs, mos, lookup);
      CloseAfterSum(inner, vs, os, mvs, mos, lookup);
  }

  /** Closing a group over what its sum left. */
  lemma CloseAfterSum(inner: Expr, vs: seq<real>, os: seq<string>, mvs: seq<real>, mos: seq<string>, lookup: string -> Option<real>)
    requires AfterSum(inner, vs, os + ["("], lookup) == Running(mvs, mos)
    ensures CloseParen(mvs, mos) == Feed(Value(inner, lookup), vs, os)
  {
    if inner.Binary? && IsAdditive(inner.op) {
      var a, b := PendingParts(inner, vs, os + ["("], mvs, mos, lookup);
      CloseAdditive(vs, os, a, b, OpToken(inner.op));
    } else {
      var v := PushedParts(inner, vs, os + ["("], mvs, mos, lookup);
      CloseWith(vs, os, v);
    }
  }

  /** A pending `+` or `-` applied to the two values pushed last. */
  lemma ApplyPending(vs: seq<real>, os: seq<string>, x: real, y: real, t: string)
    requires IsAddOp(t)
    ensures ApplyAdditive(vs + [x, y], os + [t]) == Running(vs + [Combine(t, x, y)], os)
  {
    var mvs, mos := vs + [x, y], os + [t];
    assert mvs[..|mvs| - 2] == vs && mvs[|mvs| - 2] == x && mvs[|mvs| - 1] == y;
    assert mos[..|mos| - 1] == os;
  }

  /** A `+` or `-` arriving over a pending one applies it and takes its place. */
  lemma AddAfterPending(vs: seq<real>, os: seq<string>, x: real, y: real, u: string, t: string)
    requires IsAddOp(u)
    ensures AddOperator(vs + [x, y], os + [u], t) == Running(vs + [Combine(u, x, y)], os + [t])
  {
    ApplyPending(vs, os, x, y, u);
  }

  /** What a sum ending in a top-level `+` or `-` leaves when it runs: its two operands'
      values under its operator, which applied to them gives the sum's value. */
  lemma PendingParts(e: Expr, vs: seq<real>, os: seq<string>, mvs: seq<real>, mos: seq<string>, lookup: string -> Option<real>)
    returns (x: real, y: real)
    requires e.Binary? && IsAdditive(e.op)
    requires AfterSum(e, vs, os, lookup) == Running(mvs, mos)
    ensures mvs == vs + [x, y] && mos == os + [OpToken(e.op)]
    ensures Value(e, lookup) == Success(Combine(OpToken(e.op), x, y))
  {
    x, y := Value(e.left, lookup).value, Value(e.right, lookup).value;
  }

  /** What any other sum leaves when it runs: its value, pushed. */
  lemma PushedParts(e: Expr, vs: seq<real>, os: seq<string>, mvs: seq<real>, mos: seq<string>, lookup: string -> Option<real>)
    returns (v: real)
    requires !(e.Binary? && IsAdditive(e.op))
    requires AfterSum(e, vs, os, lookup) == Running(mvs, mos)
    ensures mvs == vs + [v] && mos == os && Value(e, lookup) == Success(v)
  {
    v := Value(e, lookup).value;
  }

  /** Closing a group whose sum left `a`, `b` under a pending `+` or `-`. */
  lemma CloseAdditive(vs: seq<real>, os: seq<string>, a: real, b: real, t: string)
    requires IsAddOp(t)
    ensures CloseParen(vs + [a, b], os + ["("] + [t]) == Operand(vs, os, Combine(t, a, b))
  {
    var mvs, mos := vs + [a, b], os + ["("] + [t];
    var v := Combine(t, a, b);
    assert mvs[|mvs| - 2] == a && mvs[|mvs| - 1] == b && mvs[..|mvs| - 2] == vs;
    assert mos[..|mos| - 1] == os + ["("];
    assert ApplyAdditive(mvs, mos) == Running(vs + [v], os + ["("]);
    CloseWith(vs, os, v);
  }

  /** Closing a group whose sum left its value. */
  lemma CloseWith(vs: seq<real>, os: seq<string>, v: real)
    ensures CloseParen(vs + [v], os + ["("]) == PopParen(vs + [v], os + ["("]) == Operand(vs, os, v)
  {
    var mvs, mos := vs + [v], os + ["("];
    assert mos[..|mos| - 1] == os;
    assert mvs[|mvs| - 1] == v;
    if |os| > 0 && (Top(os) == "*" || Top(os) == "/") && |vs| > 0 {
      assert mvs[..|mvs| - 2] == vs[..|vs| - 1];
      assert mvs[|mvs| - 2] == vs[|vs| - 1];
      if Top(os) == "*" {
        assert PopParen(mvs, mos) == Running(vs[..|vs| - 1] + [Times(vs[|vs| - 1], v)], os[..|os| - 1]);
      } else if v != 0.0 {
        assert PopParen(mvs, mos) == Running(vs[..|vs| - 1] + [Over(vs[|vs| - 1], v)], os[..|os| - 1]);
      }
    }
  }

  /** From a state with no pending `*` or `/`, the tokens of a term push its value. */
  lemma {:induction false} TermRun(e: Expr, vs: seq<real>, os: seq<string>, lookup: string -> Option<real>)
    requires IsTerm(e) && NoProductPending(os)
    ensures Run(Running(vs, os), Tokens(e), lookup) == Pushed(Value(e, lookup), vs, os)
    decreases e, 1
  {
    if e.Binary? {
      var s := Running(vs, os);
      var l, op, r := e.left, e.op, e.right;
      var t := OpToken(op);
      TermRun(l, vs, os, lookup);
      RunAppend(s, Tokens(l), [t], lookup);
      RunAppend(s, Tokens(l) + [t], Tokens(r), lookup);
      assert Tokens(e) == Tokens(l) + [t] + Tokens(r);
      match Value(l, lookup)
      case Failure(err) =>
        RunHalted(err, [t], lookup);
        RunHalted(err, Tokens(r), lookup);
      case Success(a) =>
        RunOne(Running(vs + [a], os), t, lookup);
        StepPush(vs + [a], os, t, lookup);
        FactorRun(r, vs + [a], os + [t], lookup);
        ProductOperand(vs, os, a, op, Value(r, lookup));
    } else {
      FactorRun(e, vs, os, lookup);
    }
  }

  /** A `*` or `/` pushed over `a`, then fed the right operand's value. */
  lemma ProductOperand(vs: seq<real>, os: seq<string>, a: real, op: Op, vr: Result<real>)
    requires !IsAdditive(op)
    ensures Feed(vr, vs + [a], os + [OpToken(op)]) ==
      match vr
      case Failure(err) => Halted(err)
      case Success(b) =>
        match Apply(op, a, b)
        case Failure(err) => Halted(err)
        case Success(x) => Running(vs + [x], os)
  {
    var avs, aos := vs + [a], os + [OpToken(op)];
    assert Top(aos) == OpToken(op);
    assert avs[..|avs| - 1] == vs && avs[|avs| - 1] == a;
    assert aos[..|aos| - 1] == os;
    match vr
    case Failure(_) =>
    case Success(b) =>
      if op == Mul {
        assert Operand(avs, aos, b) == Running(vs + [Times(a, b)], os);
      } else if b != 0.0 {
        assert Operand(avs, aos, b) == Running(vs + [Over(a, b)], os);
      }
  }

  /** From the start or just after a `(`, the tokens of a sum leave its value, or its last
      top-level `+` or `-` pending over its two operands. */
  lemma {:induction false} SumRun(e: Expr, vs: seq<real>, os: seq<string>, lookup: string -> Option<real>)
    requires IsSum(e) && AtBoundary(os)
    ensures Run(Running(vs, os), Tokens(e), lookup) == AfterSum(e, vs, os, lookup)
    decreases e, 2
  {
    if e.Binary? && IsAdditive(e.op) {
      var s := Running(vs, os);
      var l, op, r := e.left, e.op, e.right;
      var t := OpToken(op);
      SumRun(l, vs, os, lookup);
      RunAppend(s, Tokens(l), [t], lookup);
      RunAppend(s, Tokens(l) + [t], Tokens(r), lookup);
      assert Tokens(e) == Tokens(l) + [t] + Tokens(r);
      var m := AfterSum(l, vs, os, lookup);
      RunOne(m, t, lookup);
      match m
      case Halted(err) =>
        AfterSumHalted(l, vs, os, lookup);
        RunHalted(err, Tokens(r), lookup);
      case Running(mvs, mos) =>
        StepAdd(mvs, mos, t, lookup);
        var a := AddAfterSum(l, vs, os, mvs, mos, t, lookup);
        assert Run(s, Tokens(e), lookup) == Run(Running(vs + [a], os + [t]), Tokens(r), lookup);
        TermRun(r, vs + [a], os + [t], lookup);
        PendingAfterTerm(e, vs, os, a, lookup);
    } else {
      TermRun(e, vs, os, lookup);
    }
  }

  /** Once the left operand of a sum has pushed its value and the sum's operator waits,
      the right operand's value completes what the sum leaves. */
  lemma PendingAfterTerm(e: Expr, vs: seq<real>, os: seq<string>, a: real, lookup: string -> Option<real>)
    requires e.Binary? && IsAdditive(e.op) && Value(e.left, lookup) == Success(a)
    ensures AfterSum(e, vs, os, lookup) == Pushed(Value(e.right, lookup), vs + [a], os + [OpToken(e.op)])
  {
    match Value(e.right, lookup)
    case Failure(_) =>
    case Success(b) =>
      assert vs + [a] + [b] == vs + [a, b];
  }

  /** A sum whose stacks are halted has a failing value, with the same error. */
  lemma AfterSumHalted(e: Expr, vs: seq<real>, os: seq<string>, lookup: string -> Option<real>)
    requires AfterSum(e, vs, os, lookup).Halted?
    ensures Value(e, lookup) == Failure(AfterSum(e, vs, os, lookup).error)
  {
  }

  /** A `+` or `-` after a sum applies the sum's pending operator and waits itself. */
  lemma AddAfterSum(l: Expr, vs: seq<real>, os: seq<string>, mvs: seq<real>, mos: seq<string>, t: string, lookup: string -> Option<real>) returns (a: real)
    requires AtBoundary(os) && IsAddOp(t)
    requires AfterSum(l, vs, os, lookup) == Running(mvs, mos)
    ensures Value(l, lookup) == Success(a)
    ensures AddOperator(mvs, mos, t) == Running(vs + [a], os + [t])
  {
    if l.Binary? && IsAdditive(l.op) {
      var x, y := PendingParts(l, vs, os, mvs, mos, lookup);
      a := Combine(OpToken(l.op), x, y);
      AddAfterPending(vs, os, x, y, OpToken(l.op), t);
    } else {
      a := PushedParts(l, vs, os, mvs, mos, lookup);
    }
  }

  // ---------------------------------------------------------------------------
  // Evaluate computes the value of the formula's expression
  // ---------------------------------------------------------------------------

  /** The machine run over the tokens of a sum from the start ends with its value. */
  lemma SumEvaluation(e: Expr, ts: seq<string>, lookup: string -> Option<real>)
    requires IsSum(e) && Tokens(e) == ts
    ensures Evaluation(ts, lookup) == Value(e, lookup)
    ensures Run(Start, ts, lookup) == AfterSum(e, [], [], lookup)
  {
    SumRun(e, [], [], lookup);
    FinishAfterSum(e, Run(Start, ts, lookup), lookup);
  }

  /** Finishing what a whole sum left on the empty stacks gives its value. */
  lemma FinishAfterSum(e: Expr, s: State, lookup: string -> Option<real>)
    requires AfterSum(e, [], [], lookup) == s
    ensures Finish(s) == Value(e, lookup)
  {
    match s
    case Halted(err) =>
      AfterSumHalted(e, [], [], lookup);
    case Running(mvs, mos) =>
      if e.Binary? && IsAdditive(e.op) {
        var a, b := PendingParts(e, [], [], mvs, mos, lookup);
        FinishPending(a, b, OpToken(e.op));
      } else {
        var v := PushedParts(e, [], [], mvs, mos, lookup);
        assert mvs == [v] && mos == [];
      }
  }

  /** Finishing two values under a pending `+` or `-` applies it. */
  lemma FinishPending(a: real, b: real, t: string)
    requires IsAddOp(t)
    ensures Finish(Running([a, b], [t])) == Success(Combine(t, a, b))
  {
  }

  /** On a well-formed token sequence the machine computes the value of the parsed
      expression: in particular it never pops or peeks an empty stack. */
  lemma EvaluationIsValue(ts: seq<string>, lookup: string -> Option<real>)
    requires WellFormed(ts)
    ensures Evaluation(ts, lookup) == Value(Parse(ts), lookup)
  {
    ParseSum(ts);
    SumEvaluation(Parse(ts), ts, lookup);
  }

  /** The stacks after the last token of a well-formed formula: one value and no
      operator, or two values under a single pending `+` or `-`. */
  lemma FinalStacks(ts: seq<string>, lookup: string -> Option<real>)
    requires WellFormed(ts) && Run(Start, ts, lookup).Running?
    ensures var s := Run(Start, ts, lookup);
      || (|s.ops| == 0 && |s.values| == 1)
      || (|s.ops| == 1 && IsAddOp(s.ops[0]) && |s.values| == 2)
  {
    ParseSum(ts);
    SumEvaluation(Parse(ts), ts, lookup);
    SumStacks(Parse(ts), Run(Start, ts, lookup), lookup);
  }

  /** What a whole sum leaves on the stacks, when it does not fail. */
  lemma SumStacks(e: Expr, s: State, lookup: string -> Option<real>)
    requires AfterSum(e, [], [], lookup) == s && s.Running?
    ensures || (|s.ops| == 0 && |s.values| == 1)
            || (|s.ops| == 1 && IsAddOp(s.ops[0]) && |s.values| == 2)
  {
    if e.Binary? && IsAdditive(e.op) {
      var x, y := PendingParts(e, [], [], s.values, s.ops, lookup);
      assert s.ops == [OpToken(e.op)];
    } else {
      var v := PushedParts(e, [], [], s.values, s.ops, lookup);
    }
  }
}
