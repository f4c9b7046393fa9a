/** Worked cases of Evaluate on the tokens of formulas from the project's unit tests:
    precedence, an exponent, a division by zero and an undefined variable. */
module Examples {
  import opened Results
  import opened TokenClasses
  import opened Syntax
  import opened Machine

  /** A literal of digits only is a number whose value is its digits read in base ten. */
  lemma IntegerLiteral(t: string)
    requires |t| > 0 && AllDigits(t)
    ensures IsDouble(t) && NumberValue(t) == DigitsValue(t) as real
  {
    assert IsMantissa(t);
    assert forall k :: 0 <= k < |t| ==> t[k] != 'e' && t[k] != '.';
    assert IndexOf(t, 'e') == |t| && IndexOf(t, '.') == |t|;
  }

  lemma DigitValue(t: string)
    requires |t| == 1 && IsDigit(t[0])
    ensures AllDigits(t) && DigitsValue(t) == t[0] as int - '0' as int
  {
    assert t[..0] == [];
  }

  /** `2 + 3*(3 - 5)` as a tree. */
  function PrecedenceExpr(): Expr {
    Binary(Number("2"), Add, Binary(Number("3"), Mul, Group(Binary(Number("3"), Sub, Number("5")))))
  }

  lemma PrecedenceParsed()
    ensures IsSum(PrecedenceExpr())
    ensures Tokens(PrecedenceExpr()) == ["2", "+", "3", "*", "(", "3", "-", "5", ")"]
  {
    IntegerLiteral("2");
    IntegerLiteral("3");
    IntegerLiteral("5");
    assert Tokens(Binary(Number("3"), Sub, Number("5"))) == ["3", "-", "5"];
  }

  lemma PrecedenceValue(lookup: string -> Option<real>)
    ensures Value(PrecedenceExpr(), lookup) == Success(-4.0)
  {
    DigitValue("2");
    DigitValue("3");
    DigitValue("5");
    IntegerLiteral("2");
    IntegerLiteral("3");
    IntegerLiteral("5");
    assert Value(Binary(Number("3"), Sub, Number("5")), lookup) == Success(-2.0);
    assert Times(3.0, -2.0) == -6.0;
  }

  /** `2 + 3*(3 - 5)` is -4: the product binds tighter than the sum. */
  lemma PrecedenceExample(ts: seq<string>, lookup: string -> Option<real>)
    requires ts == ["2", "+", "3", "*", "(", "3", "-", "5", ")"]
    ensures Evaluation(ts, lookup) == Success(-4.0)
  {
    PrecedenceParsed();
    PrecedenceValue(lookup);
    SumEvaluation(PrecedenceExpr(), ts, lookup);
  }

  /** A thousandth written with a negative exponent. */
  lemma ThousandthLiteral()
    ensures IsDouble("1e-3") && NumberValue("1e-3") == 0.001
  {
    var t := "1e-3";
    DigitValue("1");
    DigitValue("3");
    assert t[..1] == "1" && t[2..] == "-3" && "-3"[1..] == "3";
    assert IsMantissa(t[..1]) && IsExponent(t[2..]);
    assert IndexOf(t, 'e') == 1;
    assert IndexOf("1", '.') == 1;
    assert "-3"[0] == '-' && !IsDigit("-3"[0]);
    assert !AllDigits("-3");
  }

  /** Three numbers added left to right. */
  function LeftSum(a: string, b: string, c: string): Expr {
    Binary(Binary(Number(a), Add, Number(b)), Add, Number(c))
  }

  lemma LeftSumParsed(a: string, b: string, c: string)
    requires IsDouble(a) && IsDouble(b) && IsDouble(c)
    ensures IsSum(LeftSum(a, b, c)) && Tokens(LeftSum(a, b, c)) == [a, "+", b, "+", c]
  {
    var l := Binary(Number(a), Add, Number(b));
    assert IsTerm(Number(a)) && IsSum(Number(a)) && IsTerm(Number(b)) && IsTerm(Number(c));
    assert Tokens(l) == [a, "+", b];
  }

  /** A sum of three operands is the sum of their values taken left to right. */
  lemma LeftSumValue(p: Expr, q: Expr, r: Expr, x: real, y: real, z: real, lookup: string -> Option<real>)
    requires Value(p, lookup) == Success(x) && Value(q, lookup) == Success(y) && Value(r, lookup) == Success(z)
    ensures Value(Binary(Binary(p, Add, q), Add, r), lookup) == Success((x + y) + z)
  {
    BinaryValue(p, Add, q, x, y, lookup);
    BinaryValue(Binary(p, Add, q), Add, r, x + y, z, lookup);
  }

  lemma ExponentLiterals()
    ensures IsDouble("3") && NumberValue("3") == 3.0
    ensures IsDouble("1e-3") && NumberValue("1e-3") == 0.001
    ensures IsDouble("14") && NumberValue("14") == 14.0
  {
    ThousandthLiteral();
    DigitValue("3");
    IntegerLiteral("3");
    assert AllDigits("14") && "14"[..1] == "1";
    DigitValue("1");
    IntegerLiteral("14");
  }

  /** `3 + 1e-3 + 14` is 17.001: the exponent scales the mantissa by a thousandth, and the
      additions associate to the left. */
  lemma ExponentExample(ts: seq<string>, lookup: string -> Option<real>)
    requires ts == ["3", "+", "1e-3", "+", "14"]
    ensures Evaluation(ts, lookup) == Success(17.001)
  {
    ExponentLiterals();
    LeftSumParsed("3", "1e-3", "14");
    LeftSumValue(Number("3"), Number("1e-3"), Number("14"), 3.0, 0.001, 14.0, lookup);
    SumEvaluation(LeftSum("3", "1e-3", "14"), ts, lookup);
  }

  /** `7/0` fails with an evaluation error. */
  lemma DivisionByZeroExample(ts: seq<string>, lookup: string -> Option<real>)
    requires ts == ["7", "/", "0"]
    ensures Evaluation(ts, lookup) == Failure(EvaluationError)
  {
    DigitValue("7");
    DigitValue("0");
    IntegerLiteral("7");
    IntegerLiteral("0");
    var e := Binary(Number("7"), Div, Number("0"));
    assert Tokens(e) == ["7", "/", "0"];
    assert IsSum(e);
    SumEvaluation(e, ts, lookup);
  }

  /** `x + y` with no variable defined fails with an evaluation error. */
  lemma UndefinedVariableExample(ts: seq<string>)
    requires ts == ["x", "+", "y"]
    ensures Evaluation(ts, (v: string) => None) == Failure(EvaluationError)
  {
    var e := Binary(Variable("x"), Add, Variable("y"));
    assert Tokens(e) == ["x", "+", "y"];
    assert IsSum(e);
    SumEvaluation(e, ts, (v: string) => None);
  }
}
