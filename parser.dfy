/** The expression a well-formed token sequence denotes. A sequence is split at its last
    operator outside every parenthesis, a `+` or `-` before a `*` or `/`; splitting at the
    last one makes the operators left-associative. What remains is a literal, a variable
    or a parenthesized sequence. */
module Parser {
  import opened TokenClasses
  import opened Validator
  import opened Syntax

  datatype Level = SumLevel | TermLevel

  /** The operators that separate the operands at a level. */
  predicate Splits(t: string, level: Level) {
    match level
    case SumLevel => t == "+" || t == "-"
    case TermLevel => t == "*" || t == "/"
  }

  /** An operator of `level` at index k, outside every parenthesis. */
  predicate TopAt(ts: seq<string>, k: int, level: Level) {
    0 <= k < |ts| && Splits(ts[k], level) && Depth(ts, k) == 0
  }

  /** The last index below n where `level` splits `ts`, or -1 if there is none. */
  function LastTop(ts: seq<string>, level: Level, n: nat): (k: int)
    requires n <= |ts|
    ensures -1 <= k < n
    ensures k >= 0 ==> TopAt(ts, k, level)
  {
    if n == 0 then -1
    else if TopAt(ts, n - 1, level) then n - 1
    else LastTop(ts, level, n - 1)
  }

  function OpOf(t: string): (op: Op)
    ensures IsOperator(t) ==> OpToken(op) == t
  {
    if t == "+" then Add else if t == "-" then Sub else if t == "*" then Mul else Div
  }

  /** The expression of a token sequence. A sequence that is not well formed yields some
      tree that does not print back to it. */
  function Parse(ts: seq<string>): Expr
    decreases |ts|
  {
    var k := LastTop(ts, SumLevel, |ts|);
    if k >= 0 then Binary(Parse(ts[..k]), OpOf(ts[k]), Parse(ts[k + 1..]))
    else
      var m := LastTop(ts, TermLevel, |ts|);
      if m >= 0 then Binary(Parse(ts[..m]), OpOf(ts[m]), Parse(ts[m + 1..]))
      else if |ts| >= 2 && ts[0] == "(" then Group(Parse(ts[1..|ts| - 1]))
      else if |ts| == 1 && IsVariable(ts[0]) then Variable(ts[0])
      else if |ts| == 1 then Number(ts[0])
      else Number("")
  }

  // ---------------------------------------------------------------------------
  // Well-formed sequences parse to grammatical trees that print back to them
  // ---------------------------------------------------------------------------

  /** A well-formed sequence parses to a sum that prints as the sequence. */
  lemma {:induction false} ParseSum(ts: seq<string>)
    requires WellFormed(ts)
    ensures IsSum(Parse(ts)) && Tokens(Parse(ts)) == ts
    decreases |ts|, 2
  {
    var k := LastTop(ts, SumLevel, |ts|);
    if k >= 0 {
      SumPieces(ts, k);
      ParseSum(ts[..k]);
      ParseTerm(ts[k + 1..]);
      SumSplit(ts, k);
    } else {
      ParseTerm(ts);
      TermIsSum(Parse(ts));
    }
  }

  /** A well-formed sequence without a top-level `+` or `-` parses to a term. */
  lemma {:induction false} ParseTerm(ts: seq<string>)
    requires WellFormed(ts) && LastTop(ts, SumLevel, |ts|) < 0
    ensures IsTerm(Parse(ts)) && Tokens(Parse(ts)) == ts
    decreases |ts|, 1
  {
    var m := LastTop(ts, TermLevel, |ts|);
    if m >= 0 {
      TermPieces(ts, m);
      ParseTerm(ts[..m]);
      ParseFactor(ts[m + 1..]);
      TermSplit(ts, m);
    } else {
      ParseFactor(ts);
      FactorIsTerm(Parse(ts));
    }
  }

  /** A well-formed sequence without any top-level operator parses to a factor. */
  lemma {:induction false} ParseFactor(ts: seq<string>)
    requires WellFormed(ts) && LastTop(ts, SumLevel, |ts|) < 0 && LastTop(ts, TermLevel, |ts|) < 0
    ensures IsFactor(Parse(ts)) && Tokens(Parse(ts)) == ts
    decreases |ts|, 0
  {
    LastTopIsLast(ts, SumLevel, |ts|);
    LastTopIsLast(ts, TermLevel, |ts|);
    Unparenthesized(ts);
    if |ts| >= 2 {
      ParseSum(ts[1..|ts| - 1]);
      Rewrap(ts);
    }
  }

  /** The operands of the last top-level `+` or `-`: a well-formed sequence before it and
      a well-formed one without a top-level `+` or `-` after it. */
  lemma SumPieces(ts: seq<string>, k: int)
    requires WellFormed(ts) && k == LastTop(ts, SumLevel, |ts|) && k >= 0
    ensures 0 < k < |ts| - 1
    ensures WellFormed(ts[..k]) && WellFormed(ts[k + 1..])
    ensures LastTop(ts[k + 1..], SumLevel, |ts[k + 1..]|) < 0
  {
    SplitWellFormed(ts, k);
    LastTopIsLast(ts, SumLevel, |ts|);
    var right := ts[k + 1..];
    forall j | 0 <= j < |right| ensures !TopAt(right, j, SumLevel) {
      SuffixTop(ts, k, j, SumLevel);
    }
    LastTopNone(right, SumLevel, |right|);
  }

  /** The operands of the last top-level `*` or `/` where there is no top-level `+` or `-`:
      a well-formed sequence without a top-level `+` or `-` before it and a well-formed one
      without any top-level operator after it. */
  lemma TermPieces(ts: seq<string>, m: int)
    requires WellFormed(ts) && LastTop(ts, SumLevel, |ts|) < 0
    requires m == LastTop(ts, TermLevel, |ts|) && m >= 0
    ensures 0 < m < |ts| - 1
    ensures WellFormed(ts[..m]) && WellFormed(ts[m + 1..])
    ensures LastTop(ts[..m], SumLevel, |ts[..m]|) < 0
    ensures LastTop(ts[m + 1..], SumLevel, |ts[m + 1..]|) < 0
    ensures LastTop(ts[m + 1..], TermLevel, |ts[m + 1..]|) < 0
  {
    SplitWellFormed(ts, m);
    LastTopIsLast(ts, SumLevel, |ts|);
    LastTopIsLast(ts, TermLevel, |ts|);
    forall j | 0 <= j < m ensures !TopAt(ts[..m], j, SumLevel) {
      PrefixTop(ts, m, j, SumLevel);
    }
    LastTopNone(ts[..m], SumLevel, m);
    var right := ts[m + 1..];
    forall j | 0 <= j < |right| ensures !TopAt(right, j, SumLevel) && !TopAt(right, j, TermLevel) {
      SuffixTop(ts, m, j, SumLevel);
      SuffixTop(ts, m, j, TermLevel);
    }
    LastTopNone(right, SumLevel, |right|);
    LastTopNone(right, TermLevel, |right|);
  }

  /** Where Parse splits at k, the tree prints as the sequence when its operands print
      as theirs, and its shape follows the operator's level. */
  lemma SplitParsed(ts: seq<string>, k: nat)
    requires k < |ts| && IsOperator(ts[k])
    requires k == LastTop(ts, SumLevel, |ts|) || (LastTop(ts, SumLevel, |ts|) < 0 && k == LastTop(ts, TermLevel, |ts|))
    requires Tokens(Parse(ts[..k])) == ts[..k] && Tokens(Parse(ts[k + 1..])) == ts[k + 1..]
    ensures Parse(ts) == Binary(Parse(ts[..k]), OpOf(ts[k]), Parse(ts[k + 1..]))
    ensures Tokens(Parse(ts)) == ts
    ensures IsAdditive(Parse(ts).op) <==> Splits(ts[k], SumLevel)
  {
    Resplit(ts, k);
  }

  /** Splitting at the last top-level `+` or `-` gives a sum when the left operand is a
      sum and the right one a term. */
  lemma SumSplit(ts: seq<string>, k: nat)
    requires k < |ts| && IsOperator(ts[k]) && k == LastTop(ts, SumLevel, |ts|)
    requires IsSum(Parse(ts[..k])) && Tokens(Parse(ts[..k])) == ts[..k]
    requires IsTerm(Parse(ts[k + 1..])) && Tokens(Parse(ts[k + 1..])) == ts[k + 1..]
    ensures IsSum(Parse(ts)) && Tokens(Parse(ts)) == ts
  {
    SplitParsed(ts, k);
  }

  /** Splitting at the last top-level `*` or `/` where there is no `+` or `-` gives a
      term when the left operand is a term and the right one a factor. */
  lemma TermSplit(ts: seq<string>, m: nat)
    requires m < |ts| && IsOperator(ts[m])
    requires LastTop(ts, SumLevel, |ts|) < 0 && m == LastTop(ts, TermLevel, |ts|)
    requires IsTerm(Parse(ts[..m])) && Tokens(Parse(ts[..m])) == ts[..m]
    requires IsFactor(Parse(ts[m + 1..])) && Tokens(Parse(ts[m + 1..])) == ts[m + 1..]
    ensures IsTerm(Parse(ts)) && Tokens(Parse(ts)) == ts
  {
    SplitParsed(ts, m);
  }

  lemma Resplit(ts: seq<string>, k: nat)
    requires k < |ts|
    ensures ts[..k] + [ts[k]] + ts[k + 1..] == ts
  {
  }

  lemma Rewrap(ts: seq<string>)
    requires |ts| >= 2
    ensures [ts[0]] + ts[1..|ts| - 1] + [ts[|ts| - 1]] == ts
  {
  }

  // ---------------------------------------------------------------------------
  // LastTop
  // ---------------------------------------------------------------------------

  lemma {:induction false} LastTopIsLast(ts: seq<string>, level: Level, n: nat)
    requires n <= |ts|
    ensures forall j :: LastTop(ts, level, n) < j < n ==> !TopAt(ts, j, level)
  {
    if n > 0 && !TopAt(ts, n - 1, level) {
      LastTopIsLast(ts, level, n - 1);
    }
  }

  lemma {:induction false} LastTopNone(ts: seq<string>, level: Level, n: nat)
    requires n <= |ts|
    requires forall j :: 0 <= j < n ==> !TopAt(ts, j, level)
    ensures LastTop(ts, level, n) == -1
  {
    if n > 0 {
      LastTopNone(ts, level, n - 1);
    }
  }

  // ---------------------------------------------------------------------------
  // Parenthesis depth of the pieces
  // ---------------------------------------------------------------------------

  lemma {:induction false} CountPrefix(ts: seq<string>, m: nat, t: string, j: nat)
    requires j <= m <= |ts|
    ensures Count(ts[..m], t, j) == Count(ts, t, j)
  {
    if j > 0 {
      CountPrefix(ts, m, t, j - 1);
    }
  }

  lemma {:induction false} CountSuffix(ts: seq<string>, a: nat, t: string, j: nat)
    requires a + j <= |ts|
    ensures Count(ts[a..], t, j) == Count(ts, t, a + j) - Count(ts, t, a)
  {
    if j > 0 {
      CountSuffix(ts, a, t, j - 1);
    }
  }

  /** Each token changes the depth by its own parenthesis. */
  lemma DepthStep(ts: seq<string>, j: nat)
    requires j < |ts|
    ensures Depth(ts, j + 1) == Depth(ts, j) + (if ts[j] == "(" then 1 else if ts[j] == ")" then -1 else 0)
  {
  }

  /** Depth within the prefix before m is depth in the whole sequence. */
  lemma DepthPrefix(ts: seq<string>, m: nat, j: nat)
    requires j <= m <= |ts|
    ensures Depth(ts[..m], j) == Depth(ts, j)
  {
    CountPrefix(ts, m, "(", j);
    CountPrefix(ts, m, ")", j);
  }

  /** Depth within the suffix from a is depth in the whole sequence minus the depth at a. */
  lemma DepthSuffix(ts: seq<string>, a: nat, j: nat)
    requires a + j <= |ts|
    ensures Depth(ts[a..], j) == Depth(ts, a + j) - Depth(ts, a)
  {
    CountSuffix(ts, a, "(", j);
    CountSuffix(ts, a, ")", j);
  }

  // ---------------------------------------------------------------------------
  // The pieces of a well-formed sequence
  // ---------------------------------------------------------------------------

  /** Both sides of a top-level operator of a well-formed sequence are well formed. */
  lemma SplitWellFormed(ts: seq<string>, k: int)
    requires WellFormed(ts) && 0 <= k < |ts| && IsOperator(ts[k]) && Depth(ts, k) == 0
    ensures 0 < k < |ts| - 1
    ensures WellFormed(ts[..k]) && WellFormed(ts[k + 1..])
  {
    ClassesDisjoint(ts[k]);
    ClassesDisjoint(ts[0]);
    ClassesDisjoint(ts[|ts| - 1]);
    LeftWellFormed(ts, k);
    RightWellFormed(ts, k);
  }

  lemma LeftWellFormed(ts: seq<string>, k: int)
    requires WellFormed(ts) && 0 < k < |ts| && IsOperator(ts[k]) && Depth(ts, k) == 0
    ensures WellFormed(ts[..k])
  {
    var left := ts[..k];
    ClassesDisjoint(ts[k - 1]);
    ClassesDisjoint(ts[k]);
    assert FollowsAt(ts, k - 1) && ClassifiedAt(ts, k - 1);
    assert ClosesOperand(left[|left| - 1]);
    forall j | 0 <= j < |left| ensures ClassifiedAt(left, j) {
      assert ClassifiedAt(ts, j);
    }
    forall j | 0 <= j < |left| - 1 ensures FollowsAt(left, j) {
      assert FollowsAt(ts, j);
    }
    forall j | 0 <= j <= |left| ensures Depth(left, j) >= 0 {
      DepthPrefix(ts, k, j);
    }
    DepthPrefix(ts, k, k);
  }

  lemma RightWellFormed(ts: seq<string>, k: int)
    requires WellFormed(ts) && 0 <= k < |ts| - 1 && IsOperator(ts[k]) && Depth(ts, k) == 0
    ensures WellFormed(ts[k + 1..])
  {
    var right := ts[k + 1..];
    assert FollowsAt(ts, k);
    forall j | 0 <= j <= |right| ensures Depth(right, j) >= 0 {
      DepthSuffix(ts, k + 1, j);
    }
    DepthSuffix(ts, k + 1, |right|);
    forall j | 0 <= j < |right| ensures ClassifiedAt(right, j) {
      assert ClassifiedAt(ts, k + 1 + j);
    }
    forall j | 0 <= j < |right| - 1 ensures FollowsAt(right, j) {
      assert FollowsAt(ts, k + 1 + j);
    }
  }

  /** Inside the prefix before m, the top-level operators are those of the whole sequence. */
  lemma PrefixTop(ts: seq<string>, m: nat, j: nat, level: Level)
    requires j < m <= |ts|
    ensures TopAt(ts[..m], j, level) <==> TopAt(ts, j, level)
  {
    DepthPrefix(ts, m, j);
  }

  /** After a top-level operator at k, the top-level operators are those of the whole
      sequence. */
  lemma SuffixTop(ts: seq<string>, k: nat, j: nat, level: Level)
    requires k < |ts| && IsOperator(ts[k]) && Depth(ts, k) == 0 && j < |ts| - k - 1
    ensures TopAt(ts[k + 1..], j, level) <==> TopAt(ts, k + 1 + j, level)
  {
    DepthSuffix(ts, k + 1, j);
  }

  /** A well-formed sequence without a top-level operator is a single literal or variable,
      or a well-formed sequence in parentheses. */
  lemma Unparenthesized(ts: seq<string>)
    requires WellFormed(ts)
    requires forall j :: 0 <= j < |ts| ==> !TopAt(ts, j, SumLevel) && !TopAt(ts, j, TermLevel)
    ensures |ts| == 1 ==> IsVariable(ts[0]) || IsDouble(ts[0])
    ensures |ts| >= 2 ==> |ts| >= 3 && ts[0] == "(" && ts[|ts| - 1] == ")" && WellFormed(ts[1..|ts| - 1])
  {
    var n := |ts|;
    if n >= 2 {
      OperandThenOperator(ts, 0);
      InsideOuterParens(ts, n - 1);
      // the last token closes the outer parenthesis
      DepthStep(ts, n - 1);
      assert ts[n - 1] == ")";
      assert FollowsAt(ts, 0);
      assert n >= 3;
      var inner := ts[1..n - 1];
      ClassesDisjoint(ts[n - 2]);
      assert FollowsAt(ts, n - 2) && ClassifiedAt(ts, n - 2);
      assert ClosesOperand(inner[|inner| - 1]);
      forall j | 0 <= j < |inner| ensures ClassifiedAt(inner, j) {
        assert ClassifiedAt(ts, 1 + j);
      }
      forall j | 0 <= j < |inner| - 1 ensures FollowsAt(inner, j) {
        assert FollowsAt(ts, 1 + j);
      }
      forall j | 0 <= j <= |inner| ensures Depth(inner, j) >= 0 {
        InsideOuterParens(ts, j + 1);
        InnerDepth(ts, j);
      }
      InnerDepth(ts, n - 2);
    }
  }

  /** Depth inside the outer parentheses, one less than in the whole sequence. */
  lemma InnerDepth(ts: seq<string>, j: nat)
    requires 2 <= |ts| && ts[0] == "(" && j <= |ts| - 2
    ensures Depth(ts[1..|ts| - 1], j) == Depth(ts, j + 1) - 1
  {
    DepthPrefix(ts[1..], |ts| - 2, j);
    assert ts[1..][..|ts| - 2] == ts[1..|ts| - 1];
    DepthSuffix(ts, 1, j);
  }

  /** In a well-formed sequence that opens with `(` and has no top-level operator, every
      proper non-empty prefix is inside that first parenthesis. */
  lemma {:induction false} InsideOuterParens(ts: seq<string>, j: nat)
    requires WellFormed(ts) && ts[0] == "("
    requires forall i :: 0 <= i < |ts| ==> !TopAt(ts, i, SumLevel) && !TopAt(ts, i, TermLevel)
    requires 1 <= j < |ts|
    ensures Depth(ts, j) >= 1
  {
    if j > 1 {
      InsideOuterParens(ts, j - 1);
      OperandThenOperator(ts, j - 1);
    }
  }

  /** In a well-formed sequence, what follows a literal, a variable or a `)` that leaves
      the depth at 0 is an operator outside every parenthesis. */
  lemma OperandThenOperator(ts: seq<string>, i: nat)
    requires WellFormed(ts) && i + 1 < |ts|
    ensures ClosesOperand(ts[i]) && Depth(ts, i + 1) == 0 ==> TopAt(ts, i + 1, SumLevel) || TopAt(ts, i + 1, TermLevel)
  {
    ClassesDisjoint(ts[i]);
    assert FollowsAt(ts, i);
    assert Depth(ts, i + 2) >= 0;
  }

  // ---------------------------------------------------------------------------
  // Conversely, every grammatical tree prints as a well-formed sequence
  // ---------------------------------------------------------------------------

  /** A single literal or variable is a formula. */
  lemma OperandWellFormed(t: string)
    requires IsDouble(t) || IsVariable(t)
    ensures WellFormed([t])
  {
    var ts := [t];
    ClassesDisjoint(t);
    assert ClassifiedAt(ts, 0);
    assert Depth(ts, 0) == 0 && Depth(ts, 1) == 0;
  }

  /** Two formulas joined by an operator are a formula. */
  lemma JoinWellFormed(a: seq<string>, o: string, b: seq<string>)
    requires WellFormed(a) && IsOperator(o) && WellFormed(b)
    ensures WellFormed(a + [o] + b)
  {
    var c := a + [o] + b;
    var n := |a|;
    assert c[..n] == a && c[n + 1..] == b;
    ClassesDisjoint(a[n - 1]);
    ClassesDisjoint(o);
    forall j | 0 <= j < |c| ensures ClassifiedAt(c, j) {
      if j < n { assert ClassifiedAt(a, j); }
      else if j > n { assert ClassifiedAt(b, j - n - 1); }
    }
    forall j | 0 <= j < |c| - 1 ensures FollowsAt(c, j) {
      if j < n - 1 { assert FollowsAt(a, j); }
      else if j > n { assert FollowsAt(b, j - n - 1); }
    }
    DepthPrefix(c, n, n);
    DepthStep(c, n);
    forall j | 0 <= j <= |c| ensures Depth(c, j) >= 0 {
      if j <= n {
        DepthPrefix(c, n, j);
      } else {
        DepthSuffix(c, n + 1, j - n - 1);
      }
    }
    DepthSuffix(c, n + 1, |b|);
  }

  /** A formula in parentheses is a formula. */
  lemma GroupWellFormed(a: seq<string>)
    requires WellFormed(a)
    ensures WellFormed(["("] + a + [")"])
  {
    var c := ["("] + a + [")"];
    var n := |a|;
    assert c[1..][..n] == a && c[1..n + 1] == a;
    ClassesDisjoint(a[n - 1]);
    forall j | 0 <= j < |c| ensures ClassifiedAt(c, j) {
      if 0 < j <= n { assert ClassifiedAt(a, j - 1); }
    }
    forall j | 0 <= j < |c| - 1 ensures FollowsAt(c, j) {
      if 0 < j < n { assert FollowsAt(a, j - 1); }
    }
    DepthStep(c, 0);
    forall j | 0 <= j <= |c| ensures Depth(c, j) >= 0 {
      if 1 <= j <= n + 1 {
        InnerDepth(c, j - 1);
      } else if j == n + 2 {
        InnerDepth(c, n);
        DepthStep(c, n + 1);
      }
    }
    InnerDepth(c, n);
    DepthStep(c, n + 1);
  }

  /** Every sum of terms of factors prints as a formula the constructor accepts. */
  lemma {:induction false} GrammarIsWellFormed(e: Expr)
    requires IsSum(e)
    ensures WellFormed(Tokens(e))
  {
    match e
    case Number(t) =>
      assert IsTerm(e) && IsFactor(e);
      OperandWellFormed(t);
    case Variable(x) =>
      assert IsTerm(e) && IsFactor(e);
      OperandWellFormed(x);
    case Binary(l, op, r) =>
      if IsAdditive(op) {
        TermIsSum(r);
      } else {
        TermIsSum(l);
        FactorIsTerm(r);
        TermIsSum(r);
      }
      GrammarIsWellFormed(l);
      GrammarIsWellFormed(r);
      JoinWellFormed(Tokens(l), OpToken(op), Tokens(r));
    case Group(inner) =>
      assert IsTerm(e) && IsFactor(e);
      GrammarIsWellFormed(inner);
      GroupWellFormed(Tokens(inner));
  }

  /** The constructor's grammar is exactly the precedence grammar: a token sequence is
      well formed if and only if it is the print of a sum of terms of factors. */
  lemma WellFormedIffGrammar(ts: seq<string>)
    ensures WellFormed(ts) <==> exists e :: IsSum(e) && Tokens(e) == ts
  {
    if WellFormed(ts) {
      ParseSum(ts);
    }
    if e :| IsSum(e) && Tokens(e) == ts {
      GrammarIsWellFormed(e);
    }
  }
}
