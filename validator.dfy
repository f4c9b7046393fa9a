/** The validating constructor Formula(String): it tokenizes the text, checks the token
    sequence against the formula grammar and keeps the tokens of a formula that passes. */
module Validator {
  import opened Results
  import opened TokenClasses
  import opened Lexer

  /** A constructed formula: its validated tokens. */
  datatype Formula = Formula(tokens: seq<string>) {
    /** The invariant every Formula the constructor returns has. */
    ghost predicate Valid() {
      WellFormed(tokens)
    }
  }

  // ---------------------------------------------------------------------------
  // The grammar the constructor enforces
  // ---------------------------------------------------------------------------

  /** How often `t` occurs among the first n tokens of `ts`. */
  function Count(ts: seq<string>, t: string, n: nat): (r: nat)
    requires n <= |ts|
    ensures r <= n
  {
    if n == 0 then 0 else Count(ts, t, n - 1) + (if ts[n - 1] == t then 1 else 0)
  }

  /** Opening minus closing parentheses among the first n tokens of `ts`. */
  function Depth(ts: seq<string>, n: nat): int
    requires n <= |ts|
  {
    Count(ts, "(", n) - Count(ts, ")", n)
  }

  /** The adjacency rules: after `(` or an operator comes a number, a variable or `(`;
      after a number, a variable or `)` comes an operator or `)`. */
  predicate FollowsAllowed(t: string, next: string) {
    if IsLeftParen(t) || IsOperator(t) then IsDouble(next) || IsVariable(next) || IsLeftParen(next)
    else if IsDouble(t) || IsVariable(t) || IsRightParen(t) then IsOperator(next) || IsRightParen(next)
    else true
  }

  /** Token i is in one of the five classes. */
  predicate ClassifiedAt(ts: seq<string>, i: nat)
    requires i < |ts|
  {
    IsClassified(ts[i])
  }

  /** Token i may be followed by token i + 1. */
  predicate FollowsAt(ts: seq<string>, i: nat)
    requires i + 1 < |ts|
  {
    FollowsAllowed(ts[i], ts[i + 1])
  }

  /** A token sequence the constructor accepts: not empty, every token in one of the five
      classes, a legal first and last token, legal neighbours, no prefix closing more
      parentheses than it opens, and as many `(` as `)` in all. */
  ghost predicate WellFormed(ts: seq<string>) {
    && |ts| > 0
    && (forall i :: 0 <= i < |ts| ==> ClassifiedAt(ts, i))
    && OpensOperand(ts[0])
    && ClosesOperand(ts[|ts| - 1])
    && (forall i :: 0 <= i < |ts| - 1 ==> FollowsAt(ts, i))
    && (forall k :: 0 <= k <= |ts| ==> Depth(ts, k) >= 0)
    && Depth(ts, |ts|) == 0
  }

  // ---------------------------------------------------------------------------
  // The constructor
  // ---------------------------------------------------------------------------

  /** Formula(formula): succeeds exactly on a non-empty text whose tokens are well formed,
      and keeps those tokens. The empty text is a format error; a text of whitespace only
      has no tokens, and the constructor then indexes the empty token array and fails with
      an index error rather than a format error. */
  method Construct(formula: string) returns (r: Result<Formula>)
    ensures r.Success? <==> formula != "" && WellFormed(GetTokens(formula))
    ensures r.Success? ==> r.value.tokens == GetTokens(formula) && r.value.Valid()
    ensures r.Failure? ==> r.error == if formula != "" && IsBlank(formula) then IndexOutOfRange else FormatError
  {
    if |formula| == 0 {
      return Failure(FormatError);
    }
    var tokens := GetTokens(formula);
    NoTokensIffBlank(formula);
    var err := Validate(tokens);
    if err.Some? {
      return Failure(err.value);
    }
    return Success(Formula(tokens));
  }

  /** A text of one space has no tokens and is not a formula, so the constructor as written
      reports an index error for it instead of a format error. */
  lemma WhitespaceOnlyIsIndexError()
    ensures " " != "" && IsBlank(" ") && GetTokens(" ") == [] && !WellFormed(GetTokens(" "))
  {
    NoTokensIffBlank(" ");
  }

  /** The scan of `2E5`: the number alternative stops before `E`, which starts a variable. */
  lemma UppercaseExponentMatches(s: string)
    requires s == "2E5"
    ensures MatchLength(s, 0) == 1 && MatchLength(s, 1) == 2
  {
    MatchCases(s, 0);
    assert Span(s, 1, Digits) == 0;
    assert Span(s, 0, Digits) == 1;
    assert MantissaLength(s, 0) == 1;
    assert ExponentLength(s, 1) == 0;
    MatchCases(s, 1);
    assert Span(s, 3, LettersOrDigits) == 0;
    assert Span(s, 2, LettersOrDigits) == 1;
  }

  lemma UppercaseExponentTokens(s: string)
    requires s == "2E5"
    ensures GetTokens(s) == ["2", "E5"]
  {
    UppercaseExponentMatches(s);
    assert s[0..1] == "2" && s[1..3] == "E5";
    assert Split(s, 3, []) == [[]];
    assert Split(s, 1, []) == [[], "E5", []];
    assert Split(s, 0, []) == [[], "2", [], "E5", []];
    assert IsBlank([]);
    assert RemoveBlank([[]]) == [];
    assert RemoveBlank([[], "E5", []]) == ["E5"];
    assert RemoveBlank([[], "2", [], "E5", []]) == ["2", "E5"];
  }

  /** Only a lower-case `e` starts an exponent: `2E5` is the number `2` followed by the
      variable `E5`, and two adjacent operands are not a formula. */
  lemma UppercaseExponent(formula: string)
    requires formula == "2E5"
    ensures GetTokens(formula) == ["2", "E5"]
    ensures !IsDouble(formula) && IsDouble("2") && IsVariable("E5")
    ensures !WellFormed(GetTokens(formula))
  {
    UppercaseExponentTokens(formula);
    assert !IsDouble(formula) by {
      assert !IsDigit(formula[1]);
      assert forall k :: 0 <= k < |formula| ==> formula[k] != 'e' && formula[k] != '.';
    }
    var ts := ["2", "E5"];
    assert IsMantissa("2");
    ClassesDisjoint("E5");
    assert !FollowsAt(ts, 0);
  }

  /** The constructor with the documented contract: every text that is not a formula,
      including one of whitespace only, is a format error. It rejects an empty token
      sequence before reading its first token. */
  method ConstructChecked(formula: string) returns (r: Result<Formula>)
    ensures r.Success? <==> formula != "" && WellFormed(GetTokens(formula))
    ensures r.Success? ==> r.value.tokens == GetTokens(formula) && r.value.Valid()
    ensures r.Failure? ==> r.error == FormatError
  {
    if |formula| == 0 {
      return Failure(FormatError);
    }
    var tokens := GetTokens(formula);
    if |tokens| == 0 {
      return Failure(FormatError);
    }
    var err := Validate(tokens);
    if err.Some? {
      return Failure(err.value);
    }
    return Success(Formula(tokens));
  }

  /** The constructor's checks on the tokens of a non-empty text: none is reported exactly
      when the tokens are well formed. An empty token array passes the first loop and then
      fails on reading its first token. */
  method Validate(tokens: seq<string>) returns (err: Option<Error>)
    ensures err.None? <==> WellFormed(tokens)
    ensures err.Some? ==> err.value == if tokens == [] then IndexOutOfRange else FormatError
  {
    var ok := AllButLastClassified(tokens);
    if !ok {
      return Some(FormatError);
    }
    if |tokens| == 0 {
      // the first token of an empty token array
      return Some(IndexOutOfRange);
    }
    if !OpensOperand(tokens[0]) || !ClosesOperand(tokens[|tokens| - 1]) {
      return Some(FormatError);
    }
    assert ClassifiedAt(tokens, |tokens| - 1);
    ok := BalancedAndAdjacent(tokens);
    if !ok {
      return Some(FormatError);
    }
    return None;
  }

  /** The constructor's first loop: every token but the last is in one of the five classes
      (the last one is checked as the closing token). */
  method AllButLastClassified(tokens: seq<string>) returns (ok: bool)
    ensures ok <==> forall j :: 0 <= j < |tokens| - 1 ==> ClassifiedAt(tokens, j)
  {
    var i := 0;
    while i < |tokens| - 1
      invariant 0 <= i <= |tokens|
      invariant forall j :: 0 <= j < i ==> ClassifiedAt(tokens, j)
    {
      if !ClassifiedAt(tokens, i) {
        return false;
      }
      i := i + 1;
    }
    return true;
  }

  /** The constructor's second loop and its final count: the parentheses opened and closed
      so far, with an error as soon as more are closed than opened, the adjacency rule for
      each token and its successor, and the totals compared after the last token. */
  method BalancedAndAdjacent(tokens: seq<string>) returns (ok: bool)
    requires |tokens| > 0 && ClosesOperand(tokens[|tokens| - 1])
    ensures ok <==>
      && (forall j :: 0 <= j < |tokens| - 1 ==> FollowsAt(tokens, j))
      && (forall k :: 0 <= k <= |tokens| ==> Depth(tokens, k) >= 0)
      && Depth(tokens, |tokens|) == 0
  {
    var nOpenParen, nCloseParen := 0, 0;
    var i := 0;
    while i < |tokens| - 1
      invariant 0 <= i <= |tokens| - 1
      invariant nOpenParen == Count(tokens, "(", i) && nCloseParen == Count(tokens, ")", i)
      invariant forall k :: 0 <= k <= i ==> Depth(tokens, k) >= 0
      invariant forall j :: 0 <= j < i ==> FollowsAt(tokens, j)
    {
      assert Depth(tokens, i) == nOpenParen - nCloseParen >= 0;
      if IsLeftParen(tokens[i]) {
        nOpenParen := nOpenParen + 1;
      } else if IsRightParen(tokens[i]) {
        nCloseParen := nCloseParen + 1;
        assert Depth(tokens, i + 1) == nOpenParen - nCloseParen;
        if nCloseParen > nOpenParen {
          return false;
        }
      }
      assert Depth(tokens, i + 1) == nOpenParen - nCloseParen;
      if !FollowsAt(tokens, i) {
        return false;
      }
      i := i + 1;
    }
    // The loop stopped before the last token, which is known to close an operand: count
    // it if it is a closing parenthesis.
    assert i == |tokens| - 1;
    if tokens[|tokens| - 1] == ")" {
      nCloseParen := nCloseParen + 1;
    }
    assert Depth(tokens, |tokens|) == nOpenParen - nCloseParen;
    return nCloseParen == nOpenParen;
  }

  /** A text has no tokens exactly when it is all whitespace. */
  lemma NoTokensIffBlank(formula: string)
    ensures GetTokens(formula) == [] <==> IsBlank(formula)
  {
    TokensInOrder(formula);
    TokensNonEmpty(formula);
    BlankIffNoneKept(formula);
    var ts := GetTokens(formula);
    if ts != [] {
      ConcatAppend([ts[0]], ts[1..]);
      assert ts == [ts[0]] + ts[1..];
      assert Concat([ts[0]]) == ts[0] + Concat([]);
    }
  }

  lemma {:induction false} BlankIffNoneKept(s: string)
    ensures RemoveSpaces(s) == [] <==> IsBlank(s)
  {
    if s != [] {
      BlankIffNoneKept(s[1..]);
      assert IsBlank(s) <==> IsSpace(s[0]) && IsBlank(s[1..]) by {
        if IsSpace(s[0]) && IsBlank(s[1..]) {
          forall k | 0 <= k < |s| ensures IsSpace(s[k]) {
            if k > 0 { assert s[k] == s[1..][k - 1]; }
          }
        }
      }
    }
  }
}
