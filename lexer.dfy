// GetTokens: splits a formula into tokens with the alternation
//   ( \( ) | ( \) ) | ( [\+\-*/] ) | ( [a-zA-Z][0-9a-zA-Z]* ) | ( double ) | ( \s+ )
// scanned left to right, and drops the pieces that are only whitespace. Text that no
// alternative matches stays in the output as an opaque token.
module Lexer {
  import opened TokenClasses

  // ---------------------------------------------------------------------------
  // Matching one alternative at a position
  // ---------------------------------------------------------------------------

  /** The length of the longest run of characters of class `c` that starts at s[i]. */
  function Span(s: string, i: nat, c: CharClass): (r: nat)
    requires i <= |s|
    ensures i + r <= |s|
    decreases |s| - i
  {
    if i < |s| && InClass(s[i], c) then 1 + Span(s, i + 1, c) else 0
  }

  /** Every character of the run is of class `c`, and the run cannot be extended. */
  lemma {:induction false} SpanRun(s: string, i: nat, c: CharClass)
    requires i <= |s|
    ensures forall k :: i <= k < i + Span(s, i, c) ==> InClass(s[k], c)
    ensures i + Span(s, i, c) < |s| ==> !InClass(s[i + Span(s, i, c)], c)
    decreases |s| - i
  {
    if i < |s| && InClass(s[i], c) {
      SpanRun(s, i + 1, c);
    }
  }

  /** The character classes that a pattern repeats: `\d`, `[0-9a-zA-Z]` and `\s`. */
  datatype CharClass = Digits | LettersOrDigits | Spaces

  predicate InClass(ch: char, c: CharClass) {
    match c
    case Digits => IsDigit(ch)
    case LettersOrDigits => IsLetter(ch) || IsDigit(ch)
    case Spaces => IsSpace(ch)
  }

  /** The length of `\d+\.\d* | \d*\.\d+ | \d+` at s[i], tried in that order; 0 when none matches. */
  function MantissaLength(s: string, i: nat): (r: nat)
    requires i <= |s|
    ensures i + r <= |s|
  {
    var d := Span(s, i, Digits);
    if d > 0 && i + d < |s| && s[i + d] == '.' then d + 1 + Span(s, i + d + 1, Digits)
    else if d == 0 && i < |s| && s[i] == '.' && Span(s, i + 1, Digits) > 0 then 1 + Span(s, i + 1, Digits)
    else d
  }

  /** The length of `e[\+-]?\d+` at s[j]; 0 when it does not match. */
  function ExponentLength(s: string, j: nat): (r: nat)
    requires j <= |s|
    ensures j + r <= |s|
  {
    if j < |s| && s[j] == 'e' then
      if j + 1 < |s| && (s[j + 1] == '+' || s[j + 1] == '-') then
        var d := Span(s, j + 2, Digits);
        if d > 0 then 2 + d else 0
      else
        var d := Span(s, j + 1, Digits);
        if d > 0 then 1 + d else 0
    else 0
  }

  /** The length of the double alternative at s[i]: a mantissa and an optional exponent. */
  function DoubleLength(s: string, i: nat): (r: nat)
    requires i <= |s|
    ensures i + r <= |s|
  {
    var m := MantissaLength(s, i);
    if m == 0 then 0 else m + ExponentLength(s, i + m)
  }

  /** The alternatives of the pattern, in the order the regex tries them. */
  datatype Alternative = LeftParenthesis | RightParenthesis | OperatorSign | VariableName | DoubleNumber | Whitespace

  const Alternatives: seq<Alternative> :=
    [LeftParenthesis, RightParenthesis, OperatorSign, VariableName, DoubleNumber, Whitespace]

  /** The length of the match of one alternative at s[i]; 0 when it does not match. */
  function AlternativeLength(s: string, i: nat, a: Alternative): (r: nat)
    requires i < |s|
    ensures i + r <= |s|
  {
    match a
    case LeftParenthesis => if s[i] == '(' then 1 else 0
    case RightParenthesis => if s[i] == ')' then 1 else 0
    case OperatorSign => if IsOperatorChar(s[i]) then 1 else 0
    case VariableName => if IsLetter(s[i]) then 1 + Span(s, i + 1, LettersOrDigits) else 0
    case DoubleNumber => DoubleLength(s, i)
    case Whitespace => Span(s, i, Spaces)
  }

  /** The length of the first of `alts` that matches at s[i]; 0 when none does. */
  function FirstMatch(s: string, i: nat, alts: seq<Alternative>): (r: nat)
    requires i < |s|
    ensures i + r <= |s|
    decreases |s| - i, |alts|
  {
    if alts == [] then 0
    else if AlternativeLength(s, i, alts[0]) > 0 then AlternativeLength(s, i, alts[0])
    else FirstMatch(s, i, alts[1..])
  }

  /** The length of the match of the whole alternation at s[i], the first alternative that
      matches winning; 0 when none matches. No alternative matches the empty string. */
  function MatchLength(s: string, i: nat): (r: nat)
    requires i < |s|
    ensures i + r <= |s|
  {
    FirstMatch(s, i, Alternatives)
  }

  /** The alternation case by case: a single-character token, a variable, a number, or a
      run of whitespace. */
  lemma MatchCases(s: string, i: nat)
    requires i < |s|
    ensures MatchLength(s, i) ==
      if s[i] == '(' || s[i] == ')' || IsOperatorChar(s[i]) then 1
      else if IsLetter(s[i]) then 1 + Span(s, i + 1, LettersOrDigits)
      else if DoubleLength(s, i) > 0 then DoubleLength(s, i)
      else Span(s, i, Spaces)
  {
    var a0 := Alternatives;
    var a1, a2, a3, a4, a5 := a0[1..], a0[2..], a0[3..], a0[4..], a0[5..];
    assert a1 == a0[1..] && a2 == a1[1..] && a3 == a2[1..] && a4 == a3[1..] && a5 == a4[1..];
    assert a5[1..] == [];
    assert FirstMatch(s, i, a5) == Span(s, i, Spaces);
    assert FirstMatch(s, i, a4) == if DoubleLength(s, i) > 0 then DoubleLength(s, i) else FirstMatch(s, i, a5);
    assert FirstMatch(s, i, a3) == if IsLetter(s[i]) then 1 + Span(s, i + 1, LettersOrDigits) else FirstMatch(s, i, a4);
    assert FirstMatch(s, i, a2) == if IsOperatorChar(s[i]) then 1 else FirstMatch(s, i, a3);
    assert FirstMatch(s, i, a1) == if s[i] == ')' then 1 else FirstMatch(s, i, a2);
    assert FirstMatch(s, i, a0) == if s[i] == '(' then 1 else FirstMatch(s, i, a1);
  }

  // ---------------------------------------------------------------------------
  // Regex.Split and GetTokens
  // ---------------------------------------------------------------------------

  /** The pieces Regex.Split gives for s[i..] when `junk` is the unmatched text just before
      s[i]: each stretch of unmatched text (possibly empty), then each match. */
  function Split(s: string, i: nat, junk: string): (r: seq<string>)
    requires i <= |s|
    decreases |s| - i
  {
    if i == |s| then [junk]
    else
      var n := MatchLength(s, i);
      if n == 0 then Split(s, i + 1, junk + [s[i]])
      else [junk, s[i..i + n]] + Split(s, i + n, [])
  }

  /** `^\s*$`: a piece that GetTokens drops. */
  predicate IsBlank(p: string) {
    forall k :: 0 <= k < |p| ==> IsSpace(p[k])
  }

  function RemoveBlank(ps: seq<string>): (r: seq<string>)
    ensures forall k :: 0 <= k < |r| ==> !IsBlank(r[k])
  {
    if ps == [] then []
    else (if IsBlank(ps[0]) then [] else [ps[0]]) + RemoveBlank(ps[1..])
  }

  /** GetTokens(formula) */
  function GetTokens(formula: string): (r: seq<string>)
  {
    RemoveBlank(Split(formula, 0, []))
  }

  // ---------------------------------------------------------------------------
  // Reference definitions for the properties of GetTokens
  // ---------------------------------------------------------------------------

  function Concat(ps: seq<string>): string {
    if ps == [] then [] else ps[0] + Concat(ps[1..])
  }

  /** The formula with its whitespace characters deleted. */
  function RemoveSpaces(s: string): string {
    if s == [] then [] else (if IsSpace(s[0]) then [] else [s[0]]) + RemoveSpaces(s[1..])
  }

  predicate NoSpace(p: string) {
    forall k :: 0 <= k < |p| ==> !IsSpace(p[k])
  }

  /** A run of characters that no alternative can start: not a letter, digit, parenthesis,
      operator or whitespace (a point not followed by a digit, `_`, `#`, ...). */
  predicate IsOpaque(t: string) {
    |t| > 0 && forall k :: 0 <= k < |t| ==> !IsLetter(t[k]) && !IsDigit(t[k]) && t[k] != '(' && t[k] != ')' && !IsOperatorChar(t[k]) && !IsSpace(t[k])
  }

  // ---------------------------------------------------------------------------
  // Properties
  // ---------------------------------------------------------------------------

  lemma {:induction false} ConcatAppend(a: seq<string>, b: seq<string>)
    ensures Concat(a + b) == Concat(a) + Concat(b)
  {
    if a == [] {
      assert a + b == b;
    } else {
      assert (a + b)[1..] == a[1..] + b;
      ConcatAppend(a[1..], b);
    }
  }

  lemma {:induction false} RemoveSpacesAppend(a: string, b: string)
    ensures RemoveSpaces(a + b) == RemoveSpaces(a) + RemoveSpaces(b)
  {
    if a == [] {
      assert a + b == b;
    } else {
      assert (a + b)[1..] == a[1..] + b;
      RemoveSpacesAppend(a[1..], b);
    }
  }

  lemma {:induction false} RemoveSpacesOf(p: string)
    requires IsBlank(p) || NoSpace(p)
    ensures RemoveSpaces(p) == if IsBlank(p) then [] else p
  {
    if p != [] {
      RemoveSpacesOf(p[1..]);
    }
  }

  /** Every character of a match of a non-space alternative is not whitespace; a space
      match is all whitespace. */
  lemma MatchUniform(s: string, i: nat)
    requires i < |s| && MatchLength(s, i) > 0
    ensures IsSpace(s[i]) ==> IsBlank(s[i..i + MatchLength(s, i)])
    ensures !IsSpace(s[i]) ==> NoSpace(s[i..i + MatchLength(s, i)])
  {
    MatchCases(s, i);
    var n := MatchLength(s, i);
    var t := s[i..i + n];
    if !IsSpace(s[i]) {
      forall k | 0 <= k < n ensures !IsSpace(t[k]) {
        assert t[k] == s[i + k];
        MatchChar(s, i, i + k);
      }
    } else {
      SpanRun(s, i, Spaces);
      forall k | 0 <= k < n ensures IsSpace(t[k]) {
        assert t[k] == s[i + k];
      }
    }
  }

  /** The characters a non-space match can hold. */
  lemma MatchChar(s: string, i: nat, k: nat)
    requires i < |s| && !IsSpace(s[i]) && i <= k < i + MatchLength(s, i)
    ensures IsLetter(s[k]) || IsDigit(s[k]) || s[k] == '.' || s[k] == '+' || s[k] == '-' || s[k] == '*' || s[k] == '/' || s[k] == '(' || s[k] == ')'
  {
    MatchCases(s, i);
    if IsLetter(s[i]) {
      SpanRun(s, i + 1, LettersOrDigits);
    } else if !(s[i] == '(' || s[i] == ')' || IsOperatorChar(s[i])) {
      var m := MantissaLength(s, i);
      if k < i + m {
        MantissaChar(s, i, k);
      } else {
        ExponentChar(s, i + m, k);
      }
    }
  }

  lemma MantissaChar(s: string, i: nat, k: nat)
    requires i <= |s| && i <= k < i + MantissaLength(s, i)
    ensures IsDigit(s[k]) || s[k] == '.'
  {
    var d := Span(s, i, Digits);
    SpanRun(s, i, Digits);
    if d > 0 && i + d < |s| && s[i + d] == '.' {
      SpanRun(s, i + d + 1, Digits);
    } else if d == 0 && i < |s| && s[i] == '.' && Span(s, i + 1, Digits) > 0 {
      SpanRun(s, i + 1, Digits);
    }
  }

  lemma ExponentChar(s: string, j: nat, k: nat)
    requires j <= |s| && j <= k < j + ExponentLength(s, j)
    ensures IsDigit(s[k]) || s[k] == 'e' || s[k] == '+' || s[k] == '-'
  {
    if j + 1 < |s| && (s[j + 1] == '+' || s[j + 1] == '-') {
      SpanRun(s, j + 2, Digits);
    } else {
      SpanRun(s, j + 1, Digits);
    }
  }

  /** A position where no alternative matches holds a character that no alternative can start. */
  lemma NoMatchChar(s: string, i: nat)
    requires i < |s| && MatchLength(s, i) == 0
    ensures !IsLetter(s[i]) && !IsDigit(s[i]) && s[i] != '(' && s[i] != ')' && !IsOperatorChar(s[i]) && !IsSpace(s[i])
  {
    MatchCases(s, i);
  }

  /** The pieces of Regex.Split, put back together, give the input back. */
  lemma {:induction false} SplitConcat(s: string, i: nat, junk: string)
    requires i <= |s|
    ensures Concat(Split(s, i, junk)) == junk + s[i..]
    decreases |s| - i
  {
    if i == |s| {
      assert Concat([junk]) == junk + Concat([]);
    } else {
      var n := MatchLength(s, i);
      if n == 0 {
        assert Split(s, i, junk) == Split(s, i + 1, junk + [s[i]]);
        SplitConcat(s, i + 1, junk + [s[i]]);
        assert junk + [s[i]] + s[i + 1..] == junk + s[i..];
      } else {
        var rest := Split(s, i + n, []);
        assert Split(s, i, junk) == [junk, s[i..i + n]] + rest;
        SplitConcat(s, i + n, []);
        MatchedConcat(s, i, n, junk, rest);
      }
    }
  }

  /** A match closes the unmatched text before it and is a piece of its own. */
  lemma MatchedConcat(s: string, i: nat, n: nat, junk: string, rest: seq<string>)
    requires i + n <= |s| && Concat(rest) == [] + s[i + n..]
    ensures Concat([junk, s[i..i + n]] + rest) == junk + s[i..]
  {
    PiecesConcat(junk, s[i..i + n], s[i + n..], rest);
    assert s[i..i + n] + s[i + n..] == s[i..];
  }

  lemma PiecesConcat(junk: string, m: string, tail: string, rest: seq<string>)
    requires Concat(rest) == [] + tail
    ensures Concat([junk, m] + rest) == junk + (m + tail)
  {
    ConcatAppend([junk, m], rest);
    assert [junk, m][1..] == [m];
    assert Concat([m]) == m + Concat([]);
  }

  /** What a piece of Regex.Split is: a stretch of unmatched text, or one whole match. */
  predicate PieceKind(p: string) {
    (IsBlank(p) || NoSpace(p)) &&
    (IsBlank(p) || IsOpaque(p) || IsClassified(p))
  }

  lemma {:induction false} SplitPieces(s: string, i: nat, junk: string)
    requires i <= |s|
    requires junk == [] || IsOpaque(junk)
    ensures forall k :: 0 <= k < |Split(s, i, junk)| ==> PieceKind(Split(s, i, junk)[k])
    decreases |s| - i
  {
    if i < |s| {
      var n := MatchLength(s, i);
      if n == 0 {
        NoMatchChar(s, i);
        var junk' := junk + [s[i]];
        assert IsOpaque(junk') by {
          forall k | 0 <= k < |junk'|
            ensures !IsLetter(junk'[k]) && !IsDigit(junk'[k]) && junk'[k] != '(' && junk'[k] != ')' && !IsOperatorChar(junk'[k]) && !IsSpace(junk'[k])
          {
            if k < |junk| { assert junk'[k] == junk[k]; }
          }
        }
        SplitPieces(s, i + 1, junk');
      } else {
        SplitPieces(s, i + n, []);
        MatchUniform(s, i);
        MatchClass(s, i);
        var rest := Split(s, i + n, []);
        assert Split(s, i, junk) == [junk, s[i..i + n]] + rest;
        assert PieceKind(junk);
        assert PieceKind(s[i..i + n]);
        forall k | 0 <= k < |Split(s, i, junk)| ensures PieceKind(Split(s, i, junk)[k]) {
          if k >= 2 { assert Split(s, i, junk)[k] == rest[k - 2]; }
        }
      }
    }
  }

  /** A match of a non-space alternative is a token of the class that alternative names. */
  lemma MatchClass(s: string, i: nat)
    requires i < |s| && MatchLength(s, i) > 0
    ensures !IsSpace(s[i]) ==> IsClassified(s[i..i + MatchLength(s, i)])
  {
    MatchCases(s, i);
    var n := MatchLength(s, i);
    var t := s[i..i + n];
    if s[i] == '(' || s[i] == ')' || IsOperatorChar(s[i]) {
      assert t == [s[i]];
    } else if IsLetter(s[i]) {
      SpanRun(s, i + 1, LettersOrDigits);
      assert IsVariable(t) by {
        forall k | 1 <= k < |t| ensures IsLetter(t[k]) || IsDigit(t[k]) {
          assert t[k] == s[i + k];
        }
      }
    } else if DoubleLength(s, i) > 0 {
      DoubleMatch(s, i);
    }
  }

  /** A match of the double alternative satisfies the anchored double pattern. */
  lemma DoubleMatch(s: string, i: nat)
    requires i <= |s| && DoubleLength(s, i) > 0
    ensures IsDouble(s[i..i + DoubleLength(s, i)])
  {
    var m := MantissaLength(s, i);
    var n := DoubleLength(s, i);
    var t := s[i..i + n];
    MantissaMatch(s, i);
    assert t[..m] == s[i..i + m];
    if n > m {
      ExponentMatch(s, i + m);
      assert t[m + 1..] == s[i + m + 1..i + n];
      assert t[m] == 'e' && IsMantissa(t[..m]) && IsExponent(t[m + 1..]);
    } else {
      assert t == s[i..i + m];
    }
  }

  /** A match of `e[\+-]?\d+` is an `e` followed by an exponent. */
  lemma ExponentMatch(s: string, j: nat)
    requires j <= |s| && ExponentLength(s, j) > 0
    ensures s[j] == 'e' && IsExponent(s[j + 1..j + ExponentLength(s, j)])
  {
    var x := s[j + 1..j + ExponentLength(s, j)];
    if j + 1 < |s| && (s[j + 1] == '+' || s[j + 1] == '-') {
      SpanRun(s, j + 2, Digits);
      var u := x[1..];
      assert AllDigits(u) by {
        forall k | 0 <= k < |u| ensures IsDigit(u[k]) { assert u[k] == s[j + 2 + k]; }
      }
    } else {
      SpanRun(s, j + 1, Digits);
      assert AllDigits(x) by {
        forall k | 0 <= k < |x| ensures IsDigit(x[k]) { assert x[k] == s[j + 1 + k]; }
      }
    }
  }

  lemma MantissaMatch(s: string, i: nat)
    requires i <= |s| && MantissaLength(s, i) > 0
    ensures IsMantissa(s[i..i + MantissaLength(s, i)])
  {
    var d := Span(s, i, Digits);
    if d > 0 && i + d < |s| && s[i + d] == '.' {
      DigitsPointMatch(s, i, d);
    } else if d == 0 && i < |s| && s[i] == '.' && Span(s, i + 1, Digits) > 0 {
      PointDigitsMatch(s, i);
    } else {
      SpanRun(s, i, Digits);
      var t := s[i..i + d];
      forall k | 0 <= k < d ensures IsDigit(t[k]) {
        assert t[k] == s[i + k];
      }
    }
  }

  /** `\d+\.\d*` */
  lemma DigitsPointMatch(s: string, i: nat, d: nat)
    requires d > 0 && i + d < |s| && d == Span(s, i, Digits) && s[i + d] == '.'
    ensures IsMantissa(s[i..i + d + 1 + Span(s, i + d + 1, Digits)])
  {
    var t := s[i..i + d + 1 + Span(s, i + d + 1, Digits)];
    SpanRun(s, i, Digits);
    SpanRun(s, i + d + 1, Digits);
    forall k | 0 <= k < |t| && k != d ensures IsDigit(t[k]) {
      assert t[k] == s[i + k];
    }
    PointedMantissa(t, d);
  }

  /** `\.\d+` */
  lemma PointDigitsMatch(s: string, i: nat)
    requires i < |s| && s[i] == '.' && Span(s, i + 1, Digits) > 0
    ensures IsMantissa(s[i..i + 1 + Span(s, i + 1, Digits)])
  {
    var t := s[i..i + 1 + Span(s, i + 1, Digits)];
    SpanRun(s, i + 1, Digits);
    forall k | 0 <= k < |t| && k != 0 ensures IsDigit(t[k]) {
      assert t[k] == s[i + k];
    }
    PointedMantissa(t, 0);
  }

  /** Digits around one point, with at least one digit, make a mantissa. */
  lemma PointedMantissa(t: string, d: nat)
    requires d < |t| && t[d] == '.' && (d > 0 || d + 1 < |t|)
    requires forall k :: 0 <= k < |t| && k != d ==> IsDigit(t[k])
    ensures IsMantissa(t)
  {
    var w, u := t[..d], t[d + 1..];
    assert AllDigits(w) by {
      forall k | 0 <= k < |w| ensures IsDigit(w[k]) { assert w[k] == t[k]; }
    }
    assert AllDigits(u) by {
      forall k | 0 <= k < |u| ensures IsDigit(u[k]) { assert u[k] == t[d + 1 + k]; }
    }
  }

  lemma {:induction false} RemoveBlankConcat(ps: seq<string>)
    requires forall k :: 0 <= k < |ps| ==> IsBlank(ps[k]) || NoSpace(ps[k])
    ensures Concat(RemoveBlank(ps)) == RemoveSpaces(Concat(ps))
  {
    if ps != [] {
      RemoveBlankConcat(ps[1..]);
      RemoveSpacesAppend(ps[0], Concat(ps[1..]));
      RemoveSpacesOf(ps[0]);
      ConcatAppend(if IsBlank(ps[0]) then [] else [ps[0]], RemoveBlank(ps[1..]));
      assert Concat([ps[0]]) == ps[0] + Concat([]);
    }
  }

  lemma {:induction false} RemoveBlankKeeps(ps: seq<string>, P: string -> bool)
    requires forall k :: 0 <= k < |ps| ==> IsBlank(ps[k]) || P(ps[k])
    ensures forall k :: 0 <= k < |RemoveBlank(ps)| ==> P(RemoveBlank(ps)[k])
  {
    if ps != [] {
      RemoveBlankKeeps(ps[1..], P);
      var head := if IsBlank(ps[0]) then [] else [ps[0]];
      assert RemoveBlank(ps) == head + RemoveBlank(ps[1..]);
    }
  }

  /** GetTokens keeps every non-whitespace character of the formula, in order, and nothing
      else: the tokens joined together are the formula with its whitespace deleted. */
  lemma TokensInOrder(formula: string)
    ensures Concat(GetTokens(formula)) == RemoveSpaces(formula)
  {
    var ps := Split(formula, 0, []);
    SplitPieces(formula, 0, []);
    SplitConcat(formula, 0, []);
    assert forall k :: 0 <= k < |ps| ==> IsBlank(ps[k]) || NoSpace(ps[k]) by {
      forall k | 0 <= k < |ps| ensures IsBlank(ps[k]) || NoSpace(ps[k]) {
        assert PieceKind(ps[k]);
      }
    }
    RemoveBlankConcat(ps);
    assert [] + formula[0..] == formula;
  }

  /** No token is empty and no token contains whitespace. */
  lemma TokensNonEmpty(formula: string)
    ensures forall k :: 0 <= k < |GetTokens(formula)| ==>
      |GetTokens(formula)[k]| > 0 && NoSpace(GetTokens(formula)[k])
  {
    var ps := Split(formula, 0, []);
    SplitPieces(formula, 0, []);
    RemoveBlankKeeps(ps, p => NoSpace(p));
  }

  /** Every token is of one of the five classes or is an opaque run of characters that
      no class contains; GetTokens itself never fails. */
  lemma TokenKinds(formula: string)
    ensures forall k :: 0 <= k < |GetTokens(formula)| ==>
      IsClassified(GetTokens(formula)[k]) || IsOpaque(GetTokens(formula)[k])
  {
    var ps := Split(formula, 0, []);
    SplitPieces(formula, 0, []);
    RemoveBlankKeeps(ps, p => IsClassified(p) || IsOpaque(p));
  }

  /** An opaque token belongs to none of the five classes, so the constructor rejects it. */
  lemma OpaqueUnclassified(t: string)
    requires IsOpaque(t)
    ensures !IsClassified(t)
  {
    if IsDouble(t) {
      var k := DoubleDigit(t);
    }
  }
}
