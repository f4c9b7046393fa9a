/** The five token classes of a formula, as the anchored patterns of the constructor
    and of Evaluate define them, and the numeric value of a number literal. */
module TokenClasses {

  // ---------------------------------------------------------------------------
  // Character classes
  // ---------------------------------------------------------------------------

  /** `[a-zA-Z]` */
  predicate IsLetter(c: char) {
    'a' <= c <= 'z' || 'A' <= c <= 'Z'
  }

  /** `\d`, restricted to the ASCII digits */
  predicate IsDigit(c: char) {
    '0' <= c <= '9'
  }

  /** `\s` as .NET defines it: the ASCII controls \t \n \v \f \r, NEL, and the
      Unicode separators (category Z). */
  predicate IsSpace(c: char) {
    || c == ' ' || c == '\t' || c == '\n' || c == '\U{000B}' || c == '\U{000C}' || c == '\r'
    || c == '\U{0085}' || c == '\U{00A0}' || c == '\U{1680}'
    || ('\U{2000}' <= c <= '\U{200A}')
    || c == '\U{2028}' || c == '\U{2029}' || c == '\U{202F}' || c == '\U{205F}' || c == '\U{3000}'
  }

  // `[\+\-*/]`
  predicate IsOperatorChar(c: char) {
    c == '+' || c == '-' || c == '*' || c == '/'
  }

  predicate AllDigits(s: string) {
    forall k :: 0 <= k < |s| ==> IsDigit(s[k])
  }

  // ---------------------------------------------------------------------------
  // Token classes (anchored patterns)
  // ---------------------------------------------------------------------------

  /** `^\($` */
  predicate IsLeftParen(t: string) {
    t == "("
  }

  /** `^\)$` */
  predicate IsRightParen(t: string) {
    t == ")"
  }

  // `^[\+\-*/]$`
  predicate IsOperator(t: string) {
    |t| == 1 && IsOperatorChar(t[0])
  }

  /** `^[a-zA-Z][0-9a-zA-Z]*$` */
  predicate IsVariable(t: string) {
    |t| > 0 && IsLetter(t[0]) && forall k :: 1 <= k < |t| ==> IsLetter(t[k]) || IsDigit(t[k])
  }

  /** `\d+\.\d* | \d*\.\d+ | \d+`: digits with at most one point and at least one digit. */
  predicate IsMantissa(m: string) {
    || (|m| > 0 && AllDigits(m))
    || exists p :: 0 <= p < |m| && m[p] == '.' && AllDigits(m[..p]) && AllDigits(m[p + 1..]) && (p > 0 || p + 1 < |m|)
  }

  /** `[\+-]?\d+`, the part of an exponent after its `e` */
  predicate IsExponent(x: string) {
    || (|x| > 0 && AllDigits(x))
    || (|x| > 1 && (x[0] == '+' || x[0] == '-') && AllDigits(x[1..]))
  }

  /** `^(?:\d+\.\d*|\d*\.\d+|\d+)(?:e[\+-]?\d+)?$`: only a lower-case `e` opens an exponent. */
  predicate IsDouble(t: string) {
    || IsMantissa(t)
    || exists q :: 0 <= q < |t| && t[q] == 'e' && IsMantissa(t[..q]) && IsExponent(t[q + 1..])
  }

  /** A token that the constructor accepts: one of the five classes. */
  predicate IsClassified(t: string) {
    IsLeftParen(t) || IsRightParen(t) || IsOperator(t) || IsVariable(t) || IsDouble(t)
  }

  /** What may stand first in a formula: `(`, a variable or a number. */
  predicate OpensOperand(t: string) {
    IsLeftParen(t) || IsVariable(t) || IsDouble(t)
  }

  /** What may stand last in a formula: `)`, a variable or a number. */
  predicate ClosesOperand(t: string) {
    IsRightParen(t) || IsVariable(t) || IsDouble(t)
  }

  /** A number literal has no letter other than its exponent's `e`, so no token is
      both a variable and a number, and no other two classes overlap either. */
  lemma ClassesDisjoint(t: string)
    ensures IsVariable(t) ==> !IsDouble(t)
    ensures IsDouble(t) ==> !IsLeftParen(t) && !IsRightParen(t) && !IsOperator(t)
    ensures IsVariable(t) ==> !IsLeftParen(t) && !IsRightParen(t) && !IsOperator(t)
  {
    if IsDouble(t) {
      var k := DoubleDigit(t);
      DoubleStart(t);
    }
  }

  /** A number literal begins with a digit or a point, never with a letter. */
  lemma DoubleStart(t: string)
    requires IsDouble(t)
    ensures |t| > 0 && (IsDigit(t[0]) || t[0] == '.')
  {
    if IsMantissa(t) {
      MantissaStart(t);
    } else {
      var q :| 0 <= q < |t| && t[q] == 'e' && IsMantissa(t[..q]) && IsExponent(t[q + 1..]);
      MantissaStart(t[..q]);
      assert t[..q][0] == t[0];
    }
  }

  lemma MantissaStart(m: string)
    requires IsMantissa(m)
    ensures |m| > 0 && (IsDigit(m[0]) || m[0] == '.')
  {
    if !(|m| > 0 && AllDigits(m)) {
      var p :| 0 <= p < |m| && m[p] == '.' && AllDigits(m[..p]) && AllDigits(m[p + 1..]) && (p > 0 || p + 1 < |m|);
      if p > 0 {
        assert m[..p][0] == m[0];
      }
    }
  }

  /** Every number literal holds a digit; the lemma names the position of one. */
  lemma DoubleDigit(t: string) returns (k: nat)
    requires IsDouble(t)
    ensures k < |t| && IsDigit(t[k])
  {
    if IsMantissa(t) {
      k := MantissaDigit(t);
    } else {
      var q :| 0 <= q < |t| && t[q] == 'e' && IsMantissa(t[..q]) && IsExponent(t[q + 1..]);
      k := MantissaDigit(t[..q]);
      assert t[..q][k] == t[k];
    }
  }

  lemma MantissaDigit(m: string) returns (k: nat)
    requires IsMantissa(m)
    ensures k < |m| && IsDigit(m[k])
  {
    if |m| > 0 && AllDigits(m) {
      k := 0;
    } else {
      var p :| 0 <= p < |m| && m[p] == '.' && AllDigits(m[..p]) && AllDigits(m[p + 1..]) && (p > 0 || p + 1 < |m|);
      if p > 0 {
        k := 0;
        assert m[..p][0] == m[0];
      } else {
        k := p + 1;
        assert m[p + 1..][0] == m[k];
      }
    }
  }

  // ---------------------------------------------------------------------------
  // The value of a number literal
  // ---------------------------------------------------------------------------

  function Pow10(n: nat): (r: nat)
    ensures r >= 1
  {
    if n == 0 then 1 else 10 * Pow10(n - 1)
  }

  /** The value of a string of decimal digits (0 for the empty string). */
  function DigitsValue(s: string): (r: nat)
    requires AllDigits(s)
    ensures r < Pow10(|s|)
  {
    if s == [] then 0
    else
      assert AllDigits(s[..|s| - 1]) && IsDigit(s[|s| - 1]);
      DigitsValue(s[..|s| - 1]) * 10 + (s[|s| - 1] as int - '0' as int)
  }

  /** The first index of `c` in `s`, or |s| when `c` does not occur. */
  function IndexOf(s: string, c: char): (r: nat)
    ensures r <= |s|
    ensures r < |s| ==> s[r] == c
    ensures forall k :: 0 <= k < r ==> s[k] != c
  {
    if s == [] then 0
    else if s[0] == c then 0
    else 1 + IndexOf(s[1..], c)
  }

  /** The digits of a mantissa with its point taken out, and how many of them follow the point. */
  function MantissaValue(m: string): (r: real)
    requires IsMantissa(m)
    ensures r >= 0.0
  {
    var p := IndexOf(m, '.');
    if p == |m| then
      assert AllDigits(m) by { MantissaPointAt(m, p); }
      DigitsValue(m) as real
    else
      MantissaPointAt(m, p);
      Shifted(DigitsValue(m[..p] + m[p + 1..]) as real, -(|m| - p - 1))
  }

  /** The point of a mantissa, if any, is its only non-digit. */
  lemma MantissaPointAt(m: string, p: nat)
    requires IsMantissa(m) && p == IndexOf(m, '.')
    ensures p == |m| ==> AllDigits(m)
    ensures p < |m| ==> AllDigits(m[..p] + m[p + 1..])
  {
    if !(|m| > 0 && AllDigits(m)) {
      var p' :| 0 <= p' < |m| && m[p'] == '.' && AllDigits(m[..p']) && AllDigits(m[p' + 1..]) && (p' > 0 || p' + 1 < |m|);
      forall k | 0 <= k < p' ensures m[k] != '.' {
        assert m[k] == m[..p'][k];
      }
      assert p == p';
      var d := m[..p] + m[p + 1..];
      forall k | 0 <= k < |d| ensures IsDigit(d[k]) {
        if k < p { assert d[k] == m[..p][k]; } else { assert d[k] == m[p + 1..][k - p]; }
      }
    }
  }

  /** The signed value of an exponent's digits. */
  function ExponentValue(x: string): (r: int)
    requires IsExponent(x)
  {
    if AllDigits(x) then DigitsValue(x)
    else if x[0] == '-' then -(DigitsValue(x[1..]) as int)
    else DigitsValue(x[1..])
  }

  /** `x` times ten to the power `e`, one decimal digit at a time. */
  function Shifted(x: real, e: int): (r: real)
    ensures x >= 0.0 ==> r >= 0.0
    decreases if e >= 0 then e else -e
  {
    if e == 0 then x
    else if e > 0 then 10.0 * Shifted(x, e - 1)
    else Shifted(x, e + 1) / 10.0
  }

  /** The value Convert.ToDouble gives a number token, in exact arithmetic: the mantissa
      times ten to the exponent. A number literal has no sign, so its value is never
      negative. */
  function NumberValue(t: string): (r: real)
    requires IsDouble(t)
    ensures r >= 0.0
  {
    var q := IndexOf(t, 'e');
    ExponentSplit(t, q);
    if q == |t| then MantissaValue(t)
    else Shifted(MantissaValue(t[..q]), ExponentValue(t[q + 1..]))
  }

  /** A number literal splits at its first `e` into mantissa and exponent. */
  lemma ExponentSplit(t: string, q: nat)
    requires IsDouble(t) && q == IndexOf(t, 'e')
    ensures q == |t| ==> IsMantissa(t)
    ensures q < |t| ==> IsMantissa(t[..q]) && IsExponent(t[q + 1..])
  {
    if IsMantissa(t) {
      MantissaHasNoE(t);
    } else {
      var q' :| 0 <= q' < |t| && t[q'] == 'e' && IsMantissa(t[..q']) && IsExponent(t[q' + 1..]);
      MantissaHasNoE(t[..q']);
      forall k | 0 <= k < q' ensures t[k] != 'e' {
        assert t[k] == t[..q'][k];
      }
      assert q == q';
    }
  }

  /** No character of a mantissa is an `e`. */
  lemma MantissaHasNoE(m: string)
    requires IsMantissa(m)
    ensures forall k :: 0 <= k < |m| ==> m[k] != 'e'
  {
    if !(|m| > 0 && AllDigits(m)) {
      var p :| 0 <= p < |m| && m[p] == '.' && AllDigits(m[..p]) && AllDigits(m[p + 1..]) && (p > 0 || p + 1 < |m|);
      forall k | 0 <= k < |m| ensures m[k] != 'e' {
        if k < p { assert m[k] == m[..p][k]; }
        else if k > p { assert m[k] == m[p + 1..][k - p - 1]; }
      }
    }
  }
}
