/** The four regular expressions of InputValidator (NUMBER_PATTERN, INTEGER_PATTERN,
    SCIENTIFIC_NOTATION_PATTERN, EXPRESSION_PATTERN), each given twice: as a reference
    definition that follows the pattern clause by clause, and as a left-to-right scanner.
    The scanners are what the validators run; the lemmas at the end prove that each
    scanner accepts exactly the strings its pattern matches in full.

    The reference definitions speak of the range s[lo..hi] of a string s, so that the
    pieces of one match are ranges of the same string. */
module Grammar {
  import opened Wrappers
  import opened JavaText

  predicate IsSign(c: char) {
    c == '+' || c == '-'
  }

  predicate IsExponentMark(c: char) {
    c == 'e' || c == 'E'
  }

  /** The operator class of EXPRESSION_PATTERN: + - × ÷ * and the slash. */
  predicate IsExpressionOperator(c: char) {
    c == '+' || c == '-' || c == '\U{00D7}' || c == '\U{00F7}' || c == '*' || c == '/'
  }

  /** A character that cannot continue a number: the scanners stop at it. */
  predicate EndsNumber(c: char) {
    !IsDigit(c) && c != '.' && !IsExponentMark(c)
  }

  /** A character that can occur in a number. */
  predicate IsNumberChar(c: char) {
    IsSign(c) || IsDigit(c) || c == '.' || IsExponentMark(c)
  }

  /** \d* on s[lo..hi] */
  predicate AllDigitsIn(s: string, lo: int, hi: int) {
    0 <= lo <= hi <= |s| && forall k :: lo <= k < hi ==> IsDigit(s[k])
  }

  /** \d+ on s[lo..hi] */
  predicate DigitsIn(s: string, lo: int, hi: int) {
    lo < hi && AllDigitsIn(s, lo, hi)
  }

  /** \s* on s[lo..hi] */
  predicate SpacesIn(s: string, lo: int, hi: int) {
    0 <= lo <= hi <= |s| && forall k :: lo <= k < hi ==> IsRegexSpace(s[k])
  }

  // ---------------------------------------------------------------------------
  // Reference definitions: the patterns, clause by clause

  /** [+-]? on s[lo..hi] */
  ghost predicate OptSignIn(s: string, lo: int, hi: int) {
    0 <= lo <= hi <= |s| && (hi == lo || (hi == lo + 1 && IsSign(s[lo])))
  }

  /** \d+\.\d* on s[lo..hi], with the point at index k */
  ghost predicate PointAt(s: string, lo: int, k: int, hi: int) {
    DigitsIn(s, lo, k) && k < hi <= |s| && s[k] == '.' && AllDigitsIn(s, k + 1, hi)
  }

  /** \d+(?:\.\d*)?|\.\d+ on s[lo..hi] */
  ghost predicate MantissaIn(s: string, lo: int, hi: int) {
    || DigitsIn(s, lo, hi)
    || (exists k :: PointAt(s, lo, k, hi))
    || (0 <= lo < hi <= |s| && s[lo] == '.' && DigitsIn(s, lo + 1, hi))
  }

  /** [eE][+-]?\d+ on s[lo..hi] */
  ghost predicate ExponentIn(s: string, lo: int, hi: int) {
    && 0 <= lo && lo + 1 < hi <= |s|
    && IsExponentMark(s[lo])
    && (DigitsIn(s, lo + 1, hi) || (IsSign(s[lo + 1]) && DigitsIn(s, lo + 2, hi)))
  }

  /** s[lo..a] is the sign, s[a..b] the mantissa and s[b..hi] the exponent,
      which may be empty unless needExponent. */
  ghost predicate NumberSplit(s: string, lo: int, a: int, b: int, hi: int, needExponent: bool) {
    && lo <= a <= b <= hi <= |s|
    && OptSignIn(s, lo, a)
    && MantissaIn(s, a, b)
    && (if b == hi then !needExponent else ExponentIn(s, b, hi))
  }

  /** NUMBER_PATTERN [+-]?(?:\d+(?:\.\d*)?|\.\d+)(?:[eE][+-]?\d+)? on s[lo..hi] */
  ghost predicate NumberIn(s: string, lo: int, hi: int) {
    exists a, b :: NumberSplit(s, lo, a, b, hi, false)
  }

  /** SCIENTIFIC_NOTATION_PATTERN [+-]?(?:\d+(?:\.\d*)?|\.\d+)[eE][+-]?\d+ on s[lo..hi] */
  ghost predicate ScientificIn(s: string, lo: int, hi: int) {
    exists a, b :: NumberSplit(s, lo, a, b, hi, true)
  }

  /** INTEGER_PATTERN [+-]?\d+ on s[lo..hi] */
  ghost predicate IntegerIn(s: string, lo: int, hi: int) {
    exists a :: OptSignIn(s, lo, a) && DigitsIn(s, a, hi)
  }

  /** s[lo..a] is a number, s[a..b] spaces, s[b] an operator, s[b+1..c] spaces,
      and s[c..] again an expression. */
  ghost predicate ExpressionStep(s: string, lo: int, a: int, b: int, c: int)
    decreases |s| - lo, 0
  {
    && 0 <= lo < a <= b < c <= |s|
    && NumberIn(s, lo, a)
    && SpacesIn(s, a, b)
    && IsExpressionOperator(s[b])
    && SpacesIn(s, b + 1, c)
    && ExpressionFrom(s, c)
  }

  /** EXPRESSION_PATTERN on s[lo..]: a number followed by any number of
      (spaces, operator, spaces, number), unfolded on the right: a number,
      or a number, an operator and again an expression. */
  ghost predicate ExpressionFrom(s: string, lo: int)
    decreases |s| - lo, 1
  {
    NumberIn(s, lo, |s|) || exists a, b, c :: ExpressionStep(s, lo, a, b, c)
  }

  /** The whole of t matches NUMBER_PATTERN. */
  ghost predicate Number(t: string) {
    NumberIn(t, 0, |t|)
  }

  /** The whole of t matches SCIENTIFIC_NOTATION_PATTERN. */
  ghost predicate Scientific(t: string) {
    ScientificIn(t, 0, |t|)
  }

  /** The whole of t matches INTEGER_PATTERN. */
  ghost predicate Integer(t: string) {
    IntegerIn(t, 0, |t|)
  }

  /** The whole of t matches EXPRESSION_PATTERN. */
  ghost predicate Expression(t: string) {
    ExpressionFrom(t, 0)
  }

  // ---------------------------------------------------------------------------
  // Scanners

  /** The end of the run of digits starting at i. */
  function SkipDigits(s: string, i: nat): (j: nat)
    requires i <= |s|
    ensures i <= j <= |s| && AllDigitsIn(s, i, j)
    ensures j < |s| ==> !IsDigit(s[j])
    decreases |s| - i
  {
    if i < |s| && IsDigit(s[i]) then SkipDigits(s, i + 1) else i
  }

  /** The end of the run of \s characters starting at i. */
  function SkipSpaces(s: string, i: nat): (j: nat)
    requires i <= |s|
    ensures i <= j <= |s| && SpacesIn(s, i, j)
    ensures j < |s| ==> !IsRegexSpace(s[j])
    decreases |s| - i
  {
    if i < |s| && IsRegexSpace(s[i]) then SkipSpaces(s, i + 1) else i
  }

  /** Skips an optional sign at i. */
  function SkipSign(s: string, i: nat): (j: nat)
    requires i <= |s|
    ensures j == (if i < |s| && IsSign(s[i]) then i + 1 else i)
  {
    if i < |s| && IsSign(s[i]) then i + 1 else i
  }

  /** The end of the mantissa that starts at i, if one does. */
  function ScanMantissa(s: string, i: nat): (r: Option<nat>)
    requires i <= |s|
    ensures r.Some? ==> i < r.value <= |s| && MantissaIn(s, i, r.value)
  {
    var d := SkipDigits(s, i);
    if d > i then
      if d < |s| && s[d] == '.' then
        var f := SkipDigits(s, d + 1);
        assert PointAt(s, i, d, f);
        Some(f)
      else
        Some(d)
    else if i < |s| && s[i] == '.' then
      var f := SkipDigits(s, i + 1);
      if f > i + 1 then Some(f) else None
    else None
  }

  /** The end of the exponent that starts at i, if one does. */
  function ScanExponent(s: string, i: nat): (r: Option<nat>)
    requires i <= |s|
    ensures r.Some? ==> i < r.value <= |s| && ExponentIn(s, i, r.value)
  {
    if i < |s| && IsExponentMark(s[i]) then
      var d := SkipSign(s, i + 1);
      var e := SkipDigits(s, d);
      if e > d then Some(e) else None
    else None
  }

  /** The end of the number that starts at i, if one does: NUMBER_PATTERN, or
      SCIENTIFIC_NOTATION_PATTERN when needExponent. */
  function ScanNumber(s: string, i: nat, needExponent: bool): (r: Option<nat>)
    requires i <= |s|
    ensures r.Some? ==> i < r.value <= |s|
  {
    var m := ScanMantissa(s, SkipSign(s, i));
    if m.None? then None
    else
      var e := ScanExponent(s, m.value);
      if e.Some? then e
      else if needExponent then None
      else m
  }

  /** The end of the integer that starts at i, if one does. */
  function ScanInteger(s: string, i: nat): (r: Option<nat>)
    requires i <= |s|
    ensures r.Some? ==> i < r.value <= |s|
  {
    var d := SkipSign(s, i);
    var e := SkipDigits(s, d);
    if e > d then Some(e) else None
  }

  /** Where the next number of an expression starts after a number that ends at n:
      past blanks, an operator and blanks, if an operator follows. */
  function NextOperand(s: string, n: nat): (r: Option<nat>)
    requires n <= |s|
    ensures r.Some? ==> n < r.value <= |s|
    ensures r.Some? ==> var o := SkipSpaces(s, n);
      o < |s| && IsExpressionOperator(s[o]) && r.value == SkipSpaces(s, o + 1)
    ensures r.None? ==> var o := SkipSpaces(s, n); o == |s| || !IsExpressionOperator(s[o])
  {
    var o := SkipSpaces(s, n);
    if o < |s| && IsExpressionOperator(s[o]) then Some(SkipSpaces(s, o + 1)) else None
  }

  /** Whether s[i..] is an expression: a number, then (spaces, operator, spaces, number) repeated. */
  function ScanExpression(s: string, i: nat): bool
    requires i <= |s|
    decreases |s| - i
  {
    match ScanNumber(s, i, false)
    case None => false
    case Some(n) =>
      if n == |s| then true
      else
        match NextOperand(s, n)
        case None => false
        case Some(c) => ScanExpression(s, c)
  }

  /** NUMBER_PATTERN.matcher(t).matches() */
  predicate MatchesNumber(t: string) {
    ScanNumber(t, 0, false) == Some(|t|)
  }

  /** SCIENTIFIC_NOTATION_PATTERN.matcher(t).matches() */
  predicate MatchesScientific(t: string) {
    ScanNumber(t, 0, true) == Some(|t|)
  }

  /** INTEGER_PATTERN.matcher(t).matches() */
  predicate MatchesInteger(t: string) {
    ScanInteger(t, 0) == Some(|t|)
  }

  /** EXPRESSION_PATTERN.matcher(t).matches() */
  predicate MatchesExpression(t: string) {
    ScanExpression(t, 0)
  }

  // ---------------------------------------------------------------------------
  // Soundness: what a scanner accepts, the pattern matches

  lemma {:induction false} ScanNumberSound(s: string, i: nat, needExponent: bool)
    requires i <= |s| && ScanNumber(s, i, needExponent).Some?
    ensures var e := ScanNumber(s, i, needExponent).value;
      exists a, b :: NumberSplit(s, i, a, b, e, needExponent)
  {
    var e := ScanNumber(s, i, needExponent).value;
    var a := SkipSign(s, i);
    var m := ScanMantissa(s, a).value;
    assert NumberSplit(s, i, a, m, e, needExponent);
  }

  lemma {:induction false} ScanIntegerSound(s: string, i: nat)
    requires i <= |s| && ScanInteger(s, i).Some?
    ensures IntegerIn(s, i, ScanInteger(s, i).value)
  {
    var a := SkipSign(s, i);
    assert OptSignIn(s, i, a);
  }

  lemma {:induction false} ScanExpressionSound(s: string, i: nat)
    requires i <= |s| && ScanExpression(s, i)
    ensures ExpressionFrom(s, i)
    decreases |s| - i
  {
    var n := ScanExpressionNumber(s, i);
    if n == |s| {
      NumberFrom(s, i);
    } else {
      var o, c := ScanExpressionRest(s, i, n);
      ScanExpressionSound(s, c);
      StepFrom(s, i, n, o, c);
    }
  }

  /** An accepted expression starts with a number. */
  lemma ScanExpressionNumber(s: string, i: nat) returns (n: nat)
    requires i <= |s| && ScanExpression(s, i)
    ensures ScanNumber(s, i, false) == Some(n) && NumberIn(s, i, n)
  {
    n := ScanNumber(s, i, false).value;
    ScanNumberSound(s, i, false);
  }

  /** After the number of an accepted expression that goes on: blanks, an operator,
      blanks and again an accepted expression. */
  lemma ScanExpressionRest(s: string, i: nat, n: nat) returns (o: nat, c: nat)
    requires i <= |s| && ScanExpression(s, i) && ScanNumber(s, i, false) == Some(n) && n < |s|
    ensures n <= o < c <= |s| && SpacesIn(s, n, o) && IsExpressionOperator(s[o])
    ensures SpacesIn(s, o + 1, c) && ScanExpression(s, c)
  {
    o := SkipSpaces(s, n);
    c := NextOperand(s, n).value;
  }

  lemma NumberFrom(s: string, i: int)
    requires NumberIn(s, i, |s|)
    ensures ExpressionFrom(s, i)
  {
  }

  lemma StepFrom(s: string, i: int, a: int, b: int, c: int)
    requires 0 <= i < a <= b < c <= |s|
    requires NumberIn(s, i, a) && SpacesIn(s, a, b) && IsExpressionOperator(s[b])
    requires SpacesIn(s, b + 1, c) && ExpressionFrom(s, c)
    ensures ExpressionFrom(s, i)
  {
    assert ExpressionStep(s, i, a, b, c);
  }

  // ---------------------------------------------------------------------------
  // Completeness: what the pattern matches, the scanner accepts, and it stops
  // exactly where the match ends

  lemma {:induction false} SkipDigitsExact(s: string, i: nat, j: nat)
    requires i <= j && AllDigitsIn(s, i, j) && (j < |s| ==> !IsDigit(s[j]))
    ensures SkipDigits(s, i) == j
    decreases j - i
  {
    if i < j {
      SkipDigitsExact(s, i + 1, j);
    }
  }

  lemma {:induction false} SkipSpacesExact(s: string, i: nat, j: nat)
    requires i <= j && SpacesIn(s, i, j) && (j < |s| ==> !IsRegexSpace(s[j]))
    ensures SkipSpaces(s, i) == j
    decreases j - i
  {
    if i < j {
      SkipSpacesExact(s, i + 1, j);
    }
  }

  lemma MantissaStart(s: string, lo: int, hi: int)
    requires MantissaIn(s, lo, hi)
    ensures 0 <= lo < hi <= |s| && (IsDigit(s[lo]) || s[lo] == '.')
  {
  }

  lemma {:induction false} ScanMantissaExact(s: string, a: nat, b: nat)
    requires MantissaIn(s, a, b)
    requires b < |s| ==> !IsDigit(s[b]) && s[b] != '.'
    ensures ScanMantissa(s, a) == Some(b)
  {
    if DigitsIn(s, a, b) {
      SkipDigitsExact(s, a, b);
    } else if k :| PointAt(s, a, k, b) {
      SkipDigitsExact(s, a, k);
      SkipDigitsExact(s, k + 1, b);
    } else {
      SkipDigitsExact(s, a + 1, b);
    }
  }

  lemma {:induction false} ScanExponentExact(s: string, a: nat, b: nat)
    requires ExponentIn(s, a, b)
    requires b < |s| ==> !IsDigit(s[b])
    ensures ScanExponent(s, a) == Some(b)
  {
    if DigitsIn(s, a + 1, b) {
      SkipDigitsExact(s, a + 1, b);
    } else {
      SkipDigitsExact(s, a + 2, b);
    }
  }

  /** The sign of s[i..e] ends at a and its mantissa at b. */
  lemma {:induction false} ScanNumberExactAt(s: string, i: nat, a: int, b: int, e: nat, needExponent: bool)
    requires NumberSplit(s, i, a, b, e, needExponent)
    requires e < |s| ==> EndsNumber(s[e])
    ensures ScanNumber(s, i, needExponent) == Some(e)
  {
    MantissaStart(s, a, b);
    assert SkipSign(s, i) == a;
    ScanMantissaExact(s, a, b);
    if b < e {
      ScanExponentExact(s, b, e);
    }
  }

  lemma ScanNumberExact(s: string, i: nat, e: nat, needExponent: bool)
    requires exists a, b :: NumberSplit(s, i, a, b, e, needExponent)
    requires e < |s| ==> EndsNumber(s[e])
    ensures ScanNumber(s, i, needExponent) == Some(e)
  {
    var a, b :| NumberSplit(s, i, a, b, e, needExponent);
    ScanNumberExactAt(s, i, a, b, e, needExponent);
  }

  lemma {:induction false} ScanIntegerExact(s: string, i: nat, e: nat)
    requires IntegerIn(s, i, e)
    requires e < |s| ==> !IsDigit(s[e])
    ensures ScanInteger(s, i) == Some(e)
  {
    var a :| OptSignIn(s, i, a) && DigitsIn(s, a, e);
    assert SkipSign(s, i) == a;
    SkipDigitsExact(s, a, e);
  }

  lemma NumberStart(s: string, lo: int, hi: int)
    requires NumberIn(s, lo, hi)
    ensures 0 <= lo < hi <= |s| && !IsRegexSpace(s[lo])
  {
    var a, b :| NumberSplit(s, lo, a, b, hi, false);
    MantissaStart(s, a, b);
  }

  lemma ExpressionStart(s: string, lo: int)
    requires ExpressionFrom(s, lo)
    ensures 0 <= lo < |s| && !IsRegexSpace(s[lo])
  {
    if NumberIn(s, lo, |s|) {
      NumberStart(s, lo, |s|);
    } else {
      var a, b, c :| ExpressionStep(s, lo, a, b, c);
      NumberStart(s, lo, a);
    }
  }

  lemma {:induction false} ScanExpressionExact(s: string, i: nat)
    requires ExpressionFrom(s, i)
    ensures i <= |s| && ScanExpression(s, i)
    decreases |s| - i
  {
    ExpressionStart(s, i);
    if NumberIn(s, i, |s|) {
      ScanNumberExact(s, i, |s|, false);
    } else {
      var a, b, c := StepOf(s, i);
      ScanExpressionExact(s, c);
      ExpressionStart(s, c);
      ScanStep(s, i, a, b, c);
      ScanExpressionUnfold(s, i, a, c);
    }
  }

  /** An expression that is not a single number is a number, an operator and an expression. */
  lemma StepOf(s: string, i: nat) returns (a: nat, b: nat, c: nat)
    requires ExpressionFrom(s, i) && !NumberIn(s, i, |s|)
    ensures i < a <= b < c <= |s| && NumberIn(s, i, a) && SpacesIn(s, a, b)
    ensures IsExpressionOperator(s[b]) && SpacesIn(s, b + 1, c) && ExpressionFrom(s, c)
  {
    a, b, c :| ExpressionStep(s, i, a, b, c);
  }

  /** The scanner reads the number and the operator of one step of the expression. */
  lemma ScanStep(s: string, i: nat, a: nat, b: nat, c: nat)
    requires i < a <= b < c <= |s| && NumberIn(s, i, a) && SpacesIn(s, a, b)
    requires IsExpressionOperator(s[b]) && SpacesIn(s, b + 1, c) && c < |s| && !IsRegexSpace(s[c])
    ensures ScanNumber(s, i, false) == Some(a) && NextOperand(s, a) == Some(c)
  {
    SkipSpacesExact(s, a, b);
    SkipSpacesExact(s, b + 1, c);
    NextOperandAt(s, a, b, c);
    assert EndsNumber(s[a]);
    ScanNumberExact(s, i, a, false);
  }

  lemma NextOperandAt(s: string, a: nat, b: nat, c: nat)
    requires a <= b < |s| && SkipSpaces(s, a) == b && IsExpressionOperator(s[b])
    requires SkipSpaces(s, b + 1) == c
    ensures NextOperand(s, a) == Some(c)
  {
  }

  lemma ScanExpressionUnfold(s: string, i: nat, a: nat, c: nat)
    requires i <= a < |s| && ScanNumber(s, i, false) == Some(a) && NextOperand(s, a) == Some(c)
    requires ScanExpression(s, c)
    ensures ScanExpression(s, i)
  {
  }

  // ---------------------------------------------------------------------------
  // Each scanner decides its pattern

  lemma NumberScannerCorrect(t: string)
    ensures MatchesNumber(t) <==> Number(t)
  {
    if MatchesNumber(t) {
      ScanNumberSound(t, 0, false);
    }
    if Number(t) {
      ScanNumberExact(t, 0, |t|, false);
    }
  }

  lemma ScientificScannerCorrect(t: string)
    ensures MatchesScientific(t) <==> Scientific(t)
  {
    if MatchesScientific(t) {
      ScanNumberSound(t, 0, true);
    }
    if Scientific(t) {
      ScanNumberExact(t, 0, |t|, true);
    }
  }

  lemma IntegerScannerCorrect(t: string)
    ensures MatchesInteger(t) <==> Integer(t)
  {
    if MatchesInteger(t) {
      ScanIntegerSound(t, 0);
    }
    if Integer(t) {
      ScanIntegerExact(t, 0, |t|);
    }
  }

  lemma ExpressionScannerCorrect(t: string)
    ensures MatchesExpression(t) <==> Expression(t)
  {
    if MatchesExpression(t) {
      ScanExpressionSound(t, 0);
    }
    if Expression(t) {
      ScanExpressionExact(t, 0);
    }
  }

  /** Every scientific-notation text is also a number text. */
  lemma ScientificIsNumber(t: string)
    ensures Scientific(t) ==> Number(t)
  {
    if Scientific(t) {
      var a, b :| NumberSplit(t, 0, a, b, |t|, true);
      assert NumberSplit(t, 0, a, b, |t|, false);
    }
  }

  // ---------------------------------------------------------------------------
  // What the patterns admit

  /** A number is made of signs, digits, points and exponent marks only. */
  lemma NumberChars(s: string, lo: int, hi: int)
    requires NumberIn(s, lo, hi)
    ensures forall k :: lo <= k < hi ==> IsNumberChar(s[k])
  {
    var a, b :| NumberSplit(s, lo, a, b, hi, false);
    MantissaChars(s, a, b);
    if b < hi {
      ExponentChars(s, b, hi);
    }
  }

  lemma MantissaChars(s: string, lo: int, hi: int)
    requires MantissaIn(s, lo, hi)
    ensures forall k :: lo <= k < hi ==> IsDigit(s[k]) || s[k] == '.'
  {
    if k :| PointAt(s, lo, k, hi) {
      assert forall j :: lo <= j < k ==> IsDigit(s[j]);
    }
  }

  lemma ExponentChars(s: string, lo: int, hi: int)
    requires ExponentIn(s, lo, hi)
    ensures forall k :: lo <= k < hi ==> IsNumberChar(s[k])
  {
  }

  /** An expression is made of number characters, operators and spaces only:
      in particular it holds no parenthesis. */
  lemma {:induction false} ExpressionChars(s: string, lo: nat)
    requires ExpressionFrom(s, lo)
    ensures forall k :: lo <= k < |s| ==> IsNumberChar(s[k]) || IsExpressionOperator(s[k]) || IsRegexSpace(s[k])
    decreases |s| - lo
  {
    if NumberIn(s, lo, |s|) {
      NumberChars(s, lo, |s|);
    } else {
      var a, b, c :| ExpressionStep(s, lo, a, b, c);
      NumberChars(s, lo, a);
      ExpressionChars(s, c);
    }
  }
}
