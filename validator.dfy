/** InputValidator: static checks that either return a value or fail with a
    ValidationException naming the violated rule. Each check is a chain of guards and
    the first guard that fails decides the rule code; the contracts below state, rule
    by rule, exactly which inputs end with that code. */
module Validator {
  import opened Wrappers
  import opened JavaText
  import opened Doubles
  import opened Errors
  import opened Grammar
  import opened Numerals
  import Config

  /** VALID_OPERATIONS, in the order the source lists them. */
  const VALID_OPERATIONS: seq<string> :=
    ["+", "-", "\U{00D7}", "\U{00F7}", "*", "/", "^", "\U{221A}", "\U{221B}", "%", "!",
     "sin", "cos", "tan", "log", "ln"]

  /** VALID_OPERATIONS.toString(): the HashSet's iteration order, for a table of 32 buckets. */
  const VALID_OPERATIONS_TEXT: string :=
    "[tan, !, ln, %, log, cos, *, +, -, /, \U{00D7}, \U{00F7}, sin, \U{221A}, \U{221B}, ^]"

  /** The results of a check fail with the given rule code. */
  predicate FailsWith<T>(r: Result<T, Error>, rule: string) {
    r.Failure? && Violates(r.error, rule)
  }

  predicate RejectsWith(o: Outcome<Error>, rule: string) {
    o.Fail? && Violates(o.error, rule)
  }

  function AbsReal(x: real): real {
    if x < 0.0 then -x else x
  }

  /** value != 0.0 && Math.abs(value) < Double.MIN_NORMAL: a nonzero subnormal. */
  predicate IsSubnormal(d: Double) {
    d.Finite? && d.v != 0.0 && AbsReal(d.v) < MIN_NORMAL
  }

  // ---------------------------------------------------------------------------
  // validateNumber

  /** validateNumber: the trimmed text must match NUMBER_PATTERN and parse to a finite
      double that is zero or normal. */
  function ValidateNumber(jdk: Jdk, input: Option<string>): (r: Result<Double, Error>)
    ensures r.Failure? ==> r.error.ValidationException? && r.error.invalidInput == input
    ensures FailsWith(r, "NULL_INPUT") <==> input.None?
    ensures FailsWith(r, "EMPTY_INPUT") <==> input.Some? && Trim(input.value) == []
    ensures FailsWith(r, "INVALID_NUMBER_FORMAT") <==> input.Some? && Trim(input.value) != [] && !Number(Trim(input.value))
    ensures input.Some? && Number(Trim(input.value)) ==>
      var t := Trim(input.value);
      match jdk.parseDouble(t)
      case Failure(m) => FailsWith(r, "PARSE_ERROR") && r.error.cause == Some(NumberFormatException(m))
      case Success(d) =>
        && (d.NaN? <==> FailsWith(r, "NAN_VALUE"))
        && (IsInfinite(d) <==> FailsWith(r, "INFINITE_VALUE"))
        && (IsSubnormal(d) <==> FailsWith(r, "UNDERFLOW"))
    ensures r.Success? <==>
      && input.Some? && Number(Trim(input.value))
      && jdk.parseDouble(Trim(input.value)).Success?
      && jdk.parseDouble(Trim(input.value)).value.Finite?
      && !IsSubnormal(jdk.parseDouble(Trim(input.value)).value)
    ensures r.Success? ==> Success(r.value) == jdk.parseDouble(Trim(input.value))
  {
    if input.None? then
      Failure(Invalid("Input cannot be null", input, "NULL_INPUT"))
    else
      var t := Trim(input.value);
      NumberScannerCorrect(t);
      if t == [] then
        Failure(Invalid("Input cannot be empty", input, "EMPTY_INPUT"))
      else if !MatchesNumber(t) then
        Failure(Invalid("Invalid number format: '" + input.value
                        + "'. Expected format: [+-]?digits[.digits][e[+-]digits]", input, "INVALID_NUMBER_FORMAT"))
      else
        CheckParsedNumber(jdk, input, jdk.parseDouble(t))
  }

  /** The checks validateNumber makes on the value Double.parseDouble returned. */
  function CheckParsedNumber(jdk: Jdk, input: Option<string>, parsed: Result<Double, string>): (r: Result<Double, Error>)
    requires input.Some?
    ensures r.Failure? ==> r.error.ValidationException? && r.error.invalidInput == input
    ensures r.Failure? ==> (r.error.violatedRule.Some? &&
      r.error.violatedRule.value in {"PARSE_ERROR", "NAN_VALUE", "INFINITE_VALUE", "UNDERFLOW"})
    ensures match parsed
      case Failure(m) => FailsWith(r, "PARSE_ERROR") && r.error.cause == Some(NumberFormatException(m))
      case Success(d) =>
        && (d.NaN? <==> FailsWith(r, "NAN_VALUE"))
        && (IsInfinite(d) <==> FailsWith(r, "INFINITE_VALUE"))
        && (IsSubnormal(d) <==> FailsWith(r, "UNDERFLOW"))
    ensures r.Success? <==> parsed.Success? && parsed.value.Finite? && !IsSubnormal(parsed.value)
    ensures r.Success? ==> Success(r.value) == parsed
  {
    match parsed
    case Failure(m) =>
      Failure(NewDetailedValidationWithCause("Cannot parse '" + input.value + "' as a valid number",
                                             input, Some("PARSE_ERROR"), NumberFormatException(m)))
    case Success(value) =>
      if value.NaN? then
        Failure(Invalid("Input results in NaN (Not a Number)", input, "NAN_VALUE"))
      else if IsInfinite(value) then
        Failure(Invalid("Input results in infinite value", input, "INFINITE_VALUE"))
      else if value != ZERO && Less(Abs(value), Finite(MIN_NORMAL)) then
        Failure(Invalid("Number is too small (underflow): " + jdk.valueOf(value), input, "UNDERFLOW"))
      else
        Success(value)
  }

  // ---------------------------------------------------------------------------
  // validateInteger

  /** validateInteger: the trimmed text must match INTEGER_PATTERN, be read by
      Long.parseLong, and lie in the int range. */
  function ValidateInteger(input: Option<string>): (r: Result<Int32, Error>)
    ensures r.Failure? ==> r.error.ValidationException? && r.error.invalidInput == input
    ensures FailsWith(r, "NULL_OR_EMPTY") <==> input.None? || Trim(input.value) == []
    ensures FailsWith(r, "INVALID_INTEGER_FORMAT") <==>
      input.Some? && Trim(input.value) != [] && !Integer(Trim(input.value))
    ensures FailsWith(r, "INTEGER_PARSE_ERROR") <==>
      input.Some? && IsSignedDigits(Trim(input.value)) && !(LONG_MIN <= SignedValue(Trim(input.value)) <= LONG_MAX)
    ensures FailsWith(r, "INTEGER_OVERFLOW") <==>
      input.Some? && IsSignedDigits(Trim(input.value)) && LONG_MIN <= SignedValue(Trim(input.value)) <= LONG_MAX
      && !(INT_MIN <= SignedValue(Trim(input.value)) <= INT_MAX)
    ensures r.Success? <==>
      input.Some? && IsSignedDigits(Trim(input.value)) && INT_MIN <= SignedValue(Trim(input.value)) <= INT_MAX
    ensures r.Success? ==> r.value == SignedValue(Trim(input.value))
  {
    if input.None? || Trim(input.value) == [] then
      Failure(Invalid("Integer input cannot be null or empty", input, "NULL_OR_EMPTY"))
    else
      var t := Trim(input.value);
      IntegerScannerCorrect(t);
      SignedDigitsIsInteger(t);
      if !MatchesInteger(t) then
        Failure(Invalid("Invalid integer format: '" + input.value + "'. Expected format: [+-]?digits",
                        input, "INVALID_INTEGER_FORMAT"))
      else
        CheckParsedInteger(input, t, ParseSigned(t, LONG_MIN, LONG_MAX))
  }

  /** The checks validateInteger makes on the value Long.parseLong returned, None when
      it threw. */
  function CheckParsedInteger(input: Option<string>, t: string, parsed: Option<int>): (r: Result<Int32, Error>)
    requires input.Some?
    ensures r.Failure? ==> r.error.ValidationException? && r.error.invalidInput == input
    ensures r.Failure? ==> (r.error.violatedRule.Some? &&
      r.error.violatedRule.value in {"INTEGER_PARSE_ERROR", "INTEGER_OVERFLOW"})
    ensures FailsWith(r, "INTEGER_PARSE_ERROR") <==> parsed.None?
    ensures FailsWith(r, "INTEGER_OVERFLOW") <==> parsed.Some? && !(INT_MIN <= parsed.value <= INT_MAX)
    ensures r.Success? <==> parsed.Some? && INT_MIN <= parsed.value <= INT_MAX
    ensures r.Success? ==> r.value == parsed.value
  {
    match parsed
    case None =>
      Failure(NewDetailedValidationWithCause("Cannot parse '" + input.value + "' as a valid integer",
                                             input, Some("INTEGER_PARSE_ERROR"),
                                             NumberFormatException("For input string: \"" + t + "\"")))
    case Some(longValue) =>
      if longValue > INT_MAX || longValue < INT_MIN then
        Failure(Invalid("Integer value out of range: " + IntText(longValue) + " (range: "
                        + IntText(INT_MIN) + " to " + IntText(INT_MAX) + ")", input, "INTEGER_OVERFLOW"))
      else
        Success(longValue)
  }

  // ---------------------------------------------------------------------------
  // validateOperation

  /** validateOperation: the trimmed text must be one of the sixteen operation symbols. */
  function ValidateOperation(operation: Option<string>): (o: Outcome<Error>)
    ensures o.Fail? ==> o.error.ValidationException? && o.error.invalidInput == operation
    ensures RejectsWith(o, "NULL_OPERATION") <==> operation.None?
    ensures RejectsWith(o, "EMPTY_OPERATION") <==> operation.Some? && Trim(operation.value) == []
    ensures RejectsWith(o, "INVALID_OPERATION") <==>
      operation.Some? && Trim(operation.value) != [] && Trim(operation.value) !in VALID_OPERATIONS
    ensures o.Pass? <==> operation.Some? && Trim(operation.value) in VALID_OPERATIONS
  {
    if operation.None? then
      Fail(Invalid("Operation cannot be null", operation, "NULL_OPERATION"))
    else
      var t := Trim(operation.value);
      if t == [] then
        Fail(Invalid("Operation cannot be empty", operation, "EMPTY_OPERATION"))
      else if t !in VALID_OPERATIONS then
        Fail(Invalid("Invalid operation: '" + operation.value + "'. Valid operations: " + VALID_OPERATIONS_TEXT,
                     operation, "INVALID_OPERATION"))
      else
        Pass
  }

  // ---------------------------------------------------------------------------
  // Parentheses and adjacent operators

  /** The running parenthesis count after s: one up for '(', one down for ')'. */
  function Depth(s: string): int {
    if s == [] then 0
    else Depth(s[..|s| - 1]) + (if s[|s| - 1] == '(' then 1 else if s[|s| - 1] == ')' then -1 else 0)
  }

  /** The count never drops below zero and ends at zero. */
  predicate Balanced(s: string) {
    (forall k :: 0 <= k <= |s| ==> Depth(s[..k]) >= 0) && Depth(s) == 0
  }

  /** hasBalancedParentheses: counts parentheses left to right and gives up as soon as the
      count goes negative. */
  method HasBalancedParentheses(expression: string) returns (b: bool)
    ensures b == Balanced(expression)
  {
    var count := 0;
    var i := 0;
    while i < |expression|
      invariant 0 <= i <= |expression|
      invariant count == Depth(expression[..i])
      invariant forall k :: 0 <= k <= i ==> Depth(expression[..k]) >= 0
    {
      var c := expression[i];
      assert expression[..i + 1][..i] == expression[..i];
      if c == '(' {
        count := count + 1;
      } else if c == ')' {
        count := count - 1;
        if count < 0 {
          assert Depth(expression[..i + 1]) < 0;
          return false;
        }
      }
      i := i + 1;
    }
    assert expression[..i] == expression;
    return count == 0;
  }

  /** The operator class of the adjacent-operator check: + - * and the slash
      (not the × and ÷ signs). */
  predicate IsPlainOperator(c: char) {
    c == '+' || c == '-' || c == '*' || c == '/'
  }

  predicate OperatorPairAt(s: string, i: int) {
    0 <= i < |s| - 1 && IsPlainOperator(s[i]) && IsPlainOperator(s[i + 1])
  }

  /** hasConsecutiveOperators: some two adjacent characters are both operators. */
  function HasConsecutiveOperators(s: string): (b: bool)
    ensures b <==> exists i :: OperatorPairAt(s, i)
    decreases |s|
  {
    if |s| < 2 then false
    else if IsPlainOperator(s[0]) && IsPlainOperator(s[1]) then
      assert OperatorPairAt(s, 0);
      true
    else
      var rest := HasConsecutiveOperators(s[1..]);
      if rest then
        var i :| OperatorPairAt(s[1..], i);
        assert OperatorPairAt(s, i + 1);
        true
      else
        forall i | OperatorPairAt(s, i) ensures false {
          assert i != 0;
          assert OperatorPairAt(s[1..], i - 1);
        }
        false
  }

  // ---------------------------------------------------------------------------
  // validateExpression

  /** validateExpression: not null, not blank, balanced parentheses, no adjacent operators,
      and the trimmed text matches EXPRESSION_PATTERN, checked in that order. */
  function ValidateExpression(expression: Option<string>): (o: Outcome<Error>)
    ensures o.Fail? ==> o.error.ValidationException? && o.error.invalidInput == expression
    ensures RejectsWith(o, "NULL_EXPRESSION") <==> expression.None?
    ensures RejectsWith(o, "EMPTY_EXPRESSION") <==> expression.Some? && Trim(expression.value) == []
    ensures RejectsWith(o, "UNBALANCED_PARENTHESES") <==>
      expression.Some? && Trim(expression.value) != [] && !Balanced(Trim(expression.value))
    ensures RejectsWith(o, "CONSECUTIVE_OPERATORS") <==>
      expression.Some? && Trim(expression.value) != [] && Balanced(Trim(expression.value))
      && HasConsecutiveOperators(Trim(expression.value))
    ensures RejectsWith(o, "INVALID_EXPRESSION_SYNTAX") <==>
      expression.Some? && Trim(expression.value) != [] && Balanced(Trim(expression.value))
      && !HasConsecutiveOperators(Trim(expression.value)) && !Expression(Trim(expression.value))
    ensures o.Pass? <==>
      expression.Some? && Expression(Trim(expression.value)) && !HasConsecutiveOperators(Trim(expression.value))
  {
    if expression.None? then
      Fail(Invalid("Expression cannot be null", expression, "NULL_EXPRESSION"))
    else
      var t := Trim(expression.value);
      ExpressionScannerCorrect(t);
      ExpressionIsBalanced(t);
      if t == [] then
        Fail(Invalid("Expression cannot be empty", expression, "EMPTY_EXPRESSION"))
      else if !Balanced(t) then
        Fail(Invalid("Unbalanced parentheses in expression: '" + expression.value + "'",
                     expression, "UNBALANCED_PARENTHESES"))
      else if HasConsecutiveOperators(t) then
        Fail(Invalid("Consecutive operators found in expression: '" + expression.value + "'",
                     expression, "CONSECUTIVE_OPERATORS"))
      else if !MatchesExpression(t) then
        Fail(Invalid("Invalid expression syntax: '" + expression.value + "'",
                     expression, "INVALID_EXPRESSION_SYNTAX"))
      else
        Pass
  }

  /** A text without parentheses has depth zero everywhere. */
  lemma {:induction false} NoParensDepth(s: string)
    requires '(' !in s && ')' !in s
    ensures Depth(s) == 0
    decreases |s|
  {
    if s != [] {
      NoParensDepth(s[..|s| - 1]);
    }
  }

  /** An expression has no parentheses, so it is balanced. */
  lemma ExpressionIsBalanced(t: string)
    ensures Expression(t) ==> '(' !in t && ')' !in t && Balanced(t)
  {
    if !Expression(t) {
      return;
    }
    ExpressionChars(t, 0);
    forall k | 0 <= k <= |t|
      ensures Depth(t[..k]) >= 0
    {
      NoParensDepth(t[..k]);
    }
    NoParensDepth(t);
  }

  /** EXPRESSION_PATTERN has no parentheses: an expression holding one is always rejected,
      for unbalanced parentheses or for its syntax unless two operators stand side by side. */
  lemma ParenthesesRejected(s: string, c: char)
    requires c == '(' || c == ')'
    requires c in s
    ensures var o := ValidateExpression(Some(s));
      RejectsWith(o, "UNBALANCED_PARENTHESES") || RejectsWith(o, "CONSECUTIVE_OPERATORS")
      || RejectsWith(o, "INVALID_EXPRESSION_SYNTAX")
    ensures !HasConsecutiveOperators(Trim(s)) ==> var o := ValidateExpression(Some(s));
      RejectsWith(o, "UNBALANCED_PARENTHESES") || RejectsWith(o, "INVALID_EXPRESSION_SYNTAX")
  {
    TrimKeeps(s, c);
    ExpressionIsBalanced(Trim(s));
  }

  /** The operator check only looks at neighbours: a sign after a blank is accepted... */
  lemma SignAfterBlankAccepted()
    ensures ValidateExpression(Some("1 + -2")).Pass?
  {
    var t := "1 + -2";
    TrimInner(t);
    SignAfterBlankMatches();
    assert forall i :: !OperatorPairAt(t, i) by {
      assert t[1] == ' ' && t[3] == ' ' && t[5] == '2';
    }
  }

  lemma SignAfterBlankMatches()
    ensures Expression("1 + -2")
  {
    var t := "1 + -2";
    assert ScanNumber(t, 0, false) == Some(1);
    assert NextOperand(t, 1) == Some(4) by {
      assert SkipSpaces(t, 1) == 2 && SkipSpaces(t, 3) == 4;
    }
    assert ScanNumber(t, 4, false) == Some(6);
    assert ScanExpression(t, 4);
    assert MatchesExpression(t);
    ExpressionScannerCorrect(t);
  }

  /** ...while the same sign right after the operator is not. */
  lemma SignAfterOperatorRejected()
    ensures RejectsWith(ValidateExpression(Some("1+-2")), "CONSECUTIVE_OPERATORS")
  {
    var t := "1+-2";
    TrimInner(t);
    assert OperatorPairAt(t, 1);
    assert '(' !in t && ')' !in t;
    forall k | 0 <= k <= 4 ensures Depth(t[..k]) >= 0 {
      NoParensDepth(t[..k]);
    }
    NoParensDepth(t);
  }

  // ---------------------------------------------------------------------------
  // isValidRange, validateSafeNumber

  /** isValidRange: rejects NaN, then infinities, then min > max, then a number outside
      [min, max]; otherwise true. It never answers false. */
  function IsValidRange(jdk: Jdk, number: Double, min: Double, max: Double): (r: Result<bool, Error>)
    ensures r != Success(false)
    ensures r.Failure? ==> r.error.ValidationException?
    ensures FailsWith(r, "NAN_RANGE_CHECK") <==> number.NaN?
    ensures FailsWith(r, "INFINITE_RANGE_CHECK") <==> IsInfinite(number)
    ensures FailsWith(r, "INVALID_RANGE") <==> number.Finite? && Less(max, min)
    ensures FailsWith(r, "OUT_OF_RANGE") <==> number.Finite? && !Less(max, min) && (Less(number, min) || Less(max, number))
    ensures r.Success? <==> number.Finite? && !Less(max, min) && !Less(number, min) && !Less(max, number)
  {
    if number.NaN? then
      Failure(Invalid("Cannot validate range for NaN value", Some(jdk.valueOf(number)), "NAN_RANGE_CHECK"))
    else if IsInfinite(number) then
      Failure(Invalid("Cannot validate range for infinite value", Some(jdk.valueOf(number)), "INFINITE_RANGE_CHECK"))
    else if Less(max, min) then
      Failure(Invalid("Invalid range: minimum (" + jdk.valueOf(min) + ") is greater than maximum (" + jdk.valueOf(max) + ")",
                      Some("min=" + jdk.fixed(min, 2) + ", max=" + jdk.fixed(max, 2)), "INVALID_RANGE"))
    else if Less(number, min) || Less(max, number) then
      Failure(Invalid("Number " + jdk.fixed(number, 6) + " is outside valid range [" + jdk.fixed(min, 6) + ", "
                      + jdk.fixed(max, 6) + "]", Some(jdk.valueOf(number)), "OUT_OF_RANGE"))
    else
      Success(true)
  }

  /** With finite bounds, isValidRange accepts exactly the finite numbers of [min, max]. */
  lemma RangeInclusive(jdk: Jdk, number: Double, min: real, max: real)
    ensures IsValidRange(jdk, number, Finite(min), Finite(max)).Success? <==>
      number.Finite? && min <= max && min <= number.v <= max
  {
  }

  /** A NaN bound compares false with everything, so it never rejects. */
  lemma NaNBoundsAcceptAll(jdk: Jdk, x: real)
    ensures IsValidRange(jdk, Finite(x), NaN, NaN) == Success(true)
  {
  }

  /** A number safe for calculation: finite, at most 2^53 - 1 in magnitude, and zero or normal. */
  predicate IsSafe(d: Double) {
    d.Finite? && AbsReal(d.v) <= MAX_SAFE_INTEGER && !IsSubnormal(d)
  }

  /** validateSafeNumber: rejects NaN, infinities, magnitudes above 2^53 - 1 and nonzero
      subnormals, in that order. */
  function ValidateSafeNumber(jdk: Jdk, number: Double): (o: Outcome<Error>)
    ensures o.Fail? ==> o.error.ValidationException? && o.error.invalidInput == Some(jdk.valueOf(number))
    ensures o.Fail? ==> (o.error.violatedRule.Some? && o.error.violatedRule.value in
      {"NAN_UNSAFE", "INFINITE_UNSAFE", "UNSAFE_LARGE_NUMBER", "UNSAFE_SMALL_NUMBER"})
    ensures RejectsWith(o, "NAN_UNSAFE") <==> number.NaN?
    ensures RejectsWith(o, "INFINITE_UNSAFE") <==> IsInfinite(number)
    ensures RejectsWith(o, "UNSAFE_LARGE_NUMBER") <==> number.Finite? && AbsReal(number.v) > MAX_SAFE_INTEGER
    ensures RejectsWith(o, "UNSAFE_SMALL_NUMBER") <==> IsSubnormal(number)
    ensures o.Pass? <==> IsSafe(number)
  {
    var input := Some(jdk.valueOf(number));
    if number.NaN? then
      Fail(Invalid("Number is NaN (Not a Number)", input, "NAN_UNSAFE"))
    else if IsInfinite(number) then
      Fail(Invalid("Number is infinite", input, "INFINITE_UNSAFE"))
    else if Less(Finite(MAX_SAFE_INTEGER), Abs(number)) then
      Fail(Invalid("Number is too large for safe calculations: " + jdk.valueOf(number) + " (max safe: "
                   + jdk.valueOf(Finite(MAX_SAFE_INTEGER)) + ")", input, "UNSAFE_LARGE_NUMBER"))
    else if number != ZERO && Less(Abs(number), Finite(MIN_NORMAL)) then
      Fail(Invalid("Number is too small for reliable calculations: " + jdk.valueOf(number), input, "UNSAFE_SMALL_NUMBER"))
    else
      Pass
  }

  // ---------------------------------------------------------------------------
  // validateScientificNotation

  /** validateScientificNotation: the trimmed text must match SCIENTIFIC_NOTATION_PATTERN,
      parse, and be safe for calculation. */
  function ValidateScientificNotation(jdk: Jdk, input: Option<string>): (r: Result<Double, Error>)
    ensures r.Failure? ==> r.error.ValidationException?
    ensures FailsWith(r, "NULL_OR_EMPTY_SCIENTIFIC") <==> input.None? || Trim(input.value) == []
    ensures FailsWith(r, "INVALID_SCIENTIFIC_FORMAT") <==>
      input.Some? && Trim(input.value) != [] && !Scientific(Trim(input.value))
    ensures input.Some? && Scientific(Trim(input.value)) ==>
      match jdk.parseDouble(Trim(input.value))
      case Failure(m) => FailsWith(r, "SCIENTIFIC_PARSE_ERROR") && r.error.cause == Some(NumberFormatException(m))
      case Success(d) => r == (match ValidateSafeNumber(jdk, d) case Pass => Success(d) case Fail(e) => Failure(e))
    ensures r.Success? <==>
      && input.Some? && Scientific(Trim(input.value))
      && jdk.parseDouble(Trim(input.value)).Success?
      && IsSafe(jdk.parseDouble(Trim(input.value)).value)
  {
    if input.None? || Trim(input.value) == [] then
      Failure(Invalid("Scientific notation input cannot be null or empty", input, "NULL_OR_EMPTY_SCIENTIFIC"))
    else
      var t := Trim(input.value);
      ScientificScannerCorrect(t);
      if !MatchesScientific(t) then
        Failure(Invalid("Invalid scientific notation format: '" + input.value
                        + "'. Expected format: [+-]?digits[.digits]e[+-]digits", input, "INVALID_SCIENTIFIC_FORMAT"))
      else
        CheckParsedScientific(jdk, input, jdk.parseDouble(t))
  }

  /** The checks validateScientificNotation makes on the value Double.parseDouble returned. */
  function CheckParsedScientific(jdk: Jdk, input: Option<string>, parsed: Result<Double, string>): (r: Result<Double, Error>)
    requires input.Some?
    ensures r.Failure? ==> r.error.ValidationException? && r.error.violatedRule.Some?
    ensures r.Failure? ==> (r.error.violatedRule.value in
      {"SCIENTIFIC_PARSE_ERROR", "NAN_UNSAFE", "INFINITE_UNSAFE", "UNSAFE_LARGE_NUMBER", "UNSAFE_SMALL_NUMBER"})
    ensures match parsed
      case Failure(m) => FailsWith(r, "SCIENTIFIC_PARSE_ERROR") && r.error.cause == Some(NumberFormatException(m))
      case Success(d) => r == (match ValidateSafeNumber(jdk, d) case Pass => Success(d) case Fail(e) => Failure(e))
    ensures r.Success? <==> parsed.Success? && IsSafe(parsed.value)
  {
    match parsed
    case Failure(m) =>
      Failure(NewDetailedValidationWithCause("Cannot parse scientific notation: '" + input.value + "'",
                                             input, Some("SCIENTIFIC_PARSE_ERROR"), NumberFormatException(m)))
    case Success(value) =>
      match ValidateSafeNumber(jdk, value)
      case Fail(e) => Failure(e)
      case Pass => Success(value)
  }

  // ---------------------------------------------------------------------------
  // validateWithConfig, validateStrictMode

  /** 1e-10 and 1e10, the strict-mode bounds. */
  const STRICT_SMALL: real := 0.0000000001
  const STRICT_LARGE: real := 10000000000.0

  /** validateStrictMode: rejects a number whose Double.toString text is longer than 15
      characters, then a nonzero magnitude below 1e-10, then a magnitude above 1e10. */
  function ValidateStrictMode(jdk: Jdk, input: string, number: Double): (o: Outcome<Error>)
    ensures o.Fail? ==> o.error.ValidationException? && o.error.invalidInput == Some(input)
    ensures RejectsWith(o, "EXCESSIVE_PRECISION") <==> |jdk.valueOf(number)| > 15
    ensures RejectsWith(o, "STRICT_MODE_TOO_SMALL") <==>
      |jdk.valueOf(number)| <= 15 && number != ZERO && Less(Abs(number), Finite(STRICT_SMALL))
    ensures RejectsWith(o, "STRICT_MODE_TOO_LARGE") <==>
      |jdk.valueOf(number)| <= 15 && !(number != ZERO && Less(Abs(number), Finite(STRICT_SMALL)))
      && Less(Finite(STRICT_LARGE), Abs(number))
    ensures o.Fail? ==> (o.error.violatedRule.Some? && o.error.violatedRule.value in
      {"EXCESSIVE_PRECISION", "STRICT_MODE_TOO_SMALL", "STRICT_MODE_TOO_LARGE"})
    ensures o.Pass? <==>
      |jdk.valueOf(number)| <= 15 && !(number != ZERO && Less(Abs(number), Finite(STRICT_SMALL)))
      && !Less(Finite(STRICT_LARGE), Abs(number))
    ensures o.Pass? && number.Finite? ==>
      |jdk.valueOf(number)| <= 15 && AbsReal(number.v) <= STRICT_LARGE && (number.v == 0.0 || AbsReal(number.v) >= STRICT_SMALL)
  {
    var text := jdk.valueOf(number);
    if |text| > 15 then
      Fail(Invalid("Number has excessive precision in strict mode: '" + input + "'", Some(input), "EXCESSIVE_PRECISION"))
    else if number != ZERO && Less(Abs(number), Finite(STRICT_SMALL)) then
      Fail(Invalid("Number is too small for strict mode: " + text, Some(input), "STRICT_MODE_TOO_SMALL"))
    else if Less(Finite(STRICT_LARGE), Abs(number)) then
      Fail(Invalid("Number is too large for strict mode: " + text, Some(input), "STRICT_MODE_TOO_LARGE"))
    else
      Pass
  }

  /** getMinNumberValue() on the configuration's property table. */
  function ConfiguredMin(jdk: Jdk, properties: Config.Properties): Double {
    Config.GetDoubleProperty(jdk, properties, "validation.min.number.value", Finite(-1000000000000000.0))
  }

  /** getMaxNumberValue() on the configuration's property table. */
  function ConfiguredMax(jdk: Jdk, properties: Config.Properties): Double {
    Config.GetDoubleProperty(jdk, properties, "validation.max.number.value", Finite(1000000000000000.0))
  }

  /** validateWithConfig, reading the settings from the configuration's property table:
      nothing is checked when validation is disabled; otherwise validateNumber, then the
      configured range, then strict mode when it is enabled. */
  function ValidateWithConfig(jdk: Jdk, input: Option<string>, properties: Config.Properties): (o: Outcome<Error>)
    ensures !Config.GetBooleanProperty(properties, "validation.enabled", true) ==> o.Pass?
    ensures Config.GetBooleanProperty(properties, "validation.enabled", true) && ValidateNumber(jdk, input).Failure? ==>
      o == Fail(ValidateNumber(jdk, input).error)
    ensures Config.GetBooleanProperty(properties, "validation.enabled", true) && ValidateNumber(jdk, input).Success? ==>
      var number := ValidateNumber(jdk, input).value;
      var range := IsValidRange(jdk, number, ConfiguredMin(jdk, properties), ConfiguredMax(jdk, properties));
      && (range.Failure? ==> o == Fail(range.error))
      && (range.Success? && Config.GetBooleanProperty(properties, "validation.strict.mode", false) ==>
            o == ValidateStrictMode(jdk, input.value, number))
      && (range.Success? && !Config.GetBooleanProperty(properties, "validation.strict.mode", false) ==> o.Pass?)
    ensures Config.GetBooleanProperty(properties, "validation.enabled", true) ==>
      (o.Pass? <==>
        && ValidateNumber(jdk, input).Success?
        && IsValidRange(jdk, ValidateNumber(jdk, input).value, ConfiguredMin(jdk, properties), ConfiguredMax(jdk, properties)).Success?
        && (Config.GetBooleanProperty(properties, "validation.strict.mode", false) ==>
              ValidateStrictMode(jdk, input.value, ValidateNumber(jdk, input).value).Pass?))
  {
    if !Config.GetBooleanProperty(properties, "validation.enabled", true) then
      Pass
    else
      match ValidateNumber(jdk, input)
      case Failure(e) => Fail(e)
      case Success(number) =>
        var minValue := ConfiguredMin(jdk, properties);
        var maxValue := ConfiguredMax(jdk, properties);
        match IsValidRange(jdk, number, minValue, maxValue)
        case Failure(e) => Fail(e)
        case Success(_) =>
          if Config.GetBooleanProperty(properties, "validation.strict.mode", false) then
            ValidateStrictMode(jdk, input.value, number)
          else
            Pass
  }

  /** Turning strict mode on only adds checks: whatever passes with it passes without it. */
  lemma StrictModeNarrows(jdk: Jdk, input: Option<string>, properties: Config.Properties)
    ensures ValidateWithConfig(jdk, input, properties["validation.strict.mode" := "true"]).Pass? ==>
            ValidateWithConfig(jdk, input, properties["validation.strict.mode" := "false"]).Pass?
  {
    var on := properties["validation.strict.mode" := "true"];
    var off := properties["validation.strict.mode" := "false"];
    assert ConfiguredMin(jdk, on) == ConfiguredMin(jdk, off);
    assert ConfiguredMax(jdk, on) == ConfiguredMax(jdk, off);
    assert Config.GetBooleanProperty(on, "validation.enabled", true) == Config.GetBooleanProperty(off, "validation.enabled", true);
    TrimInner("false");
    assert !Config.GetBooleanProperty(off, "validation.strict.mode", false);
  }

  /** With the default settings validation is on: a text that is not a number is rejected. */
  lemma DefaultConfigValidates(jdk: Jdk)
    ensures RejectsWith(ValidateWithConfig(jdk, Some("invalid"), Config.DEFAULTS), "INVALID_NUMBER_FORMAT")
  {
    assert FailsWith(ValidateNumber(jdk, Some("invalid")), "INVALID_NUMBER_FORMAT") by {
      TrimInner("invalid");
      assert SkipDigits("invalid", 0) == 0;
      assert !MatchesNumber("invalid");
      NumberScannerCorrect("invalid");
    }
    Config.DefaultSwitches();
  }

  // ---------------------------------------------------------------------------
  // Operation preconditions

  /** validateDivision: both operands safe, a nonzero divisor, and a quotient whose
      magnitude |dividend| / |divisor| does not exceed Double.MAX_VALUE. */
  function ValidateDivision(jdk: Jdk, dividend: Double, divisor: Double): (o: Outcome<Error>)
    ensures o.Fail? ==> o.error.ValidationException?
    ensures !IsSafe(dividend) ==> o == ValidateSafeNumber(jdk, dividend)
    ensures IsSafe(dividend) && !IsSafe(divisor) ==> o == ValidateSafeNumber(jdk, divisor)
    ensures RejectsWith(o, "DIVISION_BY_ZERO") <==> IsSafe(dividend) && divisor == ZERO
    ensures RejectsWith(o, "DIVISION_OVERFLOW") <==>
      IsSafe(dividend) && IsSafe(divisor) && divisor != ZERO && AbsReal(dividend.v) > MAX_VALUE * AbsReal(divisor.v)
    ensures o.Pass? <==>
      IsSafe(dividend) && IsSafe(divisor) && divisor != ZERO && AbsReal(dividend.v) <= MAX_VALUE * AbsReal(divisor.v)
  {
    match ValidateSafeNumber(jdk, dividend)
    case Fail(e) => Fail(e)
    case Pass =>
      match ValidateSafeNumber(jdk, divisor)
      case Fail(e) => Fail(e)
      case Pass =>
        if divisor == ZERO then
          Fail(Invalid("Division by zero: " + jdk.valueOf(dividend) + " \U{00F7} 0", Some(jdk.valueOf(divisor)), "DIVISION_BY_ZERO"))
        else if AbsReal(dividend.v) > MAX_VALUE * AbsReal(divisor.v) then
          Fail(Invalid("Division would cause overflow: " + jdk.valueOf(dividend) + " \U{00F7} " + jdk.valueOf(divisor),
                       Some(jdk.valueOf(dividend) + "/" + jdk.valueOf(divisor)), "DIVISION_OVERFLOW"))
        else
          Pass
  }

  /** A divisor of magnitude at least 1 never overflows a safe dividend... */
  lemma NoOverflowFromLargeDivisor(jdk: Jdk, a: real, b: real)
    requires IsSafe(Finite(a)) && IsSafe(Finite(b)) && AbsReal(b) >= 1.0
    ensures ValidateDivision(jdk, Finite(a), Finite(b)).Pass?
  {
  }

  /** ...but the overflow check is reachable: the largest safe integer divided by the
      smallest normal double. */
  lemma OverflowReachable(jdk: Jdk)
    ensures RejectsWith(ValidateDivision(jdk, Finite(MAX_SAFE_INTEGER), Finite(MIN_NORMAL)), "DIVISION_OVERFLOW")
  {
    assert MAX_VALUE * MIN_NORMAL < 4.0;
  }

  /** validateFactorial: 0 to 170 inclusive. */
  function ValidateFactorial(n: Int32): (o: Outcome<Error>)
    ensures o.Fail? ==> o.error.ValidationException? && o.error.invalidInput == Some(IntText(n))
    ensures RejectsWith(o, "NEGATIVE_FACTORIAL") <==> n < 0
    ensures RejectsWith(o, "FACTORIAL_OVERFLOW") <==> n > 170
    ensures o.Pass? <==> 0 <= n <= 170
  {
    if n < 0 then
      Fail(Invalid("Factorial is not defined for negative numbers: " + IntText(n), Some(IntText(n)), "NEGATIVE_FACTORIAL"))
    else if n > 170 then
      Fail(Invalid("Factorial would cause overflow for number: " + IntText(n) + " (maximum: 170)", Some(IntText(n)),
                   "FACTORIAL_OVERFLOW"))
    else
      Pass
  }

  /** validateSquareRoot: a safe, non-negative number. */
  function ValidateSquareRoot(jdk: Jdk, number: Double): (o: Outcome<Error>)
    ensures o.Fail? ==> o.error.ValidationException? && o.error.invalidInput == Some(jdk.valueOf(number))
    ensures !IsSafe(number) ==> o == ValidateSafeNumber(jdk, number)
    ensures RejectsWith(o, "NEGATIVE_SQUARE_ROOT") <==> IsSafe(number) && number.v < 0.0
    ensures o.Pass? <==> IsSafe(number) && number.v >= 0.0
  {
    match ValidateSafeNumber(jdk, number)
    case Fail(e) => Fail(e)
    case Pass =>
      if Less(number, ZERO) then
        Fail(Invalid("Square root is not defined for negative numbers in real domain: " + jdk.valueOf(number),
                     Some(jdk.valueOf(number)), "NEGATIVE_SQUARE_ROOT"))
      else
        Pass
  }

  /** validateLogarithm: a safe, positive number. */
  function ValidateLogarithm(jdk: Jdk, number: Double): (o: Outcome<Error>)
    ensures o.Fail? ==> o.error.ValidationException? && o.error.invalidInput == Some(jdk.valueOf(number))
    ensures !IsSafe(number) ==> o == ValidateSafeNumber(jdk, number)
    ensures RejectsWith(o, "NON_POSITIVE_LOGARITHM") <==> IsSafe(number) && number.v <= 0.0
    ensures o.Pass? <==> IsSafe(number) && number.v > 0.0
  {
    match ValidateSafeNumber(jdk, number)
    case Fail(e) => Fail(e)
    case Pass =>
      if LessEq(number, ZERO) then
        Fail(Invalid("Logarithm is not defined for non-positive numbers: " + jdk.valueOf(number),
                     Some(jdk.valueOf(number)), "NON_POSITIVE_LOGARITHM"))
      else
        Pass
  }

  // ---------------------------------------------------------------------------
  // Examples and consequences of the number and integer checks

  /** Texts NUMBER_PATTERN accepts: digits, a bare fraction, an exponent, a trailing point. */
  lemma NumberGrammarAccepts()
    ensures Number("123") && Number(".5") && Number("1.5E-10") && Number("5.")
  {
    NumberAcceptsPlain();
    NumberAcceptsExponent();
  }

  lemma NumberAcceptsPlain()
    ensures Number("123") && Number(".5") && Number("5.")
  {
    assert ScanNumber("123", 0, false) == Some(3);
    assert ScanNumber(".5", 0, false) == Some(2);
    assert ScanNumber("5.", 0, false) == Some(2);
    NumberScannerCorrect("123");
    NumberScannerCorrect(".5");
    NumberScannerCorrect("5.");
  }

  lemma NumberAcceptsExponent()
    ensures Number("1.5E-10")
  {
    assert ScanMantissa("1.5E-10", 0) == Some(3);
    assert ScanExponent("1.5E-10", 3) == Some(7);
    assert ScanNumber("1.5E-10", 0, false) == Some(7);
    NumberScannerCorrect("1.5E-10");
  }

  /** Texts it rejects: two points, no mantissa, a name. */
  lemma NumberGrammarRejectsShape()
    ensures !Number("12.34.56") && !Number("e10") && !Number("NaN")
  {
    TwoPointsRejected();
    assert ScanNumber("e10", 0, false) == None;
    assert ScanNumber("NaN", 0, false) == None;
    NumberScannerCorrect("e10");
    NumberScannerCorrect("NaN");
  }

  lemma TwoPointsRejected()
    ensures !Number("12.34.56")
  {
    assert ScanMantissa("12.34.56", 0) == Some(5);
    assert ScanNumber("12.34.56", 0, false) == Some(5);
    NumberScannerCorrect("12.34.56");
  }

  /** ... an exponent without digits, two signs. */
  lemma NumberGrammarRejectsSigns()
    ensures !Number("1e") && !Number("1e+") && !Number("++123")
  {
    assert !MatchesNumber("1e") && !MatchesNumber("1e+") && !MatchesNumber("++123");
    NumberScannerCorrect("1e");
    NumberScannerCorrect("1e+");
    NumberScannerCorrect("++123");
  }

  /** The smallest subnormal is rejected as an underflow, however it is read. */
  lemma SubnormalInputRejected(jdk: Jdk, x: real)
    requires jdk.parseDouble("4.9e-324") == Success(Finite(x)) && 0.0 < x < MIN_NORMAL
    ensures FailsWith(ValidateNumber(jdk, Some("4.9e-324")), "UNDERFLOW")
  {
    SubnormalTextIsNumber();
    assert IsSubnormal(Finite(x));
  }

  lemma SubnormalTextIsNumber()
    ensures Trim("4.9e-324") == "4.9e-324" && Number("4.9e-324")
  {
    TrimInner("4.9e-324");
    assert ScanMantissa("4.9e-324", 0) == Some(3);
    assert ScanExponent("4.9e-324", 3) == Some(8);
    assert ScanNumber("4.9e-324", 0, false) == Some(8);
    NumberScannerCorrect("4.9e-324");
  }

  /** The text of an int in range reads back as that int. */
  lemma IntegerRoundTrip(k: Int32)
    ensures ValidateInteger(Some(IntText(k))) == Success(k)
  {
    IntTextShape(k);
  }

  /** A value beyond the int range but within the long range is an overflow, on either side. */
  lemma IntegerOverflow(n: int)
    requires LONG_MIN <= n <= LONG_MAX && (n < INT_MIN || n > INT_MAX)
    ensures FailsWith(ValidateInteger(Some(IntText(n))), "INTEGER_OVERFLOW")
  {
    IntTextShape(n);
  }

  /** A value beyond the long range cannot even be read. */
  lemma IntegerParseError(n: int)
    requires n < LONG_MIN || n > LONG_MAX
    ensures FailsWith(ValidateInteger(Some(IntText(n))), "INTEGER_PARSE_ERROR")
  {
    IntTextShape(n);
  }

  lemma IntTextShape(n: int)
    ensures Trim(IntText(n)) == IntText(n)
    ensures IsSignedDigits(IntText(n)) && SignedValue(IntText(n)) == n
  {
    ParseIntText(n, n, n);
    var s := IntText(n);
    assert IsDigit(s[|s| - 1]);
    TrimInner(s);
  }

  // ---------------------------------------------------------------------------
  // sanitizeInput

  /** A character the last step of sanitizeInput keeps: a digit, one of + - * / ( ) . e E,
      or a \s character. */
  predicate IsKept(c: char) {
    IsDigit(c) || c in "+-*/().eE" || IsRegexSpace(c)
  }

  /** String.replace(from, to) for one-character strings. */
  function ReplaceChar(s: string, from: char, to: char): (r: string)
    ensures |r| == |s|
    ensures forall k :: 0 <= k < |s| ==> r[k] == if s[k] == from then to else s[k]
  {
    if s == [] then [] else [if s[0] == from then to else s[0]] + ReplaceChar(s[1..], from, to)
  }

  /** replaceAll("\\s+", " "): every maximal run of \s characters becomes one space. */
  function CollapseSpaces(s: string): (r: string)
    ensures forall c :: c in r ==> c in s || c == ' '
    ensures forall c :: c in s && !IsRegexSpace(c) ==> c in r
    ensures forall c :: c in r && IsRegexSpace(c) ==> c == ' '
    ensures forall k :: 0 <= k < |r| - 1 ==> !(r[k] == ' ' && r[k + 1] == ' ')
    ensures |r| > 0 <==> |s| > 0
    ensures |s| > 0 ==> (r[0] == ' ' <==> IsRegexSpace(s[0]))
    ensures DigitsOf(r) == DigitsOf(s)
    ensures NonBlanks(r) == NonBlanks(s)
    decreases |s|
  {
    if s == [] then []
    else if IsRegexSpace(s[0]) then
      var j := SkipSpaces(s, 0);
      var rest := CollapseSpaces(s[j..]);
      BlankRunFacts(s, j);
      ConsProjections(' ', rest);
      [' '] + rest
    else
      var rest := CollapseSpaces(s[1..]);
      HeadFacts(s);
      ConsProjections(s[0], rest);
      [s[0]] + rest
  }

  /** The reference for replaceAll("\\s+", " "), read character by character: a \s
      character that starts a run (at the front, or after a character that is not \s)
      becomes one space, a \s character inside a run is dropped, and every other
      character is kept. afterBlank says whether the character before s was \s. */
  function RunHeads(s: string, afterBlank: bool): string {
    if s == [] then []
    else if IsRegexSpace(s[0]) then (if afterBlank then [] else [' ']) + RunHeads(s[1..], true)
    else [s[0]] + RunHeads(s[1..], false)
  }

  /** The collapse replaces each maximal run of \s characters by exactly one space, in
      its place, and keeps everything else. */
  lemma {:induction false} CollapseSpacesRunHeads(s: string)
    ensures CollapseSpaces(s) == RunHeads(s, false)
    decreases |s|
  {
    if s != [] {
      if IsRegexSpace(s[0]) {
        var j := SkipSpaces(s, 0);
        CollapseSpacesRunHeads(s[j..]);
        InsideRun(s[1..], j - 1);
        assert s[1..][j - 1..] == s[j..];
      } else {
        CollapseSpacesRunHeads(s[1..]);
      }
    }
  }

  /** Inside a run the blanks up to its end are dropped, and what follows is read as
      after a character that is not \s. */
  lemma {:induction false} InsideRun(t: string, n: nat)
    requires n <= |t| && SpacesIn(t, 0, n) && (n < |t| ==> !IsRegexSpace(t[n]))
    ensures RunHeads(t, true) == RunHeads(t[n..], false)
    decreases n
  {
    if n > 0 {
      assert SpacesIn(t[1..], 0, n - 1);
      InsideRun(t[1..], n - 1);
      assert t[1..][n - 1..] == t[n..];
    }
  }

  /** What skipping a leading run of blanks keeps of s. */
  lemma BlankRunFacts(s: string, j: nat)
    requires j <= |s| && SpacesIn(s, 0, j) && (j < |s| ==> !IsRegexSpace(s[j]))
    ensures forall c :: c in s[j..] ==> c in s
    ensures forall c :: c in s && !IsRegexSpace(c) ==> c in s[j..]
    ensures DigitsOf(s) == DigitsOf(s[j..])
    ensures NonBlanks(s) == NonBlanks(s[j..])
  {
    BlankRunProject(s, j, IsDigit);
    BlankRunProject(s, j, IsNonBlank);
    forall c | c in s[j..] ensures c in s {
      var k :| 0 <= k < |s| - j && s[j..][k] == c;
      assert s[j + k] == c;
    }
    forall c | c in s && !IsRegexSpace(c) ensures c in s[j..] {
      var k :| 0 <= k < |s| && s[k] == c;
      assert s[j..][k - j] == c;
    }
  }

  lemma BlankRunProject(s: string, j: nat, keep: char -> bool)
    requires j <= |s| && SpacesIn(s, 0, j)
    requires forall c :: IsRegexSpace(c) ==> !keep(c)
    ensures Project(s, keep) == Project(s[j..], keep)
  {
    assert s == s[..j] + s[j..];
    assert forall k :: 0 <= k < j ==> IsRegexSpace(s[..j][k]);
    ProjectNone(s[..j], keep);
    ProjectConcat(s[..j], s[j..], keep);
  }

  /** What splitting off the first character keeps of s. */
  lemma HeadFacts(s: string)
    requires s != []
    ensures forall c :: c in s <==> c == s[0] || c in s[1..]
    ensures DigitsOf(s) == DigitsOf([s[0]]) + DigitsOf(s[1..])
  {
    assert s == [s[0]] + s[1..];
    ProjectConcat([s[0]], s[1..], IsDigit);
  }

  /** replaceAll of the negated class: drops every character that is not kept. */
  function RemoveDisallowed(s: string): (r: string)
    ensures forall c :: c in r <==> c in s && IsKept(c)
    ensures |s| == 1 ==> r == if IsKept(s[0]) then s else []
    ensures DigitsOf(r) == DigitsOf(s)
  {
    if s == [] then []
    else
      var rest := RemoveDisallowed(s[1..]);
      HeadFacts(s);
      if IsKept(s[0]) then [s[0]] + rest else rest
  }

  /** The value sanitizeInput returns. */
  function Sanitized(input: Option<string>): string {
    if input.None? then ""
    else
      var s := Trim(input.value);
      var s := ReplaceChar(ReplaceChar(ReplaceChar(s, '\U{00D7}', '*'), '\U{00F7}', '/'), '\U{2212}', '-');
      RemoveDisallowed(CollapseSpaces(s))
  }

  /** sanitizeInput: trims, replaces the ×, ÷ and minus signs by their ASCII forms, collapses
      runs of blanks, and drops every character that cannot occur in an expression. */
  method SanitizeInput(input: Option<string>) returns (sanitized: string)
    ensures sanitized == Sanitized(input)
    ensures input.None? ==> sanitized == ""
    ensures forall c :: c in sanitized ==> IsDigit(c) || c in "+-*/().eE" || c == ' '
  {
    if input.None? {
      return "";
    }
    sanitized := Trim(input.value);
    sanitized := ReplaceChar(sanitized, '\U{00D7}', '*');
    sanitized := ReplaceChar(sanitized, '\U{00F7}', '/');
    sanitized := ReplaceChar(sanitized, '\U{2212}', '-');
    sanitized := CollapseSpaces(sanitized);
    sanitized := RemoveDisallowed(sanitized);
  }

  /** Removing whole pieces: filtering a concatenation filters each part. */
  lemma RemoveDisallowedConcat(a: string, b: string)
    ensures RemoveDisallowed(a + b) == RemoveDisallowed(a) + RemoveDisallowed(b)
  {
    RemoveDisallowedIsProject(a + b);
    RemoveDisallowedIsProject(a);
    RemoveDisallowedIsProject(b);
    ProjectConcat(a, b, IsKept);
  }

  /** The filter keeps exactly the characters IsKept accepts, in order. */
  lemma {:induction false} RemoveDisallowedIsProject(s: string)
    ensures RemoveDisallowed(s) == Project(s, IsKept)
    decreases |s|
  {
    if s != [] {
      RemoveDisallowedIsProject(s[1..]);
    }
  }

  /** The characters of s that keep accepts, in their order. */
  function Project(s: string, keep: char -> bool): string {
    if s == [] then [] else (if keep(s[0]) then [s[0]] else []) + Project(s[1..], keep)
  }

  /** The digits of s, in order. */
  function DigitsOf(s: string): string {
    Project(s, IsDigit)
  }

  predicate IsNonBlank(c: char) {
    !IsRegexSpace(c)
  }

  /** The characters of s other than \s characters, in order. */
  function NonBlanks(s: string): string {
    Project(s, IsNonBlank)
  }

  lemma ConsProjections(c: char, t: string)
    ensures DigitsOf([c] + t) == (if IsDigit(c) then [c] else []) + DigitsOf(t)
    ensures NonBlanks([c] + t) == (if IsNonBlank(c) then [c] else []) + NonBlanks(t)
  {
    assert ([c] + t)[1..] == t;
  }

  lemma {:induction false} ProjectConcat(a: string, b: string, keep: char -> bool)
    ensures Project(a + b, keep) == Project(a, keep) + Project(b, keep)
    decreases |a|
  {
    if a == [] {
      assert a + b == b;
    } else {
      var head: string := if keep(a[0]) then [a[0]] else [];
      assert (a + b)[0] == a[0];
      assert (a + b)[1..] == a[1..] + b;
      ProjectConcat(a[1..], b, keep);
      assert Project(a + b, keep) == head + (Project(a[1..], keep) + Project(b, keep));
      assert Project(a, keep) == head + Project(a[1..], keep);
    }
  }

  lemma {:induction false} ProjectNone(s: string, keep: char -> bool)
    requires forall k :: 0 <= k < |s| ==> !keep(s[k])
    ensures Project(s, keep) == []
    decreases |s|
  {
    if s != [] {
      ProjectNone(s[1..], keep);
    }
  }

  lemma SpacesHaveNoDigits(s: string)
    requires forall k :: 0 <= k < |s| ==> IsRegexSpace(s[k]) || IsTrimmable(s[k])
    ensures DigitsOf(s) == []
  {
    ProjectNone(s, IsDigit);
  }

  lemma {:induction false} ReplaceKeepsDigits(s: string, from: char, to: char)
    requires !IsDigit(from) && !IsDigit(to)
    ensures DigitsOf(ReplaceChar(s, from, to)) == DigitsOf(s)
    decreases |s|
  {
    if s != [] {
      var r := ReplaceChar(s, from, to);
      assert r[1..] == ReplaceChar(s[1..], from, to);
      ReplaceKeepsDigits(s[1..], from, to);
    }
  }

  lemma TrimKeepsDigits(s: string)
    ensures DigitsOf(Trim(s)) == DigitsOf(s)
  {
    var r := Trim(s);
    var i :| TrimmedAt(s, r, i);
    assert s == s[..i] + r + s[i + |r|..];
    SpacesHaveNoDigits(s[..i]);
    SpacesHaveNoDigits(s[i + |r|..]);
    ProjectConcat(s[..i] + r, s[i + |r|..], IsDigit);
    ProjectConcat(s[..i], r, IsDigit);
  }

  /** Sanitizing never loses, adds or reorders a digit. */
  lemma SanitizeKeepsDigits(s: string)
    ensures DigitsOf(Sanitized(Some(s))) == DigitsOf(s)
  {
    var t := Trim(s);
    TrimKeepsDigits(s);
    var r1 := ReplaceChar(t, '\U{00D7}', '*');
    ReplaceKeepsDigits(t, '\U{00D7}', '*');
    var r2 := ReplaceChar(r1, '\U{00F7}', '/');
    ReplaceKeepsDigits(r1, '\U{00F7}', '/');
    ReplaceKeepsDigits(r2, '\U{2212}', '-');
  }

  /** Replacing a character that does not occur changes nothing. */
  lemma ReplaceAbsent(s: string, from: char, to: char)
    requires from !in s
    ensures ReplaceChar(s, from, to) == s
  {
  }

  /** On trimmed text without the alternative signs, sanitizing is collapsing then filtering. */
  lemma SanitizedPlain(s: string)
    requires Trim(s) == s
    requires '\U{00D7}' !in s && '\U{00F7}' !in s && '\U{2212}' !in s
    ensures Sanitized(Some(s)) == RemoveDisallowed(CollapseSpaces(s))
  {
    ReplaceAbsent(s, '\U{00D7}', '*');
    ReplaceAbsent(s, '\U{00F7}', '/');
    ReplaceAbsent(s, '\U{2212}', '-');
  }

  /** Sanitizing is not idempotent: dropping a letter can leave a leading blank
      that a second pass trims. */
  lemma SanitizeNotIdempotent()
    ensures Sanitized(Some("a 1")) == " 1"
    ensures Sanitized(Some(" 1")) == "1"
  {
    TrimInner("a 1");
    SanitizedPlain("a 1");
    CollapseLetterBlankOne();
    RemoveLetterBlankOne();
    TrimOneBlank();
    SanitizedPlain("1");
    assert CollapseSpaces("1") == "1";
    assert RemoveDisallowed("1") == "1";
  }

  lemma CollapseLetterBlankOne()
    ensures CollapseSpaces("a 1") == "a 1"
  {
    var s := "a 1";
    assert s[1..] == " 1";
    assert SkipSpaces(" 1", 0) == 1;
    assert " 1"[1..] == "1";
    assert CollapseSpaces("1") == "1";
    assert CollapseSpaces(" 1") == " 1";
  }

  lemma RemoveLetterBlankOne()
    ensures RemoveDisallowed("a 1") == " 1"
  {
    assert "a 1"[1..] == " 1";
    assert " 1"[1..] == "1";
    assert RemoveDisallowed("1") == "1";
    assert RemoveDisallowed(" 1") == " 1";
  }

  lemma TrimOneBlank()
    ensures Trim(" 1") == "1"
  {
    assert LeadingTrimmable(" 1") == 1;
    assert " 1"[1..] == "1";
  }

  /** Every character sanitizeInput is meant to keep, other than a blank, survives it. */
  lemma SanitizeKeepsChar(s: string, c: char)
    requires c in s && IsKept(c) && !IsRegexSpace(c) && !IsTrimmable(c)
    ensures c in Sanitized(Some(s))
  {
    TrimKeeps(s, c);
    var t := Trim(s);
    ReplaceKeeps(t, '\U{00D7}', '*', c);
    var r1 := ReplaceChar(t, '\U{00D7}', '*');
    ReplaceKeeps(r1, '\U{00F7}', '/', c);
    var r2 := ReplaceChar(r1, '\U{00F7}', '/');
    ReplaceKeeps(r2, '\U{2212}', '-', c);
  }

  lemma ReplaceKeeps(s: string, from: char, to: char, c: char)
    requires c in s && c != from
    ensures c in ReplaceChar(s, from, to)
  {
    var k :| 0 <= k < |s| && s[k] == c;
    assert ReplaceChar(s, from, to)[k] == c;
  }

  /** The letter e of a word survives sanitizing, since it may mark an exponent. */
  lemma SanitizeKeepsLetterE()
    ensures 'e' in Sanitized(Some("123abc + 456def"))
  {
    assert "123abc + 456def"[13] == 'e';
    SanitizeKeepsChar("123abc + 456def", 'e');
  }

  /** The three alternative signs become their ASCII forms. */
  lemma SanitizeReplacesSigns()
    ensures Sanitized(Some("2\U{00D7}3\U{00F7}4\U{2212}1")) == "2*3/4-1"
  {
    var s := "2\U{00D7}3\U{00F7}4\U{2212}1";
    TrimInner(s);
    ReplaceTimes();
    ReplaceDivide();
    ReplaceMinus();
    AsciiSignsKept();
    SanitizedSteps(s, "2*3/4-1");
  }

  /** Sanitized, step by step, on trimmed text whose replaced form is known. */
  lemma SanitizedSteps(s: string, r: string)
    requires Trim(s) == s
    requires ReplaceChar(ReplaceChar(ReplaceChar(s, '\U{00D7}', '*'), '\U{00F7}', '/'), '\U{2212}', '-') == r
    ensures Sanitized(Some(s)) == RemoveDisallowed(CollapseSpaces(r))
  {
  }

  lemma AsciiSignsKept()
    ensures RemoveDisallowed(CollapseSpaces("2*3/4-1")) == "2*3/4-1"
  {
    var t := "2*3/4-1";
    forall c | c in t ensures IsKept(c) && !IsRegexSpace(c) {
      var k :| 0 <= k < |t| && t[k] == c;
    }
    PlainKept(t);
  }

  lemma ReplaceTimes()
    ensures ReplaceChar("2\U{00D7}3\U{00F7}4\U{2212}1", '\U{00D7}', '*') == "2*3\U{00F7}4\U{2212}1"
  {
  }

  lemma ReplaceDivide()
    ensures ReplaceChar("2*3\U{00F7}4\U{2212}1", '\U{00F7}', '/') == "2*3/4\U{2212}1"
  {
  }

  lemma ReplaceMinus()
    ensures ReplaceChar("2*3/4\U{2212}1", '\U{2212}', '-') == "2*3/4-1"
  {
  }

  /** Text made of kept characters other than blanks passes the last two steps unchanged. */
  lemma PlainKept(s: string)
    requires forall c :: c in s ==> IsKept(c) && !IsRegexSpace(c)
    ensures RemoveDisallowed(CollapseSpaces(s)) == s
  {
    CollapseIdentity(s);
    RemoveIdentity(s);
  }

  lemma {:induction false} RemoveIdentity(s: string)
    requires forall c :: c in s ==> IsKept(c)
    ensures RemoveDisallowed(s) == s
    decreases |s|
  {
    if s != [] {
      assert s[0] in s;
      assert forall c :: c in s[1..] ==> c in s;
      RemoveIdentity(s[1..]);
      assert RemoveDisallowed(s) == [s[0]] + s[1..];
    }
  }

  lemma {:induction false} CollapseIdentity(s: string)
    requires forall c :: c in s ==> !IsRegexSpace(c)
    ensures CollapseSpaces(s) == s
    decreases |s|
  {
    if s != [] {
      assert forall c :: c in s[1..] ==> c in s;
      CollapseIdentity(s[1..]);
    }
  }
}
