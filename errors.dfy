/** The calculator's exceptions as one datatype: CalculatorException and its three
    subclasses InvalidInputException, DivisionByZeroException and ValidationException,
    plus the JDK's NumberFormatException, which the validators keep as a cause.
    Fields are set once, at construction, and never change: a value of the datatype. */
module Errors {
  import opened Wrappers

  datatype Error =
    | CalculatorException(message: string, cause: Option<Error>)
    | InvalidInputException(message: string)
    | DivisionByZeroException(message: string)
    | ValidationException(message: string, invalidInput: Option<string>,
                          violatedRule: Option<string>, cause: Option<Error>)
    | NumberFormatException(message: string)
  {
    /** The fully qualified class name, as Throwable.toString prints it. */
    function ClassName(): string {
      match this
      case CalculatorException(_, _) => "com.calculator.CalculatorException"
      case InvalidInputException(_) => "com.calculator.InvalidInputException"
      case DivisionByZeroException(_) => "com.calculator.DivisionByZeroException"
      case ValidationException(_, _, _, _) => "com.calculator.validation.ValidationException"
      case NumberFormatException(_) => "java.lang.NumberFormatException"
    }

    /** Throwable.toString: the class name, ": " and the message. */
    function BaseText(): string {
      ClassName() + ": " + message
    }

    /** The text of toString(): for a ValidationException, the base text followed by
        the input part when the input is non-null and the rule part when the rule is
        non-null, in that order. */
    function ToString(): (s: string)
      ensures BaseText() <= s
      ensures s[|BaseText()|..] == InputPart() + RulePart()
    {
      var b := BaseText();
      var p := InputPart() + RulePart();
      assert (b + p)[|b|..] == p;
      b + p
    }

    /** " [Invalid Input: '<input>']" when the input is present, else "". */
    function InputPart(): (p: string)
      ensures p == [] <==> !(ValidationException? && invalidInput.Some?)
    {
      if ValidationException? && invalidInput.Some? then INPUT_TAG + invalidInput.value + "']" else ""
    }

    /** " [Violated Rule: <rule>]" when the rule is present, else "". */
    function RulePart(): (p: string)
      ensures p == [] <==> !(ValidationException? && violatedRule.Some?)
    {
      if ValidationException? && violatedRule.Some? then RULE_TAG + violatedRule.value + "]" else ""
    }
  }

  const INPUT_TAG: string := " [Invalid Input: '"
  const RULE_TAG: string := " [Violated Rule: "

  /** new ValidationException(message) */
  function NewValidation(message: string): (e: Error)
    ensures e.ValidationException? && e.message == message
    ensures e.invalidInput == None && e.violatedRule == None && e.cause == None
  {
    ValidationException(message, None, None, None)
  }

  /** new ValidationException(message, cause) */
  function NewValidationWithCause(message: string, cause: Error): (e: Error)
    ensures e.ValidationException? && e.message == message
    ensures e.invalidInput == None && e.violatedRule == None && e.cause == Some(cause)
  {
    ValidationException(message, None, None, Some(cause))
  }

  /** new ValidationException(message, invalidInput, violatedRule); null is None */
  function NewDetailedValidation(message: string, invalidInput: Option<string>, violatedRule: Option<string>): (e: Error)
    ensures e.ValidationException? && e.message == message
    ensures e.invalidInput == invalidInput && e.violatedRule == violatedRule && e.cause == None
  {
    ValidationException(message, invalidInput, violatedRule, None)
  }

  /** new ValidationException(message, invalidInput, violatedRule, cause) */
  function NewDetailedValidationWithCause(message: string, invalidInput: Option<string>,
                                          violatedRule: Option<string>, cause: Error): (e: Error)
    ensures e.ValidationException? && e.message == message
    ensures e.invalidInput == invalidInput && e.violatedRule == violatedRule && e.cause == Some(cause)
  {
    ValidationException(message, invalidInput, violatedRule, Some(cause))
  }

  /** The validator's failures: a ValidationException with the given input and rule code. */
  function Invalid(message: string, input: Option<string>, rule: string): (e: Error)
    ensures e == NewDetailedValidation(message, input, Some(rule))
  {
    ValidationException(message, input, Some(rule), None)
  }

  /** The exception violates the given rule code. */
  predicate Violates(e: Error, rule: string) {
    e.ValidationException? && e.violatedRule == Some(rule)
  }

  // ---------------------------------------------------------------------------

  /** The text of an exception with neither input nor rule is Throwable's own. */
  lemma PlainToString(e: Error)
    requires !(e.ValidationException? && (e.invalidInput.Some? || e.violatedRule.Some?))
    ensures e.ToString() == e.BaseText()
  {
    assert e.InputPart() == [] && e.RulePart() == [];
  }

  /** The rule part is present exactly when the rule is, and it ends the text. */
  lemma RuleEndsToString(e: Error, rule: string)
    requires e.ValidationException? && e.violatedRule == Some(rule)
    ensures EndsWith(e.ToString(), RULE_TAG + rule + "]")
  {
    assert e.RulePart() == RULE_TAG + rule + "]";
    SuffixAfter(e.ToString(), |e.BaseText()|, e.InputPart(), e.RulePart());
  }

  /** String.endsWith */
  predicate EndsWith(s: string, t: string) {
    |t| <= |s| && s[|s| - |t|..] == t
  }

  lemma SuffixAfter(s: string, b: nat, i: string, t: string)
    requires b <= |s| && s[b..] == i + t
    ensures EndsWith(s, t)
  {
    ConcatSuffix(i, t);
    assert s[b + |i|..] == s[b..][|i|..];
  }

  lemma ConcatSuffix(a: string, t: string)
    ensures (a + t)[|a|..] == t
  {
  }

  /** The input part follows the base text directly. */
  lemma InputFollowsBase(e: Error, input: string)
    requires e.ValidationException? && e.invalidInput == Some(input)
    ensures var s := e.ToString(); var t := INPUT_TAG + input + "']"; var b := |e.BaseText()|;
      b + |t| <= |s| && s[b..b + |t|] == t
  {
    var s := e.ToString();
    var t := INPUT_TAG + input + "']";
    var b := |e.BaseText()|;
    assert e.InputPart() == t;
    var rest := s[b..];
    assert rest == t + e.RulePart();
    assert s[b..b + |t|] == rest[..|t|];
  }

  /** Two validation exceptions with the same message and the same input print the
      same text only if they name the same rule: the rule is recoverable from the text. */
  lemma ToStringDeterminesRule(e1: Error, e2: Error)
    requires e1.ValidationException? && e2.ValidationException?
    requires e1.message == e2.message && e1.invalidInput == e2.invalidInput
    requires e1.ToString() == e2.ToString()
    ensures e1.violatedRule == e2.violatedRule
  {
    var s := e1.ToString();
    var b := |e1.BaseText()|;
    var p := e1.InputPart();
    assert e1.BaseText() == e2.BaseText() && p == e2.InputPart();
    var r1 := e1.RulePart();
    var r2 := e2.RulePart();
    assert s[b..] == p + r1 && s[b..] == p + r2;
    assert r1 == (p + r1)[|p|..] == (p + r2)[|p|..] == r2;
    if e1.violatedRule.Some? && e2.violatedRule.Some? {
      assert e1.violatedRule.value == r1[|RULE_TAG|..|r1| - 1];
      assert e2.violatedRule.value == r2[|RULE_TAG|..|r2| - 1];
    }
  }
}
