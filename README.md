# Calculator core in Dafny

A model of the core of a Java desktop calculator (package `com.calculator`): the
stateless input validator with its four regular-expression grammars and its sanitizer,
the `Calculator` engine with its memory register and calculation history, the
`ValidationException` family of errors, the `CalculatorConfig` settings table with its
defaults and typed lookups, and the `HelpTopic` query match.

The modules follow the program's structure:

- `wrappers.dfy` (`Wrappers`): `Option`, `Result` and `Outcome`, the stand-ins for
  null, for a value or an exception, and for a void method that may throw.
- `java_text.dfy` (`JavaText`): the string operations the code relies on: `trim()`,
  `\s`, ASCII `toLowerCase()` and `contains`.
- `grammar.dfy` (`Grammar`): the patterns `NUMBER_PATTERN`, `INTEGER_PATTERN`,
  `SCIENTIFIC_NOTATION_PATTERN` and `EXPRESSION_PATTERN`. Each is defined twice: once
  as a reference predicate written clause by clause after the regular expression, and
  once as a scanner the validators run. The two are proved equivalent.
- `numerals.dfy` (`Numerals`): decimal text of integers, and `Integer.parseInt` /
  `Long.parseLong` with their range checks. A parsed integer's text reads back as the
  integer.
- `doubles.dfy` (`Doubles`): Java's `double` as NaN, the two infinities or a finite
  real, with Java's comparisons. Everything the JDK computes on doubles is passed in
  as a `Jdk` value of functions (see Left out).
- `errors.dfy` (`Errors`): `CalculatorException`, `InvalidInputException`,
  `DivisionByZeroException`, `ValidationException` (its four constructors, accessors
  and `toString`) and `NumberFormatException` as variants of one datatype.
- `config.dfy` (`Config`): the defaults table, the overlay order of a load, the
  lookups with their fallbacks, and the `CalculatorConfig` class whose `properties`
  map the load methods update in place.
- `validator.dfy` (`Validator`): every public validator of `InputValidator`, in the
  order of its checks and with its rule codes. `hasBalancedParentheses` is a method
  with a counting loop, proved against a depth function. `sanitizeInput` is a method
  that reassigns its result step by step, proved against a function.
- `calculator.dfy` (`Engine`): the class `Calculator` with `memory` and `history`.
  Each operation's contract states its result, its error, the one history entry it
  appends on success, and that it leaves memory alone. `factorial` is a loop proved
  against `n!`.
- `help_topic.dfy` (`Help`): `HelpTopic` and `matchesQuery`.

Where the project's own tests and the code disagree, the model follows the code:

- `sanitizeInput("123abc + 456def")` keeps the `e` of `def`, since `e` may mark an
  exponent. The test at `src/test/java/com/calculator/validation/InputValidatorTest.java:329`
  expects `"123 + 456"`; see `Validator.SanitizeKeepsLetterE`.
- `4.9e-324` is rejected with `UNDERFLOW` by `validateNumber`; the test at line 63 of
  the same file expects it to pass. See `Validator.SubnormalInputRejected`.
- Validation is on by default, so `validateWithConfig("invalid")` is rejected; the
  test at line 342 expects it to pass. See `Validator.DefaultConfigValidates`.
- `getBooleanProperty` returns false for `"maybe"`, not the default true that
  `src/test/java/com/calculator/CalculatorConfigTest.java:134` expects. See
  `Config.BooleanPropertyExamples`.
- `sanitizeInput` is not idempotent: `"a 1"` becomes `" 1"`, and a second pass gives
  `"1"`. See `Validator.SanitizeNotIdempotent`.
- The two factorial limits differ and both are kept: the calculator stops at 20
  (the largest factorial a long holds), and the validator at 170.

## Model

| member | source | states |
|---|---|---|
| JavaText.Trim | src/main/java/com/calculator/validation/InputValidator.java:79 | String.trim(): the result is the middle of the input with only characters at or below U+0020 around it, starts and ends with a visible character, and is empty exactly when the input is all blank |
| JavaText.TrimKeeps | src/main/java/com/calculator/validation/InputValidator.java:342 | a character above U+0020 anywhere in the input survives trim() |
| JavaText.TrimInner | src/main/java/com/calculator/validation/InputValidator.java:342 | text that starts and ends with a visible character is its own trim |
| JavaText.ToLowerAscii | src/main/java/com/calculator/help/HelpTopic.java:35-36 | toLowerCase() maps each character to its lower case and keeps the length |
| JavaText.Contains | src/main/java/com/calculator/help/HelpTopic.java:35-37 | String.contains holds exactly when the query occurs at some index |
| Grammar.ScanNumber | src/main/java/com/calculator/validation/InputValidator.java:36-38 | the scanner for one number reports an end index past its start and within the text; that the number pattern matches up to that index is Grammar.ScanNumberSound |
| Grammar.NumberScannerCorrect | src/main/java/com/calculator/validation/InputValidator.java:36-38 | the number scanner accepts exactly the texts NUMBER_PATTERN matches: optional sign, digits with an optional point and digits or a point and digits, optional exponent with digits |
| Grammar.ScientificScannerCorrect | src/main/java/com/calculator/validation/InputValidator.java:42-44 | the scanner accepts exactly the texts SCIENTIFIC_NOTATION_PATTERN matches, where the exponent is required |
| Grammar.IntegerScannerCorrect | src/main/java/com/calculator/validation/InputValidator.java:40 | the scanner accepts exactly the texts INTEGER_PATTERN matches: optional sign then digits |
| Grammar.ExpressionScannerCorrect | src/main/java/com/calculator/validation/InputValidator.java:46-48 | the scanner accepts exactly the texts EXPRESSION_PATTERN matches: numbers separated by an operator with optional blanks around it |
| Grammar.ScientificIsNumber | src/main/java/com/calculator/validation/InputValidator.java:36-44 | every text in scientific notation is also a number |
| Grammar.ExpressionChars | src/main/java/com/calculator/validation/InputValidator.java:46-48 | an expression holds only number characters, the six operators and blanks; in particular no parenthesis |
| Grammar.NumberChars | src/main/java/com/calculator/validation/InputValidator.java:36-38 | a number holds only signs, digits, the point and e or E |
| Grammar.ScanNumberSound | src/main/java/com/calculator/validation/InputValidator.java:36-38 | an end index the number scanner reports delimits a number |
| Grammar.ScanNumberExact | src/main/java/com/calculator/validation/InputValidator.java:36-38 | the number scanner finds every number that starts at its index |
| Grammar.ScanIntegerSound | src/main/java/com/calculator/validation/InputValidator.java:40 | an end index the integer scanner reports delimits an integer |
| Grammar.ScanIntegerExact | src/main/java/com/calculator/validation/InputValidator.java:40 | the integer scanner finds every integer that starts at its index |
| Grammar.ScanExpressionSound | src/main/java/com/calculator/validation/InputValidator.java:46-48 | when the expression scanner accepts, the rest of the text is an expression |
| Grammar.ScanExpressionExact | src/main/java/com/calculator/validation/InputValidator.java:46-48 | the expression scanner accepts every expression |
| Numerals.ParseSigned | src/main/java/com/calculator/validation/InputValidator.java:144 | Integer.parseInt and Long.parseLong: a value exactly when the text is an optional sign then ASCII digits and its value lies in the range, and then that value |
| Numerals.ParseIntText | src/main/java/com/calculator/CalculatorConfig.java:461-467 | the decimal text of an integer in range reads back as that integer |
| Numerals.NatTextValue | src/main/java/com/calculator/Calculator.java:396 | the digits of a natural number denote it |
| Numerals.SignedDigitsIsInteger | src/main/java/com/calculator/validation/InputValidator.java:40 | the shape parseInt accepts is exactly INTEGER_PATTERN |
| Numerals.ParseOutOfRange | src/main/java/com/calculator/validation/InputValidator.java:144 | a value outside the range is refused |
| Numerals.ParseExamples | src/main/java/com/calculator/validation/InputValidator.java:144 | a plus sign and leading zeros are accepted, a lone sign and a blank are not |
| Numerals.ParseIntEdge | src/main/java/com/calculator/validation/InputValidator.java:144 | 2147483648 is not an int but is a long, one above Integer.MAX_VALUE |
| Doubles.Abs | src/main/java/com/calculator/Calculator.java:257 | Math.abs: NaN stays NaN, infinities become +infinity, a finite value becomes its magnitude |
| Doubles.CompareTotal | src/main/java/com/calculator/Calculator.java:184 | Java comparisons are false whenever NaN is involved and order all other values totally |
| Errors.Error.ToString | src/main/java/com/calculator/validation/ValidationException.java:98-111 | toString is the base text followed by the input part and then the rule part |
| Errors.Error.InputPart | src/main/java/com/calculator/validation/ValidationException.java:102-104 | the input part is present exactly when the invalid input is not null |
| Errors.Error.RulePart | src/main/java/com/calculator/validation/ValidationException.java:106-108 | the rule part is present exactly when the violated rule is not null |
| Errors.NewValidation | src/main/java/com/calculator/validation/ValidationException.java:30-34 | the one-argument constructor leaves input, rule and cause null |
| Errors.NewValidationWithCause | src/main/java/com/calculator/validation/ValidationException.java:42-46 | the two-argument constructor leaves input and rule null and keeps the cause |
| Errors.NewDetailedValidation | src/main/java/com/calculator/validation/ValidationException.java:55-59 | the three-argument constructor stores input and rule as given, with no cause |
| Errors.NewDetailedValidationWithCause | src/main/java/com/calculator/validation/ValidationException.java:69-73 | the four-argument constructor stores input, rule and cause as given |
| Errors.Invalid | src/main/java/com/calculator/validation/InputValidator.java:74-120 | the exceptions the validators throw are the three-argument kind with a rule |
| Errors.PlainToString | src/main/java/com/calculator/validation/ValidationException.java:98-111 | without input and rule, toString is the plain Throwable text |
| Errors.RuleEndsToString | src/main/java/com/calculator/validation/ValidationException.java:106-110 | with a rule, toString ends with " [Violated Rule: rule]" |
| Errors.InputFollowsBase | src/main/java/com/calculator/validation/ValidationException.java:102-104 | with an input, " [Invalid Input: 'input']" follows the base text directly |
| Errors.ToStringDeterminesRule | src/main/java/com/calculator/validation/ValidationException.java:98-111 | two exceptions of one message and input with the same text carry the same rule |
| Config.Loaded | src/main/java/com/calculator/CalculatorConfig.java:72-83 | after a load the defaults are written first, then the external file or else the classpath resource; overlaid keys win, other default keys keep their defaults, and nothing is removed |
| Config.CalculatorConfig.constructor | src/main/java/com/calculator/CalculatorConfig.java:46-49 | a new configuration is the loaded table over an empty one, and is marked loaded |
| Config.CalculatorConfig.LoadConfiguration | src/main/java/com/calculator/CalculatorConfig.java:72-83 | the table becomes Loaded of the old table, and the configuration is marked loaded |
| Config.CalculatorConfig.LoadDefaultProperties | src/main/java/com/calculator/CalculatorConfig.java:88-132 | every default is written over the table |
| Config.CalculatorConfig.LoadFromExternalFile | src/main/java/com/calculator/CalculatorConfig.java:139-148 | the external entries are written when the file can be read, and the result says whether it could |
| Config.CalculatorConfig.LoadFromClasspath | src/main/java/com/calculator/CalculatorConfig.java:153-164 | the classpath entries are written when the resource exists |
| Config.CalculatorConfig.ReloadConfiguration | src/main/java/com/calculator/CalculatorConfig.java:170-173 | reload is a load over the current table, which is never cleared |
| Config.CalculatorConfig.IsConfigurationLoaded | src/main/java/com/calculator/CalculatorConfig.java:518-520 | reports the loaded flag |
| Config.CalculatorConfig.ToString | src/main/java/com/calculator/CalculatorConfig.java:539-543 | "CalculatorConfig{loaded=B, properties=N}" with B the loaded flag and N the number of entries |
| Config.LoadedHoldsDefaults | src/main/java/com/calculator/CalculatorConfig.java:72-132 | after any load the table holds at least as many entries as the defaults table |
| Config.CalculatorConfig.AllProperties | src/main/java/com/calculator/CalculatorConfig.java:528-532 | the copy answers every lookup as the table does |
| Config.GetStringProperty | src/main/java/com/calculator/CalculatorConfig.java:441-443 | the stored value, or the default when the key is absent |
| Config.GetIntProperty | src/main/java/com/calculator/CalculatorConfig.java:454-473 | the default when the key is absent or the trimmed value is not an int; otherwise the value when it lies in [min, max] and the default when it does not |
| Config.GetBooleanProperty | src/main/java/com/calculator/CalculatorConfig.java:504-511 | the default only when the key is absent; otherwise whether the trimmed value is "true" in any case |
| Config.GetDoubleProperty | src/main/java/com/calculator/CalculatorConfig.java:482-495 | the parsed trimmed value, or the default when the key is absent or the value does not parse |
| Config.RoundingModeValueOf | src/main/java/com/calculator/CalculatorConfig.java:211-219 | RoundingMode.valueOf finds the mode of exactly that name, or none |
| Config.GetRoundingMode | src/main/java/com/calculator/CalculatorConfig.java:211-219 | the mode named by the setting, HALF_UP when it is absent or names no mode |
| Config.IntPropertyInRange | src/main/java/com/calculator/CalculatorConfig.java:454-473 | when the default lies in [min, max], so does every result |
| Config.IntPropertyStored | src/main/java/com/calculator/CalculatorConfig.java:454-473 | a stored int in range is returned as it is |
| Config.RoundingModeNames | src/main/java/com/calculator/CalculatorConfig.java:211-219 | valueOf and name are inverse |
| Config.RoundingModeFallback | src/main/java/com/calculator/CalculatorConfig.java:211-219 | a name in the wrong case or with a blank falls back to HALF_UP; an exact name is used |
| Config.BooleanPropertyExamples | src/main/java/com/calculator/CalculatorConfig.java:504-511 | "maybe" gives false even with default true; an absent key gives the default |
| Config.BooleanPropertyTrimmed | src/main/java/com/calculator/CalculatorConfig.java:504-511 | " TRUE " gives true: the value is trimmed and compared ignoring case |
| Config.PrecisionDefaultAgrees | src/main/java/com/calculator/CalculatorConfig.java:184-186 | the stored default precision 4 is what the getter reads |
| Config.HistoryDefaultAgrees | src/main/java/com/calculator/CalculatorConfig.java:261-263 | the stored default of 100 history entries is what the getter reads |
| Config.DefaultSwitches | src/main/java/com/calculator/CalculatorConfig.java:88-132 | by default the rounding mode is HALF_UP, validation is on and strict mode off |
| Config.DefaultInt | src/main/java/com/calculator/CalculatorConfig.java:454-473 | a default table entry written as an int in range is read as that int |
| Config.CalculatorConfig.Precision | src/main/java/com/calculator/CalculatorConfig.java:184-186 | reads the int setting "calculation.precision": the default 4 when not set; the trimmed stored value when it is an int in [0, 10], the default otherwise; so always in [0, 10] |
| Config.CalculatorConfig.MaxDigits | src/main/java/com/calculator/CalculatorConfig.java:193-195 | reads the int setting "calculation.max.digits": the default 15 when not set; the trimmed stored value when it is an int in [1, 20], the default otherwise; so always in [1, 20] |
| Config.CalculatorConfig.IsHighPrecisionEnabled | src/main/java/com/calculator/CalculatorConfig.java:202-204 | off when not set, otherwise whether the trimmed value is "true" in any case |
| Config.CalculatorConfig.RoundingModeSetting | src/main/java/com/calculator/CalculatorConfig.java:211-219 | HALF_UP when not set; otherwise the mode whose name is exactly the stored value, and HALF_UP when it names none |
| Config.CalculatorConfig.IsMemoryPersistent | src/main/java/com/calculator/CalculatorConfig.java:230-232 | off when not set, otherwise whether the trimmed value is "true" in any case |
| Config.CalculatorConfig.MaxMemorySlots | src/main/java/com/calculator/CalculatorConfig.java:239-241 | reads the int setting "memory.max.slots": the default 1 when not set; the trimmed stored value when it is an int in [1, 10], the default otherwise; so always in [1, 10] |
| Config.CalculatorConfig.IsMemoryAutoClearOnStartup | src/main/java/com/calculator/CalculatorConfig.java:248-250 | on when not set, otherwise whether the trimmed value is "true" in any case |
| Config.CalculatorConfig.MaxHistoryEntries | src/main/java/com/calculator/CalculatorConfig.java:261-263 | reads the int setting "history.max.entries": the default 100 when not set; the trimmed stored value when it is an int in [10, 1000], the default otherwise; so always in [10, 1000] |
| Config.CalculatorConfig.IsAutoSaveEnabled | src/main/java/com/calculator/CalculatorConfig.java:270-272 | on when not set, otherwise whether the trimmed value is "true" in any case |
| Config.CalculatorConfig.HistoryFilePath | src/main/java/com/calculator/CalculatorConfig.java:279-281 | the default path when not set, otherwise the stored value |
| Config.CalculatorConfig.IsHistoryClearOnStartup | src/main/java/com/calculator/CalculatorConfig.java:288-290 | off when not set, otherwise whether the trimmed value is "true" in any case |
| Config.CalculatorConfig.Theme | src/main/java/com/calculator/CalculatorConfig.java:301-303 | the default theme when not set, otherwise the stored value |
| Config.CalculatorConfig.WindowWidth | src/main/java/com/calculator/CalculatorConfig.java:310-312 | reads the int setting "ui.window.width": the default 400 when not set; the trimmed stored value when it is an int in [300, 1200], the default otherwise; so always in [300, 1200] |
| Config.CalculatorConfig.WindowHeight | src/main/java/com/calculator/CalculatorConfig.java:319-321 | reads the int setting "ui.window.height": the default 600 when not set; the trimmed stored value when it is an int in [400, 800], the default otherwise; so always in [400, 800] |
| Config.CalculatorConfig.IsKeyboardShortcutsEnabled | src/main/java/com/calculator/CalculatorConfig.java:328-330 | on when not set, otherwise whether the trimmed value is "true" in any case |
| Config.CalculatorConfig.IsOperationPreviewEnabled | src/main/java/com/calculator/CalculatorConfig.java:337-339 | on when not set, otherwise whether the trimmed value is "true" in any case |
| Config.CalculatorConfig.IsSoundEffectsEnabled | src/main/java/com/calculator/CalculatorConfig.java:346-348 | off when not set, otherwise whether the trimmed value is "true" in any case |
| Config.CalculatorConfig.DefaultExportFormat | src/main/java/com/calculator/CalculatorConfig.java:359-361 | the default format when not set, otherwise the stored value |
| Config.CalculatorConfig.IsExportTimestampEnabled | src/main/java/com/calculator/CalculatorConfig.java:368-370 | on when not set, otherwise whether the trimmed value is "true" in any case |
| Config.CalculatorConfig.DefaultExportDirectory | src/main/java/com/calculator/CalculatorConfig.java:377-379 | the default directory when not set, otherwise the stored value |
| Config.CalculatorConfig.IsAutoFilenameEnabled | src/main/java/com/calculator/CalculatorConfig.java:386-388 | on when not set, otherwise whether the trimmed value is "true" in any case |
| Config.CalculatorConfig.IsValidationEnabled | src/main/java/com/calculator/CalculatorConfig.java:399-401 | on when not set, otherwise whether the trimmed value is "true" in any case |
| Config.CalculatorConfig.IsStrictModeEnabled | src/main/java/com/calculator/CalculatorConfig.java:408-410 | off when not set, otherwise whether the trimmed value is "true" in any case |
| Config.CalculatorConfig.MaxNumberValue | src/main/java/com/calculator/CalculatorConfig.java:417-419 | 1e15 when not set; otherwise the parsed trimmed value, and 1e15 when it does not parse |
| Config.CalculatorConfig.MinNumberValue | src/main/java/com/calculator/CalculatorConfig.java:426-428 | -1e15 when not set; otherwise the parsed trimmed value, and -1e15 when it does not parse |
| Validator.ValidateNumber | src/main/java/com/calculator/validation/InputValidator.java:74-120 | NULL_INPUT exactly for null, EMPTY_INPUT exactly for blank text, INVALID_NUMBER_FORMAT exactly when the trimmed text is not a number, then PARSE_ERROR with the cause, NAN_VALUE, INFINITE_VALUE and UNDERFLOW for a nonzero value below MIN_NORMAL; success exactly otherwise, with the parsed value; every exception carries the input |
| Validator.CheckParsedNumber | src/main/java/com/calculator/validation/InputValidator.java:92-119 | a parse failure is PARSE_ERROR carrying the NumberFormatException; NAN_VALUE exactly for NaN, INFINITE_VALUE exactly for an infinity, UNDERFLOW exactly for a nonzero subnormal; success exactly for a finite non-subnormal value, which is returned as parsed; no other rule code |
| Validator.ValidateInteger | src/main/java/com/calculator/validation/InputValidator.java:129-162 | NULL_OR_EMPTY for null or blank, INVALID_INTEGER_FORMAT when not [+-]digits, INTEGER_PARSE_ERROR beyond the long range, INTEGER_OVERFLOW beyond the int range in either direction, otherwise the exact value |
| Validator.CheckParsedInteger | src/main/java/com/calculator/validation/InputValidator.java:143-161 | INTEGER_PARSE_ERROR exactly when Long.parseLong fails, INTEGER_OVERFLOW exactly for a long outside the int range, success with that very value otherwise; no other rule code |
| Validator.ValidateOperation | src/main/java/com/calculator/validation/InputValidator.java:170-186 | NULL_OPERATION for null, EMPTY_OPERATION for blank, success exactly when the trimmed text is one of the 16 symbols, INVALID_OPERATION otherwise |
| Validator.HasBalancedParentheses | src/main/java/com/calculator/validation/InputValidator.java:508-521 | the counting loop answers exactly whether no prefix closes more parentheses than it opens and the whole text closes as many as it opens |
| Validator.HasConsecutiveOperators | src/main/java/com/calculator/validation/InputValidator.java:529-532 | true exactly when two of + - * / stand next to each other |
| Validator.ValidateExpression | src/main/java/com/calculator/validation/InputValidator.java:194-227 | the first failing check in the order null, empty, unbalanced, consecutive operators, syntax gives its rule; success exactly when the trimmed text is an expression without adjacent operators |
| Validator.NoParensDepth | src/main/java/com/calculator/validation/InputValidator.java:508-521 | text without parentheses has depth zero |
| Validator.ExpressionIsBalanced | src/main/java/com/calculator/validation/InputValidator.java:46-48 | an expression has no parentheses and is balanced |
| Validator.ParenthesesRejected | src/main/java/com/calculator/validation/InputValidator.java:194-227 | any expression with a parenthesis is rejected, as UNBALANCED_PARENTHESES or INVALID_EXPRESSION_SYNTAX |
| Validator.SignAfterBlankAccepted | src/main/java/com/calculator/validation/InputValidator.java:529-532 | "1 + -2" is accepted, because the operator check looks only at adjacent characters |
| Validator.SignAfterOperatorRejected | src/main/java/com/calculator/validation/InputValidator.java:529-532 | "1+-2" fails with CONSECUTIVE_OPERATORS |
| Validator.IsValidRange | src/main/java/com/calculator/validation/InputValidator.java:238-262 | NAN_RANGE_CHECK, INFINITE_RANGE_CHECK, INVALID_RANGE when min > max, OUT_OF_RANGE outside [min, max], in that order; otherwise true, never false |
| Validator.RangeInclusive | src/main/java/com/calculator/validation/InputValidator.java:253-259 | both bounds belong to the range |
| Validator.NaNBoundsAcceptAll | src/main/java/com/calculator/validation/InputValidator.java:248-259 | NaN bounds fail no comparison, so every finite number passes |
| Validator.ValidateSafeNumber | src/main/java/com/calculator/validation/InputValidator.java:270-294 | NAN_UNSAFE, INFINITE_UNSAFE, UNSAFE_LARGE_NUMBER above 2^53-1 in magnitude, UNSAFE_SMALL_NUMBER for a nonzero magnitude below MIN_NORMAL, in that order; passes exactly the other values |
| Validator.ValidateScientificNotation | src/main/java/com/calculator/validation/InputValidator.java:303-328 | NULL_OR_EMPTY_SCIENTIFIC, INVALID_SCIENTIFIC_FORMAT exactly when the trimmed text is not in scientific notation, then the parse and value checks; success with the parsed value |
| Validator.CheckParsedScientific | src/main/java/com/calculator/validation/InputValidator.java:317-327 | a parse failure is SCIENTIFIC_PARSE_ERROR with its cause; a parsed value is returned exactly when validateSafeNumber passes it, and otherwise fails with validateSafeNumber's exception |
| Validator.ValidateStrictMode | src/main/java/com/calculator/validation/InputValidator.java:390-415 | EXCESSIVE_PRECISION when the text of the value is longer than 15, then STRICT_MODE_TOO_SMALL for a nonzero magnitude below 1e-10, STRICT_MODE_TOO_LARGE above 1e10, and no other rule; passes exactly when none of the three applies |
| Validator.ValidateWithConfig | src/main/java/com/calculator/validation/InputValidator.java:365-381 | with validation off everything passes; otherwise a validateNumber failure is returned as it is, then a failure of the range check against the configured min and max, then, in strict mode, the strict check; passes exactly when the number, range and (in strict mode) strict checks all pass |
| Validator.StrictModeNarrows | src/main/java/com/calculator/validation/InputValidator.java:365-381 | turning strict mode on never lets more input through: what passes with it on passes with it off |
| Validator.DefaultConfigValidates | src/main/java/com/calculator/validation/InputValidator.java:365-381 | with the default settings "invalid" is rejected with INVALID_NUMBER_FORMAT |
| Validator.ValidateDivision | src/main/java/com/calculator/validation/InputValidator.java:424-442 | both operands must be safe, then DIVISION_BY_ZERO exactly for a zero divisor, DIVISION_OVERFLOW exactly when a nonzero divisor below 1 in magnitude is smaller than the dividend over MAX_VALUE |
| Validator.NoOverflowFromLargeDivisor | src/main/java/com/calculator/validation/InputValidator.java:436-440 | a safe divisor of magnitude at least 1 never overflows |
| Validator.OverflowReachable | src/main/java/com/calculator/validation/InputValidator.java:436-440 | dividing 2^53-1 by MIN_NORMAL fails with DIVISION_OVERFLOW |
| Validator.ValidateFactorial | src/main/java/com/calculator/validation/InputValidator.java:450-464 | NEGATIVE_FACTORIAL below 0, FACTORIAL_OVERFLOW above 170, passes exactly 0..170 |
| Validator.ValidateSquareRoot | src/main/java/com/calculator/validation/InputValidator.java:472-481 | the safety checks first, then NEGATIVE_SQUARE_ROOT exactly below zero |
| Validator.ValidateLogarithm | src/main/java/com/calculator/validation/InputValidator.java:489-498 | the safety checks first, then NON_POSITIVE_LOGARITHM exactly at or below zero |
| Validator.NumberGrammarAccepts | src/main/java/com/calculator/validation/InputValidator.java:36-38 | 123, .5, 1.5E-10 and 5. are numbers |
| Validator.NumberGrammarRejectsShape | src/main/java/com/calculator/validation/InputValidator.java:36-38 | 12.34.56, e10 and NaN are not numbers |
| Validator.NumberGrammarRejectsSigns | src/main/java/com/calculator/validation/InputValidator.java:36-38 | 1e, 1e+ and ++123 are not numbers |
| Validator.SubnormalInputRejected | src/main/java/com/calculator/validation/InputValidator.java:104-110 | 4.9e-324 is rejected with UNDERFLOW |
| Validator.IntegerRoundTrip | src/main/java/com/calculator/validation/InputValidator.java:129-162 | the text of an int reads back as that int |
| Validator.IntegerOverflow | src/main/java/com/calculator/validation/InputValidator.java:146-152 | a long outside the int range fails with INTEGER_OVERFLOW, above and below |
| Validator.IntegerParseError | src/main/java/com/calculator/validation/InputValidator.java:143-161 | a value beyond the long range fails with INTEGER_PARSE_ERROR |
| Validator.ReplaceChar | src/main/java/com/calculator/validation/InputValidator.java:345-347 | replace changes every occurrence of one character to another and nothing else |
| Validator.CollapseSpaces | src/main/java/com/calculator/validation/InputValidator.java:350 | after replaceAll of runs of \s, no two blanks are adjacent and every \s character is a space; the characters other than \s are kept in order, digits included |
| Validator.CollapseSpacesRunHeads | src/main/java/com/calculator/validation/InputValidator.java:350 | the collapse equals the character-by-character reference: a \s character that starts a run becomes one space in its place, one inside a run is dropped, every other character is kept |
| Validator.RemoveDisallowed | src/main/java/com/calculator/validation/InputValidator.java:353 | a character remains exactly when it occurs in the input and is a digit, one of + - * / ( ) . e E, or \s; a single character is kept exactly when allowed, and digits keep their order |
| Validator.SanitizeInput | src/main/java/com/calculator/validation/InputValidator.java:336-356 | null gives ""; the result is trim, the three replacements, the collapse and the filter in that order, and holds only digits, + - * / ( ) . e E and spaces |
| Validator.RemoveDisallowedIsProject | src/main/java/com/calculator/validation/InputValidator.java:353 | the filter's result is the input with exactly the disallowed characters dropped, every kept one in its place and order |
| Validator.RemoveDisallowedConcat | src/main/java/com/calculator/validation/InputValidator.java:353 | the filter works character by character: filtering a concatenation is the concatenation of the filtered parts |
| Validator.SanitizeKeepsDigits | src/main/java/com/calculator/validation/InputValidator.java:336-356 | sanitizing never loses, adds or reorders a digit |
| Validator.SanitizeNotIdempotent | src/main/java/com/calculator/validation/InputValidator.java:336-356 | "a 1" gives " 1", and a second pass gives "1" |
| Validator.SanitizeKeepsChar | src/main/java/com/calculator/validation/InputValidator.java:336-356 | every visible character the filter allows survives sanitizing |
| Validator.SanitizeKeepsLetterE | src/main/java/com/calculator/validation/InputValidator.java:353 | the e of "456def" survives in the sanitized "123abc + 456def" |
| Validator.SanitizeReplacesSigns | src/main/java/com/calculator/validation/InputValidator.java:345-347 | "2×3÷4−1" becomes "2*3/4-1" |
| Engine.IsInteger | src/main/java/com/calculator/Calculator.java:380-382 | true exactly for a finite value equal to an integer; false for NaN and the infinities |
| Engine.LongCast | src/main/java/com/calculator/Calculator.java:396 | the (long) cast keeps an integral value in the long range and saturates beyond it |
| Engine.FormatResultAsWritten | src/main/java/com/calculator/Calculator.java:390-400 | formatResult as written: "NaN", "∞" or "-∞"; an integral value in the long range as text that reads back as that value; an integral value beyond it as Long.MAX_VALUE or Long.MIN_VALUE, by sign; anything else as Double.toString |
| Engine.FormatResultSaturates | src/main/java/com/calculator/Calculator.java:395-396 | the code formats 1e20 as 9223372036854775807 |
| Engine.FormatResult | src/main/java/com/calculator/Calculator.java:390-400 | "NaN" for NaN, "∞" or "-∞" by sign, an integral value in the long range as text that reads back as exactly that value, anything else as Double.toString |
| Engine.FormatResultAgrees | src/main/java/com/calculator/Calculator.java:390-400 | for every value except an integral one beyond the long range the corrected formatting is the code's |
| Engine.FormattedIntegerValidates | src/main/java/com/calculator/Calculator.java:395-396 | an int printed by the code's formatter passes validateInteger as that same int |
| Engine.FactorialLimit | src/main/java/com/calculator/Calculator.java:274-281 | 20! = 2432902008176640000 fits in a long and 21! does not |
| Engine.FactMonotone | src/main/java/com/calculator/Calculator.java:278-281 | factorials grow with n |
| Engine.FactorialFits | src/main/java/com/calculator/Calculator.java:274-281 | every factorial up to 20 fits in a long |
| Engine.ValidateInput | src/main/java/com/calculator/Calculator.java:404-408 | a NaN value fails with "<name> cannot be NaN"; any other passes |
| Engine.ValidateBoth | src/main/java/com/calculator/Calculator.java:72-73 | the first operand is checked before the second |
| Engine.Calculator.constructor | src/main/java/com/calculator/Calculator.java:37-40 | memory 0.0, empty history |
| Engine.Calculator.LogCalculation | src/main/java/com/calculator/Calculator.java:410-412 | appends one entry at the end, memory unchanged |
| Engine.Calculator.Add | src/main/java/com/calculator/Calculator.java:71-78 | a NaN operand fails, the first before the second; otherwise the sum (jdk.plus) is returned and one entry "a + b = result" is appended, with the result printed by the code's formatter (saturating beyond the long range); memory never touched, history untouched on failure |
| Engine.Calculator.Subtract | src/main/java/com/calculator/Calculator.java:111-118 | a NaN operand fails, the first before the second; otherwise the difference (jdk.minus) is returned and one entry "a - b = result" is appended, with the result printed by the code's formatter (saturating beyond the long range); memory never touched, history untouched on failure |
| Engine.Calculator.Multiply | src/main/java/com/calculator/Calculator.java:162-169 | a NaN operand fails, the first before the second; otherwise the product (jdk.times) is returned and one entry "a * b = result" is appended, with the result printed by the code's formatter (saturating beyond the long range); memory never touched, history untouched on failure |
| Engine.Calculator.Divide | src/main/java/com/calculator/Calculator.java:180-191 | the NaN checks first, then DivisionByZeroException exactly when b == 0.0; otherwise the quotient and one entry "a / b = result" printed by the code's formatter; memory never touched, history untouched on failure |
| Engine.Calculator.Power | src/main/java/com/calculator/Calculator.java:203-210 | a NaN operand fails, the first before the second; otherwise the Math.pow of base and exponent is returned and one entry "a ^ b = result" is appended, with the result printed by the code's formatter (saturating beyond the long range); memory never touched, history untouched on failure |
| Engine.Calculator.SquareRoot | src/main/java/com/calculator/Calculator.java:219-228 | NaN fails, a negative number fails with its text in the message; otherwise Math.sqrt and one entry "√number = result" printed by the code's formatter; memory never touched, history untouched on failure |
| Engine.Calculator.Percentage | src/main/java/com/calculator/Calculator.java:238-245 | a NaN operand fails; otherwise (number * percent) / 100 and one entry "percent% of number = result" printed by the code's formatter; memory never touched, history untouched on failure |
| Engine.Calculator.Absolute | src/main/java/com/calculator/Calculator.java:254-260 | fails exactly for NaN; otherwise Math.abs, which is never negative, and one entry "|number| = result" printed by the code's formatter; memory never touched |
| Engine.Calculator.Factorial | src/main/java/com/calculator/Calculator.java:269-285 | negative and above-20 arguments fail with their messages; otherwise the loop returns n!, which fits in a long, and logs "n! = result" |
| Engine.Calculator.MemoryStore | src/main/java/com/calculator/Calculator.java:295-298 | NaN is rejected and leaves memory as it was; otherwise memory holds the value; history untouched |
| Engine.Calculator.MemoryRecall | src/main/java/com/calculator/Calculator.java:305-307 | reads the memory |
| Engine.Calculator.MemoryClear | src/main/java/com/calculator/Calculator.java:312-314 | memory becomes 0.0, history untouched |
| Engine.Calculator.MemoryAdd | src/main/java/com/calculator/Calculator.java:322-325 | NaN is rejected and leaves memory as it was; otherwise the value is added; history untouched |
| Engine.Calculator.GetHistory | src/main/java/com/calculator/Calculator.java:334-336 | a copy equal to the history |
| Engine.Calculator.ClearHistory | src/main/java/com/calculator/Calculator.java:341-343 | history becomes empty, memory untouched |
| Engine.Calculator.GetLastCalculation | src/main/java/com/calculator/Calculator.java:350-352 | null exactly when the history is empty, otherwise its last entry |
| Engine.Calculator.Round | src/main/java/com/calculator/Calculator.java:364-372 | negative places fail with their number in the message; otherwise the half-up rounding of the value's text, whose failure is a NumberFormatException |
| Engine.Calculator.ToString | src/main/java/com/calculator/Calculator.java:415-418 | "Calculator[ready for operations, memory=M, history entries=N]" with M the memory printed by the code's formatter and N the number of history entries; for a new calculator "memory=0, history entries=0" |
| Help.HelpTopic.MatchesQuery | src/main/java/com/calculator/help/HelpTopic.java:34-38 | a match needs a place (title, description or a keyword) at least as long as the query |
| Help.HelpTopic.ToString | src/main/java/com/calculator/help/HelpTopic.java:40-43 | the title |
| Help.MatchesQueryOccurrence | src/main/java/com/calculator/help/HelpTopic.java:34-38 | a topic matches exactly when the query occurs in the lower-cased title, the lower-cased description or one keyword |
| Help.EmptyQueryMatches | src/main/java/com/calculator/help/HelpTopic.java:35 | the empty query matches every topic |
| Help.LoweredHasNoCapital | src/main/java/com/calculator/help/HelpTopic.java:35-36 | lower-cased text holds no query with a capital A-Z |
| Help.CapitalQueryNeedsKeyword | src/main/java/com/calculator/help/HelpTopic.java:35-37 | a query with a capital matches exactly when some keyword contains it |
| Help.TitleMatchExample | src/main/java/com/calculator/help/HelpTopic.java:35 | "basic" matches the title "Basic Operations" and "Basic" does not |

## Left out

- File and classpath I/O of `CalculatorConfig` become parameters: the external
  file's entries, or none when it cannot be read, and the same for the classpath
  resource. An `IOException` part-way through a load, which would leave some
  entries loaded, is not modelled.
- Logging (`LOGGER`) and the `volatile` double-checked-locking singleton
  `getInstance` are not modelled. Neither changes a result, and the singleton is
  about concurrency.
- IEEE 754 behaviour is not modelled, and neither are the decimal texts of doubles.
  This covers `Double.parseDouble`, `Double.toString`, `String.format("%.Nf")`, the
  rounding of `+ - * /`, `Math.pow`, `Math.sqrt` and the `BigDecimal` rounding in
  `round`. They are the fields of the `Jdk` parameter, and contracts are stated in
  terms of them. `Math.abs`, the comparisons, `Math.floor` and the `(long)` cast are
  modelled exactly on the finite values.
- Negative zero is not modelled: `-0.0` and `0.0` are one value, as Java's `==`
  treats them.
- Errors.Error.ToString: the message is a string, never null, so `Throwable.toString`'s
  form for a null message (the class name alone) has no counterpart. No code in the core
  throws with a null message.
- Validator.ValidateDivision: compares against the exact product
  `MAX_VALUE * |divisor|`, not the rounded double product. The two can differ only
  at the boundary.
- Validator.ValidateStrictMode: uses the exact reals 1e-10 and 1e10, not the
  nearest doubles. The two can differ only at the boundary.
- Validator.ValidateNumber: the `PARSE_ERROR` branch is modelled through the
  parser parameter. With the real JDK it cannot be reached, since every text the
  grammar accepts parses.
- JavaText.ToLowerAscii: lowers only A-Z. `String.toLowerCase()` also lowers
  non-ASCII letters and follows the default locale: under a Turkish locale `I` becomes
  the dotless `ı`, not `i`. For such titles, and under such a locale,
  `Help.HelpTopic.MatchesQuery` can differ.
- Numerals.ParseSigned: accepts only ASCII digits. `Integer.parseInt` also accepts
  other Unicode decimal digits; the validator never passes them, since its grammar
  admits ASCII digits only, but a configuration value could hold them.
- The `ValidationStrategy` interface and the constants `PI`, `E` and
  `MIN_SAFE_INTEGER` are not modelled. Nothing in the core uses them.
- The ordering of `VALID_OPERATIONS` in the message of `INVALID_OPERATION` is the
  iteration order of Java's `HashSet` for those sixteen strings. It is written out as
  a constant, not derived.
- The GUI (`CalculatorGUI`), the console (`CalculatorCLI`) and the CSV export
  (`CSVExporter`) are not part of this model. They are user interface and file
  output.
- The four getters of `HelpTopic` are not separate members: a datatype's fields are
  its getters.

## Findings

| source | as written | input that shows it | evidently intended | confidence | as-written member | corrected member |
|---|---|---|---|---|---|---|
| src/main/java/com/calculator/Calculator.java:395-396 | an integral result is printed as `String.valueOf((long) result)`, and the cast saturates beyond the range of long | `formatResult(1e20)` gives `9223372036854775807` | an integral value beyond the range of long is printed as a double, so the text still denotes the value | high; not executed | `Engine.FormatResultSaturates` | `Engine.FormatResult` |

The calculator's history entries and `toString` model the code as written, through
`Engine.FormatResultAsWritten`. `Engine.FormatResult` is the corrected definition, whose
text always denotes the value. The two agree on every value except an integral one beyond
the range of long (`Engine.FormatResultAgrees`).
