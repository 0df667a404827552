/** The calculator engine: arithmetic on doubles with NaN checks, a factorial on longs,
    one memory register, and a history of the calculations that succeeded, as text. */
module Engine {
  import opened Wrappers
  import opened Doubles
  import opened Errors
  import opened Numerals
  import Validator

  // ---------------------------------------------------------------------------
  // Numbers as text

  /** Math.floor(v) == v for a finite v. */
  predicate IsIntegral(v: real) {
    v.Floor as real == v
  }

  /** An integral value the long type holds exactly. */
  predicate InLongRange(v: real) {
    IsIntegral(v) && LONG_MIN as real <= v <= LONG_MAX as real
  }

  /** The integer k as a real. */
  function Real(k: int): real {
    k as real
  }

  /** Calculator.isInteger: the value is finite and has no fractional part. */
  function IsInteger(value: Double): (b: bool)
    ensures b <==> value.Finite? && exists k :: value.v == Real(k)
  {
    match value
    case Finite(v) =>
      assert IsIntegral(v) ==> v == Real(v.Floor);
      IsIntegral(v)
    case _ => false
  }

  /** The (long) cast of a finite double: truncation toward zero, saturating at the
      bounds of long. */
  function LongCast(v: real): (n: int)
    ensures LONG_MIN <= n <= LONG_MAX
    ensures InLongRange(v) ==> n as real == v
    ensures v >= LONG_MAX as real ==> n == LONG_MAX
    ensures v <= LONG_MIN as real ==> n == LONG_MIN
  {
    if v >= LONG_MAX as real then LONG_MAX
    else if v <= LONG_MIN as real then LONG_MIN
    else if v >= 0.0 then v.Floor
    else 0 - (-v).Floor
  }

  /** Calculator.formatResult as written: an integral value is printed as the long it
      casts to, which for a value beyond the range of long is a bound of that range. */
  function FormatResultAsWritten(jdk: Jdk, result: Double): (s: string)
    ensures result.NaN? ==> s == "NaN"
    ensures result == PosInf ==> s == "\U{221E}"
    ensures result == NegInf ==> s == "-\U{221E}"
    ensures result.Finite? && InLongRange(result.v) ==>
      var back := ParseSigned(s, LONG_MIN, LONG_MAX);
      back.Some? && back.value as real == result.v
    ensures result.Finite? && IsIntegral(result.v) && result.v > LONG_MAX as real ==> s == IntText(LONG_MAX)
    ensures result.Finite? && IsIntegral(result.v) && result.v < LONG_MIN as real ==> s == IntText(LONG_MIN)
    ensures result.Finite? && !IsIntegral(result.v) ==> s == jdk.valueOf(result)
  {
    match result
    case NaN => "NaN"
    case PosInf => "\U{221E}"
    case NegInf => "-\U{221E}"
    case Finite(v) =>
      if IsIntegral(v) then
        ParseIntText(LongCast(v), LONG_MIN, LONG_MAX);
        IntText(LongCast(v))
      else jdk.valueOf(result)
  }

  /** 1e20 is integral (and a double), but is shown as Long.MAX_VALUE, 9223372036854775807. */
  lemma FormatResultSaturates(jdk: Jdk)
    ensures FormatResultAsWritten(jdk, Finite(100000000000000000000.0)) == IntText(LONG_MAX)
    ensures LONG_MAX as real != 100000000000000000000.0
  {
    assert IsIntegral(100000000000000000000.0) by {
      assert 100000000000000000000.0.Floor == 100000000000000000000;
    }
  }

  /** formatResult as it is evidently meant: an integral value within the range of long
      is printed as that long, every other finite value as Double.toString prints it. */
  function FormatResult(jdk: Jdk, result: Double): (s: string)
    ensures result.NaN? ==> s == "NaN"
    ensures result == PosInf ==> s == "\U{221E}"
    ensures result == NegInf ==> s == "-\U{221E}"
    ensures result.Finite? && InLongRange(result.v) ==>
      var back := ParseSigned(s, LONG_MIN, LONG_MAX);
      back.Some? && back.value as real == result.v
    ensures result.Finite? && !InLongRange(result.v) ==> s == jdk.valueOf(result)
  {
    match result
    case NaN => "NaN"
    case PosInf => "\U{221E}"
    case NegInf => "-\U{221E}"
    case Finite(v) =>
      if InLongRange(v) then
        ParseIntText(v.Floor, LONG_MIN, LONG_MAX);
        IntText(v.Floor)
      else jdk.valueOf(result)
  }

  /** Within the range of long the corrected definition agrees with the code. */
  lemma FormatResultAgrees(jdk: Jdk, result: Double)
    requires !result.Finite? || !IsIntegral(result.v) || InLongRange(result.v)
    ensures FormatResult(jdk, result) == FormatResultAsWritten(jdk, result)
  {
    if result.Finite? && InLongRange(result.v) {
      assert LongCast(result.v) == result.v.Floor;
    }
  }

  /** An integral result in the int range is formatted as text validateInteger accepts,
      and reads back as the same number. */
  lemma FormattedIntegerValidates(jdk: Jdk, k: Int32)
    ensures Validator.ValidateInteger(Some(FormatResultAsWritten(jdk, Finite(k as real)))) == Success(k)
  {
    var v := k as real;
    assert v.Floor == k;
    assert InLongRange(v);
    assert LongCast(v) == k;
    assert FormatResultAsWritten(jdk, Finite(v)) == IntText(k);
    Validator.IntegerRoundTrip(k);
  }

  // ---------------------------------------------------------------------------
  // Factorial

  /** n!, with 0! = 1. */
  function Fact(n: nat): (r: nat)
    ensures r >= 1
  {
    if n <= 1 then 1 else n * Fact(n - 1)
  }

  /** 20! is the largest factorial a long holds; 21! is not. */
  lemma FactorialLimit()
    ensures Fact(20) == 2432902008176640000 <= LONG_MAX
    ensures Fact(21) > LONG_MAX
  {
    assert Fact(5) == 120;
    assert Fact(10) == 3628800;
    assert Fact(15) == 1307674368000;
    assert Fact(20) == 2432902008176640000;
  }

  lemma {:induction false} FactMonotone(m: nat, n: nat)
    requires m <= n
    ensures Fact(m) <= Fact(n)
    decreases n
  {
    if m < n {
      FactMonotone(m, n - 1);
      assert Fact(n) == n * Fact(n - 1);
      MulAtLeast(n, Fact(n - 1));
    }
  }

  lemma MulAtLeast(a: nat, b: nat)
    requires a >= 1
    ensures b <= a * b
  {
    assert a * b == b + (a - 1) * b;
  }

  /** Every factorial the calculator computes fits in a long. */
  lemma FactorialFits(n: nat)
    requires n <= 20
    ensures Fact(n) <= LONG_MAX
  {
    FactMonotone(n, 20);
    FactorialLimit();
  }

  // ---------------------------------------------------------------------------
  // Checks

  /** validateInput: a NaN argument is rejected, naming the parameter. */
  function ValidateInput(value: Double, parameterName: string): (o: Outcome<Error>)
    ensures o.Pass? <==> !value.NaN?
    ensures o.Fail? ==> o.error == InvalidInputException(parameterName + " cannot be NaN")
  {
    if value.NaN? then Fail(InvalidInputException(parameterName + " cannot be NaN")) else Pass
  }

  /** The outcome of validating two arguments in order: the first failure wins. */
  function ValidateBoth(a: Double, aName: string, b: Double, bName: string): (o: Outcome<Error>)
    ensures o.Pass? <==> !a.NaN? && !b.NaN?
    ensures a.NaN? ==> o == Fail(InvalidInputException(aName + " cannot be NaN"))
    ensures !a.NaN? && b.NaN? ==> o == Fail(InvalidInputException(bName + " cannot be NaN"))
  {
    if a.NaN? then ValidateInput(a, aName) else ValidateInput(b, bName)
  }

  /** The history entry of a binary operation: "a op b = result". */
  function BinaryEntry(jdk: Jdk, a: Double, op: string, b: Double, result: Double): string {
    jdk.valueOf(a) + " " + op + " " + jdk.valueOf(b) + " = " + FormatResultAsWritten(jdk, result)
  }

  /** The history entry of absolute: "|number| = result". */
  function AbsoluteEntry(jdk: Jdk, number: Double, result: Double): string {
    "|" + jdk.valueOf(number) + "| = " + FormatResultAsWritten(jdk, result)
  }

  // ---------------------------------------------------------------------------
  // The calculator

  class Calculator {
    const jdk: Jdk
    var memory: Double
    var history: seq<string>

    constructor(jdk: Jdk)
      ensures this.jdk == jdk && memory == ZERO && history == []
    {
      this.jdk := jdk;
      memory := ZERO;
      history := [];
    }

    /** logCalculation */
    method LogCalculation(calculation: string)
      modifies this
      ensures history == old(history) + [calculation] && memory == old(memory)
    {
      history := history + [calculation];
    }

    /** a + b, logged as "a + b = result". */
    method Add(a: Double, b: Double) returns (r: Result<Double, Error>)
      modifies this
      ensures var check := ValidateBoth(a, "First parameter", b, "Second parameter");
        r == if check.Fail? then Failure(check.error) else Success(jdk.plus(a, b))
      ensures r.Success? ==> history == old(history) + [BinaryEntry(jdk, a, "+", b, r.value)]
      ensures r.Failure? ==> history == old(history)
      ensures memory == old(memory)
    {
      var check := ValidateBoth(a, "First parameter", b, "Second parameter");
      if check.Fail? {
        return Failure(check.error);
      }
      var result := jdk.plus(a, b);
      LogCalculation(BinaryEntry(jdk, a, "+", b, result));
      return Success(result);
    }

    /** a - b, logged as "a - b = result". */
    method Subtract(a: Double, b: Double) returns (r: Result<Double, Error>)
      modifies this
      ensures var check := ValidateBoth(a, "Minuend", b, "Subtrahend");
        r == if check.Fail? then Failure(check.error) else Success(jdk.minus(a, b))
      ensures r.Success? ==> history == old(history) + [BinaryEntry(jdk, a, "-", b, r.value)]
      ensures r.Failure? ==> history == old(history)
      ensures memory == old(memory)
    {
      var check := ValidateBoth(a, "Minuend", b, "Subtrahend");
      if check.Fail? {
        return Failure(check.error);
      }
      var result := jdk.minus(a, b);
      LogCalculation(BinaryEntry(jdk, a, "-", b, result));
      return Success(result);
    }

    /** a * b, logged as "a * b = result". */
    method Multiply(a: Double, b: Double) returns (r: Result<Double, Error>)
      modifies this
      ensures var check := ValidateBoth(a, "Multiplicand", b, "Multiplier");
        r == if check.Fail? then Failure(check.error) else Success(jdk.times(a, b))
      ensures r.Success? ==> history == old(history) + [BinaryEntry(jdk, a, "*", b, r.value)]
      ensures r.Failure? ==> history == old(history)
      ensures memory == old(memory)
    {
      var check := ValidateBoth(a, "Multiplicand", b, "Multiplier");
      if check.Fail? {
        return Failure(check.error);
      }
      var result := jdk.times(a, b);
      LogCalculation(BinaryEntry(jdk, a, "*", b, result));
      return Success(result);
    }

    /** a / b; a zero divisor is a DivisionByZeroException, checked after the NaN checks. */
    method Divide(a: Double, b: Double) returns (r: Result<Double, Error>)
      modifies this
      ensures a.NaN? || b.NaN? ==> r == ValidateBoth(a, "Dividend", b, "Divisor").PropagateFailure()
      ensures !a.NaN? && Equal(b, ZERO) ==>
        r == Failure(DivisionByZeroException("Cannot divide " + jdk.valueOf(a) + " by zero"))
      ensures r.Success? <==> !a.NaN? && !b.NaN? && !Equal(b, ZERO)
      ensures r.Success? ==> r.value == jdk.quotient(a, b)
      ensures r.Success? ==> history == old(history) + [BinaryEntry(jdk, a, "/", b, r.value)]
      ensures r.Failure? ==> history == old(history)
      ensures memory == old(memory)
    {
      var check := ValidateBoth(a, "Dividend", b, "Divisor");
      if check.Fail? {
        return Failure(check.error);
      }
      if Equal(b, ZERO) {
        return Failure(DivisionByZeroException("Cannot divide " + jdk.valueOf(a) + " by zero"));
      }
      var result := jdk.quotient(a, b);
      LogCalculation(BinaryEntry(jdk, a, "/", b, result));
      return Success(result);
    }

    /** Math.pow(base, exponent), logged as "base ^ exponent = result". */
    method Power(base: Double, exponent: Double) returns (r: Result<Double, Error>)
      modifies this
      ensures var check := ValidateBoth(base, "Base", exponent, "Exponent");
        r == if check.Fail? then Failure(check.error) else Success(jdk.pow(base, exponent))
      ensures r.Success? ==>
        history == old(history) + [BinaryEntry(jdk, base, "^", exponent, r.value)]
      ensures r.Failure? ==> history == old(history)
      ensures memory == old(memory)
    {
      var check := ValidateBoth(base, "Base", exponent, "Exponent");
      if check.Fail? {
        return Failure(check.error);
      }
      var result := jdk.pow(base, exponent);
      LogCalculation(BinaryEntry(jdk, base, "^", exponent, result));
      return Success(result);
    }

    /** Math.sqrt of a number that is not below zero, logged as "√number = result". */
    method SquareRoot(number: Double) returns (r: Result<Double, Error>)
      modifies this
      ensures number.NaN? ==> r == Failure(InvalidInputException("Number cannot be NaN"))
      ensures Less(number, ZERO) ==> r == Failure(InvalidInputException(
        "Cannot calculate square root of negative number: " + jdk.valueOf(number)))
      ensures r.Success? <==> !number.NaN? && !Less(number, ZERO)
      ensures r.Success? ==> (r.value == jdk.sqrt(number)
        && history == old(history)
           + ["\U{221A}" + jdk.valueOf(number) + " = " + FormatResultAsWritten(jdk, r.value)])
      ensures r.Failure? ==> history == old(history)
      ensures memory == old(memory)
    {
      var check := ValidateInput(number, "Number");
      if check.Fail? {
        assert "Number" + " cannot be NaN" == "Number cannot be NaN";
        return Failure(check.error);
      }
      if Less(number, ZERO) {
        return Failure(InvalidInputException(
          "Cannot calculate square root of negative number: " + jdk.valueOf(number)));
      }
      var result := jdk.sqrt(number);
      LogCalculation("\U{221A}" + jdk.valueOf(number) + " = " + FormatResultAsWritten(jdk, result));
      return Success(result);
    }

    /** (number * percent) / 100, logged as "percent% of number = result". */
    method Percentage(number: Double, percent: Double) returns (r: Result<Double, Error>)
      modifies this
      ensures var check := ValidateBoth(number, "Number", percent, "Percent");
        r == if check.Fail? then Failure(check.error) else Success(jdk.quotient(jdk.times(number, percent), Finite(100.0)))
      ensures r.Success? ==> history == old(history) + [jdk.valueOf(percent) + "% of "
        + jdk.valueOf(number) + " = " + FormatResultAsWritten(jdk, r.value)]
      ensures r.Failure? ==> history == old(history)
      ensures memory == old(memory)
    {
      var check := ValidateBoth(number, "Number", percent, "Percent");
      if check.Fail? {
        return Failure(check.error);
      }
      var result := jdk.quotient(jdk.times(number, percent), Finite(100.0));
      LogCalculation(jdk.valueOf(percent) + "% of " + jdk.valueOf(number) + " = "
        + FormatResultAsWritten(jdk, result));
      return Success(result);
    }

    /** Math.abs, logged as "|number| = result"; the result is never negative. */
    method Absolute(number: Double) returns (r: Result<Double, Error>)
      modifies this
      ensures number.NaN? <==> r == Failure(InvalidInputException("Number cannot be NaN"))
      ensures r.Success? <==> !number.NaN?
      ensures r.Success? ==> r.value == Abs(number) && !Less(r.value, ZERO)
      ensures r.Success? ==>
        history == old(history) + [AbsoluteEntry(jdk, number, r.value)]
      ensures r.Failure? ==> history == old(history)
      ensures memory == old(memory)
    {
      var check := ValidateInput(number, "Number");
      if check.Fail? {
        assert "Number" + " cannot be NaN" == "Number cannot be NaN";
        return Failure(check.error);
      }
      var result := Abs(number);
      LogCalculation(AbsoluteEntry(jdk, number, result));
      return Success(result);
    }

    /** number! for 0 <= number <= 20, computed by the loop over 2..number, logged as
        "number! = result". */
    method Factorial(number: Int32) returns (r: Result<int, Error>)
      modifies this
      ensures number < 0 ==> r == Failure(InvalidInputException(
        "Factorial is not defined for negative numbers: " + IntText(number)))
      ensures number > 20 ==> r == Failure(InvalidInputException(
        "Factorial calculation would overflow for number: " + IntText(number)))
      ensures 0 <= number <= 20 ==> r == Success(Fact(number)) && r.value <= LONG_MAX
      ensures r.Success? ==> history == old(history) + [IntText(number) + "! = " + IntText(r.value)]
      ensures r.Failure? ==> history == old(history)
      ensures memory == old(memory)
    {
      if number < 0 {
        return Failure(InvalidInputException(
          "Factorial is not defined for negative numbers: " + IntText(number)));
      }
      if number > 20 {
        return Failure(InvalidInputException(
          "Factorial calculation would overflow for number: " + IntText(number)));
      }
      var result := 1;
      var i := 2;
      while i <= number
        invariant 2 <= i <= if number < 2 then 2 else number + 1
        invariant result == Fact(i - 1)
      {
        assert Fact(i) == i * Fact(i - 1);
        result := result * i;
        i := i + 1;
      }
      FactorialFits(number);
      LogCalculation(IntText(number) + "! = " + IntText(result));
      return Success(result);
    }

    /** memoryStore: a NaN value is rejected and leaves the memory as it was. */
    method MemoryStore(value: Double) returns (o: Outcome<Error>)
      modifies this
      ensures o == ValidateInput(value, "Memory value")
      ensures memory == if o.Pass? then value else old(memory)
      ensures history == old(history)
    {
      o := ValidateInput(value, "Memory value");
      if o.Pass? {
        memory := value;
      }
    }

    /** memoryRecall */
    function MemoryRecall(): (d: Double)
      reads this
      ensures d == memory
    {
      memory
    }

    /** memoryClear: the memory is zero again. */
    method MemoryClear()
      modifies this
      ensures memory == ZERO && history == old(history)
    {
      memory := ZERO;
    }

    /** memoryAdd: the value is added to the memory unless it is NaN. */
    method MemoryAdd(value: Double) returns (o: Outcome<Error>)
      modifies this
      ensures o == ValidateInput(value, "Memory add value")
      ensures memory == if o.Pass? then jdk.plus(old(memory), value) else old(memory)
      ensures history == old(history)
    {
      o := ValidateInput(value, "Memory add value");
      if o.Pass? {
        memory := jdk.plus(memory, value);
      }
    }

    /** getHistory: a copy, which later calculations do not change. */
    function GetHistory(): (h: seq<string>)
      reads this
      ensures h == history
    {
      history
    }

    /** clearHistory */
    method ClearHistory()
      modifies this
      ensures history == [] && memory == old(memory)
    {
      history := [];
    }

    /** getLastCalculation: the latest entry, or null when there is none. */
    function GetLastCalculation(): (last: Option<string>)
      reads this
      ensures last.None? <==> history == []
      ensures last.Some? ==> last.value == history[|history| - 1]
    {
      if history == [] then None else Some(history[|history| - 1])
    }

    /** round: a negative number of places is rejected; otherwise the result is whatever
        jdk.halfUp gives for the value's decimal text (with the real JDK's BigDecimal, a
        NumberFormatException for NaN and the infinities). */
    function Round(value: Double, places: Int32): (r: Result<Double, Error>)
      ensures places < 0 <==> r == Failure(InvalidInputException(
        "Decimal places cannot be negative: " + IntText(places)))
      ensures places >= 0 ==> match jdk.halfUp(value, places)
        case Success(d) => r == Success(d)
        case Failure(m) => r == Failure(NumberFormatException(m))
    {
      if places < 0 then
        Failure(InvalidInputException("Decimal places cannot be negative: " + IntText(places)))
      else
        match jdk.halfUp(value, places)
        case Success(d) => Success(d)
        case Failure(m) => Failure(NumberFormatException(m))
    }

    /** toString */
    function ToString(): (s: string)
      reads this
      ensures s == "Calculator[ready for operations, memory=" + FormatResultAsWritten(jdk, memory)
                   + ", history entries=" + IntText(|history|) + "]"
      ensures memory == ZERO && history == [] ==>
        s == "Calculator[ready for operations, memory=0, history entries=0]"
    {
      "Calculator[ready for operations, memory=" + FormatResultAsWritten(jdk, memory)
        + ", history entries=" + IntText(|history|) + "]"
    }
  }
}
