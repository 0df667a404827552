/** Decimal text of Java integers: Long.toString / String.valueOf(int) and
    Integer.parseInt / Long.parseLong, on ASCII digits. Java's int and long are
    ranges of the unbounded int here; a parse that leaves its range fails, as
    the Java methods throw NumberFormatException. */
module Numerals {
  import opened Wrappers
  import opened JavaText
  import Grammar

  const INT_MIN: int := -0x8000_0000
  const INT_MAX: int := 0x7fff_ffff
  const LONG_MIN: int := -0x8000_0000_0000_0000
  const LONG_MAX: int := 0x7fff_ffff_ffff_ffff

  /** A value of Java's int type. */
  type Int32 = n: int | INT_MIN <= n <= INT_MAX

  predicate AllDigits(s: string) {
    forall k :: 0 <= k < |s| ==> IsDigit(s[k])
  }

  function DigitValue(c: char): (d: nat)
    requires IsDigit(c)
    ensures d < 10
  {
    c as int - '0' as int
  }

  function DigitChar(d: nat): (c: char)
    requires d < 10
    ensures IsDigit(c) && DigitValue(c) == d
  {
    ('0' as int + d) as char
  }

  /** The value of a string of decimal digits, most significant first. */
  function DigitsValue(s: string): nat
    requires AllDigits(s)
  {
    if s == [] then 0 else DigitsValue(s[..|s| - 1]) * 10 + DigitValue(s[|s| - 1])
  }

  /** The decimal digits of n, without leading zeros. */
  function NatText(n: nat): (s: string)
    ensures |s| > 0 && AllDigits(s)
    ensures s[0] == '0' ==> n == 0
  {
    if n < 10 then [DigitChar(n)] else NatText(n / 10) + [DigitChar(n % 10)]
  }

  /** Long.toString(n), Integer.toString(n), and n as it appears in string concatenation. */
  function IntText(n: int): (s: string)
    ensures |s| > 0
  {
    if n < 0 then "-" + NatText(-n) else NatText(n)
  }

  /** The text is [+-]?digits: the shape Integer.parseInt and Long.parseLong accept. */
  predicate IsSignedDigits(s: string) {
    |s| > 0 && (if Grammar.IsSign(s[0]) then |s| > 1 && AllDigits(s[1..]) else AllDigits(s))
  }

  /** The value of a [+-]?digits text. */
  function SignedValue(s: string): int
    requires IsSignedDigits(s)
  {
    if s[0] == '-' then 0 - DigitsValue(s[1..])
    else if s[0] == '+' then DigitsValue(s[1..])
    else DigitsValue(s)
  }

  /** Integer.parseInt(s) with lo, hi the int range, or Long.parseLong(s) with the
      long range: None where Java throws NumberFormatException. */
  function ParseSigned(s: string, lo: int, hi: int): (r: Option<int>)
    ensures r.Some? <==> IsSignedDigits(s) && lo <= SignedValue(s) <= hi
    ensures r.Some? ==> r.value == SignedValue(s) && lo <= r.value <= hi
  {
    if |s| == 0 then None
    else
      var start := if Grammar.IsSign(s[0]) then 1 else 0;
      var digits := s[start..];
      if digits == [] || !AllDigits(digits) then None
      else
        assert start == 0 ==> digits == s;
        var v: int := if s[0] == '-' then 0 - DigitsValue(digits) else DigitsValue(digits);
        if lo <= v <= hi then Some(v) else None
  }

  // ---------------------------------------------------------------------------

  lemma {:induction false} NatTextValue(n: nat)
    ensures DigitsValue(NatText(n)) == n
  {
    if n >= 10 {
      var s := NatText(n);
      NatTextValue(n / 10);
      assert s[..|s| - 1] == NatText(n / 10);
    }
  }

  /** Reading back the text of n gives n, for every n in the range read. */
  lemma ParseIntText(n: int, lo: int, hi: int)
    requires lo <= n <= hi
    ensures ParseSigned(IntText(n), lo, hi) == Some(n)
  {
    var s := IntText(n);
    if n < 0 {
      assert s[1..] == NatText(-n);
      NatTextValue(-n);
    } else {
      NatTextValue(n);
    }
  }

  /** The [+-]?digits shape is INTEGER_PATTERN. */
  lemma SignedDigitsIsInteger(s: string)
    ensures IsSignedDigits(s) <==> Grammar.Integer(s)
  {
    if IsSignedDigits(s) {
      var a := if Grammar.IsSign(s[0]) then 1 else 0;
      assert forall k :: a <= k < |s| ==> IsDigit(s[k]) by {
        if a == 1 {
          assert forall k :: 1 <= k < |s| ==> s[k] == s[1..][k - 1];
        }
      }
      assert Grammar.OptSignIn(s, 0, a) && Grammar.DigitsIn(s, a, |s|);
    }
    if Grammar.Integer(s) {
      var a :| Grammar.OptSignIn(s, 0, a) && Grammar.DigitsIn(s, a, |s|);
      assert a == 1 ==> forall k :: 0 <= k < |s| - 1 ==> s[1..][k] == s[k + 1];
    }
  }

  /** Values beyond the range are rejected, in both directions. */
  lemma ParseOutOfRange(s: string, lo: int, hi: int)
    requires IsSignedDigits(s) && !(lo <= SignedValue(s) <= hi)
    ensures ParseSigned(s, lo, hi) == None
  {
  }

  /** Signs and leading zeros are read as Java reads them. */
  lemma ParseExamples()
    ensures ParseSigned("+007", INT_MIN, INT_MAX) == Some(7)
    ensures ParseSigned("-", INT_MIN, INT_MAX) == None
    ensures ParseSigned(" 1", INT_MIN, INT_MAX) == None
  {
    assert DigitsValue("007") == 7 by {
      assert "007"[..2] == "00" && "00"[..1] == "0";
    }
  }

  /** One past the int range is rejected by Integer.parseInt and accepted by Long.parseLong. */
  lemma ParseIntEdge()
    ensures ParseSigned("2147483648", INT_MIN, INT_MAX) == None
    ensures ParseSigned("2147483648", LONG_MIN, LONG_MAX) == Some(INT_MAX + 1)
  {
    assert NatText(2) == "2";
    assert NatText(21) == "21";
    assert NatText(214) == "214";
    assert NatText(2147) == "2147";
    assert NatText(21474) == "21474";
    assert NatText(214748) == "214748";
    assert NatText(2147483) == "2147483";
    assert NatText(21474836) == "21474836";
    assert NatText(214748364) == "214748364";
    assert IntText(INT_MAX + 1) == "2147483648";
    ParseIntText(INT_MAX + 1, LONG_MIN, LONG_MAX);
  }
}
