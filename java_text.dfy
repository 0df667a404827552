/** The java.lang.String and java.lang.Character behaviour the calculator relies on:
    trim(), the regular-expression class \s, ASCII digits, lower-casing and contains(). */
module JavaText {

  /** A character that String.trim() strips from either end: every code point up to U+0020. */
  predicate IsTrimmable(c: char) {
    c <= ' '
  }

  /** A character of the regular-expression class \s: [ \t\n\x0B\f\r]. */
  predicate IsRegexSpace(c: char) {
    c == ' ' || c == '\t' || c == '\n' || c == '\U{000B}' || c == '\U{000C}' || c == '\r'
  }

  /** A character of the regular-expression class \d (ASCII digits only, Java's default). */
  predicate IsDigit(c: char) {
    '0' <= c <= '9'
  }

  predicate AllTrimmable(s: string) {
    forall k :: 0 <= k < |s| ==> IsTrimmable(s[k])
  }

  /** Number of trimmable characters at the front of s. */
  function LeadingTrimmable(s: string): (n: nat)
    ensures n <= |s| && AllTrimmable(s[..n])
    ensures n < |s| ==> !IsTrimmable(s[n])
    decreases |s|
  {
    if |s| > 0 && IsTrimmable(s[0]) then
      var n := 1 + LeadingTrimmable(s[1..]);
      assert s[..n] == [s[0]] + s[1..][..n - 1];
      n
    else 0
  }

  /** Number of trimmable characters at the back of s. */
  function TrailingTrimmable(s: string): (n: nat)
    ensures n <= |s| && forall k :: |s| - n <= k < |s| ==> IsTrimmable(s[k])
    ensures n < |s| ==> !IsTrimmable(s[|s| - n - 1])
    decreases |s|
  {
    if |s| > 0 && IsTrimmable(s[|s| - 1]) then 1 + TrailingTrimmable(s[..|s| - 1]) else 0
  }

  /** String.trim(): s without its leading and trailing characters up to U+0020. */
  function Trim(s: string): (r: string)
    ensures |r| <= |s|
    ensures exists i :: TrimmedAt(s, r, i)
    ensures r == [] || (!IsTrimmable(r[0]) && !IsTrimmable(r[|r| - 1]))
    ensures r == [] <==> AllTrimmable(s)
  {
    var i := LeadingTrimmable(s);
    var rest := s[i..];
    var r := rest[..|rest| - TrailingTrimmable(rest)];
    assert s[i..i + |r|] == r;
    assert s[i + |r|..] == rest[|r|..];
    assert AllTrimmable(rest[|r|..]) by {
      forall k | 0 <= k < |rest| - |r| ensures IsTrimmable(rest[|r|..][k]) {
        assert rest[|r|..][k] == rest[|r| + k];
      }
    }
    assert TrimmedAt(s, r, i);
    assert AllTrimmable(s) ==> i == |s|;
    assert i < |s| ==> !IsTrimmable(rest[0]);
    assert r == [] ==> s[..i] == s;
    r
  }

  /** r is the middle of s starting at index i, and everything around it is trimmable. */
  ghost predicate TrimmedAt(s: string, r: string, i: int) {
    0 <= i && i + |r| <= |s| && s[i..i + |r|] == r && AllTrimmable(s[..i]) && AllTrimmable(s[i + |r|..])
  }

  /** A character above U+0020 survives trim() wherever it stands in s. */
  lemma {:induction false} TrimKeeps(s: string, c: char)
    requires c in s && !IsTrimmable(c)
    ensures c in Trim(s)
  {
    var r := Trim(s);
    var i :| TrimmedAt(s, r, i);
    var k :| 0 <= k < |s| && s[k] == c;
    assert forall j :: 0 <= j < i ==> s[j] == s[..i][j];
    assert forall j :: i + |r| <= j < |s| ==> s[j] == s[i + |r|..][j - i - |r|];
    assert r[k - i] == c;
  }

  /** Text that starts and ends with a visible character is its own trim. */
  lemma TrimInner(s: string)
    requires |s| > 0 && !IsTrimmable(s[0]) && !IsTrimmable(s[|s| - 1])
    ensures Trim(s) == s
  {
    assert LeadingTrimmable(s) == 0;
    assert TrailingTrimmable(s) == 0;
  }

  /** String.toLowerCase() on the ASCII letters A-Z; every other character is kept. */
  function ToLowerAscii(s: string): (r: string)
    ensures |r| == |s|
    ensures forall k :: 0 <= k < |s| ==> r[k] == LowerAscii(s[k])
  {
    seq(|s|, k requires 0 <= k < |s| => LowerAscii(s[k]))
  }

  function LowerAscii(c: char): (d: char)
    ensures !('A' <= d <= 'Z')
    ensures !('A' <= c <= 'Z') ==> d == c
  {
    if 'A' <= c <= 'Z' then (c as int + 32) as char else c
  }

  /** q occurs in s starting at index i. */
  predicate OccursAt(s: string, q: string, i: int) {
    0 <= i && i + |q| <= |s| && s[i..i + |q|] == q
  }

  /** String.contains(q): scans s from the left for an occurrence of q. */
  function Contains(s: string, q: string): (b: bool)
    ensures b <==> exists i :: OccursAt(s, q, i)
    decreases |s|
  {
    if |q| <= |s| && s[..|q|] == q then
      assert OccursAt(s, q, 0);
      true
    else if s == [] then
      false
    else
      var b := Contains(s[1..], q);
      if b then
        var i :| OccursAt(s[1..], q, i);
        assert OccursAt(s, q, i + 1) by { assert s[i + 1..i + 1 + |q|] == s[1..][i..i + |q|]; }
        true
      else
        forall i | OccursAt(s, q, i) ensures false {
          assert i != 0;
          assert s[1..][i - 1..i - 1 + |q|] == s[i..i + |q|];
          assert OccursAt(s[1..], q, i - 1);
        }
        false
  }
}
