/** The two pieces of java.lang.String behaviour the profile service relies on:
    `trim()` (used to decide whether a field is blank) and the decimal rendering of
    an `int` inside a string concatenation. */
module Strings {

  /** `String.trim` treats every character whose code is at most U+0020 as space. */
  predicate IsSpace(c: char) {
    c <= ' '
  }

  /** Every character of `s` is space, so `s.trim()` is empty. */
  predicate AllSpace(s: string) {
    forall i :: 0 <= i < |s| ==> IsSpace(s[i])
  }

  /** Drops the leading space characters: the result is a suffix of `s` whose first
      character, if any, is not space. */
  function TrimLeading(s: string): (r: string)
    ensures |r| <= |s| && r == s[|s| - |r|..]
    ensures forall i :: 0 <= i < |s| - |r| ==> IsSpace(s[i])
    ensures r != [] ==> !IsSpace(r[0])
  {
    if s != [] && IsSpace(s[0]) then TrimLeading(s[1..]) else s
  }

  /** Drops the trailing space characters: the result is a prefix of `s` whose last
      character, if any, is not space. */
  function TrimTrailing(s: string): (r: string)
    ensures |r| <= |s| && r == s[..|r|]
    ensures forall i :: |r| <= i < |s| ==> IsSpace(s[i])
    ensures r != [] ==> !IsSpace(r[|r| - 1])
  {
    if s != [] && IsSpace(s[|s| - 1]) then TrimTrailing(s[..|s| - 1]) else s
  }

  /** `s.trim()`: the slice of `s` left once the space characters at both ends are
      cut off; empty exactly when `s` is all space, and otherwise starting and ending
      with a non-space character. */
  function Trim(s: string): (r: string)
    ensures exists a, b :: 0 <= a <= b <= |s| && r == s[a..b] && AllSpace(s[..a]) && AllSpace(s[b..])
    ensures r == [] <==> AllSpace(s)
    ensures r != [] ==> !IsSpace(r[0]) && !IsSpace(r[|r| - 1])
    ensures |r| <= |s|
  {
    var lead := TrimLeading(s);
    var r := TrimTrailing(lead);
    assert r == [] ==> AllSpace(lead);
    var a := |s| - |lead|;
    var b := a + |r|;
    assert r == s[a..b];
    assert AllSpace(s[b..]) by {
      forall i | 0 <= i < |s| - b ensures IsSpace(s[b..][i]) {
        assert s[b..][i] == lead[|r| + i];
      }
    }
    r
  }

  predicate IsDigit(c: char) {
    '0' <= c <= '9'
  }

  function DigitChar(d: nat): (c: char)
    requires d < 10
    ensures IsDigit(c)
  {
    ('0' as int + d) as char
  }

  function DigitValue(c: char): (d: nat)
    requires IsDigit(c)
    ensures d < 10
  {
    c as int - '0' as int
  }

  /** Decimal rendering of a non-negative `int`, as `"" + n` produces it in Java:
      digits only, and no leading zero unless the number is zero. */
  function NatToString(n: nat): (s: string)
    ensures |s| > 0
    ensures forall i :: 0 <= i < |s| ==> IsDigit(s[i])
    ensures s[0] == '0' ==> n == 0
    decreases n
  {
    if n < 10 then [DigitChar(n)] else NatToString(n / 10) + [DigitChar(n % 10)]
  }

  /** The value of a string of decimal digits (the inverse of NatToString). */
  function ParseNat(s: string): nat
    requires forall i :: 0 <= i < |s| ==> IsDigit(s[i])
  {
    if s == [] then 0 else ParseNat(s[..|s| - 1]) * 10 + DigitValue(s[|s| - 1])
  }

  /** Reading back the rendered digits gives the number. */
  lemma {:induction false} ParseNatToString(n: nat)
    ensures ParseNat(NatToString(n)) == n
    decreases n
  {
    var s := NatToString(n);
    if n >= 10 {
      ParseNatToString(n / 10);
      assert s[..|s| - 1] == NatToString(n / 10);
    }
  }
}
