/**
 * String helpers shared by the apps: decimal rendering of ids (Python's str(int)),
 * hexadecimal tokens, the last component of str.split(sep) and os.path.join for
 * two POSIX path components.
 */
module Text {

  predicate IsDigit(c: char) { '0' <= c <= '9' }

  predicate IsLowerHex(c: char) { '0' <= c <= '9' || 'a' <= c <= 'f' }

  predicate AllDigits(s: string) { forall i :: 0 <= i < |s| ==> IsDigit(s[i]) }

  predicate AllLowerHex(s: string) { forall i :: 0 <= i < |s| ==> IsLowerHex(s[i]) }

  function DigitChar(d: nat): (c: char)
    requires d < 10
    ensures IsDigit(c) && c as int - '0' as int == d
  {
    (d + '0' as int) as char
  }

  /** Value of a string of decimal digits (the inverse of NatToString). */
  function DigitsValue(s: string): nat
    requires AllDigits(s)
  {
    if s == [] then 0
    else DigitsValue(s[..|s| - 1]) * 10 + (s[|s| - 1] as int - '0' as int)
  }

  /** Python's str(n) for a non-negative int: decimal digits, no leading zero. */
  function NatToString(n: nat): (r: string)
    ensures |r| > 0 && AllDigits(r)
    ensures |r| > 1 ==> r[0] != '0'
    ensures n < 10 <==> |r| == 1
  {
    if n < 10 then [DigitChar(n)] else NatToString(n / 10) + [DigitChar(n % 10)]
  }

  lemma {:induction false} NatToStringRoundTrip(n: nat)
    ensures DigitsValue(NatToString(n)) == n
  {
    if n >= 10 {
      var s := NatToString(n);
      assert s[..|s| - 1] == NatToString(n / 10);
      NatToStringRoundTrip(n / 10);
    }
  }

  /** Distinct numbers print as distinct strings. */
  lemma NatToStringInjective(a: nat, b: nat)
    requires NatToString(a) == NatToString(b)
    ensures a == b
  {
    NatToStringRoundTrip(a);
    NatToStringRoundTrip(b);
  }

  /** Two decimal digits with a leading zero, as strftime's %y, %m, %d, %H, %M, %S. */
  function TwoDigits(n: nat): (r: string)
    requires n < 100
    ensures |r| == 2 && AllDigits(r)
    ensures DigitsValue(r) == n
  {
    var r := [DigitChar(n / 10), DigitChar(n % 10)];
    assert r[..1] == [DigitChar(n / 10)] && [DigitChar(n / 10)][..0] == [];
    assert DigitsValue(r[..1]) == n / 10;
    r
  }

  /**
   * s.split(sep)[-1]: the text after the last occurrence of sep, or all of s
   * when sep does not occur.
   */
  function LastSegment(s: string, sep: char): (r: string)
    ensures |r| <= |s| && r == s[|s| - |r|..]
    ensures sep !in r
    ensures |r| < |s| ==> s[|s| - |r| - 1] == sep
  {
    if s == [] then []
    else if s[|s| - 1] == sep then []
    else
      var init := LastSegment(s[..|s| - 1], sep);
      assert s[..|s| - 1] + [s[|s| - 1]] == s;
      init + [s[|s| - 1]]
  }

  lemma LastSegmentWithoutSep(s: string, sep: char)
    requires sep !in s
    ensures LastSegment(s, sep) == s
  {
  }

  /** os.path.join(a, b) for two components, as POSIX Python computes it. */
  function JoinPath(a: string, b: string): (r: string)
    ensures |b| > 0 && b[0] == '/' ==> r == b
    ensures (|b| == 0 || b[0] != '/') ==> r == a + (if a == [] || a[|a| - 1] == '/' then [] else "/") + b
  {
    if |b| > 0 && b[0] == '/' then b
    else if a == [] || a[|a| - 1] == '/' then a + b
    else a + "/" + b
  }
}
