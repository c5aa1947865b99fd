/** The pieces of Python's `str` semantics the scraping code relies on:
    `str.find`, slicing with Python's index normalisation, and `str(int)`. */
module PyStr {

  /** `sub` occurs in `s` starting at index i. */
  predicate OccursAt(s: string, sub: string, i: int)
  {
    0 <= i && i + |sub| <= |s| && s[i..i + |sub|] == sub
  }

  /** `sub` occurs nowhere in `s`. */
  ghost predicate Absent(s: string, sub: string)
  {
    forall i :: !OccursAt(s, sub, i)
  }

  /** i is the first place where `sub` occurs in `s`. */
  ghost predicate FirstAt(s: string, sub: string, i: int)
  {
    OccursAt(s, sub, i) && forall j :: 0 <= j < i ==> !OccursAt(s, sub, j)
  }

  lemma OccursAtShift(s: string, sub: string, i: nat)
    requires |s| > 0
    ensures OccursAt(s, sub, i + 1) <==> OccursAt(s[1..], sub, i)
  {
    if i + 1 + |sub| <= |s| {
      assert s[i + 1..i + 1 + |sub|] == s[1..][i..i + |sub|];
    }
  }

  /** Python's `s.find(sub)`: the lowest index where `sub` starts, or -1. */
  function Find(s: string, sub: string): (r: int)
    ensures r == -1 || FirstAt(s, sub, r)
    ensures r == -1 <==> Absent(s, sub)
    decreases |s|
  {
    if |s| < |sub| then
      -1
    else if s[..|sub|] == sub then
      assert OccursAt(s, sub, 0);
      0
    else
      var k := Find(s[1..], sub);
      assert !OccursAt(s, sub, 0);
      assert forall j :: 0 < j && (k == -1 || j <= k) ==> !OccursAt(s, sub, j) by {
        forall j | 0 < j && (k == -1 || j <= k) ensures !OccursAt(s, sub, j) {
          OccursAtShift(s, sub, j - 1);
        }
      }
      if k == -1 then
        -1
      else
        OccursAtShift(s, sub, k);
        k + 1
  }

  /** A first occurrence is unique, so `Find` returns it. */
  lemma FindIsFirst(s: string, sub: string, i: int)
    requires FirstAt(s, sub, i)
    ensures Find(s, sub) == i
  {
    var r := Find(s, sub);
    assert r != -1;
    assert !(r < i) && !(i < r);
  }

  /** Where a slice bound `i` lands in a string of length n, under
      Python's rules: a negative bound counts from the end, and the result
      is clamped to 0..n. */
  function SliceIndex(i: int, n: nat): (k: nat)
    ensures k <= n
    ensures 0 <= i <= n ==> k == i
    ensures i > n ==> k == n
    ensures i < 0 ==> k == if n + i < 0 then 0 else n + i
  {
    if i < 0 then (if n + i < 0 then 0 else n + i)
    else if i > n then n
    else i
  }

  /** Python's `s[i:]`. */
  function SliceFrom(s: string, i: int): (r: string)
    ensures |r| <= |s| && r == s[|s| - |r|..]
  {
    s[SliceIndex(i, |s|)..]
  }

  /** Python's `s[:j]`. */
  function SliceTo(s: string, j: int): (r: string)
    ensures |r| <= |s| && r == s[..|r|]
  {
    s[..SliceIndex(j, |s|)]
  }

  /** Python's identity `s[:i] + s[i:] == s`, for every integer i. */
  lemma SliceSplit(s: string, i: int)
    ensures SliceTo(s, i) + SliceFrom(s, i) == s
  {
    var k := SliceIndex(i, |s|);
    assert s[..k] + s[k..] == s;
  }

  /** The suffix of s from k on, or the empty string when k is past the end. */
  function Suffix(s: string, k: nat): string
  {
    if k <= |s| then s[k..] else []
  }

  predicate IsDigit(c: char)
  {
    '0' <= c <= '9'
  }

  function DigitChar(d: nat): (c: char)
    requires d < 10
    ensures IsDigit(c) && c as int - '0' as int == d
  {
    (d + '0' as int) as char
  }

  /** Python's `str(n)` for a natural number: its decimal digits. */
  function NatToString(n: nat): (r: string)
    ensures |r| > 0
    ensures forall i :: 0 <= i < |r| ==> IsDigit(r[i])
    decreases n
  {
    if n < 10 then [DigitChar(n)] else NatToString(n / 10) + [DigitChar(n % 10)]
  }

  /** Python's `str(n)` for an integer: a minus sign before the digits of
      a negative number. */
  function IntToString(n: int): (r: string)
    ensures |r| > 0
    ensures n >= 0 <==> IsDigit(r[0])
  {
    if n < 0 then "-" + NatToString(-n) else NatToString(n)
  }

  /** The number a string of decimal digits denotes. */
  function DigitsValue(s: string): nat
    requires forall i :: 0 <= i < |s| ==> IsDigit(s[i])
  {
    if s == [] then 0
    else
      var last := s[|s| - 1];
      assert IsDigit(last);
      DigitsValue(s[..|s| - 1]) * 10 + (last as int - '0' as int)
  }

  /** Reading the digits back gives the number: `int(str(n)) == n`. */
  lemma {:induction false} NatToStringValue(n: nat)
    ensures DigitsValue(NatToString(n)) == n
    decreases n
  {
    var r := NatToString(n);
    if n >= 10 {
      NatToStringValue(n / 10);
      assert r[..|r| - 1] == NatToString(n / 10);
    }
  }

  /** Distinct integers print differently. */
  lemma IntToStringInjective(a: int, b: int)
    requires IntToString(a) == IntToString(b)
    ensures a == b
  {
    if a < 0 && b < 0 {
      var sa, sb := NatToString(-a), NatToString(-b);
      assert sa == IntToString(a)[1..] && sb == IntToString(b)[1..];
      NatToStringValue(-a);
      NatToStringValue(-b);
    } else if a >= 0 && b >= 0 {
      NatToStringValue(a);
      NatToStringValue(b);
    }
  }
}
