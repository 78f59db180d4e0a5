/**
 * The string primitives the downloader relies on: Python's substring test
 * `sub in s`, `str.lower()` restricted to ASCII letters, and the decimal
 * rendering behind the format specification `{n:02d}`.
 */
module Text {

  /** Python's `sub in s`: `sub` occurs somewhere in `s` (the empty string occurs everywhere). */
  predicate Contains(s: string, sub: string) {
    exists i | 0 <= i <= |s| - |sub| :: OccursAt(s, sub, i)
  }

  /** `sub` occurs in `s` starting at index `i`. */
  predicate OccursAt(s: string, sub: string, i: int) {
    0 <= i <= |s| - |sub| && s[i..i + |sub|] == sub
  }

  lemma ContainsPrefix(p: string, s: string)
    ensures Contains(p + s, p)
  {
    assert (p + s)[0..|p|] == p;
    assert OccursAt(p + s, p, 0);
  }

  /** A substring of the right-hand part is still a substring after something is prepended. */
  lemma ContainsAfterPrefix(p: string, s: string, sub: string)
    requires Contains(s, sub)
    ensures Contains(p + s, sub)
  {
    var i :| 0 <= i <= |s| - |sub| && OccursAt(s, sub, i);
    assert (p + s)[|p| + i..|p| + i + |sub|] == s[i..i + |sub|];
    assert OccursAt(p + s, sub, |p| + i);
  }

  /** `str.lower()` on one character, for the ASCII range. */
  function LowerChar(c: char): (lc: char) {
    if 'A' <= c <= 'Z' then (c as int + 32) as char else c
  }

  /** `str.lower()`, mapping each ASCII upper-case letter to lower case and leaving every other character alone. */
  function Lower(s: string): (r: string)
    ensures |r| == |s|
    ensures forall i | 0 <= i < |s| :: r[i] == LowerChar(s[i])
  {
    seq(|s|, i requires 0 <= i < |s| => LowerChar(s[i]))
  }

  /** Lower-casing works character by character, so it distributes over concatenation. */
  lemma LowerAppend(a: string, b: string)
    ensures Lower(a + b) == Lower(a) + Lower(b)
  {
    assert forall i | 0 <= i < |a + b| :: Lower(a + b)[i] == (Lower(a) + Lower(b))[i];
  }

  predicate IsDigit(c: char) {
    '0' <= c <= '9'
  }

  predicate AllDigits(s: string) {
    forall i | 0 <= i < |s| :: IsDigit(s[i])
  }

  function DigitChar(d: nat): (c: char)
    requires d < 10
    ensures IsDigit(c) && c as int - '0' as int == d
  {
    ('0' as int + d) as char
  }

  /** `str(n)` for a non-negative integer: its decimal digits, without leading zeros. */
  function Decimal(n: nat): (r: string)
    ensures 1 <= |r| && AllDigits(r)
    ensures n < 10 <==> |r| == 1
    ensures 10 <= n < 100 ==> |r| == 2
    decreases n
  {
    if n < 10 then [DigitChar(n)] else Decimal(n / 10) + [DigitChar(n % 10)]
  }

  /** The number a string of decimal digits denotes: the inverse of `Decimal`. */
  function DigitsValue(s: string): (n: nat)
    requires AllDigits(s)
    decreases |s|
  {
    if s == [] then 0 else DigitsValue(s[..|s| - 1]) * 10 + (s[|s| - 1] as int - '0' as int)
  }

  lemma {:induction false} DecimalRoundTrip(n: nat)
    ensures DigitsValue(Decimal(n)) == n
    decreases n
  {
    if n >= 10 {
      var s := Decimal(n);
      assert s == Decimal(n / 10) + [DigitChar(n % 10)];
      assert s[..|s| - 1] == Decimal(n / 10);
      DecimalRoundTrip(n / 10);
    }
  }

  /** A leading `0` does not change the number a digit string denotes. */
  lemma {:induction false} LeadingZero(s: string)
    requires AllDigits(s)
    ensures AllDigits("0" + s) && DigitsValue("0" + s) == DigitsValue(s)
    decreases |s|
  {
    var t := "0" + s;
    assert AllDigits(t) by {
      assert forall i | 1 <= i < |t| :: t[i] == s[i - 1];
    }
    if s != [] {
      assert t[..|t| - 1] == "0" + s[..|s| - 1];
      assert t[|t| - 1] == s[|s| - 1];
      LeadingZero(s[..|s| - 1]);
    }
  }

  /** Text of an optionally negative integer: an optional `-` followed by decimal digits. */
  predicate IsIntText(s: string) {
    if |s| > 0 && s[0] == '-' then |s| >= 2 && AllDigits(s[1..]) else |s| >= 1 && AllDigits(s)
  }

  function SignedValue(s: string): (n: int)
    requires IsIntText(s)
  {
    if s[0] == '-' then -(DigitsValue(s[1..]) as int) else DigitsValue(s)
  }

  /**
   * Python's `f"{n:02d}"`: the decimal rendering of `n`, zero-filled after the
   * sign to a width of at least two characters. A negative `n` already has two
   * characters (`-` and a digit), so it is never filled.
   */
  function Pad2(n: int): (r: string) {
    if n < 0 then "-" + Decimal(-n)
    else if n < 10 then "0" + Decimal(n)
    else Decimal(n)
  }

  /** `Pad2` is at least two characters wide and reads back as the number it renders; below 100 it is exactly two digits. */
  lemma Pad2RoundTrip(n: int)
    ensures |Pad2(n)| >= 2 && IsIntText(Pad2(n)) && SignedValue(Pad2(n)) == n
    ensures 0 <= n < 100 ==> |Pad2(n)| == 2 && AllDigits(Pad2(n))
  {
    if n < 0 {
      NegativeRoundTrip(-n);
    } else if n < 10 {
      FilledRoundTrip(n);
    } else {
      DecimalRoundTrip(n);
      assert IsDigit(Decimal(n)[0]);
    }
  }

  lemma NegativeRoundTrip(m: nat)
    requires m > 0
    ensures var s := "-" + Decimal(m); |s| >= 2 && IsIntText(s) && SignedValue(s) == -(m as int)
  {
    var s := "-" + Decimal(m);
    assert s[1..] == Decimal(m);
    DecimalRoundTrip(m);
  }

  lemma FilledRoundTrip(n: nat)
    requires n < 10
    ensures var s := "0" + Decimal(n); |s| == 2 && AllDigits(s) && IsIntText(s) && SignedValue(s) == n
  {
    DecimalRoundTrip(n);
    LeadingZero(Decimal(n));
  }
}
