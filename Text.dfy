/**
 * Character- and string-level helpers that stand for the JavaScript
 * built-ins the screens use: `\s` and `String.prototype.trim`, `String(n)`
 * for a non-negative integer, `padStart(2, '0')` and a case-insensitive
 * regular-expression test for a literal pattern.
 */
module Text {

  /** ECMAScript WhiteSpace and LineTerminator code points: what `\s` and `trim()` recognise. */
  predicate IsJsSpace(c: char)
  {
    c == '\t' || c == '\n' || c == '\U{000B}' || c == '\U{000C}' || c == '\r' || c == ' ' ||
    c == '\U{00A0}' || c == '\U{1680}' || ('\U{2000}' <= c <= '\U{200A}') ||
    c == '\U{2028}' || c == '\U{2029}' || c == '\U{202F}' || c == '\U{205F}' ||
    c == '\U{3000}' || c == '\U{FEFF}'
  }

  function TrimStart(s: string): (r: string)
    ensures |r| <= |s| && r == s[|s| - |r|..]
    ensures r == [] || !IsJsSpace(r[0])
    ensures forall i :: 0 <= i < |s| - |r| ==> IsJsSpace(s[i])
  {
    if s != [] && IsJsSpace(s[0]) then TrimStart(s[1..]) else s
  }

  function TrimEnd(s: string): (r: string)
    ensures |r| <= |s| && r == s[..|r|]
    ensures r == [] || !IsJsSpace(r[|r| - 1])
    ensures forall i :: |r| <= i < |s| ==> IsJsSpace(s[i])
  {
    if s != [] && IsJsSpace(s[|s| - 1]) then TrimEnd(s[..|s| - 1]) else s
  }

  /** `r` occurs in `s` starting at position `k`. */
  predicate InfixAt(r: string, s: string, k: int)
  {
    0 <= k && k + |r| <= |s| && r == s[k..k + |r|]
  }

  /** `r` is `s` with white space, and only white space, removed at both ends, `r` starting at `k`. */
  predicate TrimmedAt(r: string, s: string, k: int)
  {
    && InfixAt(r, s, k)
    && (forall i :: 0 <= i < k ==> IsJsSpace(s[i]))
    && (forall i :: k + |r| <= i < |s| ==> IsJsSpace(s[i]))
  }

  /**
   * `s.trim()`: the infix of `s` left after removing white space at both
   * ends; it neither starts nor ends with white space.
   */
  function Trim(s: string): (r: string)
    ensures exists k :: TrimmedAt(r, s, k)
    ensures r == [] || (!IsJsSpace(r[0]) && !IsJsSpace(r[|r| - 1]))
  {
    var t := TrimStart(s);
    var r := TrimEnd(t);
    assert TrimmedAt(r, s, |s| - |t|) by {
      forall i | |s| - |t| + |r| <= i < |s|
        ensures IsJsSpace(s[i])
      {
        assert s[i] == t[i - (|s| - |t|)];
      }
    }
    r
  }

  predicate IsDigit(c: char)
  {
    '0' <= c <= '9'
  }

  predicate AllDigits(s: string)
  {
    forall i :: 0 <= i < |s| ==> IsDigit(s[i])
  }

  function DigitChar(d: nat): (c: char)
    requires d < 10
    ensures IsDigit(c) && (c as int) - ('0' as int) == d
  {
    ('0' as int + d) as char
  }

  function DigitValue(c: char): (d: nat)
    requires IsDigit(c)
    ensures d < 10 && DigitChar(d) == c
  {
    (c as int) - ('0' as int)
  }

  /** `String(n)` for an integer `n >= 0`: decimal digits, no leading zero. */
  function Decimal(n: nat): (s: string)
    ensures 1 <= |s| && AllDigits(s)
    ensures |s| > 1 ==> s[0] != '0'
    ensures n < 10 <==> |s| == 1
  {
    if n < 10 then [DigitChar(n)] else Decimal(n / 10) + [DigitChar(n % 10)]
  }

  /** The number a string of decimal digits denotes (the reading a user makes of `Decimal`). */
  function DigitsValue(s: string): nat
    requires AllDigits(s)
  {
    if s == [] then 0 else 10 * DigitsValue(s[..|s| - 1]) + DigitValue(s[|s| - 1])
  }

  lemma {:induction false} DecimalRoundTrip(n: nat)
    ensures DigitsValue(Decimal(n)) == n
  {
    var s := Decimal(n);
    if n >= 10 {
      assert s[..|s| - 1] == Decimal(n / 10);
      DecimalRoundTrip(n / 10);
    }
  }

  lemma DecimalInjective(m: nat, n: nat)
    requires Decimal(m) == Decimal(n)
    ensures m == n
  {
    DecimalRoundTrip(m);
    DecimalRoundTrip(n);
  }

  /** A leading zero does not change the value of a digit string. */
  lemma {:induction false} LeadingZero(s: string)
    requires AllDigits(s)
    ensures AllDigits("0" + s) && DigitsValue("0" + s) == DigitsValue(s)
  {
    if s != [] {
      assert ("0" + s)[..|"0" + s| - 1] == "0" + s[..|s| - 1];
      LeadingZero(s[..|s| - 1]);
    }
  }

  /** `s.padStart(2, '0')`. */
  function PadStart2(s: string): (r: string)
    ensures |r| == if |s| < 2 then 2 else |s|
    ensures r[|r| - |s|..] == s
    ensures forall i :: 0 <= i < |r| - |s| ==> r[i] == '0'
  {
    if |s| >= 2 then s else if |s| == 1 then "0" + s else "00"
  }

  lemma PadStart2Value(s: string)
    requires AllDigits(s)
    ensures AllDigits(PadStart2(s)) && DigitsValue(PadStart2(s)) == DigitsValue(s)
  {
    if |s| == 1 {
      LeadingZero(s);
    } else if s == [] {
      LeadingZero("0");
    }
  }

  function AsciiLower(c: char): (l: char)
    ensures 'A' <= c <= 'Z' ==> l as int == c as int + 32
    ensures !('A' <= c <= 'Z') ==> l == c
  {
    if 'A' <= c <= 'Z' then (c as int + 32) as char else c
  }

  /** `pat` occurs in `s` at position `i`, letters compared without regard to case. */
  predicate MatchAt(s: string, pat: string, i: int)
  {
    0 <= i && i + |pat| <= |s| &&
    forall j :: 0 <= j < |pat| ==> AsciiLower(s[i + j]) == AsciiLower(pat[j])
  }

  /**
   * `/pat/i.test(s)` for a pattern without metacharacters. Without the `u`
   * flag, JavaScript folds case only where both sides are ASCII, so ASCII
   * folding is the whole rule for an ASCII pattern.
   */
  predicate ContainsIgnoreCase(s: string, pat: string): (b: bool)
    ensures b ==> |pat| <= |s|
    ensures pat == [] ==> b
  {
    assert pat == [] ==> MatchAt(s, pat, 0);
    exists i | 0 <= i <= |s| :: MatchAt(s, pat, i)
  }

  /** `s` with every ASCII capital replaced by its small letter. */
  function LowerAll(s: string): (r: string)
    ensures |r| == |s|
  {
    seq(|s|, i requires 0 <= i < |s| => AsciiLower(s[i]))
  }

  /**
   * The case-blind comparison at `k` is the exact comparison of both texts
   * lower-cased.
   */
  lemma MatchAtLowered(s: string, pat: string, k: int)
    ensures MatchAt(s, pat, k) <==> InfixAt(LowerAll(pat), LowerAll(s), k)
  {
    if MatchAt(s, pat, k) {
      assert LowerAll(pat) == LowerAll(s)[k..k + |pat|];
    }
    if InfixAt(LowerAll(pat), LowerAll(s), k) {
      forall j | 0 <= j < |pat|
        ensures AsciiLower(s[k + j]) == AsciiLower(pat[j])
      {
        assert LowerAll(pat)[j] == LowerAll(s)[k..k + |pat|][j];
      }
    }
  }

  /** `ContainsIgnoreCase` finds exactly the occurrences of the lower-cased pattern in the lower-cased text. */
  lemma ContainsIgnoreCaseLowered(s: string, pat: string)
    ensures ContainsIgnoreCase(s, pat) <==>
      exists k | 0 <= k <= |s| :: InfixAt(LowerAll(pat), LowerAll(s), k)
  {
    forall k ensures MatchAt(s, pat, k) <==> InfixAt(LowerAll(pat), LowerAll(s), k) {
      MatchAtLowered(s, pat, k);
    }
  }

  /** An occurrence spelt exactly as the pattern is found. */
  lemma ExactOccurrenceFound(s: string, pat: string, k: int)
    requires InfixAt(pat, s, k)
    ensures ContainsIgnoreCase(s, pat)
  {
    forall j | 0 <= j < |pat|
      ensures AsciiLower(s[k + j]) == AsciiLower(pat[j])
    {
      assert pat[j] == s[k..k + |pat|][j];
    }
    assert MatchAt(s, pat, k);
  }
}
