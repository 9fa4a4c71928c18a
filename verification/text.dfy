/**
 * The string primitives the pages rely on: `toLowerCase`/`toUpperCase`,
 * `includes`, `trim`, `padStart` and `String(n)` for non-negative integers.
 * Case mapping covers ASCII letters only; `trim` uses the full ECMAScript
 * whitespace and line-terminator set.
 */
module Text {

  // ---------------------------------------------------------------- case

  predicate IsUpper(c: char) { 'A' <= c <= 'Z' }

  predicate IsLower(c: char) { 'a' <= c <= 'z' }

  function LowerChar(c: char): char {
    if IsUpper(c) then (c as int + 32) as char else c
  }

  function UpperChar(c: char): char {
    if IsLower(c) then (c as int - 32) as char else c
  }

  /** `s.toLowerCase()`: every ASCII capital replaced by its small letter. */
  function Lower(s: string): (r: string)
    ensures |r| == |s|
    ensures forall i :: 0 <= i < |s| ==> r[i] == LowerChar(s[i])
    ensures forall i :: 0 <= i < |r| ==> !IsUpper(r[i])
  {
    seq(|s|, i requires 0 <= i < |s| => LowerChar(s[i]))
  }

  /** `s.toUpperCase()`: every ASCII small letter replaced by its capital. */
  function Upper(s: string): (r: string)
    ensures |r| == |s|
    ensures forall i :: 0 <= i < |s| ==> r[i] == UpperChar(s[i])
    ensures forall i :: 0 <= i < |r| ==> !IsLower(r[i])
  {
    seq(|s|, i requires 0 <= i < |s| => UpperChar(s[i]))
  }

  /** Lower-casing forgets whether the string was upper-cased first. */
  lemma LowerOfUpper(s: string)
    ensures Lower(Upper(s)) == Lower(s)
  {
  }

  // ----------------------------------------------------------- includes

  predicate IsPrefix(p: string, s: string) {
    |p| <= |s| && s[..|p|] == p
  }

  /** `s.includes(t)`, scanning the start positions of `s` left to right. */
  predicate Includes(s: string, t: string)
    decreases |s|
  {
    IsPrefix(t, s) || (|s| > 0 && Includes(s[1..], t))
  }

  /** Reference meaning of `includes`: `t` is the window of `s` starting at `i`. */
  ghost predicate OccursAt(s: string, t: string, i: int) {
    0 <= i <= |s| - |t| && s[i..i + |t|] == t
  }

  /** The scan finds `t` exactly when `t` occurs somewhere in `s`. */
  lemma {:induction false} IncludesIffOccurs(s: string, t: string)
    ensures Includes(s, t) <==> exists i :: OccursAt(s, t, i)
    decreases |s|
  {
    if IsPrefix(t, s) {
      assert OccursAt(s, t, 0);
    } else if |s| == 0 {
      assert forall i :: !OccursAt(s, t, i);
    } else {
      IncludesIffOccurs(s[1..], t);
      if Includes(s[1..], t) {
        var i :| OccursAt(s[1..], t, i);
        assert s[1..][i..i + |t|] == s[i + 1..i + 1 + |t|];
        assert OccursAt(s, t, i + 1);
      }
      if i :| OccursAt(s, t, i) {
        assert s[1..][i - 1..i - 1 + |t|] == s[i..i + |t|];
        assert OccursAt(s[1..], t, i - 1);
      }
    }
  }

  /** The empty string is included in every string. */
  lemma IncludesEmpty(s: string)
    ensures Includes(s, "")
  {
  }

  /** `s.toLowerCase().includes(t.toLowerCase())`: the pages' search test. */
  predicate IncludesIgnoringCase(s: string, t: string) {
    Includes(Lower(s), Lower(t))
  }

  /** Search terms that lower-case alike match alike. */
  lemma IgnoringCaseDependsOnLower(s: string, t1: string, t2: string)
    requires Lower(t1) == Lower(t2)
    ensures IncludesIgnoringCase(s, t1) == IncludesIgnoringCase(s, t2)
  {
  }

  // --------------------------------------------------------------- trim

  /** ECMAScript WhiteSpace and LineTerminator code points, which `trim` strips. */
  predicate IsWhitespace(c: char) {
    || c == '\t' || c == '\n' || c == '\U{000B}' || c == '\U{000C}' || c == '\r'
    || c == ' ' || c == '\U{00A0}' || c == '\U{1680}'
    || ('\U{2000}' <= c <= '\U{200A}')
    || c == '\U{2028}' || c == '\U{2029}' || c == '\U{202F}' || c == '\U{205F}'
    || c == '\U{3000}' || c == '\U{FEFF}'
  }

  predicate AllWhitespace(s: string) {
    forall i :: 0 <= i < |s| ==> IsWhitespace(s[i])
  }

  /** Neither end of `s` is whitespace. */
  predicate IsTrimmed(s: string) {
    s == "" || (!IsWhitespace(s[0]) && !IsWhitespace(s[|s| - 1]))
  }

  /** Length of the longest all-whitespace prefix of `s`. */
  function LeadingSpace(s: string): (k: nat)
    ensures k <= |s|
    ensures forall i :: 0 <= i < k ==> IsWhitespace(s[i])
    ensures k < |s| ==> !IsWhitespace(s[k])
    decreases |s|
  {
    if |s| > 0 && IsWhitespace(s[0]) then 1 + LeadingSpace(s[1..]) else 0
  }

  /** Length of the longest all-whitespace suffix of `s`. */
  function TrailingSpace(s: string): (k: nat)
    ensures k <= |s|
    ensures forall i :: |s| - k <= i < |s| ==> IsWhitespace(s[i])
    ensures k < |s| ==> !IsWhitespace(s[|s| - 1 - k])
    decreases |s|
  {
    if |s| > 0 && IsWhitespace(s[|s| - 1]) then 1 + TrailingSpace(s[..|s| - 1]) else 0
  }

  /**
   * `s.trim()`: the middle of `s` left once the whitespace at both ends is
   * removed. Only whitespace is cut, and the result is empty exactly when
   * `s` is all whitespace.
   */
  function Trim(s: string): (r: string)
    ensures IsTrimmed(r)
    ensures LeadingSpace(s) + |r| <= |s|
    ensures r == s[LeadingSpace(s)..LeadingSpace(s) + |r|]
    ensures forall i :: 0 <= i < LeadingSpace(s) ==> IsWhitespace(s[i])
    ensures forall i :: LeadingSpace(s) + |r| <= i < |s| ==> IsWhitespace(s[i])
    ensures r == "" <==> AllWhitespace(s)
  {
    var rest := s[LeadingSpace(s)..];
    var r := rest[..|rest| - TrailingSpace(rest)];
    TrimmedMiddle(s, r);
    r
  }

  /** The facts `Trim` promises, about the middle it cuts out of `s`. */
  lemma TrimmedMiddle(s: string, r: string)
    requires var rest := s[LeadingSpace(s)..]; r == rest[..|rest| - TrailingSpace(rest)]
    ensures IsTrimmed(r)
    ensures forall i :: LeadingSpace(s) + |r| <= i < |s| ==> IsWhitespace(s[i])
    ensures r == "" <==> AllWhitespace(s)
  {
    var a := LeadingSpace(s);
    var rest := s[a..];
    var b := TrailingSpace(rest);
    TrimmedTail(s, a, rest, b, r);
    TrimmedEnds(s, a, rest, b, r);
  }

  /** Both ends of the middle are the first and last non-whitespace characters of `s`. */
  lemma TrimmedEnds(s: string, a: nat, rest: string, b: nat, r: string)
    requires a == LeadingSpace(s) && rest == s[a..]
    requires b == TrailingSpace(rest) && r == rest[..|rest| - b]
    ensures IsTrimmed(r)
    ensures r != "" ==> a < |s| && !IsWhitespace(s[a])
  {
    if r != "" {
      assert r[0] == s[a];
      assert r[|r| - 1] == rest[|rest| - 1 - b];
    }
  }

  lemma TrimmedTail(s: string, a: nat, rest: string, b: nat, r: string)
    requires a <= |s| && rest == s[a..]
    requires b <= |rest| && forall i :: |rest| - b <= i < |rest| ==> IsWhitespace(rest[i])
    requires r == rest[..|rest| - b]
    ensures forall i :: a + |r| <= i < |s| ==> IsWhitespace(s[i])
  {
    forall i | a + |r| <= i < |s|
      ensures IsWhitespace(s[i])
    {
      assert s[i] == rest[i - a];
    }
  }

  /** A string without whitespace at either end is left alone by `trim`. */
  lemma TrimOfTrimmed(s: string)
    requires IsTrimmed(s)
    ensures Trim(s) == s
  {
    assert LeadingSpace(s) == 0;
    assert TrailingSpace(s) == 0;
  }

  /** Trimming twice is trimming once. */
  lemma TrimIdempotent(s: string)
    ensures Trim(Trim(s)) == Trim(s)
  {
    TrimOfTrimmed(Trim(s));
  }

  // ------------------------------------------------------------ padStart

  function Repeat(c: char, n: nat): (r: string)
    ensures |r| == n
    ensures forall i :: 0 <= i < n ==> r[i] == c
  {
    seq(n, _ => c)
  }

  /**
   * `s.padStart(width, fill)` with a one-character fill: `fill` is put in
   * front until the length reaches `width`; a longer `s` is never cut.
   */
  function PadStart(s: string, width: nat, fill: char): (r: string)
    ensures |r| == if |s| < width then width else |s|
    ensures r[|r| - |s|..] == s
    ensures r[..|r| - |s|] == Repeat(fill, |r| - |s|)
  {
    if |s| < width then Repeat(fill, width - |s|) + s else s
  }

  // ------------------------------------------------------------ decimals

  predicate IsDigit(c: char) { '0' <= c <= '9' }

  predicate AllDigits(s: string) {
    forall i :: 0 <= i < |s| ==> IsDigit(s[i])
  }

  function DigitChar(d: nat): (c: char)
    requires d < 10
    ensures IsDigit(c)
    ensures c as int - '0' as int == d
  {
    ('0' as int + d) as char
  }

  /** The number a string of decimal digits denotes (leading zeros allowed). */
  function DecimalValue(s: string): nat
    requires AllDigits(s)
    decreases |s|
  {
    if s == "" then 0
    else 10 * DecimalValue(s[..|s| - 1]) + (s[|s| - 1] as int - '0' as int)
  }

  function Pow10(k: nat): (r: nat)
    ensures r >= 1
  {
    if k == 0 then 1 else 10 * Pow10(k - 1)
  }

  /**
   * `String(n)` for a non-negative integer: canonical decimal digits (no
   * leading zero except for `0` itself) that denote `n`.
   */
  function NatToString(n: nat): (r: string)
    ensures 1 <= |r|
    ensures AllDigits(r)
    ensures DecimalValue(r) == n
    ensures r[0] == '0' <==> n == 0
    ensures n == 0 ==> |r| == 1
    decreases n
  {
    if n < 10 then [DigitChar(n)]
    else
      var r := NatToString(n / 10) + [DigitChar(n % 10)];
      assert r[..|r| - 1] == NatToString(n / 10);
      r
  }

  /** A number below `10^k` takes at most `k` digits. */
  lemma {:induction false} NatToStringLength(n: nat, k: nat)
    requires 1 <= k
    requires n < Pow10(k)
    ensures |NatToString(n)| <= k
    decreases n
  {
    if n >= 10 {
      assert k >= 2;
      assert n / 10 < Pow10(k - 1);
      NatToStringLength(n / 10, k - 1);
    }
  }

  /** A string of zeros denotes zero. */
  lemma {:induction false} ZerosValue(k: nat)
    ensures AllDigits(Repeat('0', k))
    ensures DecimalValue(Repeat('0', k)) == 0
  {
    if k > 0 {
      assert Repeat('0', k)[..k - 1] == Repeat('0', k - 1);
      ZerosValue(k - 1);
    }
  }

  /** Leading zeros do not change the number a digit string denotes. */
  lemma {:induction false} LeadingZerosValue(k: nat, s: string)
    requires AllDigits(s)
    ensures AllDigits(Repeat('0', k) + s)
    ensures DecimalValue(Repeat('0', k) + s) == DecimalValue(s)
    decreases |s|
  {
    var z := Repeat('0', k);
    if s == "" {
      assert z + s == z;
      ZerosValue(k);
    } else {
      var t := z + s;
      assert t[..|t| - 1] == z + s[..|s| - 1];
      LeadingZerosValue(k, s[..|s| - 1]);
    }
  }

  /**
   * `String(n).padStart(width, '0')`: digits that still denote `n`, exactly
   * `width` of them when `n < 10^width`.
   */
  function ZeroPadded(n: nat, width: nat): (r: string)
    ensures AllDigits(r)
    ensures DecimalValue(r) == n
    ensures |r| >= width
    ensures 1 <= width && n < Pow10(width) ==> |r| == width
  {
    var digits := NatToString(n);
    var r := PadStart(digits, width, '0');
    LeadingZerosValue(|r| - |digits|, digits);
    assert r == Repeat('0', |r| - |digits|) + digits;
    DigitsFitWidth(n, width);
    r
  }

  lemma DigitsFitWidth(n: nat, width: nat)
    ensures 1 <= width && n < Pow10(width) ==> |NatToString(n)| <= width
  {
    if 1 <= width && n < Pow10(width) {
      NatToStringLength(n, width);
    }
  }

  /** Zero-padded numerals are equal only for equal numbers. */
  lemma ZeroPaddedInjective(m: nat, n: nat, width: nat)
    requires ZeroPadded(m, width) == ZeroPadded(n, width)
    ensures m == n
  {
  }
}
