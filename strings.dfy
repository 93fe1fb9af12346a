/** The few operations on Python `str` values that the tools rely on, with
    Python's own semantics: `strip()`, `zfill()`, `int()`, `str(int)`,
    `replace(pat, "")`, `in`, `startswith` and `endswith`. */
module Strings {
  import opened Wrappers

  /** The characters Python's `str.isspace()` accepts: the ones `strip()`
      removes and `int()` ignores around its digits. */
  predicate IsPySpace(c: char) {
    || ('\U{9}' <= c <= '\U{D}')
    || ('\U{1C}' <= c <= '\U{20}')
    || c == '\U{85}' || c == '\U{A0}' || c == '\U{1680}'
    || ('\U{2000}' <= c <= '\U{200A}')
    || c == '\U{2028}' || c == '\U{2029}' || c == '\U{202F}' || c == '\U{205F}'
    || c == '\U{3000}'
  }

  /** `sub` occurs in `s` starting at index `i`. */
  predicate MatchAt(s: string, sub: string, i: int) {
    0 <= i && i + |sub| <= |s| && s[i..i + |sub|] == sub
  }

  /** `sub in s` */
  predicate Contains(s: string, sub: string) {
    exists i :: 0 <= i <= |s| && MatchAt(s, sub, i)
  }

  /** `s.startswith(prefix)` */
  predicate StartsWith(s: string, prefix: string) {
    |prefix| <= |s| && s[..|prefix|] == prefix
  }

  /** `s.endswith(suffix)` */
  predicate EndsWith(s: string, suffix: string) {
    |suffix| <= |s| && s[|s| - |suffix|..] == suffix
  }

  predicate AllSpace(s: string) {
    forall k :: 0 <= k < |s| ==> IsPySpace(s[k])
  }

  /** The number of whitespace characters `s` starts with. */
  function LeadingSpace(s: string): (n: nat)
    ensures n <= |s| && AllSpace(s[..n]) && (n < |s| ==> !IsPySpace(s[n]))
  {
    if |s| > 0 && IsPySpace(s[0]) then
      var n := 1 + LeadingSpace(s[1..]);
      assert forall k :: 1 <= k < n ==> s[k] == s[1..][k - 1];
      n
    else 0
  }

  /** Where the trailing whitespace of `s` begins. */
  function TrailingSpace(s: string): (j: nat)
    ensures j <= |s| && AllSpace(s[j..]) && (j > 0 ==> !IsPySpace(s[j - 1]))
  {
    if |s| > 0 && IsPySpace(s[|s| - 1]) then
      var j := TrailingSpace(s[..|s| - 1]);
      assert forall k :: j <= k < |s| - 1 ==> s[k] == s[..|s| - 1][k];
      j
    else |s|
  }

  /** `s.strip()`: what is left after dropping whitespace at both ends; it
      neither starts nor ends with whitespace, and text that does not start
      or end with whitespace is returned as it is. */
  function Strip(s: string): (r: string)
    ensures |r| <= |s|
    ensures |r| > 0 ==> !IsPySpace(r[0]) && !IsPySpace(r[|r| - 1])
    ensures |s| > 0 && !IsPySpace(s[0]) && !IsPySpace(s[|s| - 1]) ==> r == s
  {
    var i := LeadingSpace(s);
    var j := TrailingSpace(s);
    if i == |s| then [] else s[i..j]
  }

  /** `strip()` removes whitespace only: its result is a slice of the input
      with nothing but whitespace on either side. */
  lemma StripIsSlice(s: string)
    ensures exists i, j :: 0 <= i <= j <= |s| && Strip(s) == s[i..j] && AllSpace(s[..i]) && AllSpace(s[j..])
  {
    var i := LeadingSpace(s);
    var j := TrailingSpace(s);
    if i == |s| {
      assert Strip(s) == s[i..i] && s[i..] == [];
    } else {
      assert s[i..j] == Strip(s);
    }
  }

  function Zeros(n: nat): (r: string)
    ensures |r| == n && forall k :: 0 <= k < n ==> r[k] == '0'
  {
    if n == 0 then [] else Zeros(n - 1) + ['0']
  }

  /** `s.zfill(width)`: pads with '0' to `width` characters; a leading sign
      stays in front of the padding. */
  function ZFill(s: string, width: int): (r: string)
    ensures |r| == if |s| >= width then |s| else width
    ensures |s| >= width ==> r == s
    ensures |s| < width && (s == [] || (s[0] != '+' && s[0] != '-')) ==>
              r[width - |s|..] == s && forall k :: 0 <= k < width - |s| ==> r[k] == '0'
    ensures |s| < width && s != [] && (s[0] == '+' || s[0] == '-') ==>
              r[0] == s[0] && r[width - |s| + 1..] == s[1..] && forall k :: 1 <= k <= width - |s| ==> r[k] == '0'
  {
    if |s| >= width then s
    else if s != [] && (s[0] == '+' || s[0] == '-') then [s[0]] + Zeros(width - |s|) + s[1..]
    else Zeros(width - |s|) + s
  }

  /** The decimal digits `int()` accepts here: ASCII and full-width. */
  predicate IsDigit(c: char) {
    ('0' <= c <= '9') || ('０' <= c <= '９')
  }

  function DigitValue(c: char): (d: nat)
    requires IsDigit(c)
    ensures d < 10
  {
    if '0' <= c <= '9' then (c as int - '0' as int) else (c as int - '０' as int)
  }

  predicate AllDigits(s: string) {
    forall k :: 0 <= k < |s| ==> IsDigit(s[k])
  }

  /** The value of a string of decimal digits, most significant first. */
  function DigitsValue(s: string): nat
    requires AllDigits(s)
  {
    if s == [] then 0 else DigitsValue(s[..|s| - 1]) * 10 + DigitValue(s[|s| - 1])
  }

  /** `int(s)` for a string: optional surrounding whitespace, an optional
      sign, then at least one digit; anything else raises ValueError (None). */
  function ParseInt(s: string): Option<int> {
    ParseSigned(Strip(s))
  }

  /** `int()` of text without surrounding whitespace. */
  function ParseSigned(t: string): Option<int> {
    if |t| > 0 && t[0] == '-' then
      match ParseDigits(t[1..]) case Some(v) => Some(-v) case None => None
    else if |t| > 0 && t[0] == '+' then
      match ParseDigits(t[1..]) case Some(v) => Some(v) case None => None
    else
      match ParseDigits(t) case Some(v) => Some(v) case None => None
  }

  /** A non-empty run of digits and its value. */
  function ParseDigits(d: string): Option<int> {
    if |d| > 0 && AllDigits(d) then Some(DigitsValue(d) as int) else None
  }

  function DigitChar(d: nat): (c: char)
    requires d < 10
    ensures '0' <= c <= '9' && DigitValue(c) == d
  {
    ('0' as int + d) as char
  }

  function NatToStr(n: nat): (r: string)
    ensures |r| > 0 && forall k :: 0 <= k < |r| ==> '0' <= r[k] <= '9'
  {
    if n < 10 then [DigitChar(n)] else NatToStr(n / 10) + [DigitChar(n % 10)]
  }

  /** `str(n)` for a Python int. */
  function IntToStr(n: int): string {
    if n < 0 then "-" + NatToStr(-n) else NatToStr(n)
  }

  lemma {:induction false} DigitsValueOfNatToStr(n: nat)
    ensures AllDigits(NatToStr(n)) && DigitsValue(NatToStr(n)) == n
  {
    var s := NatToStr(n);
    if n >= 10 {
      DigitsValueOfNatToStr(n / 10);
      assert s[..|s| - 1] == NatToStr(n / 10);
    }
  }

  lemma {:induction false} DigitsValueOfZeros(k: nat)
    ensures AllDigits(Zeros(k)) && DigitsValue(Zeros(k)) == 0
  {
    if k > 0 {
      DigitsValueOfZeros(k - 1);
      assert Zeros(k)[..k - 1] == Zeros(k - 1);
    }
  }

  /** Leading zeros do not change the value of a digit string. */
  lemma {:induction false} DigitsValueIgnoresZeros(k: nat, s: string)
    requires AllDigits(s)
    ensures AllDigits(Zeros(k) + s) && DigitsValue(Zeros(k) + s) == DigitsValue(s)
  {
    if s == [] {
      assert Zeros(k) + s == Zeros(k);
      DigitsValueOfZeros(k);
    } else {
      var t := s[..|s| - 1];
      DigitsValueIgnoresZeros(k, t);
      assert (Zeros(k) + s)[..|Zeros(k) + s| - 1] == Zeros(k) + t;
    }
  }

  /** `int(str(n)) == n`. */
  lemma ParseIntOfIntToStr(n: int)
    ensures ParseInt(IntToStr(n)) == Some(n)
  {
    ParseIntOfZFill(n, 0);
  }

  /** Digits alone parse to their value. */
  lemma ParseIntOfDigits(d: string)
    requires |d| > 0 && AllDigits(d)
    ensures ParseInt(d) == Some(DigitsValue(d) as int)
  {
    assert IsDigit(d[0]) && IsDigit(d[|d| - 1]);
    ParseIntOfUnpadded(d);
  }

  /** A minus sign followed by digits parses to the negated value. */
  lemma ParseIntOfNegated(d: string)
    requires |d| > 0 && AllDigits(d)
    ensures ParseInt(['-'] + d) == Some(0 - DigitsValue(d))
  {
    var z := ['-'] + d;
    assert z[|z| - 1] == d[|d| - 1];
    assert IsDigit(d[|d| - 1]);
    ParseIntOfUnpadded(z);
    assert z[0] == '-' && z[1..] == d;
  }

  /** Text without surrounding whitespace goes to `ParseSigned` as it is. */
  lemma ParseIntOfUnpadded(z: string)
    requires |z| > 0 && !IsPySpace(z[0]) && !IsPySpace(z[|z| - 1])
    ensures ParseInt(z) == ParseSigned(z)
  {
    assert Strip(z) == z;
  }

  /** `int(str(n).zfill(w)) == n`: zero-filling keeps the integer a string
      denotes. */
  lemma ParseIntOfZFill(n: int, width: int)
    ensures ParseInt(ZFill(IntToStr(n), width)) == Some(n)
  {
    if n < 0 {
      ParseIntOfZFillNegative(-n, width);
    } else {
      ParseIntOfZFillNatural(n, width);
    }
  }

  lemma ParseIntOfZFillNatural(m: nat, width: int)
    ensures ParseInt(ZFill(IntToStr(m), width)) == Some(m)
  {
    var digits := NatToStr(m);
    var pad: nat := if |digits| >= width then 0 else width - |digits|;
    NaturalZFillShape(m, width, pad);
    DigitsValueOfNatToStr(m);
    DigitsValueIgnoresZeros(pad, digits);
    ParseIntOfDigits(Zeros(pad) + digits);
  }

  /** `str(m).zfill(w)` is the digits of `m` after enough zeros. */
  lemma NaturalZFillShape(m: nat, width: int, pad: nat)
    requires pad == if |NatToStr(m)| >= width then 0 else width - |NatToStr(m)|
    ensures ZFill(IntToStr(m), width) == Zeros(pad) + NatToStr(m)
  {
    var digits := NatToStr(m);
    if pad == 0 {
      assert Zeros(pad) + digits == digits;
    }
  }

  lemma ParseIntOfZFillNegative(m: nat, width: int)
    requires m > 0
    ensures ParseInt(ZFill(IntToStr(0 - m), width)) == Some(0 - m)
  {
    var digits := NatToStr(m);
    var pad: nat := if |digits| + 1 >= width then 0 else width - |digits| - 1;
    NegativeZFillShape(m, width, pad);
    DigitsValueOfNatToStr(m);
    DigitsValueIgnoresZeros(pad, digits);
    ParseIntOfNegatedValue(Zeros(pad) + digits, m);
  }

  /** `str(-m).zfill(w)` is a minus sign followed by zero-filled digits. */
  lemma NegativeZFillShape(m: nat, width: int, pad: nat)
    requires m > 0
    requires pad == if |NatToStr(m)| + 1 >= width then 0 else width - |NatToStr(m)| - 1
    ensures ZFill(IntToStr(0 - m), width) == ['-'] + (Zeros(pad) + NatToStr(m))
  {
    assert IntToStr(0 - m) == ['-'] + NatToStr(m);
    ZFillOfSigned(NatToStr(m), width);
  }

  lemma ParseIntOfNegatedValue(d: string, m: nat)
    requires |d| > 0 && AllDigits(d) && DigitsValue(d) == m
    ensures ParseInt(['-'] + d) == Some(0 - m)
  {
    ParseIntOfNegated(d);
  }

  lemma ZFillOfSigned(digits: string, width: int)
    requires |digits| > 0 && '0' <= digits[0] <= '9'
    ensures var pad: nat := if |digits| + 1 >= width then 0 else width - |digits| - 1;
            ZFill(['-'] + digits, width) == ['-'] + (Zeros(pad) + digits)
  {
    var s := ['-'] + digits;
    assert s[1..] == digits;
    if |s| >= width {
      assert Zeros(0) + digits == digits;
    }
  }

  /** `s.replace(pat, "")`: removes the leftmost non-overlapping occurrences
      of `pat`, scanning from the left. */
  function RemoveAll(s: string, pat: string): (r: string)
    ensures |r| <= |s|
    decreases |s|
  {
    if pat == [] || |s| < |pat| then s
    else if s[..|pat|] == pat then RemoveAll(s[|pat|..], pat)
    else [s[0]] + RemoveAll(s[1..], pat)
  }

  /** With no occurrence of the pattern, the text is left unchanged. */
  lemma {:induction false} RemoveAllWithoutMatch(s: string, pat: string)
    requires !Contains(s, pat)
    ensures RemoveAll(s, pat) == s
    decreases |s|
  {
    if pat != [] && |s| >= |pat| {
      assert !MatchAt(s, pat, 0);
      assert !Contains(s[1..], pat) by {
        forall i | MatchAt(s[1..], pat, i)
          ensures false
        {
          assert s[1..][i..i + |pat|] == s[i + 1..i + 1 + |pat|];
          assert MatchAt(s, pat, i + 1);
        }
      }
      RemoveAllWithoutMatch(s[1..], pat);
    }
  }

  /** The first occurrence of a non-empty pattern is cut out and scanning
      resumes right after it. */
  lemma {:induction false} RemoveAllCutsFirstMatch(x: string, pat: string, y: string)
    requires pat != []
    requires forall i :: 0 <= i < |x| ==> !MatchAt(x + pat + y, pat, i)
    ensures RemoveAll(x + pat + y, pat) == x + RemoveAll(y, pat)
    decreases |x|
  {
    var s := x + pat + y;
    if x == [] {
      assert s == pat + y;
      assert s[..|pat|] == pat;
      assert s[|pat|..] == y;
      assert RemoveAll(s, pat) == RemoveAll(y, pat);
    } else {
      var x' := x[1..];
      var s' := x' + pat + y;
      assert !MatchAt(s, pat, 0);
      assert s[..|pat|] != pat;
      assert s[1..] == s';
      assert RemoveAll(s, pat) == [s[0]] + RemoveAll(s', pat);
      forall i | 0 <= i < |x'|
        ensures !MatchAt(s', pat, i)
      {
        assert !MatchAt(s, pat, i + 1);
        assert s'[i..i + |pat|] == s[i + 1..i + 1 + |pat|];
      }
      RemoveAllCutsFirstMatch(x', pat, y);
      assert [s[0]] + x' == x;
    }
  }
}
