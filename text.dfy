/** String helpers with JavaScript meaning: `String.prototype.trim`,
    `charAt(0)` and the decimal rendering of a non-negative integer inside a
    template string, with the parsers that invert them. */
module Text {

  /** The characters `trim` removes: ECMAScript WhiteSpace and LineTerminator. */
  predicate IsWhiteSpace(c: char) {
    || c == '\t' || c == '\n' || c == '\U{000B}' || c == '\U{000C}' || c == '\r'
    || c == ' ' || c == '\U{00A0}' || c == '\U{1680}'
    || ('\U{2000}' <= c <= '\U{200A}')
    || c == '\U{2028}' || c == '\U{2029}' || c == '\U{202F}' || c == '\U{205F}'
    || c == '\U{3000}' || c == '\U{FEFF}'
  }

  /** The characters of `s` from index `i` up to (not including) `j` are all
      white space. */
  predicate BlankBetween(s: string, i: nat, j: nat)
    requires i <= j <= |s|
    decreases j - i
  {
    i == j || (IsWhiteSpace(s[i]) && BlankBetween(s, i + 1, j))
  }

  /** A string made of white space only (the empty string included). */
  predicate IsBlank(s: string) {
    BlankBetween(s, 0, |s|)
  }

  /** Two adjacent blank ranges make one blank range, and a blank range is
      blank in each of its parts. */
  lemma {:induction false} BlankJoin(s: string, i: nat, j: nat, k: nat)
    requires i <= j <= k <= |s|
    ensures BlankBetween(s, i, j) && BlankBetween(s, j, k) <==> BlankBetween(s, i, k)
    decreases j - i
  {
    if i < j {
      BlankJoin(s, i + 1, j, k);
    }
  }

  /** Where the leading white space of `s[i..]` ends: everything skipped is
      white space, and the character found (if any) is not. */
  function SkipBlank(s: string, i: nat): (j: nat)
    requires i <= |s|
    ensures i <= j <= |s| && BlankBetween(s, i, j)
    ensures j == |s| || !IsWhiteSpace(s[j])
    decreases |s| - i
  {
    if i < |s| && IsWhiteSpace(s[i]) then SkipBlank(s, i + 1) else i
  }

  /** Where `s[lo..hi]` ends once its trailing white space is cut off:
      everything cut off is white space, and what is kept (if anything) does
      not end with white space. */
  function SkipBlankBack(s: string, lo: nat, hi: nat): (e: nat)
    requires lo <= hi <= |s|
    ensures lo <= e <= hi && BlankBetween(s, e, hi)
    ensures e == lo || !IsWhiteSpace(s[e - 1])
    decreases hi - lo
  {
    if lo < hi && IsWhiteSpace(s[hi - 1]) then
      var e := SkipBlankBack(s, lo, hi - 1);
      BlankJoin(s, e, hi - 1, hi);
      e
    else hi
  }

  /** `s.trim()`: what lies between the leading and the trailing white space. */
  function Trim(s: string): (r: string)
    ensures |r| <= |s|
    ensures r == [] || (!IsWhiteSpace(r[0]) && !IsWhiteSpace(r[|r| - 1]))
  {
    var start := SkipBlank(s, 0);
    s[start..SkipBlankBack(s, start, |s|)]
  }

  /** `s.trim()` is `s` with a blank prefix and a blank suffix cut off. */
  lemma TrimCutsBlankEnds(s: string)
    ensures exists k: nat :: k + |Trim(s)| <= |s| && Trim(s) == s[k..k + |Trim(s)|]
                        && BlankBetween(s, 0, k) && BlankBetween(s, k + |Trim(s)|, |s|)
  {
    var k := SkipBlank(s, 0);
    var e := SkipBlankBack(s, k, |s|);
    assert Trim(s) == s[k..e];
  }

  /** The test `!s.trim()` of the admin handlers holds exactly of blank strings. */
  lemma TrimEmptyIffBlank(s: string)
    ensures Trim(s) == [] <==> IsBlank(s)
  {
    var k := SkipBlank(s, 0);
    var e := SkipBlankBack(s, k, |s|);
    BlankJoin(s, 0, k, |s|);
    if k < e {
      BlankJoin(s, k, e - 1, |s|);
    }
  }

  /** `s.charAt(0)`: the first character, or the empty string for an empty `s`. */
  function FirstChar(s: string): (r: string)
    ensures |r| <= 1
    ensures s == [] <==> r == []
    ensures r != [] ==> r[0] == s[0]
  {
    if s == [] then [] else [s[0]]
  }

  predicate IsDigit(c: char) {
    '0' <= c <= '9'
  }

  function DigitChar(d: nat): (c: char)
    requires d < 10
    ensures IsDigit(c)
  {
    ['0', '1', '2', '3', '4', '5', '6', '7', '8', '9'][d]
  }

  function DigitValue(c: char): (d: nat)
    requires IsDigit(c)
  {
    c as int - '0' as int
  }

  /** The decimal digits of `n`, as `${n}` renders a non-negative integer. */
  function Decimal(n: nat): (r: string)
    ensures r != []
    ensures forall i :: 0 <= i < |r| ==> IsDigit(r[i])
  {
    if n < 10 then [DigitChar(n)] else Decimal(n / 10) + [DigitChar(n % 10)]
  }

  /** The value of a string of decimal digits. */
  function ParseDecimal(s: string): nat
    requires forall i :: 0 <= i < |s| ==> IsDigit(s[i])
  {
    if s == [] then 0 else 10 * ParseDecimal(s[..|s| - 1]) + DigitValue(s[|s| - 1])
  }

  lemma DigitRoundTrip(d: nat)
    requires d < 10
    ensures DigitValue(DigitChar(d)) == d
  {
  }

  /** Reading back the decimal rendering of `n` gives `n`, and the rendering has
      no leading zero (so it is the only canonical such string). */
  lemma {:induction false} DecimalRoundTrip(n: nat)
    ensures ParseDecimal(Decimal(n)) == n
    ensures Decimal(n)[0] != '0' || n == 0
  {
    DigitRoundTrip(n % 10);
    if n >= 10 {
      DecimalRoundTrip(n / 10);
      var r := Decimal(n);
      assert r[..|r| - 1] == Decimal(n / 10);
    }
  }
}
