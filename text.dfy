/** String helpers that both the Python backend and the browser script rely on:
    decimal rendering of integers, reading digits back, character replacement
    and the last segment of a dash-separated slug. */
module Text {

  import opened Wrappers

  predicate IsDigit(c: char) {
    '0' <= c <= '9'
  }

  function DigitChar(d: nat): (c: char)
    requires d < 10
    ensures IsDigit(c)
  {
    ('0' as int + d) as char
  }

  function DigitValue(c: char): (d: nat)
    requires IsDigit(c)
    ensures d < 10 && DigitChar(d) == c
  {
    (c as int - '0' as int) as nat
  }

  /** Decimal rendering of a natural number, as `str(n)` and `n + ""` produce it. */
  function DecimalString(n: nat): (s: string)
    ensures |s| > 0
    ensures forall i :: 0 <= i < |s| ==> IsDigit(s[i])
    decreases n
  {
    if n < 10 then [DigitChar(n)] else DecimalString(n / 10) + [DigitChar(n % 10)]
  }

  /** Decimal rendering of an integer, with a leading minus sign when negative. */
  function IntString(n: int): (s: string)
    ensures |s| > 0
    ensures n >= 0 ==> s == DecimalString(n)
    ensures n < 0 ==> s[0] == '-' && s[1..] == DecimalString(-n)
  {
    if n >= 0 then DecimalString(n) else "-" + DecimalString(-n)
  }

  /** The value of a string of decimal digits, read most significant first. */
  function DigitsValue(s: string): nat
    requires forall i :: 0 <= i < |s| ==> IsDigit(s[i])
  {
    if s == [] then 0 else DigitsValue(s[..|s| - 1]) * 10 + DigitValue(s[|s| - 1])
  }

  lemma {:induction false} DecimalRoundTrip(n: nat)
    ensures DigitsValue(DecimalString(n)) == n
    decreases n
  {
    if n >= 10 {
      var s := DecimalString(n);
      var init := DecimalString(n / 10);
      assert s[..|s| - 1] == init;
      assert DigitValue(s[|s| - 1]) == n % 10;
      DecimalRoundTrip(n / 10);
    }
  }

  /** Length of the longest prefix of `s` made of digits. */
  function DigitRun(s: string): (k: nat)
    ensures k <= |s|
    ensures forall i :: 0 <= i < k ==> IsDigit(s[i])
    ensures k < |s| ==> !IsDigit(s[k])
  {
    if s == [] || !IsDigit(s[0]) then 0 else 1 + DigitRun(s[1..])
  }

  lemma {:induction false} DigitRunOfDigitsThen(d: string, t: string)
    requires forall i :: 0 <= i < |d| ==> IsDigit(d[i])
    requires t == [] || !IsDigit(t[0])
    ensures DigitRun(d + t) == |d|
  {
    if d != [] {
      assert (d + t)[1..] == d[1..] + t;
      DigitRunOfDigitsThen(d[1..], t);
    } else {
      assert d + t == t;
    }
  }

  /** Python's `s.replace(old, new)` for one-character patterns: every occurrence is replaced. */
  function ReplaceAll(s: string, pat: char, rep: char): (r: string)
    ensures |r| == |s|
    ensures forall i :: 0 <= i < |s| ==> r[i] == (if s[i] == pat then rep else s[i])
  {
    if s == [] then [] else [if s[0] == pat then rep else s[0]] + ReplaceAll(s[1..], pat, rep)
  }

  /** Index of the first occurrence of `c` in `s`, if any. */
  function FirstIndexOf(s: string, c: char): (r: Option<nat>)
    ensures r.Some? ==> r.value < |s| && s[r.value] == c && forall i :: 0 <= i < r.value ==> s[i] != c
    ensures r.None? <==> c !in s
  {
    if s == [] then None
    else if s[0] == c then Some(0)
    else match FirstIndexOf(s[1..], c)
      case None => None
      case Some(k) => Some(k + 1)
  }

  /** `k` is the first occurrence of `c` when `c` is at `k` and nowhere before. */
  lemma FirstIndexAt(s: string, c: char, k: nat)
    requires k < |s| && s[k] == c
    requires forall i :: 0 <= i < k ==> s[i] != c
    ensures FirstIndexOf(s, c) == Some(k)
  {
    assert s[k] in s;
  }

  /** JavaScript's `s.replace(old, new)` with a string pattern: only the first occurrence is replaced. */
  function ReplaceFirst(s: string, pat: char, rep: char): (r: string)
    ensures |r| == |s|
    ensures pat !in s ==> r == s
  {
    match FirstIndexOf(s, pat)
    case None => s
    case Some(k) => s[k := rep]
  }

  /** The text after the last `sep` in `s` (the whole of `s` when `sep` does not occur):
      Python's `s.split(sep)[-1]`. */
  function LastSegment(s: string, sep: char): (r: string)
    ensures |r| <= |s| && s[|s| - |r|..] == r
    ensures sep !in r
    ensures |r| < |s| ==> s[|s| - |r| - 1] == sep
  {
    if s == [] then []
    else if s[|s| - 1] == sep then []
    else LastSegment(s[..|s| - 1], sep) + [s[|s| - 1]]
  }
}
