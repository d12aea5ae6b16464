/** Character and string helpers used by the record coercion, the search filter and the
    description listing: ASCII digit strings, their decimal value and rendering, ASCII lower
    case and substring search. */
module Text {

  /** One character accepted by `str.isdigit` (ASCII digits only in this model). */
  predicate IsDigit(c: char) {
    '0' <= c <= '9'
  }

  predicate AllDigits(s: string) {
    forall i :: 0 <= i < |s| ==> IsDigit(s[i])
  }

  /** Python's `str.isdigit()`: true for a non-empty string of digits, false for "". */
  predicate IsDigits(s: string) {
    |s| > 0 && AllDigits(s)
  }

  function DigitValue(c: char): (d: nat)
    requires IsDigit(c)
    ensures d < 10
  {
    c as int - '0' as int
  }

  function DigitChar(d: nat): (c: char)
    requires d < 10
    ensures IsDigit(c) && DigitValue(c) == d
  {
    ('0' as int + d) as char
  }

  /** Decimal value of a digit string, read left to right as `int(s)` does. */
  function DecimalValue(s: string): (n: nat)
    requires AllDigits(s)
  {
    if |s| == 0 then 0 else DecimalValue(s[..|s| - 1]) * 10 + DigitValue(s[|s| - 1])
  }

  /** The decimal rendering of `n`, as Python's `str(n)` / f-string gives it. */
  function DecimalString(n: nat): (s: string)
    ensures IsDigits(s)
    ensures |s| == 1 <==> n < 10
    ensures s[0] == '0' ==> n == 0
  {
    if n < 10 then [DigitChar(n)] else DecimalString(n / 10) + [DigitChar(n % 10)]
  }

  /** Reading back a rendered number gives the number. */
  lemma {:induction false} DecimalRoundTrip(n: nat)
    ensures DecimalValue(DecimalString(n)) == n
  {
    if n >= 10 {
      var s := DecimalString(n);
      assert s[..|s| - 1] == DecimalString(n / 10);
      DecimalRoundTrip(n / 10);
    }
  }

  /** A digit string without leading zero is the rendering of its value. */
  lemma {:induction false} DecimalStringOfValue(s: string)
    requires IsDigits(s) && (s[0] == '0' ==> |s| == 1)
    ensures DecimalString(DecimalValue(s)) == s
  {
    if |s| > 1 {
      var p := s[..|s| - 1];
      assert p[0] == s[0];
      DecimalStringOfValue(p);
      DecimalValueLowerBound(p);
      var n := DecimalValue(s);
      assert n / 10 == DecimalValue(p) && n % 10 == DigitValue(s[|s| - 1]);
      assert s == p + [s[|s| - 1]];
    }
  }

  /** A digit string whose first digit is not 0 has value at least 1. */
  lemma {:induction false} DecimalValueLowerBound(s: string)
    requires IsDigits(s) && s[0] != '0'
    ensures DecimalValue(s) >= 1
  {
    if |s| > 1 {
      var p := s[..|s| - 1];
      assert p[0] == s[0];
      DecimalValueLowerBound(p);
    }
  }

  /** ASCII lower case of one character; every other character is kept. */
  function LowerChar(c: char): (r: char)
    ensures 'A' <= c <= 'Z' ==> 'a' <= r <= 'z'
    ensures !('A' <= c <= 'Z') ==> r == c
  {
    if 'A' <= c <= 'Z' then (c as int + 32) as char else c
  }

  function Lower(s: string): (r: string)
    ensures |r| == |s|
    ensures forall i :: 0 <= i < |s| ==> r[i] == LowerChar(s[i])
  {
    seq(|s|, i requires 0 <= i < |s| => LowerChar(s[i]))
  }

  /** `needle` occurs in `hay` starting at position `k`. */
  predicate MatchAt(needle: string, hay: string, k: int) {
    0 <= k && k + |needle| <= |hay| && hay[k..k + |needle|] == needle
  }

  /** `needle` occurs in `hay` at some position. */
  predicate IsSubstring(needle: string, hay: string) {
    exists k :: 0 <= k <= |hay| && MatchAt(needle, hay, k)
  }

  /** Case-insensitive substring test, the search of `str.contains(term, case=False)`. */
  predicate ContainsIgnoreCase(text: string, term: string) {
    IsSubstring(Lower(term), Lower(text))
  }

  /** Lower case keeps a match: a term found verbatim is found ignoring case. */
  lemma ExactMatchIgnoresCase(text: string, term: string, k: nat)
    requires k + |term| <= |text| && text[k..k + |term|] == term
    ensures ContainsIgnoreCase(text, term)
  {
    assert Lower(text)[k..k + |term|] == Lower(term);
    assert MatchAt(Lower(term), Lower(text), k);
  }

  /** A term longer than the text never matches. */
  lemma LongTermNeverMatches(text: string, term: string)
    requires |term| > |text|
    ensures !ContainsIgnoreCase(text, term)
  {
  }

  /** Folding the case of either side does not change the outcome of the search. */
  lemma SearchIgnoresCase(text: string, term: string)
    ensures ContainsIgnoreCase(Lower(text), Lower(term)) == ContainsIgnoreCase(text, term)
  {
    LowerTwice(text);
    LowerTwice(term);
  }

  lemma LowerTwice(s: string)
    ensures Lower(Lower(s)) == Lower(s)
  {
  }

  /** Number of occurrences of `c` in `s`. */
  function Occurrences(s: string, c: char): (n: nat)
    ensures n <= |s|
  {
    if |s| == 0 then 0 else (if s[0] == c then 1 else 0) + Occurrences(s[1..], c)
  }

  lemma {:induction false} OccurrencesAppend(a: string, b: string, c: char)
    ensures Occurrences(a + b, c) == Occurrences(a, c) + Occurrences(b, c)
  {
    if |a| > 0 {
      assert (a + b)[0] == a[0] && (a + b)[1..] == a[1..] + b;
      OccurrencesAppend(a[1..], b, c);
    } else {
      assert a + b == b;
    }
  }

  lemma {:induction false} OccurrencesAbsent(s: string, c: char)
    requires forall i :: 0 <= i < |s| ==> s[i] != c
    ensures Occurrences(s, c) == 0
  {
    if |s| > 0 {
      OccurrencesAbsent(s[1..], c);
    }
  }
}
