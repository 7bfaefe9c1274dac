/** The string operations `recursive_search` relies on: ASCII lowercasing,
    the substring test `word in s`, the landing keyword test, and the decimal
    text of an integer (Python's `str(i)`). */
module Text {

  /** `c.lower()` for ASCII letters; every other character is left as it is. */
  function LowerChar(c: char): char {
    if 'A' <= c <= 'Z' then (c as int - 'A' as int + 'a' as int) as char else c
  }

  /** `s.lower()`, character by character. */
  function Lower(s: string): string {
    seq(|s|, i requires 0 <= i < |s| => LowerChar(s[i]))
  }

  /** `w` occurs in `s` starting at offset `i`. */
  predicate OccursAt(s: string, w: string, i: int) {
    0 <= i && i + |w| <= |s| && s[i..i + |w|] == w
  }

  /** Python's `w in s` for strings: `w` occurs in `s` at some offset. */
  predicate Contains(s: string, w: string) {
    exists i | 0 <= i <= |s| - |w| :: OccursAt(s, w, i)
  }

  /** The keywords `recursive_search` looks for in a dict key. */
  const Keywords: seq<string> := ["rate", "touchdown", "landing", "fpm", "vs", "speed"]

  /** The key test `any(word in key.lower() for word in keywords)`. */
  predicate MatchesKeyword(k: string) {
    exists w | w in Keywords :: Contains(Lower(k), w)
  }

  /** A key matches when a keyword occurs in it, in any ASCII case, at any offset. */
  lemma KeywordAt(k: string, w: string, i: nat)
    requires w in Keywords && OccursAt(Lower(k), w, i)
    ensures MatchesKeyword(k)
  {
    assert Contains(Lower(k), w);
  }

  /** The key test ignores ASCII case: a key and its lowercase form match alike. */
  lemma {:induction false} MatchesKeywordIgnoresCase(k: string)
    ensures MatchesKeyword(Lower(k)) == MatchesKeyword(k)
  {
    assert Lower(Lower(k)) == Lower(k);
  }

  predicate IsDigit(c: char) {
    '0' <= c <= '9'
  }

  function DigitChar(d: nat): (c: char)
    requires d < 10
    ensures IsDigit(c) && c as int - '0' as int == d
  {
    ('0' as int + d) as char
  }

  /** `str(n)` for a non-negative integer: its decimal digits, most significant first. */
  function DecimalText(n: nat): (r: string)
    ensures |r| >= 1 && (forall i :: 0 <= i < |r| ==> IsDigit(r[i]))
    ensures r[0] == '0' ==> n == 0
    decreases n
  {
    if n < 10 then [DigitChar(n)] else DecimalText(n / 10) + [DigitChar(n % 10)]
  }

  /** The number a string of decimal digits denotes. */
  function DecimalValue(s: string): nat
    requires forall i :: 0 <= i < |s| ==> IsDigit(s[i])
  {
    if s == [] then 0
    else
      assert IsDigit(s[|s| - 1]);
      DecimalValue(s[..|s| - 1]) * 10 + (s[|s| - 1] as int - '0' as int)
  }

  /** Reading back the decimal text of `n` gives `n`. */
  lemma {:induction false} DecimalRoundTrip(n: nat)
    ensures DecimalValue(DecimalText(n)) == n
    decreases n
  {
    var r := DecimalText(n);
    if n >= 10 {
      DecimalRoundTrip(n / 10);
      assert r[..|r| - 1] == DecimalText(n / 10);
    }
  }

  /** Different numbers have different decimal texts. */
  lemma DecimalInjective(m: nat, n: nat)
    requires DecimalText(m) == DecimalText(n)
    ensures m == n
  {
    DecimalRoundTrip(m);
    DecimalRoundTrip(n);
  }

  /** `str(i)` for any integer: a minus sign before the digits of a negative one. */
  function IntText(i: int): string {
    if i < 0 then "-" + DecimalText(-i) else DecimalText(i)
  }

  datatype Option<T> = None | Some(value: T)

  /** Reads an optional minus sign followed by at least one decimal digit. */
  function ParseInt(s: string): (r: Option<int>)
  {
    if |s| >= 2 && s[0] == '-' && (forall i :: 1 <= i < |s| ==> IsDigit(s[i])) then
      Some(0 - DecimalValue(s[1..]) as int)
    else if |s| >= 1 && (forall i :: 0 <= i < |s| ==> IsDigit(s[i])) then
      Some(DecimalValue(s))
    else None
  }

  /** A run of digits reads as the number it denotes. */
  lemma ParseDigits(d: string)
    requires |d| >= 1 && forall j :: 0 <= j < |d| ==> IsDigit(d[j])
    ensures ParseInt(d) == Some(DecimalValue(d))
  {
    assert IsDigit(d[0]);
  }

  /** A minus sign followed by a run of digits reads as the negated number. */
  lemma ParseNegative(d: string)
    requires |d| >= 1 && forall j :: 0 <= j < |d| ==> IsDigit(d[j])
    ensures ParseInt("-" + d) == Some(0 - DecimalValue(d) as int)
  {
    var s := "-" + d;
    assert s[1..] == d;
    assert forall j :: 1 <= j < |s| ==> s[j] == d[j - 1];
  }

  /** Parsing the text of any integer gives that integer back. */
  lemma {:induction false} IntTextRoundTrip(i: int)
    ensures ParseInt(IntText(i)) == Some(i)
  {
    if i < 0 {
      DecimalRoundTrip(-i);
      ParseNegative(DecimalText(-i));
    } else {
      DecimalRoundTrip(i);
      ParseDigits(DecimalText(i));
    }
  }
}
