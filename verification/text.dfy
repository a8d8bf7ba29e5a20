/**
 * Text primitives the components rely on: substring search (`includes`),
 * lower-casing (`toLowerCase`), and the pieces of the regular expressions
 * `\d+\.?\d*` and `\s*` that the metric parsers use, together with the
 * leftmost-match search that `String.prototype.match` performs.
 */
module Text {
  import opened Prelude

  predicate StartsWith(s: string, p: string) {
    |p| <= |s| && s[..|p|] == p
  }

  /** `s.includes(p)`: p occurs at some position of s. */
  predicate Contains(s: string, p: string)
    decreases |s|
  {
    StartsWith(s, p) || (|s| > 0 && Contains(s[1..], p))
  }

  /** p occurs in s starting at index i. */
  predicate OccursAt(s: string, p: string, i: int) {
    0 <= i && i + |p| <= |s| && s[i..i + |p|] == p
  }

  /** The recursive search agrees with the positional reading of `includes`. */
  lemma {:induction false} ContainsIffOccurs(s: string, p: string)
    ensures Contains(s, p) <==> exists i :: OccursAt(s, p, i)
    decreases |s|
  {
    if StartsWith(s, p) {
      assert OccursAt(s, p, 0);
    } else if |s| > 0 {
      ContainsIffOccurs(s[1..], p);
      if Contains(s[1..], p) {
        var i :| OccursAt(s[1..], p, i);
        assert s[i + 1..i + 1 + |p|] == s[1..][i..i + |p|];
        assert OccursAt(s, p, i + 1);
      }
      if exists i :: OccursAt(s, p, i) {
        var i :| OccursAt(s, p, i);
        assert i != 0;
        assert s[1..][i - 1..i - 1 + |p|] == s[i..i + |p|];
        assert OccursAt(s[1..], p, i - 1);
      }
    }
  }

  /** p cannot occur where no candidate start position holds p's first character. */
  lemma AbsentWhenNoStart(s: string, p: string)
    requires |p| > 0
    requires forall i :: 0 <= i <= |s| - |p| ==> s[i] != p[0]
    ensures !Contains(s, p)
  {
    ContainsIffOccurs(s, p);
  }

  /** An occurrence at a known position is found by the search. */
  lemma PresentAt(s: string, p: string, i: int)
    requires OccursAt(s, p, i)
    ensures Contains(s, p)
  {
    ContainsIffOccurs(s, p);
  }

  /** A string that a suffix of s starts with occurs in s. */
  lemma PresentFrom(s: string, p: string, i: nat)
    requires i <= |s|
    ensures StartsWith(s[i..], p) ==> Contains(s, p)
  {
    if StartsWith(s[i..], p) {
      assert s[i..][..|p|] == s[i..i + |p|];
      PresentAt(s, p, i);
    }
  }

  /**
   * Lower-casing of one character: ASCII capitals and the Latin-1 capitals
   * U+00C0..U+00DE (except the multiplication sign U+00D7) move down by 32;
   * every other character is left alone.
   */
  function LowerChar(c: char): char {
    if 'A' <= c <= 'Z' || ('\U{C0}' <= c <= '\U{DE}' && c != '\U{D7}') then
      (c as int + 32) as char
    else
      c
  }

  /** `s.toLowerCase()`, character by character. */
  function Lower(s: string): (r: string)
    ensures |r| == |s|
    ensures forall i :: 0 <= i < |s| ==> r[i] == LowerChar(s[i])
  {
    seq(|s|, i requires 0 <= i < |s| => LowerChar(s[i]))
  }

  lemma LowerIdempotent(s: string)
    ensures Lower(Lower(s)) == Lower(s)
  {
    assert forall i :: 0 <= i < |s| ==> LowerChar(LowerChar(s[i])) == LowerChar(s[i]);
  }

  /** Every occurrence of p in s is an occurrence of lower(p) in lower(s). */
  lemma LowerKeepsOccurrence(s: string, p: string, i: int)
    requires OccursAt(s, p, i)
    ensures OccursAt(Lower(s), Lower(p), i)
  {
    assert forall k :: 0 <= k < |p| ==> s[i + k] == p[k];
  }

  /** Searching the lower-cased text finds whatever a case-fixed marker finds in the original. */
  lemma ContainsSurvivesLower(s: string, p: string)
    requires Lower(p) == p
    requires Contains(s, p)
    ensures Contains(Lower(s), p)
  {
    ContainsIffOccurs(s, p);
    var i :| OccursAt(s, p, i);
    LowerKeepsOccurrence(s, p, i);
    ContainsIffOccurs(Lower(s), p);
  }

  // ---------------------------------------------------------------------
  // Digits, numbers and white space, as the regular expressions read them.
  // ---------------------------------------------------------------------

  /** `\d` without the `u` flag: the ASCII digits only. */
  predicate IsDigit(c: char) {
    '0' <= c <= '9'
  }

  predicate AllDigits(s: string) {
    forall i :: 0 <= i < |s| ==> IsDigit(s[i])
  }

  /** `\s`: the white-space and line-terminator characters of ECMAScript. */
  predicate IsSpace(c: char) {
    c == ' ' || c == '\t' || c == '\n' || c == '\r' || c == '\U{0B}' || c == '\U{0C}'
    || c == '\U{A0}' || c == '\U{1680}' || ('\U{2000}' <= c <= '\U{200A}')
    || c == '\U{2028}' || c == '\U{2029}' || c == '\U{202F}' || c == '\U{205F}'
    || c == '\U{3000}' || c == '\U{FEFF}'
  }

  predicate AllSpaces(s: string) {
    forall i :: 0 <= i < |s| ==> IsSpace(s[i])
  }

  function DigitValue(c: char): nat
    requires IsDigit(c)
  {
    c as int - '0' as int
  }

  function Pow(b: nat, e: nat): (r: nat)
    ensures b > 0 ==> r > 0
  {
    if e == 0 then 1 else b * Pow(b, e - 1)
  }

  /** The decimal value of a string of digits (`parseInt` of `\d+`). */
  function NatValue(d: string): nat
    requires AllDigits(d)
  {
    if |d| == 0 then 0 else NatValue(d[..|d| - 1]) * 10 + DigitValue(d[|d| - 1])
  }

  /** The value of the digits after a decimal point. */
  function Fraction(d: string): real
    requires AllDigits(d)
  {
    NatValue(d) as real / Pow(10, |d|) as real
  }

  /** End of the longest run of digits starting at i (greedy `\d*`). */
  function DigitRunEnd(s: string, i: nat): (j: nat)
    requires i <= |s|
    ensures i <= j <= |s|
    ensures forall k :: i <= k < j ==> IsDigit(s[k])
    ensures j == |s| || !IsDigit(s[j])
    decreases |s| - i
  {
    if i < |s| && IsDigit(s[i]) then DigitRunEnd(s, i + 1) else i
  }

  /** End of the longest run of white space starting at i (greedy `\s*`). */
  function SpaceRunEnd(s: string, i: nat): (j: nat)
    requires i <= |s|
    ensures i <= j <= |s|
    ensures forall k :: i <= k < j ==> IsSpace(s[k])
    ensures j == |s| || !IsSpace(s[j])
    decreases |s| - i
  {
    if i < |s| && IsSpace(s[i]) then SpaceRunEnd(s, i + 1) else i
  }

  /** A number read by `\d+\.?\d*` and `parseFloat`: its value and the index just past it. */
  datatype Decimal = Decimal(value: real, end: nat)

  /**
   * `\d+\.?\d*` anchored at i. The quantifiers are greedy; backtracking never
   * yields a different match here, because whatever the callers require next
   * (a unit, white space) cannot start with a digit or a dot.
   */
  function DecimalAt(s: string, i: nat): (r: Option<Decimal>)
    ensures r.Some? <==> i < |s| && IsDigit(s[i])
    ensures r.Some? ==> i < r.value.end <= |s| && r.value.value >= 0.0
  {
    if i >= |s| || !IsDigit(s[i]) then None
    else
      var j := DigitRunEnd(s, i);
      var whole := NatValue(s[i..j]) as real;
      if j < |s| && s[j] == '.' then
        var k := DigitRunEnd(s, j + 1);
        Some(Decimal(whole + Fraction(s[j + 1..k]), k))
      else
        Some(Decimal(whole, j))
  }

  /**
   * `String.prototype.match` without the `g` flag: the match at the smallest
   * start position at or after i, trying every position up to |s|.
   */
  function Leftmost<T>(s: string, at: (string, nat) -> Option<T>, i: nat): (r: Option<T>)
    ensures r.Some? ==> exists k :: i <= k <= |s| && at(s, k) == r && forall j :: i <= j < k ==> at(s, j).None?
    ensures r.None? <==> forall j :: i <= j <= |s| ==> at(s, j).None?
    decreases |s| + 1 - i
  {
    if i > |s| then None
    else if at(s, i).Some? then at(s, i)
    else Leftmost(s, at, i + 1)
  }

  /** When position k is the first that matches, the search returns the match at k. */
  lemma LeftmostIs<T>(s: string, at: (string, nat) -> Option<T>, k: nat)
    requires k <= |s| && at(s, k).Some?
    requires forall j :: 0 <= j < k ==> at(s, j).None?
    ensures Leftmost(s, at, 0) == at(s, k)
  {
    var r := Leftmost(s, at, 0);
    var k' :| 0 <= k' <= |s| && at(s, k') == r && forall j :: 0 <= j < k' ==> at(s, j).None?;
    assert k' == k;
  }

  /** Two matchers that agree at every position find the same leftmost match. */
  lemma {:induction false} LeftmostAgree<T>(s: string, a: (string, nat) -> Option<T>, b: (string, nat) -> Option<T>, i: nat)
    requires forall j :: i <= j <= |s| ==> a(s, j) == b(s, j)
    ensures Leftmost(s, a, i) == Leftmost(s, b, i)
    decreases |s| + 1 - i
  {
    if i <= |s| && a(s, i).None? {
      LeftmostAgree(s, a, b, i + 1);
    }
  }
}
