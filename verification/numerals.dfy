/**
 * Decimal numerals as the servers write them ("12", "1.5", "3."), and the
 * facts that let the regular-expression readers of the Text module be run
 * backwards: a rendered numeral is read back, whole, at every digit inside it.
 */
module Numerals {
  import opened Prelude
  import opened Text

  /** Digits before the point, and the digits after it when there is a point. */
  datatype Numeral = Numeral(whole: string, fraction: Option<string>)

  predicate WellFormed(n: Numeral) {
    && |n.whole| > 0 && AllDigits(n.whole)
    && (n.fraction.Some? ==> AllDigits(n.fraction.value))
  }

  function Render(n: Numeral): string {
    match n.fraction
    case None => n.whole
    case Some(f) => n.whole + "." + f
  }

  /** What `parseFloat` makes of the rendered numeral. */
  function Value(n: Numeral): real
    requires WellFormed(n)
  {
    match n.fraction
    case None => NatValue(n.whole) as real
    case Some(f) => NatValue(n.whole) as real + Fraction(f)
  }

  /** What may follow a numeral without being read as part of it. */
  predicate Ends(rest: string) {
    |rest| == 0 || (!IsDigit(rest[0]) && rest[0] != '.')
  }

  /** The greedy digit run is determined by where the digits stop. */
  lemma DigitRunStops(s: string, i: nat, j: nat)
    requires i <= j <= |s|
    requires forall k :: i <= k < j ==> IsDigit(s[k])
    requires j == |s| || !IsDigit(s[j])
    ensures DigitRunEnd(s, i) == j
  {
  }

  /** Read from its first digit, a numeral followed by a terminator yields its own value and length. */
  lemma ReadBack(n: Numeral, rest: string)
    requires WellFormed(n) && Ends(rest)
    ensures DecimalAt(Render(n) + rest, 0) == Some(Decimal(Value(n), |Render(n)|))
  {
    var s := Render(n) + rest;
    var w := |n.whole|;
    assert s[..w] == n.whole;
    assert s[0] == n.whole[0];
    match n.fraction {
      case None =>
        DigitRunStops(s, 0, w);
        assert s[0..w] == n.whole;
      case Some(f) =>
        ReadBackFraction(n, rest);
    }
  }

  /** The fraction case of ReadBack: digits, a point, digits, then the terminator. */
  lemma ReadBackFraction(n: Numeral, rest: string)
    requires WellFormed(n) && Ends(rest) && n.fraction.Some?
    ensures DecimalAt(Render(n) + rest, 0) == Some(Decimal(Value(n), |Render(n)|))
  {
    var s := Render(n) + rest;
    var w, f := |n.whole|, n.fraction.value;
    FractionLayout(n, rest);
    DigitsRunTo(s, 0, n.whole);
    DigitsRunTo(s, w + 1, f);
  }

  /** Where the pieces of a rendered numeral with a fraction sit. */
  lemma FractionLayout(n: Numeral, rest: string)
    requires WellFormed(n) && Ends(rest) && n.fraction.Some?
    ensures var s, w, f := Render(n) + rest, |n.whole|, n.fraction.value;
      && |Render(n)| == w + 1 + |f| <= |s|
      && s[0..w] == n.whole && s[w] == '.' && s[w + 1..w + 1 + |f|] == f
      && (w + 1 + |f| == |s| || !IsDigit(s[w + 1 + |f|]))
  {
    var s, w, f := Render(n) + rest, |n.whole|, n.fraction.value;
    assert s == n.whole + ("." + f + rest);
    assert s[w + 1..] == f + rest;
  }

  /** A digit string d sitting at i, and not followed by a digit, is the greedy run from i. */
  lemma DigitsRunTo(s: string, i: nat, d: string)
    requires AllDigits(d) && i + |d| <= |s| && s[i..i + |d|] == d
    requires i + |d| == |s| || !IsDigit(s[i + |d|])
    ensures DigitRunEnd(s, i) == i + |d|
  {
    forall k | i <= k < i + |d| ensures IsDigit(s[k]) {
      assert s[k] == d[k - i];
    }
    DigitRunStops(s, i, i + |d|);
  }

  /** Read from any digit inside it, a numeral followed by a terminator ends where it ends. */
  lemma ReadInside(n: Numeral, rest: string, j: nat)
    requires WellFormed(n) && Ends(rest)
    requires j < |Render(n)| && IsDigit(Render(n)[j])
    ensures DecimalAt(Render(n) + rest, j).Some?
    ensures DecimalAt(Render(n) + rest, j).value.end == |Render(n)|
  {
    var s := Render(n) + rest;
    var w := |n.whole|;
    assert s[j] == Render(n)[j];
    match n.fraction {
      case None =>
        DigitRunStops(s, j, w);
      case Some(f) =>
        if j < w {
          DigitRunStops(s, j, w);
          assert s[w] == '.';
          DigitRunStops(s, w + 1, w + 1 + |f|);
        } else {
          assert j != w;
          DigitRunStops(s, j, w + 1 + |f|);
        }
    }
  }
}
