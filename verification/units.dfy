/**
 * The time and memory readers of the performance panels: the regular
 * expressions `(\d+\.?\d*)(ms|µs|ns|s)`, `(\d+\.?\d*)(µs|ms|s)` and
 * `(\d+\.?\d*)\s*(KB|MB|B)` applied with `String.prototype.match`, and the
 * numbers `parseFloat` makes of the captured digits.
 */
module Units {
  import opened Prelude
  import opened Text
  import opened Numerals

  datatype TimeUnit = Nanoseconds | Microseconds | Milliseconds | Seconds

  datatype MemoryUnit = Bytes | Kilobytes | Megabytes

  /** A number read from a metric string together with the unit written after it. */
  datatype Reading<U> = Reading(value: real, unit: U)

  const MicroSuffix := "\U{B5}s"

  function TimeSuffix(u: TimeUnit): string {
    match u
    case Nanoseconds => "ns"
    case Microseconds => MicroSuffix
    case Milliseconds => "ms"
    case Seconds => "s"
  }

  /** Units a reader accepts: every time unit, or every one but nanoseconds. */
  predicate Accepts(nanos: bool, u: TimeUnit) {
    nanos || u != Nanoseconds
  }

  /**
   * The unit alternation at j. The alternatives begin with different
   * characters, so the order in which the two expressions list them does
   * not change which one matches.
   */
  function TimeUnitAt(s: string, j: nat, nanos: bool): (u: Option<TimeUnit>)
    requires j <= |s|
    ensures u.Some? ==> Accepts(nanos, u.value) && StartsWith(s[j..], TimeSuffix(u.value))
    ensures u.None? <==> forall v :: Accepts(nanos, v) ==> !StartsWith(s[j..], TimeSuffix(v))
  {
    if StartsWith(s[j..], "ms") then Some(Milliseconds)
    else if StartsWith(s[j..], MicroSuffix) then Some(Microseconds)
    else if nanos && StartsWith(s[j..], "ns") then Some(Nanoseconds)
    else if StartsWith(s[j..], "s") then Some(Seconds)
    else None
  }

  /** The time expression anchored at i. */
  function TimeAt(s: string, i: nat, nanos: bool): Option<Reading<TimeUnit>> {
    match DecimalAt(s, i)
    case None => None
    case Some(d) =>
      match TimeUnitAt(s, d.end, nanos)
      case None => None
      case Some(u) => Some(Reading(d.value, u))
  }

  /** An anchored match is always in a unit the reader accepts. */
  lemma TimeAtAccepts(s: string, i: nat, nanos: bool)
    ensures TimeAt(s, i, nanos).Some? ==> Accepts(nanos, TimeAt(s, i, nanos).value.unit)
  {
  }

  function TimeMatcher(nanos: bool): (string, nat) -> Option<Reading<TimeUnit>> {
    (s: string, i: nat) => TimeAt(s, i, nanos)
  }

  /** `s.match(...)` for the time expression, with or without the `ns` alternative. */
  function FirstTime(s: string, nanos: bool): Option<Reading<TimeUnit>> {
    Leftmost(s, TimeMatcher(nanos), 0)
  }

  /** The conversion to milliseconds shared by both time readers. */
  function InMilliseconds(r: Reading<TimeUnit>): (ms: real)
    ensures r.value >= 0.0 ==> ms >= 0.0
  {
    match r.unit
    case Nanoseconds => r.value / 1000000.0
    case Microseconds => r.value / 1000.0
    case Milliseconds => r.value
    case Seconds => r.value * 1000.0
  }

  function MemorySuffix(u: MemoryUnit): string {
    match u
    case Bytes => "B"
    case Kilobytes => "KB"
    case Megabytes => "MB"
  }

  function MemoryUnitAt(s: string, j: nat): (u: Option<MemoryUnit>)
    requires j <= |s|
    ensures u.Some? ==> StartsWith(s[j..], MemorySuffix(u.value))
    ensures u.None? <==> forall v :: !StartsWith(s[j..], MemorySuffix(v))
  {
    if StartsWith(s[j..], "KB") then Some(Kilobytes)
    else if StartsWith(s[j..], "MB") then Some(Megabytes)
    else if StartsWith(s[j..], "B") then Some(Bytes)
    else None
  }

  /** The memory expression anchored at i: number, any white space, unit. */
  function MemoryAt(s: string, i: nat): Option<Reading<MemoryUnit>> {
    match DecimalAt(s, i)
    case None => None
    case Some(d) =>
      match MemoryUnitAt(s, SpaceRunEnd(s, d.end))
      case None => None
      case Some(u) => Some(Reading(d.value, u))
  }

  function MemoryMatcher(): (string, nat) -> Option<Reading<MemoryUnit>> {
    (s: string, i: nat) => MemoryAt(s, i)
  }

  function FirstMemory(s: string): Option<Reading<MemoryUnit>> {
    Leftmost(s, MemoryMatcher(), 0)
  }

  function InKilobytes(r: Reading<MemoryUnit>): (kb: real)
    ensures r.value >= 0.0 ==> kb >= 0.0
  {
    match r.unit
    case Bytes => r.value / 1024.0
    case Kilobytes => r.value
    case Megabytes => r.value * 1024.0
  }

  /** Every reading either reader produces carries a non-negative number. */
  lemma ReadingsAreNonNegative(s: string, nanos: bool)
    ensures FirstTime(s, nanos).Some? ==> FirstTime(s, nanos).value.value >= 0.0
    ensures FirstMemory(s).Some? ==> FirstMemory(s).value.value >= 0.0
  {
  }

  // ---------------------------------------------------------------------
  // Reading rendered metrics back.
  // ---------------------------------------------------------------------

  /** The white-space run is determined by where the white space stops. */
  lemma SpaceRunStops(s: string, i: nat, j: nat)
    requires i <= j <= |s|
    requires forall k :: i <= k < j ==> IsSpace(s[k])
    requires j == |s| || !IsSpace(s[j])
    ensures SpaceRunEnd(s, i) == j
  {
  }

  /** A numeral written with a time unit reads back as that number in that unit. */
  lemma TimeReadBack(n: Numeral, u: TimeUnit, nanos: bool)
    requires WellFormed(n) && Accepts(nanos, u)
    ensures FirstTime(Render(n) + TimeSuffix(u), nanos) == Some(Reading(Value(n), u))
  {
    var s := Render(n) + TimeSuffix(u);
    TimeAtNumeral(n, u, nanos);
    assert TimeMatcher(nanos)(s, 0) == TimeAt(s, 0, nanos);
    LeftmostIs(s, TimeMatcher(nanos), 0);
  }

  lemma TimeAtNumeral(n: Numeral, u: TimeUnit, nanos: bool)
    requires WellFormed(n) && Accepts(nanos, u)
    ensures TimeAt(Render(n) + TimeSuffix(u), 0, nanos) == Some(Reading(Value(n), u))
  {
    var s := Render(n) + TimeSuffix(u);
    assert Ends(TimeSuffix(u)) by {
      assert TimeSuffix(u)[0] in {'n', '\U{B5}', 'm', 's'};
    }
    ReadBack(n, TimeSuffix(u));
    assert s[|Render(n)|..] == TimeSuffix(u);
    TimeUnitReads(s, |Render(n)|, u, nanos);
  }

  lemma TimeUnitReads(s: string, k: nat, u: TimeUnit, nanos: bool)
    requires k <= |s| && s[k..] == TimeSuffix(u) && Accepts(nanos, u)
    ensures TimeUnitAt(s, k, nanos) == Some(u)
  {
    var t := s[k..];
    match u {
      case Nanoseconds => assert t[..2] == "ns" && t[0] == 'n';
      case Microseconds => assert t[..2] == MicroSuffix && t[0] == '\U{B5}';
      case Milliseconds => assert t[..2] == "ms";
      case Seconds => assert |t| == 1 && t[0] == 's';
    }
  }

  /** A numeral written with white space and a memory unit reads back as that number in that unit. */
  lemma MemoryReadBack(n: Numeral, gap: string, u: MemoryUnit)
    requires WellFormed(n) && AllSpaces(gap)
    ensures FirstMemory(Render(n) + gap + MemorySuffix(u)) == Some(Reading(Value(n), u))
  {
    var s := Render(n) + gap + MemorySuffix(u);
    MemoryAtNumeral(n, gap, u);
    LeftmostIs(s, MemoryMatcher(), 0);
  }

  lemma MemoryAtNumeral(n: Numeral, gap: string, u: MemoryUnit)
    requires WellFormed(n) && AllSpaces(gap)
    ensures MemoryAt(Render(n) + gap + MemorySuffix(u), 0) == Some(Reading(Value(n), u))
  {
    var r := Render(n);
    var s := r + gap + MemorySuffix(u);
    NumeralBeforeGap(n, gap, MemorySuffix(u));
    GapIsSkipped(r, gap, MemorySuffix(u));
    assert s[|r| + |gap|..] == MemorySuffix(u);
    MemoryUnitReads(s, |r| + |gap|, u);
  }

  /** The numeral in front of white space and a unit is read whole. */
  lemma NumeralBeforeGap(n: Numeral, gap: string, unit: string)
    requires WellFormed(n) && AllSpaces(gap)
    requires |unit| > 0 && 'A' <= unit[0] <= 'Z'
    ensures DecimalAt(Render(n) + gap + unit, 0) == Some(Decimal(Value(n), |Render(n)|))
  {
    assert Render(n) + gap + unit == Render(n) + (gap + unit);
    GapThenUnit(gap, unit);
    ReadBack(n, gap + unit);
  }

  lemma MemoryUnitReads(s: string, k: nat, u: MemoryUnit)
    requires k <= |s| && s[k..] == MemorySuffix(u)
    ensures MemoryUnitAt(s, k) == Some(u)
  {
    var t := s[k..];
    match u {
      case Bytes => assert |t| == 1;
      case Kilobytes => assert t[..2] == "KB";
      case Megabytes => assert t[..2] == "MB" && t[0] != 'K';
    }
  }

  /** White space followed by a letter cannot continue a numeral. */
  lemma GapThenUnit(gap: string, unit: string)
    requires AllSpaces(gap)
    requires |unit| > 0 && 'A' <= unit[0] <= 'Z'
    ensures Ends(gap + unit)
  {
    if |gap| > 0 {
      assert (gap + unit)[0] == gap[0];
    } else {
      assert gap + unit == unit;
    }
  }

  /** The white-space run after a numeral stops at the unit. */
  lemma GapIsSkipped(r: string, gap: string, unit: string)
    requires AllSpaces(gap)
    requires |unit| > 0 && 'A' <= unit[0] <= 'Z'
    ensures SpaceRunEnd(r + gap + unit, |r|) == |r| + |gap|
  {
    var s := r + gap + unit;
    forall k | |r| <= k < |r| + |gap| ensures IsSpace(s[k]) {
      assert s[k] == gap[k - |r|];
    }
    assert s[|r| + |gap|] == unit[0];
    SpaceRunStops(s, |r|, |r| + |gap|);
  }

  /** Without the `ns` alternative a nanosecond figure matches nowhere. */
  lemma NanosecondsUnread(n: Numeral)
    requires WellFormed(n)
    ensures FirstTime(Render(n) + "ns", false).None?
  {
    var s := Render(n) + "ns";
    forall j | 0 <= j <= |s|
      ensures TimeMatcher(false)(s, j).None?
    {
      NoTimeAt(n, j);
    }
  }

  lemma NoTimeAt(n: Numeral, j: nat)
    requires WellFormed(n) && j <= |Render(n) + "ns"|
    ensures TimeAt(Render(n) + "ns", j, false).None?
  {
    var r := Render(n);
    var s := r + "ns";
    if j < |r| && IsDigit(r[j]) {
      assert Ends("ns");
      ReadInside(n, "ns", j);
      assert s[|r|..] == "ns";
      NoNanosecondUnit(s, |r|);
    } else if j < |r| {
      assert s[j] == r[j];
    } else if j < |s| {
      assert s[j] == "ns"[j - |r|];
    }
  }

  lemma NoNanosecondUnit(s: string, k: nat)
    requires k <= |s| && s[k..] == "ns"
    ensures TimeUnitAt(s, k, false).None?
  {
    var t := s[k..];
    assert t[0] == 'n';
  }

  /** A gigabyte figure matches nowhere: GB is not among the memory units. */
  lemma GigabytesUnread(n: Numeral, gap: string)
    requires WellFormed(n) && AllSpaces(gap)
    ensures FirstMemory(Render(n) + gap + "GB").None?
  {
    var s := Render(n) + gap + "GB";
    forall j | 0 <= j <= |s|
      ensures MemoryMatcher()(s, j).None?
    {
      NoMemoryAt(n, gap, j);
    }
  }

  lemma NoMemoryAt(n: Numeral, gap: string, j: nat)
    requires WellFormed(n) && AllSpaces(gap) && j <= |Render(n) + gap + "GB"|
    ensures MemoryAt(Render(n) + gap + "GB", j).None?
  {
    var r := Render(n);
    var s := r + gap + "GB";
    if j < |r| && IsDigit(r[j]) {
      assert s == r + (gap + "GB");
      GapThenUnit(gap, "GB");
      ReadInside(n, gap + "GB", j);
      GapIsSkipped(r, gap, "GB");
      assert s[|r| + |gap|..] == "GB";
      NoGigabyteUnit(s, |r| + |gap|);
    } else if j < |r| {
      assert s[j] == r[j];
    } else if j < |r| + |gap| {
      assert s[j] == gap[j - |r|];
    } else if j < |s| {
      assert s[j] == "GB"[j - |r| - |gap|];
    }
  }

  lemma NoGigabyteUnit(s: string, k: nat)
    requires k <= |s| && s[k..] == "GB"
    ensures MemoryUnitAt(s, k).None?
  {
    var t := s[k..];
    assert t[0] == 'G';
  }

  /** On a string with no "ns" anywhere, the two time readers find the same reading. */
  lemma TimeReadersAgree(s: string)
    requires !Contains(s, "ns")
    ensures FirstTime(s, true) == FirstTime(s, false)
  {
    forall j | 0 <= j <= |s|
      ensures TimeMatcher(true)(s, j) == TimeMatcher(false)(s, j)
    {
      UnitsAgreeAt(s, j);
    }
    LeftmostAgree(s, TimeMatcher(true), TimeMatcher(false), 0);
  }

  /** Where "ns" does not occur, the `ns` alternative changes no anchored match. */
  lemma UnitsAgreeAt(s: string, j: nat)
    requires !Contains(s, "ns") && j <= |s|
    ensures TimeAt(s, j, true) == TimeAt(s, j, false)
  {
    var d := DecimalAt(s, j);
    if d.Some? {
      PresentFrom(s, "ns", d.value.end);
    }
  }
}
