/**
 * The comparison card shown when both an optimized and an unoptimized run
 * are available: three improvement figures (time, allocated bytes,
 * allocation count), each with a colour band and a progress-bar width.
 */
module PerformanceComparison {
  import opened Prelude
  import opened Numerals
  import opened Units
  import opened AnalysisTypes
  import Text
  import PerformanceResults

  /** `parseTimeToMs`: like the results panel's reader but without nanoseconds. */
  function ParseTimeToMs(s: string): (ms: real)
    ensures ms >= 0.0
    ensures FirstTime(s, false).None? ==> ms == 0.0
  {
    ReadingsAreNonNegative(s, false);
    match FirstTime(s, false)
    case None => 0.0
    case Some(r) => InMilliseconds(r)
  }

  /** Durations in microseconds, milliseconds and seconds read back; nanosecond figures read as 0. */
  lemma ParseTimeReadsBack(n: Numeral, u: TimeUnit)
    requires WellFormed(n)
    ensures u != Nanoseconds ==> ParseTimeToMs(Render(n) + TimeSuffix(u)) == InMilliseconds(Reading(Value(n), u))
    ensures u == Nanoseconds ==> ParseTimeToMs(Render(n) + TimeSuffix(u)) == 0.0
  {
    if u == Nanoseconds {
      NanosecondsUnread(n);
    } else {
      TimeReadBack(n, u, false);
    }
  }

  /** "1500µs" is 1.5 ms and "2.5s" is 2500 ms. */
  lemma ParseTimeExamples()
    ensures ParseTimeToMs("1500\U{B5}s") == 1.5
    ensures ParseTimeToMs("2.5s") == 2500.0
  {
    MicrosecondsExample();
    SecondsExample();
  }

  lemma MicrosecondsExample()
    ensures ParseTimeToMs("1500\U{B5}s") == 1.5
  {
    var n := Numeral("1500", None);
    ParseTimeReadsBack(n, Microseconds);
    assert Render(n) + TimeSuffix(Microseconds) == "1500\U{B5}s";
    assert Text.NatValue("1500") == 1500 by {
      assert "1500"[..3] == "150" && "150"[..2] == "15" && "15"[..1] == "1" && "1"[..0] == "";
    }
  }

  lemma SecondsExample()
    ensures ParseTimeToMs("2.5s") == 2500.0
  {
    var n := Numeral("2", Some("5"));
    TwoAndAHalfSeconds();
    TwoAndAHalf();
    ParseTimeReadsBack(n, Seconds);
  }

  lemma TwoAndAHalfSeconds()
    ensures Render(Numeral("2", Some("5"))) + TimeSuffix(Seconds) == "2.5s"
  {
  }

  lemma TwoAndAHalf()
    ensures WellFormed(Numeral("2", Some("5")))
    ensures Value(Numeral("2", Some("5"))) == 2.5
  {
    assert "2"[..0] == "" && "5"[..0] == "";
    assert Text.NatValue("2") == 2 && Text.NatValue("5") == 5;
    assert Text.Pow(10, 1) == 10;
  }

  /** On text without "ns" the results panel and this card read the same duration. */
  lemma ReadersAgreeWithoutNanoseconds(s: string)
    requires !Text.Contains(s, "ns")
    ensures ParseTimeToMs(s) == PerformanceResults.FormatTime(s)
  {
    TimeReadersAgree(s);
  }

  /** What `calculateImprovement` reports: "N/A", "p%" or "p% worse". */
  datatype Improvement = NotApplicable | Better(percent: real) | Worse(percent: real)

  /**
   * `calculateImprovement`: not applicable exactly when the baseline is 0;
   * otherwise better by p% when the optimized figure is p% lower, and worse
   * by p% when it is p% higher or equal (so no change is "0.0% worse").
   */
  function CalculateImprovement(optimized: real, unoptimized: real): (imp: Improvement)
    ensures imp.NotApplicable? <==> unoptimized == 0.0
    ensures imp.Better? ==> imp.percent > 0.0 && optimized == unoptimized * (1.0 - imp.percent / 100.0)
    ensures imp.Worse? ==> imp.percent >= 0.0 && optimized == unoptimized * (1.0 + imp.percent / 100.0)
    ensures unoptimized > 0.0 ==> (imp.Better? <==> optimized < unoptimized)
    ensures unoptimized > 0.0 && optimized >= 0.0 && imp.Better? ==> imp.percent <= 100.0
  {
    if unoptimized == 0.0 then NotApplicable
    else
      PerformanceResults.SavedPercent(optimized, unoptimized);
      var improvement := (unoptimized - optimized) / unoptimized * 100.0;
      if improvement > 0.0 then Better(improvement) else Worse(-improvement)
  }

  /** Half the time is 50% better, twice the time is 100% worse, the same time is 0% worse. */
  lemma ImprovementExamples()
    ensures CalculateImprovement(100.0, 200.0) == Better(50.0)
    ensures CalculateImprovement(200.0, 100.0) == Worse(100.0)
    ensures CalculateImprovement(5.0, 5.0) == Worse(0.0)
  {
  }

  /**
   * `toFixed(1)` followed by `parseFloat`, for non-negative figures: the
   * nearest tenth, halves rounded up.
   */
  function Round1(x: real): real {
    (10.0 * x + 0.5).Floor as real / 10.0
  }

  /** A figure rounded to tenths exceeds m/10 exactly when the figure is at least (m + 1/2)/10. */
  lemma RoundedAbove(x: real, m: int)
    ensures Round1(x) > m as real / 10.0 <==> x >= (m as real + 0.5) / 10.0
  {
    var f := (10.0 * x + 0.5).Floor;
    assert f as real <= 10.0 * x + 0.5 < f as real + 1.0;
    assert Round1(x) > m as real / 10.0 <==> f > m;
  }

  datatype TextColour = Gray600 | Red600 | Green600 | Green500 | Green400

  datatype Background = Gray100 | Red100 | Green100 | Green50 | Green25

  /**
   * `getImprovementColor`: grey for "N/A", red for "worse", then three
   * green tiers for shown figures above 50, 25 and 0, and red for a gain so
   * small it shows as 0.0%.
   */
  function ColourOf(imp: Improvement): (c: TextColour)
    ensures c == Gray600 <==> imp.NotApplicable?
    ensures c == Green600 <==> imp.Better? && imp.percent >= 50.05
    ensures c == Green500 <==> imp.Better? && 25.05 <= imp.percent < 50.05
    ensures c == Green400 <==> imp.Better? && 0.05 <= imp.percent < 25.05
    ensures c == Red600 <==> imp.Worse? || (imp.Better? && imp.percent < 0.05)
  {
    match imp
    case NotApplicable => Gray600
    case Worse(_) => Red600
    case Better(p) =>
      RoundedAbove(p, 500);
      RoundedAbove(p, 250);
      RoundedAbove(p, 0);
      var shown := Round1(p);
      if shown > 50.0 then Green600
      else if shown > 25.0 then Green500
      else if shown > 0.0 then Green400
      else Red600
  }

  /** `getImprovementBg`: the same decisions with background shades. */
  function BackgroundOf(imp: Improvement): (b: Background)
    ensures b == Gray100 <==> imp.NotApplicable?
    ensures b == Green100 <==> imp.Better? && imp.percent >= 50.05
    ensures b == Green50 <==> imp.Better? && 25.05 <= imp.percent < 50.05
    ensures b == Green25 <==> imp.Better? && 0.05 <= imp.percent < 25.05
    ensures b == Red100 <==> imp.Worse? || (imp.Better? && imp.percent < 0.05)
  {
    match imp
    case NotApplicable => Gray100
    case Worse(_) => Red100
    case Better(p) =>
      RoundedAbove(p, 500);
      RoundedAbove(p, 250);
      RoundedAbove(p, 0);
      var shown := Round1(p);
      if shown > 50.0 then Green100
      else if shown > 25.0 then Green50
      else if shown > 0.0 then Green25
      else Red100
  }

  /** Text colour and background split the improvements into the same five bands. */
  lemma BandsAgree(a: Improvement, b: Improvement)
    ensures ColourOf(a) == ColourOf(b) <==> BackgroundOf(a) == BackgroundOf(b)
  {
  }

  /** A gain of 0.0004% is "better" yet shown in red, since it prints as 0.0%. */
  lemma TinyGainIsRed()
    ensures CalculateImprovement(99.9996, 100.0) == Better(0.0004)
    ensures ColourOf(Better(0.0004)) == Red600
  {
  }

  /**
   * The width of a progress bar, `min(100, max(10, 100 - o/u*100))` in
   * percent, with JavaScript's division by zero: a positive figure over 0
   * pins the bar at 10, a negative one at 100, and 0 over 0 gives no width.
   */
  function BarWidth(optimized: real, unoptimized: real): (w: Option<real>)
    ensures w.None? <==> unoptimized == 0.0 && optimized == 0.0
    ensures w.Some? ==> 10.0 <= w.value <= 100.0
  {
    if unoptimized == 0.0 then
      if optimized > 0.0 then Some(10.0)
      else if optimized < 0.0 then Some(100.0)
      else None
    else
      var raw := 100.0 - optimized / unoptimized * 100.0;
      Some(if raw > 100.0 then 100.0 else if raw < 10.0 then 10.0 else raw)
  }

  /** With a positive baseline the bar shows the improvement itself, held between 10% and 100%. */
  lemma BarTracksImprovement(optimized: real, unoptimized: real)
    requires unoptimized > 0.0
    ensures CalculateImprovement(optimized, unoptimized).Better? ==>
      var p := CalculateImprovement(optimized, unoptimized).percent;
      BarWidth(optimized, unoptimized) == Some(if p > 100.0 then 100.0 else if p < 10.0 then 10.0 else p)
    ensures CalculateImprovement(optimized, unoptimized).Worse? ==> BarWidth(optimized, unoptimized) == Some(10.0)
  {
    var raw := 100.0 - optimized / unoptimized * 100.0;
    assert raw == (unoptimized - optimized) / unoptimized * 100.0;
  }

  /** One row of the card: the improvement and its bar. */
  datatype Figure = Figure(improvement: Improvement, barWidth: Option<real>)

  datatype Card = Card(time: Figure, memory: Figure, allocations: Figure)

  /**
   * The card appears only when both metric sets are present. Time is read
   * from the duration strings; memory compares `allocatedBytes` and
   * allocations compare `totalAllocs`, never the memory strings.
   */
  function CardOf(optimized: Option<PerformanceMetrics>, unoptimized: Option<PerformanceMetrics>): (c: Option<Card>)
    ensures c.None? <==> optimized.None? || unoptimized.None?
    ensures c.Some? ==>
      var o, u := optimized.value, unoptimized.value;
      && c.value.time.improvement == CalculateImprovement(ParseTimeToMs(o.executionTime), ParseTimeToMs(u.executionTime))
      && c.value.memory.improvement == CalculateImprovement(o.allocatedBytes as real, u.allocatedBytes as real)
      && c.value.allocations.improvement == CalculateImprovement(o.totalAllocs as real, u.totalAllocs as real)
      && c.value.time.barWidth == BarWidth(ParseTimeToMs(o.executionTime), ParseTimeToMs(u.executionTime))
      && c.value.memory.barWidth == BarWidth(o.allocatedBytes as real, u.allocatedBytes as real)
      && c.value.allocations.barWidth == BarWidth(o.totalAllocs as real, u.totalAllocs as real)
      && (u.allocatedBytes > 0 ==> c.value.memory.barWidth.Some?)
      && (u.totalAllocs > 0 ==> c.value.allocations.barWidth.Some?)
  {
    match (optimized, unoptimized)
    case (Some(o), Some(u)) =>
      var ot, ut := ParseTimeToMs(o.executionTime), ParseTimeToMs(u.executionTime);
      var ob, ub := o.allocatedBytes as real, u.allocatedBytes as real;
      var oa, ua := o.totalAllocs as real, u.totalAllocs as real;
      Some(Card(
        Figure(CalculateImprovement(ot, ut), BarWidth(ot, ut)),
        Figure(CalculateImprovement(ob, ub), BarWidth(ob, ub)),
        Figure(CalculateImprovement(oa, ua), BarWidth(oa, ua))))
    case _ => None
  }

  /** The memory strings do not influence the card at all. */
  lemma MemoryStringsIgnored(o: PerformanceMetrics, u: PerformanceMetrics, o': string, u': string)
    ensures CardOf(Some(o), Some(u)) == CardOf(Some(o.(memoryUsage := o')), Some(u.(memoryUsage := u')))
  {
  }

  /** The bytes and allocation bars of a card never leave [10, 100] while their baselines are positive. */
  lemma CountBarsBounded(o: PerformanceMetrics, u: PerformanceMetrics)
    requires u.allocatedBytes > 0 && u.totalAllocs > 0
    ensures 10.0 <= CardOf(Some(o), Some(u)).value.memory.barWidth.value <= 100.0
    ensures 10.0 <= CardOf(Some(o), Some(u)).value.allocations.barWidth.value <= 100.0
  {
  }
}
