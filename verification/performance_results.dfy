/**
 * The results panel that sets an optimized and an unoptimized analysis side
 * by side: it reads both metric strings into milliseconds and kilobytes and
 * reports how much was saved, never less than nothing.
 */
module PerformanceResults {
  import opened Prelude
  import opened Numerals
  import opened Units
  import opened AnalysisTypes

  /** `formatTime`: the first time figure in milliseconds, nanoseconds included; 0 when none is found. */
  function FormatTime(s: string): (ms: real)
    ensures ms >= 0.0
    ensures FirstTime(s, true).None? ==> ms == 0.0
  {
    ReadingsAreNonNegative(s, true);
    match FirstTime(s, true)
    case None => 0.0
    case Some(r) => InMilliseconds(r)
  }

  /** `formatMemory`: the first memory figure in kilobytes; 0 when none is found. */
  function FormatMemory(s: string): (kb: real)
    ensures kb >= 0.0
    ensures FirstMemory(s).None? ==> kb == 0.0
  {
    ReadingsAreNonNegative(s, true);
    match FirstMemory(s)
    case None => 0.0
    case Some(r) => InKilobytes(r)
  }

  /** A written duration is read back in milliseconds, whatever its unit. */
  lemma FormatTimeReadsBack(n: Numeral, u: TimeUnit)
    requires WellFormed(n)
    ensures FormatTime(Render(n) + TimeSuffix(u)) == InMilliseconds(Reading(Value(n), u))
  {
    TimeReadBack(n, u, true);
  }

  /** A written amount of memory is read back in kilobytes; gigabytes are not read at all. */
  lemma FormatMemoryReadsBack(n: Numeral, gap: string, u: MemoryUnit)
    requires WellFormed(n) && Text.AllSpaces(gap)
    ensures FormatMemory(Render(n) + gap + MemorySuffix(u)) == InKilobytes(Reading(Value(n), u))
    ensures FormatMemory(Render(n) + gap + "GB") == 0.0
  {
    MemoryReadBack(n, gap, u);
    GigabytesUnread(n, gap);
  }

  /** "512 B" is half a kilobyte. */
  lemma BytesExample()
    ensures FormatMemory("512 B") == 0.5
  {
    var n := Numeral("512", None);
    assert Text.AllSpaces(" ");
    FormatMemoryReadsBack(n, " ", Bytes);
    assert Render(n) + " " + MemorySuffix(Bytes) == "512 B";
    assert Text.NatValue("512") == 512 by {
      assert "512"[..2] == "51" && "51"[..1] == "5" && "5"[..0] == "";
    }
  }

  /** "1 KB" is one kilobyte. */
  lemma KilobytesExample()
    ensures FormatMemory("1 KB") == 1.0
  {
    var n := Numeral("1", None);
    OneWithSpace();
    FormatMemoryReadsBack(n, " ", Kilobytes);
    OneKilobyteText();
  }

  lemma OneKilobyteText()
    ensures Render(Numeral("1", None)) + " " + MemorySuffix(Kilobytes) == "1 KB"
  {
  }

  lemma OneMegabyteText()
    ensures Render(Numeral("1", None)) + " " + MemorySuffix(Megabytes) == "1 MB"
  {
  }

  /** The numeral 1 is well formed with value 1, and a single space is white space. */
  lemma OneWithSpace()
    ensures WellFormed(Numeral("1", None)) && Value(Numeral("1", None)) == 1.0
    ensures Text.AllSpaces(" ")
  {
    assert "1"[..0] == "";
  }

  /** "1 MB" is 1024 kilobytes. */
  lemma MegabytesExample()
    ensures FormatMemory("1 MB") == 1024.0
  {
    var n := Numeral("1", None);
    OneWithSpace();
    FormatMemoryReadsBack(n, " ", Megabytes);
    OneMegabyteText();
  }

  /**
   * The saving of `optimized` against `unoptimized`, in percent of the
   * latter, and 0 when the latter is not positive or nothing was saved.
   */
  function ClampedImprovement(optimized: real, unoptimized: real): (p: real)
    ensures p >= 0.0
    ensures p > 0.0 <==> unoptimized > 0.0 && optimized < unoptimized
    ensures optimized >= 0.0 ==> p <= 100.0
    ensures p > 0.0 ==> optimized == unoptimized * (1.0 - p / 100.0)
  {
    var raw :=
      if unoptimized > 0.0 then
        SavedPercent(optimized, unoptimized);
        (unoptimized - optimized) / unoptimized * 100.0
      else 0.0;
    if raw > 0.0 then raw else 0.0
  }

  /**
   * The percentage saved against a non-zero baseline recovers the figure;
   * against a positive baseline it is positive exactly when the figure is
   * lower, and a non-negative figure saves at most everything.
   */
  lemma SavedPercent(optimized: real, unoptimized: real)
    requires unoptimized != 0.0
    ensures optimized == unoptimized * (1.0 - (unoptimized - optimized) / unoptimized * 100.0 / 100.0)
    ensures unoptimized > 0.0 ==> ((unoptimized - optimized) / unoptimized * 100.0 > 0.0 <==> optimized < unoptimized)
    ensures unoptimized > 0.0 && optimized >= 0.0 ==> (unoptimized - optimized) / unoptimized * 100.0 <= 100.0
  {
    var q := (unoptimized - optimized) / unoptimized;
    assert q * unoptimized == unoptimized - optimized;
    assert q * 100.0 / 100.0 == q;
    assert unoptimized * (1.0 - q) == unoptimized - q * unoptimized;
    if unoptimized > 0.0 && q > 0.0 {
      assert q * unoptimized > 0.0;
    } else if unoptimized > 0.0 {
      assert q * unoptimized <= 0.0;
    }
    if unoptimized > 0.0 && optimized >= 0.0 && q > 1.0 {
      assert (q - 1.0) * unoptimized > 0.0;
    }
  }

  /** The four figures of the comparison card. */
  datatype Gains = Gains(timeImprovement: real, memoryImprovement: real, timeDifference: real, memoryDifference: real)

  /**
   * `getPerformanceComparison`: present only when both results are; the
   * improvements are clamped percentages, the differences are not clamped,
   * and an improvement is positive exactly when its difference is.
   */
  function Compare(optimized: Option<AnalysisWithMetrics>, unoptimized: Option<AnalysisWithMetrics>): (g: Option<Gains>)
    ensures g.None? <==> optimized.None? || unoptimized.None?
    ensures g.Some? ==>
      var o, u := optimized.value.metrics, unoptimized.value.metrics;
      && g.value.timeDifference == FormatTime(u.executionTime) - FormatTime(o.executionTime)
      && g.value.memoryDifference == FormatMemory(u.memoryUsage) - FormatMemory(o.memoryUsage)
      && g.value.timeImprovement == ClampedImprovement(FormatTime(o.executionTime), FormatTime(u.executionTime))
      && g.value.memoryImprovement == ClampedImprovement(FormatMemory(o.memoryUsage), FormatMemory(u.memoryUsage))
      && 0.0 <= g.value.timeImprovement <= 100.0
      && 0.0 <= g.value.memoryImprovement <= 100.0
      && (g.value.timeImprovement > 0.0 <==> g.value.timeDifference > 0.0)
      && (g.value.memoryImprovement > 0.0 <==> g.value.memoryDifference > 0.0)
  {
    match (optimized, unoptimized)
    case (Some(o), Some(u)) =>
      var ot, ut := FormatTime(o.metrics.executionTime), FormatTime(u.metrics.executionTime);
      var om, um := FormatMemory(o.metrics.memoryUsage), FormatMemory(u.metrics.memoryUsage);
      Some(Gains(ClampedImprovement(ot, ut), ClampedImprovement(om, um), ut - ot, um - om))
    case _ => None
  }
}
