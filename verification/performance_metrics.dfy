/**
 * The metrics card of one analyzer run: allocated bytes shown in the
 * largest binary unit that keeps the figure at least 1, the duration
 * re-scaled when it is large, the bytes per allocation, and the row of
 * indicator badges.
 */
module PerformanceMetricsPanel {
  import opened Prelude
  import opened Text
  import opened Units
  import opened AnalysisTypes
  import PerformanceComparison

  // ---------------------------------------------------------------------
  // formatBytes
  // ---------------------------------------------------------------------

  datatype SizeUnit = B | KB | MB | GB

  /** The unit names the card knows, indexed by powers of 1024. */
  const Sizes: seq<SizeUnit> := [B, KB, MB, GB]

  /** The figure and the unit name; a missing unit is JavaScript's `undefined` past the end of `Sizes`. */
  datatype ByteText = ByteText(amount: real, unit: Option<SizeUnit>)

  lemma {:induction false} PowMonotone(i: nat, j: nat)
    requires i <= j
    ensures Pow(1024, i) <= Pow(1024, j)
    decreases j
  {
    if i < j {
      PowMonotone(i, j - 1);
    }
  }

  /** One more power of 1024 for a figure 1024 times as large. */
  lemma ScaleUp(b: nat, i: nat)
    requires b >= 1024
    requires Pow(1024, i) <= b / 1024 < Pow(1024, i + 1)
    ensures Pow(1024, i + 1) <= b < Pow(1024, i + 2)
  {
    var q := b / 1024;
    assert Pow(1024, i + 1) == 1024 * Pow(1024, i);
    assert Pow(1024, i + 2) == 1024 * Pow(1024, i + 1);
    assert 1024 * q <= b < 1024 * (q + 1);
    assert 1024 * Pow(1024, i) <= 1024 * q;
    assert 1024 * (q + 1) <= 1024 * Pow(1024, i + 1);
  }

  /**
   * `Math.floor(Math.log(bytes) / Math.log(1024))` with exact arithmetic:
   * the power of 1024 that the figure reaches but does not exceed.
   */
  function UnitIndex(b: nat): (i: nat)
    requires b >= 1
    ensures Pow(1024, i) <= b < Pow(1024, i + 1)
    decreases b
  {
    if b < 1024 then 0
    else
      var i' := UnitIndex(b / 1024);
      ScaleUp(b, i');
      i' + 1
  }

  /** A figure lies between consecutive powers of 1024 for one exponent only. */
  lemma UnitIndexUnique(b: nat, i: nat)
    requires b >= 1 && Pow(1024, i) <= b < Pow(1024, i + 1)
    ensures UnitIndex(b) == i
  {
    var j := UnitIndex(b);
    if j < i {
      PowMonotone(j + 1, i);
    } else if j > i {
      PowMonotone(i + 1, j);
    }
  }

  /** `formatBytes` as written: an index of 4 or more reads past the end of `Sizes`. */
  function FormatBytesAsWritten(b: nat): (t: ByteText)
    ensures b == 0 ==> t == ByteText(0.0, Some(B))
    ensures b > 0 ==> t.amount >= 1.0
  {
    if b == 0 then ByteText(0.0, Some(B))
    else
      var i := UnitIndex(b);
      Scaled(b, Pow(1024, i));
      ByteText(b as real / Pow(1024, i) as real, if i < |Sizes| then Some(Sizes[i]) else None)
  }

  /** A figure divided by a power it reaches is at least 1, and below 1024 when it is below the next power. */
  lemma Scaled(b: nat, p: nat)
    requires 0 < p <= b
    ensures b as real / p as real >= 1.0
    ensures b < 1024 * p ==> b as real / p as real < 1024.0
  {
    var q, c := b as real / p as real, p as real;
    assert q * c == b as real;
    SignOfProduct(q - 1.0, c);
    assert (q - 1.0) * c == q * c - c;
    SignOfProduct(q - 1024.0, c);
    assert (q - 1024.0) * c == q * c - 1024.0 * c;
    assert b < 1024 * p ==> b as real < 1024.0 * c;
  }

  lemma SignOfProduct(x: real, c: real)
    requires c > 0.0
    ensures x < 0.0 ==> x * c < 0.0
    ensures x >= 0.0 ==> x * c >= 0.0
  {
  }

  /** The unit is undefined exactly from one tebibyte (1024^4 bytes) upwards. */
  lemma AsWrittenUndefinedFrom(b: nat)
    ensures FormatBytesAsWritten(b).unit.None? <==> b >= Pow(1024, 4)
  {
    if b > 0 {
      var i := UnitIndex(b);
      if i >= 4 {
        PowMonotone(4, i);
      } else {
        PowMonotone(i + 1, 4);
      }
    }
  }

  /** One tebibyte prints as "1 undefined". */
  lemma TebibyteIsUndefined()
    ensures FormatBytesAsWritten(1099511627776) == ByteText(1.0, None)
  {
    assert Pow(1024, 4) == 1099511627776;
    assert Pow(1024, 5) == 1125899906842624;
    UnitIndexUnique(1099511627776, 4);
  }

  /**
   * `formatBytes` with the index held to the last unit: 0 is "0 B", and any
   * other figure is shown as amount × 1024^k with amount ≥ 1, below 1024
   * unless the unit is GB.
   */
  function FormatBytes(b: nat): (t: ByteText)
    ensures t.unit.Some?
    ensures b == 0 ==> t == ByteText(0.0, Some(B))
    ensures b > 0 ==> exists k ::
      && 0 <= k < |Sizes| && t.unit.value == Sizes[k]
      && t.amount * Pow(1024, k) as real == b as real
      && t.amount >= 1.0
      && (k < 3 ==> t.amount < 1024.0)
  {
    if b == 0 then ByteText(0.0, Some(B))
    else
      var i := UnitIndex(b);
      var k := if i < 3 then i else 3;
      PowMonotone(k, i);
      assert Pow(1024, k + 1) == 1024 * Pow(1024, k);
      Scaled(b, Pow(1024, k));
      var scale := Pow(1024, k) as real;
      assert b as real / scale * scale == b as real;
      ByteText(b as real / scale, Some(Sizes[k]))
  }

  /** Below one tebibyte the held index changes nothing. */
  lemma FormatBytesAgreesBelowTebibyte(b: nat)
    requires b < Pow(1024, 4)
    ensures FormatBytes(b) == FormatBytesAsWritten(b)
  {
    if b > 0 {
      var i := UnitIndex(b);
      if i > 3 {
        PowMonotone(4, i);
      }
    }
  }

  // ---------------------------------------------------------------------
  // formatTime
  // ---------------------------------------------------------------------

  datatype DisplayUnit = InMicros | InMillis | InSeconds

  /** The duration text: the original string, or a re-scaled figure with its unit. */
  datatype TimeDisplay = Verbatim | Shown(amount: real, unit: DisplayUnit)

  function DisplayScale(u: DisplayUnit): real {
    match u
    case InMicros => 0.001
    case InMillis => 1.0
    case InSeconds => 1000.0
  }

  /** The duration a shown figure stands for, in milliseconds. */
  function ShownMilliseconds(d: TimeDisplay): real
    requires d.Shown?
  {
    d.amount * DisplayScale(d.unit)
  }

  /** The first duration the card's reader finds is in unit u. */
  predicate ReadIn(s: string, u: TimeUnit) {
    FirstTime(s, false).Some? && FirstTime(s, false).value.unit == u
  }

  /**
   * How one reading is shown: microseconds below 1000 as they are, from 1000
   * as milliseconds, milliseconds from 1000 as seconds, anything else verbatim.
   * A re-scaled figure is the same duration, in range for its unit.
   */
  function DisplayReading(r: Reading<TimeUnit>): (d: TimeDisplay)
    ensures d.Shown? ==> ShownMilliseconds(d) == InMilliseconds(r)
    ensures d.Shown? && d.unit == InMicros ==> d.amount < 1000.0
    ensures d.Shown? && d.unit != InMicros ==> d.amount >= 1.0
    ensures d.Shown? && d.unit == InMicros <==> r.unit == Microseconds && r.value < 1000.0
    ensures d.Shown? && d.unit == InMillis <==> r.unit == Microseconds && r.value >= 1000.0
    ensures d.Shown? && d.unit == InSeconds <==> r.unit == Milliseconds && r.value >= 1000.0
    ensures d.Verbatim? <==> r.unit.Nanoseconds? || r.unit.Seconds? || (r.unit == Milliseconds && r.value < 1000.0)
  {
    if r.unit == Microseconds && r.value < 1000.0 then Shown(r.value, InMicros)
    else if r.unit == Microseconds then Shown(r.value / 1000.0, InMillis)
    else if r.unit == Milliseconds && r.value >= 1000.0 then Shown(r.value / 1000.0, InSeconds)
    else Verbatim
  }

  /** The reader of the comparison card never reports nanoseconds. */
  lemma NoNanosecondReading(s: string)
    ensures FirstTime(s, false).Some? ==> FirstTime(s, false).value.unit != Nanoseconds
  {
    var r := FirstTime(s, false);
    if r.Some? {
      var k :| 0 <= k <= |s| && TimeMatcher(false)(s, k) == r;
      TimeAtAccepts(s, k, false);
    }
  }

  /**
   * `formatTime` of the card: microseconds stay microseconds below 1000 and
   * become milliseconds from 1000; milliseconds from 1000 become seconds;
   * everything else, including unreadable text, is shown verbatim. A
   * re-scaled figure is the same duration the comparison card reads.
   */
  function DisplayTime(s: string): (d: TimeDisplay)
    ensures d.Shown? ==> ShownMilliseconds(d) == PerformanceComparison.ParseTimeToMs(s)
    ensures d.Shown? && d.unit == InMicros ==> d.amount < 1000.0
    ensures d.Shown? && d.unit != InMicros ==> d.amount >= 1.0
    ensures d.Shown? && d.unit == InMicros <==> ReadIn(s, Microseconds) && FirstTime(s, false).value.value < 1000.0
    ensures d.Shown? && d.unit == InMillis <==> ReadIn(s, Microseconds) && FirstTime(s, false).value.value >= 1000.0
    ensures d.Shown? && d.unit == InSeconds <==> ReadIn(s, Milliseconds) && FirstTime(s, false).value.value >= 1000.0
    ensures d.Verbatim? <==> match FirstTime(s, false)
      case None => true
      case Some(r) => r.unit == Seconds || (r.unit == Milliseconds && r.value < 1000.0)
  {
    match FirstTime(s, false)
    case None => Verbatim
    case Some(r) =>
      NoNanosecondReading(s);
      assert PerformanceComparison.ParseTimeToMs(s) == InMilliseconds(r);
      DisplayReading(r)
  }

  // ---------------------------------------------------------------------
  // Bytes per allocation
  // ---------------------------------------------------------------------

  /** "x B/alloc" with x the mean allocation, or the fixed text "0 B/alloc". */
  datatype Efficiency = PerAllocation(bytes: real) | NoAllocations

  function EfficiencyOf(m: PerformanceMetrics): (e: Efficiency)
    ensures e.NoAllocations? <==> m.totalAllocs == 0
    ensures e.PerAllocation? ==> e.bytes * m.totalAllocs as real == m.allocatedBytes as real && e.bytes >= 0.0
  {
    if m.totalAllocs > 0 then PerAllocation(m.allocatedBytes as real / m.totalAllocs as real)
    else NoAllocations
  }

  // ---------------------------------------------------------------------
  // Indicator badges
  // ---------------------------------------------------------------------

  predicate Numeric(c: char) {
    IsDigit(c) || c == '.'
  }

  /** `s.replace(/[^\d.]/g, '')`: the digits and dots of s, in order. */
  function KeepNumeric(s: string): (t: string)
    ensures |t| <= |s|
    ensures |s| == 1 ==> (t == s <==> Numeric(s[0])) && (!Numeric(s[0]) ==> t == "")
    ensures forall i :: 0 <= i < |t| ==> Numeric(t[i])
    ensures (forall i :: 0 <= i < |s| ==> Numeric(s[i])) ==> t == s
  {
    if |s| == 0 then []
    else KeepNumeric(s[..|s| - 1]) + (if Numeric(s[|s| - 1]) then [s[|s| - 1]] else [])
  }

  /** Stripping is a homomorphism: pieces are stripped independently. */
  lemma {:induction false} KeepNumericAppend(a: string, b: string)
    ensures KeepNumeric(a + b) == KeepNumeric(a) + KeepNumeric(b)
    decreases |b|
  {
    if |b| > 0 {
      assert (a + b)[..|a + b| - 1] == a + b[..|b| - 1];
      KeepNumericAppend(a, b[..|b| - 1]);
    } else {
      assert a + b == a;
    }
  }

  /** Stripping twice is stripping once. */
  lemma KeepNumericIdempotent(s: string)
    ensures KeepNumeric(KeepNumeric(s)) == KeepNumeric(s)
  {
  }

  /**
   * `parseFloat` of a string of digits and dots: the leading `\d+\.?\d*`, or
   * a leading dot and digits; None stands for NaN.
   */
  function LeadingNumber(t: string): (v: Option<real>)
    ensures v.Some? <==> (|t| > 0 && IsDigit(t[0])) || (|t| > 1 && t[0] == '.' && IsDigit(t[1]))
    ensures v.Some? ==> v.value >= 0.0
  {
    match DecimalAt(t, 0)
    case Some(d) => Some(d.value)
    case None =>
      if |t| > 1 && t[0] == '.' && IsDigit(t[1]) then Some(Fraction(t[1..DigitRunEnd(t, 1)]))
      else None
  }

  /** A written numeral, and whatever may follow it, is read as its own value. */
  lemma LeadingNumberReadsNumeral(n: Numerals.Numeral, rest: string)
    requires Numerals.WellFormed(n) && Numerals.Ends(rest)
    ensures LeadingNumber(Numerals.Render(n) + rest) == Some(Numerals.Value(n))
  {
    Numerals.ReadBack(n, rest);
  }

  /** A leading point followed by digits is read as that fraction. */
  lemma LeadingNumberReadsFraction(f: string, rest: string)
    requires |f| > 0 && AllDigits(f) && (|rest| == 0 || !IsDigit(rest[0]))
    ensures LeadingNumber("." + f + rest) == Some(Fraction(f))
  {
    var t := "." + f + rest;
    assert t[1..1 + |f|] == f;
    Numerals.DigitRunStops(t, 1, 1 + |f|);
  }

  /** The number the speed badges compare with 1, whatever the unit was. */
  function SpeedFigure(executionTime: string): Option<real> {
    LeadingNumber(KeepNumeric(executionTime))
  }

  /** A string without digits and points strips to nothing. */
  lemma {:induction false} StripsToNothing(s: string)
    requires forall i :: 0 <= i < |s| ==> !Numeric(s[i])
    ensures KeepNumeric(s) == ""
    decreases |s|
  {
    if |s| > 0 {
      StripsToNothing(s[..|s| - 1]);
    }
  }

  /** A unit suffix holds no digit and no point. */
  lemma SuffixStripsAway(u: TimeUnit)
    ensures KeepNumeric(TimeSuffix(u)) == ""
  {
    var t := TimeSuffix(u);
    forall i | 0 <= i < |t| ensures !Numeric(t[i]) {
      assert t[i] in {'n', 's', 'm', '\U{B5}'};
    }
    StripsToNothing(t);
  }

  /**
   * The speed badges read the numeral of any written duration as it stands:
   * "1.5ms" and "1.5s" both give 1.5, since the unit is stripped away.
   */
  lemma SpeedFigureReadsNumeral(n: Numerals.Numeral, u: TimeUnit)
    requires Numerals.WellFormed(n)
    ensures SpeedFigure(Numerals.Render(n) + TimeSuffix(u)) == Some(Numerals.Value(n))
  {
    var r := Numerals.Render(n);
    KeepNumericAppend(r, TimeSuffix(u));
    SuffixStripsAway(u);
    forall i | 0 <= i < |r| ensures Numeric(r[i]) {
      if i >= |n.whole| && n.fraction.Some? && i > |n.whole| {
        assert r[i] == n.fraction.value[i - |n.whole| - 1];
      } else if i < |n.whole| {
        assert r[i] == n.whole[i];
      }
    }
    assert r + "" == r;
    LeadingNumberReadsNumeral(n, "");
  }

  datatype Badge = LowMemory | HighMemory | FastRun | SlowRun | NoCollection | ActiveCollection

  /** The speed badge, absent when the stripped duration is NaN. */
  function SpeedBadges(m: PerformanceMetrics): (sp: seq<Badge>)
    ensures sp == [] || sp == [FastRun] || sp == [SlowRun]
    ensures sp == [FastRun] <==> SpeedFigure(m.executionTime).Some? && SpeedFigure(m.executionTime).value < 1.0
    ensures sp == [SlowRun] <==> SpeedFigure(m.executionTime).Some? && SpeedFigure(m.executionTime).value >= 1.0
  {
    match SpeedFigure(m.executionTime)
    case None => []
    case Some(v) => if v < 1.0 then [FastRun] else [SlowRun]
  }

  /** How often a badge occurs in a row made of a first badge, a middle part and a last badge. */
  lemma RowCount(a: Badge, mid: seq<Badge>, c: Badge, x: Badge)
    ensures multiset([a] + mid + [c])[x] == (if a == x then 1 else 0) + multiset(mid)[x] + (if c == x then 1 else 0)
    ensures x in [a] + mid + [c] <==> multiset([a] + mid + [c])[x] > 0
  {
    assert multiset([a] + mid + [c]) == multiset{a} + multiset(mid) + multiset{c};
  }

  predicate MemoryBadge(b: Badge) {
    b == LowMemory || b == HighMemory
  }

  predicate CollectionBadge(b: Badge) {
    b == NoCollection || b == ActiveCollection
  }

  predicate SpeedPart(sp: seq<Badge>) {
    sp == [] || sp == [FastRun] || sp == [SlowRun]
  }

  /** A row of a memory badge, a speed part and a collection badge holds one memory badge. */
  lemma OneMemoryBadge(a: Badge, sp: seq<Badge>, c: Badge)
    requires MemoryBadge(a) && SpeedPart(sp) && CollectionBadge(c)
    ensures multiset([a] + sp + [c])[LowMemory] + multiset([a] + sp + [c])[HighMemory] == 1
    ensures LowMemory in [a] + sp + [c] <==> a == LowMemory
  {
    assert multiset(sp)[LowMemory] == 0 && multiset(sp)[HighMemory] == 0;
    RowCount(a, sp, c, LowMemory);
    RowCount(a, sp, c, HighMemory);
  }

  /** ... and one collection badge. */
  lemma OneCollectionBadge(a: Badge, sp: seq<Badge>, c: Badge)
    requires MemoryBadge(a) && SpeedPart(sp) && CollectionBadge(c)
    ensures multiset([a] + sp + [c])[NoCollection] + multiset([a] + sp + [c])[ActiveCollection] == 1
    ensures NoCollection in [a] + sp + [c] <==> c == NoCollection
  {
    assert multiset(sp)[NoCollection] == 0 && multiset(sp)[ActiveCollection] == 0;
    RowCount(a, sp, c, NoCollection);
    RowCount(a, sp, c, ActiveCollection);
  }

  /** ... and exactly the speed badges of its speed part. */
  lemma SpeedBadgesOfRow(a: Badge, sp: seq<Badge>, c: Badge)
    requires MemoryBadge(a) && SpeedPart(sp) && CollectionBadge(c)
    ensures multiset([a] + sp + [c])[FastRun] + multiset([a] + sp + [c])[SlowRun] <= 1
    ensures FastRun in [a] + sp + [c] <==> sp == [FastRun]
    ensures SlowRun in [a] + sp + [c] <==> sp == [SlowRun]
  {
    assert multiset(sp)[FastRun] == (if sp == [FastRun] then 1 else 0);
    assert multiset(sp)[SlowRun] == (if sp == [SlowRun] then 1 else 0);
    RowCount(a, sp, c, FastRun);
    RowCount(a, sp, c, SlowRun);
  }

  /**
   * The indicator row: exactly one memory badge and one garbage-collection
   * badge; a speed badge only when the stripped duration is a number, since
   * both comparisons with NaN are false.
   */
  function Badges(m: PerformanceMetrics): (row: seq<Badge>)
    ensures multiset(row)[LowMemory] + multiset(row)[HighMemory] == 1
    ensures LowMemory in row <==> m.allocatedBytes < 10000
    ensures multiset(row)[NoCollection] + multiset(row)[ActiveCollection] == 1
    ensures NoCollection in row <==> m.gcCycles == 0
    ensures multiset(row)[FastRun] + multiset(row)[SlowRun] <= 1
    ensures FastRun in row <==> SpeedFigure(m.executionTime).Some? && SpeedFigure(m.executionTime).value < 1.0
    ensures SlowRun in row <==> SpeedFigure(m.executionTime).Some? && SpeedFigure(m.executionTime).value >= 1.0
  {
    var memory := if m.allocatedBytes < 10000 then LowMemory else HighMemory;
    var speed := SpeedBadges(m);
    var collection := if m.gcCycles == 0 then NoCollection else ActiveCollection;
    OneMemoryBadge(memory, speed, collection);
    OneCollectionBadge(memory, speed, collection);
    SpeedBadgesOfRow(memory, speed, collection);
    [memory] + speed + [collection]
  }

  /** "500µs" strips to "500" and earns the slow badge. */
  lemma MicrosecondsLookSlow()
    ensures SpeedFigure("500\U{B5}s") == Some(500.0)
  {
    var n := Numerals.Numeral("500", None);
    FiveHundred();
    SpeedFigureReadsNumeral(n, Microseconds);
    FiveHundredMicrosecondsText();
  }

  lemma FiveHundredMicrosecondsText()
    ensures Numerals.Render(Numerals.Numeral("500", None)) + TimeSuffix(Microseconds) == "500\U{B5}s"
  {
  }

  lemma FiveHundred()
    ensures Numerals.WellFormed(Numerals.Numeral("500", None))
    ensures Numerals.Value(Numerals.Numeral("500", None)) == 500.0
  {
    assert "500"[..2] == "50" && "50"[..1] == "5" && "5"[..0] == "";
  }

  /** "0.9s" strips to "0.9" and earns the fast badge. */
  lemma SecondsLookFast()
    ensures SpeedFigure("0.9s") == Some(0.9)
  {
    var n := Numerals.Numeral("0", Some("9"));
    NineTenths();
    SpeedFigureReadsNumeral(n, Seconds);
    NineTenthsSeconds();
  }

  /**
   * The speed badge ignores the unit: half a millisecond is called slow
   * while nine hundred milliseconds are called fast.
   */
  lemma SpeedBadgeIgnoresUnit(m: PerformanceMetrics)
    ensures m.executionTime == "500\U{B5}s" ==> SlowRun in Badges(m) && PerformanceComparison.ParseTimeToMs(m.executionTime) < 1.0
    ensures m.executionTime == "0.9s" ==> FastRun in Badges(m) && PerformanceComparison.ParseTimeToMs(m.executionTime) > 1.0
  {
    MicrosecondsLookSlow();
    SecondsLookFast();
    HalfMillisecond();
    NineHundredMilliseconds();
  }

  lemma HalfMillisecond()
    ensures PerformanceComparison.ParseTimeToMs("500\U{B5}s") == 0.5
  {
    var n := Numerals.Numeral("500", None);
    FiveHundred();
    PerformanceComparison.ParseTimeReadsBack(n, Microseconds);
    assert Numerals.Render(n) + TimeSuffix(Microseconds) == "500\U{B5}s";
  }

  lemma NineTenths()
    ensures Numerals.WellFormed(Numerals.Numeral("0", Some("9")))
    ensures Numerals.Value(Numerals.Numeral("0", Some("9"))) == 0.9
  {
    assert "0"[..0] == "" && "9"[..0] == "";
    assert NatValue("9") == 9;
    assert Pow(10, 1) == 10;
    assert Fraction("9") == 0.9;
  }

  lemma NineHundredMilliseconds()
    ensures PerformanceComparison.ParseTimeToMs("0.9s") == 900.0
  {
    var n := Numerals.Numeral("0", Some("9"));
    NineTenthsSeconds();
    NineTenths();
    PerformanceComparison.ParseTimeReadsBack(n, Seconds);
  }

  lemma NineTenthsSeconds()
    ensures Numerals.Render(Numerals.Numeral("0", Some("9"))) + TimeSuffix(Seconds) == "0.9s"
  {
  }
}
