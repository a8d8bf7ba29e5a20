/**
 * The page controller: three handlers (plain analysis, unoptimized
 * analysis, performance comparison), each with its own loading flag, and
 * three result slots. Starting a handler and resolving its request are
 * events; the page state after a sequence of events is their left fold.
 */
module Session {
  import opened Prelude
  import opened AnalysisTypes

  datatype Handler = Analyze | AnalyzeUnoptimized | Compare

  datatype Loading = Loading(normal: bool, unoptimized: bool, comparison: bool)

  /** The comparison slot holds both sides; the page treats it as one variant. */
  datatype Pair = Pair(optimized: Option<AnalysisWithMetrics>, unoptimized: Option<AnalysisWithMetrics>)

  const EmptyPair := Pair(None, None)

  datatype State = State(
    analysis: Option<AnalysisResult>,
    unoptimized: Option<AnalysisWithMetrics>,
    comparison: Pair,
    loading: Loading)

  const Initial := State(None, None, EmptyPair, Loading(false, false, false))

  /**
   * A handler starting, or a request resolving. The comparison resolves
   * once for both requests: `Promise.all` rejects when either leg fails.
   */
  datatype Event =
    | Start(handler: Handler)
    | AnalyzeDone(result: Outcome<AnalysisResult>)
    | UnoptimizedDone(outcome: Outcome<AnalysisWithMetrics>)
    | CompareDone(optimized: Outcome<AnalysisWithMetrics>, unoptimized: Outcome<AnalysisWithMetrics>)

  function HandlerOf(e: Event): Handler {
    match e
    case Start(h) => h
    case AnalyzeDone(_) => Analyze
    case UnoptimizedDone(_) => AnalyzeUnoptimized
    case CompareDone(_, _) => Compare
  }

  predicate IsLoading(l: Loading, h: Handler) {
    match h
    case Analyze => l.normal
    case AnalyzeUnoptimized => l.unoptimized
    case Compare => l.comparison
  }

  /** One flag set, the other two kept. */
  function SetLoading(l: Loading, h: Handler, v: bool): (l': Loading)
    ensures IsLoading(l', h) == v
    ensures forall g :: g != h ==> IsLoading(l', g) == IsLoading(l, g)
  {
    match h
    case Analyze => l.(normal := v)
    case AnalyzeUnoptimized => l.(unoptimized := v)
    case Compare => l.(comparison := v)
  }

  const ConnectionError := "Error de conexi\U{F3}n con el servidor"

  /** What a failed plain analysis shows: invalid, no tokens, one connection error. */
  const AnalysisFailure := AnalysisResult(false, [], [ConnectionError], [])

  /** What a failed unoptimized analysis shows: the same kind of error and zeroed metrics. */
  const UnoptimizedFailure := AnalysisWithMetrics(
    AnalysisResult(false, [], [ConnectionError + " no optimizado"], []),
    PerformanceMetrics("0ms", "0 KB", 0, 0, 0, 0.0))

  predicate IsSuccess(e: Event) {
    match e
    case Start(_) => false
    case AnalyzeDone(r) => r.Success?
    case UnoptimizedDone(r) => r.Success?
    case CompareDone(o, u) => o.Success? && u.Success?
  }

  /**
   * One event. Only the handler's own flag moves: up at its start, down at
   * its resolution. A success fills the handler's slot and empties the
   * other two; a failure writes the handler's failure payload (nothing, for
   * the comparison) and leaves the other slots as they were.
   */
  function Step(s: State, e: Event): (t: State)
    ensures IsLoading(t.loading, HandlerOf(e)) == e.Start?
    ensures forall g :: g != HandlerOf(e) ==> IsLoading(t.loading, g) == IsLoading(s.loading, g)
    ensures e.Start? ==> t.analysis == s.analysis && t.unoptimized == s.unoptimized && t.comparison == s.comparison
    ensures e.AnalyzeDone? ==>
      && t.analysis == Some(if e.result.Success? then e.result.value else AnalysisFailure)
      && (e.result.Success? ==> t.unoptimized.None? && t.comparison == EmptyPair)
      && (e.result.Failure? ==> t.unoptimized == s.unoptimized && t.comparison == s.comparison)
    ensures e.UnoptimizedDone? ==>
      && t.unoptimized == Some(if e.outcome.Success? then e.outcome.value else UnoptimizedFailure)
      && (e.outcome.Success? ==> t.analysis.None? && t.comparison == EmptyPair)
      && (e.outcome.Failure? ==> t.analysis == s.analysis && t.comparison == s.comparison)
    ensures e.CompareDone? ==>
      if IsSuccess(e) then
        t.comparison == Pair(Some(e.optimized.value), Some(e.unoptimized.value)) && t.analysis.None? && t.unoptimized.None?
      else
        t.comparison == EmptyPair && t.analysis == s.analysis && t.unoptimized == s.unoptimized
  {
    match e
    case Start(h) =>
      s.(loading := SetLoading(s.loading, h, true))
    case AnalyzeDone(r) =>
      var loading := SetLoading(s.loading, Analyze, false);
      if r.Success? then State(Some(r.value), None, EmptyPair, loading)
      else s.(analysis := Some(AnalysisFailure), loading := loading)
    case UnoptimizedDone(r) =>
      var loading := SetLoading(s.loading, AnalyzeUnoptimized, false);
      if r.Success? then State(None, Some(r.value), EmptyPair, loading)
      else s.(unoptimized := Some(UnoptimizedFailure), loading := loading)
    case CompareDone(o, u) =>
      var loading := SetLoading(s.loading, Compare, false);
      if o.Success? && u.Success? then State(None, None, Pair(Some(o.value), Some(u.value)), loading)
      else s.(comparison := EmptyPair, loading := loading)
  }

  /** The page state after a sequence of events, oldest first. */
  function Run(s: State, events: seq<Event>): State
    decreases |events|
  {
    if |events| == 0 then s else Step(Run(s, events[..|events| - 1]), events[|events| - 1])
  }

  // ---------------------------------------------------------------------
  // What the page shows.
  // ---------------------------------------------------------------------

  /** How many of the three result variants hold something. */
  function Populated(s: State): (n: nat)
    ensures n <= 3
  {
    (if s.analysis.Some? then 1 else 0)
    + (if s.unoptimized.Some? then 1 else 0)
    + (if s.comparison != EmptyPair then 1 else 0)
  }

  /** The comparison view needs both sides. */
  predicate ComparisonShown(s: State) {
    s.comparison.optimized.Some? && s.comparison.unoptimized.Some?
  }

  /** Both sides present or both absent. */
  predicate Whole(p: Pair) {
    p.optimized.Some? <==> p.unoptimized.Some?
  }

  /** After a successful resolution exactly one variant is on the page: the handler's own. */
  lemma SuccessIsExclusive(s: State, e: Event)
    requires IsSuccess(e)
    ensures Populated(Step(s, e)) == 1
    ensures HandlerOf(e) == Analyze ==> Step(s, e).analysis.Some?
    ensures HandlerOf(e) == AnalyzeUnoptimized ==> Step(s, e).unoptimized.Some?
    ensures HandlerOf(e) == Compare ==> ComparisonShown(Step(s, e))
  {
  }

  /**
   * A failure leaves the other handlers' slots as they were: the plain and
   * unoptimized failures can only add a variant, the comparison's failure
   * can only empty its own slot.
   */
  lemma FailureOnlyAdds(s: State, e: Event)
    requires !e.Start? && !IsSuccess(e)
    ensures HandlerOf(e) != Analyze ==> Step(s, e).analysis == s.analysis
    ensures HandlerOf(e) != AnalyzeUnoptimized ==> Step(s, e).unoptimized == s.unoptimized
    ensures HandlerOf(e) != Compare ==> Step(s, e).comparison == s.comparison
    ensures HandlerOf(e) == Compare ==> Populated(Step(s, e)) <= Populated(s)
    ensures HandlerOf(e) != Compare ==> Populated(Step(s, e)) >= Populated(s)
  {
  }

  /** A plain analysis followed by a failed unoptimized one leaves two variants on the page. */
  lemma FailureCanLeaveTwoVariants(r: AnalysisResult)
    ensures var s := Run(Initial, [Start(Analyze), AnalyzeDone(Success(r)), Start(AnalyzeUnoptimized), UnoptimizedDone(Failure)]);
      s.analysis == Some(r) && s.unoptimized == Some(UnoptimizedFailure) && Populated(s) == 2
  {
    var trace := [Start(Analyze), AnalyzeDone(Success(r)), Start(AnalyzeUnoptimized), UnoptimizedDone(Failure)];
    assert trace[..1][..0] == [];
    assert trace[..2][..1] == trace[..1];
    assert trace[..3][..2] == trace[..2];
    assert trace[..4] == trace;
    var s1 := Step(Initial, Start(Analyze));
    var s2 := Step(s1, AnalyzeDone(Success(r)));
    var s3 := Step(s2, Start(AnalyzeUnoptimized));
    assert Run(Initial, trace[..1]) == s1;
    assert Run(Initial, trace[..2]) == s2;
    assert Run(Initial, trace[..3]) == s3;
  }

  /** No sequence of events leaves exactly one side of the comparison filled. */
  lemma {:induction false} NeverHalfPopulated(s: State, events: seq<Event>)
    requires Whole(s.comparison)
    ensures Whole(Run(s, events).comparison)
    decreases |events|
  {
    if |events| > 0 {
      NeverHalfPopulated(s, events[..|events| - 1]);
    }
  }

  /** From the initial page, the comparison view is shown exactly when the comparison slot is not empty. */
  lemma ComparisonShownIffFilled(events: seq<Event>)
    ensures ComparisonShown(Run(Initial, events)) <==> Run(Initial, events).comparison != EmptyPair
  {
    NeverHalfPopulated(Initial, events);
  }

  /** Events of other handlers never move a handler's loading flag. */
  lemma {:induction false} FlagsAreIndependent(s: State, events: seq<Event>, h: Handler)
    requires forall i :: 0 <= i < |events| ==> HandlerOf(events[i]) != h
    ensures IsLoading(Run(s, events).loading, h) == IsLoading(s.loading, h)
    decreases |events|
  {
    if |events| > 0 {
      FlagsAreIndependent(s, events[..|events| - 1], h);
    }
  }

  /** A handler's flag is up exactly when its latest event was its start. */
  lemma {:induction false} FlagFollowsLatestEvent(s: State, events: seq<Event>, h: Handler, k: nat)
    requires k < |events| && HandlerOf(events[k]) == h
    requires forall i :: k < i < |events| ==> HandlerOf(events[i]) != h
    ensures IsLoading(Run(s, events).loading, h) == events[k].Start?
    decreases |events|
  {
    if k < |events| - 1 {
      FlagFollowsLatestEvent(s, events[..|events| - 1], h, k);
    }
  }
}
