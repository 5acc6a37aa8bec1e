/** The research snapshot, the neutral bands and the readiness gate, spelled out: histories row by row, roots
    by their squares, and evidence needs agent by agent. */
module ResearchContract {
  import opened Common
  import opened Scoring
  import T = Thresholds
  import R = Readiness

  // ----- The sample deviation -----

  function SumFrom(xs: seq<real>, k: nat): real
    requires k <= |xs|
    decreases |xs| - k
  {
    if k == |xs| then 0.0 else xs[k] + SumFrom(xs, k + 1)
  }

  function Area(side: real): real {
    side * side
  }

  function SpreadFrom(xs: seq<real>, mean: real, k: nat): real
    requires k <= |xs|
    decreases |xs| - k
  {
    if k == |xs| then 0.0 else Area(xs[k] - mean) + SpreadFrom(xs, mean, k + 1)
  }

  /** The variance of twenty numbers: the summed squares of their distances to the mean, over nineteen. */
  predicate IsVariance(xs: seq<real>, mean: real, variance: real) {
    |xs| == 20 && 20.0 * mean == SumFrom(xs, 0) && 19.0 * variance == SpreadFrom(xs, mean, 0)
  }

  lemma {:induction false} SumSplits(xs: seq<real>, k: nat)
    requires k <= |xs|
    ensures Sum(xs) == Sum(xs[..k]) + SumFrom(xs, k)
    decreases |xs| - k
  {
    if k == |xs| {
      assert xs[..k] == xs;
    } else {
      SumSplits(xs, k + 1);
      assert xs[..k + 1][..k] == xs[..k];
    }
  }

  lemma SpreadStep(xs: seq<real>, mean: real, k: nat)
    requires k < |xs|
    ensures T.SquaredDeviations(xs[..k + 1], mean) - T.SquaredDeviations(xs[..k], mean) == SpreadFrom(xs, mean, k) - SpreadFrom(xs, mean, k + 1)
  {
    assert xs[..k + 1][..k] == xs[..k];
    var side := xs[k] - mean;
    assert T.SquaredDeviations(xs[..k + 1], mean) == T.SquaredDeviations(xs[..k], mean) + Square(side);
    AreaIs(side);
  }

  lemma AreaIs(side: real)
    ensures Area(side) == Square(side)
  {
  }

  lemma {:induction false} SpreadSplits(xs: seq<real>, mean: real, k: nat)
    requires k <= |xs|
    ensures T.SquaredDeviations(xs, mean) == T.SquaredDeviations(xs[..k], mean) + SpreadFrom(xs, mean, k)
    decreases |xs| - k
  {
    if k == |xs| {
      assert xs[..k] == xs;
    } else {
      SpreadSplits(xs, mean, k + 1);
      SpreadStep(xs, mean, k);
    }
  }

  lemma VarianceIff(xs: seq<real>, mean: real, variance: real)
    requires |xs| == 20
    ensures mean == Sum(xs) / 20.0 && variance == T.SampleVariance(xs) <==> IsVariance(xs, mean, variance)
  {
    SumSplits(xs, 0);
    SpreadSplits(xs, mean, 0);
    assert xs[..0] == [];
  }

  /** `deviation` is a non-negative root of the variance. */
  ghost predicate IsDeviation(xs: seq<real>, deviation: real) {
    deviation >= 0.0 && exists mean, variance :: IsVariance(xs, mean, variance) && deviation * deviation == variance
  }

  lemma RootIsUnique(x: real, y: real)
    requires x >= 0.0 && y >= 0.0 && x * x == y * y
    ensures x == y
  {
    assert (x - y) * (x + y) == 0.0;
    if x != y {
      NonZeroProduct(x - y, x + y);
    }
  }

  lemma NonZeroProduct(x: real, y: real)
    requires x != 0.0 && y != 0.0
    ensures x * y != 0.0
  {
  }

  lemma DeviationIff(xs: seq<real>, deviation: real, sqrt: real -> real)
    requires |xs| == 20 && T.IsRootFunction(sqrt)
    ensures deviation == T.SampleDeviation(xs, sqrt) <==> IsDeviation(xs, deviation)
  {
    var variance := T.SampleVariance(xs);
    T.VarianceIsNonNegative(xs);
    assert sqrt(variance) >= 0.0 && sqrt(variance) * sqrt(variance) == variance;
    VarianceIff(xs, Sum(xs) / 20.0, variance);
    if IsDeviation(xs, deviation) {
      var mean, v :| IsVariance(xs, mean, v) && deviation * deviation == v;
      VarianceIff(xs, mean, v);
      RootIsUnique(deviation, sqrt(variance));
    }
  }

  // ----- The snapshot -----

  /** The changes of the last twenty rows. */
  ghost predicate AreLastChanges(rows: seq<T.DailyReturn>, xs: seq<real>) {
    |rows| >= 20 && |xs| == 20 && forall k :: 0 <= k < 20 ==> xs[k] == rows[|rows| - 20 + k].change
  }

  ghost predicate DatesIncrease(rows: seq<T.DailyReturn>) {
    forall j, k :: 0 <= j < k < |rows| ==> rows[j].date < rows[k].date
  }

  ghost predicate VolatilityFits(rows: seq<T.DailyReturn>, volatility: real) {
    volatility >= 0.0 && exists xs, deviation :: AreLastChanges(rows, xs) && IsDeviation(xs, deviation) && Near(volatility, deviation)
  }

  /** At least twenty rows in strictly increasing sessions, up to the base session and known at the cutoff,
      and the deviation of the last twenty as volatility. */
  ghost predicate HistoryFits(i: T.Instrument, base: int, cutoff: int) {
    && |i.history| >= 20 && DatesIncrease(i.history) && VolatilityFits(i.history, i.volatility)
    && i.history[|i.history| - 1].date == base
    && (forall k :: 0 <= k < |i.history| ==> i.history[k].observed <= cutoff && i.history[k].ingested <= cutoff)
  }

  ghost predicate SessionsFit(base: int, sessions: seq<int>) {
    && |sessions| >= 20 && sessions[0] > base && forall j, k :: 0 <= j < k < |sessions| ==> sessions[j] < sessions[k]
  }

  ghost predicate CalendarFits(s: T.Snapshot) {
    && s.calendar.payload.baseSession == s.baseSession && s.calendar.payload.sessions == s.futureSessions
    && s.calendar.sourceHash == s.calendar.payload
    && s.calendar.observed <= s.cutoff && s.calendar.ingested <= s.cutoff
  }

  ghost predicate SameSessions(a: seq<T.DailyReturn>, b: seq<T.DailyReturn>) {
    |a| == |b| && forall k :: 0 <= k < |a| ==> a[k].date == b[k].date
  }

  ghost predicate InstrumentsFit(s: T.Snapshot) {
    && (forall code :: code in s.instruments <==> code == Id("000852.SH") || code == Id("000300.SH"))
    && (forall code :: code in s.instruments ==>
          s.instruments[code].code == code && HistoryFits(s.instruments[code], s.baseSession, s.cutoff))
    && SameSessions(s.instruments[Id("000852.SH")].history, s.instruments[Id("000300.SH")].history)
  }

  ghost predicate SnapshotFits(s: T.Snapshot, program: Id) {
    && s.programHash == program && s.cutoff <= s.asOf && s.cutoff <= s.created
    && InstrumentsFit(s) && SessionsFit(s.baseSession, s.futureSessions) && CalendarFits(s)
    && (forall k :: 0 <= k < |s.items| ==> s.items[k].published <= s.cutoff && s.items[k].ingested <= s.cutoff)
  }

  lemma TrailingChanges(rows: seq<T.DailyReturn>, xs: seq<real>)
    requires |rows| >= 20
    ensures xs == T.Changes(T.Trailing(rows)) <==> AreLastChanges(rows, xs)
  {
    if AreLastChanges(rows, xs) {
      assert forall k :: 0 <= k < 20 ==> xs[k] == T.Changes(T.Trailing(rows))[k];
    }
  }

  lemma VolatilityIff(rows: seq<T.DailyReturn>, volatility: real, sqrt: real -> real)
    requires |rows| >= 20 && T.IsRootFunction(sqrt)
    ensures volatility >= 0.0 && IsClose(volatility, T.SampleDeviation(T.Changes(T.Trailing(rows)), sqrt), 0.000000000001) <==>
            VolatilityFits(rows, volatility)
  {
    var changes := T.Changes(T.Trailing(rows));
    var deviation := T.SampleDeviation(changes, sqrt);
    TrailingChanges(rows, changes);
    DeviationIff(changes, deviation, sqrt);
    NearIff(volatility, deviation);
    if VolatilityFits(rows, volatility) {
      var xs, d :| AreLastChanges(rows, xs) && IsDeviation(xs, d) && Near(volatility, d);
      TrailingChanges(rows, xs);
      DeviationIff(changes, d, sqrt);
    }
  }

  lemma DatesIff(rows: seq<T.DailyReturn>)
    ensures T.Ascending(T.Dates(rows)) && Unique(T.Dates(rows)) == T.Dates(rows) <==> DatesIncrease(rows)
  {
    T.OrderedUniqueIff(T.Dates(rows));
    assert forall k :: 0 <= k < |rows| ==> T.Dates(rows)[k] == rows[k].date;
  }

  lemma HistoryIff(i: T.Instrument, base: int, cutoff: int, sqrt: real -> real)
    requires T.IsRootFunction(sqrt)
    ensures T.InstrumentValid(i, sqrt) && T.ReturnsInTime(i, base, cutoff) <==> HistoryFits(i, base, cutoff)
  {
    if |i.history| >= 20 {
      DatesIff(i.history);
      VolatilityIff(i.history, i.volatility, sqrt);
    }
  }

  lemma SessionsIff(base: int, sessions: seq<int>)
    ensures |sessions| >= 20 && T.SessionsValid(base, sessions) <==> SessionsFit(base, sessions)
  {
    T.OrderedUniqueIff(sessions);
  }

  lemma SameSessionsIff(a: seq<T.DailyReturn>, b: seq<T.DailyReturn>)
    ensures T.Dates(a) == T.Dates(b) <==> SameSessions(a, b)
  {
    if T.Dates(a) == T.Dates(b) {
      assert |T.Dates(a)| == |T.Dates(b)|;
      forall k | 0 <= k < |a| ensures a[k].date == b[k].date {
        assert T.Dates(a)[k] == T.Dates(b)[k];
      }
    }
  }

  lemma CodesIff(s: T.Snapshot)
    ensures s.instruments.Keys == {T.CSI1000, T.CSI300} <==>
            forall code :: code in s.instruments <==> code == Id("000852.SH") || code == Id("000300.SH")
  {
    assert forall code :: code in s.instruments.Keys <==> code in s.instruments;
  }

  lemma ValidInstrumentsFit(s: T.Snapshot, sqrt: real -> real)
    requires T.InstrumentsValid(s, sqrt) && T.IsRootFunction(sqrt)
    ensures InstrumentsFit(s)
  {
    CodesIff(s);
    SameSessionsIff(s.instruments[T.CSI1000].history, s.instruments[T.CSI300].history);
    forall code | code in s.instruments ensures HistoryFits(s.instruments[code], s.baseSession, s.cutoff) {
      HistoryIff(s.instruments[code], s.baseSession, s.cutoff, sqrt);
    }
  }

  lemma FittingInstrumentsAreValid(s: T.Snapshot, sqrt: real -> real)
    requires InstrumentsFit(s) && T.IsRootFunction(sqrt)
    ensures T.InstrumentsValid(s, sqrt)
  {
    CodesIff(s);
    SameSessionsIff(s.instruments[T.CSI1000].history, s.instruments[T.CSI300].history);
    forall code | code in s.instruments
      ensures T.InstrumentValid(s.instruments[code], sqrt) && T.ReturnsInTime(s.instruments[code], s.baseSession, s.cutoff)
    {
      HistoryIff(s.instruments[code], s.baseSession, s.cutoff, sqrt);
    }
  }

  /** The research snapshot's validator accepts exactly this. */
  lemma SnapshotIff(s: T.Snapshot, program: Id, sqrt: real -> real)
    requires T.IsRootFunction(sqrt)
    ensures T.SnapshotValid(s, program, sqrt) <==> SnapshotFits(s, program)
  {
    SessionsIff(s.baseSession, s.futureSessions);
    if T.InstrumentsValid(s, sqrt) {
      ValidInstrumentsFit(s, sqrt);
    }
    if InstrumentsFit(s) {
      FittingInstrumentsAreValid(s, sqrt);
    }
  }

  // ----- The neutral bands -----

  predicate IsRoot(r: real, x: real) {
    r >= 0.0 && r * r == x
  }

  /** The difference of the two indices' changes in each of their last twenty sessions. */
  ghost predicate AreDifferences(a: seq<T.DailyReturn>, b: seq<T.DailyReturn>, xs: seq<real>) {
    && |a| >= 20 && |b| >= 20 && |xs| == 20
    && forall k :: 0 <= k < 20 ==> xs[k] == a[|a| - 20 + k].change - b[|b| - 20 + k].change
  }

  ghost predicate IsBand(t: real, volatility: real, sessions: real) {
    exists r :: IsRoot(r, sessions) && t == 0.25 * volatility * r
  }

  ghost predicate IsRelativeBand(t: real, a: seq<T.DailyReturn>, b: seq<T.DailyReturn>) {
    exists xs, deviation :: AreDifferences(a, b, xs) && IsDeviation(xs, deviation) && IsBand(t, deviation, 5.0)
  }

  /** A quarter of the volatility over one session, a quarter of it over twenty, and for the week a quarter of
      the relative volatility over five. */
  ghost predicate ThresholdIs(s: T.Snapshot, target: T.Target, t: real)
    requires Id("000852.SH") in s.instruments && Id("000300.SH") in s.instruments
  {
    match target
    case NextSession => t == 0.25 * s.instruments[Id("000852.SH")].volatility
    case RelativeWeek => IsRelativeBand(t, s.instruments[Id("000852.SH")].history, s.instruments[Id("000300.SH")].history)
    case MonthResearch => IsBand(t, s.instruments[Id("000852.SH")].volatility, 20.0)
    case Unknown(_) => false
  }

  lemma RootIs(x: real, r: real, sqrt: real -> real)
    requires T.IsRootFunction(sqrt) && x >= 0.0
    ensures r == sqrt(x) <==> IsRoot(r, x)
  {
    assert sqrt(x) >= 0.0 && sqrt(x) * sqrt(x) == x;
    if IsRoot(r, x) {
      RootIsUnique(r, sqrt(x));
    }
  }

  lemma BandOf(t: real, volatility: real, sessions: real, root: real)
    requires IsRoot(root, sessions)
    ensures t == 0.25 * volatility * root <==> IsBand(t, volatility, sessions)
  {
    if IsBand(t, volatility, sessions) {
      var r :| IsRoot(r, sessions) && t == 0.25 * volatility * r;
      RootIsUnique(r, root);
    }
  }

  lemma BandIff(t: real, volatility: real, h: T.ResearchHorizon, sessions: real, sqrt: real -> real)
    requires T.IsRootFunction(sqrt) && volatility >= 0.0 && sessions == T.SessionCount(h) as real
    ensures T.AbsoluteThreshold(volatility, h, sqrt) == Ok(t) <==> IsBand(t, volatility, sessions)
  {
    RootIs(sessions, sqrt(sessions), sqrt);
    BandOf(t, volatility, sessions, sqrt(sessions));
  }

  lemma OneSession(volatility: real, t: real)
    ensures t == 0.25 * volatility <==> IsBand(t, volatility, 1.0)
  {
    BandOf(t, volatility, 1.0, 1.0);
  }

  lemma DifferencesOfRows(a: seq<T.DailyReturn>, b: seq<T.DailyReturn>, ds: seq<real>, xs: seq<real>)
    requires |a| >= 20 && |b| >= 20 && |ds| == 20
    requires forall k :: 0 <= k < 20 ==> ds[k] == T.Trailing(a)[k].change - T.Trailing(b)[k].change
    ensures xs == ds <==> AreDifferences(a, b, xs)
  {
    assert forall k :: 0 <= k < 20 ==> T.Trailing(a)[k] == a[|a| - 20 + k] && T.Trailing(b)[k] == b[|b| - 20 + k];
    if AreDifferences(a, b, xs) {
      assert forall k :: 0 <= k < 20 ==> xs[k] == ds[k];
    }
  }

  lemma DifferencesAre(s: T.Snapshot, program: Id, sqrt: real -> real, xs: seq<real>)
    requires T.SnapshotValid(s, program, sqrt)
    ensures xs == T.RelativeDifferences(s) <==> AreDifferences(s.instruments[T.CSI1000].history, s.instruments[T.CSI300].history, xs)
  {
    T.DifferencesAreRowByRow(s, program, sqrt);
    T.HistoryIsStrict(s, program, sqrt, T.CSI1000);
    T.HistoryIsStrict(s, program, sqrt, T.CSI300);
    DifferencesOfRows(s.instruments[T.CSI1000].history, s.instruments[T.CSI300].history, T.RelativeDifferences(s), xs);
  }

  lemma RelativeIs(s: T.Snapshot, program: Id, sqrt: real -> real)
    requires T.SnapshotValid(s, program, sqrt) && T.IsRootFunction(sqrt)
    ensures |T.RelativeDifferences(s)| == 20 && T.RelativeVolatility(s, sqrt) == Ok(T.SampleDeviation(T.RelativeDifferences(s), sqrt))
    ensures T.SampleDeviation(T.RelativeDifferences(s), sqrt) >= 0.0
  {
    T.SharedDatesAreTheLastTwenty(s, program, sqrt);
    T.VarianceIsNonNegative(T.RelativeDifferences(s));
  }

  lemma RelativeThreshold(s: T.Snapshot, t: real, deviation: real, sqrt: real -> real)
    requires T.CSI1000 in s.instruments && T.CSI300 in s.instruments && T.IsRootFunction(sqrt)
    requires T.RelativeVolatility(s, sqrt) == Ok(deviation) && deviation >= 0.0
    ensures T.ThresholdForTarget(s, T.RelativeWeek, sqrt) == Ok(t) <==> IsBand(t, deviation, 5.0)
  {
    assert T.ThresholdForTarget(s, T.RelativeWeek, sqrt) == T.AbsoluteThreshold(deviation, T.W1, sqrt);
    BandIff(t, deviation, T.W1, 5.0, sqrt);
  }

  lemma RelativeBandIff(s: T.Snapshot, program: Id, t: real, sqrt: real -> real)
    requires T.SnapshotValid(s, program, sqrt) && T.IsRootFunction(sqrt)
    ensures T.ThresholdForTarget(s, T.RelativeWeek, sqrt) == Ok(t) <==>
            IsRelativeBand(t, s.instruments[T.CSI1000].history, s.instruments[T.CSI300].history)
  {
    RelativeIs(s, program, sqrt);
    var xs := T.RelativeDifferences(s);
    var deviation := T.SampleDeviation(xs, sqrt);
    RelativeThreshold(s, t, deviation, sqrt);
    DifferencesAre(s, program, sqrt, xs);
    DeviationIff(xs, deviation, sqrt);
    if IsRelativeBand(t, s.instruments[T.CSI1000].history, s.instruments[T.CSI300].history) {
      var ys, d :| AreDifferences(s.instruments[T.CSI1000].history, s.instruments[T.CSI300].history, ys) && IsDeviation(ys, d) && IsBand(t, d, 5.0);
      DifferencesAre(s, program, sqrt, ys);
      DeviationIff(xs, d, sqrt);
    }
  }

  lemma ValidVolatility(s: T.Snapshot, program: Id, sqrt: real -> real)
    requires T.SnapshotValid(s, program, sqrt)
    ensures HasInstruments(s)
  {
  }

  ghost predicate HasInstruments(s: T.Snapshot) {
    T.CSI1000 in s.instruments && T.CSI300 in s.instruments && s.instruments[T.CSI1000].volatility >= 0.0
  }

  lemma NextIff(s: T.Snapshot, t: real, sqrt: real -> real)
    requires HasInstruments(s) && T.IsRootFunction(sqrt)
    ensures T.ThresholdForTarget(s, T.NextSession, sqrt) == Ok(t) <==> t == 0.25 * s.instruments[T.CSI1000].volatility
  {
    var volatility := s.instruments[T.CSI1000].volatility;
    BandIff(t, volatility, T.H1, 1.0, sqrt);
    OneSession(volatility, t);
  }

  lemma MonthIff(s: T.Snapshot, t: real, sqrt: real -> real)
    requires HasInstruments(s) && T.IsRootFunction(sqrt)
    ensures T.ThresholdForTarget(s, T.MonthResearch, sqrt) == Ok(t) <==> IsBand(t, s.instruments[T.CSI1000].volatility, 20.0)
  {
    BandIff(t, s.instruments[T.CSI1000].volatility, T.H20, 20.0, sqrt);
  }

  /** On a valid snapshot the threshold of a target is exactly this. */
  lemma ThresholdIff(s: T.Snapshot, program: Id, target: T.Target, t: real, sqrt: real -> real)
    requires T.SnapshotValid(s, program, sqrt) && T.IsRootFunction(sqrt)
    ensures HasInstruments(s)
    ensures T.ThresholdForTarget(s, target, sqrt) == Ok(t) <==> ThresholdIs(s, target, t)
  {
    ValidVolatility(s, program, sqrt);
    match target
    case NextSession => NextIff(s, t, sqrt);
    case RelativeWeek => RelativeBandIff(s, program, t, sqrt);
    case MonthResearch => MonthIff(s, t, sqrt);
    case Unknown(_) =>
  }

  // ----- What the readiness gate demands -----

  /** The instrument has to be spoken for in the category: both indices for index exposure; and for natural
      views the primary index for the market news and the macro agent, both for the industry agent. */
  predicate Needs(a: R.Assignment, category: R.Category, i: Id) {
    match category
    case IndexExposure => i == Id("000852.SH") || i == Id("000300.SH")
    case MarketContext => a.naturalView && a.agent == R.MarketNews && i == Id("000852.SH")
    case MacroContext => a.naturalView && a.agent == R.MacroPolicy && i == Id("000852.SH")
    case ExpectationsContext => a.naturalView && a.agent == R.MacroPolicy && i == Id("000852.SH")
    case IndustryContext => a.naturalView && a.agent == R.AiStorage && (i == Id("000852.SH") || i == Id("000300.SH"))
    case CompanyIndexMapping => a.naturalView && a.agent == R.AiStorage && (i == Id("000852.SH") || i == Id("000300.SH"))
  }

  predicate SpokenFor(bindings: seq<R.Binding>, a: R.Assignment, category: R.Category, i: Id) {
    exists b :: b in bindings && b.category == category && b.item in a.allowed && i in b.instruments
  }

  predicate Lacks(bindings: seq<R.Binding>, a: R.Assignment, category: R.Category, i: Id) {
    Needs(a, category, i) && !SpokenFor(bindings, a, category, i)
  }

  /** An issue names a live, non-deterministic assignment and a category, and all instruments it lacks there. */
  ghost predicate IsIssueOf(bindings: seq<R.Binding>, a: R.Assignment, issue: R.Issue) {
    && !a.deterministic && issue.assignment == a.id
    && (forall i :: i in issue.missing <==> Lacks(bindings, a, issue.category, i))
    && exists i :: i in issue.missing
  }

  ghost predicate NothingLacks(bindings: seq<R.Binding>, assignments: seq<R.Assignment>) {
    forall a, category, i :: a in assignments && !a.deterministic ==> !Lacks(bindings, a, category, i)
  }

  lemma NeedsIff(a: R.Assignment, category: R.Category, i: Id)
    ensures Needs(a, category, i) <==> exists r :: r in R.Required(a) && r.category == category && i in r.instruments
  {
    var both, primary := {R.CSI1000, R.CSI300}, {R.CSI1000};
    var rs := R.Required(a);
    assert rs[0] == R.Requirement(R.IndexExposure, both);
    if a.naturalView {
      match a.agent
      case MarketNews => assert rs[1] == R.Requirement(R.MarketContext, primary);
      case MacroPolicy => assert rs[1] == R.Requirement(R.MacroContext, primary) && rs[2] == R.Requirement(R.ExpectationsContext, primary);
      case AiStorage => assert rs[1] == R.Requirement(R.IndustryContext, both) && rs[2] == R.Requirement(R.CompanyIndexMapping, both);
      case OtherAgent(_) =>
    }
  }

  lemma RequirementIsUnique(a: R.Assignment, r: R.Requirement, q: R.Requirement)
    requires r in R.Required(a) && q in R.Required(a) && r.category == q.category
    ensures r == q
  {
  }

  lemma MissingIs(bindings: seq<R.Binding>, a: R.Assignment, r: R.Requirement)
    requires r in R.Required(a)
    ensures forall i :: i in r.instruments - R.Covered(bindings, a, r.category) <==> Lacks(bindings, a, r.category, i)
  {
    OwnRequirement(a, r);
    forall i ensures i in R.Covered(bindings, a, r.category) <==> SpokenFor(bindings, a, r.category, i) {
      R.CoveredIff(bindings, a, r.category, i);
    }
  }

  lemma IssueIff(bindings: seq<R.Binding>, a: R.Assignment, issue: R.Issue)
    requires !a.deterministic
    ensures R.IsIssue(bindings, a, R.Required(a), issue) <==> IsIssueOf(bindings, a, issue)
  {
    if R.IsIssue(bindings, a, R.Required(a), issue) {
      var r :| r in R.Required(a) && issue == R.Issue(a.id, r.category, r.instruments - R.Covered(bindings, a, r.category));
      MissingIs(bindings, a, r);
      var i :| i in issue.missing;
    }
    if IsIssueOf(bindings, a, issue) {
      IssueHasRequirement(bindings, a, issue);
    }
  }

  lemma IssueHasRequirement(bindings: seq<R.Binding>, a: R.Assignment, issue: R.Issue)
    requires IsIssueOf(bindings, a, issue)
    ensures R.IsIssue(bindings, a, R.Required(a), issue)
  {
    var i :| i in issue.missing;
    assert Lacks(bindings, a, issue.category, i);
    NeedsIff(a, issue.category, i);
    var r :| r in R.Required(a) && r.category == issue.category && i in r.instruments;
    MissingIs(bindings, a, r);
    assert issue.missing == r.instruments - R.Covered(bindings, a, r.category);
  }

  lemma OwnRequirement(a: R.Assignment, r: R.Requirement)
    requires r in R.Required(a)
    ensures forall i :: i in r.instruments <==> Needs(a, r.category, i)
  {
    forall i ensures i in r.instruments <==> Needs(a, r.category, i) {
      NeedsIff(a, r.category, i);
      forall q | q in R.Required(a) && q.category == r.category ensures q == r {
        RequirementIsUnique(a, r, q);
      }
    }
  }

  /** The reported issues are exactly these. */
  lemma ReportedIff(bindings: seq<R.Binding>, assignments: seq<R.Assignment>, demo: bool, issue: R.Issue)
    ensures issue in R.ReportOf(bindings, assignments, demo).issues <==> !demo && exists a :: a in assignments && IsIssueOf(bindings, a, issue)
  {
    R.IssuesAreExact(bindings, assignments, demo, issue);
    forall a: R.Assignment | !a.deterministic ensures R.IsIssue(bindings, a, R.Required(a), issue) <==> IsIssueOf(bindings, a, issue) {
      IssueIff(bindings, a, issue);
    }
  }

  /** A live task is ready exactly when nothing is lacking. */
  lemma StatusIs(bindings: seq<R.Binding>, assignments: seq<R.Assignment>, demo: bool)
    ensures var report := R.ReportOf(bindings, assignments, demo);
            report.status == (if demo then R.DemoOnly else if NothingLacks(bindings, assignments) then R.Ready else R.NotReady)
  {
    R.ReadyIff(bindings, assignments, demo);
    if !demo {
      SpokenIff(bindings, assignments);
    }
  }

  lemma SpokenIff(bindings: seq<R.Binding>, assignments: seq<R.Assignment>)
    ensures R.AllSpokenFor(bindings, assignments, false) <==> NothingLacks(bindings, assignments)
  {
    if R.AllSpokenFor(bindings, assignments, false) {
      forall a, category, i | a in assignments && !a.deterministic ensures !Lacks(bindings, a, category, i) {
        NeedsIff(a, category, i);
      }
    }
    if NothingLacks(bindings, assignments) {
      forall a, r, i | a in assignments && !a.deterministic && r in R.Required(a) && i in r.instruments
        ensures R.Speaks(bindings, a, r.category, i)
      {
        NeedsIff(a, r.category, i);
        assert !Lacks(bindings, a, r.category, i);
      }
    }
  }

  // ----- The admission and the request -----

  predicate InForce(b: R.Binding, base: int, next: int) {
    if b.category == R.IndexExposure || b.category == R.CompanyIndexMapping then b.from <= next <= b.through
    else b.from <= base <= b.through
  }

  /** The binding names an item of the snapshot under its own hash, is in force for its session, and lists
      some instruments, each once. */
  ghost predicate BindingStands(b: R.Binding, s: T.Snapshot)
    requires |s.futureSessions| >= 1
  {
    && (exists i :: i in s.items && i.id == b.item && i.sourceHash == b.sourceHash) && InForce(b, s.baseSession, s.futureSessions[0])
    && |b.instruments| >= 1 && forall j, k :: 0 <= j < k < |b.instruments| ==> b.instruments[j] != b.instruments[k]
  }

  ghost predicate BindingsAreDistinct(bindings: seq<R.Binding>) {
    forall j, k :: 0 <= j < k < |bindings| ==> bindings[j].category != bindings[k].category || bindings[j].item != bindings[k].item
  }

  ghost predicate AdmissionFits(s: T.Snapshot, admission: Option<R.Admission>)
    requires |s.futureSessions| >= 1
  {
    && (forall j, k :: 0 <= j < k < |s.items| ==> s.items[j].id != s.items[k].id)
    && (admission.Some? ==>
          && admission.value.snapshotHash == s.contentHash && BindingsAreDistinct(admission.value.bindings)
          && forall b :: b in admission.value.bindings ==> BindingStands(b, s))
  }

  function BindingsIn(admission: Option<R.Admission>): seq<R.Binding> {
    match admission
    case Some(a) => a.bindings
    case None => []
  }

  predicate IsTarget(assignments: seq<R.Assignment>, t: T.Target) {
    exists a :: a in assignments && a.target == t
  }

  ghost predicate ThresholdsAre(s: T.Snapshot, thresholds: map<T.Target, real>)
    requires Id("000852.SH") in s.instruments && Id("000300.SH") in s.instruments
  {
    forall t :: t in thresholds ==> ThresholdIs(s, t, thresholds[t])
  }

  /** The targets of the assignments, each with its own threshold, and no others. */
  ghost predicate ThresholdsFit(s: T.Snapshot, assignments: seq<R.Assignment>, thresholds: map<T.Target, real>)
    requires Id("000852.SH") in s.instruments && Id("000300.SH") in s.instruments
  {
    && (forall t :: t in thresholds <==> IsTarget(assignments, t))
    && ThresholdsAre(s, thresholds)
  }

  predicate ReportFits(r: R.Request) {
    && r.report.issues == [] && (r.demo <==> r.report.status == R.DemoOnly) && (!r.demo <==> r.report.status == R.Ready)
  }

  ghost predicate RequestFits(r: R.Request, program: Id) {
    && SnapshotFits(r.snapshot, program) && AdmissionFits(r.snapshot, r.admission)
    && (r.demo || NothingLacks(BindingsIn(r.admission), r.assignments)) && ReportFits(r)
    && ThresholdsFit(r.snapshot, r.assignments, r.thresholds)
  }

  lemma KeysAreDistinct(bindings: seq<R.Binding>)
    ensures Unique(Map(bindings, (b: R.Binding) => (b.category, b.item))) == Map(bindings, (b: R.Binding) => (b.category, b.item)) <==>
            BindingsAreDistinct(bindings)
  {
    var keys := Map(bindings, (b: R.Binding) => (b.category, b.item));
    UniqueIff(keys);
    assert forall k :: 0 <= k < |bindings| ==> keys[k] == (bindings[k].category, bindings[k].item);
  }

  lemma ViewItem(s: T.Snapshot, id: Id, sourceHash: Id)
    requires |s.futureSessions| >= 1
    ensures R.Item(id, sourceHash) in R.View(s).items <==> exists i :: i in s.items && i.id == id && i.sourceHash == sourceHash
  {
    var items := R.View(s).items;
    if R.Item(id, sourceHash) in items {
      var k :| 0 <= k < |items| && items[k] == R.Item(id, sourceHash);
      assert s.items[k] in s.items;
    }
    if i :| i in s.items && i.id == id && i.sourceHash == sourceHash {
      var k :| 0 <= k < |s.items| && s.items[k] == i;
      assert items[k] == R.Item(id, sourceHash);
    }
  }

  lemma StandsIff(b: R.Binding, s: T.Snapshot)
    requires |s.futureSessions| >= 1
    ensures R.BindingHolds(R.View(s), b) && R.BindingValid(b) <==> BindingStands(b, s)
  {
    ViewItem(s, b.item, b.sourceHash);
    UniqueIff(b.instruments);
  }

  lemma ItemsAreDistinct(s: T.Snapshot)
    requires |s.futureSessions| >= 1
    ensures Unique(R.ItemIds(R.View(s))) == R.ItemIds(R.View(s)) <==> forall j, k :: 0 <= j < k < |s.items| ==> s.items[j].id != s.items[k].id
  {
    UniqueIff(R.ItemIds(R.View(s)));
    assert forall k :: 0 <= k < |s.items| ==> R.ItemIds(R.View(s))[k] == s.items[k].id;
  }

  /** The admission's own validator and the gate's checks on it pass exactly for this. */
  lemma AdmissionIff(s: T.Snapshot, admission: Option<R.Admission>)
    requires |s.futureSessions| >= 1
    ensures (admission.Some? ==> R.AdmissionValid(admission.value)) && R.AdmissionHolds(R.View(s), admission) <==> AdmissionFits(s, admission)
  {
    ItemsAreDistinct(s);
    if admission.Some? {
      KeysAreDistinct(admission.value.bindings);
      forall b ensures R.BindingHolds(R.View(s), b) && R.BindingValid(b) <==> BindingStands(b, s) {
        StandsIff(b, s);
      }
    }
  }

  lemma TargetsIff(assignments: seq<R.Assignment>, t: T.Target)
    ensures t in ToSet(R.Targets(assignments)) <==> IsTarget(assignments, t)
  {
    if t in R.Targets(assignments) {
      var k :| 0 <= k < |assignments| && R.Targets(assignments)[k] == t;
      assert assignments[k] in assignments;
    }
    if a :| a in assignments && a.target == t {
      var k :| 0 <= k < |assignments| && assignments[k] == a;
      assert R.Targets(assignments)[k] == t;
    }
  }

  lemma ReportIff(bindings: seq<R.Binding>, r: R.Request)
    ensures r.report == R.ReportOf(bindings, r.assignments, r.demo) && r.report.status != R.NotReady <==>
            (r.demo || NothingLacks(bindings, r.assignments)) && ReportFits(r)
  {
    StatusIs(bindings, r.assignments, r.demo);
    R.ReadyIff(bindings, r.assignments, r.demo);
    if r.demo {
      assert R.AllSpokenFor(bindings, r.assignments, true);
    } else {
      SpokenIff(bindings, r.assignments);
    }
  }

  lemma CollectEquals<K, V>(keys: seq<K>, f: K -> Result<V>, values: map<K, V>)
    ensures T.Collect(keys, f) == Ok(values) <==> values.Keys == ToSet(keys) && forall k :: k in values ==> f(k) == Ok(values[k])
  {
    T.CollectIff(keys, f);
    if values.Keys == ToSet(keys) && forall k :: k in values ==> f(k) == Ok(values[k]) {
      forall k | k in keys ensures f(k).Ok? {
        assert k in ToSet(keys);
        assert k in values;
      }
      assert T.Collect(keys, f).value == values;
    }
  }

  lemma KeysIff(assignments: seq<R.Assignment>, thresholds: map<T.Target, real>)
    ensures thresholds.Keys == ToSet(R.Targets(assignments)) <==> forall t :: t in thresholds <==> IsTarget(assignments, t)
  {
    forall t ensures t in ToSet(R.Targets(assignments)) <==> IsTarget(assignments, t) {
      TargetsIff(assignments, t);
    }
    assert forall t :: t in thresholds <==> t in thresholds.Keys;
  }

  ghost predicate AreComputed(s: T.Snapshot, thresholds: map<T.Target, real>, sqrt: real -> real)
    requires T.CSI1000 in s.instruments && T.CSI300 in s.instruments
  {
    forall t :: t in thresholds ==> T.ThresholdOf(s, sqrt)(t) == Ok(thresholds[t])
  }

  lemma ThresholdsAreIff(s: T.Snapshot, thresholds: map<T.Target, real>, program: Id, sqrt: real -> real)
    requires T.SnapshotValid(s, program, sqrt) && T.IsRootFunction(sqrt)
    ensures HasInstruments(s)
    ensures AreComputed(s, thresholds, sqrt) <==> ThresholdsAre(s, thresholds)
  {
    ValidVolatility(s, program, sqrt);
    if AreComputed(s, thresholds, sqrt) {
      forall t | t in thresholds ensures ThresholdIs(s, t, thresholds[t]) {
        assert T.ThresholdOf(s, sqrt)(t) == Ok(thresholds[t]);
        ThresholdIff(s, program, t, thresholds[t], sqrt);
      }
    }
    if ThresholdsAre(s, thresholds) {
      forall t | t in thresholds ensures T.ThresholdOf(s, sqrt)(t) == Ok(thresholds[t]) {
        ThresholdIff(s, program, t, thresholds[t], sqrt);
      }
    }
  }

  lemma ComputedIff(s: T.Snapshot, assignments: seq<R.Assignment>, thresholds: map<T.Target, real>, sqrt: real -> real)
    requires T.CSI1000 in s.instruments && T.CSI300 in s.instruments
    ensures T.ThresholdsFor(s, R.Targets(assignments), sqrt) == Ok(thresholds) <==>
            (forall t :: t in thresholds <==> IsTarget(assignments, t)) && AreComputed(s, thresholds, sqrt)
  {
    CollectEquals(R.Targets(assignments), T.ThresholdOf(s, sqrt), thresholds);
    KeysIff(assignments, thresholds);
  }

  lemma AcceptedThresholds(s: T.Snapshot, assignments: seq<R.Assignment>, thresholds: map<T.Target, real>, program: Id, sqrt: real -> real)
    requires T.SnapshotValid(s, program, sqrt) && T.IsRootFunction(sqrt)
    ensures HasInstruments(s)
    ensures T.ThresholdsFor(s, R.Targets(assignments), sqrt) == Ok(thresholds) <==> ThresholdsFit(s, assignments, thresholds)
  {
    ValidVolatility(s, program, sqrt);
    ComputedIff(s, assignments, thresholds, sqrt);
    ThresholdsAreIff(s, thresholds, program, sqrt);
  }

  lemma AcceptedParts(r: R.Request, program: Id, sqrt: real -> real)
    requires T.SnapshotValid(r.snapshot, program, sqrt) && T.IsRootFunction(sqrt)
    ensures R.Accepted(r, program, sqrt) <==>
            && AdmissionFits(r.snapshot, r.admission)
            && r.report == R.ReportOf(BindingsIn(r.admission), r.assignments, r.demo) && r.report.status != R.NotReady
            && ThresholdsFit(r.snapshot, r.assignments, r.thresholds)
  {
    ValidVolatility(r.snapshot, program, sqrt);
    AdmissionIff(r.snapshot, r.admission);
    AcceptedThresholds(r.snapshot, r.assignments, r.thresholds, program, sqrt);
  }

  /** A request is accepted exactly when its snapshot and its admission fit, nothing is lacking in a live one,
      it carries the clean report, and its thresholds are those of the targets of its assignments. */
  lemma RequestIff(r: R.Request, program: Id, sqrt: real -> real)
    requires T.IsRootFunction(sqrt)
    ensures R.Accepted(r, program, sqrt) <==> RequestFits(r, program)
  {
    SnapshotIff(r.snapshot, program, sqrt);
    if T.SnapshotValid(r.snapshot, program, sqrt) {
      AcceptedParts(r, program, sqrt);
      ReportIff(BindingsIn(r.admission), r);
    }
  }
}
