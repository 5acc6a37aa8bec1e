/** The version-2 research snapshot and the neutral bands derived from it: aligned relative volatility,
    thresholds and target dates. Dates are day numbers. Square roots are not computed: `sqrt` stands for
    the library function and is characterised by its square. */
module Thresholds {
  import opened Common
  import opened Scoring

  datatype DailyReturn = DailyReturn(date: int, change: real, observed: int, ingested: int)

  datatype Instrument = Instrument(code: Id, volatility: real, history: seq<DailyReturn>)

  /** What the calendar's source hash commits to, as an injective pairing. */
  datatype CalendarPayload = CalendarPayload(baseSession: int, sessions: seq<int>)

  datatype CalendarStamp = CalendarStamp(payload: CalendarPayload, sourceHash: CalendarPayload, observed: int, ingested: int)

  datatype Item = Item(id: Id, sourceHash: Id, published: int, ingested: int)

  datatype Snapshot = Snapshot(
    programHash: Id, asOf: int, cutoff: int, created: int, baseSession: int, futureSessions: seq<int>,
    calendar: CalendarStamp, instruments: map<Id, Instrument>, items: seq<Item>, contentHash: Id)

  datatype ResearchHorizon = H1 | W1 | H20

  datatype Target = NextSession | RelativeWeek | MonthResearch | Unknown(name: Id)

  const CSI1000: Id := Id("000852.SH")
  const CSI300: Id := Id("000300.SH")
  const WINDOW: nat := 20

  function SessionCount(h: ResearchHorizon): (n: nat)
    ensures 1 <= n <= WINDOW
  {
    match h
    case H1 => 1
    case W1 => 5
    case H20 => 20
  }

  // ----- Order -----

  /** `xs == sorted(xs)` */
  predicate Ascending(xs: seq<int>) {
    |xs| < 2 || (Ascending(xs[..|xs| - 1]) && xs[|xs| - 2] <= xs[|xs| - 1])
  }

  lemma {:induction false} AscendingPair(xs: seq<int>, i: nat, j: nat)
    requires Ascending(xs) && i <= j < |xs|
    ensures xs[i] <= xs[j]
  {
    var n := |xs| - 1;
    if i < j {
      if j == n {
        AscendingPair(xs[..n], i, n - 1);
      } else {
        AscendingPair(xs[..n], i, j);
      }
    }
  }

  ghost predicate Strict(xs: seq<int>) {
    forall i, j :: 0 <= i < j < |xs| ==> xs[i] < xs[j]
  }

  /** The validators' test, sorted and without duplicates, is strict order. */
  lemma OrderedUniqueIsStrict(xs: seq<int>)
    requires Ascending(xs) && NoDuplicates(xs)
    ensures Strict(xs)
  {
    forall i, j | 0 <= i < j < |xs| ensures xs[i] < xs[j] {
      AscendingPair(xs, i, j);
      DistinctAt(xs, i, j);
    }
  }

  lemma {:induction false} StrictIsAscending(xs: seq<int>)
    requires Strict(xs)
    ensures Ascending(xs)
  {
    if |xs| >= 2 {
      StrictIsAscending(xs[..|xs| - 1]);
    }
  }

  lemma OrderedUniqueIff(xs: seq<int>)
    ensures Ascending(xs) && Unique(xs) == xs <==> Strict(xs)
  {
    UniqueIff(xs);
    if Ascending(xs) && Unique(xs) == xs {
      UniqueMembers(xs);
      OrderedUniqueIsStrict(xs);
    }
    if Strict(xs) {
      StrictIsAscending(xs);
    }
  }

  lemma Pick<T>(s: set<T>) returns (x: T)
    requires s != {}
    ensures x in s
  {
    x :| x in s;
  }

  ghost predicate IsLeast(s: set<int>, m: int) {
    m in s && forall x :: x in s ==> m <= x
  }

  lemma {:induction false} LeastExists(s: set<int>) returns (m: int)
    requires s != {}
    ensures IsLeast(s, m)
  {
    m := Pick(s);
    var rest := s - {m};
    if rest != {} {
      var least := LeastExists(rest);
      if least < m {
        m := least;
      }
    }
    forall y | y in s ensures m <= y {
      if y !in rest {
      }
    }
  }

  lemma ConsIsStrict(m: int, s: set<int>, rest: seq<int>)
    requires IsLeast(s, m) && Strict(rest) && ToSet(rest) == s - {m}
    ensures Strict([m] + rest) && ToSet([m] + rest) == s
  {
    forall i | 0 <= i < |rest| ensures m < rest[i] {
      assert rest[i] in ToSet(rest);
    }
    forall x ensures x in ToSet([m] + rest) <==> x in s {
      assert x in [m] + rest <==> x == m || x in rest;
      assert x in rest <==> x in ToSet(rest);
    }
  }

  /** Every finite set has its listing in increasing order. */
  lemma {:induction false} SortedExists(s: set<int>) returns (xs: seq<int>)
    ensures Strict(xs) && ToSet(xs) == s
  {
    if s == {} {
      xs := [];
    } else {
      var m := LeastExists(s);
      var rest := SortedExists(s - {m});
      ConsIsStrict(m, s, rest);
      xs := [m] + rest;
    }
  }

  /** `sorted(s)` */
  ghost function Sorted(s: set<int>): (r: seq<int>)
    ensures Strict(r) && ToSet(r) == s
  {
    assert exists xs :: Strict(xs) && ToSet(xs) == s by { var xs := SortedExists(s); }
    var xs :| Strict(xs) && ToSet(xs) == s;
    xs
  }

  lemma LastIsGreatest(xs: seq<int>, x: int)
    requires Strict(xs) && x in xs
    ensures x <= xs[|xs| - 1]
  {
  }

  lemma NonEmptyToSet(ys: seq<int>)
    ensures ys == [] <==> ToSet(ys) == {}
  {
    if ys != [] {
      assert ys[0] in ToSet(ys);
    }
  }

  /** There is only one way to list a set in increasing order. */
  lemma {:induction false} StrictIsUnique(xs: seq<int>, ys: seq<int>)
    requires Strict(xs) && Strict(ys) && ToSet(xs) == ToSet(ys)
    ensures xs == ys
  {
    if xs == [] {
      NonEmptyToSet(ys);
    } else {
      assert xs[|xs| - 1] in ToSet(xs);
      assert ys != [] by { assert xs[|xs| - 1] in ys; }
      var x, y := xs[|xs| - 1], ys[|ys| - 1];
      assert y in ToSet(ys);
      LastIsGreatest(xs, y);
      LastIsGreatest(ys, x);
      var xs', ys' := xs[..|xs| - 1], ys[..|ys| - 1];
      DropLast(xs);
      DropLast(ys);
      StrictIsUnique(xs', ys');
      assert xs == xs' + [x] && ys == ys' + [y];
    }
  }

  lemma DropLast(xs: seq<int>)
    requires Strict(xs) && xs != []
    ensures Strict(xs[..|xs| - 1]) && ToSet(xs[..|xs| - 1]) == ToSet(xs) - {xs[|xs| - 1]}
  {
    var init, last := xs[..|xs| - 1], xs[|xs| - 1];
    assert xs == init + [last];
    forall x ensures x in ToSet(init) <==> x in ToSet(xs) - {last} {
      if x in init {
        var i :| 0 <= i < |init| && init[i] == x;
        assert xs[i] < xs[|xs| - 1];
      }
    }
  }

  // ----- The snapshot's validators -----

  function Dates(rows: seq<DailyReturn>): seq<int> {
    Map(rows, (row: DailyReturn) => row.date)
  }

  function Trailing<T>(xs: seq<T>): seq<T> {
    if |xs| < WINDOW then xs else xs[|xs| - WINDOW..]
  }

  predicate InstrumentValid(i: Instrument, sqrt: real -> real) {
    && |i.history| >= WINDOW && i.volatility >= 0.0
    && Ascending(Dates(i.history)) && Unique(Dates(i.history)) == Dates(i.history)
    && IsClose(i.volatility, SampleDeviation(Changes(Trailing(i.history)), sqrt), 0.000000000001)
  }

  predicate CalendarValid(c: CalendarStamp) {
    && |c.payload.sessions| >= WINDOW && SessionsValid(c.payload.baseSession, c.payload.sessions)
    && c.sourceHash == c.payload
  }

  predicate SessionsValid(base: int, sessions: seq<int>) {
    && Ascending(sessions) && Unique(sessions) == sessions
    && forall i :: 0 <= i < |sessions| ==> sessions[i] > base
  }

  predicate ReturnsInTime(i: Instrument, base: int, cutoff: int)
    requires i.history != []
  {
    && i.history[|i.history| - 1].date == base
    && forall k :: 0 <= k < |i.history| ==> i.history[k].observed <= cutoff && i.history[k].ingested <= cutoff
  }

  predicate InstrumentsValid(s: Snapshot, sqrt: real -> real) {
    && s.instruments.Keys == {CSI1000, CSI300}
    && (forall code :: code in s.instruments ==> s.instruments[code].code == code && InstrumentValid(s.instruments[code], sqrt))
    && Dates(s.instruments[CSI1000].history) == Dates(s.instruments[CSI300].history)
    && (forall code :: code in s.instruments ==> ReturnsInTime(s.instruments[code], s.baseSession, s.cutoff))
  }

  predicate SnapshotValid(s: Snapshot, program: Id, sqrt: real -> real) {
    && s.programHash == program
    && InstrumentsValid(s, sqrt)
    && |s.futureSessions| >= WINDOW && SessionsValid(s.baseSession, s.futureSessions)
    && CalendarValid(s.calendar) && s.calendar.payload == CalendarPayload(s.baseSession, s.futureSessions)
    && s.cutoff <= s.asOf && s.cutoff <= s.created
    && s.calendar.observed <= s.cutoff && s.calendar.ingested <= s.cutoff
    && (forall k :: 0 <= k < |s.items| ==> s.items[k].published <= s.cutoff && s.items[k].ingested <= s.cutoff)
  }

  lemma UniqueIsNoDuplicates<T>(xs: seq<T>)
    requires Unique(xs) == xs
    ensures NoDuplicates(xs)
  {
    UniqueMembers(xs);
  }

  // ----- Volatility -----

  function Changes(rows: seq<DailyReturn>): seq<real> {
    Map(rows, (row: DailyReturn) => row.change)
  }

  function SquaredDeviations(xs: seq<real>, mean: real): real {
    if xs == [] then 0.0
    else SquaredDeviations(xs[..|xs| - 1], mean) + Square(xs[|xs| - 1] - mean)
  }

  lemma {:induction false} DeviationsAreNonNegative(xs: seq<real>, mean: real)
    ensures SquaredDeviations(xs, mean) >= 0.0
  {
    if xs != [] {
      DeviationsAreNonNegative(xs[..|xs| - 1], mean);
    }
  }

  function SampleVariance(xs: seq<real>): real {
    if |xs| < 2 then 0.0 else SquaredDeviations(xs, Sum(xs) / (|xs| as real)) / ((|xs| - 1) as real)
  }

  function SampleDeviation(xs: seq<real>, sqrt: real -> real): real {
    sqrt(SampleVariance(xs))
  }

  /** `{row.trade_date: row.daily_return for row in returns}`: the last row of a date wins. */
  function ByDate(rows: seq<DailyReturn>): (m: map<int, real>)
    ensures m.Keys == ToSet(Dates(rows))
  {
    if rows == [] then map[]
    else
      var init, last := rows[..|rows| - 1], rows[|rows| - 1];
      assert Dates(rows) == Dates(init) + [last.date];
      ByDate(init)[last.date := last.change]
  }

  function Lookup(m: map<int, real>, date: int): real {
    if date in m then m[date] else 0.0
  }

  /** `sorted(set(primary).intersection(benchmark))[-20:]` */
  ghost function SharedDates(s: Snapshot): seq<int>
    requires CSI1000 in s.instruments && CSI300 in s.instruments
  {
    Trailing(Sorted(ByDate(s.instruments[CSI1000].history).Keys * ByDate(s.instruments[CSI300].history).Keys))
  }

  ghost function RelativeDifferences(s: Snapshot): seq<real>
    requires CSI1000 in s.instruments && CSI300 in s.instruments
  {
    var primary, benchmark := ByDate(s.instruments[CSI1000].history), ByDate(s.instruments[CSI300].history);
    Map(SharedDates(s), (date: int) => Lookup(primary, date) - Lookup(benchmark, date))
  }

  ghost function RelativeVolatility(s: Snapshot, sqrt: real -> real): Result<real>
    requires CSI1000 in s.instruments && CSI300 in s.instruments
  {
    if |SharedDates(s)| < WINDOW then Err("relative volatility requires 20 aligned return observations")
    else Ok(SampleDeviation(RelativeDifferences(s), sqrt))
  }

  // ----- Alignment -----

  lemma {:induction false} ByDateOfRow(rows: seq<DailyReturn>, k: nat)
    requires Strict(Dates(rows)) && k < |rows|
    ensures rows[k].date in ByDate(rows) && ByDate(rows)[rows[k].date] == rows[k].change
  {
    var init, n := rows[..|rows| - 1], |rows| - 1;
    assert Dates(rows) == Dates(init) + [rows[n].date];
    if k < n {
      assert Strict(Dates(init));
      ByDateOfRow(init, k);
      assert init[k] == rows[k];
      assert Dates(rows)[k] < Dates(rows)[n];
    }
  }

  lemma HistoryIsStrict(s: Snapshot, program: Id, sqrt: real -> real, code: Id)
    requires SnapshotValid(s, program, sqrt) && code in s.instruments
    ensures Strict(Dates(s.instruments[code].history)) && |s.instruments[code].history| >= WINDOW
  {
    UniqueIsNoDuplicates(Dates(s.instruments[code].history));
    OrderedUniqueIsStrict(Dates(s.instruments[code].history));
  }

  /** On a valid snapshot the sorted intersection of the two histories ends in exactly the last twenty
      history dates: no observation is lost to alignment. */
  lemma SharedDatesAreTheLastTwenty(s: Snapshot, program: Id, sqrt: real -> real)
    requires SnapshotValid(s, program, sqrt)
    ensures SharedDates(s) == Trailing(Dates(s.instruments[CSI1000].history)) == Trailing(Dates(s.instruments[CSI300].history))
    ensures |SharedDates(s)| == WINDOW
  {
    HistoryIsStrict(s, program, sqrt, CSI1000);
    var dates := Dates(s.instruments[CSI1000].history);
    var shared := ByDate(s.instruments[CSI1000].history).Keys * ByDate(s.instruments[CSI300].history).Keys;
    assert shared == ToSet(dates);
    StrictIsUnique(Sorted(shared), dates);
  }

  /** The dictionary look-ups of the relative volatility pair up the two histories row by row. */
  lemma DifferencesAreRowByRow(s: Snapshot, program: Id, sqrt: real -> real)
    requires SnapshotValid(s, program, sqrt)
    ensures |RelativeDifferences(s)| == WINDOW
    ensures forall k :: 0 <= k < WINDOW ==>
              RelativeDifferences(s)[k] ==
              Trailing(s.instruments[CSI1000].history)[k].change - Trailing(s.instruments[CSI300].history)[k].change
  {
    SharedDatesAreTheLastTwenty(s, program, sqrt);
    HistoryIsStrict(s, program, sqrt, CSI1000);
    HistoryIsStrict(s, program, sqrt, CSI300);
    forall k | 0 <= k < WINDOW
      ensures RelativeDifferences(s)[k] ==
              Trailing(s.instruments[CSI1000].history)[k].change - Trailing(s.instruments[CSI300].history)[k].change
    {
      LookupTrailing(s.instruments[CSI1000].history, k);
      LookupTrailing(s.instruments[CSI300].history, k);
    }
  }

  lemma LookupTrailing(rows: seq<DailyReturn>, k: nat)
    requires Strict(Dates(rows)) && |rows| >= WINDOW && k < WINDOW
    ensures |Trailing(Dates(rows))| == WINDOW
    ensures Lookup(ByDate(rows), Trailing(Dates(rows))[k]) == Trailing(rows)[k].change
  {
    ByDateOfRow(rows, |rows| - WINDOW + k);
  }

  // ----- Thresholds and dates -----

  /** `sqrt` is a square root wherever it is used. */
  ghost predicate IsRootFunction(sqrt: real -> real) {
    forall x :: x >= 0.0 ==> sqrt(x) >= 0.0 && sqrt(x) * sqrt(x) == x
  }

  function AbsoluteThreshold(volatility: real, h: ResearchHorizon, sqrt: real -> real): Result<real> {
    if volatility < 0.0 then Err("volatility must be finite and non-negative")
    else Ok(0.25 * volatility * sqrt(SessionCount(h) as real))
  }

  ghost function ThresholdForTarget(s: Snapshot, target: Target, sqrt: real -> real): Result<real>
    requires CSI1000 in s.instruments && CSI300 in s.instruments
  {
    match target
    case NextSession => AbsoluteThreshold(s.instruments[CSI1000].volatility, H1, sqrt)
    case RelativeWeek =>
      (match RelativeVolatility(s, sqrt)
       case Err(e) => Err(e)
       case Ok(volatility) => AbsoluteThreshold(volatility, W1, sqrt))
    case MonthResearch => AbsoluteThreshold(s.instruments[CSI1000].volatility, H20, sqrt)
    case Unknown(_) => Err("unknown target")
  }

  lemma VarianceIsNonNegative(xs: seq<real>)
    ensures SampleVariance(xs) >= 0.0
  {
    if |xs| >= 2 {
      DeviationsAreNonNegative(xs, Sum(xs) / (|xs| as real));
    }
  }

  lemma ProductIsNonNegative(x: real, y: real)
    requires x >= 0.0 && y >= 0.0
    ensures x * y >= 0.0
  {
  }

  lemma ThresholdIsNonNegative(volatility: real, h: ResearchHorizon, sqrt: real -> real)
    requires volatility >= 0.0 && IsRootFunction(sqrt)
    ensures AbsoluteThreshold(volatility, h, sqrt).Ok? && AbsoluteThreshold(volatility, h, sqrt).value >= 0.0
  {
    ProductIsNonNegative(0.25 * volatility, sqrt(SessionCount(h) as real));
  }

  /** Thresholds are total: on a valid snapshot every target of the research program has a non-negative
      threshold, and only an unknown target raises. */
  lemma ThresholdsAreTotal(s: Snapshot, program: Id, target: Target, sqrt: real -> real)
    requires SnapshotValid(s, program, sqrt) && IsRootFunction(sqrt)
    ensures ThresholdForTarget(s, target, sqrt).Ok? <==> !target.Unknown?
    ensures ThresholdForTarget(s, target, sqrt).Ok? ==> ThresholdForTarget(s, target, sqrt).value >= 0.0
  {
    match target
    case NextSession => ThresholdIsNonNegative(s.instruments[CSI1000].volatility, H1, sqrt);
    case MonthResearch => ThresholdIsNonNegative(s.instruments[CSI1000].volatility, H20, sqrt);
    case RelativeWeek =>
      SharedDatesAreTheLastTwenty(s, program, sqrt);
      VarianceIsNonNegative(RelativeDifferences(s));
      ThresholdIsNonNegative(RelativeVolatility(s, sqrt).value, W1, sqrt);
    case Unknown(_) =>
  }

  /** `{key: f(key) for key in keys}`, where `f` may raise. */
  function Collect<K, V>(keys: seq<K>, f: K -> Result<V>): Result<map<K, V>> {
    if keys == [] then Ok(map[])
    else
      match Collect(keys[..|keys| - 1], f)
      case Err(e) => Err(e)
      case Ok(values) =>
        match f(keys[|keys| - 1])
        case Err(e) => Err(e)
        case Ok(v) => Ok(values[keys[|keys| - 1] := v])
  }

  ghost predicate Collected<K, V>(keys: seq<K>, f: K -> Result<V>, values: map<K, V>) {
    values.Keys == ToSet(keys) && forall k :: k in values ==> f(k) == Ok(values[k])
  }

  lemma {:induction false} CollectIff<K, V>(keys: seq<K>, f: K -> Result<V>)
    ensures Collect(keys, f).Ok? <==> forall k :: k in keys ==> f(k).Ok?
    ensures Collect(keys, f).Ok? ==> Collected(keys, f, Collect(keys, f).value)
  {
    if keys != [] {
      var init, last := keys[..|keys| - 1], keys[|keys| - 1];
      CollectIff(init, f);
      assert keys == init + [last];
      SetOfSnoc(init, last);
    }
  }

  ghost function ThresholdOf(s: Snapshot, sqrt: real -> real): Target -> Result<real>
    requires CSI1000 in s.instruments && CSI300 in s.instruments
  {
    (target: Target) => ThresholdForTarget(s, target, sqrt)
  }

  /** `{a.target_id: threshold_for_target(snapshot, a.target_id) for a in assignments}` over their targets. */
  ghost function ThresholdsFor(s: Snapshot, targets: seq<Target>, sqrt: real -> real): Result<map<Target, real>>
    requires CSI1000 in s.instruments && CSI300 in s.instruments
  {
    Collect(targets, ThresholdOf(s, sqrt))
  }

  /** The thresholds exist exactly when every target is known, and are then each target's own. */
  lemma ThresholdsForIff(s: Snapshot, program: Id, targets: seq<Target>, sqrt: real -> real)
    requires SnapshotValid(s, program, sqrt) && IsRootFunction(sqrt)
    ensures ThresholdsFor(s, targets, sqrt).Ok? <==> forall t :: t in targets ==> !t.Unknown?
    ensures ThresholdsFor(s, targets, sqrt).Ok? ==> Collected(targets, ThresholdOf(s, sqrt), ThresholdsFor(s, targets, sqrt).value)
  {
    CollectIff(targets, ThresholdOf(s, sqrt));
    forall t ensures ThresholdOf(s, sqrt)(t).Ok? <==> !t.Unknown? {
      ThresholdsAreTotal(s, program, t, sqrt);
    }
  }

  function TargetDate(s: Snapshot, h: ResearchHorizon): int
    requires |s.futureSessions| >= WINDOW
  {
    s.futureSessions[SessionCount(h) - 1]
  }

  /** On a valid snapshot the target dates are the first, the fifth and the twentieth future session; each
      lies after the base session, and a longer horizon always has a later one. */
  lemma TargetDatesAdvance(s: Snapshot, program: Id, sqrt: real -> real, h: ResearchHorizon, g: ResearchHorizon)
    requires SnapshotValid(s, program, sqrt)
    ensures DatesAdvance(s, h, g)
  {
    SnapshotSessions(s, program, sqrt);
    TargetSessionsAdvance(s, h, g);
  }

  predicate DatesAdvance(s: Snapshot, h: ResearchHorizon, g: ResearchHorizon) {
    && |s.futureSessions| >= WINDOW
    && TargetDate(s, H1) == s.futureSessions[0] && TargetDate(s, W1) == s.futureSessions[4] && TargetDate(s, H20) == s.futureSessions[19]
    && TargetDate(s, h) > s.baseSession
    && (SessionCount(h) < SessionCount(g) <==> TargetDate(s, h) < TargetDate(s, g))
  }

  lemma SnapshotSessions(s: Snapshot, program: Id, sqrt: real -> real)
    requires SnapshotValid(s, program, sqrt)
    ensures |s.futureSessions| >= WINDOW && SessionsValid(s.baseSession, s.futureSessions)
  {
  }

  lemma TargetSessionsAdvance(s: Snapshot, h: ResearchHorizon, g: ResearchHorizon)
    requires |s.futureSessions| >= WINDOW && SessionsValid(s.baseSession, s.futureSessions)
    ensures DatesAdvance(s, h, g)
  {
    SessionsAdvance(s.baseSession, s.futureSessions, SessionCount(h) - 1, SessionCount(g) - 1);
  }

  lemma SessionsAdvance(base: int, sessions: seq<int>, i: nat, j: nat)
    requires SessionsValid(base, sessions) && i < |sessions| && j < |sessions|
    ensures sessions[i] > base && (i < j <==> sessions[i] < sessions[j])
  {
    UniqueIsNoDuplicates(sessions);
    OrderedUniqueIsStrict(sessions);
  }
}
