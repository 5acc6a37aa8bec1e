/** Inputs that meet the two snapshot validators, so that what is proved about valid snapshots is about
    something; by PremarketAnswer.EveryValidSnapshotCanBeForecast the premarket one goes all the way to a
    forecast. */
module Examples {
  import opened Common
  import opened Scoring
  import Thresholds
  import opened Coverage
  import opened Premarket
  import opened PremarketBuilder

  // ----- Consecutive days and flat prices -----

  function Days(from: int, n: nat): seq<int> {
    seq(n, i => from + i)
  }

  lemma {:induction false} DaysAreOrdered(from: int, n: nat)
    ensures Thresholds.Ascending(Days(from, n)) && Unique(Days(from, n)) == Days(from, n)
  {
    if n > 0 {
      DaysAreOrdered(from, n - 1);
      assert Days(from, n)[..n - 1] == Days(from, n - 1);
      assert Days(from, n) == Days(from, n - 1) + [from + n - 1];
    } else {
      assert Days(from, 0) == [];
    }
  }

  ghost predicate AllZero(xs: seq<real>) {
    forall i :: 0 <= i < |xs| ==> xs[i] == 0.0
  }

  lemma {:induction false} ZeroSums(xs: seq<real>)
    requires AllZero(xs)
    ensures Sum(xs) == 0.0 && Thresholds.SquaredDeviations(xs, 0.0) == 0.0
  {
    if xs != [] {
      ZeroSums(xs[..|xs| - 1]);
      assert Square(0.0) == 0.0;
    }
  }

  lemma ZeroDeviation(xs: seq<real>, sqrt: real -> real)
    requires AllZero(xs) && sqrt(0.0) == 0.0
    ensures Thresholds.SampleDeviation(xs, sqrt) == 0.0
  {
    ZeroSums(xs);
    if |xs| >= 2 {
      assert Sum(xs) / (|xs| as real) == 0.0;
    }
  }

  // ----- A research snapshot -----

  function FlatRow(i: int): Thresholds.DailyReturn {
    Thresholds.DailyReturn(i, 0.0, 0, 0)
  }

  function FlatInstrument(code: Id): Thresholds.Instrument {
    Thresholds.Instrument(code, 0.0, seq(20, i => FlatRow(i)))
  }

  function ResearchSnapshot(program: Id): Thresholds.Snapshot {
    Thresholds.Snapshot(program, 0, 0, 0, 19, Days(20, 20),
                        Thresholds.CalendarStamp(Thresholds.CalendarPayload(19, Days(20, 20)), Thresholds.CalendarPayload(19, Days(20, 20)), 0, 0),
                        map[Thresholds.CSI1000 := FlatInstrument(Thresholds.CSI1000), Thresholds.CSI300 := FlatInstrument(Thresholds.CSI300)], [], Id("sealed"))
  }

  lemma FlatInstrumentIsValid(code: Id, sqrt: real -> real)
    requires sqrt(0.0) == 0.0
    ensures Thresholds.InstrumentValid(FlatInstrument(code), sqrt)
    ensures Thresholds.Dates(FlatInstrument(code).history) == Days(0, 20)
    ensures Thresholds.ReturnsInTime(FlatInstrument(code), 19, 0)
  {
    var history := FlatInstrument(code).history;
    assert Thresholds.Dates(history) == Days(0, 20);
    DaysAreOrdered(0, 20);
    ZeroDeviation(Thresholds.Changes(Thresholds.Trailing(history)), sqrt);
  }

  lemma ResearchInstruments(program: Id, sqrt: real -> real)
    requires sqrt(0.0) == 0.0
    ensures var s := ResearchSnapshot(program);
            && s.instruments.Keys == {Thresholds.CSI1000, Thresholds.CSI300}
            && forall code :: code in s.instruments ==> s.instruments[code] == FlatInstrument(code)
  {
    assert Thresholds.CSI1000.text[3] != Thresholds.CSI300.text[3];
  }

  lemma ResearchCalendar(program: Id)
    ensures var s := ResearchSnapshot(program);
            Thresholds.CalendarValid(s.calendar) && Thresholds.SessionsValid(s.baseSession, s.futureSessions)
  {
    DaysAreOrdered(20, 20);
  }

  /** The research validator accepts flat histories over consecutive days. */
  lemma ResearchSnapshotIsValid(program: Id, sqrt: real -> real)
    requires sqrt(0.0) == 0.0
    ensures Thresholds.SnapshotValid(ResearchSnapshot(program), program, sqrt)
  {
    var s := ResearchSnapshot(program);
    ResearchInstruments(program, sqrt);
    ResearchCalendar(program);
    forall code | code in s.instruments
      ensures Thresholds.InstrumentValid(s.instruments[code], sqrt) && Thresholds.ReturnsInTime(s.instruments[code], 19, 0)
      ensures Thresholds.Dates(s.instruments[code].history) == Days(0, 20)
    {
      FlatInstrumentIsValid(code, sqrt);
    }
  }

  // ----- A premarket snapshot -----

  function At(date: int, time: int): int {
    date * DAY + time - ZONE
  }

  lemma AtIsLocal(date: int, time: int)
    requires 0 <= time < DAY
    ensures LocalDate(At(date, time)) == date && LocalTime(At(date, time)) == time
  {
  }

  function ExampleItem(id: Id, category: Category): EvidenceItem {
    EvidenceItem(id, category, false, At(21, 0), At(21, 0), At(21, 0), Id("hash"), false, ANALYSTS)
  }

  const FIRST_ITEM: EvidenceItem := ExampleItem(Id("a"), News)
  const ITEMS: seq<EvidenceItem> := [FIRST_ITEM, ExampleItem(Id("bb"), GlobalEquity), ExampleItem(Id("ccc"), FxRates)]
  const PAGE: WikiReference :=
    WikiReference(Id("page"), Id("1"), Id("s"), Id("hash"), 0, [MacroPolicy, MarketNews, GlobalMarket, AiStorage, Strategy, RiskCritic])

  function FlatOpen(i: int): HistoricalOpen {
    HistoricalOpen(i, 1.0, Stamp(0, 0))
  }

  function ExampleSnapshot(): Snapshot {
    Snapshot(PROGRAM_HASH, 20, 21, 22, At(20, Clock(15, 0)), At(21, Clock(9, 10)), At(21, Clock(9, 15)), At(21, Clock(9, 24)),
             At(21, Clock(9, 10)), Calendar([20, 21, 22], [20, 21, 22], Stamp(0, 0)), seq(21, i => FlatOpen(i)), 0.0, ITEMS, [PAGE], Id("sealed"))
  }

  lemma {:induction false} FlatReturns(history: seq<HistoricalOpen>)
    requires forall i :: 0 <= i < |history| ==> history[i].price == 1.0
    ensures AllZero(OpenReturns(history))
  {
    if |history| >= 2 {
      FlatReturns(history[..|history| - 1]);
    }
  }

  lemma ExampleHistory(sqrt: real -> real)
    requires sqrt(0.0) == 0.0
    ensures HistoryValid(ExampleSnapshot(), sqrt)
  {
    var s := ExampleSnapshot();
    assert Map(s.history, (row: HistoricalOpen) => row.date) == Days(0, 21);
    DaysAreOrdered(0, 21);
    FlatReturns(s.history);
    ZeroDeviation(OpenReturns(s.history), sqrt);
    AtIsLocal(21, Clock(9, 10));
  }

  lemma ExampleItems()
    ensures ItemsValid(ExampleSnapshot())
  {
    var s := ExampleSnapshot();
    assert Id("a") != Id("bb") && Id("bb") != Id("ccc") && Id("a") != Id("ccc") by {
      assert |Id("a").text| == 1 && |Id("bb").text| == 2 && |Id("ccc").text| == 3;
    }
    UniqueOfDistinct(ItemIds(s.items));
    AnalystsAreDistinct();
    assert s.items[0] in s.items && s.items[1] in s.items && s.items[2] in s.items;
  }

  lemma AnalystsAreDistinct()
    ensures Unique(ANALYSTS) == ANALYSTS
  {
    UniqueOfDistinct(ANALYSTS);
  }

  lemma ExampleTimes()
    ensures TimesValid(ExampleSnapshot())
  {
    AtIsLocal(20, Clock(15, 0));
    AtIsLocal(21, Clock(9, 10));
    AtIsLocal(21, Clock(9, 15));
    AtIsLocal(21, Clock(9, 24));
  }

  lemma ExampleCalendar()
    ensures CalendarValid(ExampleSnapshot().calendar)
  {
    DaysAreOrdered(20, 3);
    assert Days(20, 3) == [20, 21, 22];
  }

  lemma ExampleWiki()
    ensures WikiValid(ExampleSnapshot())
  {
    var s := ExampleSnapshot();
    assert s.wiki[0] in s.wiki;
    forall agent | agent in AGENTS ensures agent in PAGE.agents {
    }
  }

  /** The premarket validator accepts a snapshot of flat opens and three items. */
  lemma ExampleSnapshotIsValid(sqrt: real -> real)
    requires sqrt(0.0) == 0.0
    ensures SnapshotValid(ExampleSnapshot(), sqrt)
  {
    ExampleHistory(sqrt);
    ExampleItems();
    ExampleTimes();
    ExampleCalendar();
    ExampleWiki();
  }
}
