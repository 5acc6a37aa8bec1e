/** What a premarket snapshot and the tasks built from it are, spelled out: dates in order, instants in the
    market's time zone, and items and pages one by one. Times are in microseconds; the market's midnight is
    eight hours before that of UTC. */
module SnapshotContract {
  import opened Common
  import opened Scoring
  import Thresholds
  import opened Coverage
  import opened Premarket
  import opened PremarketBuilder

  // ----- Instants -----

  /** `hour:minute` of a date, as an instant. */
  function Instant(date: int, hour: int, minute: int): int {
    date * 86_400_000_000 + hour * 3_600_000_000 + minute * 60_000_000 - 28_800_000_000
  }

  lemma InstantIff(t: int, date: int, hour: int, minute: int)
    requires 0 <= hour < 24 && 0 <= minute < 60
    ensures LocalDate(t) == date && LocalTime(t) == Clock(hour, minute) <==> t == Instant(date, hour, minute)
    ensures LocalDate(t) == date && LocalTime(t) >= Clock(hour, minute) <==> Instant(date, hour, minute) <= t < Instant(date + 1, 0, 0)
  {
    var q, r := LocalDate(t), LocalTime(t);
    assert t + 28_800_000_000 == q * 86_400_000_000 + r && 0 <= r < 86_400_000_000;
  }

  // ----- The snapshot -----

  predicate ItemFits(i: EvidenceItem, s: Snapshot) {
    && i.observed <= i.ingested && !i.tier4
    && |i.agents| >= 1 && (forall j, k :: 0 <= j < k < |i.agents| ==> i.agents[j] != i.agents[k])
    && (forall a :: a in i.agents ==> a == MacroPolicy || a == MarketNews || a == GlobalMarket || a == AiStorage)
    && s.evidenceStart <= i.published <= s.evidenceCutoff && i.observed <= s.evidenceCutoff && i.ingested <= s.evidenceCutoff
  }

  predicate Known(agent: AgentId) {
    agent == MacroPolicy || agent == MarketNews || agent == GlobalMarket || agent == AiStorage || agent == Strategy || agent == RiskCritic
  }

  predicate HasItemFor(s: Snapshot, agent: AgentId) {
    exists i :: i in s.items && agent in i.agents
  }

  predicate HasPageFor(s: Snapshot, agent: AgentId) {
    exists w :: w in s.wiki && agent in w.agents
  }

  predicate HasCategory(s: Snapshot, c: Category) {
    exists i :: i in s.items && i.category == c
  }

  /** The window runs from the previous close at 15:00 to 09:10, the decision is at 09:15 and the deadline at
      09:24 of the forecast session. */
  predicate WindowFits(s: Snapshot) {
    && Instant(s.previousSession, 15, 0) <= s.evidenceStart < Instant(s.previousSession + 1, 0, 0)
    && s.evidenceCutoff == Instant(s.forecastSession, 9, 10)
    && s.decisionTime == Instant(s.forecastSession, 9, 15) && s.deadline == Instant(s.forecastSession, 9, 24)
    && s.evidenceCutoff <= s.created < s.deadline
  }

  predicate CalendarFits(s: Snapshot) {
    && s.previousSession < s.forecastSession < s.targetSession
    && s.calendar.sessions == [s.previousSession, s.forecastSession, s.targetSession] && s.calendar.sealedSessions == s.calendar.sessions
    && s.calendar.stamp.observed <= s.calendar.stamp.ingested <= s.evidenceCutoff
  }

  /** The return from one open to the next. */
  function ReturnAt(history: seq<HistoricalOpen>, k: nat): real
    requires k + 1 < |history| && history[k].price != 0.0
  {
    history[k + 1].price / history[k].price - 1.0
  }

  ghost predicate AreReturns(history: seq<HistoricalOpen>, rates: seq<real>) {
    && (forall k :: 0 <= k < |history| ==> history[k].price > 0.0)
    && |rates| + 1 == |history| && forall k :: 0 <= k < |rates| ==> rates[k] == ReturnAt(history, k)
  }

  /** Twenty-one opens in strictly increasing sessions up to the previous one, known at the cutoff, and a
      volatility within a relative billionth or an absolute 1e-12 of the deviation of their twenty returns. */
  ghost predicate HistoryFits(s: Snapshot, sqrt: real -> real) {
    && |s.history| == 21 && s.history[20].date == s.previousSession && DatesIncrease(s.history)
    && OpensKnown(s.history, s.evidenceCutoff)
    && s.volatility >= 0.0 && DeviationFits(s.history, s.volatility, sqrt)
  }

  ghost predicate Fits(s: Snapshot, sqrt: real -> real) {
    && s.programHash == PROGRAM_HASH && CalendarFits(s) && WindowFits(s) && HistoryFits(s, sqrt)
    && AllItemsFit(s)
    && (forall agent :: Known(agent) ==> HasPageFor(s, agent)) && (forall w :: w in s.wiki ==> w.published <= s.evidenceCutoff)
  }

  lemma WindowIff(s: Snapshot)
    requires s.previousSession < s.forecastSession
    ensures TimesValid(s) <==> WindowFits(s)
  {
    InstantIff(s.evidenceStart, s.previousSession, 15, 0);
    InstantIff(s.evidenceCutoff, s.forecastSession, 9, 10);
    InstantIff(s.decisionTime, s.forecastSession, 9, 15);
    InstantIff(s.deadline, s.forecastSession, 9, 24);
  }

  lemma CalendarIff(s: Snapshot)
    ensures s.previousSession < s.forecastSession < s.targetSession && CalendarValid(s.calendar) &&
            s.calendar.sessions == [s.previousSession, s.forecastSession, s.targetSession] && StampInTime(s.calendar.stamp, s.evidenceCutoff) <==>
            CalendarFits(s)
  {
    Thresholds.OrderedUniqueIff(s.calendar.sessions);
  }

  lemma {:induction false} ReturnsAt(history: seq<HistoricalOpen>)
    requires history != [] && forall k :: 0 <= k < |history| ==> history[k].price > 0.0
    ensures AreReturns(history, OpenReturns(history))
  {
    if |history| >= 2 {
      ReturnsAt(history[..|history| - 1]);
    }
  }

  function DatesOf(history: seq<HistoricalOpen>): seq<int> {
    Map(history, (row: HistoricalOpen) => row.date)
  }

  ghost predicate DatesIncrease(history: seq<HistoricalOpen>) {
    forall j, k :: 0 <= j < k < |history| ==> history[j].date < history[k].date
  }

  lemma DatesIff(history: seq<HistoricalOpen>)
    ensures Thresholds.Ascending(DatesOf(history)) && Unique(DatesOf(history)) == DatesOf(history) <==> DatesIncrease(history)
  {
    Thresholds.OrderedUniqueIff(DatesOf(history));
    assert forall k :: 0 <= k < |history| ==> DatesOf(history)[k] == history[k].date;
  }

  predicate OpenKnown(row: HistoricalOpen, cutoff: int) {
    row.price > 0.0 && row.stamp.observed <= cutoff && row.stamp.ingested <= cutoff
  }

  ghost predicate OpensKnown(history: seq<HistoricalOpen>, cutoff: int) {
    forall k :: 0 <= k < |history| ==> OpenKnown(history[k], cutoff)
  }

  lemma OpensIff(history: seq<HistoricalOpen>, cutoff: int)
    ensures (forall row :: row in history ==> row.price > 0.0 && StampInTime(row.stamp, cutoff)) <==> OpensKnown(history, cutoff)
  {
    if forall row :: row in history ==> row.price > 0.0 && StampInTime(row.stamp, cutoff) {
      forall k | 0 <= k < |history| ensures OpenKnown(history[k], cutoff) {
        assert history[k] in history;
      }
    }
  }

  ghost predicate DeviationFits(history: seq<HistoricalOpen>, volatility: real, sqrt: real -> real) {
    exists rates :: AreReturns(history, rates) && Near(volatility, Thresholds.SampleDeviation(rates, sqrt))
  }

  lemma DeviationIff(history: seq<HistoricalOpen>, volatility: real, sqrt: real -> real)
    requires history != [] && forall k :: 0 <= k < |history| ==> history[k].price > 0.0
    ensures IsClose(volatility, Thresholds.SampleDeviation(OpenReturns(history), sqrt), 0.000000000001) <==>
            DeviationFits(history, volatility, sqrt)
  {
    ReturnsAt(history);
    NearIff(volatility, Thresholds.SampleDeviation(OpenReturns(history), sqrt));
    forall rates | AreReturns(history, rates) ensures rates == OpenReturns(history) {
    }
  }

  lemma HistoryIff(s: Snapshot, sqrt: real -> real)
    ensures HistoryValid(s, sqrt) <==> HistoryFits(s, sqrt)
  {
    DatesIff(s.history);
    OpensIff(s.history, s.evidenceCutoff);
    if |s.history| == 21 && OpensKnown(s.history, s.evidenceCutoff) {
      DeviationIff(s.history, s.volatility, sqrt);
    }
  }

  lemma ItemFitsIff(i: EvidenceItem, s: Snapshot)
    ensures ItemValid(i) && ItemInWindow(i, s) <==> ItemFits(i, s)
  {
    UniqueIff(i.agents);
  }

  predicate AnalystsHaveItems(s: Snapshot) {
    HasItemFor(s, MacroPolicy) && HasItemFor(s, MarketNews) && HasItemFor(s, GlobalMarket) && HasItemFor(s, AiStorage)
  }

  lemma AnalystsHaveItemsIff(s: Snapshot)
    ensures (forall agent :: agent in ANALYSTS ==> HasItemFor(s, agent)) <==> AnalystsHaveItems(s)
  {
    assert ANALYSTS[0] == MacroPolicy && ANALYSTS[1] == MarketNews && ANALYSTS[2] == GlobalMarket && ANALYSTS[3] == AiStorage;
  }

  predicate ItemsFit(s: Snapshot) {
    forall i :: i in s.items ==> ItemFits(i, s)
  }

  lemma ItemsFitIff(s: Snapshot)
    ensures (forall i :: i in s.items ==> ItemValid(i) && ItemInWindow(i, s)) <==> ItemsFit(s)
  {
    forall i ensures ItemValid(i) && ItemInWindow(i, s) <==> ItemFits(i, s) {
      ItemFitsIff(i, s);
    }
  }

  ghost predicate DistinctItems(s: Snapshot) {
    forall j, k :: 0 <= j < k < |s.items| ==> s.items[j].id != s.items[k].id
  }

  lemma DistinctItemsIff(s: Snapshot)
    ensures Unique(ItemIds(s.items)) == ItemIds(s.items) <==> DistinctItems(s)
  {
    UniqueIff(ItemIds(s.items));
    assert forall k :: 0 <= k < |s.items| ==> ItemIds(s.items)[k] == s.items[k].id;
  }

  ghost predicate AllItemsFit(s: Snapshot) {
    && |s.items| >= 1 && DistinctItems(s) && ItemsFit(s)
    && HasCategory(s, News) && HasCategory(s, GlobalEquity) && HasCategory(s, FxRates) && AnalystsHaveItems(s)
  }

  lemma ValidItemsFit(s: Snapshot)
    requires ItemsValid(s)
    ensures AllItemsFit(s)
  {
    DistinctItemsIff(s);
    ItemsFitIff(s);
    AnalystsHaveItemsIff(s);
  }

  lemma FittingItemsAreValid(s: Snapshot)
    requires AllItemsFit(s)
    ensures ItemsValid(s)
  {
    DistinctItemsIff(s);
    ItemsFitIff(s);
    AnalystsHaveItemsIff(s);
    forall agent | agent in ANALYSTS ensures exists i :: i in s.items && agent in i.agents {
      assert HasItemFor(s, agent);
    }
  }

  lemma ItemsIff(s: Snapshot)
    ensures ItemsValid(s) <==> AllItemsFit(s)
  {
    if ItemsValid(s) {
      ValidItemsFit(s);
    }
    if AllItemsFit(s) {
      FittingItemsAreValid(s);
    }
  }

  lemma WikiIff(s: Snapshot)
    ensures WikiValid(s) <==> (forall agent :: Known(agent) ==> HasPageFor(s, agent)) && (forall w :: w in s.wiki ==> w.published <= s.evidenceCutoff)
  {
    forall agent ensures agent in AGENTS <==> Known(agent) {
    }
  }

  /** The snapshot validator accepts exactly this. */
  lemma SnapshotIff(s: Snapshot, sqrt: real -> real)
    ensures SnapshotValid(s, sqrt) <==> Fits(s, sqrt)
  {
    CalendarIff(s);
    if s.previousSession < s.forecastSession {
      WindowIff(s);
    }
    HistoryIff(s, sqrt);
    ItemsIff(s);
    WikiIff(s);
  }

  // ----- The tasks -----

  /** Page `k` is the first of the least pages of the agent among the first n. */
  ghost predicate IsFirstOf(s: Snapshot, agent: AgentId, n: nat, k: nat)
    requires n <= |s.wiki|
  {
    && k < n && agent in s.wiki[k].agents
    && forall j :: 0 <= j < n && agent in s.wiki[j].agents ==>
         !SortsBefore(s.wiki[j], s.wiki[k]) && (j < k ==> SortsBefore(s.wiki[k], s.wiki[j]))
  }

  /** The page is one of the agent's, none of them has a smaller entry and section, and of equals it is the
      first. */
  ghost predicate IsPageOf(s: Snapshot, agent: AgentId, w: WikiReference) {
    exists k :: 0 <= k < |s.wiki| && s.wiki[k] == w && IsFirstOf(s, agent, |s.wiki|, k)
  }

  predicate SortsBefore(a: WikiReference, b: WikiReference) {
    TextBefore(a.entry.text, b.entry.text) || (a.entry == b.entry && TextBefore(a.section.text, b.section.text))
  }

  /** The ids are those of the items the agent was assigned, in the order of the snapshot. */
  ghost predicate AreItemsOf(s: Snapshot, agent: AgentId, ids: seq<Id>) {
    && (forall id :: id in ids <==> exists i :: i in s.items && i.id == id && agent in i.agents)
    && (forall j, k :: 0 <= j < k < |ids| ==> ids[j] != ids[k])
  }

  ghost predicate AreAllItems(s: Snapshot, ids: seq<Id>) {
    |ids| == |s.items| && forall k :: 0 <= k < |ids| ==> ids[k] == s.items[k].id
  }

  function AnalystAt(k: nat): AgentId
    requires k < 4
  {
    if k == 0 then MacroPolicy else if k == 1 then MarketNews else if k == 2 then GlobalMarket else AiStorage
  }

  /** The task of an agent, in a role, on its page. */
  ghost predicate IsTaskOf(s: Snapshot, t: Task, agent: AgentId, role: Role) {
    t.agent == agent && t.id == ForAgent(agent) && t.role == role && IsPageOf(s, agent, t.wiki)
  }

  ghost predicate IsAnalystTask(s: Snapshot, t: Task, agent: AgentId) {
    IsTaskOf(s, t, agent, AnalystRole) && t.dependsOn == [] && AreItemsOf(s, agent, t.allowed)
  }

  /** Four analysts on their own items, Strategy on everything after them, the critic on everything after
      Strategy, each with its agent's page. */
  ghost predicate AreTasksOf(s: Snapshot, tasks: seq<Task>) {
    && |tasks| == 6
    && (forall k :: 0 <= k < 4 ==> IsAnalystTask(s, tasks[k], AnalystAt(k)))
    && IsTaskOf(s, tasks[4], Strategy, StrategyRole) && AreAllItems(s, tasks[4].allowed)
    && tasks[4].dependsOn == [ForAgent(MacroPolicy), ForAgent(MarketNews), ForAgent(GlobalMarket), ForAgent(AiStorage)]
    && IsTaskOf(s, tasks[5], RiskCritic, RiskRole) && AreAllItems(s, tasks[5].allowed) && tasks[5].dependsOn == [ForAgent(Strategy)]
  }

  lemma BeforeIff(a: WikiReference, b: WikiReference)
    ensures WikiBefore(a, b) <==> SortsBefore(a, b)
  {
    TextOrder(a.entry.text, b.entry.text, a.entry.text);
  }

  lemma NotBeforeItself(w: WikiReference)
    ensures !SortsBefore(w, w)
  {
    BeforeIff(w, w);
    WikiOrder(w, w, w);
  }

  lemma OnlyPage(s: Snapshot, agent: AgentId, n: nat)
    requires 0 < n <= |s.wiki| && agent in s.wiki[n - 1].agents && Filter(s.wiki[..n - 1], Covers(agent)) == []
    ensures IsFirstOf(s, agent, n, n - 1)
  {
    NotBeforeItself(s.wiki[n - 1]);
    FilterMembers(s.wiki[..n - 1], Covers(agent));
    forall j | 0 <= j < n - 1 ensures agent !in s.wiki[j].agents {
      assert s.wiki[..n - 1][j] in s.wiki[..n - 1];
    }
  }

  lemma BetterPage(s: Snapshot, agent: AgentId, n: nat, m: nat)
    requires 0 < n <= |s.wiki| && agent in s.wiki[n - 1].agents && IsFirstOf(s, agent, n - 1, m)
    ensures if WikiBefore(s.wiki[n - 1], s.wiki[m]) then IsFirstOf(s, agent, n, n - 1) else IsFirstOf(s, agent, n, m)
  {
    var last := s.wiki[n - 1];
    BeforeIff(last, s.wiki[m]);
    if WikiBefore(last, s.wiki[m]) {
      NotBeforeItself(last);
      forall j | 0 <= j < n - 1 && agent in s.wiki[j].agents ensures SortsBefore(last, s.wiki[j]) && !SortsBefore(s.wiki[j], last) {
        BetterThanLeast(last, s.wiki[m], s.wiki[j]);
      }
    }
  }

  lemma FilterUpTo(s: Snapshot, agent: AgentId, n: nat)
    requires 0 < n <= |s.wiki|
    ensures var before := Filter(s.wiki[..n - 1], Covers(agent));
            Filter(s.wiki[..n], Covers(agent)) == if agent in s.wiki[n - 1].agents then before + [s.wiki[n - 1]] else before
  {
    assert s.wiki[..n] == s.wiki[..n - 1] + [s.wiki[n - 1]];
    FilterSnoc(s.wiki[..n - 1], s.wiki[n - 1], Covers(agent));
  }

  lemma {:induction false} LeastAt(s: Snapshot, agent: AgentId, n: nat) returns (k: nat)
    requires n <= |s.wiki| && Filter(s.wiki[..n], Covers(agent)) != []
    ensures IsFirstOf(s, agent, n, k) && s.wiki[k] == Least(Filter(s.wiki[..n], Covers(agent)))
  {
    assert n > 0;
    var last, before := s.wiki[n - 1], Filter(s.wiki[..n - 1], Covers(agent));
    FilterUpTo(s, agent, n);
    if before == [] {
      k := n - 1;
      OnlyPage(s, agent, n);
    } else {
      k := LeastAt(s, agent, n - 1);
      if agent in last.agents {
        LeastSnoc(before, last);
        BetterPage(s, agent, n, k);
        k := if WikiBefore(last, s.wiki[k]) then n - 1 else k;
      }
    }
  }

  lemma LeastSnoc(before: seq<WikiReference>, last: WikiReference)
    requires before != []
    ensures Least(before + [last]) == if WikiBefore(last, Least(before)) then last else Least(before)
  {
    assert (before + [last])[..|before|] == before;
  }

  lemma BetterThanLeast(last: WikiReference, least: WikiReference, w: WikiReference)
    requires WikiBefore(last, least) && !SortsBefore(w, least)
    ensures SortsBefore(last, w) && !SortsBefore(w, last)
  {
    BeforeIff(last, w);
    BeforeIff(w, last);
    BeforeIff(w, least);
    WikiOrder(w, last, least);
    WikiOrder(least, w, last);
    BeforeIsAsymmetric(last, w);
    TextOrder(least.entry.text, w.entry.text, last.entry.text);
    TextOrder(last.entry.text, least.entry.text, w.entry.text);
    TextOrder(last.section.text, least.section.text, w.section.text);
    TextOrder(w.section.text, last.section.text, least.section.text);
    TextOrder(w.entry.text, last.entry.text, least.entry.text);
  }

  lemma PageIsFirst(s: Snapshot, agent: AgentId)
    requires WikiForAgent(s, agent).Some?
    ensures IsPageOf(s, agent, WikiForAgent(s, agent).value)
  {
    assert s.wiki[..|s.wiki|] == s.wiki;
    var k := LeastAt(s, agent, |s.wiki|);
    assert IsFirstOf(s, agent, |s.wiki|, k);
  }

  lemma {:induction false} FilteredDistinct(items: seq<EvidenceItem>, keep: EvidenceItem -> bool)
    requires NoDuplicates(ItemIds(items))
    ensures NoDuplicates(ItemIds(Filter(items, keep)))
  {
    if items != [] {
      var init, last := items[..|items| - 1], items[|items| - 1];
      assert ItemIds(items) == ItemIds(init) + [last.id];
      DistinctInit(ItemIds(init), last.id);
      FilteredDistinct(init, keep);
      if keep(last) {
        assert ItemIds(Filter(init, keep) + [last]) == ItemIds(Filter(init, keep)) + [last.id];
        ItemIdMember(Filter(init, keep), last.id);
        ItemIdMember(init, last.id);
        FilterMembers(init, keep);
        DistinctSnoc(ItemIds(Filter(init, keep)), last.id);
      }
    }
  }

  lemma OwnItems(s: Snapshot, agent: AgentId)
    requires NoDuplicates(ItemIds(s.items))
    ensures AreItemsOf(s, agent, ItemIds(Filter(s.items, AssignedTo(agent))))
  {
    var own := Filter(s.items, AssignedTo(agent));
    FilterMembers(s.items, AssignedTo(agent));
    FilteredDistinct(s.items, AssignedTo(agent));
    forall id ensures id in ItemIds(own) <==> exists i :: i in s.items && i.id == id && agent in i.agents {
      ItemIdMember(own, id);
    }
    forall j, k | 0 <= j < k < |own| ensures ItemIds(own)[j] != ItemIds(own)[k] {
      DistinctAt(ItemIds(own), j, k);
    }
  }

  lemma AnalystTaskIs(s: Snapshot, agent: AgentId, t: Task)
    requires NoDuplicates(ItemIds(s.items)) && AnalystTask(s, agent) == Some(t)
    ensures IsAnalystTask(s, t, agent)
  {
    OwnItems(s, agent);
    PageIsFirst(s, agent);
  }

  lemma LaterTaskIs(s: Snapshot, agent: AgentId, role: Role, dependsOn: seq<AssignmentId>, t: Task)
    requires LaterTask(s, agent, role, dependsOn) == Some(t)
    ensures IsTaskOf(s, t, agent, role) && AreAllItems(s, t.allowed) && t.dependsOn == dependsOn
  {
    PageIsFirst(s, agent);
  }

  lemma AnalystsInOrder()
    ensures forall k :: 0 <= k < 4 ==> ANALYSTS[k] == AnalystAt(k)
    ensures TaskIdOf(ANALYSTS) == [ForAgent(MacroPolicy), ForAgent(MarketNews), ForAgent(GlobalMarket), ForAgent(AiStorage)]
  {
  }

  /** On every valid snapshot the builder's tasks are these. */
  lemma BuiltTasksAre(s: Snapshot, sqrt: real -> real)
    requires SnapshotValid(s, sqrt)
    ensures BuiltTasks(s).Some? && AreTasksOf(s, BuiltTasks(s).value)
  {
    SnapshotParts(s, sqrt);
    UniqueMembers(ItemIds(s.items));
    BuiltTasksExist(s);
    AnalystsInOrder();
    var tasks := BuiltTasks(s).value;
    forall k | 0 <= k < 4 ensures IsAnalystTask(s, tasks[k], AnalystAt(k)) {
      AnalystTaskIs(s, AnalystAt(k), tasks[k]);
    }
    LaterTaskIs(s, Strategy, StrategyRole, TaskIdOf(ANALYSTS), tasks[4]);
    LaterTaskIs(s, RiskCritic, RiskRole, [ForAgent(Strategy)], tasks[5]);
  }
}
