/** What a premarket forecast and its evaluation say, in terms of the handoff, the drafts and the observed
    opens themselves, and exactly when there is one. Times are in microseconds. */
module ForecastContract {
  import opened Common
  import opened Scoring
  import opened Shrinkage
  import opened Coverage
  import opened CoverageContract
  import opened Premarket
  import opened PremarketBuilder
  import opened PremarketFinal
  import PremarketAnswer
  import opened SnapshotContract
  import opened HandoffContract

  // ----- Probabilities -----

  /** A lead of more than a billionth of the leader. */
  predicate Leads(winner: real, other: real) {
    winner - other > 0.000000001 * winner
  }

  predicate Points(p: Probabilities, d: Direction) {
    match d
    case Up => Leads(p.up, p.neutral) && Leads(p.up, p.down)
    case Neutral => Leads(p.neutral, p.up) && Leads(p.neutral, p.down)
    case Down => Leads(p.down, p.up) && Leads(p.down, p.neutral)
  }

  lemma GreatestIs(p: Probabilities)
    ensures Greatest(p) == (if p.up >= p.neutral && p.up >= p.down then p.up else if p.neutral >= p.down then p.neutral else p.down)
    ensures p.Of(Up) == p.up && p.Of(Neutral) == p.neutral && p.Of(Down) == p.down
  {
    assert p.Of(Up) <= Greatest(p) && p.Of(Neutral) <= Greatest(p) && p.Of(Down) <= Greatest(p);
    var top :| p.Of(top) == Greatest(p);
    match top { case Up => case Neutral => case Down => }
  }

  lemma PointsIff(p: Probabilities, d: Direction)
    requires p.Bounded()
    ensures Winner(p) == Some(d) <==> Points(p, d)
  {
    GreatestIs(p);
    WinnerMargin(p, Up);
    WinnerMargin(p, Neutral);
    WinnerMargin(p, Down);
    match d { case Up => case Neutral => case Down => }
  }

  // ----- Drafts and bundles -----

  predicate DraftFits(d: AgentDraft) {
    && 1 <= |d.evidence| <= 100 && (forall j, k :: 0 <= j < k < |d.evidence| ==> d.evidence[j] != d.evidence[k])
    && (d.role == RiskRole ==> d.direction == None && d.probabilities == None && d.severity != None)
    && (d.role != RiskRole ==>
          d.severity == None && d.direction.Some? && d.probabilities.Some? && VectorFits(d.probabilities.value) &&
          Points(d.probabilities.value, d.direction.value))
  }

  lemma DraftFitsIff(d: AgentDraft)
    ensures DraftValid(d) <==> DraftFits(d)
  {
    UniqueIff(d.evidence);
    if d.probabilities.Some? {
      VectorFitsIff(d.probabilities.value);
      if d.direction.Some? && VectorFits(d.probabilities.value) {
        PointsIff(d.probabilities.value, d.direction.value);
      }
    }
  }

  ghost predicate DistinctDrafts(drafts: seq<AgentDraft>) {
    forall j, k :: 0 <= j < k < |drafts| ==> drafts[j].assignment != drafts[k].assignment
  }

  ghost predicate DraftForEach(drafts: seq<AgentDraft>) {
    forall agent :: Known(agent) <==> exists d :: d in drafts && d.agent == agent
  }

  ghost predicate BundleFits(b: Bundle) {
    && |b.drafts| == 6 && DistinctDrafts(b.drafts) && DraftForEach(b.drafts)
    && (forall d :: d in b.drafts ==> DraftFits(d))
    && (b.primaryFailedAt.Some? ==> b.version != V1 && b.primaryFailedAt.value <= b.generatedAt)
  }

  lemma AgentsIff(b: Bundle)
    ensures DraftAgents(b.drafts) == AGENTS <==> DraftForEach(b.drafts)
  {
    forall agent ensures agent in AGENTS <==> Known(agent) {
    }
    forall agent ensures agent in DraftAgents(b.drafts) <==> exists d :: d in b.drafts && d.agent == agent {
    }
  }

  lemma DistinctDraftsIff(drafts: seq<AgentDraft>)
    ensures Unique(PremarketFinal.DraftIds(drafts)) == PremarketFinal.DraftIds(drafts) <==> DistinctDrafts(drafts)
  {
    UniqueIff(PremarketFinal.DraftIds(drafts));
    assert forall k :: 0 <= k < |drafts| ==> PremarketFinal.DraftIds(drafts)[k] == drafts[k].assignment;
  }

  /** The draft bundle's validator accepts exactly this. */
  lemma BundleIff(b: Bundle)
    ensures BundleValid(b) <==> BundleFits(b)
  {
    DistinctDraftsIff(b.drafts);
    AgentsIff(b);
    forall d ensures DraftValid(d) <==> DraftFits(d) {
      DraftFitsIff(d);
    }
  }

  // ----- One draft per agent -----

  function AgentList(drafts: seq<AgentDraft>): seq<AgentId> {
    Map(drafts, (d: AgentDraft) => d.agent)
  }

  lemma AgentListMembers(drafts: seq<AgentDraft>)
    ensures ToSet(AgentList(drafts)) == DraftAgents(drafts)
  {
    forall agent ensures agent in ToSet(AgentList(drafts)) <==> agent in DraftAgents(drafts) {
      MapMember(drafts, (d: AgentDraft) => d.agent, agent);
    }
  }

  lemma AgentsAreDistinct(drafts: seq<AgentDraft>)
    requires |drafts| == 6 && DraftAgents(drafts) == AGENTS
    ensures NoDuplicates(AgentList(drafts))
  {
    AgentListMembers(drafts);
    PremarketAnswer.SixAgents();
    PremarketAnswer.FullSizeIsDistinct(AgentList(drafts));
  }

  /** The draft the finaliser finds for an agent is the only one of that agent. */
  lemma DraftIs(b: Bundle, d: AgentDraft)
    requires BundleValid(b) && d in b.drafts
    ensures DraftOf(b.drafts, d.agent) == Some(d)
  {
    AgentsAreDistinct(b.drafts);
    DraftOfMember(b.drafts, d.agent);
    var j :| 0 <= j < |b.drafts| && b.drafts[j] == d;
    var k :| 0 <= k < |b.drafts| && b.drafts[k] == DraftOf(b.drafts, d.agent).value;
    DistinctAt(AgentList(b.drafts), j, k);
  }

  // ----- The binding -----

  /** The draft is its agent's, in the task's role, on the task's evidence and the task's frozen page. */
  predicate Answers(d: AgentDraft, t: Task) {
    && d.agent == t.agent && d.role == t.role
    && (forall id :: id in d.evidence ==> id in t.allowed)
    && d.wiki.entry == t.wiki.entry && d.wiki.version == t.wiki.version
    && d.wiki.section == t.wiki.section && d.wiki.contentHash == t.wiki.contentHash
  }

  predicate HasDraft(drafts: seq<AgentDraft>, id: AssignmentId) {
    exists d :: d in drafts && d.assignment == id
  }

  predicate SameIds(drafts: seq<AgentDraft>, tasks: seq<Task>) {
    (forall t :: t in tasks ==> HasDraft(drafts, t.id)) && (forall d :: d in drafts ==> IsTaskId(tasks, d.assignment))
  }

  predicate AllAnswer(drafts: seq<AgentDraft>, tasks: seq<Task>) {
    && SameIds(drafts, tasks)
    && (forall d, t :: d in drafts && t in tasks && d.assignment == t.id ==> Answers(d, t))
  }

  /** The same provider policy, the sealed request, a failure of the primary that does not predate it, drafts
      from after the cutoff, and an acceptance between the decision time and the deadline. */
  predicate Binds(h: Handoff, b: Bundle, at: int) {
    && b.version == h.body.version && b.runId == h.body.runId && b.requestHash == h.requestHash
    && (b.version != V1 && b.primaryFailedAt.Some? ==> b.primaryFailedAt.value >= h.body.preparedAt)
    && h.body.snapshot.evidenceCutoff <= b.generatedAt <= at
    && h.body.snapshot.decisionTime <= at < h.body.snapshot.deadline
  }

  ghost predicate AreDraftsOf(drafts: seq<AgentDraft>, shown: seq<Draft>) {
    && |shown| == |drafts|
    && forall k :: 0 <= k < |drafts| ==>
         shown[k].assignment == drafts[k].assignment && shown[k].evidence == drafts[k].evidence && shown[k].warned == drafts[k].warned
  }

  /** What the coverage gate is shown at finalisation. */
  datatype Shown = Shown(view: SnapshotView, assignments: seq<Assignment>, drafts: seq<Draft>)

  ghost predicate IsShown(h: HandoffBody, b: Bundle, shown: Shown) {
    IsViewOf(h.snapshot, shown.view) && AreAssignmentsOf(h.tasks, shown.assignments) && AreDraftsOf(b.drafts, shown.drafts)
  }

  lemma AnswersIff(d: AgentDraft, t: Task)
    ensures DraftMatches(d, t) <==> Answers(d, t)
  {
  }

  lemma HasDraftIff(drafts: seq<AgentDraft>, id: AssignmentId)
    ensures id in ToSet(PremarketFinal.DraftIds(drafts)) <==> HasDraft(drafts, id)
  {
    MapMember(drafts, (d: AgentDraft) => d.assignment, id);
  }

  lemma SameIdsIff(drafts: seq<AgentDraft>, tasks: seq<Task>)
    ensures ToSet(PremarketFinal.DraftIds(drafts)) == ToSet(TaskIds(tasks)) <==> SameIds(drafts, tasks)
  {
    forall id ensures id in ToSet(PremarketFinal.DraftIds(drafts)) <==> HasDraft(drafts, id) {
      HasDraftIff(drafts, id);
    }
    forall id ensures id in ToSet(TaskIds(tasks)) <==> IsTaskId(tasks, id) {
      TaskIdIff(tasks, id);
    }
    if ToSet(PremarketFinal.DraftIds(drafts)) == ToSet(TaskIds(tasks)) {
      forall t | t in tasks ensures HasDraft(drafts, t.id) {
        assert IsTaskId(tasks, t.id);
      }
      forall d | d in drafts ensures IsTaskId(tasks, d.assignment) {
        assert HasDraft(drafts, d.assignment);
      }
    }
  }

  lemma AllAnswerIff(h: HandoffBody, b: Bundle)
    ensures DraftsMatch(b, h) <==> AllAnswer(b.drafts, h.tasks)
  {
    SameIdsIff(b.drafts, h.tasks);
    forall d, t ensures DraftMatches(d, t) <==> Answers(d, t) {
      AnswersIff(d, t);
    }
  }

  lemma ShownIs(h: HandoffBody, b: Bundle, shown: Shown)
    requires IsShown(h, b, shown)
    ensures shown == Shown(View(h.snapshot), Assignments(h.tasks), CoverageDrafts(b.drafts))
  {
    ViewIs(h.snapshot, shown.view);
    AssignmentsAre(h.tasks, shown.assignments);
    assert forall k :: 0 <= k < |b.drafts| ==> shown.drafts[k] == CoverageDrafts(b.drafts)[k];
  }

  lemma DraftsAreUnique(b: Bundle)
    requires BundleValid(b)
    ensures NoDuplicates(CoverageContract.DraftIds(CoverageDrafts(b.drafts)))
  {
    assert CoverageContract.DraftIds(CoverageDrafts(b.drafts)) == PremarketFinal.DraftIds(b.drafts);
    UniqueMembers(PremarketFinal.DraftIds(b.drafts));
  }

  ghost predicate GatePasses(h: HandoffBody, shown: Shown) {
    h.coverage.Some? ==> Conforms(h.coverage.value, shown.view, shown.assignments, Some(shown.drafts))
  }

  lemma GatePassesIff(h: Handoff, b: Bundle, shown: Shown, sqrt: real -> real)
    requires HandoffValid(h, sqrt) && BundleValid(b) && IsShown(h.body, b, shown)
    ensures CoverageHolds(h.body, b) <==> GatePasses(h.body, shown)
  {
    ShownIs(h.body, b, shown);
    if h.body.coverage.Some? {
      ValidCoverageIsUnique(h.body.coverage.value);
      SnapshotParts(h.body.snapshot, sqrt);
      UniqueMembers(Premarket.ItemIds(h.body.snapshot.items));
      ViewIsUnique(h.body.snapshot);
      DraftsAreUnique(b);
      AcceptsIff(h.body.coverage.value, shown.view, shown.assignments, Some(shown.drafts));
    }
  }

  lemma BindsIff(h: Handoff, b: Bundle, at: int)
    ensures PolicyHolds(h.body, b) && b.runId == h.body.runId && b.requestHash == h.requestHash && InTime(h.body, b, at) <==> Binds(h, b, at)
  {
  }

  lemma AdmissibleParts(h: Handoff, b: Bundle, at: int)
    ensures Admissible(h, b, at) <==>
            && PolicyHolds(h.body, b) && b.runId == h.body.runId && b.requestHash == h.requestHash && InTime(h.body, b, at)
            && CoverageHolds(h.body, b) && DraftsMatch(b, h.body)
  {
  }

  lemma AdmissibleIff(h: Handoff, b: Bundle, at: int, shown: Shown, sqrt: real -> real)
    requires HandoffValid(h, sqrt) && BundleValid(b) && IsShown(h.body, b, shown)
    ensures Admissible(h, b, at) <==> Binds(h, b, at) && AllAnswer(b.drafts, h.body.tasks) && GatePasses(h.body, shown)
  {
    AdmissibleParts(h, b, at);
    BindsIff(h, b, at);
    AllAnswerIff(h.body, b);
    GatePassesIff(h, b, shown, sqrt);
  }

  // ----- The discount -----

  /** Partial coverage with a group that was not collected or an unresolved event. */
  ghost predicate Degraded(h: HandoffBody) {
    && h.version == V4 && h.coverage.Some?
    && exists g :: IsGap(h.coverage.value, g)
  }

  lemma DegradedIff(h: HandoffBody)
    requires HandoffBodyValid(h)
    ensures GapsOf(h) != [] <==> Degraded(h)
  {
    if h.coverage.Some? {
      var c := h.coverage.value;
      ValidCoverageIsUnique(c);
      GapsAre(c);
      if Gaps(c) != [] {
        assert IsGap(c, Gaps(c)[0]);
      }
    }
  }

  /** The share of the uniform vector in the published one. */
  ghost function Share(severity: Severity, degraded: bool): real {
    if degraded then 0.35 else match severity case NoRisk => 0.0 case Low => 0.05 case Medium => 0.12 case High => 0.20
  }

  predicate Shrunk(q: Probabilities, p: Probabilities, share: real) {
    && q.up == (1.0 - share) * p.up + share / 3.0
    && q.neutral == (1.0 - share) * p.neutral + share / 3.0
    && q.down == (1.0 - share) * p.down + share / 3.0
  }

  lemma ShareIs(severity: Severity, degraded: bool)
    ensures Discount(severity, degraded) == Share(severity, degraded)
  {
  }

  lemma ShrunkIff(q: Probabilities, p: Probabilities, d: real)
    ensures q == Mix(p, d) <==> Shrunk(q, p, d)
  {
  }

  // ----- Exactly when there is a forecast -----

  ghost predicate AreCited(b: Bundle, cited: set<Id>) {
    forall id :: id in cited <==> exists d :: d in b.drafts && id in d.evidence
  }

  lemma CitedIs(b: Bundle, cited: set<Id>)
    ensures CitedEvidence(b.drafts) == cited <==> AreCited(b, cited)
  {
    assert AreCited(b, CitedEvidence(b.drafts));
    if AreCited(b, cited) {
      assert forall id :: id in cited <==> id in CitedEvidence(b.drafts);
    }
  }

  /** The published vector still has a leader. */
  ghost predicate HasLeader(p: Probabilities, share: real) {
    exists q, d :: Shrunk(q, p, share) && Points(q, d)
  }

  lemma LeaderOfMix(p: Probabilities, q: Probabilities, share: real)
    requires q == Mix(p, share) && q.Bounded()
    ensures Winner(q).Some? <==> HasLeader(p, share)
  {
    if Winner(q).Some? {
      PointsIff(q, Winner(q).value);
      ShrunkIff(q, p, share);
    }
    if HasLeader(p, share) {
      var x, d :| Shrunk(x, p, share) && Points(x, d);
      ShrunkIff(x, p, share);
      PointsIff(q, d);
    }
  }

  lemma HasLeaderIff(p: Probabilities, severity: Severity, degraded: bool)
    requires VectorFits(p)
    ensures var q := Mix(p, Discount(severity, degraded));
            (ScoringValid(q) && Winner(q).Some?) <==> HasLeader(p, Share(severity, degraded))
  {
    ShareIs(severity, degraded);
    VectorFitsIff(p);
    MixIsValid(p, severity, degraded);
    LeaderOfMix(p, Mix(p, Discount(severity, degraded)), Share(severity, degraded));
  }

  lemma DraftVectorFits(b: Bundle, d: AgentDraft)
    requires BundleValid(b) && d in b.drafts && d.probabilities.Some?
    ensures VectorFits(d.probabilities.value)
  {
    assert DraftValid(d);
    VectorFitsIff(d.probabilities.value);
  }

  lemma FinalizeParts(h: Handoff, b: Bundle, at: int, strategy: AgentDraft, critic: AgentDraft)
    requires DraftOf(b.drafts, Strategy) == Some(strategy) && DraftOf(b.drafts, RiskCritic) == Some(critic)
    ensures Finalize(h, b, at).Ok? <==>
            && Admissible(h, b, at) && strategy.probabilities.Some? && critic.severity.Some?
            && (var q := Mix(strategy.probabilities.value, Discount(critic.severity.value, GapsOf(h.body) != []));
                ScoringValid(q) && Winner(q).Some?)
            && |CitedEvidence(b.drafts)| <= MAX_EVIDENCE
  {
  }

  /** Finalisation succeeds exactly when the drafts bind the sealed handoff, the coverage gate passes on what
      it is shown, Strategy and the critic answer in their roles, the shrunken vector has a leader and at most
      a hundred items are cited. */
  lemma FinalizeIff(h: Handoff, b: Bundle, at: int, shown: Shown, cited: set<Id>, strategy: AgentDraft, critic: AgentDraft, sqrt: real -> real)
    requires HandoffValid(h, sqrt) && BundleValid(b) && IsShown(h.body, b, shown) && AreCited(b, cited)
    requires strategy in b.drafts && strategy.agent == Strategy && critic in b.drafts && critic.agent == RiskCritic
    ensures Finalize(h, b, at).Ok? <==>
            && Binds(h, b, at) && AllAnswer(b.drafts, h.body.tasks) && GatePasses(h.body, shown)
            && strategy.probabilities.Some? && critic.severity.Some?
            && HasLeader(strategy.probabilities.value, Share(critic.severity.value, Degraded(h.body)))
            && |cited| <= 100
  {
    AdmissibleIff(h, b, at, shown, sqrt);
    DraftIs(b, strategy);
    DraftIs(b, critic);
    CitedIs(b, cited);
    DegradedIff(h.body);
    FinalizeParts(h, b, at, strategy, critic);
    if strategy.probabilities.Some? && critic.severity.Some? {
      DraftVectorFits(b, strategy);
      HasLeaderIff(strategy.probabilities.value, critic.severity.value, Degraded(h.body));
    }
  }

  // ----- What it says -----

  /** Sessions, times, run, request, threshold, severity and pages are those of the handoff and the critic. */
  ghost predicate Repeats(f: Forecast, h: Handoff, at: int, critic: AgentDraft) {
    && f.runId == h.body.runId && f.requestHash == h.requestHash
    && f.forecastSession == h.body.snapshot.forecastSession && f.targetSession == h.body.snapshot.targetSession
    && f.cutoff == h.body.snapshot.evidenceCutoff && f.decisionTime == h.body.snapshot.decisionTime && f.created == at
    && f.threshold == 0.25 * h.body.snapshot.volatility && critic.severity == Some(f.severity)
    && |f.wiki| == |h.body.tasks| && forall k :: 0 <= k < |f.wiki| ==> f.wiki[k] == h.body.tasks[k].wiki
  }

  ghost predicate Forecasts(f: Forecast, h: Handoff, strategy: AgentDraft) {
    && strategy.probabilities.Some? && Shrunk(f.probabilities, strategy.probabilities.value, Share(f.severity, Degraded(h.body)))
    && VectorFits(f.probabilities) && Points(f.probabilities, f.direction) && strategy.direction == Some(f.direction)
  }

  ghost predicate ListsGaps(f: Forecast, h: HandoffBody) {
    if h.version == V4 && h.coverage.Some? then AreGaps(h.coverage.value, f.degraded) else f.degraded == []
  }

  lemma PublishedForecasts(h: Handoff, b: Bundle, at: int, strategy: AgentDraft, sqrt: real -> real)
    requires HandoffValid(h, sqrt) && BundleValid(b) && Finalize(h, b, at).Ok? && DraftOf(b.drafts, Strategy) == Some(strategy)
    ensures Forecasts(Finalize(h, b, at).value, h, strategy)
  {
    var f := Finalize(h, b, at).value;
    ForecastIsShrunkenStrategy(h, b, at);
    FinalizedVector(h, b, at);
    DegradedIff(h.body);
    ShareIs(f.severity, Degraded(h.body));
    ShrunkIff(f.probabilities, strategy.probabilities.value, Share(f.severity, Degraded(h.body)));
    VectorFitsIff(f.probabilities);
    PointsIff(f.probabilities, f.direction);
  }

  lemma PublishedRepeats(h: Handoff, b: Bundle, at: int, critic: AgentDraft)
    requires Finalize(h, b, at).Ok? && DraftOf(b.drafts, RiskCritic) == Some(critic)
    ensures Repeats(Finalize(h, b, at).value, h, at, critic)
    ensures Finalize(h, b, at).value.degraded == GapsOf(h.body) && Finalize(h, b, at).value.evidence == CitedEvidence(b.drafts)
  {
  }

  /** What a forecast says: the Strategy vector shrunk by the critic's own severity, or by 0.35 under a gap, in
      the Strategy's direction; a quarter of the volatility as threshold; all gaps; and all cited items. */
  lemma ForecastSays(h: Handoff, b: Bundle, at: int, strategy: AgentDraft, critic: AgentDraft, sqrt: real -> real)
    requires HandoffValid(h, sqrt) && BundleValid(b) && Finalize(h, b, at).Ok?
    requires strategy in b.drafts && strategy.agent == Strategy && critic in b.drafts && critic.agent == RiskCritic
    ensures var f := Finalize(h, b, at).value;
            Repeats(f, h, at, critic) && Forecasts(f, h, strategy) && ListsGaps(f, h.body) && AreCited(b, f.evidence)
  {
    DraftIs(b, strategy);
    DraftIs(b, critic);
    PublishedForecasts(h, b, at, strategy, sqrt);
    PublishedRepeats(h, b, at, critic);
    CitedIs(b, CitedEvidence(b.drafts));
    if h.body.coverage.Some? {
      ValidCoverageIsUnique(h.body.coverage.value);
      GapsAre(h.body.coverage.value);
    }
  }

  // ----- The evidence behind it -----

  /** Published from 15:00 of the previous session to 09:10 of the forecast session,
      observed and ingested by then, and not of the lowest tier. */
  predicate IsFrozen(s: Snapshot, i: EvidenceItem) {
    && !i.tier4
    && Instant(s.previousSession, 15, 0) <= i.published <= Instant(s.forecastSession, 9, 10)
    && i.observed <= i.ingested <= Instant(s.forecastSession, 9, 10)
  }

  predicate CitesFrozen(s: Snapshot, id: Id) {
    exists i :: i in s.items && i.id == id && IsFrozen(s, i)
  }

  lemma WindowIsFrozen(s: Snapshot, id: Id, sqrt: real -> real)
    requires SnapshotValid(s, sqrt)
    ensures CitesWindow(s, id) <==> CitesFrozen(s, id)
  {
    SnapshotIff(s, sqrt);
    forall i | i in s.items ensures ItemInWindow(i, s) && IsFrozen(s, i) {
      assert ItemFits(i, s);
      ItemFitsIff(i, s);
    }
  }

  /** Whatever a forecast from a built handoff cites is frozen evidence of the snapshot. */
  lemma BuiltForecastCitesFrozen(s: Snapshot, h: Handoff, b: Bundle, at: int, id: Id, apiFirst: bool, sqrt: real -> real)
    requires SnapshotValid(s, sqrt) && IsBuilt(h, s, h.body.runId, h.body.preparedAt, apiFirst, h.body.coverage)
    requires Finalize(h, b, at).Ok? && id in Finalize(h, b, at).value.evidence
    ensures CitesFrozen(s, id)
  {
    SnapshotParts(s, sqrt);
    BuiltAllowsItems(s, h.body.tasks);
    AllowedEvidenceIsInWindow(h, b, at, id);
    WindowIsFrozen(s, id, sqrt);
  }

  lemma BuiltAllowsItems(s: Snapshot, tasks: seq<Task>)
    requires AreTasksOf(s, tasks)
    ensures forall t, id :: t in tasks && id in t.allowed ==> id in Premarket.ItemIds(s.items)
  {
    forall t, id | t in tasks && id in t.allowed ensures id in Premarket.ItemIds(s.items) {
      ItemIdMember(s.items, id);
      var k :| 0 <= k < 6 && tasks[k] == t;
      if k < 4 {
        assert IsAnalystTask(s, t, AnalystAt(k));
      }
    }
  }

  /** The item is in the snapshot, under the hash the event bound, and not later than the cutoff. */
  predicate Backs(e: PolicyEvent, s: Snapshot, id: Id) {
    id in e.evidence && id in e.sourceHashes &&
    exists i :: i in s.items && i.id == id && i.sourceHash == e.sourceHashes[id] &&
                i.published <= s.evidenceCutoff && i.ingested <= s.evidenceCutoff && i.observed <= s.evidenceCutoff
  }

  /** Whenever a handoff with coverage is finalised, every event except an unresolved one under the partial
      contract has, in the macro draft and in the Strategy draft, one of its own items, unchanged and in time;
      and the forecast cites it. */
  lemma EventReachesForecast(h: Handoff, b: Bundle, at: int, e: PolicyEvent, d: AgentDraft, sqrt: real -> real) returns (id: Id)
    requires HandoffValid(h, sqrt) && BundleValid(b) && Finalize(h, b, at).Ok? && h.body.coverage.Some?
    requires e in h.body.coverage.value.events && !(h.body.coverage.value.policy == Partial && e.status == Unresolved)
    requires d in b.drafts && (d.agent == MacroPolicy || d.agent == Strategy)
    ensures id in d.evidence && id in Finalize(h, b, at).value.evidence && Backs(e, h.body.snapshot, id)
  {
    var own: AgentDraft;
    own, id := EventIsCitedEndToEnd(h, b, at, e, d.agent, sqrt);
    DraftIs(b, own);
    DraftIs(b, d);
    BackingItem(e, h.body.snapshot, id);
  }

  lemma BackingItem(e: PolicyEvent, s: Snapshot, id: Id)
    requires id in e.evidence && ItemBacks(e, View(s), id)
    ensures Backs(e, s, id)
  {
    ItemForIsItem(View(s).items, id);
    var k :| 0 <= k < |View(s).items| && View(s).items[k] == ItemFor(View(s).items, id).value;
    assert s.items[k] in s.items;
  }

  lemma {:induction false} ItemForIsItem(items: seq<Item>, id: Id)
    ensures ItemFor(items, id).Some? ==> ItemFor(items, id).value in items && ItemFor(items, id).value.id == id
  {
    if items != [] {
      ItemForIsItem(items[..|items| - 1], id);
    }
  }

  // ----- The evaluation -----

  /** The outcome is this forecast's, for its sessions, observed at or after 09:30 of the target session and
      not after the evaluation. */
  predicate Observes(f: Forecast, o: Observation, at: int) {
    && o.forecast == f && o.forecastSession == f.forecastSession && o.targetSession == f.targetSession
    && Instant(f.targetSession, 9, 30) <= o.sourceObserved
    && Instant(f.targetSession, 9, 30) <= o.observed <= at
  }

  /** The realised return is that of the two opens; a rise above the threshold is up, a fall below it down. */
  predicate Labels(v: Evaluation, f: Forecast, o: Observation) {
    && (1.0 + v.realized) * o.startOpen == o.endOpen
    && (v.actual == Up <==> o.endOpen > (1.0 + f.threshold) * o.startOpen)
    && (v.actual == Down <==> o.endOpen < (1.0 - f.threshold) * o.startOpen)
  }

  function Target(actual: Direction, d: Direction): real {
    if actual == d then 1.0 else 0.0
  }

  predicate Scores(v: Evaluation, f: Forecast) {
    && (v.directionCorrect <==> f.direction == v.actual)
    && 3.0 * v.brier == (f.probabilities.up - Target(v.actual, Up)) * (f.probabilities.up - Target(v.actual, Up))
                        + (f.probabilities.neutral - Target(v.actual, Neutral)) * (f.probabilities.neutral - Target(v.actual, Neutral))
                        + (f.probabilities.down - Target(v.actual, Down)) * (f.probabilities.down - Target(v.actual, Down))
  }

  lemma EvaluateIff(f: Forecast, o: Observation, at: int)
    requires o.startOpen > 0.0
    ensures Evaluate(f, o, at).Ok? <==> Observes(f, o, at)
  {
  }

  lemma Scaled(x: real, y: real, factor: real)
    requires factor > 0.0
    ensures x > y <==> x * factor > y * factor
  {
    if x > y {
      assert (x - y) * factor > 0.0;
    } else {
      Monotone(factor, x, y);
    }
  }

  /** Comparing the return with a bound, or the end open with the bound times the start open. */
  lemma ReturnAbove(start: real, end: real, bound: real)
    requires start > 0.0
    ensures (1.0 + (end / start - 1.0)) * start == end
    ensures end / start - 1.0 > bound <==> end > (1.0 + bound) * start
    ensures end / start - 1.0 < bound <==> end < (1.0 + bound) * start
  {
    var x := end / start;
    assert x * start == end;
    Scaled(x, 1.0 + bound, start);
    Scaled(1.0 + bound, x, start);
  }

  lemma EvaluationLabels(f: Forecast, o: Observation, at: int)
    requires o.startOpen > 0.0 && f.threshold >= 0.0 && Evaluate(f, o, at).Ok?
    ensures Labels(Evaluate(f, o, at).value, f, o)
  {
    ReturnAbove(o.startOpen, o.endOpen, f.threshold);
    ReturnAbove(o.startOpen, o.endOpen, -f.threshold);
  }

  lemma EvaluationScores(f: Forecast, o: Observation, at: int)
    requires o.startOpen > 0.0 && Evaluate(f, o, at).Ok?
    ensures Scores(Evaluate(f, o, at).value, f)
  {
  }

  /** An evaluation exists exactly for a timely observation of the forecast's own sessions; its label follows
      from the opens and the threshold, and its score from the label. */
  lemma EvaluationSays(f: Forecast, o: Observation, at: int)
    requires o.startOpen > 0.0 && f.threshold >= 0.0
    ensures Evaluate(f, o, at).Ok? <==> Observes(f, o, at)
    ensures Evaluate(f, o, at).Ok? ==> Labels(Evaluate(f, o, at).value, f, o) && Scores(Evaluate(f, o, at).value, f)
  {
    EvaluateIff(f, o, at);
    if Evaluate(f, o, at).Ok? {
      EvaluationLabels(f, o, at);
      EvaluationScores(f, o, at);
    }
  }
}
