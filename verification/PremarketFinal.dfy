/** Draft binding, the Risk Critic's discount and the evaluation of a premarket forecast. */
module PremarketFinal {
  import opened Common
  import opened Scoring
  import opened Shrinkage
  import opened Coverage
  import opened Premarket
  import opened PremarketBuilder

  /** The wiki identity a draft repeats. */
  datatype WikiIdentity = WikiIdentity(entry: Id, version: Id, section: Id, contentHash: Id)

  datatype AgentDraft = AgentDraft(
    assignment: AssignmentId, agent: AgentId, role: Role, direction: Option<Direction>,
    probabilities: Option<Probabilities>, severity: Option<Severity>, evidence: seq<Id>, wiki: WikiIdentity, warned: bool)

  datatype Bundle = Bundle(
    version: Version, runId: Id, requestHash: Digest, generatedAt: int, primaryFailedAt: Option<int>, drafts: seq<AgentDraft>)

  datatype Forecast = Forecast(
    runId: Id, requestHash: Digest, forecastSession: int, targetSession: int, cutoff: int, decisionTime: int, created: int,
    direction: Direction, probabilities: Probabilities, threshold: real, severity: Severity, degraded: seq<Gap>,
    evidence: set<Id>, wiki: seq<WikiReference>)

  const MAX_EVIDENCE: nat := 100

  // ----- Drafts -----

  predicate DraftValid(d: AgentDraft) {
    && d.evidence != [] && |d.evidence| <= MAX_EVIDENCE && Unique(d.evidence) == d.evidence
    && if d.role == RiskRole then d.direction.None? && d.probabilities.None? && d.severity.Some?
       else d.probabilities.Some? && d.severity.None? && ScoringValid(d.probabilities.value) &&
            d.direction.Some? && Winner(d.probabilities.value) == d.direction
  }

  function DraftIds(drafts: seq<AgentDraft>): seq<AssignmentId> {
    Map(drafts, (d: AgentDraft) => d.assignment)
  }

  function DraftAgents(drafts: seq<AgentDraft>): set<AgentId> {
    set d | d in drafts :: d.agent
  }

  predicate BundleValid(b: Bundle) {
    && |b.drafts| == 6 && Unique(DraftIds(b.drafts)) == DraftIds(b.drafts)
    && DraftAgents(b.drafts) == AGENTS
    && (forall d :: d in b.drafts ==> DraftValid(d))
    && (b.version == V1 ==> b.primaryFailedAt.None?)
    && (b.primaryFailedAt.Some? ==> b.primaryFailedAt.value <= b.generatedAt)
  }

  function CoverageDrafts(drafts: seq<AgentDraft>): seq<Draft> {
    Map(drafts, (d: AgentDraft) => Draft(d.assignment, d.evidence, d.warned))
  }

  function IdentityOf(w: WikiReference): WikiIdentity {
    WikiIdentity(w.entry, w.version, w.section, w.contentHash)
  }

  /** One draft against one task. */
  predicate DraftMatches(d: AgentDraft, t: Task) {
    && d.agent == t.agent && d.role == t.role
    && (forall id :: id in d.evidence ==> id in t.allowed)
    && d.wiki == IdentityOf(t.wiki)
  }

  predicate DraftsMatch(b: Bundle, h: HandoffBody) {
    && ToSet(DraftIds(b.drafts)) == ToSet(TaskIds(h.tasks))
    && forall d, t :: d in b.drafts && t in h.tasks && d.assignment == t.id ==> DraftMatches(d, t)
  }

  function CitedEvidence(drafts: seq<AgentDraft>): set<Id> {
    set d, id | d in drafts && id in d.evidence :: id
  }

  /** `next(item for item in drafts if item.agent_id == agent)` */
  function DraftOf(drafts: seq<AgentDraft>, agent: AgentId): Option<AgentDraft> {
    if drafts == [] then None
    else if drafts[0].agent == agent then Some(drafts[0])
    else DraftOf(drafts[1..], agent)
  }

  // ----- Finalisation -----

  predicate CoverageHolds(h: HandoffBody, b: Bundle) {
    h.coverage.Some? ==> Accepts(h.coverage.value, View(h.snapshot), Assignments(h.tasks), Some(CoverageDrafts(b.drafts)))
  }

  predicate PolicyHolds(h: HandoffBody, b: Bundle) {
    && b.version == h.version
    && (h.version != V1 && b.primaryFailedAt.Some? ==> b.primaryFailedAt.value >= h.preparedAt)
  }

  predicate InTime(h: HandoffBody, b: Bundle, acceptedAt: int) {
    && h.snapshot.evidenceCutoff <= b.generatedAt <= acceptedAt
    && h.snapshot.decisionTime <= acceptedAt < h.snapshot.deadline
  }

  function GapsOf(h: HandoffBody): seq<Gap> {
    if h.version == V4 && h.coverage.Some? then Gaps(h.coverage.value) else []
  }

  /** Everything checked before the forecast is computed. */
  predicate Admissible(h: Handoff, b: Bundle, acceptedAt: int) {
    && CoverageHolds(h.body, b) && PolicyHolds(h.body, b)
    && b.runId == h.body.runId && b.requestHash == h.requestHash
    && InTime(h.body, b, acceptedAt) && DraftsMatch(b, h.body)
  }

  /** `finalize_premarket_forecast`, on a handoff and a bundle that passed their own validators. */
  function Finalize(h: Handoff, b: Bundle, acceptedAt: int): Result<Forecast> {
    if !Admissible(h, b, acceptedAt) then Err("the drafts do not bind the handoff")
    else
      var strategy, critic := DraftOf(b.drafts, Strategy), DraftOf(b.drafts, RiskCritic);
      if strategy.None? || critic.None? || strategy.value.probabilities.None? || critic.value.severity.None? then
        Err("assertion failed")
      else
        var d := Discount(critic.value.severity.value, GapsOf(h.body) != []);
        Conclude(h, b, acceptedAt, Mix(strategy.value.probabilities.value, d), critic.value.severity.value)
  }

  /** The checks on the discounted vector and on the number of cited items. */
  function Conclude(h: Handoff, b: Bundle, acceptedAt: int, q: Probabilities, severity: Severity): Result<Forecast> {
    if !ScoringValid(q) || Winner(q).None? then Err("probabilities must have a unique maximum")
    else if |CitedEvidence(b.drafts)| > MAX_EVIDENCE then Err("too many evidence items")
    else Ok(Publish(h, b, acceptedAt, q, severity))
  }

  function Publish(h: Handoff, b: Bundle, acceptedAt: int, q: Probabilities, severity: Severity): Forecast
    requires Winner(q).Some?
  {
    var s := h.body.snapshot;
    Forecast(h.body.runId, h.requestHash, s.forecastSession, s.targetSession, s.evidenceCutoff, s.decisionTime, acceptedAt,
             Winner(q).value, q, 0.25 * s.volatility, severity, GapsOf(h.body), CitedEvidence(b.drafts),
             Map(h.body.tasks, (t: Task) => t.wiki))
  }

  // ----- What a successful finalisation says -----

  lemma {:induction false} DraftOfMember(drafts: seq<AgentDraft>, agent: AgentId)
    ensures DraftOf(drafts, agent).Some? <==> agent in DraftAgents(drafts)
    ensures DraftOf(drafts, agent).Some? ==> DraftOf(drafts, agent).value in drafts && DraftOf(drafts, agent).value.agent == agent
  {
    if drafts != [] {
      DraftOfMember(drafts[1..], agent);
      assert drafts == [drafts[0]] + drafts[1..];
      assert DraftAgents(drafts) == {drafts[0].agent} + DraftAgents(drafts[1..]);
    } else {
      assert DraftAgents(drafts) == {};
    }
  }

  lemma FinalizedAgents(h: Handoff, b: Bundle, acceptedAt: int)
    requires BundleValid(b) && Finalize(h, b, acceptedAt).Ok?
    ensures Admissible(h, b, acceptedAt)
    ensures DraftOf(b.drafts, Strategy).Some? && DraftOf(b.drafts, Strategy).value.probabilities.Some?
    ensures DraftOf(b.drafts, RiskCritic).Some? && DraftOf(b.drafts, RiskCritic).value.severity.Some?
    ensures DraftValid(DraftOf(b.drafts, Strategy).value)
  {
    DraftOfMember(b.drafts, Strategy);
  }

  /** What the forecast says: the Strategy vector shrunk by the critic's discount (at least 0.35 when
      there is a gap), in the Strategy's own direction, with every class capped under a gap. */
  lemma ForecastIsShrunkenStrategy(h: Handoff, b: Bundle, acceptedAt: int)
    requires BundleValid(b) && Finalize(h, b, acceptedAt).Ok?
    ensures var f, strategy := Finalize(h, b, acceptedAt).value, DraftOf(b.drafts, Strategy);
            && strategy.Some? && strategy.value.probabilities.Some?
            && f.probabilities == Mix(strategy.value.probabilities.value, Discount(f.severity, GapsOf(h.body) != []))
            && ScoringValid(f.probabilities) && strategy.value.direction == Some(f.direction)
            && (GapsOf(h.body) != [] ==> forall c :: f.probabilities.Of(c) <= 0.65 + 0.35 / 3.0)
  {
    FinalizedAgents(h, b, acceptedAt);
    FinalizedVector(h, b, acceptedAt);
    var f := Finalize(h, b, acceptedAt).value;
    StrategyIsDirectional(DraftOf(b.drafts, Strategy).value, f.severity, GapsOf(h.body) != [], f.probabilities, f.direction);
  }

  predicate IsShrunken(q: Probabilities, direction: Direction, d: AgentDraft, severity: Severity, hasGaps: bool) {
    d.probabilities.Some? && q == Mix(d.probabilities.value, Discount(severity, hasGaps)) && Winner(q) == Some(direction)
  }

  lemma FinalizedVector(h: Handoff, b: Bundle, acceptedAt: int)
    requires Finalize(h, b, acceptedAt).Ok? && DraftOf(b.drafts, Strategy).Some?
    ensures var f := Finalize(h, b, acceptedAt).value;
            IsShrunken(f.probabilities, f.direction, DraftOf(b.drafts, Strategy).value, f.severity, GapsOf(h.body) != [])
  {
  }

  lemma StrategyIsDirectional(d: AgentDraft, severity: Severity, hasGaps: bool, q: Probabilities, direction: Direction)
    requires DraftValid(d) && IsShrunken(q, direction, d, severity, hasGaps)
    ensures d.direction == Some(direction)
    ensures ScoringValid(q) && (hasGaps ==> forall c :: q.Of(c) <= 0.65 + 0.35 / 3.0)
  {
    DiscountKeepsWinner(d.probabilities.value, severity, hasGaps, d.direction.value);
    MixIsValid(d.probabilities.value, severity, hasGaps);
  }

  /** A forecast is accepted between the decision time and the deadline, from drafts generated after the
      cutoff. On a valid snapshot that is between 09:15 and 09:24 of the forecast session. */
  lemma ForecastIsInTime(h: Handoff, b: Bundle, acceptedAt: int, sqrt: real -> real)
    requires HandoffValid(h, sqrt) && Finalize(h, b, acceptedAt).Ok?
    ensures var s := h.body.snapshot;
            && s.evidenceCutoff <= b.generatedAt <= acceptedAt
            && LocalDate(acceptedAt) == s.forecastSession < s.targetSession
            && Clock(9, 15) <= LocalTime(acceptedAt) < Clock(9, 24)
  {
    SnapshotParts(h.body.snapshot, sqrt);
    var s := h.body.snapshot;
    SameDay(s.decisionTime, acceptedAt, s.deadline);
  }

  lemma SameDay(a: int, t: int, b: int)
    requires a <= t < b && LocalDate(a) == LocalDate(b)
    ensures LocalDate(t) == LocalDate(a) && LocalTime(a) <= LocalTime(t) < LocalTime(b)
  {
    DayBounds(a);
    DayBounds(t);
    DayBounds(b);
  }

  lemma DayBounds(t: int)
    ensures t + ZONE == LocalDate(t) * DAY + LocalTime(t) && 0 <= LocalTime(t) < DAY
  {
  }

  // ----- Citations -----

  /** Inside the frozen window of the snapshot. */
  predicate CitesWindow(s: Snapshot, id: Id) {
    exists i :: i in s.items && i.id == id && ItemInWindow(i, s)
  }

  lemma MatchedTask(h: HandoffBody, b: Bundle, d: AgentDraft) returns (t: Task)
    requires DraftsMatch(b, h) && d in b.drafts
    ensures t in h.tasks && t.id == d.assignment && DraftMatches(d, t)
  {
    MapMember(b.drafts, (x: AgentDraft) => x.assignment, d.assignment);
    assert d.assignment in ToSet(DraftIds(b.drafts));
    MapMember(h.tasks, (x: Task) => x.id, d.assignment);
    t :| t in h.tasks && t.id == d.assignment;
  }

  lemma CitedIsInWindow(h: HandoffBody, b: Bundle, id: Id)
    requires ItemsValid(h.snapshot) && AllowedInSnapshot(h) && DraftsMatch(b, h) && id in CitedEvidence(b.drafts)
    ensures CitesWindow(h.snapshot, id)
  {
    var d :| d in b.drafts && id in d.evidence;
    var t := MatchedTask(h, b, d);
    ItemIdMember(h.snapshot.items, id);
  }

  /** If the tasks only allow evidence of the snapshot, a forecast only cites evidence published inside
      the window and captured before the cutoff. */
  lemma AllowedEvidenceIsInWindow(h: Handoff, b: Bundle, acceptedAt: int, id: Id)
    requires ItemsValid(h.body.snapshot) && AllowedInSnapshot(h.body)
    requires Finalize(h, b, acceptedAt).Ok? && id in Finalize(h, b, acceptedAt).value.evidence
    ensures CitesWindow(h.body.snapshot, id)
  {
    FinalizedIsAdmissible(h, b, acceptedAt);
    CitedIsInWindow(h.body, b, id);
  }

  /** End to end for built handoffs: every id a forecast cites names an item of the valid snapshot the
      handoff was built from, published in the window and captured before the cutoff. */
  lemma BuiltForecastCitesWindow(s: Snapshot, h: Handoff, b: Bundle, acceptedAt: int, id: Id, sqrt: real -> real)
    requires SnapshotValid(s, sqrt) && BuiltTasks(s).Some?
    requires h.body == BuiltBody(s, h.body.runId, h.body.preparedAt, h.body.version == V2, h.body.coverage, BuiltTasks(s).value)
    requires Finalize(h, b, acceptedAt).Ok? && id in Finalize(h, b, acceptedAt).value.evidence
    ensures CitesWindow(s, id)
  {
    SnapshotParts(s, sqrt);
    BuiltEvidenceIsInSnapshot(s, h.body.runId, h.body.preparedAt, h.body.version == V2, h.body.coverage);
    AllowedEvidenceIsInWindow(h, b, acceptedAt, id);
  }

  /** Whenever a handoff that carries coverage is finalised, every event that is not waived (in
      particular every verified one) has one of its own evidence items, unchanged and in time, in the
      macro draft and in the Strategy draft, and hence in the forecast. */
  lemma EventIsCitedEndToEnd(h: Handoff, b: Bundle, acceptedAt: int, e: PolicyEvent, agent: AgentId, sqrt: real -> real)
    returns (d: AgentDraft, id: Id)
    requires HandoffValid(h, sqrt) && BundleValid(b) && Finalize(h, b, acceptedAt).Ok?
    requires h.body.coverage.Some?
    requires e in h.body.coverage.value.events && !Waived(h.body.coverage.value, e)
    requires agent == MacroPolicy || agent == Strategy
    ensures d in b.drafts && d.agent == agent && id in d.evidence && id in e.evidence
    ensures id in Finalize(h, b, acceptedAt).value.evidence
    ensures ItemBacks(e, View(h.body.snapshot), id)
  {
    EventAgents(h.body.coverage.value, e);
    FinalizedIsAdmissible(h, b, acceptedAt);
    var t := TaskOfAgent(h.body, agent);
    d, id := CitedThroughTask(h.body, b, e, t);
  }

  lemma EventAgents(c: Coverage, e: PolicyEvent)
    requires CoverageValid(c) && e in c.events
    ensures MacroPolicy in e.agents && Strategy in e.agents
  {
  }

  lemma FinalizedIsAdmissible(h: Handoff, b: Bundle, acceptedAt: int)
    requires Finalize(h, b, acceptedAt).Ok?
    ensures CoverageHolds(h.body, b) && DraftsMatch(b, h.body) && InTime(h.body, b, acceptedAt)
    ensures var f := Finalize(h, b, acceptedAt).value;
            && f.evidence == CitedEvidence(b.drafts)
            && f.targetSession == h.body.snapshot.targetSession
  {
  }

  lemma TaskOfAgent(h: HandoffBody, agent: AgentId) returns (t: Task)
    requires HandoffBodyValid(h) && agent in AGENTS
    ensures t in h.tasks && t.agent == agent
  {
    assert agent in AgentsOf(h.tasks);
    t :| t in h.tasks && t.agent == agent;
  }

  lemma CitedThroughTask(h: HandoffBody, b: Bundle, e: PolicyEvent, t: Task) returns (d: AgentDraft, id: Id)
    requires h.coverage.Some? && CoverageHolds(h, b) && DraftsMatch(b, h)
    requires e in h.coverage.value.events && !Waived(h.coverage.value, e) && t in h.tasks && t.agent in e.agents
    ensures d in b.drafts && d.agent == t.agent && id in d.evidence && id in e.evidence && ItemBacks(e, View(h.snapshot), id)
  {
    var a := Assignment(t.id, t.agent, t.allowed);
    MapMember(h.tasks, (x: Task) => Assignment(x.id, x.agent, x.allowed), a);
    id := AcceptedEventIsCited(h.coverage.value, View(h.snapshot), Assignments(h.tasks), CoverageDrafts(b.drafts), e, a);
    d := CiterOf(b.drafts, t.id, id);
    assert DraftMatches(d, t);
  }

  lemma {:induction false} CiterOf(drafts: seq<AgentDraft>, task: AssignmentId, id: Id) returns (d: AgentDraft)
    requires id in CitedBy(CoverageDrafts(drafts), task)
    ensures d in drafts && d.assignment == task && id in d.evidence
  {
    var n := |drafts| - 1;
    assert CoverageDrafts(drafts)[..n] == CoverageDrafts(drafts[..n]);
    if drafts[n].assignment == task {
      d := drafts[n];
    } else {
      d := CiterOf(drafts[..n], task, id);
    }
  }

  // ----- Evaluation -----

  datatype Observation = Observation(forecast: Forecast, forecastSession: int, targetSession: int, startOpen: real, endOpen: real,
                                     sourceObserved: int, sourceIngested: int, observed: int)

  datatype Evaluation = Evaluation(realized: real, actual: Direction, directionCorrect: bool, brier: real)

  /** 09:30 of the target session, as an instant. */
  function Maturity(f: Forecast): int {
    f.targetSession * DAY + Clock(9, 30) - ZONE
  }

  predicate ObservationValid(o: Observation) {
    && o.startOpen > 0.0 && o.endOpen > 0.0 && o.forecastSession < o.targetSession
    && o.sourceObserved <= o.sourceIngested <= o.observed
  }

  /** `evaluate_premarket_forecast`; the outcome names its forecast by hash. */
  function Evaluate(f: Forecast, o: Observation, evaluatedAt: int): Result<Evaluation>
    requires o.startOpen > 0.0
  {
    if o.forecast != f then Err("outcome does not bind the forecast")
    else if o.forecastSession != f.forecastSession || o.targetSession != f.targetSession then
      Err("outcome sessions do not match the forecast")
    else if o.sourceObserved < Maturity(f) then Err("outcome source predates the target-session open")
    else if o.observed < Maturity(f) then Err("outcome observation predates the target-session open")
    else if o.observed > evaluatedAt then Err("outcome observation follows evaluation acceptance")
    else
      var realized := o.endOpen / o.startOpen - 1.0;
      var actual := if realized > f.threshold then Up else if realized < -f.threshold then Down else Neutral;
      Ok(Evaluation(realized, actual, f.direction == actual, Brier(f.probabilities, actual)))
  }

  /** A forecast can only be evaluated after it was accepted, and what it then scores is at most the
      mixture of the Strategy's own score and two ninths. */
  lemma EvaluationIsBounded(h: Handoff, b: Bundle, acceptedAt: int, o: Observation, evaluatedAt: int, sqrt: real -> real)
    requires HandoffValid(h, sqrt) && BundleValid(b) && Finalize(h, b, acceptedAt).Ok? && ObservationValid(o)
    requires Evaluate(Finalize(h, b, acceptedAt).value, o, evaluatedAt).Ok?
    ensures acceptedAt < evaluatedAt
    ensures var f, strategy := Finalize(h, b, acceptedAt).value, DraftOf(b.drafts, Strategy);
            var d := Discount(f.severity, GapsOf(h.body) != []);
            var v := Evaluate(f, o, evaluatedAt).value;
            && strategy.Some? && strategy.value.probabilities.Some?
            && v.brier == Brier(f.probabilities, v.actual) && CostsAtMost(f.probabilities, strategy.value.probabilities.value, d)
            && (v.directionCorrect <==> strategy.value.direction == Some(v.actual))
  {
    var f := Finalize(h, b, acceptedAt).value;
    EvaluationOf(f, o, evaluatedAt);
    ForecastIsInTime(h, b, acceptedAt, sqrt);
    FinalizedIsAdmissible(h, b, acceptedAt);
    AcceptedBeforeMaturity(f, acceptedAt);
    ForecastCosts(h, b, acceptedAt);
  }

  lemma EvaluationOf(f: Forecast, o: Observation, evaluatedAt: int)
    requires o.startOpen > 0.0 && Evaluate(f, o, evaluatedAt).Ok?
    ensures var v := Evaluate(f, o, evaluatedAt).value;
            && v.brier == Brier(f.probabilities, v.actual) && (v.directionCorrect <==> f.direction == v.actual)
            && Maturity(f) <= o.observed <= evaluatedAt
  {
  }

  lemma ForecastCosts(h: Handoff, b: Bundle, acceptedAt: int)
    requires BundleValid(b) && Finalize(h, b, acceptedAt).Ok?
    ensures var f, strategy := Finalize(h, b, acceptedAt).value, DraftOf(b.drafts, Strategy);
            var d := Discount(f.severity, GapsOf(h.body) != []);
            && strategy.Some? && strategy.value.probabilities.Some? && strategy.value.direction == Some(f.direction)
            && CostsAtMost(f.probabilities, strategy.value.probabilities.value, d)
  {
    ForecastIsShrunkenStrategy(h, b, acceptedAt);
    var f := Finalize(h, b, acceptedAt).value;
    MixCostsAtMost(DraftOf(b.drafts, Strategy).value.probabilities.value, Discount(f.severity, GapsOf(h.body) != []));
  }

  lemma AcceptedBeforeMaturity(f: Forecast, acceptedAt: int)
    requires LocalDate(acceptedAt) < f.targetSession
    ensures acceptedAt < Maturity(f)
  {
    DayBounds(acceptedAt);
  }
}
