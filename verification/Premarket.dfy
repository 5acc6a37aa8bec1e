/** The premarket snapshot, the handoff validator and the handoff builder. Times are in microseconds since
    the epoch; dates are day numbers of the market's own time zone, eight hours ahead of UTC. */
module Premarket {
  import opened Common
  import opened Scoring
  import Thresholds
  import opened Coverage

  datatype Category = News | MacroEvidence | GlobalEquity | FxRates | Commodity | Industry | DomesticMarket

  datatype EvidenceItem = EvidenceItem(
    id: Id, category: Category, tier4: bool, published: int, observed: int, ingested: int, sourceHash: Id,
    marked: bool, agents: seq<AgentId>)

  datatype WikiReference = WikiReference(
    entry: Id, version: Id, section: Id, contentHash: Id, published: int, agents: seq<AgentId>)

  /** A source stamp: when the material was observed and ingested. */
  datatype Stamp = Stamp(observed: int, ingested: int)

  /** `sealedSessions` is what the calendar's source hash commits to. */
  datatype Calendar = Calendar(sessions: seq<int>, sealedSessions: seq<int>, stamp: Stamp)

  datatype HistoricalOpen = HistoricalOpen(date: int, price: real, stamp: Stamp)

  datatype Snapshot = Snapshot(
    programHash: Id, previousSession: int, forecastSession: int, targetSession: int,
    evidenceStart: int, evidenceCutoff: int, decisionTime: int, deadline: int, created: int,
    calendar: Calendar, history: seq<HistoricalOpen>, volatility: real,
    items: seq<EvidenceItem>, wiki: seq<WikiReference>, contentHash: Id)

  datatype Role = AnalystRole | StrategyRole | RiskRole

  datatype Task = Task(
    id: AssignmentId, agent: AgentId, role: Role, allowed: seq<Id>, wiki: WikiReference, dependsOn: seq<AssignmentId>)

  datatype Version = V1 | V2 | V3 | V4

  datatype HandoffBody = HandoffBody(
    version: Version, runId: Id, programHash: Id, snapshot: Snapshot, preparedAt: int, tasks: seq<Task>,
    coverage: Option<Coverage>)

  /** A content hash over a handoff, injective by construction. */
  datatype Digest = Digest(body: HandoffBody)

  datatype Handoff = Handoff(body: HandoffBody, requestHash: Digest)

  const ANALYSTS: seq<AgentId> := [MacroPolicy, MarketNews, GlobalMarket, AiStorage]
  const AGENTS: set<AgentId> := {MacroPolicy, MarketNews, GlobalMarket, AiStorage, Strategy, RiskCritic}
  const PROGRAM_HASH: Id := Id("csi1000-premarket-open-to-open")
  const DAY: int := 24 * 60 * MINUTE
  const ZONE: int := 8 * 60 * MINUTE

  function LocalDate(t: int): int {
    (t + ZONE) / DAY
  }

  function LocalTime(t: int): int {
    (t + ZONE) % DAY
  }

  function Clock(hour: int, minute: int): int {
    (hour * 60 + minute) * MINUTE
  }

  // ----- The snapshot validator -----

  predicate ItemValid(i: EvidenceItem) {
    && i.ingested >= i.observed && !i.tier4 && i.agents != [] && Unique(i.agents) == i.agents
    && forall agent :: agent in i.agents ==> agent in ANALYSTS
  }

  predicate ItemInWindow(i: EvidenceItem, s: Snapshot) {
    && s.evidenceStart <= i.published <= s.evidenceCutoff
    && i.observed <= s.evidenceCutoff && i.ingested <= s.evidenceCutoff
  }

  predicate CalendarValid(c: Calendar) {
    && |c.sessions| == 3 && Thresholds.Ascending(c.sessions) && Unique(c.sessions) == c.sessions
    && c.sealedSessions == c.sessions && c.stamp.ingested >= c.stamp.observed
  }

  predicate StampInTime(stamp: Stamp, cutoff: int) {
    stamp.observed <= cutoff && stamp.ingested <= cutoff
  }

  predicate TimesValid(s: Snapshot) {
    && LocalDate(s.evidenceStart) == s.previousSession && LocalTime(s.evidenceStart) >= Clock(15, 0)
    && LocalDate(s.evidenceCutoff) == s.forecastSession && LocalTime(s.evidenceCutoff) == Clock(9, 10)
    && LocalDate(s.decisionTime) == s.forecastSession && LocalTime(s.decisionTime) == Clock(9, 15)
    && LocalDate(s.deadline) == s.forecastSession && LocalTime(s.deadline) == Clock(9, 24)
    && s.evidenceStart < s.evidenceCutoff < s.decisionTime < s.deadline
    && s.evidenceCutoff <= s.created < s.deadline
  }

  function OpenReturns(history: seq<HistoricalOpen>): seq<real> {
    if |history| < 2 then []
    else
      var n := |history| - 1;
      OpenReturns(history[..n]) + [if history[n - 1].price == 0.0 then 0.0 else history[n].price / history[n - 1].price - 1.0]
  }

  predicate HistoryValid(s: Snapshot, sqrt: real -> real) {
    var dates := Map(s.history, (row: HistoricalOpen) => row.date);
    && |s.history| == 21 && Thresholds.Ascending(dates) && Unique(dates) == dates
    && dates[20] == s.previousSession
    && (forall row :: row in s.history ==> row.price > 0.0 && StampInTime(row.stamp, s.evidenceCutoff))
    && s.volatility >= 0.0
    && IsClose(s.volatility, Thresholds.SampleDeviation(OpenReturns(s.history), sqrt), 0.000000000001)
  }

  predicate ItemsValid(s: Snapshot) {
    && s.items != []
    && Unique(ItemIds(s.items)) == ItemIds(s.items)
    && (forall i :: i in s.items ==> ItemValid(i) && ItemInWindow(i, s))
    && (exists i :: i in s.items && i.category == News)
    && (exists i :: i in s.items && i.category == GlobalEquity)
    && (exists i :: i in s.items && i.category == FxRates)
    && (forall agent :: agent in ANALYSTS ==> exists i :: i in s.items && agent in i.agents)
  }

  predicate WikiValid(s: Snapshot) {
    && (forall agent :: agent in AGENTS ==> exists w :: w in s.wiki && agent in w.agents)
    && (forall w :: w in s.wiki ==> w.published <= s.evidenceCutoff)
  }

  predicate SnapshotValid(s: Snapshot, sqrt: real -> real) {
    && s.programHash == PROGRAM_HASH
    && s.previousSession < s.forecastSession < s.targetSession
    && CalendarValid(s.calendar) && s.calendar.sessions == [s.previousSession, s.forecastSession, s.targetSession]
    && TimesValid(s)
    && StampInTime(s.calendar.stamp, s.evidenceCutoff)
    && HistoryValid(s, sqrt) && ItemsValid(s) && WikiValid(s)
  }

  function ItemIds(items: seq<EvidenceItem>): seq<Id> {
    Map(items, (i: EvidenceItem) => i.id)
  }

  lemma ItemIdMember(items: seq<EvidenceItem>, id: Id)
    ensures id in ItemIds(items) <==> exists i :: i in items && i.id == id
  {
    MapMember(items, (i: EvidenceItem) => i.id, id);
  }

  // ----- The handoff validator -----

  function TaskIds(tasks: seq<Task>): seq<AssignmentId> {
    Map(tasks, (t: Task) => t.id)
  }

  function AgentsOf(tasks: seq<Task>): set<AgentId> {
    set t | t in tasks :: t.agent
  }

  predicate TasksValid(tasks: seq<Task>) {
    && |tasks| == 6 && Unique(TaskIds(tasks)) == TaskIds(tasks)
    && AgentsOf(tasks) == AGENTS
    && DependenciesValid(tasks)
  }

  predicate DependenciesValid(tasks: seq<Task>) {
    forall t, d :: t in tasks && d in t.dependsOn ==> d in TaskIds(tasks) && d != t.id
  }

  /** The coverage field of a version-3 handoff is typed as the strict contract and that of version 4 as
      the partial one; the models forbid extra fields, so no other contract parses, and its own validator
      runs again. */
  predicate HandoffBodyValid(h: HandoffBody) {
    && h.programHash == h.snapshot.programHash && h.programHash == PROGRAM_HASH
    && h.preparedAt >= h.snapshot.created
    && TasksValid(h.tasks)
    && (h.coverage.Some? <==> h.version == V3 || h.version == V4)
    && (h.coverage.Some? ==> CoverageValid(h.coverage.value))
    && (h.version == V3 ==> h.coverage.value.policy == Strict)
    && (h.version == V4 ==> h.coverage.value.policy == Partial)
  }

  predicate HandoffValid(h: Handoff, sqrt: real -> real) {
    HandoffBodyValid(h.body) && SnapshotValid(h.body.snapshot, sqrt) && h.requestHash == Digest(h.body)
  }

  ghost predicate Ranks(rank: AssignmentId -> nat, tasks: seq<Task>) {
    forall t, d :: t in tasks && d in t.dependsOn ==> rank(d) < rank(t.id)
  }

  /** The dependency graph has no cycle: some ranking decreases along every edge. */
  ghost predicate Acyclic(tasks: seq<Task>) {
    exists rank :: Ranks(rank, tasks)
  }

  // ----- The wiki page of an agent -----

  predicate WikiBefore(a: WikiReference, b: WikiReference) {
    if a.entry != b.entry then TextBefore(a.entry.text, b.entry.text) else TextBefore(a.section.text, b.section.text)
  }

  /** `sorted(matches, key=(entry, section))[0]`: the least key, and the earliest match among equals. */
  function Least(matches: seq<WikiReference>): (w: WikiReference)
    requires matches != []
    ensures w in matches
  {
    if |matches| == 1 then matches[0]
    else
      var best, last := Least(matches[..|matches| - 1]), matches[|matches| - 1];
      if WikiBefore(last, best) then last else best
  }

  lemma WikiOrder(a: WikiReference, b: WikiReference, c: WikiReference)
    ensures !WikiBefore(a, a)
    ensures !WikiBefore(b, a) && !WikiBefore(c, b) ==> !WikiBefore(c, a)
  {
    TextOrder(a.entry.text, b.entry.text, c.entry.text);
    TextOrder(b.entry.text, a.entry.text, c.entry.text);
    TextOrder(c.entry.text, b.entry.text, a.entry.text);
    TextOrder(c.entry.text, a.entry.text, b.entry.text);
    TextOrder(a.section.text, b.section.text, c.section.text);
    TextOrder(b.section.text, a.section.text, c.section.text);
    TextOrder(c.section.text, b.section.text, a.section.text);
    TextOrder(c.section.text, a.section.text, b.section.text);
  }

  /** The agent is given a page no other of its pages sorts before. */
  lemma {:induction false} LeastIsLeast(matches: seq<WikiReference>, w: WikiReference)
    requires w in matches
    ensures !WikiBefore(w, Least(matches))
  {
    if |matches| == 1 {
      WikiOrder(w, w, w);
    } else {
      var init, last := matches[..|matches| - 1], matches[|matches| - 1];
      assert matches == init + [last];
      WikiOrder(last, last, last);
      if w in init {
        LeastIsLeast(init, w);
        WikiOrder(last, Least(init), w);
        BeforeIsAsymmetric(last, Least(init));
      } else {
        BeforeIsAsymmetric(Least(init), last);
      }
    }
  }

  lemma BeforeIsAsymmetric(a: WikiReference, b: WikiReference)
    ensures WikiBefore(a, b) ==> !WikiBefore(b, a)
  {
    TextOrder(a.entry.text, b.entry.text, a.entry.text);
    TextOrder(a.section.text, b.section.text, a.section.text);
  }

  function Covers(agent: AgentId): WikiReference -> bool {
    (w: WikiReference) => agent in w.agents
  }

  /** `_wiki_for_agent`; `None` is the error. */
  function WikiForAgent(s: Snapshot, agent: AgentId): Option<WikiReference> {
    var matches := Filter(s.wiki, Covers(agent));
    if matches == [] then None else Some(Least(matches))
  }

  // ----- The builder -----

  function AssignedTo(agent: AgentId): EvidenceItem -> bool {
    (i: EvidenceItem) => agent in i.agents
  }

  function AnalystTask(s: Snapshot, agent: AgentId): Option<Task> {
    match WikiForAgent(s, agent)
    case None => None
    case Some(wiki) => Some(Task(ForAgent(agent), agent, AnalystRole, ItemIds(Filter(s.items, AssignedTo(agent))), wiki, []))
  }

  /** A task over all evidence, after the given ones. */
  function LaterTask(s: Snapshot, agent: AgentId, role: Role, dependsOn: seq<AssignmentId>): Option<Task> {
    match WikiForAgent(s, agent)
    case None => None
    case Some(wiki) => Some(Task(ForAgent(agent), agent, role, ItemIds(s.items), wiki, dependsOn))
  }

  function AnalystTasks(s: Snapshot, agents: seq<AgentId>): Option<seq<Task>> {
    if agents == [] then Some([])
    else
      match AnalystTasks(s, agents[..|agents| - 1])
      case None => None
      case Some(tasks) =>
        match AnalystTask(s, agents[|agents| - 1])
        case None => None
        case Some(t) => Some(tasks + [t])
  }

  function TaskIdOf(agents: seq<AgentId>): seq<AssignmentId> {
    Map(agents, (agent: AgentId) => ForAgent(agent))
  }

  function BuiltTasks(s: Snapshot): Option<seq<Task>> {
    match AnalystTasks(s, ANALYSTS)
    case None => None
    case Some(analysts) =>
      match LaterTask(s, Strategy, StrategyRole, TaskIdOf(ANALYSTS))
      case None => None
      case Some(strategy) =>
        match LaterTask(s, RiskCritic, RiskRole, [ForAgent(Strategy)])
        case None => None
        case Some(risk) => Some(analysts + [strategy, risk])
  }

  function View(s: Snapshot): SnapshotView {
    SnapshotView(s.contentHash, s.evidenceCutoff, s.evidenceStart,
                 Map(s.items, (i: EvidenceItem) => Item(i.id, i.sourceHash, i.published, i.ingested, Some(i.observed), i.marked)))
  }

  function Assignments(tasks: seq<Task>): seq<Assignment> {
    Map(tasks, (t: Task) => Assignment(t.id, t.agent, t.allowed))
  }

  function VersionFor(apiFirst: bool, coverage: Option<Coverage>): Version {
    if coverage.Some? then (if coverage.value.policy == Partial then V4 else V3) else if apiFirst then V2 else V1
  }

  function BuiltBody(s: Snapshot, runId: Id, preparedAt: int, apiFirst: bool, coverage: Option<Coverage>, tasks: seq<Task>): HandoffBody {
    HandoffBody(VersionFor(apiFirst, coverage), runId, PROGRAM_HASH, s, preparedAt, tasks, coverage)
  }

  /** The builder's loop over the analysts. */
  method BuildAnalystTasks(s: Snapshot, agents: seq<AgentId>) returns (tasks: Option<seq<Task>>, ids: seq<AssignmentId>)
    ensures tasks == AnalystTasks(s, agents)
    ensures tasks.Some? ==> ids == TaskIdOf(agents)
  {
    var built: seq<Task> := [];
    ids := [];
    for i := 0 to |agents|
      invariant AnalystTasks(s, agents[..i]) == Some(built)
      invariant ids == TaskIdOf(agents[..i])
    {
      var agent := agents[i];
      assert agents[..i + 1][..i] == agents[..i];
      var wiki := WikiForAgent(s, agent);
      if wiki.None? {
        AnalystTasksNeedEveryPage(s, agents, i);
        return None, ids;
      }
      ids := ids + [ForAgent(agent)];
      built := built + [Task(ForAgent(agent), agent, AnalystRole, ItemIds(Filter(s.items, AssignedTo(agent))), wiki.value, [])];
    }
    assert agents[..|agents|] == agents;
    tasks := Some(built);
  }

  method BuildTasks(s: Snapshot) returns (tasks: Option<seq<Task>>)
    ensures tasks == BuiltTasks(s)
  {
    var analysts, analystIds := BuildAnalystTasks(s, ANALYSTS);
    if analysts.None? {
      return None;
    }
    var strategyWiki, riskWiki := WikiForAgent(s, Strategy), WikiForAgent(s, RiskCritic);
    if strategyWiki.None? || riskWiki.None? {
      return None;
    }
    var all := ItemIds(s.items);
    var strategy := Task(ForAgent(Strategy), Strategy, StrategyRole, all, strategyWiki.value, analystIds);
    var risk := Task(ForAgent(RiskCritic), RiskCritic, RiskRole, all, riskWiki.value, [ForAgent(Strategy)]);
    tasks := Some(analysts.value + [strategy, risk]);
  }

  /** `build_premarket_handoff` */
  method BuildPremarketHandoff(s: Snapshot, runId: Id, preparedAt: int, apiFirst: bool, coverage: Option<Coverage>)
    returns (r: Result<Handoff>)
    ensures r.Ok? <==>
      && BuiltTasks(s).Some?
      && HandoffBodyValid(BuiltBody(s, runId, preparedAt, apiFirst, coverage, BuiltTasks(s).value))
      && (coverage.Some? ==> Accepts(coverage.value, View(s), Assignments(BuiltTasks(s).value), None))
    ensures r.Ok? ==> r.value.body == BuiltBody(s, runId, preparedAt, apiFirst, coverage, BuiltTasks(s).value)
    ensures r.Ok? ==> r.value.requestHash == Digest(r.value.body)
  {
    var tasks := BuildTasks(s);
    if tasks.None? {
      return Err("no Wiki reference is assigned");
    }
    var body := BuiltBody(s, runId, preparedAt, apiFirst, coverage, tasks.value);
    if !HandoffBodyValid(body) {
      return Err("the handoff validator raised");
    }
    if coverage.Some? && !Accepts(coverage.value, View(s), Assignments(tasks.value), None) {
      return Err("input_incomplete");
    }
    r := Ok(Handoff(body, Digest(body)));
  }

  lemma {:induction false} AnalystTasksNeedEveryPage(s: Snapshot, agents: seq<AgentId>, i: nat)
    requires i < |agents| && WikiForAgent(s, agents[i]).None?
    ensures AnalystTasks(s, agents).None?
  {
    if i < |agents| - 1 {
      AnalystTasksNeedEveryPage(s, agents[..|agents| - 1], i);
    }
  }
}
