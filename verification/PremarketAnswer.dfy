/** Exactly which handoffs can be answered: some bundle of drafts finalises with room for one more cited id
    if and only if roles and preparation gate fit and evidence can be picked that hits every event. */
module PremarketAnswer {
  import opened Common
  import opened Scoring
  import opened Shrinkage
  import opened Coverage
  import opened Premarket
  import opened PremarketBuilder
  import opened PremarketFinal
  import opened PremarketGap

  const CERTAIN: Probabilities := Probabilities(1.0, 0.0, 0.0)

  /** A draft certain of a rise, or a critic without objections. */
  function DraftFor(t: Task, ids: seq<Id>): AgentDraft {
    var risk := t.role == RiskRole;
    AgentDraft(t.id, t.agent, t.role, if risk then None else Some(Up), if risk then None else Some(CERTAIN),
               if risk then Some(NoRisk) else None, ids, IdentityOf(t.wiki), false)
  }

  function DraftsFor(tasks: seq<Task>, pick: Task -> seq<Id>): seq<AgentDraft> {
    Map(tasks, (t: Task) => DraftFor(t, pick(t)))
  }

  /** The bundle of these drafts, generated at the decision time. */
  function Answer(h: Handoff, pick: Task -> seq<Id>): Bundle {
    Bundle(h.body.version, h.body.runId, h.requestHash, h.body.snapshot.decisionTime, None, DraftsFor(h.body.tasks, pick))
  }

  /** What a draft of the task may list as its evidence. */
  predicate Citable(t: Task, ids: seq<Id>) {
    ids != [] && Unique(ids) == ids && |ids| <= MAX_EVIDENCE && forall id :: id in ids ==> id in t.allowed
  }

  predicate Picks(tasks: seq<Task>, pick: Task -> seq<Id>) {
    forall t :: t in tasks ==> Citable(t, pick(t))
  }

  /** The Strategy gives a direction and the critic a severity. */
  predicate RolesFit(tasks: seq<Task>) {
    forall t :: t in tasks ==> (t.agent == Strategy ==> t.role != RiskRole) && (t.agent == RiskCritic ==> t.role == RiskRole)
  }

  function AllowedIds(tasks: seq<Task>): set<Id> {
    set t, id | t in tasks && id in t.allowed :: id
  }

  // ----- The answer passes every check -----

  lemma ClearLeadWins(x: real, y: real)
    requires 0.0 <= y && y + 0.5 <= x <= 1.0
    ensures Winner(Probabilities(x, y, y)) == Some(Up)
  {
    var p := Probabilities(x, y, y);
    WinnerMargin(p, Up);
    WinnerMargin(p, Neutral);
    WinnerMargin(p, Down);
    assert Greatest(p) == x && p.Of(Up) == x && p.Of(Neutral) == y && p.Of(Down) == y;
  }

  lemma CertainWins(hasGaps: bool)
    ensures ScoringValid(CERTAIN) && Winner(CERTAIN) == Some(Up)
    ensures Publishable(CERTAIN, NoRisk, hasGaps)
  {
    ClearLeadWins(1.0, 0.0);
    MixIsValid(CERTAIN, NoRisk, hasGaps);
    var d := Discount(NoRisk, hasGaps);
    CertainMix(d);
    assert d == 0.0 || d == 0.35;
    ClearLeadWins(1.0 - d + d / 3.0, d / 3.0);
  }

  lemma CertainMix(d: real)
    ensures Mix(CERTAIN, d) == Probabilities(1.0 - d + d / 3.0, d / 3.0, d / 3.0)
  {
  }

  lemma DraftForIsValid(t: Task, ids: seq<Id>)
    requires Citable(t, ids)
    ensures DraftValid(DraftFor(t, ids)) && DraftMatches(DraftFor(t, ids), t)
  {
    if t.role != RiskRole {
      CertainWins(false);
      DirectionalIsValid(DraftFor(t, ids), t, CERTAIN, Up);
    }
  }

  lemma DirectionalIsValid(d: AgentDraft, t: Task, p: Probabilities, direction: Direction)
    requires Citable(t, d.evidence) && d.role != RiskRole && d.severity.None?
    requires d.probabilities == Some(p) && d.direction == Some(direction) && ScoringValid(p) && Winner(p) == Some(direction)
    ensures DraftValid(d)
  {
  }

  lemma DraftsForIdentities(tasks: seq<Task>, pick: Task -> seq<Id>)
    ensures DraftIds(DraftsFor(tasks, pick)) == TaskIds(tasks)
    ensures DraftAgents(DraftsFor(tasks, pick)) == AgentsOf(tasks)
  {
    var drafts := DraftsFor(tasks, pick);
    forall agent ensures agent in DraftAgents(drafts) <==> agent in AgentsOf(tasks) {
      if agent in DraftAgents(drafts) {
        var d :| d in drafts && d.agent == agent;
        var t := TaskBehind(tasks, pick, d);
      }
      if agent in AgentsOf(tasks) {
        var t :| t in tasks && t.agent == agent;
        var k :| 0 <= k < |tasks| && tasks[k] == t;
        assert drafts[k] in drafts;
      }
    }
  }

  lemma TaskBehind(tasks: seq<Task>, pick: Task -> seq<Id>, d: AgentDraft) returns (t: Task)
    requires d in DraftsFor(tasks, pick)
    ensures t in tasks && d == DraftFor(t, pick(t))
  {
    var k :| 0 <= k < |tasks| && DraftsFor(tasks, pick)[k] == d;
    t := tasks[k];
  }

  lemma AnswerIsValid(h: Handoff, pick: Task -> seq<Id>)
    requires TasksValid(h.body.tasks) && Picks(h.body.tasks, pick)
    ensures BundleValid(Answer(h, pick))
  {
    var drafts := DraftsFor(h.body.tasks, pick);
    DraftsForIdentities(h.body.tasks, pick);
    forall d | d in drafts ensures DraftValid(d) {
      var t := TaskBehind(h.body.tasks, pick, d);
      DraftForIsValid(t, pick(t));
    }
  }

  lemma AnswerMatches(h: Handoff, pick: Task -> seq<Id>)
    requires HandoffBodyValid(h.body) && Picks(h.body.tasks, pick)
    ensures DraftsMatch(Answer(h, pick), h.body)
  {
    var drafts := DraftsFor(h.body.tasks, pick);
    DraftsForIdentities(h.body.tasks, pick);
    forall d, t | d in drafts && t in h.body.tasks && d.assignment == t.id ensures DraftMatches(d, t) {
      var own := TaskBehind(h.body.tasks, pick, d);
      SameTask(h.body.tasks, own, t);
      DraftForIsValid(own, pick(own));
    }
  }

  lemma AnswerPublishes(h: Handoff, pick: Task -> seq<Id>)
    requires TasksValid(h.body.tasks) && RolesFit(h.body.tasks)
    requires |CitedEvidence(DraftsFor(h.body.tasks, pick))| <= MAX_EVIDENCE
    ensures Publishes(h, DraftsFor(h.body.tasks, pick), CERTAIN, NoRisk)
  {
    var drafts := DraftsFor(h.body.tasks, pick);
    DraftsForIdentities(h.body.tasks, pick);
    DraftOfMember(drafts, Strategy);
    DraftOfMember(drafts, RiskCritic);
    var strategy := TaskBehind(h.body.tasks, pick, DraftOf(drafts, Strategy).value);
    var critic := TaskBehind(h.body.tasks, pick, DraftOf(drafts, RiskCritic).value);
    CertainWins(GapsOf(h.body) != []);
  }

  /** The answer finalises whenever it cites fewer than a hundred ids in all and satisfies the coverage
      gate. */
  lemma AnswerSucceeds(h: Handoff, pick: Task -> seq<Id>, sqrt: real -> real)
    requires HandoffValid(h, sqrt) && RolesFit(h.body.tasks) && Picks(h.body.tasks, pick)
    requires CoverageHolds(h.body, Answer(h, pick))
    requires |CitedEvidence(DraftsFor(h.body.tasks, pick))| < MAX_EVIDENCE
    ensures Succeeds(h, Answer(h, pick), h.body.snapshot.decisionTime) && HasRoom(h)
  {
    SnapshotParts(h.body.snapshot, sqrt);
    AnswerIsValid(h, pick);
    AnswerMatches(h, pick);
    AnswerPublishes(h, pick);
    PublishedFinalizes(h, Answer(h, pick), h.body.snapshot.decisionTime, CERTAIN, NoRisk);
    SuccessHasRoom(h, Answer(h, pick), h.body.snapshot.decisionTime);
  }

  lemma SuccessHasRoom(h: Handoff, b: Bundle, at: int)
    requires Succeeds(h, b, at) && |CitedEvidence(b.drafts)| < MAX_EVIDENCE
    ensures HasRoom(h)
  {
  }

  // ----- Handoffs without coverage -----

  function FirstOf(): Task -> seq<Id> {
    (t: Task) => if t.allowed == [] then [] else [t.allowed[0]]
  }

  lemma {:induction false} FirstsAreFew(tasks: seq<Task>)
    ensures |CitedEvidence(DraftsFor(tasks, FirstOf()))| <= |tasks|
  {
    if tasks != [] {
      var n := |tasks| - 1;
      var init := DraftsFor(tasks[..n], FirstOf());
      FirstsAreFew(tasks[..n]);
      var last := DraftFor(tasks[n], FirstOf()(tasks[n]));
      assert DraftsFor(tasks, FirstOf()) == init + [last];
      CitedSnoc(init, last);
      OneMore(CitedEvidence(init), last.evidence);
    } else {
      assert CitedEvidence(DraftsFor(tasks, FirstOf())) == {};
    }
  }

  lemma CitedSnoc(drafts: seq<AgentDraft>, d: AgentDraft)
    ensures CitedEvidence(drafts + [d]) == CitedEvidence(drafts) + ToSet(d.evidence)
  {
    forall id ensures id in CitedEvidence(drafts + [d]) <==> id in CitedEvidence(drafts) || id in d.evidence {
      if x :| x in drafts && id in x.evidence {
        assert x in drafts + [d];
      }
      assert d in drafts + [d];
    }
  }

  lemma OneMore(ids: set<Id>, more: seq<Id>)
    requires |more| <= 1
    ensures |ids + ToSet(more)| <= |ids| + 1
  {
    if |more| == 1 {
      assert ToSet(more) == {more[0]};
    } else {
      assert ToSet(more) == {};
    }
  }

  /** Every valid handoff without coverage in which all tasks have evidence and fitting roles has room. */
  lemma UncoveredHasRoom(h: Handoff, sqrt: real -> real)
    requires HandoffValid(h, sqrt) && h.body.coverage.None? && RolesFit(h.body.tasks)
    requires forall t :: t in h.body.tasks ==> t.allowed != []
    ensures HasRoom(h) && Succeeds(h, Answer(h, FirstOf()), h.body.snapshot.decisionTime)
  {
    FirstsAreFew(h.body.tasks);
    forall t | t in h.body.tasks ensures Citable(t, FirstOf()(t)) {
      UniqueSnoc([], t.allowed[0]);
    }
    AnswerSucceeds(h, FirstOf(), sqrt);
  }

  // ----- What the coverage gate asks of the picked evidence -----

  function CoverageFor(tasks: seq<Task>, pick: Task -> seq<Id>): seq<Draft> {
    CoverageDrafts(DraftsFor(tasks, pick))
  }

  lemma CoverageForLast(tasks: seq<Task>, pick: Task -> seq<Id>)
    requires tasks != []
    ensures var n := |tasks| - 1; CoverageFor(tasks, pick) == CoverageFor(tasks[..n], pick) + [Draft(tasks[n].id, pick(tasks[n]), false)]
  {
  }

  lemma CitedByLast(drafts: seq<Draft>, d: Draft, id: AssignmentId)
    ensures CitedBy(drafts + [d], id) == if d.assignment == id then ToSet(d.evidence) else CitedBy(drafts, id)
  {
    assert (drafts + [d])[..|drafts|] == drafts;
  }

  lemma {:induction false} CitedByTask(tasks: seq<Task>, pick: Task -> seq<Id>, k: nat)
    requires Unique(TaskIds(tasks)) == TaskIds(tasks) && k < |tasks|
    ensures CitedBy(CoverageFor(tasks, pick), tasks[k].id) == ToSet(pick(tasks[k]))
  {
    var n := |tasks| - 1;
    CoverageForLast(tasks, pick);
    CitedByLast(CoverageFor(tasks[..n], pick), Draft(tasks[n].id, pick(tasks[n]), false), tasks[k].id);
    if k < n {
      IdsDiffer(tasks, k, n);
      IdsOfInit(tasks);
      CitedByTask(tasks[..n], pick, k);
    }
  }

  lemma IdsDiffer(tasks: seq<Task>, i: nat, j: nat)
    requires Unique(TaskIds(tasks)) == TaskIds(tasks) && i < j < |tasks|
    ensures tasks[i].id != tasks[j].id
  {
    UniqueMembers(TaskIds(tasks));
    DistinctAt(TaskIds(tasks), i, j);
  }

  lemma IdsOfInit(tasks: seq<Task>)
    requires tasks != [] && Unique(TaskIds(tasks)) == TaskIds(tasks)
    ensures Unique(TaskIds(tasks[..|tasks| - 1])) == TaskIds(tasks[..|tasks| - 1])
  {
    var n := |tasks| - 1;
    assert TaskIds(tasks) == TaskIds(tasks[..n]) + [tasks[n].id];
    UniqueSnoc(TaskIds(tasks[..n]), tasks[n].id);
    UniqueShorter(TaskIds(tasks[..n]));
  }

  lemma {:induction false} UniqueShorter<T>(xs: seq<T>)
    ensures |Unique(xs)| <= |xs|
  {
    if xs != [] {
      UniqueShorter(xs[..|xs| - 1]);
    }
  }

  /** Some of the ids are evidence of the event that the task may use. */
  predicate Hit(e: PolicyEvent, t: Task, ids: seq<Id>) {
    ToSet(e.evidence) * ToSet(t.allowed) * ToSet(ids) != {}
  }

  /** Every event that is not waived is hit by every task of an agent it requires. */
  ghost predicate Hits(c: Coverage, tasks: seq<Task>, pick: Task -> seq<Id>) {
    forall e, t :: e in c.events && !Waived(c, e) && t in tasks && t.agent in e.agents ==> Hit(e, t, pick(t))
  }

  function AssignmentOf(t: Task): Assignment {
    Assignment(t.id, t.agent, t.allowed)
  }

  lemma AssignmentMember(tasks: seq<Task>, a: Assignment)
    ensures a in Assignments(tasks) <==> exists t :: t in tasks && AssignmentOf(t) == a
  {
    if a in Assignments(tasks) {
      var k :| 0 <= k < |tasks| && Assignments(tasks)[k] == a;
      assert tasks[k] in tasks && AssignmentOf(tasks[k]) == a;
    }
    if t :| t in tasks && AssignmentOf(t) == a {
      var k :| 0 <= k < |tasks| && tasks[k] == t;
      assert Assignments(tasks)[k] == a;
    }
  }

  lemma PermittedOf(e: PolicyEvent, t: Task, tasks: seq<Task>, pick: Task -> seq<Id>)
    requires Unique(TaskIds(tasks)) == TaskIds(tasks) && t in tasks
    ensures Permitted(e, AssignmentOf(t)) * CitedBy(CoverageFor(tasks, pick), t.id) != {} <==> Hit(e, t, pick(t))
  {
    var k :| 0 <= k < |tasks| && tasks[k] == t;
    CitedByTask(tasks, pick, k);
  }

  lemma HitsAllIff(c: Coverage, tasks: seq<Task>, pick: Task -> seq<Id>)
    requires Unique(TaskIds(tasks)) == TaskIds(tasks)
    ensures AllHit(c, Assignments(tasks), CoverageFor(tasks, pick)) <==> Hits(c, tasks, pick)
  {
    forall e, t | t in tasks
      ensures Permitted(e, AssignmentOf(t)) * CitedBy(CoverageFor(tasks, pick), t.id) != {} <==> Hit(e, t, pick(t))
      ensures AssignmentOf(t) in Assignments(tasks)
    {
      PermittedOf(e, t, tasks, pick);
      AssignmentMember(tasks, AssignmentOf(t));
    }
    if Hits(c, tasks, pick) {
      forall e, a | e in c.events && !Waived(c, e) && a in Assignments(tasks) && a.agent in e.agents
        ensures Permitted(e, a) * CitedBy(CoverageFor(tasks, pick), a.id) != {}
      {
        AssignmentMember(tasks, a);
        var t :| t in tasks && AssignmentOf(t) == a;
        assert Hit(e, t, pick(t));
      }
    } else {
      var e, t :| e in c.events && !Waived(c, e) && t in tasks && t.agent in e.agents && !Hit(e, t, pick(t));
      assert AssignmentOf(t).agent == t.agent && AssignmentOf(t).id == t.id;
    }
  }

  predicate BuildGate(h: HandoffBody) {
    h.coverage.Some? ==> Accepts(h.coverage.value, View(h.snapshot), Assignments(h.tasks), None)
  }

  lemma AnswerCoverageIff(h: Handoff, pick: Task -> seq<Id>)
    requires HandoffBodyValid(h.body)
    ensures CoverageHolds(h.body, Answer(h, pick)) <==>
            BuildGate(h.body) && (h.body.coverage.Some? ==> Hits(h.body.coverage.value, h.body.tasks, pick))
  {
    if h.body.coverage.Some? {
      var c := h.body.coverage.value;
      DraftGateIff(c, View(h.body.snapshot), Assignments(h.body.tasks), CoverageFor(h.body.tasks, pick));
      HitsAllIff(c, h.body.tasks, pick);
    }
  }

  // ----- Exactly which handoffs can be answered -----

  /** Evidence can be picked for the tasks that hits every event, within the citation limit. */
  ghost predicate Suits(h: HandoffBody, pick: Task -> seq<Id>) {
    && Picks(h.tasks, pick) && |CitedEvidence(DraftsFor(h.tasks, pick))| < MAX_EVIDENCE
    && (h.coverage.Some? ==> Hits(h.coverage.value, h.tasks, pick))
  }

  ghost predicate CanCite(h: HandoffBody) {
    exists pick :: Suits(h, pick)
  }

  /** The evidence a list of drafts gives for a task. */
  function EvidenceFor(drafts: seq<AgentDraft>, id: AssignmentId): seq<Id> {
    if drafts == [] then []
    else if drafts[|drafts| - 1].assignment == id then drafts[|drafts| - 1].evidence
    else EvidenceFor(drafts[..|drafts| - 1], id)
  }

  function PickFrom(drafts: seq<AgentDraft>): Task -> seq<Id> {
    (t: Task) => EvidenceFor(drafts, t.id)
  }

  lemma {:induction false} EvidenceIsOfDraft(drafts: seq<AgentDraft>, id: AssignmentId) returns (d: AgentDraft)
    requires id in DraftIds(drafts)
    ensures d in drafts && d.assignment == id && d.evidence == EvidenceFor(drafts, id)
  {
    var n := |drafts| - 1;
    if drafts[n].assignment == id {
      d := drafts[n];
    } else {
      assert DraftIds(drafts) == DraftIds(drafts[..n]) + [drafts[n].assignment];
      d := EvidenceIsOfDraft(drafts[..n], id);
    }
  }

  lemma {:induction false} EvidenceIsCited(drafts: seq<AgentDraft>, id: AssignmentId)
    ensures CitedBy(CoverageDrafts(drafts), id) == ToSet(EvidenceFor(drafts, id))
  {
    if drafts != [] {
      var n := |drafts| - 1;
      assert CoverageDrafts(drafts)[..n] == CoverageDrafts(drafts[..n]);
      EvidenceIsCited(drafts[..n], id);
    } else {
      assert ToSet<Id>([]) == {};
    }
  }

  lemma PicksFromBundle(h: HandoffBody, b: Bundle)
    requires BundleValid(b) && DraftsMatch(b, h)
    ensures Picks(h.tasks, PickFrom(b.drafts))
    ensures CitedEvidence(DraftsFor(h.tasks, PickFrom(b.drafts))) <= CitedEvidence(b.drafts)
  {
    forall t | t in h.tasks
      ensures Citable(t, PickFrom(b.drafts)(t))
      ensures ToSet(PickFrom(b.drafts)(t)) <= CitedEvidence(b.drafts)
    {
      TaskHasDraft(h, b, t);
      var d := EvidenceIsOfDraft(b.drafts, t.id);
      assert DraftMatches(d, t) && DraftValid(d);
    }
    forall id | id in CitedEvidence(DraftsFor(h.tasks, PickFrom(b.drafts))) ensures id in CitedEvidence(b.drafts) {
      var d :| d in DraftsFor(h.tasks, PickFrom(b.drafts)) && id in d.evidence;
      var t := TaskBehind(h.tasks, PickFrom(b.drafts), d);
      assert id in ToSet(PickFrom(b.drafts)(t));
    }
  }

  lemma BundleHits(h: HandoffBody, b: Bundle)
    requires HandoffBodyValid(h) && CoverageHolds(h, b)
    ensures BuildGate(h) && (h.coverage.Some? ==> Hits(h.coverage.value, h.tasks, PickFrom(b.drafts)))
  {
    if h.coverage.Some? {
      var c := h.coverage.value;
      DraftGateIff(c, View(h.snapshot), Assignments(h.tasks), CoverageDrafts(b.drafts));
      forall e, t | e in c.events && !Waived(c, e) && t in h.tasks && t.agent in e.agents ensures Hit(e, t, PickFrom(b.drafts)(t)) {
        AssignmentMember(h.tasks, AssignmentOf(t));
        assert Permitted(e, AssignmentOf(t)) * CitedBy(CoverageDrafts(b.drafts), t.id) != {};
        EvidenceIsCited(b.drafts, t.id);
      }
    }
  }

  lemma {:induction false} FullSizeIsDistinct<T>(xs: seq<T>)
    requires |ToSet(xs)| == |xs|
    ensures NoDuplicates(xs)
  {
    if xs != [] {
      var init, last := xs[..|xs| - 1], xs[|xs| - 1];
      assert xs == init + [last];
      SetOfSnoc(init, last);
      SetIsSmaller(init);
      FullSizeIsDistinct(init);
      DistinctSnoc(init, last);
    }
  }

  lemma {:induction false} SetIsSmaller<T>(xs: seq<T>)
    ensures |ToSet(xs)| <= |xs|
  {
    UniqueMembers(xs);
    DistinctSize(Unique(xs));
    UniqueShorter(xs);
  }

  function AgentList(tasks: seq<Task>): seq<AgentId> {
    Map(tasks, (t: Task) => t.agent)
  }

  lemma AgentListMembers(tasks: seq<Task>)
    ensures ToSet(AgentList(tasks)) == AgentsOf(tasks)
  {
    forall agent ensures agent in ToSet(AgentList(tasks)) <==> agent in AgentsOf(tasks) {
      MapMember(tasks, (t: Task) => t.agent, agent);
    }
  }

  lemma SixAgents()
    ensures |AGENTS| == 6
  {
  }

  /** Six tasks for six agents: one each. */
  lemma OneTaskPerAgent(tasks: seq<Task>, t: Task, u: Task)
    requires TasksValid(tasks) && t in tasks && u in tasks && t.agent == u.agent
    ensures t == u
  {
    AgentListMembers(tasks);
    SixAgents();
    FullSizeIsDistinct(AgentList(tasks));
    SameAgentSameTask(tasks, t, u);
  }

  lemma SameAgentSameTask(tasks: seq<Task>, t: Task, u: Task)
    requires NoDuplicates(AgentList(tasks)) && t in tasks && u in tasks && t.agent == u.agent
    ensures t == u
  {
    var i :| 0 <= i < |tasks| && tasks[i] == t;
    var j :| 0 <= j < |tasks| && tasks[j] == u;
    DistinctAt(AgentList(tasks), i, j);
  }

  lemma DraftRole(h: HandoffBody, b: Bundle, d: AgentDraft, t: Task)
    requires TasksValid(h.tasks) && DraftsMatch(b, h) && d in b.drafts && t in h.tasks && t.agent == d.agent
    ensures d.role == t.role
  {
    var own := MatchedTask(h, b, d);
    OneTaskPerAgent(h.tasks, own, t);
  }

  lemma FinalizedRolesFit(h: Handoff, b: Bundle, at: int)
    requires HandoffBodyValid(h.body) && Succeeds(h, b, at)
    ensures RolesFit(h.body.tasks)
  {
    FinalizedAgents(h, b, at);
    DraftOfMember(b.drafts, Strategy);
    DraftOfMember(b.drafts, RiskCritic);
    var strategy, critic := DraftOf(b.drafts, Strategy).value, DraftOf(b.drafts, RiskCritic).value;
    forall t | t in h.body.tasks ensures (t.agent == Strategy ==> t.role != RiskRole) && (t.agent == RiskCritic ==> t.role == RiskRole) {
      if t.agent == Strategy {
        DraftRole(h.body, b, strategy, t);
      } else if t.agent == RiskCritic {
        DraftRole(h.body, b, critic, t);
      }
    }
  }

  /** Exactly: some bundle finalises with room if and only if the Strategy and the critic have their roles,
      the coverage gate accepts at preparation, and evidence can be picked for the tasks, within the
      citation limit, that hits every event that is not waived in every task of an agent it requires. */
  lemma HasRoomIff(h: Handoff, sqrt: real -> real)
    requires HandoffValid(h, sqrt)
    ensures HasRoom(h) <==> RolesFit(h.body.tasks) && BuildGate(h.body) && CanCite(h.body)
  {
    if HasRoom(h) {
      var b, at :| Succeeds(h, b, at) && |CitedEvidence(b.drafts)| < MAX_EVIDENCE;
      RoomCanCite(h, b, at);
    }
    if RolesFit(h.body.tasks) && BuildGate(h.body) && CanCite(h.body) {
      var pick :| Suits(h.body, pick);
      AnswerCoverageIff(h, pick);
      AnswerSucceeds(h, pick, sqrt);
    }
  }

  lemma RoomCanCite(h: Handoff, b: Bundle, at: int)
    requires HandoffBodyValid(h.body) && Succeeds(h, b, at) && |CitedEvidence(b.drafts)| < MAX_EVIDENCE
    ensures RolesFit(h.body.tasks) && BuildGate(h.body) && CanCite(h.body)
  {
    FinalizedAgents(h, b, at);
    FinalizedRolesFit(h, b, at);
    PicksFromBundle(h.body, b);
    BundleHits(h.body, b);
    SubsetSize(CitedEvidence(DraftsFor(h.body.tasks, PickFrom(b.drafts))), CitedEvidence(b.drafts));
    assert Suits(h.body, PickFrom(b.drafts));
  }

  // ----- Handoffs that allow few ids -----

  function AllOf(): Task -> seq<Id> {
    (t: Task) => Unique(t.allowed)
  }

  lemma UniqueIsUnique<T>(xs: seq<T>)
    ensures Unique(Unique(xs)) == Unique(xs)
  {
    UniqueMembers(xs);
    forall i, j | 0 <= i < j < |Unique(xs)| ensures Unique(xs)[i] != Unique(xs)[j] {
      DistinctAt(Unique(xs), i, j);
    }
    UniqueOfDistinct(Unique(xs));
  }

  lemma AllIsCitable(tasks: seq<Task>, t: Task)
    requires t in tasks && t.allowed != [] && |AllowedIds(tasks)| < MAX_EVIDENCE
    ensures Citable(t, AllOf()(t))
  {
    UniqueIsUnique(t.allowed);
    UniqueMembers(t.allowed);
    DistinctSize(Unique(t.allowed));
    SubsetSize(ToSet(t.allowed), AllowedIds(tasks));
    InUnique(t.allowed, t.allowed[0]);
    forall id | id in Unique(t.allowed) ensures id in t.allowed {
      InUnique(t.allowed, id);
    }
  }

  lemma AllCitesAllowed(tasks: seq<Task>)
    ensures CitedEvidence(DraftsFor(tasks, AllOf())) <= AllowedIds(tasks)
  {
    forall id | id in CitedEvidence(DraftsFor(tasks, AllOf())) ensures id in AllowedIds(tasks) {
      var d :| d in DraftsFor(tasks, AllOf()) && id in d.evidence;
      var t := TaskBehind(tasks, AllOf(), d);
      InUnique(t.allowed, id);
    }
  }

  lemma AllHits(h: HandoffBody)
    requires h.coverage.Some? && BuildGate(h)
    ensures Hits(h.coverage.value, h.tasks, AllOf())
  {
    var c := h.coverage.value;
    forall e, t | e in c.events && !Waived(c, e) && t in h.tasks && t.agent in e.agents ensures Hit(e, t, AllOf()(t)) {
      AssignmentMember(h.tasks, AssignmentOf(t));
      GateLeavesEvidence(c, View(h.snapshot), Assignments(h.tasks), e, AssignmentOf(t));
      UniqueMembers(t.allowed);
      assert ToSet(e.evidence) * ToSet(t.allowed) * ToSet(AllOf()(t)) == Permitted(e, AssignmentOf(t));
    }
  }

  lemma GateLeavesEvidence(c: Coverage, s: SnapshotView, assignments: seq<Assignment>, e: PolicyEvent, a: Assignment)
    requires Accepts(c, s, assignments, None) && e in c.events && !Waived(c, e) && a in assignments && a.agent in e.agents
    ensures Permitted(e, a) != {}
  {
    assert EventAccepted(c, e, s, assignments, None);
    assert AgentCovers(c, e, a.agent, assignments, None);
    assert AssignmentCovers(c, e, a, None);
  }

  /** Where every task has evidence and fewer than a hundred ids are allowed in all, citing everything
      suits. */
  lemma FewIdsSuit(h: HandoffBody)
    requires BuildGate(h) && (forall t :: t in h.tasks ==> t.allowed != []) && |AllowedIds(h.tasks)| < MAX_EVIDENCE
    ensures Suits(h, AllOf()) && CanCite(h)
  {
    AllCitesAllowed(h.tasks);
    SubsetSize(CitedEvidence(DraftsFor(h.tasks, AllOf())), AllowedIds(h.tasks));
    forall t | t in h.tasks ensures Citable(t, AllOf()(t)) {
      AllIsCitable(h.tasks, t);
    }
    if h.coverage.Some? {
      AllHits(h);
    }
    assert Suits(h, AllOf());
  }

  // ----- Built handoffs -----

  lemma BuiltTasksFit(s: Snapshot)
    requires ItemsValid(s) && WikiValid(s)
    ensures BuiltTasks(s).Some? && RolesFit(BuiltTasks(s).value)
    ensures forall t :: t in BuiltTasks(s).value ==> t.allowed != []
  {
    BuiltCount(s);
    forall t | t in BuiltTasks(s).value ensures t.allowed != [] && (t.role == RiskRole <==> t.agent == RiskCritic) {
      var k :| 0 <= k < 6 && BuiltTasks(s).value[k] == t;
      BuiltTaskIsAnswerable(s, k);
    }
  }

  lemma AllowedAreItems(h: HandoffBody)
    requires AllowedInSnapshot(h)
    ensures |AllowedIds(h.tasks)| <= |h.snapshot.items|
  {
    var ids := ItemIds(h.snapshot.items);
    assert AllowedIds(h.tasks) <= ToSet(ids);
    SubsetSize(AllowedIds(h.tasks), ToSet(ids));
    SetIsSmaller(ids);
  }

  /** Whatever the builder returns on a valid snapshot can be answered with room exactly when its events can
      be hit within the citation limit: always without coverage, and always if the snapshot has fewer than
      a hundred items. */
  lemma BuiltHandoffIsAnswerableIff(h: Handoff, sqrt: real -> real)
    requires HandoffValid(h, sqrt) && BuiltTasks(h.body.snapshot) == Some(h.body.tasks) && BuildGate(h.body)
    ensures HasRoom(h) <==> CanCite(h.body)
    ensures h.body.coverage.None? || |h.body.snapshot.items| < MAX_EVIDENCE ==> HasRoom(h)
  {
    var s := h.body.snapshot;
    SnapshotParts(s, sqrt);
    BuiltTasksFit(s);
    HasRoomIff(h, sqrt);
    if h.body.coverage.None? {
      UncoveredHasRoom(h, sqrt);
    } else if |s.items| < MAX_EVIDENCE {
      BuiltEvidenceIsInSnapshot(s, h.body.runId, h.body.preparedAt, false, h.body.coverage);
      AllowedAreItems(h.body);
      FewIdsSuit(h.body);
    }
  }

  /** From every valid snapshot there is a way to a forecast: the builder's handoff passes its validator
      and some drafts finalise against it. */
  lemma EveryValidSnapshotCanBeForecast(s: Snapshot, runId: Id, sqrt: real -> real) returns (h: Handoff, b: Bundle)
    requires SnapshotValid(s, sqrt)
    ensures HandoffValid(h, sqrt) && h.body.snapshot == s && BuiltTasks(s) == Some(h.body.tasks)
    ensures Succeeds(h, b, s.decisionTime)
  {
    SnapshotParts(s, sqrt);
    BuilderMeetsValidator(s, runId, s.created, false, None, sqrt);
    var body := BuiltBody(s, runId, s.created, false, None, BuiltTasks(s).value);
    h := Handoff(body, Digest(body));
    BuiltTasksFit(s);
    UncoveredHasRoom(h, sqrt);
    b := Answer(h, FirstOf());
  }
}
