/** What a premarket handoff, its coverage and a bundle of drafts have to be, spelled out, and exactly what
    the builder makes of a valid snapshot. */
module HandoffContract {
  import opened Common
  import opened Scoring
  import opened Shrinkage
  import opened Coverage
  import opened CoverageContract
  import opened Premarket
  import opened PremarketBuilder
  import PremarketFinal
  import opened SnapshotContract

  // ----- Coverage -----

  ghost predicate Distinct<T(!new)>(xs: seq<T>) {
    forall j, k :: 0 <= j < k < |xs| ==> xs[j] != xs[k]
  }

  /** An event is required of the macro and the Strategy agent, binds exactly its own evidence, and says what
      its status demands. */
  ghost predicate EventFits(e: PolicyEvent, policy: Policy) {
    && Distinct(e.evidence) && Distinct(e.agents) && MacroPolicy in e.agents && Strategy in e.agents
    && (forall id :: id in e.sourceHashes <==> id in e.evidence)
    && match e.status
       case Verified => |e.evidence| >= 1 && e.missingReason == None && e.warning == None
       case Unresolved => e.missingReason != None && e.warning == None
       case MediaReported => policy == Media && |e.evidence| >= 1 && e.missingReason != None && e.warning == Some(MEDIA_WARNING)
  }

  ghost predicate ReceiptsFit(c: Coverage) {
    && (forall r :: r in c.receipts ==> r.windowStart <= r.observedThrough <= r.capturedAt)
    && (forall j, k :: 0 <= j < k < |c.receipts| ==> c.receipts[j].group != c.receipts[k].group)
  }

  ghost predicate EventsFit(c: Coverage) {
    && (forall e :: e in c.events ==> EventFits(e, c.policy))
    && (forall j, k :: 0 <= j < k < |c.events| ==> c.events[j].id != c.events[k].id)
  }

  ghost predicate WellFormed(c: Coverage) {
    c.windowStart < c.cutoff && |c.groups| >= 1 && Distinct(c.groups) && ReceiptsFit(c) && EventsFit(c)
  }

  lemma EventFitsIff(e: PolicyEvent, policy: Policy)
    ensures EventValid(e, policy) <==> EventFits(e, policy)
  {
    UniqueIff(e.evidence);
    UniqueIff(e.agents);
    assert e.sourceHashes.Keys == ToSet(e.evidence) <==> forall id :: id in e.sourceHashes <==> id in e.evidence;
  }

  lemma ReceiptsIff(c: Coverage)
    ensures ReceiptsFit(c) <==>
            && (forall r :: r in c.receipts ==> ReceiptValid(r))
            && Unique(Map(c.receipts, (r: Receipt) => r.group)) == Map(c.receipts, (r: Receipt) => r.group)
  {
    var groups := Map(c.receipts, (r: Receipt) => r.group);
    UniqueIff(groups);
    assert forall k :: 0 <= k < |c.receipts| ==> groups[k] == c.receipts[k].group;
  }

  lemma EventsIff(c: Coverage)
    ensures EventsFit(c) <==>
            && (forall e :: e in c.events ==> EventValid(e, c.policy))
            && Unique(Map(c.events, (e: PolicyEvent) => e.id)) == Map(c.events, (e: PolicyEvent) => e.id)
  {
    var ids := Map(c.events, (e: PolicyEvent) => e.id);
    UniqueIff(ids);
    assert forall k :: 0 <= k < |c.events| ==> ids[k] == c.events[k].id;
    forall e ensures EventValid(e, c.policy) <==> EventFits(e, c.policy) {
      EventFitsIff(e, c.policy);
    }
  }

  /** The coverage contract's validator accepts exactly this. */
  lemma CoverageIff(c: Coverage)
    ensures CoverageValid(c) <==> WellFormed(c)
  {
    UniqueIff(c.groups);
    ReceiptsIff(c);
    EventsIff(c);
  }

  lemma ValidCoverageIsUnique(c: Coverage)
    requires CoverageValid(c)
    ensures NoDuplicates(Groups(c.receipts))
  {
    UniqueMembers(Map(c.receipts, (r: Receipt) => r.group));
    assert Groups(c.receipts) == Map(c.receipts, (r: Receipt) => r.group);
  }

  // ----- Tasks -----

  ghost predicate DistinctTasks(tasks: seq<Task>) {
    forall j, k :: 0 <= j < k < |tasks| ==> tasks[j].id != tasks[k].id
  }

  ghost predicate OneForEach(tasks: seq<Task>) {
    forall agent :: Known(agent) <==> exists t :: t in tasks && t.agent == agent
  }

  predicate IsTaskId(tasks: seq<Task>, id: AssignmentId) {
    exists t :: t in tasks && t.id == id
  }

  predicate NeedsOthers(tasks: seq<Task>, t: Task) {
    forall d :: d in t.dependsOn ==> d != t.id && IsTaskId(tasks, d)
  }

  predicate DependsOnOthers(tasks: seq<Task>) {
    forall t :: t in tasks ==> NeedsOthers(tasks, t)
  }

  lemma DistinctTasksIff(tasks: seq<Task>)
    ensures Unique(TaskIds(tasks)) == TaskIds(tasks) <==> DistinctTasks(tasks)
  {
    UniqueIff(TaskIds(tasks));
    assert forall k :: 0 <= k < |tasks| ==> TaskIds(tasks)[k] == tasks[k].id;
  }

  lemma OneForEachIff(tasks: seq<Task>)
    ensures AgentsOf(tasks) == AGENTS <==> OneForEach(tasks)
  {
    forall agent ensures agent in AGENTS <==> Known(agent) {
    }
    forall agent ensures agent in AgentsOf(tasks) <==> exists t :: t in tasks && t.agent == agent {
    }
  }

  lemma TaskIdIff(tasks: seq<Task>, id: AssignmentId)
    ensures id in TaskIds(tasks) <==> IsTaskId(tasks, id)
  {
    MapMember(tasks, (t: Task) => t.id, id);
  }

  lemma DependsOnOthersIff(tasks: seq<Task>)
    ensures DependenciesValid(tasks) <==> DependsOnOthers(tasks)
  {
    if DependenciesValid(tasks) {
      forall t | t in tasks ensures NeedsOthers(tasks, t) {
        forall d | d in t.dependsOn ensures d != t.id && IsTaskId(tasks, d) {
          TaskIdIff(tasks, d);
        }
      }
    }
    if DependsOnOthers(tasks) {
      forall t, d | t in tasks && d in t.dependsOn ensures d in TaskIds(tasks) && d != t.id {
        assert NeedsOthers(tasks, t);
        TaskIdIff(tasks, d);
      }
    }
  }

  lemma TasksIff(tasks: seq<Task>)
    ensures TasksValid(tasks) <==> |tasks| == 6 && DistinctTasks(tasks) && OneForEach(tasks) && DependsOnOthers(tasks)
  {
    DistinctTasksIff(tasks);
    OneForEachIff(tasks);
    DependsOnOthersIff(tasks);
  }

  // ----- The handoff -----

  /** Versions 1 and 2 carry no coverage, version 3 the strict and version 4 the partial contract. */
  ghost predicate VersionFits(version: Version, coverage: Option<Coverage>) {
    match version
    case V1 => coverage == None
    case V2 => coverage == None
    case V3 => coverage.Some? && coverage.value.policy == Strict && WellFormed(coverage.value)
    case V4 => coverage.Some? && coverage.value.policy == Partial && WellFormed(coverage.value)
  }

  ghost predicate HandoffFits(h: HandoffBody) {
    && h.programHash == PROGRAM_HASH && h.snapshot.programHash == PROGRAM_HASH && h.snapshot.created <= h.preparedAt
    && |h.tasks| == 6 && DistinctTasks(h.tasks) && OneForEach(h.tasks) && DependsOnOthers(h.tasks)
    && VersionFits(h.version, h.coverage)
  }

  /** The handoff's validator accepts exactly this. */
  lemma HandoffIff(h: HandoffBody)
    ensures HandoffBodyValid(h) <==> HandoffFits(h)
  {
    TasksIff(h.tasks);
    if h.coverage.Some? {
      CoverageIff(h.coverage.value);
    }
  }

  // ----- What the gate is shown -----

  predicate IsItemOf(i: EvidenceItem, v: Item) {
    && v.id == i.id && v.sourceHash == i.sourceHash && v.marked == i.marked
    && v.published == i.published && v.ingested == i.ingested && v.observed == Some(i.observed)
  }

  /** The gate sees the snapshot's own hash, window and items. */
  ghost predicate IsViewOf(s: Snapshot, v: SnapshotView) {
    && v.contentHash == s.contentHash && v.cutoff == s.evidenceCutoff && v.start == s.evidenceStart
    && |v.items| == |s.items| && forall k :: 0 <= k < |v.items| ==> IsItemOf(s.items[k], v.items[k])
  }

  ghost predicate AreAssignmentsOf(tasks: seq<Task>, assignments: seq<Assignment>) {
    && |assignments| == |tasks|
    && forall k :: 0 <= k < |tasks| ==>
         assignments[k].id == tasks[k].id && assignments[k].agent == tasks[k].agent && assignments[k].allowed == tasks[k].allowed
  }

  lemma ViewIs(s: Snapshot, v: SnapshotView)
    ensures View(s) == v <==> IsViewOf(s, v)
  {
    if IsViewOf(s, v) {
      assert forall k :: 0 <= k < |v.items| ==> v.items[k] == View(s).items[k];
    }
  }

  lemma AssignmentsAre(tasks: seq<Task>, assignments: seq<Assignment>)
    ensures Assignments(tasks) == assignments <==> AreAssignmentsOf(tasks, assignments)
  {
    if AreAssignmentsOf(tasks, assignments) {
      assert forall k :: 0 <= k < |tasks| ==> assignments[k] == Assignments(tasks)[k];
    }
  }

  lemma ViewIsUnique(s: Snapshot)
    requires NoDuplicates(Premarket.ItemIds(s.items))
    ensures NoDuplicates(CoverageContract.ItemIds(View(s).items))
  {
    assert CoverageContract.ItemIds(View(s).items) == Premarket.ItemIds(s.items);
  }

  // ----- The builder -----

  /** What the builder makes: the version follows from the coverage, and from the API-first mode without it. */
  ghost predicate IsBuilt(h: Handoff, s: Snapshot, runId: Id, preparedAt: int, apiFirst: bool, coverage: Option<Coverage>) {
    && h.body.runId == runId && h.body.programHash == PROGRAM_HASH && h.body.snapshot == s && h.body.preparedAt == preparedAt
    && h.body.coverage == coverage && AreTasksOf(s, h.body.tasks) && h.requestHash.body == h.body
    && match coverage
       case None => h.body.version == (if apiFirst then V2 else V1)
       case Some(c) => (c.policy == Strict ==> h.body.version == V3) && (c.policy == Partial ==> h.body.version == V4)
  }

  ghost predicate Builds(s: Snapshot, preparedAt: int, coverage: Option<Coverage>, v: SnapshotView, assignments: seq<Assignment>) {
    && s.created <= preparedAt
    && (coverage.Some? ==> coverage.value.policy != Media && WellFormed(coverage.value) && Conforms(coverage.value, v, assignments, None))
  }

  /** The builder succeeds on a valid snapshot exactly when it is not ahead of it and the coverage is a
      well-formed strict or partial one that conforms; and the handoff is the one described. */
  lemma BuildIff(s: Snapshot, runId: Id, preparedAt: int, apiFirst: bool, coverage: Option<Coverage>, v: SnapshotView,
                 assignments: seq<Assignment>, sqrt: real -> real)
    requires SnapshotValid(s, sqrt) && IsViewOf(s, v)
    requires BuiltTasks(s).Some? ==> AreAssignmentsOf(BuiltTasks(s).value, assignments)
    ensures BuiltTasks(s).Some?
    ensures HandoffBodyValid(BuiltBody(s, runId, preparedAt, apiFirst, coverage, BuiltTasks(s).value)) &&
            (coverage.Some? ==> Accepts(coverage.value, View(s), Assignments(BuiltTasks(s).value), None)) <==>
            Builds(s, preparedAt, coverage, v, assignments)
  {
    BuilderMeetsValidator(s, runId, preparedAt, apiFirst, coverage, sqrt);
    ViewIs(s, v);
    AssignmentsAre(BuiltTasks(s).value, assignments);
    if coverage.Some? {
      CoverageIff(coverage.value);
      if CoverageValid(coverage.value) {
        BuildGateIff(s, coverage.value, assignments, sqrt);
      }
    }
  }

  lemma BuildGateIff(s: Snapshot, c: Coverage, assignments: seq<Assignment>, sqrt: real -> real)
    requires SnapshotValid(s, sqrt) && CoverageValid(c)
    ensures Accepts(c, View(s), assignments, None) <==> Conforms(c, View(s), assignments, None)
  {
    ValidCoverageIsUnique(c);
    SnapshotParts(s, sqrt);
    UniqueMembers(Premarket.ItemIds(s.items));
    ViewIsUnique(s);
    AcceptsIff(c, View(s), assignments, None);
  }

  /** The body the builder seals is the one described. */
  lemma BuiltIs(s: Snapshot, runId: Id, preparedAt: int, apiFirst: bool, coverage: Option<Coverage>, sqrt: real -> real)
    requires SnapshotValid(s, sqrt) && (coverage.Some? ==> coverage.value.policy != Media)
    ensures BuiltTasks(s).Some?
    ensures var body := BuiltBody(s, runId, preparedAt, apiFirst, coverage, BuiltTasks(s).value);
            IsBuilt(Handoff(body, Digest(body)), s, runId, preparedAt, apiFirst, coverage)
  {
    BuiltTasksAre(s, sqrt);
  }
}
