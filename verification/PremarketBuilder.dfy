/** The builder and the validators agree: a valid snapshot always yields a valid, acyclic handoff whose
    tasks may only use evidence from inside the window. */
module PremarketBuilder {
  import opened Common
  import opened Coverage
  import opened Premarket

  // ----- The four analysts -----

  lemma WikiExists(s: Snapshot, agent: AgentId)
    requires WikiValid(s) && agent in AGENTS
    ensures WikiForAgent(s, agent).Some? && WikiForAgent(s, agent).value in s.wiki
  {
    var w :| w in s.wiki && agent in w.agents;
    FilterMembers(s.wiki, Covers(agent));
    assert w in Filter(s.wiki, Covers(agent));
  }

  lemma {:induction false} AnalystTasksExist(s: Snapshot, agents: seq<AgentId>)
    requires WikiValid(s) && forall agent :: agent in agents ==> agent in AGENTS
    ensures AnalystTasks(s, agents).Some?
    ensures var tasks := AnalystTasks(s, agents).value;
            |tasks| == |agents| && forall k :: 0 <= k < |agents| ==> Some(tasks[k]) == AnalystTask(s, agents[k])
  {
    if agents != [] {
      AnalystTasksExist(s, agents[..|agents| - 1]);
      WikiExists(s, agents[|agents| - 1]);
    }
  }

  /** The six built tasks, one by one. */
  lemma BuiltTasksExist(s: Snapshot)
    requires WikiValid(s)
    ensures BuiltTasks(s).Some?
    ensures var tasks := BuiltTasks(s).value;
            && |tasks| == 6
            && (forall k :: 0 <= k < 4 ==> Some(tasks[k]) == AnalystTask(s, ANALYSTS[k]))
            && Some(tasks[4]) == LaterTask(s, Strategy, StrategyRole, TaskIdOf(ANALYSTS))
            && Some(tasks[5]) == LaterTask(s, RiskCritic, RiskRole, [ForAgent(Strategy)])
  {
    AnalystTasksExist(s, ANALYSTS);
    WikiExists(s, Strategy);
    WikiExists(s, RiskCritic);
  }

  const ORDER: seq<AgentId> := [MacroPolicy, MarketNews, GlobalMarket, AiStorage, Strategy, RiskCritic]

  lemma BuiltTaskShape(s: Snapshot, k: nat)
    requires WikiValid(s) && k < 6
    ensures BuiltTasks(s).Some? && |BuiltTasks(s).value| == 6
    ensures var t := BuiltTasks(s).value[k];
            t.id == ForAgent(ORDER[k]) && t.agent == ORDER[k] &&
            t.dependsOn == if k < 4 then [] else if k == 4 then TaskIdOf(ANALYSTS) else [ForAgent(Strategy)]
  {
    BuiltTasksExist(s);
  }

  lemma BuiltIds(s: Snapshot)
    requires WikiValid(s)
    ensures BuiltTasks(s).Some? && TaskIds(BuiltTasks(s).value) == TaskIdOf(ORDER)
  {
    BuiltTasksExist(s);
    var tasks := BuiltTasks(s).value;
    forall k | 0 <= k < 6 ensures TaskIds(tasks)[k] == TaskIdOf(ORDER)[k] {
      BuiltTaskShape(s, k);
    }
  }

  lemma OrderIsDistinct(i: nat, j: nat)
    requires i < j < 6
    ensures ORDER[i] != ORDER[j]
  {
  }

  lemma OrderIsAgents(agent: AgentId)
    ensures agent in ORDER <==> agent in AGENTS
  {
  }

  // ----- Dependencies -----

  function Rank(id: AssignmentId): nat {
    if id == ForAgent(RiskCritic) then 2 else if id == ForAgent(Strategy) then 1 else 0
  }

  lemma AnalystIdsRankFirst(d: AssignmentId)
    requires d in TaskIdOf(ANALYSTS)
    ensures Rank(d) == 0 && d in TaskIdOf(ORDER)
  {
    var i :| 0 <= i < |ANALYSTS| && TaskIdOf(ANALYSTS)[i] == d;
    assert TaskIdOf(ORDER)[i] == d == ForAgent(ANALYSTS[i]);
    assert ANALYSTS[i] != RiskCritic && ANALYSTS[i] != Strategy;
  }

  lemma BuiltDependencies(s: Snapshot, t: Task, d: AssignmentId)
    requires WikiValid(s) && BuiltTasks(s).Some? && t in BuiltTasks(s).value && d in t.dependsOn
    ensures Rank(d) < Rank(t.id) && d in TaskIdOf(ORDER)
  {
    BuiltTasksExist(s);
    var k :| 0 <= k < 6 && BuiltTasks(s).value[k] == t;
    BuiltTaskShape(s, k);
    if k == 4 {
      AnalystIdsRankFirst(d);
    } else if k == 5 {
      assert TaskIdOf(ORDER)[4] == d;
    }
  }

  lemma BuiltAgents(s: Snapshot)
    requires WikiValid(s) && BuiltTasks(s).Some?
    ensures AgentsOf(BuiltTasks(s).value) == AGENTS
  {
    BuiltTasksExist(s);
    var tasks := BuiltTasks(s).value;
    var agents := AgentsOf(tasks);
    forall agent ensures agent in agents <==> agent in AGENTS {
      OrderIsAgents(agent);
      if agent in agents {
        var t :| t in tasks && t.agent == agent;
        var k :| 0 <= k < 6 && tasks[k] == t;
        BuiltTaskShape(s, k);
      }
      if agent in ORDER {
        var k :| 0 <= k < 6 && ORDER[k] == agent;
        BuiltTaskShape(s, k);
        assert tasks[k] in tasks;
      }
    }
  }

  /** A coverage that the contract chosen for it accepts: the builder's parameter type also admits media
      coverage, for which there is no contract. */
  predicate CoverageFits(coverage: Option<Coverage>) {
    coverage.Some? ==> coverage.value.policy != Media && CoverageValid(coverage.value)
  }

  /** On a valid snapshot the builder always has its six tasks without a cycle, and the handoff it makes of
      them passes the validator exactly when it does not precede the snapshot and its coverage is valid and
      not media coverage. */
  lemma BuilderMeetsValidator(s: Snapshot, runId: Id, preparedAt: int, apiFirst: bool, coverage: Option<Coverage>, sqrt: real -> real)
    requires SnapshotValid(s, sqrt)
    ensures BuiltTasks(s).Some?
    ensures HandoffBodyValid(BuiltBody(s, runId, preparedAt, apiFirst, coverage, BuiltTasks(s).value)) <==>
            preparedAt >= s.created && CoverageFits(coverage)
    ensures Acyclic(BuiltTasks(s).value)
  {
    SnapshotParts(s, sqrt);
    BuiltIsAcyclic(s);
    BuiltBodyValid(s, runId, preparedAt, apiFirst, coverage);
  }

  lemma SnapshotParts(s: Snapshot, sqrt: real -> real)
    requires SnapshotValid(s, sqrt)
    ensures s.programHash == PROGRAM_HASH && WikiValid(s) && ItemsValid(s) && TimesValid(s)
  {
  }

  lemma BuiltIsAcyclic(s: Snapshot)
    requires WikiValid(s)
    ensures BuiltTasks(s).Some? && Acyclic(BuiltTasks(s).value)
  {
    BuiltTasksExist(s);
    var tasks := BuiltTasks(s).value;
    forall t, d | t in tasks && d in t.dependsOn ensures Rank(d) < Rank(t.id) {
      BuiltDependencies(s, t, d);
    }
    assert Ranks(Rank, tasks);
  }

  lemma OrderIdsAreUnique()
    ensures Unique(TaskIdOf(ORDER)) == TaskIdOf(ORDER)
  {
    forall i, j | 0 <= i < j < 6 ensures TaskIdOf(ORDER)[i] != TaskIdOf(ORDER)[j] {
      OrderIsDistinct(i, j);
    }
    UniqueOfDistinct(TaskIdOf(ORDER));
  }

  lemma BuiltTasksValid(s: Snapshot)
    requires WikiValid(s)
    ensures BuiltTasks(s).Some? && TasksValid(BuiltTasks(s).value)
  {
    BuiltCount(s);
    BuiltIds(s);
    BuiltAgents(s);
    OrderIdsAreUnique();
    forall t, d | t in BuiltTasks(s).value && d in t.dependsOn ensures d in TaskIdOf(ORDER) && d != t.id {
      BuiltDependencies(s, t, d);
    }
  }

  lemma BuiltBodyValid(s: Snapshot, runId: Id, preparedAt: int, apiFirst: bool, coverage: Option<Coverage>)
    requires WikiValid(s) && s.programHash == PROGRAM_HASH
    ensures BuiltTasks(s).Some?
    ensures HandoffBodyValid(BuiltBody(s, runId, preparedAt, apiFirst, coverage, BuiltTasks(s).value)) <==>
            preparedAt >= s.created && CoverageFits(coverage)
  {
    BuiltTasksValid(s);
  }

  /** The failing input: with any media coverage the builder raises on every valid snapshot, even when the
      coverage gate itself accepts. */
  lemma MediaCoverageNeverBuilds(s: Snapshot, runId: Id, preparedAt: int, apiFirst: bool, coverage: Coverage, sqrt: real -> real)
    requires SnapshotValid(s, sqrt) && coverage.policy == Media
    ensures BuiltTasks(s).Some? && !HandoffBodyValid(BuiltBody(s, runId, preparedAt, apiFirst, Some(coverage), BuiltTasks(s).value))
  {
    BuilderMeetsValidator(s, runId, preparedAt, apiFirst, Some(coverage), sqrt);
  }

  /** What it is about the media contract: the same content under the strict contract builds exactly when
      no event of it is media-reported. */
  lemma StrictCopyBuildsIff(s: Snapshot, runId: Id, apiFirst: bool, coverage: Coverage, sqrt: real -> real)
    requires SnapshotValid(s, sqrt) && coverage.policy == Media && CoverageValid(coverage)
    ensures var strict := coverage.(policy := Strict);
            BuiltTasks(s).Some? &&
            (HandoffBodyValid(BuiltBody(s, runId, s.created, apiFirst, Some(strict), BuiltTasks(s).value)) <==>
             forall e :: e in coverage.events ==> e.status != MediaReported)
  {
    var strict := coverage.(policy := Strict);
    BuilderMeetsValidator(s, runId, s.created, apiFirst, Some(strict), sqrt);
    forall e | e in coverage.events ensures EventValid(e, Strict) <==> e.status != MediaReported {
      assert EventValid(e, Media);
    }
  }

  lemma BuiltCount(s: Snapshot)
    requires WikiValid(s)
    ensures BuiltTasks(s).Some? && |BuiltTasks(s).value| == 6
  {
    BuiltTasksExist(s);
  }

  // ----- Evidence -----

  /** Every id a task may cite is the id of an item of the snapshot. */
  predicate AllowedInSnapshot(h: HandoffBody) {
    forall t, id :: t in h.tasks && id in t.allowed ==> id in ItemIds(h.snapshot.items)
  }

  /** A built handoff only ever allows evidence of its own snapshot. */
  lemma BuiltEvidenceIsInSnapshot(s: Snapshot, runId: Id, preparedAt: int, apiFirst: bool, coverage: Option<Coverage>)
    requires WikiValid(s) && BuiltTasks(s).Some?
    ensures AllowedInSnapshot(BuiltBody(s, runId, preparedAt, apiFirst, coverage, BuiltTasks(s).value))
  {
    BuiltTasksExist(s);
    var tasks := BuiltTasks(s).value;
    forall t, id | t in tasks && id in t.allowed ensures id in ItemIds(s.items) {
      var k :| 0 <= k < 6 && tasks[k] == t;
      if k < 4 {
        ItemIdMember(Filter(s.items, AssignedTo(ANALYSTS[k])), id);
        FilterMembers(s.items, AssignedTo(ANALYSTS[k]));
        ItemIdMember(s.items, id);
      }
    }
  }

  lemma AnalystTaskHasEvidence(s: Snapshot, agent: AgentId, t: Task)
    requires ItemsValid(s) && agent in ANALYSTS && AnalystTask(s, agent) == Some(t)
    ensures t.allowed != [] && t.role != RiskRole && t.agent != RiskCritic
  {
    AnalystHasEvidence(s, agent);
  }

  lemma LaterTaskHasEvidence(s: Snapshot, agent: AgentId, role: Role, dependsOn: seq<AssignmentId>, t: Task)
    requires ItemsValid(s) && LaterTask(s, agent, role, dependsOn) == Some(t)
    ensures t.allowed != [] && t.role == role && t.agent == agent
  {
    assert |t.allowed| == |s.items|;
  }

  /** Every built task may cite something, and exactly the critic's has the risk role. */
  lemma BuiltTaskIsAnswerable(s: Snapshot, k: nat)
    requires ItemsValid(s) && WikiValid(s) && k < 6
    ensures BuiltTasks(s).Some? && |BuiltTasks(s).value| == 6
    ensures var t := BuiltTasks(s).value[k]; t.allowed != [] && (t.role == RiskRole <==> t.agent == RiskCritic)
  {
    BuiltTasksExist(s);
    var t := BuiltTasks(s).value[k];
    if k < 4 {
      AnalystTaskHasEvidence(s, ANALYSTS[k], t);
    } else if k == 4 {
      LaterTaskHasEvidence(s, Strategy, StrategyRole, TaskIdOf(ANALYSTS), t);
    } else {
      LaterTaskHasEvidence(s, RiskCritic, RiskRole, [ForAgent(Strategy)], t);
    }
  }

  lemma AnalystHasEvidence(s: Snapshot, agent: AgentId)
    requires ItemsValid(s) && agent in ANALYSTS
    ensures Filter(s.items, AssignedTo(agent)) != []
  {
    var i :| i in s.items && agent in i.agents;
    FilterMembers(s.items, AssignedTo(agent));
    assert i in Filter(s.items, AssignedTo(agent));
  }

  // ----- Tasks that keep their ids and agents -----

  predicate SameIdentities(xs: seq<Task>, ys: seq<Task>) {
    |xs| == |ys| && forall k :: 0 <= k < |xs| ==> xs[k].id == ys[k].id && xs[k].agent == ys[k].agent
  }

  lemma SameIdentitiesSameIds(xs: seq<Task>, ys: seq<Task>)
    requires SameIdentities(xs, ys)
    ensures TaskIds(xs) == TaskIds(ys) && AgentsOf(xs) == AgentsOf(ys)
  {
    SameAgents(xs, ys);
  }

  lemma SameTask(tasks: seq<Task>, t: Task, u: Task)
    requires Unique(TaskIds(tasks)) == TaskIds(tasks) && t in tasks && u in tasks && t.id == u.id
    ensures t == u
  {
    UniqueMembers(TaskIds(tasks));
    var i :| 0 <= i < |tasks| && tasks[i] == t;
    var j :| 0 <= j < |tasks| && tasks[j] == u;
    DistinctAt(TaskIds(tasks), i, j);
  }

  lemma OwnDependency(tasks: seq<Task>, k: nat, d: AssignmentId)
    requires DependenciesValid(tasks) && k < |tasks| && d in tasks[k].dependsOn
    ensures d in TaskIds(tasks) && d != tasks[k].id
  {
    assert tasks[k] in tasks;
  }

  lemma SameAgents(xs: seq<Task>, ys: seq<Task>)
    requires |xs| == |ys| && forall k :: 0 <= k < |xs| ==> xs[k].agent == ys[k].agent
    ensures AgentsOf(xs) == AgentsOf(ys)
  {
    forall agent ensures agent in AgentsOf(xs) <==> agent in AgentsOf(ys) {
      if t :| t in xs && t.agent == agent {
        var k :| 0 <= k < |xs| && xs[k] == t;
        assert ys[k] in ys;
      }
      if t :| t in ys && t.agent == agent {
        var k :| 0 <= k < |ys| && ys[k] == t;
        assert xs[k] in xs;
      }
    }
  }
}
