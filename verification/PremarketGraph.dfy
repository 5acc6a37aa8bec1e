/** When the dependencies of a handoff's tasks form a graph without cycles. The validator does not ask;
    repeatedly settling the tasks whose dependencies are all settled decides it. */
module PremarketGraph {
  import opened Common
  import opened Coverage
  import opened Premarket
  import opened PremarketBuilder

  predicate Ready(t: Task, settled: set<AssignmentId>) {
    forall d :: d in t.dependsOn ==> d in settled
  }

  /** The tasks settled after n rounds. */
  function Settled(tasks: seq<Task>, n: nat): set<AssignmentId> {
    if n == 0 then {} else set t | t in tasks && Ready(t, Settled(tasks, n - 1)) :: t.id
  }

  function Ids(tasks: seq<Task>): set<AssignmentId> {
    ToSet(TaskIds(tasks))
  }

  predicate OwnIds(tasks: seq<Task>) {
    Unique(TaskIds(tasks)) == TaskIds(tasks)
  }

  lemma IdMember(tasks: seq<Task>, id: AssignmentId)
    ensures id in Ids(tasks) <==> exists t :: t in tasks && t.id == id
  {
    MapMember(tasks, (t: Task) => t.id, id);
  }

  lemma SettledAreIds(tasks: seq<Task>, n: nat)
    ensures Settled(tasks, n) <= Ids(tasks)
  {
    forall id | id in Settled(tasks, n) ensures id in Ids(tasks) {
      IdMember(tasks, id);
    }
  }

  lemma {:induction false} RoundsGrow(tasks: seq<Task>, n: nat)
    ensures Settled(tasks, n) <= Settled(tasks, n + 1)
  {
    if n > 0 {
      RoundsGrow(tasks, n - 1);
    }
  }

  /** The first round, up to n, in which the id is settled. */
  function Round(tasks: seq<Task>, n: nat, id: AssignmentId): (r: nat)
    ensures r <= n
  {
    if n == 0 then 0 else if id in Settled(tasks, n - 1) then Round(tasks, n - 1, id) else n
  }

  lemma {:induction false} SettledInItsRound(tasks: seq<Task>, n: nat, id: AssignmentId)
    requires id in Settled(tasks, n)
    ensures Round(tasks, n, id) > 0 && id in Settled(tasks, Round(tasks, n, id))
  {
    if id in Settled(tasks, n - 1) {
      SettledInItsRound(tasks, n - 1, id);
    }
  }

  lemma {:induction false} RoundsGrowTo(tasks: seq<Task>, m: nat, n: nat)
    requires m <= n
    ensures Settled(tasks, m) <= Settled(tasks, n)
  {
    if m < n {
      RoundsGrowTo(tasks, m, n - 1);
      RoundsGrow(tasks, n - 1);
    }
  }

  /** A settled task had its dependencies settled a round earlier. */
  lemma SettledWasReady(tasks: seq<Task>, r: nat, t: Task)
    requires OwnIds(tasks) && t in tasks && r > 0 && t.id in Settled(tasks, r)
    ensures Ready(t, Settled(tasks, r - 1))
  {
    var same :| same in tasks && same.id == t.id && Ready(same, Settled(tasks, r - 1));
    SameTask(tasks, same, t);
  }

  lemma {:induction false} RoundAtMost(tasks: seq<Task>, m: nat, n: nat, d: AssignmentId)
    requires m <= n && d in Settled(tasks, m)
    ensures Round(tasks, n, d) <= m
  {
    if m < n {
      RoundsGrowTo(tasks, m, n - 1);
      RoundAtMost(tasks, m, n - 1, d);
    }
  }

  lemma DependencyRoundsBefore(tasks: seq<Task>, n: nat, t: Task, d: AssignmentId)
    requires OwnIds(tasks) && t in tasks && d in t.dependsOn && t.id in Settled(tasks, n)
    ensures Round(tasks, n, d) < Round(tasks, n, t.id)
  {
    SettledInItsRound(tasks, n, t.id);
    var r := Round(tasks, n, t.id);
    SettledWasReady(tasks, r, t);
    RoundAtMost(tasks, r - 1, n, d);
  }

  function RoundOf(tasks: seq<Task>, n: nat): AssignmentId -> nat {
    (id: AssignmentId) => Round(tasks, n, id)
  }

  lemma SettledIsAcyclic(tasks: seq<Task>, n: nat)
    requires OwnIds(tasks) && Ids(tasks) <= Settled(tasks, n)
    requires DependenciesValid(tasks)
    ensures Acyclic(tasks)
  {
    forall t, d | t in tasks && d in t.dependsOn ensures RoundOf(tasks, n)(d) < RoundOf(tasks, n)(t.id) {
      IdMember(tasks, t.id);
      DependencyRoundsBefore(tasks, n, t, d);
    }
    assert Ranks(RoundOf(tasks, n), tasks);
  }

  lemma {:induction false} LeastRanked(ids: set<AssignmentId>, rank: AssignmentId -> nat) returns (least: AssignmentId)
    requires ids != {}
    ensures least in ids && forall id :: id in ids ==> rank(least) <= rank(id)
  {
    var id :| id in ids;
    if ids == {id} {
      least := id;
    } else {
      least := LeastRanked(ids - {id}, rank);
      least := if rank(id) < rank(least) then id else least;
    }
  }

  /** In a ranked graph every round settles one more task, as long as one is missing. */
  lemma RoundSettlesOne(tasks: seq<Task>, n: nat, rank: AssignmentId -> nat) returns (id: AssignmentId)
    requires DependenciesValid(tasks) && Ranks(rank, tasks) && Settled(tasks, n) != Ids(tasks)
    ensures id in Settled(tasks, n + 1) && id !in Settled(tasks, n)
  {
    SettledAreIds(tasks, n);
    var left := Ids(tasks) - Settled(tasks, n);
    if left == {} {
      NothingLeft(Ids(tasks), Settled(tasks, n));
    }
    id := LeastRanked(left, rank);
    IdMember(tasks, id);
    var t :| t in tasks && t.id == id;
    forall d | d in t.dependsOn ensures d in Settled(tasks, n) {
      assert d in Ids(tasks) && rank(d) < rank(t.id);
    }
    assert Ready(t, Settled(tasks, n));
  }

  /** Nothing is left to settle, or at least n tasks are settled. */
  predicate FarEnough(settled: set<AssignmentId>, ids: set<AssignmentId>, n: nat) {
    settled == ids || |settled| >= n
  }

  lemma {:induction false} RankedSettles(tasks: seq<Task>, n: nat, rank: AssignmentId -> nat)
    requires DependenciesValid(tasks) && Ranks(rank, tasks)
    ensures FarEnough(Settled(tasks, n), Ids(tasks), n)
  {
    if n > 0 {
      RankedSettles(tasks, n - 1, rank);
      NextRound(tasks, n - 1, rank);
    }
  }

  lemma NextRound(tasks: seq<Task>, n: nat, rank: AssignmentId -> nat)
    requires DependenciesValid(tasks) && Ranks(rank, tasks) && FarEnough(Settled(tasks, n), Ids(tasks), n)
    ensures FarEnough(Settled(tasks, n + 1), Ids(tasks), n + 1)
  {
    if Settled(tasks, n) == Ids(tasks) {
      StaysSettled(tasks, n);
    } else {
      RoundAdds(tasks, n, rank);
    }
  }

  lemma StaysSettled(tasks: seq<Task>, n: nat)
    requires Settled(tasks, n) == Ids(tasks)
    ensures Settled(tasks, n + 1) == Ids(tasks)
  {
    RoundsGrow(tasks, n);
    SettledAreIds(tasks, n + 1);
  }

  lemma RoundAdds(tasks: seq<Task>, n: nat, rank: AssignmentId -> nat)
    requires DependenciesValid(tasks) && Ranks(rank, tasks) && Settled(tasks, n) != Ids(tasks)
    ensures |Settled(tasks, n + 1)| > |Settled(tasks, n)|
  {
    RoundsGrow(tasks, n);
    var id := RoundSettlesOne(tasks, n, rank);
    Larger(Settled(tasks, n), Settled(tasks, n + 1), id);
  }

  lemma NothingLeft<T>(all: set<T>, done: set<T>)
    requires done <= all && all - done == {}
    ensures done == all
  {
    forall x | x in all ensures x in done {
      assert x !in all - done;
    }
  }

  lemma Larger<T>(small: set<T>, large: set<T>, x: T)
    requires small <= large && x in large && x !in small
    ensures |large| > |small|
  {
    SubsetSize(small + {x}, large);
  }

  lemma FullWhenLarge(tasks: seq<Task>, settled: set<AssignmentId>)
    requires OwnIds(tasks) && settled <= Ids(tasks) && |settled| >= |tasks|
    ensures settled == Ids(tasks)
  {
    UniqueMembers(TaskIds(tasks));
    DistinctSize(TaskIds(tasks));
    if id :| id in Ids(tasks) && id !in settled {
      Larger(settled, Ids(tasks), id);
    }
  }

  /** Exactly: where ids are unique and dependencies exist, as on every valid handoff, the dependencies
      have no cycle if and only if as many rounds as there are tasks settle all of them. */
  lemma AcyclicIffSettled(tasks: seq<Task>)
    requires OwnIds(tasks) && DependenciesValid(tasks)
    ensures Acyclic(tasks) <==> Settled(tasks, |tasks|) == Ids(tasks)
  {
    if Settled(tasks, |tasks|) == Ids(tasks) {
      SettledIsAcyclic(tasks, |tasks|);
    }
    if Acyclic(tasks) {
      var rank :| Ranks(rank, tasks);
      RankedSettles(tasks, |tasks|, rank);
      SettledAreIds(tasks, |tasks|);
      if Settled(tasks, |tasks|) != Ids(tasks) {
        FullWhenLarge(tasks, Settled(tasks, |tasks|));
      }
    }
  }

  lemma TwoCycle(tasks: seq<Task>, a: Task, b: Task, rank: AssignmentId -> nat)
    requires a in tasks && b in tasks && b.id in a.dependsOn && a.id in b.dependsOn
    ensures !Ranks(rank, tasks)
  {
  }

  /** The validator alone does not make the dependencies a graph without cycles. */
  lemma ValidatorAdmitsCycle(h: HandoffBody, i: nat, j: nat)
    requires HandoffBodyValid(h) && i < 6 && j < 6 && i != j
    ensures var a, b := h.tasks[i], h.tasks[j];
            var tasks := h.tasks[i := a.(dependsOn := [b.id])][j := b.(dependsOn := [a.id])];
            HandoffBodyValid(h.(tasks := tasks)) && !Acyclic(tasks)
  {
    var a, b := h.tasks[i], h.tasks[j];
    var a', b' := a.(dependsOn := [b.id]), b.(dependsOn := [a.id]);
    var tasks := h.tasks[i := a'][j := b'];
    CycleIsValid(h.tasks, i, j);
    assert tasks[i] == a' && tasks[j] == b';
    forall rank: AssignmentId -> nat ensures !Ranks(rank, tasks) {
      TwoCycle(tasks, a', b', rank);
    }
  }

  lemma CycleIsValid(before: seq<Task>, i: nat, j: nat)
    requires TasksValid(before) && i < 6 && j < 6 && i != j
    ensures TasksValid(before[i := before[i].(dependsOn := [before[j].id])][j := before[j].(dependsOn := [before[i].id])])
  {
    var tasks := before[i := before[i].(dependsOn := [before[j].id])][j := before[j].(dependsOn := [before[i].id])];
    SameIdentitiesSameIds(before, tasks);
    CycleDependencies(before, tasks, i, j);
  }

  lemma CycleDependencies(before: seq<Task>, tasks: seq<Task>, i: nat, j: nat)
    requires OwnIds(before) && DependenciesValid(before) && SameIdentities(before, tasks)
    requires i < |before| && j < |before| && i != j
    requires tasks[i].dependsOn == [before[j].id] && tasks[j].dependsOn == [before[i].id]
    requires forall k :: 0 <= k < |before| && k != i && k != j ==> tasks[k].dependsOn == before[k].dependsOn
    ensures DependenciesValid(tasks)
  {
    SameIdentitiesSameIds(before, tasks);
    UniqueMembers(TaskIds(before));
    DistinctAt(TaskIds(before), i, j);
    forall t, d | t in tasks && d in t.dependsOn ensures d in TaskIds(tasks) && d != t.id {
      var k :| 0 <= k < |tasks| && tasks[k] == t;
      if k == i {
        assert d == TaskIds(tasks)[j];
      } else if k == j {
        assert d == TaskIds(tasks)[i];
      } else {
        OwnDependency(before, k, d);
      }
    }
  }
}
