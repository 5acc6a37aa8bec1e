/** What the execution token is for: an executor whose token was replaced is as good as absent. Two
    executors that were given no token show what the token keeps out. */
module RunFencing {
  import opened Common
  import opened Committee
  import opened RunProtocol
  import opened RunSafety

  /** A fenced executor only ever changes its own row, and only while its token is the stored one. */
  lemma FencedWritesHoldTheToken(s: System, eid: Id, action: ExecAction, id: Id)
    requires eid in s.execs && s.execs[eid].fence.Some? && id in s.rows
    requires ApplyExec(s, eid, action).rows[id] != s.rows[id]
    ensures var e := s.execs[eid];
            id == e.runId && TokenAt(s.rows[id].quality, e.fence.value.namespace) == Some(e.fence.value.token)
  {
    RowAfterStep(s, Executor(eid, action), id);
  }

  // ----- A replaced token -----

  /** The token is gone for good, or no longer matters. */
  ghost predicate Retired(row: Row, token: Id) {
    row.status != Completed ==> token in row.spent && TokenAt(row.quality, HANDOFF) != Some(token)
  }

  /** The executor's token was sealed for its run once and is no longer the stored one (or the run is
      already completed). */
  ghost predicate Replaced(s: System, eid: Id) {
    && eid in s.execs && s.execs[eid].fence.Some? && s.execs[eid].fence.value.namespace == HANDOFF
    && s.execs[eid].runId in s.rows
    && Retired(s.rows[s.execs[eid].runId], s.execs[eid].fence.value.token)
  }

  lemma ReplacedCannotWrite(s: System, eid: Id, action: ExecAction)
    requires Inv(s) && Replaced(s, eid)
    ensures ApplyExec(s, eid, action).rows == s.rows
  {
    var e := s.execs[eid];
    ExecRowSound(e.runId, s.rows[e.runId], s.admitted[e.runId], e, action);
  }

  lemma RewriteKeepsRetired(row: Row, token: Id, note: Id)
    requires Retired(row, token)
    ensures Retired(RewriteAudit(row, note), token)
  {
  }

  lemma ActionKeepsRetired(rows: map<Id, Row>, id: Id, row: Row, token: Id, action: RowAction)
    requires Retired(row, token)
    ensures row.status == Completed ==> ActOnRow(rows, id, row, action).status == Completed
    ensures Retired(ActOnRow(rows, id, row, action), token)
  {
    match action
    case AnnotateAudit(note) => RewriteKeepsRetired(row, token, note);
    case RearmFailed(_, preparedAt) => assert TokenAt(Rearm(row, preparedAt).quality, HANDOFF) == None;
    case SealToken(next) =>
      if next !in row.spent && row.status == AwaitingDraft {
        assert TokenAt(SealAttempt(row, next).quality, HANDOFF) == Some(next);
      }
    case _ =>
  }

  /** A session completes its row or leaves its audit and its spent tokens alone. */
  predicate LeavesTokens(row: Row, after: Row) {
    after.status == Completed || (after.quality == row.quality && after.spent == row.spent)
  }

  lemma ClaimLeavesTokens(e: Exec, verdict: Option<string>, row: Row, now: int)
    requires row.status != Completed
    ensures LeavesTokens(row, ClaimWrite(e, verdict, row, now).row)
  {
  }

  lemma FinaliseLeavesTokens(e: Exec, row: Row, outcome: GraphOutcome, lease: bool, now: int)
    ensures LeavesTokens(row, FinaliseWrite(e, row, outcome, lease, now).row)
  {
  }

  lemma FailureLeavesTokens(e: Exec, error: string, row: Row, lease: bool, now: int)
    ensures LeavesTokens(row, FailureWrite(e, error, row, lease, now).row)
  {
  }

  lemma SessionKeepsRetired(row: Row, token: Id, e: Exec, action: ExecAction)
    requires Retired(row, token)
    requires row.status == Completed ==> ExecSession(e, row, action).row == row
    ensures Retired(ExecSession(e, row, action).row, token)
  {
    if row.status != Completed {
      match action
      case EndClaim(now) => if e.pc.Claiming? { ClaimLeavesTokens(e, e.pc.verdict, row, now); }
      case Finalise(outcome, lease, now) => FinaliseLeavesTokens(e, row, outcome, lease, now);
      case RecordFailure(lease, now) => if e.pc.Failing? { FailureLeavesTokens(e, e.pc.error, row, lease, now); }
      case _ =>
      TokensStayRetired(row, ExecSession(e, row, action).row, token);
    }
  }

  lemma TokensStayRetired(row: Row, after: Row, token: Id)
    requires Retired(row, token) && row.status != Completed && LeavesTokens(row, after)
    ensures Retired(after, token)
  {
  }

  lemma RetiredStays(s: System, step: Step, id: Id, token: Id)
    requires Inv(s) && id in s.rows && Retired(s.rows[id], token)
    ensures Retired(RowAfter(s, step, id), token)
  {
    match step
    case Executor(eid, action) => ExecKeepsRetired(s, eid, action, id, token);
    case OnRow(other, action) => ActedKeepsRetired(s, other, action, id, token);
    case _ =>
  }

  lemma ActedKeepsRetired(s: System, other: Id, action: RowAction, id: Id, token: Id)
    requires id in s.rows && Retired(s.rows[id], token)
    ensures Retired(RowAfter(s, OnRow(other, action), id), token)
  {
    ActionKeepsRetired(s.rows, id, s.rows[id], token, action);
  }

  lemma ExecKeepsRetired(s: System, eid: Id, action: ExecAction, id: Id, token: Id)
    requires Inv(s) && id in s.rows && Retired(s.rows[id], token)
    ensures Retired(RowAfter(s, Executor(eid, action), id), token)
  {
    if eid in s.execs && s.execs[eid].runId == id {
      ExecRowSound(id, s.rows[id], s.admitted[id], s.execs[eid], action);
      SessionKeepsRetired(s.rows[id], token, s.execs[eid], action);
    }
  }

  lemma ExecKeepsFence(s: System, step: Step, eid: Id)
    requires eid in s.execs
    ensures eid in Apply(s, step).execs
    ensures Apply(s, step).execs[eid].fence == s.execs[eid].fence && Apply(s, step).execs[eid].runId == s.execs[eid].runId
  {
  }

  lemma ReplacedStaysReplaced(s: System, step: Step, eid: Id)
    requires Inv(s) && Replaced(s, eid)
    ensures Replaced(Apply(s, step), eid)
  {
    ExecKeepsFence(s, step, eid);
    RowAfterStep(s, step, s.execs[eid].runId);
    RetiredStays(s, step, s.execs[eid].runId, s.execs[eid].fence.value.token);
  }

  // ----- Erasing a replaced executor -----

  function NotBy(eid: Id): Step -> bool {
    (step: Step) => !(step.Executor? && step.eid == eid)
  }

  /** Two systems that differ at most in one executor's local state. */
  ghost predicate SameExcept(s: System, t: System, eid: Id) {
    && s.rows == t.rows && s.admitted == t.admitted
    && s.execs.Keys == t.execs.Keys
    && forall other :: other in s.execs && other != eid ==> s.execs[other] == t.execs[other]
  }

  lemma SameExceptStep(s: System, t: System, step: Step, eid: Id)
    requires SameExcept(s, t, eid) && NotBy(eid)(step) && eid in s.execs
    ensures SameExcept(Apply(s, step), Apply(t, step), eid)
  {
    if step.Executor? {
      SameExceptExec(s, t, step.eid, step.action, eid);
    }
  }

  lemma SameExceptExec(s: System, t: System, other: Id, action: ExecAction, eid: Id)
    requires SameExcept(s, t, eid) && other != eid
    ensures SameExcept(ApplyExec(s, other, action), ApplyExec(t, other, action), eid)
  {
  }

  lemma SameExceptSkip(s: System, t: System, eid: Id, action: ExecAction)
    requires Inv(s) && Replaced(s, eid) && SameExcept(s, t, eid)
    ensures SameExcept(ApplyExec(s, eid, action), t, eid)
  {
    ReplacedCannotWrite(s, eid, action);
    var s' := ApplyExec(s, eid, action);
    assert s'.execs.Keys == s.execs.Keys;
  }

  /** Noninterference. From the moment a fenced executor's token has been replaced, the database evolves
      exactly as if that executor had taken no further step: deleting all of its remaining sessions from
      any interleaving changes no row. */
  lemma {:induction false} ReplacedExecutorIsErased(s: System, steps: seq<Step>, eid: Id)
    requires Inv(s) && Replaced(s, eid)
    ensures Replaced(Run(s, steps), eid)
    ensures SameExcept(Run(s, steps), Run(s, Filter(steps, NotBy(eid))), eid)
    ensures Run(s, steps).rows == Run(s, Filter(steps, NotBy(eid))).rows
  {
    if steps != [] {
      var init, last := steps[..|steps| - 1], steps[|steps| - 1];
      ReplacedExecutorIsErased(s, init, eid);
      RunKeepsInv(s, init);
      var mid, mid' := Run(s, init), Run(s, Filter(init, NotBy(eid)));
      ReplacedStaysReplaced(mid, last, eid);
      if NotBy(eid)(last) {
        var kept := Filter(init, NotBy(eid));
        assert (kept + [last])[..|kept + [last]| - 1] == kept;
        SameExceptStep(mid, mid', last, eid);
      } else {
        SameExceptSkip(mid, mid', eid, last.action);
      }
    }
  }

  // ----- The same schedule without a token -----

  lemma RunSnoc(s: System, steps: seq<Step>, step: Step)
    ensures Run(s, steps + [step]) == Apply(Run(s, steps), step)
  {
    assert (steps + [step])[..|steps|] == steps;
  }

  lemma {:induction false} RunSplit(s: System, first: seq<Step>, second: seq<Step>)
    ensures Run(s, first + second) == Run(Run(s, first), second)
  {
    if second == [] {
      assert first + second == first;
    } else {
      var init, last := second[..|second| - 1], second[|second| - 1];
      RunSplit(s, first, init);
      assert second == init + [last];
      Regroup(first, init, [last]);
      RunSnoc(s, first + init, last);
    }
  }

  lemma RunOne(s: System, a: Step)
    ensures Run(s, [a]) == Apply(s, a)
  {
    var steps := [a];
    assert steps[..0] == [];
  }

  lemma RunTwo(s: System, a: Step, b: Step)
    ensures Run(s, [a, b]) == Apply(Apply(s, a), b)
  {
    var steps := [a, b];
    assert steps[..1] == [a];
    RunOne(s, a);
  }

  /** A schedule in which an executor outlives its attempt: the run is admitted, `first` claims it, the
      handoff service recovers and re-arms it, and `second` claims the new attempt. */
  const PASSED: ServiceChecks := ServiceChecks(true, true, true, true)
  const RUN: Id := Id("run")
  const FIRST: Id := Id("first")
  const SECOND: Id := Id("second")
  const STALE: Outcome := Outcome([], [])
  const SNAPSHOT: Snapshot := Snapshot(Id("hash"), Id("policy"), Demo, false, true)
  const ADMITTED: Row := NewRow(LiveKey(Id("universe"), 0), Id("input"), Demo, AwaitingDraft, SNAPSHOT, 0, false)
  const FROZEN: Frozen := Frozen(Some(Id("input")), Some(Id("hash")), Some(Binding(RUN, Id("hash"))), Some(Id("policy")), true)
  const UNFENCED: Exec := Exec(RUN, AwaitingDraft, Id("input"), FROZEN, None, false, false, Id("universe"), 1, Prepared)
  const WORKING: Exec := UNFENCED.(pc := InGraph)
  const CLAIMED: Row := ADMITTED.(status := Running, startedAt := 1)
  const REARMED: Row := Rearm(RecoverInterrupted(CLAIMED, 3), 4)
  const CLAIMED_AGAIN: Row := REARMED.(status := Running, startedAt := 1)
  const RESULT: GraphResult := GraphResult(map[RuntimeKey := RuntimeValue(ExpectedRuntime(FROZEN))], STALE, [])

  function Claim(eid: Id): seq<Step> {
    [Executor(eid, BeginClaim(true)), Executor(eid, EndClaim(2))]
  }

  /** The two rows `UNFENCED` finds waiting for a draft. */
  lemma WaitingRow(row: Row)
    requires row == ADMITTED || row == REARMED
    ensures row.status == AwaitingDraft && PreparedError(RUN, row, UNFENCED) == None
  {
    assert row.quality[SnapshotKey] == SnapshotValue(SNAPSHOT);
  }

  lemma ClaimWorks(s: System, eid: Id, row: Row)
    requires row == ADMITTED || row == REARMED
    requires eid in s.execs && s.execs[eid] == UNFENCED && RUN in s.rows && s.rows[RUN] == row
    ensures Run(s, Claim(eid)) ==
            s.(rows := s.rows[RUN := row.(status := Running, startedAt := 1)], execs := s.execs[eid := WORKING])
  {
    WaitingRow(row);
    RunTwo(s, Claim(eid)[0], Claim(eid)[1]);
    ClaimsAlone(s, eid, UNFENCED, row);
  }

  /** An executor without a token that finds its row as expected claims it. */
  lemma ClaimsAlone(s: System, eid: Id, e: Exec, row: Row)
    requires eid in s.execs && s.execs[eid] == e && e.runId in s.rows && s.rows[e.runId] == row
    requires e.pc.Prepared? && e.expected == AwaitingDraft && e.fence.None?
    requires row.status == AwaitingDraft && PreparedError(e.runId, row, e) == None
    ensures ApplyExec(ApplyExec(s, eid, BeginClaim(true)), eid, EndClaim(2)) ==
            s.(rows := s.rows[e.runId := row.(status := Running, startedAt := e.startedAt)], execs := s.execs[eid := e.(pc := InGraph)])
  {
    var claiming := e.(pc := Claiming(None));
    var s1 := ApplyExec(s, eid, BeginClaim(true));
    ClaimReads(e, row);
    assert s.rows[e.runId := row] == s.rows;
    assert s1 == s.(execs := s.execs[eid := claiming]);
    ClaimWrites(claiming, row);
    assert s.execs[eid := claiming][eid := e.(pc := InGraph)] == s.execs[eid := e.(pc := InGraph)];
  }

  lemma ClaimReads(e: Exec, row: Row)
    requires e.pc.Prepared? && e.expected == AwaitingDraft && row.status == AwaitingDraft && PreparedError(e.runId, row, e) == None
    ensures ExecSession(e, row, BeginClaim(true)) == Session(row, Claiming(None))
  {
  }

  lemma ClaimWrites(e: Exec, row: Row)
    requires e.pc == Claiming(None) && e.expected == AwaitingDraft && row.status == AwaitingDraft && e.fence.None?
    ensures ExecSession(e, row, EndClaim(2)) == Session(row.(status := Running, startedAt := e.startedAt), InGraph)
  {
  }

  lemma AdmitsFirst(id: Id, row: Row, eid: Id, e: Exec)
    requires IsNew(row) && e.pc.Prepared?
    ensures Run(Start(), [Insert(id, row), Spawn(eid, e)]) == System(map[id := row], map[eid := e], map[id := row])
  {
    RunTwo(Start(), Insert(id, row), Spawn(eid, e));
    assert Apply(Start(), Insert(id, row)) == System(map[id := row], map[], map[id := row]);
  }

  lemma FirstAttempt()
    ensures Run(Start(), [Insert(RUN, ADMITTED), Spawn(FIRST, UNFENCED)] + Claim(FIRST)) ==
            System(map[RUN := CLAIMED], map[FIRST := WORKING], map[RUN := ADMITTED])
  {
    var admit := [Insert(RUN, ADMITTED), Spawn(FIRST, UNFENCED)];
    AdmitsFirst(RUN, ADMITTED, FIRST, UNFENCED);
    RunSplit(Start(), admit, Claim(FIRST));
    ClaimWorks(Run(Start(), admit), FIRST, ADMITTED);
  }

  /** An only row is never replaced and never in conflict. */
  lemma OnlyRow(id: Id, row: Row, after: Row)
    ensures !HasReplacement(map[id := row], id, row) && Write(map[id := row], id, after) == map[id := after]
  {
  }

  lemma SecondAttempt(s: System)
    requires s == System(map[RUN := CLAIMED], map[FIRST := WORKING], map[RUN := ADMITTED])
    ensures Run(s, [OnRow(RUN, RecoverRunner(PASSED, 3)), OnRow(RUN, RearmFailed(PASSED, 4))]).rows == map[RUN := REARMED]
    ensures Run(s, [OnRow(RUN, RecoverRunner(PASSED, 3)), OnRow(RUN, RearmFailed(PASSED, 4))]).execs == s.execs
  {
    RunTwo(s, OnRow(RUN, RecoverRunner(PASSED, 3)), OnRow(RUN, RearmFailed(PASSED, 4)));
    RecoversAndRearms(s, RUN, CLAIMED);
  }

  lemma RecoversAndRearms(s: System, id: Id, row: Row)
    requires s.rows == map[id := row] && row.status == Running && row.outputs == []
    ensures var t := Apply(Apply(s, OnRow(id, RecoverRunner(PASSED, 3))), OnRow(id, RearmFailed(PASSED, 4)));
            t.rows == map[id := Rearm(RecoverInterrupted(row, 3), 4)] && t.execs == s.execs
  {
    var recovered := RecoverInterrupted(row, 3);
    OnlyRow(id, row, recovered);
    assert Apply(s, OnRow(id, RecoverRunner(PASSED, 3))) == s.(rows := map[id := recovered]);
    OnlyRow(id, recovered, Rearm(recovered, 4));
  }

  lemma StaleResultFits()
    ensures SealError(RUN, CLAIMED_AGAIN, FROZEN) == None && BoundaryError(CLAIMED_AGAIN, RESULT, FROZEN) == None
    ensures CLAIMED_AGAIN.status == Running && CLAIMED_AGAIN.outputs == [] && InputHashMatches(CLAIMED_AGAIN, WORKING)
    ensures PersistAccepts(STALE)
  {
    assert CLAIMED_AGAIN.quality[SnapshotKey] == SnapshotValue(SNAPSHOT);
  }

  lemma StaleFinalise(s: System)
    requires RUN in s.rows && s.rows[RUN] == CLAIMED_AGAIN && FIRST in s.execs && s.execs[FIRST] == WORKING
    ensures RUN in Apply(s, Executor(FIRST, Finalise(Returned(RESULT), true, 6))).rows
    ensures var row := Apply(s, Executor(FIRST, Finalise(Returned(RESULT), true, 6))).rows[RUN];
            row.status == Completed && row.outputs == [STALE]
  {
    StaleResultFits();
    FinishesAlone(s, FIRST, WORKING, CLAIMED_AGAIN, RESULT);
  }

  lemma FinishesAlone(s: System, eid: Id, e: Exec, row: Row, result: GraphResult)
    requires eid in s.execs && s.execs[eid] == e && e.runId in s.rows && s.rows[e.runId] == row
    requires e.pc == InGraph && e.fence.None? && row.status == Running
    requires SealError(e.runId, row, e.frozen) == None && InputHashMatches(row, e) && BoundaryError(row, result, e.frozen) == None
    requires PersistAccepts(result.outcome)
    ensures var t := ApplyExec(s, eid, Finalise(Returned(result), true, 6));
            e.runId in t.rows && t.rows[e.runId] == CompletionValues(row, e, result, 6)
  {
  }

  function Admission(): seq<Step> {
    [Insert(RUN, ADMITTED), Spawn(FIRST, UNFENCED)] + Claim(FIRST)
  }

  /** Up to the recovery of the first attempt. */
  function Before(): seq<Step> {
    Admission() + [OnRow(RUN, RecoverRunner(PASSED, 3))]
  }

  function After(): seq<Step> {
    [Spawn(SECOND, UNFENCED)] + Claim(SECOND) + [Executor(FIRST, Finalise(Returned(RESULT), true, 6))]
  }

  lemma RearmedState()
    ensures Run(Start(), Before()).execs == map[FIRST := WORKING]
    ensures Run(Start(), Before() + [OnRow(RUN, RearmFailed(PASSED, 4))]).rows == map[RUN := REARMED]
    ensures Run(Start(), Before() + [OnRow(RUN, RearmFailed(PASSED, 4))]).execs == map[FIRST := WORKING]
  {
    var recover, rearm := OnRow(RUN, RecoverRunner(PASSED, 3)), OnRow(RUN, RearmFailed(PASSED, 4));
    FirstAttempt();
    var s1 := Run(Start(), Admission());
    SecondAttempt(s1);
    RunTwo(s1, recover, rearm);
    RunSnoc(Start(), Admission(), recover);
    RunSnoc(Start(), Before(), rearm);
  }

  lemma StaleCompletion(s: System)
    requires s.rows == map[RUN := REARMED] && s.execs == map[FIRST := WORKING]
    ensures var t := Run(s, After());
            && SECOND in t.execs && t.execs[SECOND].pc == InGraph
            && RUN in t.rows && t.rows[RUN].status == Completed && t.rows[RUN].outputs == [STALE]
  {
    assert FIRST.text != SECOND.text by { assert FIRST.text[0] == 'f' && SECOND.text[0] == 's'; }
    var spawned := Apply(s, Spawn(SECOND, UNFENCED));
    assert spawned == s.(execs := s.execs[SECOND := UNFENCED]);
    RunOne(s, Spawn(SECOND, UNFENCED));
    RunSplit(s, [Spawn(SECOND, UNFENCED)], Claim(SECOND));
    ClaimWorks(spawned, SECOND, REARMED);
    var claimed := Run(spawned, Claim(SECOND));
    RunSnoc(s, [Spawn(SECOND, UNFENCED)] + Claim(SECOND), Executor(FIRST, Finalise(Returned(RESULT), true, 6)));
    StaleFinalise(claimed);
  }

  /** The witness for the case without a token of RunCompletion.CanCompleteIff: an unfenced executor that
      outlived its attempt completes the run that was re-armed for another attempt while that attempt is
      still at work, and its stale results become the run's results. The caller that works on re-armed runs
      does pass a token. */
  lemma UnfencedExecutorCompletesAnotherAttempt()
    ensures Run(Start(), Before()).execs == map[FIRST := WORKING] && WORKING.fence.None?
    ensures var s := Run(Start(), Before() + [OnRow(RUN, RearmFailed(PASSED, 4))] + After());
            && SECOND in s.execs && s.execs[SECOND].pc == InGraph
            && RUN in s.rows && s.rows[RUN].status == Completed && s.rows[RUN].outputs == [STALE]
  {
    RearmedState();
    RunSplit(Start(), Before() + [OnRow(RUN, RearmFailed(PASSED, 4))], After());
    StaleCompletion(Run(Start(), Before() + [OnRow(RUN, RearmFailed(PASSED, 4))]));
  }
}
