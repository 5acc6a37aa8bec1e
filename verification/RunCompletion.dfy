/** Exactly when an executor can complete its run, in every state the protocol can reach. */
module RunCompletion {
  import opened Common
  import opened Committee
  import opened RunProtocol
  import opened RunContract
  import opened RunSafety

  // ----- Past its checks, an executor's frozen state is the row's -----

  /** The executor passed the checks of its first session. */
  predicate Checked(e: Exec) {
    e.pc == Claiming(None) || e.pc == InGraph
  }

  ghost predicate AllChecked(execs: map<Id, Exec>, admitted: map<Id, Row>) {
    forall eid :: eid in execs && Checked(execs[eid]) ==>
      execs[eid].runId in admitted && Matches(execs[eid], admitted[execs[eid].runId])
  }

  ghost predicate ChecksHold(s: System) {
    AllChecked(s.execs, s.admitted)
  }

  /** What the checks read never changes: market, input, mode and snapshot are those of the insertion. */
  lemma SameMatches(e: Exec, row: Row, origin: Row)
    requires KeepsIdentity(row, origin)
    ensures Matches(e, row) <==> Matches(e, origin)
    ensures SameMarket(e, row) <==> SameMarket(e, origin)
  {
  }

  lemma BeginChecks(e: Exec, row: Row, lease: bool)
    requires e.pc.Prepared? && ClaimRead(e, Some(row), lease) == Claiming(None)
    ensures Matches(e, row) && Startable(e)
  {
    BeginContract(e, row, lease);
  }

  /** Only the first session's checks make an executor a checked one. */
  lemma LaterSessionsDoNotCheck(e: Exec, row: Row, action: ExecAction)
    requires !action.BeginClaim? && Checked(e.(pc := ExecSession(e, row, action).pc))
    ensures Checked(e)
  {
    if action.Finalise? {
      FinaliseLeavesGraph(e, row, action.outcome, action.leaseHolds, action.now);
    }
  }

  lemma CheckedAfter(e: Exec, row: Row, origin: Row, action: ExecAction)
    requires KeepsIdentity(row, origin) && (Checked(e) ==> Matches(e, origin))
    ensures var after := e.(pc := ExecSession(e, row, action).pc); Checked(after) ==> Matches(after, origin)
  {
    var after := e.(pc := ExecSession(e, row, action).pc);
    SameMatches(e, row, origin);
    if Checked(after) && !action.BeginClaim? {
      LaterSessionsDoNotCheck(e, row, action);
    } else if Checked(after) && e.pc.Prepared? {
      BeginChecks(e, row, action.leaseHolds);
    }
  }

  lemma FinaliseLeavesGraph(e: Exec, row: Row, outcome: GraphOutcome, lease: bool, now: int)
    ensures var pc := FinaliseWrite(e, row, outcome, lease, now).pc; pc.Done? || pc.Failing?
  {
  }

  lemma ExecKeepsChecks(s: System, eid: Id, action: ExecAction)
    requires Inv(s) && ChecksHold(s)
    ensures ChecksHold(ApplyExec(s, eid, action))
  {
    if eid in s.execs && s.execs[eid].runId in s.rows {
      var e, row := s.execs[eid], s.rows[s.execs[eid].runId];
      assert RowSound(e.runId, row, s.admitted[e.runId]);
      CheckedAfter(e, row, s.admitted[e.runId], action);
      OneExecChanges(s.execs, s.admitted, eid, e.(pc := ExecSession(e, row, action).pc));
    } else if eid in s.execs {
      OneExecChanges(s.execs, s.admitted, eid, s.execs[eid].(pc := Done));
    }
  }

  lemma OneExecChanges(execs: map<Id, Exec>, admitted: map<Id, Row>, eid: Id, e: Exec)
    requires AllChecked(execs, admitted) && (Checked(e) ==> e.runId in admitted && Matches(e, admitted[e.runId]))
    ensures AllChecked(execs[eid := e], admitted)
  {
  }

  lemma StepKeepsChecks(s: System, step: Step)
    requires Inv(s) && ChecksHold(s)
    ensures ChecksHold(Apply(s, step))
  {
    match step
    case Executor(eid, action) => ExecKeepsChecks(s, eid, action);
    case Insert(id, row) => MoreAdmitted(s.execs, s.admitted, id, row);
    case _ =>
  }

  lemma MoreAdmitted(execs: map<Id, Exec>, admitted: map<Id, Row>, id: Id, row: Row)
    requires AllChecked(execs, admitted)
    ensures id !in admitted ==> AllChecked(execs, admitted[id := row])
  {
  }

  lemma {:induction false} RunKeepsChecks(s: System, steps: seq<Step>)
    requires Inv(s) && ChecksHold(s)
    ensures Inv(Run(s, steps)) && ChecksHold(Run(s, steps))
  {
    if steps != [] {
      RunKeepsChecks(s, steps[..|steps| - 1]);
      StepKeepsInv(Run(s, steps[..|steps| - 1]), steps[|steps| - 1]);
      StepKeepsChecks(Run(s, steps[..|steps| - 1]), steps[|steps| - 1]);
    }
  }

  // ----- Completing -----

  /** The executor is in its graph, and its run is stored. */
  ghost predicate AtWork(s: System, eid: Id) {
    eid in s.execs && s.execs[eid].pc == InGraph && s.execs[eid].runId in s.rows
  }

  /** The finalising session completes the run with this result. */
  ghost predicate Completes(s: System, eid: Id, result: GraphResult, now: int)
    requires AtWork(s, eid)
  {
    var id := s.execs[eid].runId;
    var after := Apply(s, Executor(eid, Finalise(Returned(result), true, now)));
    s.rows[id].status != Completed && id in after.rows && after.rows[id].status == Completed
  }

  lemma FinaliseCompletesIff(e: Exec, row: Row, result: GraphResult, now: int)
    requires e.pc == InGraph && row.status != Completed && Matches(e, row)
    ensures ExecSession(e, row, Finalise(Returned(result), true, now)).row.status == Completed <==>
            row.status == Running && TokenIsStored(e, row) && ResultFits(e, row, result)
  {
    FinaliseContract(e, row, Returned(result), true, now);
  }

  /** Exactly: an executor at work completes its run with a result if and only if the run is RUNNING, the
      stored token is the executor's own (where it was given one), and the result passes its checks. */
  lemma CompletesIff(s: System, eid: Id, result: GraphResult, now: int)
    requires Inv(s) && ChecksHold(s) && AtWork(s, eid)
    ensures var e, row := s.execs[eid], s.rows[s.execs[eid].runId];
            Completes(s, eid, result, now) <==> row.status == Running && TokenIsStored(e, row) && ResultFits(e, row, result)
  {
    var e := s.execs[eid];
    MatchesNow(s, eid);
    if s.rows[e.runId].status != Completed {
      FinaliseCompletesIff(e, s.rows[e.runId], result, now);
    }
  }

  lemma MatchesNow(s: System, eid: Id)
    requires Inv(s) && ChecksHold(s) && eid in s.execs && Checked(s.execs[eid]) && s.execs[eid].runId in s.rows
    ensures Matches(s.execs[eid], s.rows[s.execs[eid].runId])
  {
    var e := s.execs[eid];
    assert RowSound(e.runId, s.rows[e.runId], s.admitted[e.runId]);
    SameMatches(e, s.rows[e.runId], s.admitted[e.runId]);
  }

  /** A result that fits wherever no runtime seal was written yet. */
  function EmptyResult(frozen: Frozen): GraphResult {
    GraphResult(map[RuntimeKey := RuntimeValue(RuntimeSeal(frozen.policy, frozen.snapshotHash, frozen.binding, true, false))],
                Outcome([], []), [])
  }

  lemma EmptyResultFits(e: Exec, row: Row)
    requires RuntimeKey !in row.quality
    ensures ResultFits(e, row, EmptyResult(e.frozen))
  {
  }

  /** Whether an executor at work can still complete its run depends on nothing but the run's status and
      its token: with a token, on that token being the stored one; without a token, on the status alone,
      whoever put the run into it. */
  lemma CanCompleteIff(s: System, eid: Id, now: int)
    requires Inv(s) && ChecksHold(s) && AtWork(s, eid)
    ensures var e, row := s.execs[eid], s.rows[s.execs[eid].runId];
            && ((exists result :: Completes(s, eid, result, now)) <==> row.status == Running && TokenIsStored(e, row))
            && (e.fence.None? ==> ((exists result :: Completes(s, eid, result, now)) <==> row.status == Running))
  {
    var e := s.execs[eid];
    var row := s.rows[e.runId];
    forall result ensures Completes(s, eid, result, now) <==> row.status == Running && TokenIsStored(e, row) && ResultFits(e, row, result) {
      CompletesIff(s, eid, result, now);
    }
    if row.status == Running {
      EmptyResultFits(e, row);
      assert Completes(s, eid, EmptyResult(e.frozen), now) <==> TokenIsStored(e, row);
    }
  }

  /** The same over every interleaving from the empty database, where an executor at work always has its
      run stored. */
  lemma ReachableCanCompleteIff(steps: seq<Step>, eid: Id, now: int)
    requires eid in Run(Start(), steps).execs && Run(Start(), steps).execs[eid].pc == InGraph
    ensures AtWork(Run(Start(), steps), eid)
    ensures var s := Run(Start(), steps);
            var e, row := s.execs[eid], s.rows[s.execs[eid].runId];
            (exists result :: Completes(s, eid, result, now)) <==> row.status == Running && TokenIsStored(e, row)
  {
    RunKeepsChecks(Start(), steps);
    CanCompleteIff(Run(Start(), steps), eid, now);
  }

  // ----- Every path to COMPLETED -----

  /** What an executor that completed a run had to be: at work on this very run in RUNNING, under the stored
      token, prepared for the runtime's horizons and universe, the run's universe hash, its input hash and
      its believability snapshot, and with results that fit. */
  ghost predicate Earned(e: Exec, row: Row, result: GraphResult) {
    && e.pc == InGraph && row.status == Running && Startable(e)
    && e.frozen.configMatches && e.universeHash == row.key.universeHash
    && e.frozen.inputHash == Some(row.inputHash) && e.rowInputHash == row.inputHash
    && SameSnapshot(e, row) && TokenIsStored(e, row) && ResultFits(e, row, result)
  }

  lemma EarnedBy(e: Exec, row: Row, outcome: GraphOutcome, lease: bool, now: int)
    requires e.pc == InGraph && Matches(e, row) && Startable(e) && row.status != Completed
    requires ExecSession(e, row, Finalise(outcome, lease, now)).row.status == Completed
    ensures outcome.Returned? && lease && Earned(e, row, outcome.result)
    ensures ExecSession(e, row, Finalise(outcome, lease, now)).row == Published(e, row, outcome.result, now)
  {
    FinaliseContract(e, row, outcome, lease, now);
  }

  /** Over every interleaving from the empty database: a step that takes a run to COMPLETED is the
      finalising session of an executor that earned it, with its lease, and what it leaves behind is the
      row with exactly that executor's results. */
  lemma CompletionIsEarned(steps: seq<Step>, step: Step, id: Id)
    requires id in Run(Start(), steps).rows && Run(Start(), steps).rows[id].status != Completed
    requires id in Apply(Run(Start(), steps), step).rows && Apply(Run(Start(), steps), step).rows[id].status == Completed
    ensures var s := Run(Start(), steps);
            && step.Executor? && step.action.Finalise? && step.action.outcome.Returned? && step.action.leaseHolds
            && step.eid in s.execs && s.execs[step.eid].runId == id
            && Earned(s.execs[step.eid], s.rows[id], step.action.outcome.result)
            && Apply(s, step).rows[id] == Published(s.execs[step.eid], s.rows[id], step.action.outcome.result, step.action.now)
  {
    var s := Run(Start(), steps);
    RunKeepsChecks(Start(), steps);
    RowAfterStep(s, step, id);
    OnlyExecutorsComplete(s, step, id);
    var e := s.execs[step.eid];
    CompletingSession(e, s.rows[id], step.action);
    MatchesNow(s, step.eid);
    EarnedBy(e, s.rows[id], step.action.outcome, step.action.leaseHolds, step.action.now);
  }
}
