/** Safety of the run protocol over every interleaving of any number of executors with the API, the
    startup sweep, the task queue's attempt records and the file-handoff service. */
module RunSafety {
  import opened Common
  import opened Committee
  import opened RunProtocol

  // ----- The invariant -----

  /** The runtime seal of a completed row names the row's own snapshot and the row itself. */
  ghost predicate SealBindsRow(id: Id, row: Row) {
    && SnapshotKey in row.quality && row.quality[SnapshotKey].SnapshotValue?
    && RuntimeKey in row.quality && row.quality[RuntimeKey].RuntimeValue?
    && var snapshot, seal := row.quality[SnapshotKey].snapshot, row.quality[RuntimeKey].seal;
       && seal.snapshotHash == Some(snapshot.contentHash)
       && seal.binding == Some(Binding(id, snapshot.contentHash))
       && seal.policy == Some(snapshot.policy)
       && seal.shadowOnly && !seal.applied && !snapshot.applied && snapshot.mode == row.mode
  }

  /** What a row keeps of the row that was inserted. */
  ghost predicate KeepsIdentity(row: Row, origin: Row) {
    && row.key == origin.key && row.inputHash == origin.inputHash && row.mode == origin.mode && (origin.hasTask ==> row.hasTask)
    && SnapshotKey in row.quality && SnapshotKey in origin.quality
    && row.quality[SnapshotKey] == origin.quality[SnapshotKey]
  }

  ghost predicate TokenIsSpent(row: Row) {
    row.status != Completed && TokenAt(row.quality, HANDOFF).Some? ==> TokenAt(row.quality, HANDOFF).value in row.spent
  }

  ghost predicate RowSound(id: Id, row: Row, origin: Row) {
    && KeepsIdentity(row, origin)
    && (row.status == Completed <==> |row.outputs| == 1)
    && (row.status != Completed ==> row.outputs == [])
    && (row.completedAt.Some? <==> row.status == Completed || row.status == Failed)
    && (row.status == Completed ==> row.error.None? && row.duration.Some?) && (row.status == Failed ==> row.error.Some?)
    && (row.duration.Some? ==> row.completedAt.Some? && row.duration.value >= 0)
    && (RuntimeKey in row.quality <==> row.status == Completed)
    && (row.status == Completed ==> SealBindsRow(id, row) && PersistAccepts(row.outputs[0]))
    && TokenIsSpent(row)
  }

  ghost predicate UniqueLive(rows: map<Id, Row>) {
    forall a, b :: a in rows && b in rows && a != b && Active(rows[a]) && Active(rows[b]) ==> rows[a].key != rows[b].key
  }

  ghost predicate RowsSound(s: System) {
    && s.rows.Keys == s.admitted.Keys
    && forall id :: id in s.rows ==> RowSound(id, s.rows[id], s.admitted[id])
  }

  /** An executor past its entry check may start. */
  ghost predicate ExecsSound(s: System) {
    forall eid :: eid in s.execs && (s.execs[eid].pc.Claiming? || s.execs[eid].pc.InGraph? || s.execs[eid].pc.Failing?) ==>
      MayStart(s.execs[eid])
  }

  ghost predicate Inv(s: System) {
    RowsSound(s) && UniqueLive(s.rows) && ExecsSound(s)
  }

  // ----- One row -----

  lemma CompletionIsSound(id: Id, row: Row, origin: Row, e: Exec, result: GraphResult, now: int)
    requires RowSound(id, row, origin) && row.status == Running && e.runId == id
    requires SealError(id, row, e.frozen).None? && BoundaryError(row, result, e.frozen).None?
    requires PersistAccepts(result.outcome)
    ensures RowSound(id, CompletionValues(row, e, result, now), origin)
  {
    var done := CompletionValues(row, e, result, now);
    assert done.quality[SnapshotKey] == row.quality[SnapshotKey];
    assert done.quality[RuntimeKey] == RuntimeValue(ExpectedRuntime(e.frozen));
    assert done.outputs == [result.outcome];
  }

  /** Every session of an executor keeps its row sound, never activates an inactive row, and never
      touches a completed one. */
  lemma ExecRowSound(id: Id, row: Row, origin: Row, e: Exec, action: ExecAction)
    requires RowSound(id, row, origin) && e.runId == id
    requires e.pc.Claiming? || e.pc.InGraph? || e.pc.Failing? ==> MayStart(e)
    ensures RowSound(id, ExecSession(e, row, action).row, origin)
    ensures Active(ExecSession(e, row, action).row) ==> Active(row)
    ensures row.status == Completed || row.status == Failed ==> ExecSession(e, row, action).row == row
  {
    if action.Finalise? && e.pc.InGraph? {
      var session := FinaliseWrite(e, row, action.outcome, action.leaseHolds, action.now);
      if session.row != row {
        CompletionIsSound(id, row, origin, e, action.outcome.result, action.now);
      }
    }
  }

  lemma FailedRowSound(id: Id, row: Row, origin: Row, initial: Status, error: string, now: int)
    requires RowSound(id, row, origin) && initial != Completed
    ensures RowSound(id, FailInitial(row, initial, error, now), origin)
  {
  }

  lemma AuditedRowSound(id: Id, row: Row, origin: Row, note: Id)
    requires RowSound(id, row, origin)
    ensures RowSound(id, RewriteAudit(row, note), origin)
  {
  }

  lemma ActedRowSound(rows: map<Id, Row>, id: Id, row: Row, origin: Row, action: RowAction)
    requires RowSound(id, row, origin)
    ensures RowSound(id, ActOnRow(rows, id, row, action), origin)
  {
    match action
    case FailUnqueued(error, now) => FailedRowSound(id, row, origin, Queued, error, now);
    case FailPreparation(error, now) => FailedRowSound(id, row, origin, AwaitingDraft, error, now);
    case AnnotateAudit(note) => AuditedRowSound(id, row, origin, note);
    case _ =>
  }

  lemma SweptRowSound(id: Id, row: Row, origin: Row, now: int)
    requires RowSound(id, row, origin) && Interrupted(row)
    ensures RowSound(id, SweepOne(row, now), origin)
  {
  }

  // ----- One step -----

  lemma ReplaceKeepsUnique(rows: map<Id, Row>, id: Id, row: Row)
    requires UniqueLive(rows) && IndexAdmits(rows, id, row)
    ensures UniqueLive(rows[id := row])
  {
  }

  lemma InactiveOrAdmitted(rows: map<Id, Row>, id: Id, row: Row)
    requires UniqueLive(rows) && id in rows && row.key == rows[id].key && (Active(row) ==> Active(rows[id]))
    ensures IndexAdmits(rows, id, row)
  {
  }

  lemma ReplaceKeepsSound(s: System, id: Id, row: Row)
    requires RowsSound(s) && id in s.rows && RowSound(id, row, s.admitted[id])
    ensures RowsSound(s.(rows := s.rows[id := row]))
  {
    var rows := s.rows[id := row];
    forall other | other in rows ensures RowSound(other, rows[other], s.admitted[other]) {
      if other != id {
        assert rows[other] == s.rows[other];
      }
    }
  }

  lemma ExecStepKeepsRows(s: System, eid: Id, action: ExecAction)
    requires Inv(s)
    ensures RowsSound(ApplyExec(s, eid, action)) && UniqueLive(ApplyExec(s, eid, action).rows)
  {
    if eid in s.execs && s.execs[eid].runId in s.rows {
      var e := s.execs[eid];
      var row := s.rows[e.runId];
      var session := ExecSession(e, row, action);
      ExecRowSound(e.runId, row, s.admitted[e.runId], e, action);
      InactiveOrAdmitted(s.rows, e.runId, session.row);
      ReplaceKeepsUnique(s.rows, e.runId, session.row);
      ReplaceKeepsSound(s, e.runId, session.row);
    }
  }

  lemma ExecStepKeepsExecs(s: System, eid: Id, action: ExecAction)
    requires ExecsSound(s)
    ensures ExecsSound(ApplyExec(s, eid, action))
  {
  }

  lemma InsertKeepsInv(s: System, id: Id, row: Row)
    requires Inv(s) && id !in s.rows && IsNew(row) && IndexAdmits(s.rows, id, row)
    ensures Inv(s.(rows := s.rows[id := row], admitted := s.admitted[id := row]))
  {
    assert SnapshotKey in row.quality.Keys && RuntimeKey !in row.quality.Keys && HANDOFF !in row.quality.Keys;
    ReplaceKeepsUnique(s.rows, id, row);
    var rows, admitted := s.rows[id := row], s.admitted[id := row];
    forall other | other in rows ensures RowSound(other, rows[other], admitted[other]) {
      if other != id {
        assert rows[other] == s.rows[other] && admitted[other] == s.admitted[other];
      }
    }
  }

  lemma SweepKeepsInv(s: System, now: int)
    requires Inv(s)
    ensures Inv(s.(rows := Sweep(s.rows, now)))
  {
    var rows := Sweep(s.rows, now);
    forall id | id in rows
      ensures RowSound(id, rows[id], s.admitted[id])
      ensures rows[id].key == s.rows[id].key && (Active(rows[id]) ==> Active(s.rows[id]))
    {
      if Interrupted(s.rows[id]) {
        SweptRowSound(id, s.rows[id], s.admitted[id], now);
      }
    }
  }

  lemma StepKeepsInv(s: System, step: Step)
    requires Inv(s)
    ensures Inv(Apply(s, step))
  {
    match step
    case Executor(eid, action) =>
      ExecStepKeepsRows(s, eid, action);
      ExecStepKeepsExecs(s, eid, action);
    case OnRow(id, action) =>
      if id in s.rows {
        var row := ActOnRow(s.rows, id, s.rows[id], action);
        ActedRowSound(s.rows, id, s.rows[id], s.admitted[id], action);
        if IndexAdmits(s.rows, id, row) {
          ReplaceKeepsUnique(s.rows, id, row);
          ReplaceKeepsSound(s, id, row);
        }
      }
    case Insert(id, row) =>
      if id !in s.rows && IsNew(row) && IndexAdmits(s.rows, id, row) {
        InsertKeepsInv(s, id, row);
      }
    case Spawn(eid, exec) =>
    case SweepAll(now) => SweepKeepsInv(s, now);
  }

  lemma {:induction false} RunKeepsInv(s: System, steps: seq<Step>)
    requires Inv(s)
    ensures Inv(Run(s, steps))
  {
    if steps != [] {
      RunKeepsInv(s, steps[..|steps| - 1]);
      StepKeepsInv(Run(s, steps[..|steps| - 1]), steps[|steps| - 1]);
    }
  }

  // ----- Main results -----

  /** Over every interleaving from the empty database: opinions and forecasts exist exactly when the
      run is completed, were persisted once, and passed the persistence checks; the row's input hash and
      believability snapshot are the ones it was admitted with; and the runtime seal binds both. */
  lemma ReachableRowsAreSound(steps: seq<Step>, id: Id)
    requires id in Run(Start(), steps).rows
    ensures var s := Run(Start(), steps); id in s.admitted && RowSound(id, s.rows[id], s.admitted[id])
  {
    RunKeepsInv(Start(), steps);
  }

  /** With the partial unique index, at most one live run per universe and session date has not failed, at
      any time. */
  lemma AtMostOneLiveRun(steps: seq<Step>, a: Id, b: Id)
    requires var s := Run(Start(), steps);
             a in s.rows && b in s.rows && s.rows[a].status != Failed && s.rows[b].status != Failed &&
             s.rows[a].mode == Live && s.rows[b].mode == Live && s.rows[a].key == s.rows[b].key
    ensures a == b
  {
    RunKeepsInv(Start(), steps);
  }

  /** With the partial unique index, at most one live run per universe and session date is ever
      completed. */
  lemma AtMostOneLiveCompletion(steps: seq<Step>, a: Id, b: Id)
    requires var s := Run(Start(), steps);
             a in s.rows && b in s.rows && s.rows[a].status == Completed && s.rows[b].status == Completed &&
             s.rows[a].mode == Live && s.rows[b].mode == Live && s.rows[a].key == s.rows[b].key
    ensures a == b
  {
    AtMostOneLiveRun(steps, a, b);
  }

  /** A row without the audit namespace, which the handoff service keeps annotating. */
  function Sealed(row: Row): Row {
    row.(quality := row.quality - {HANDOFF})
  }

  /** What one step makes of one row. */
  function RowAfter(s: System, step: Step, id: Id): Row
    requires id in s.rows
  {
    var row := s.rows[id];
    match step
    case Executor(eid, action) =>
      if eid in s.execs && s.execs[eid].runId == id then ExecSession(s.execs[eid], row, action).row else row
    case OnRow(other, action) =>
      if other == id && IndexAdmits(s.rows, id, ActOnRow(s.rows, id, row, action)) then ActOnRow(s.rows, id, row, action) else row
    case Insert(_, _) => row
    case Spawn(_, _) => row
    case SweepAll(now) => if Interrupted(row) then SweepOne(row, now) else row
  }

  lemma RowAfterStep(s: System, step: Step, id: Id)
    requires id in s.rows
    ensures id in Apply(s, step).rows && Apply(s, step).rows[id] == RowAfter(s, step, id)
  {
  }

  lemma CompletedRowAfter(s: System, step: Step, id: Id)
    requires Inv(s) && id in s.rows && s.rows[id].status == Completed
    ensures RowAfter(s, step, id) == s.rows[id] || exists note :: RowAfter(s, step, id) == RewriteAudit(s.rows[id], note)
  {
    match step
    case Executor(eid, action) =>
      if eid in s.execs && s.execs[eid].runId == id {
        ExecRowSound(id, s.rows[id], s.admitted[id], s.execs[eid], action);
      }
    case OnRow(other, action) =>
      if other == id {
        ActionOnCompleted(s.rows, id, s.rows[id], action);
      }
    case _ =>
  }

  lemma ActionOnCompleted(rows: map<Id, Row>, id: Id, row: Row, action: RowAction)
    requires row.status == Completed
    ensures ActOnRow(rows, id, row, action) == if action.AnnotateAudit? then RewriteAudit(row, action.note) else row
  {
  }

  lemma AuditIsOutsideSeal(row: Row, note: Id)
    ensures Sealed(RewriteAudit(row, note)) == Sealed(row)
    ensures TokenAt(RewriteAudit(row, note).quality, HANDOFF) == TokenAt(row.quality, HANDOFF)
  {
    assert RewriteAudit(row, note).quality - {HANDOFF} == row.quality - {HANDOFF};
  }

  lemma CompletedStepIsFinal(s: System, step: Step, id: Id)
    requires Inv(s) && id in s.rows && s.rows[id].status == Completed
    ensures id in Apply(s, step).rows
    ensures Sealed(Apply(s, step).rows[id]) == Sealed(s.rows[id])
    ensures TokenAt(Apply(s, step).rows[id].quality, HANDOFF) == TokenAt(s.rows[id].quality, HANDOFF)
  {
    RowAfterStep(s, step, id);
    CompletedRowAfter(s, step, id);
    if note :| RowAfter(s, step, id) == RewriteAudit(s.rows[id], note) {
      AuditIsOutsideSeal(s.rows[id], note);
    }
  }

  /** Completion is never left, and nothing that was sealed by it ever changes, whoever acts later. */
  lemma {:induction false} CompletedIsFinal(s: System, steps: seq<Step>, id: Id)
    requires Inv(s) && id in s.rows && s.rows[id].status == Completed
    ensures id in Run(s, steps).rows && Sealed(Run(s, steps).rows[id]) == Sealed(s.rows[id])
    ensures TokenAt(Run(s, steps).rows[id].quality, HANDOFF) == TokenAt(s.rows[id].quality, HANDOFF)
  {
    if steps != [] {
      var init := steps[..|steps| - 1];
      CompletedIsFinal(s, init, id);
      RunKeepsInv(s, init);
      var mid := Run(s, init);
      assert mid.rows[id].status == Sealed(mid.rows[id]).status;
      CompletedStepIsFinal(mid, steps[|steps| - 1], id);
    }
  }

  /** The one family of steps that takes a failed run back: the handoff service, whose checks all pass,
      re-arms it while no other run replaced it, or the task queue records a retryable attempt, which the unique index refuses only
      for a live run that was replaced. */
  predicate Revives(rows: map<Id, Row>, id: Id, step: Step)
    requires id in rows
  {
    && step.OnRow? && step.id == id
    && match step.rowAction
       case RearmFailed(checks, _) => checks.Pass() && !HasReplacement(rows, id, rows[id])
       case EndAttempt(terminal, _, _) => !terminal && (rows[id].mode == Live ==> !HasReplacement(rows, id, rows[id]))
       case _ => false
  }

  /** FAILED, exactly: a step takes a run out of it if and only if it is one of those two. No executor,
      sweep or API session ever does. */
  lemma FailedIsLeftIff(s: System, step: Step, id: Id)
    requires Inv(s) && id in s.rows && s.rows[id].status == Failed
    ensures id in Apply(s, step).rows
    ensures Apply(s, step).rows[id].status != Failed <==> Revives(s.rows, id, step)
  {
    RowAfterStep(s, step, id);
    match step
    case Executor(eid, action) => ExecLeavesFailed(s, eid, action, id);
    case OnRow(other, action) => ActedFailedRow(s, other, action, id);
    case _ => OthersLeaveFailed(s, step, id);
  }

  lemma ActedFailedRow(s: System, other: Id, action: RowAction, id: Id)
    requires Inv(s) && id in s.rows && s.rows[id].status == Failed
    ensures RowAfter(s, OnRow(other, action), id).status != Failed <==> Revives(s.rows, id, OnRow(other, action))
  {
    if other == id {
      ActionOnFailed(s.rows, id, s.rows[id], action);
    }
  }

  lemma OthersLeaveFailed(s: System, step: Step, id: Id)
    requires id in s.rows && s.rows[id].status == Failed && !step.Executor? && !step.OnRow?
    ensures RowAfter(s, step, id) == s.rows[id] && !Revives(s.rows, id, step)
  {
  }

  lemma ExecLeavesFailed(s: System, eid: Id, action: ExecAction, id: Id)
    requires Inv(s) && id in s.rows && s.rows[id].status == Failed
    ensures RowAfter(s, Executor(eid, action), id) == s.rows[id]
  {
    if eid in s.execs && s.execs[eid].runId == id {
      ExecRowSound(id, s.rows[id], s.admitted[id], s.execs[eid], action);
    }
  }

  lemma ActionOnFailed(rows: map<Id, Row>, id: Id, row: Row, action: RowAction)
    requires id in rows && rows[id] == row && row.status == Failed && row.outputs == []
    ensures var after := ActOnRow(rows, id, row, action);
            IndexAdmits(rows, id, after) && after.status != Failed <==> Revives(rows, id, OnRow(id, action))
  {
    match action
    case RearmFailed(_, preparedAt) => ReviveAdmitted(rows, id, row, Rearm(row, preparedAt));
    case EndAttempt(terminal, error, now) => ReviveAdmitted(rows, id, row, AttemptEnded(row, terminal, error, now));
    case _ =>
  }

  /** A row that comes back from FAILED is admitted exactly when it is not live or not replaced. */
  lemma ReviveAdmitted(rows: map<Id, Row>, id: Id, row: Row, after: Row)
    requires id in rows && after.mode == row.mode && after.key == row.key
    ensures after.status != Failed ==> (IndexAdmits(rows, id, after) <==> row.mode == Live ==> !HasReplacement(rows, id, row))
  {
  }

  /** The attempt record does bring failed runs back: any failed run that was not replaced, whoever failed
      it, is queued again by a retryable attempt that ends later. */
  lemma LateAttemptRevives(s: System, id: Id, error: string, now: int)
    requires Inv(s) && id in s.rows && s.rows[id].status == Failed && !HasReplacement(s.rows, id, s.rows[id])
    ensures Apply(s, OnRow(id, EndAttempt(false, error, now))).rows[id].status == Queued
  {
    FailedIsLeftIff(s, OnRow(id, EndAttempt(false, error, now)), id);
  }

  /** On every path to COMPLETED the executor held the running row, its frozen input hash and snapshot
      are the row's own, and the results it merged neither replaced the snapshot nor found a runtime
      seal already there. */
  lemma CompletionMatchesFrozenState(s: System, step: Step, id: Id)
    requires Inv(s) && id in s.rows && s.rows[id].status != Completed
    requires RowAfter(s, step, id).status == Completed
    ensures step.Executor? && step.eid in s.execs && step.action.Finalise? && step.action.outcome.Returned?
    ensures var e, row := s.execs[step.eid], s.rows[id];
            var after, result := RowAfter(s, step, id), step.action.outcome.result;
            && e.runId == id && row.status == Running && FenceHolds(e.fence, row.quality)
            && Some(after.inputHash) == e.frozen.inputHash
            && SnapshotKey in row.quality && row.quality[SnapshotKey].SnapshotValue?
            && e.frozen.snapshotHash == Some(row.quality[SnapshotKey].snapshot.contentHash)
            && e.frozen.binding == Some(Binding(id, row.quality[SnapshotKey].snapshot.contentHash))
            && SnapshotKey !in result.quality && RuntimeKey !in row.quality
            && after.quality == row.quality + result.quality && after.outputs == [result.outcome]
  {
    OnlyExecutorsComplete(s, step, id);
    CompletingSession(s.execs[step.eid], s.rows[id], step.action);
    CompletedFields(s.rows[id], s.admitted[id], s.execs[step.eid], step.action.outcome.result, step.action.now);
  }

  lemma OnlyExecutorsComplete(s: System, step: Step, id: Id)
    requires id in s.rows && s.rows[id].status != Completed && RowAfter(s, step, id).status == Completed
    ensures step.Executor? && step.eid in s.execs && s.execs[step.eid].runId == id
    ensures Apply(s, step).rows[id] == ExecSession(s.execs[step.eid], s.rows[id], step.action).row
  {
    RowAfterStep(s, step, id);
  }

  lemma CompletedFields(row: Row, origin: Row, e: Exec, result: GraphResult, now: int)
    requires RowSound(e.runId, row, origin) && row.status == Running
    requires SealError(e.runId, row, e.frozen).None? && InputHashMatches(row, e) && BoundaryError(row, result, e.frozen).None?
    ensures var after := CompletionValues(row, e, result, now);
            && Some(after.inputHash) == e.frozen.inputHash
            && SnapshotKey in row.quality && row.quality[SnapshotKey].SnapshotValue?
            && e.frozen.snapshotHash == Some(row.quality[SnapshotKey].snapshot.contentHash)
            && e.frozen.binding == Some(Binding(e.runId, row.quality[SnapshotKey].snapshot.contentHash))
            && SnapshotKey !in result.quality && RuntimeKey !in row.quality
            && after.quality == row.quality + result.quality && after.outputs == [result.outcome]
  {
  }

  lemma CompletingSession(e: Exec, row: Row, action: ExecAction)
    requires row.status != Completed && ExecSession(e, row, action).row.status == Completed
    ensures action.Finalise? && action.outcome.Returned? && row.status == Running && FenceHolds(e.fence, row.quality)
    ensures SealError(e.runId, row, e.frozen).None? && InputHashMatches(row, e)
    ensures BoundaryError(row, action.outcome.result, e.frozen).None?
    ensures ExecSession(e, row, action).row == CompletionValues(row, e, action.outcome.result, action.now)
  {
  }

  // ----- Persisted at most once -----

  /** How many steps of a run persisted results for `id`. */
  ghost function Commits(s: System, steps: seq<Step>, id: Id): nat {
    if steps == [] then 0
    else
      var before := Run(s, steps[..|steps| - 1]);
      var after := Apply(before, steps[|steps| - 1]);
      Commits(s, steps[..|steps| - 1], id) +
      (if id in after.rows && |after.rows[id].outputs| > (if id in before.rows then |before.rows[id].outputs| else 0) then 1 else 0)
  }

  lemma StepCommits(s: System, step: Step, id: Id)
    requires Inv(s)
    ensures id in s.rows ==> id in Apply(s, step).rows
    ensures id in s.rows && s.rows[id].status == Completed ==> Apply(s, step).rows[id].outputs == s.rows[id].outputs
    ensures id !in s.rows && id in Apply(s, step).rows ==> Apply(s, step).rows[id].outputs == []
  {
    if id in s.rows {
      RowAfterStep(s, step, id);
      if s.rows[id].status == Completed {
        CompletedStepIsFinal(s, step, id);
        SealedOutputs(Apply(s, step).rows[id], s.rows[id]);
      }
    } else {
      NewRowIsEmpty(s, step, id);
    }
  }

  lemma SealedOutputs(a: Row, b: Row)
    requires Sealed(a) == Sealed(b)
    ensures a.outputs == b.outputs
  {
    assert Sealed(a).outputs == a.outputs && Sealed(b).outputs == b.outputs;
  }

  lemma NewRowIsEmpty(s: System, step: Step, id: Id)
    requires id !in s.rows
    ensures id in Apply(s, step).rows ==> Apply(s, step).rows[id].outputs == []
  {
  }

  /** Over any interleaving at most one session persists results for a run, and one did exactly when the
      run is completed. */
  lemma {:induction false} PersistedAtMostOnce(steps: seq<Step>, id: Id)
    ensures var s := Run(Start(), steps);
            Commits(Start(), steps, id) == (if id in s.rows && s.rows[id].status == Completed then 1 else 0)
  {
    if steps != [] {
      var init := steps[..|steps| - 1];
      PersistedAtMostOnce(init, id);
      RunKeepsInv(Start(), init);
      var before := Run(Start(), init);
      StepCommits(before, steps[|steps| - 1], id);
      StepKeepsInv(before, steps[|steps| - 1]);
      if id in before.rows && before.rows[id].status == Completed {
        CompletedStepIsFinal(before, steps[|steps| - 1], id);
        assert Sealed(Apply(before, steps[|steps| - 1]).rows[id]).status == Completed;
      }
    }
  }
}
