/** The sessions of an executor without the functions that perform them: which row each leaves behind, under
    which comparisons of the executor's frozen state, its token and the results with the stored row. */
module RunContract {
  import opened Common
  import opened Committee
  import CommitteeContract
  import opened RunProtocol

  // ----- What is compared -----

  /** The status the call may start from. */
  predicate Startable(e: Exec) {
    e.expected == Queued || e.expected == AwaitingDraft || (e.expected == Running && e.allowRecovery)
  }

  /** Horizons, universe and universe hash are those of the runtime. */
  predicate SameMarket(e: Exec, row: Row) {
    e.frozen.configMatches && row.key.universeHash == e.universeHash
  }

  predicate SameInput(e: Exec, row: Row) {
    e.frozen.inputHash == Some(row.inputHash) && e.rowInputHash == row.inputHash
  }

  /** The stored believability snapshot is well formed, not applied, of the row's mode, and the one the
      executor froze, bound to this run. */
  predicate SameSnapshot(e: Exec, row: Row) {
    && SnapshotKey in row.quality && row.quality[SnapshotKey].SnapshotValue?
    && var snapshot := row.quality[SnapshotKey].snapshot;
       && snapshot.wellFormed && snapshot.mode == row.mode && !snapshot.applied
       && e.frozen.snapshotHash == Some(snapshot.contentHash) && e.frozen.policy == Some(snapshot.policy)
       && e.frozen.binding == Some(Binding(e.runId, snapshot.contentHash))
  }

  predicate Matches(e: Exec, row: Row) {
    SameMarket(e, row) && SameSnapshot(e, row) && SameInput(e, row)
  }

  /** Where the executor was given a token, it is the stored one. */
  predicate TokenIsStored(e: Exec, row: Row) {
    e.fence.Some? ==>
      e.fence.value.namespace in row.quality && row.quality[e.fence.value.namespace].Audit? &&
      row.quality[e.fence.value.namespace].token == Some(e.fence.value.token)
  }

  /** The results can be published into the row: they seal the frozen state, which nobody did before, leave
      the snapshot alone and pass the persistence checks. */
  predicate ResultFits(e: Exec, row: Row, result: GraphResult) {
    && RuntimeKey !in row.quality && SnapshotKey !in result.quality && RuntimeKey in result.quality
    && result.quality[RuntimeKey] ==
       RuntimeValue(RuntimeSeal(e.frozen.policy, e.frozen.snapshotHash, e.frozen.binding, true, false))
    && CommitteeContract.Persistable(result.outcome)
  }

  // ----- What is written -----

  function Claimed(e: Exec, row: Row): Row {
    row.(status := Running, startedAt := e.startedAt)
  }

  function Lasted(e: Exec, now: int): int {
    if e.startedAt <= now then now - e.startedAt else 0
  }

  function Published(e: Exec, row: Row, result: GraphResult, now: int): Row {
    row.(status := Completed, completedAt := Some(now), duration := Some(Lasted(e, now)), error := None, steps := result.steps,
         quality := row.quality + result.quality, outputs := row.outputs + [result.outcome])
  }

  function Marked(e: Exec, row: Row, error: string, now: int): Row {
    if e.retryable then
      row.(status := Queued, startedAt := e.startedAt, completedAt := None, duration := None, error := Some(error))
    else
      row.(status := Failed, startedAt := e.startedAt, completedAt := Some(now), duration := Some(Lasted(e, now)), error := Some(error))
  }

  // ----- The four sessions -----

  /** The reads of the first session write nothing, and pass only what matches in every respect. */
  lemma BeginContract(e: Exec, row: Row, lease: bool)
    requires e.pc.Prepared?
    ensures var after := ExecSession(e, row, BeginClaim(lease));
            && after.row == row
            && if Startable(e) && lease && row.status == e.expected
               then after.pc.Claiming? && (after.pc.verdict.None? <==> Matches(e, row))
               else after.pc == Done
  {
    VerdictIff(e, row);
  }

  lemma VerdictIff(e: Exec, row: Row)
    ensures PreparedError(e.runId, row, e).None? <==> Matches(e, row)
  {
    SealIff(e, row);
  }

  lemma SealIff(e: Exec, row: Row)
    ensures SealError(e.runId, row, e.frozen).None? <==> SameSnapshot(e, row)
    ensures InputHashMatches(row, e) <==> SameInput(e, row)
  {
  }

  lemma TokenIff(e: Exec, row: Row)
    ensures FenceHolds(e.fence, row.quality) <==> TokenIsStored(e, row)
  {
  }

  /** Its writes: the failed check, or the claim, and either only while status and token are unchanged; a
      recovering executor goes on without a write. */
  lemma EndContract(e: Exec, row: Row, now: int)
    requires e.pc.Claiming?
    ensures var after := ExecSession(e, row, EndClaim(now));
            var owned := row.status == e.expected && TokenIsStored(e, row);
            match e.pc.verdict
            case Some(error) => after == Session(if owned then Marked(e, row, error, now) else row, Done)
            case None =>
              if e.expected == Running && e.allowRecovery then after == Session(row, InGraph)
              else if owned then after == Session(Claimed(e, row), InGraph)
              else after == Session(row, Done)
  {
    TokenIff(e, row);
  }

  /** After the graph: everything is published, on a running row under the token, with unchanged seals and
      fitting results, or nothing is written; and a lost lease writes nothing. */
  lemma FinaliseContract(e: Exec, row: Row, outcome: GraphOutcome, lease: bool, now: int)
    requires e.pc == InGraph
    ensures var after := ExecSession(e, row, Finalise(outcome, lease, now));
            match outcome
            case Raised(error) => after == Session(row, Failing(error))
            case Returned(result) =>
              if !lease then after == Session(row, Done)
              else if row.status == Running && TokenIsStored(e, row) then
                if SameSnapshot(e, row) && SameInput(e, row) && ResultFits(e, row, result)
                then after == Session(Published(e, row, result, now), Done)
                else after.row == row && after.pc.Failing?
              else after.row == row && if e.fence.Some? then after.pc == Done else after.pc.Failing?
  {
    TokenIff(e, row);
    if outcome.Returned? {
      FinaliseErrorIff(e, row, outcome.result);
    }
  }

  lemma FinaliseErrorIff(e: Exec, row: Row, result: GraphResult)
    ensures FinaliseError(e, row, result).None? <==> SameSnapshot(e, row) && SameInput(e, row) && ResultFits(e, row, result)
  {
    SealIff(e, row);
    CommitteeContract.PersistAcceptsIff(result.outcome);
  }

  lemma FailureContract(e: Exec, row: Row, lease: bool, now: int)
    requires e.pc.Failing?
    ensures ExecSession(e, row, RecordFailure(lease, now)) ==
            Session(if lease && row.status == Running && TokenIsStored(e, row) then Marked(e, row, e.pc.error, now) else row, Done)
  {
    TokenIff(e, row);
  }

  /** A session that finds its task's lease lost writes nothing, whoever's run it is and wherever the
      executor stands. */
  lemma LostLeaseWritesNothing(s: System, eid: Id, action: ExecAction)
    requires match action
             case BeginClaim(lease) => !lease
             case EndClaim(_) => false
             case Finalise(_, lease, _) => !lease
             case RecordFailure(lease, _) => !lease
    ensures Apply(s, Executor(eid, action)).rows == s.rows
  {
    if eid in s.execs && s.execs[eid].runId in s.rows {
      var e, row := s.execs[eid], s.rows[s.execs[eid].runId];
      LostLeaseKeepsRow(e, row, action);
      assert s.rows[e.runId := row] == s.rows;
    }
  }

  lemma LostLeaseKeepsRow(e: Exec, row: Row, action: ExecAction)
    requires match action
             case BeginClaim(lease) => !lease
             case EndClaim(_) => false
             case Finalise(_, lease, _) => !lease
             case RecordFailure(lease, _) => !lease
    ensures ExecSession(e, row, action).row == row
  {
    match action
    case BeginClaim(lease) =>
    case Finalise(outcome, lease, now) =>
      if e.pc == InGraph {
        FinaliseContract(e, row, outcome, lease, now);
      }
    case RecordFailure(lease, now) =>
    case _ =>
  }
}
