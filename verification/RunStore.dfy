/** The sessions of RunProtocol.dfy as the code that performs them: statements against a mutable table of
    runs. Every method is proved to take exactly the corresponding step of the transition system, so
    everything proved about schedules of steps holds of schedules of these calls. */
module RunStore {
  import opened Common
  import Committee
  import opened RunProtocol
  import opened RunContract
  import opened RunSafety
  import opened RunLateWrites

  class Deployment {
    var rows: map<Id, Row>
    /** The calls of `execute_prepared` in flight. */
    var execs: map<Id, Exec>
    ghost var admitted: map<Id, Row>

    ghost function State(): System
      reads this
    {
      System(rows, execs, admitted)
    }

    constructor ()
      ensures State() == Start()
    {
      rows, execs, admitted := map[], map[], map[];
    }

    // ----- Statements -----

    /** `UPDATE workflow_runs SET ... WHERE id AND status AND execution token`, as a compare-and-swap. */
    method GuardedUpdate(id: Id, status: Status, fence: Option<Fence>, values: Row) returns (rowcount: nat)
      requires id in rows
      modifies this`rows
      ensures rowcount == if old(rows)[id].status == status && FenceHolds(fence, old(rows)[id].quality) then 1 else 0
      ensures rows == old(rows)[id := if rowcount == 1 then values else old(rows)[id]]
    {
      if rows[id].status == status && FenceHolds(fence, rows[id].quality) {
        rows := rows[id := values];
        rowcount := 1;
      } else {
        assert rows == rows[id := rows[id]];
        rowcount := 0;
      }
    }

    /** A write that the partial unique index may refuse. */
    method Store(id: Id, row: Row) returns (stored: bool)
      modifies this`rows
      ensures stored <==> IndexAdmits(old(rows), id, row)
      ensures rows == if stored then old(rows)[id := row] else old(rows)
    {
      stored := IndexAdmits(rows, id, row);
      if stored {
        rows := rows[id := row];
      }
    }

    // ----- The API -----

    method CreateRun(id: Id, key: LiveKey, inputHash: Id, mode: Mode, initial: Status, snapshot: Snapshot, startedAt: int,
                     hasTask: bool)
      returns (created: bool)
      requires IsInitial(initial)
      modifies this
      ensures var row := NewRow(key, inputHash, mode, initial, snapshot, startedAt, hasTask);
              State() == Apply(old(State()), Insert(id, row)) &&
              (created <==> id !in old(rows) && IndexAdmits(old(rows), id, row))
    {
      var row := NewRow(key, inputHash, mode, initial, snapshot, startedAt, hasTask);
      created := false;
      if id !in rows {
        created := Store(id, row);
        if created {
          admitted := admitted[id := row];
        }
      }
    }

    method FailUnqueuedPreparedRun(id: Id, error: string, now: int)
      modifies this`rows
      ensures State() == Apply(old(State()), OnRow(id, FailUnqueued(error, now)))
    {
      if id !in rows { return; }
      var row := rows[id];
      if row.status == Queued {
        row := row.(status := Failed);
        row := row.(completedAt := Some(now), duration := Some(Elapsed(row.startedAt, now)));
        row := row.(error := Some(error));
      } else {
        assert rows == rows[id := row];
      }
      var _ := Store(id, row);
    }

    // ----- The startup sweep -----

    /** `_fail_interrupted_runs` */
    method FailInterruptedRuns(now: int) returns (count: nat)
      modifies this`rows
      ensures State() == Apply(old(State()), SweepAll(now))
      ensures count == |InterruptedIn(old(rows))|
    {
      var selected := set id | id in rows && Interrupted(rows[id]);
      var pending := selected;
      SweptNone(rows, now);
      while pending != {}
        invariant pending <= selected == InterruptedIn(old(rows))
        invariant rows == LateSweep(old(rows), selected - pending, now)
        decreases pending
      {
        var id :| id in pending;
        SweptOne(old(rows), selected - pending, id, now);
        var row := rows[id];
        row := row.(status := Failed);
        row := row.(completedAt := Some(now));
        row := row.(duration := Some(Elapsed(row.startedAt, now)));
        row := row.(error := Some("Interrupted legacy run"));
        rows := rows[id := row];
        assert selected - (pending - {id}) == selected - pending + {id};
        pending := pending - {id};
      }
      count := |selected|;
      assert selected - pending == InterruptedIn(old(rows));
      AtomicSweepIsLateSweep(old(rows), now);
    }

    // ----- An executor -----

    method SpawnExecutor(eid: Id, e: Exec)
      requires eid !in execs && e.pc.Prepared?
      modifies this`execs
      ensures State() == Apply(old(State()), Spawn(eid, e))
    {
      execs := execs[eid := e];
    }

    method Advance(eid: Id, pc: Pc)
      requires eid in execs
      modifies this`execs
      ensures execs == old(execs)[eid := old(execs)[eid].(pc := pc)]
    {
      execs := execs[eid := execs[eid].(pc := pc)];
    }

    /** The first session up to its checks. */
    method BeginClaimSession(eid: Id, leaseHolds: bool)
      requires eid in execs && execs[eid].pc.Prepared?
      modifies this`execs
      ensures State() == Apply(old(State()), Executor(eid, BeginClaim(leaseHolds)))
    {
      var e := execs[eid];
      var pc := Done;
      if e.runId in rows {
        var persistent := rows[e.runId];
        if MayStart(e) && leaseHolds && persistent.status == e.expected {
          pc := Claiming(PreparedError(e.runId, persistent, e));
        }
        assert rows == rows[e.runId := persistent];
      }
      Advance(eid, pc);
    }

    /** The writes of the first session: record the failed check, or claim the run. */
    method EndClaimSession(eid: Id, now: int)
      requires eid in execs && execs[eid].pc.Claiming?
      modifies this`execs, this`rows
      ensures State() == Apply(old(State()), Executor(eid, EndClaim(now)))
    {
      var e := execs[eid];
      var pc := Done;
      if e.runId in rows {
        var persistent := rows[e.runId];
        if e.pc.verdict.Some? {
          var values := FailureValues(persistent, e.pc.verdict.value, e.startedAt, now, e.retryable);
          var _ := GuardedUpdate(e.runId, e.expected, e.fence, values);
        } else if Recovering(e) {
          assert rows == rows[e.runId := persistent];
          pc := InGraph;
        } else {
          var values := persistent.(status := Running, startedAt := e.startedAt);
          var claimed := GuardedUpdate(e.runId, e.expected, e.fence, values);
          if claimed == 1 {
            pc := InGraph;
          }
        }
      }
      Advance(eid, pc);
    }

    /** What the finalising session decides before it writes anything. */
    method FinaliseVerdict(e: Exec, row: Row, outcome: GraphOutcome, leaseHolds: bool) returns (verdict: Pc)
      requires e.pc.InGraph?
      ensures verdict == InGraph ==> outcome.Returned?
      ensures forall now :: FinaliseWrite(e, row, outcome, leaseHolds, now) == Decided(e, row, outcome, verdict, now)
    {
      if outcome.Raised? {
        return Failing(outcome.error);
      }
      if !leaseHolds {
        return Done;
      }
      if row.status != Running || !FenceHolds(e.fence, row.quality) {
        return if e.fence.Some? then Done else Failing("run changed status during workflow execution");
      }
      var broken := SealError(e.runId, row, e.frozen);
      if broken.Some? {
        return Failing(broken.value);
      }
      if !InputHashMatches(row, e) {
        return Failing("prepared run input hash changed during workflow execution");
      }
      broken := BoundaryError(row, outcome.result, e.frozen);
      if broken.Some? {
        return Failing(broken.value);
      }
      if !Committee.PersistAccepts(outcome.result.outcome) {
        return Failing("new opinion direction must match");
      }
      return InGraph;
    }

    /** The session after the graph: results, status and merged audit are committed together or not at
        all. */
    method FinaliseSession(eid: Id, outcome: GraphOutcome, leaseHolds: bool, now: int)
      requires eid in execs && execs[eid].pc.InGraph?
      modifies this`execs, this`rows
      ensures State() == Apply(old(State()), Executor(eid, Finalise(outcome, leaseHolds, now)))
    {
      var e := execs[eid];
      var pc := Done;
      if e.runId in rows {
        var row := rows[e.runId];
        pc := FinaliseVerdict(e, row, outcome, leaseHolds);
        if pc == InGraph {
          var result := outcome.result;
          row := row.(outputs := row.outputs + [result.outcome]);
          row := row.(status := Completed, completedAt := Some(now));
          row := row.(duration := Some(Elapsed(e.startedAt, now)), error := None);
          row := row.(steps := result.steps);
          row := row.(quality := row.quality + result.quality);
          pc := Done;
        }
        rows := rows[e.runId := row];
      }
      Advance(eid, pc);
    }

    /** The session that records an execution failure. */
    method FailureSession(eid: Id, leaseHolds: bool, now: int)
      requires eid in execs && execs[eid].pc.Failing?
      modifies this`execs, this`rows
      ensures State() == Apply(old(State()), Executor(eid, RecordFailure(leaseHolds, now)))
    {
      var e := execs[eid];
      if e.runId in rows {
        if leaseHolds {
          var values := FailureValues(rows[e.runId], e.pc.error, e.startedAt, now, e.retryable);
          var _ := GuardedUpdate(e.runId, Running, e.fence, values);
        } else {
          assert rows == rows[e.runId := rows[e.runId]];
        }
      }
      Advance(eid, Done);
    }

    /** One whole call with nobody else in between. With its lease it completes the run exactly when every
        check passes. */
    method ExecutePrepared(eid: Id, e: Exec, outcome: GraphOutcome, leaseHolds: bool, now: int)
      requires eid !in execs && e.pc.Prepared?
      modifies this`execs, this`rows
      ensures State() == Alone(Apply(old(State()), Spawn(eid, e)), eid, outcome, leaseHolds, now)
      ensures leaseHolds && e.runId in old(rows) && old(rows)[e.runId].status != Completed ==>
                (e.runId in rows && (rows[e.runId].status == Completed <==> MayPublish(e, old(rows)[e.runId], outcome)))
    {
      SpawnExecutor(eid, e);
      ghost var spawned := State();
      RunSessions(eid, outcome, leaseHolds, now);
      if leaseHolds && e.runId in old(rows) && old(rows)[e.runId].status != Completed {
        AloneCompletesIff(spawned, eid, outcome, now);
      }
    }

    /** The sessions of a call, in order. */
    method RunSessions(eid: Id, outcome: GraphOutcome, leaseHolds: bool, now: int)
      requires eid in execs && execs[eid].pc.Prepared?
      modifies this`execs, this`rows
      ensures State() == Alone(old(State()), eid, outcome, leaseHolds, now)
    {
      BeginClaimSession(eid, leaseHolds);
      if execs[eid].pc.Claiming? {
        EndClaimSession(eid, now);
      } else {
        IdleStep(State(), eid, EndClaim(now));
      }
      if execs[eid].pc.InGraph? {
        FinaliseSession(eid, outcome, leaseHolds, now);
      } else {
        IdleStep(State(), eid, Finalise(outcome, leaseHolds, now));
      }
      if execs[eid].pc.Failing? {
        FailureSession(eid, leaseHolds, now);
      } else {
        IdleStep(State(), eid, RecordFailure(leaseHolds, now));
      }
    }

    // ----- The file-handoff service and the task queue -----

    method MarkPrepareFailed(id: Id, error: string, now: int)
      modifies this`rows
      ensures State() == Apply(old(State()), OnRow(id, FailPreparation(error, now)))
    {
      if id !in rows { return; }
      var row := rows[id];
      if row.status == AwaitingDraft {
        row := row.(status := Failed);
        row := row.(completedAt := Some(now), duration := Some(Elapsed(row.startedAt, now)));
        row := row.(error := Some(error));
      } else {
        assert rows == rows[id := row];
      }
      var _ := Store(id, row);
    }

    method RecoverInterruptedAttempt(id: Id, checks: ServiceChecks, now: int)
      modifies this`rows
      ensures State() == Apply(old(State()), OnRow(id, RecoverRunner(checks, now)))
    {
      if id !in rows { return; }
      var row := rows[id];
      if row.status == Running && checks.Pass() && row.outputs == [] && !HasReplacement(rows, id, row) {
        row := RecoverInterrupted(row, now);
      } else {
        assert rows == rows[id := row];
      }
      var _ := Store(id, row);
    }

    method RearmFailedRun(id: Id, checks: ServiceChecks, preparedAt: int)
      modifies this`rows
      ensures State() == Apply(old(State()), OnRow(id, RearmFailed(checks, preparedAt)))
    {
      if id !in rows { return; }
      var row := rows[id];
      if row.status == Failed && checks.Pass() && row.outputs == [] && !HasReplacement(rows, id, row) {
        row := Rearm(row, preparedAt);
      } else {
        assert rows == rows[id := row];
      }
      var _ := Store(id, row);
    }

    /** The task that `enqueue` adds for a run that is already stored. */
    method EnqueuePrepared(id: Id, prepared: Status, inputHash: Id) returns (enqueued: bool)
      requires IsInitial(prepared)
      modifies this`rows
      ensures State() == Apply(old(State()), OnRow(id, EnqueueTask(prepared, inputHash)))
      ensures enqueued ==> id in rows && rows[id].hasTask
    {
      enqueued := false;
      if id !in rows { return; }
      var row := rows[id];
      if row.status == prepared && row.inputHash == inputHash {
        row := row.(hasTask := true);
      } else {
        assert rows == rows[id := row];
      }
      var stored := Store(id, row);
      enqueued := stored && row.hasTask;
    }

    method UpdateRunAfterAttempt(id: Id, terminal: bool, error: string, now: int)
      modifies this`rows
      ensures State() == Apply(old(State()), OnRow(id, EndAttempt(terminal, error, now)))
    {
      if id !in rows { return; }
      var row := rows[id];
      if row.status != Completed {
        row := row.(error := Some(error));
        if terminal {
          row := row.(status := Failed, completedAt := Some(now));
        } else {
          row := row.(status := Queued, completedAt := None, duration := None);
        }
      } else {
        assert rows == rows[id := row];
      }
      var _ := Store(id, row);
    }
  }

  // ----- The sweep, row by row -----

  lemma SweptNone(rows: map<Id, Row>, now: int)
    ensures rows == LateSweep(rows, {}, now)
  {
  }

  lemma SweptOne(rows: map<Id, Row>, done: set<Id>, id: Id, now: int)
    requires id in rows && id !in done
    ensures id in LateSweep(rows, done, now) && LateSweep(rows, done, now)[id] == rows[id]
    ensures LateSweep(rows, done, now)[id := SweepOne(rows[id], now)] == LateSweep(rows, done + {id}, now)
  {
  }

  /** The session a verdict stands for. */
  function Decided(e: Exec, row: Row, outcome: GraphOutcome, verdict: Pc, now: int): Session
    requires verdict == InGraph ==> outcome.Returned?
  {
    if verdict == InGraph then Session(CompletionValues(row, e, outcome.result, now), Done) else Session(row, verdict)
  }

  // ----- One undisturbed call -----

  /** The four sessions of one call, back to back. */
  function Alone(s: System, eid: Id, outcome: GraphOutcome, leaseHolds: bool, now: int): System {
    var s1 := ApplyExec(s, eid, BeginClaim(leaseHolds));
    var s2 := ApplyExec(s1, eid, EndClaim(now));
    var s3 := ApplyExec(s2, eid, Finalise(outcome, leaseHolds, now));
    ApplyExec(s3, eid, RecordFailure(leaseHolds, now))
  }

  /** A session whose program counter is elsewhere does nothing. */
  lemma IdleStep(s: System, eid: Id, action: ExecAction)
    requires eid in s.execs
    requires match action
             case BeginClaim(_) => !s.execs[eid].pc.Prepared?
             case EndClaim(_) => !s.execs[eid].pc.Claiming?
             case Finalise(_, _, _) => !s.execs[eid].pc.InGraph?
             case RecordFailure(_, _) => !s.execs[eid].pc.Failing?
    requires s.execs[eid].runId !in s.rows ==> s.execs[eid].pc.Done?
    ensures ApplyExec(s, eid, action) == s
  {
    var e := s.execs[eid];
    assert s.execs[eid := e] == s.execs;
    if e.runId in s.rows {
      assert s.rows[e.runId := s.rows[e.runId]] == s.rows;
    }
  }

  /** The same four sessions on the executor's own row. */
  function AloneSession(e: Exec, row: Row, outcome: GraphOutcome, leaseHolds: bool, now: int): Session {
    var claimed := AloneClaim(e, row, leaseHolds, now);
    AloneFinish(e.(pc := claimed.pc), claimed.row, outcome, leaseHolds, now)
  }

  function AloneClaim(e: Exec, row: Row, leaseHolds: bool, now: int): Session {
    var s1 := ExecSession(e, row, BeginClaim(leaseHolds));
    ExecSession(e.(pc := s1.pc), s1.row, EndClaim(now))
  }

  function AloneFinish(e: Exec, row: Row, outcome: GraphOutcome, leaseHolds: bool, now: int): Session {
    var s3 := ExecSession(e, row, Finalise(outcome, leaseHolds, now));
    ExecSession(e.(pc := s3.pc), s3.row, RecordFailure(leaseHolds, now))
  }

  /** The system with one executor and its row replaced. */
  function Put(s: System, eid: Id, e: Exec, row: Row): System {
    s.(rows := s.rows[e.runId := row], execs := s.execs[eid := e])
  }

  lemma PutStep(s: System, eid: Id, e: Exec, row: Row, action: ExecAction)
    ensures var session := ExecSession(e, row, action);
            ApplyExec(Put(s, eid, e, row), eid, action) == Put(s, eid, e.(pc := session.pc), session.row)
  {
    var session := ExecSession(e, row, action);
    assert s.rows[e.runId := row][e.runId := session.row] == s.rows[e.runId := session.row];
    assert s.execs[eid := e][eid := e.(pc := session.pc)] == s.execs[eid := e.(pc := session.pc)];
  }

  lemma AloneIsOnItsRow(s: System, eid: Id, outcome: GraphOutcome, leaseHolds: bool, now: int)
    requires eid in s.execs && s.execs[eid].runId in s.rows
    ensures var e := s.execs[eid];
            var session := AloneSession(e, s.rows[e.runId], outcome, leaseHolds, now);
            Alone(s, eid, outcome, leaseHolds, now) == Put(s, eid, e.(pc := session.pc), session.row)
  {
    var e, row := s.execs[eid], s.rows[s.execs[eid].runId];
    assert s.rows[e.runId := row] == s.rows && s.execs[eid := e] == s.execs;
    assert Put(s, eid, e, row) == s;
    PutStep(s, eid, e, row, BeginClaim(leaseHolds));
    var s1 := ExecSession(e, row, BeginClaim(leaseHolds));
    PutStep(s, eid, e.(pc := s1.pc), s1.row, EndClaim(now));
    var s2 := ExecSession(e.(pc := s1.pc), s1.row, EndClaim(now));
    PutStep(s, eid, e.(pc := s2.pc), s2.row, Finalise(outcome, leaseHolds, now));
    var s3 := ExecSession(e.(pc := s2.pc), s2.row, Finalise(outcome, leaseHolds, now));
    PutStep(s, eid, e.(pc := s3.pc), s3.row, RecordFailure(leaseHolds, now));
  }

  /** Whether this call, undisturbed, takes the run: it may start, from the stored status, under the stored
      token. */
  predicate MayTake(e: Exec, row: Row) {
    Startable(e) && row.status == e.expected && TokenIsStored(e, row)
  }

  /** Whether it then publishes: what it was prepared for is the stored run, and its results fit. */
  predicate MayPublish(e: Exec, row: Row, outcome: GraphOutcome) {
    && MayTake(e, row)
    && e.frozen.configMatches && row.key.universeHash == e.universeHash
    && e.frozen.inputHash == Some(row.inputHash) && e.rowInputHash == row.inputHash
    && SameSnapshot(e, row)
    && outcome.Returned? && ResultFits(e, row, outcome.result)
  }

  predicate IsRecovering(e: Exec) {
    e.expected == Running && e.allowRecovery
  }

  /** The row as the claiming session leaves it to the graph. */
  function TakenRow(e: Exec, row: Row): Row {
    if IsRecovering(e) then row else Claimed(e, row)
  }

  lemma ClaimHalf(e: Exec, row: Row, now: int)
    requires e.pc.Prepared?
    ensures var s2 := AloneClaim(e, row, true, now);
            if Startable(e) && row.status == e.expected && Matches(e, row) && (IsRecovering(e) || TokenIsStored(e, row))
            then s2 == Session(TakenRow(e, row), InGraph)
            else s2.pc == Done && if MayTake(e, row) then IsMarked(e, row, s2.row, now) else s2.row == row
  {
    BeginContract(e, row, true);
    var s1 := ExecSession(e, row, BeginClaim(true));
    if s1.pc.Claiming? {
      EndContract(e.(pc := s1.pc), row, now);
    }
  }

  /** The row with the failure recorded, under some error. */
  predicate IsMarked(e: Exec, row: Row, after: Row, now: int) {
    after.error.Some? && after == Marked(e, row, after.error.value, now)
  }

  lemma MarkedOver(e: Exec, row: Row, error: string, now: int)
    ensures Marked(e, TakenRow(e, row), error, now).(status := row.status) == Marked(e, row, error, now).(status := row.status)
    ensures Marked(e, TakenRow(e, row), error, now) == Marked(e, row, error, now)
  {
  }

  /** The second half, on a running row that matches. */
  lemma FinishHalf(e: Exec, row: Row, outcome: GraphOutcome, now: int)
    requires e.pc == InGraph && row.status == Running && Matches(e, row)
    ensures var s4 := AloneFinish(e, row, outcome, true, now);
            && s4.pc == Done
            && if !TokenIsStored(e, row) then s4.row == row
               else if outcome.Returned? && ResultFits(e, row, outcome.result) then s4.row == Published(e, row, outcome.result, now)
               else IsMarked(e, row, s4.row, now) && (outcome.Raised? ==> s4.row.error == Some(outcome.error))
  {
    FinaliseContract(e, row, outcome, true, now);
    var s3 := ExecSession(e, row, Finalise(outcome, true, now));
    if s3.pc.Failing? {
      FailureContract(e.(pc := s3.pc), s3.row, true, now);
    }
  }

  lemma TakenKeepsChecks(e: Exec, row: Row)
    requires Matches(e, row) && row.status == e.expected
    ensures var taken := TakenRow(e, row);
            && taken.status == Running && Matches(e.(pc := InGraph), taken)
            && (TokenIsStored(e.(pc := InGraph), taken) <==> TokenIsStored(e, row))
            && forall result :: ResultFits(e.(pc := InGraph), taken, result) <==> ResultFits(e, row, result)
  {
    var taken := TakenRow(e, row);
    assert taken.quality == row.quality;
    forall result ensures ResultFits(e.(pc := InGraph), taken, result) <==> ResultFits(e, row, result) {
    }
  }

  /** How an undisturbed call ends. */
  predicate Ends(e: Exec, row: Row, outcome: GraphOutcome, now: int, after: Session) {
    && after.pc == Done
    && (if MayPublish(e, row, outcome) then after.row == Published(e, TakenRow(e, row), outcome.result, now)
        else if MayTake(e, row) then IsMarked(e, row, after.row, now)
        else after.row == row)
    && (MayTake(e, row) && Matches(e, row) && outcome.Raised? ==> after.row.error == Some(outcome.error))
  }

  lemma EndsNever(e: Exec, row: Row, outcome: GraphOutcome, now: int, after: Session)
    requires Ends(e, row, outcome, now, after) && row.status != Completed
    ensures after.row.status == Completed <==> MayPublish(e, row, outcome)
    ensures after.row.status == Running ==> after.row == row
    ensures after.row.outputs != row.outputs ==> after.row.status == Completed
  {
  }

  lemma CallEnds(e: Exec, row: Row, outcome: GraphOutcome, now: int)
    requires e.pc.Prepared?
    ensures Ends(e, row, outcome, now, AloneSession(e, row, outcome, true, now))
  {
    ClaimHalf(e, row, now);
    var claimed := AloneClaim(e, row, true, now);
    if claimed.pc == InGraph {
      TakenCallEnds(e, row, outcome, now);
    } else {
      RefusedCallEnds(e, claimed.row, outcome, now);
    }
  }

  /** An undisturbed call with its lease completes the run exactly when every comparison holds, with exactly
      its results; where it takes the run without completing it, it records the failure as its policy
      says; and otherwise it leaves the run alone. So it never strands a run in RUNNING. */
  lemma UndisturbedCallCompletesIff(e: Exec, row: Row, outcome: GraphOutcome, now: int)
    requires e.pc.Prepared? && row.status != Completed
    ensures var after := AloneSession(e, row, outcome, true, now);
            && after.pc == Done
            && (if MayPublish(e, row, outcome) then after.row == Published(e, TakenRow(e, row), outcome.result, now)
                else if MayTake(e, row) then IsMarked(e, row, after.row, now)
                else after.row == row)
            && (MayTake(e, row) && Matches(e, row) && outcome.Raised? ==> after.row.error == Some(outcome.error))
            && (after.row.status == Completed <==> MayPublish(e, row, outcome))
            && (after.row.status == Running ==> after.row == row)
            && (after.row.outputs != row.outputs ==> after.row.status == Completed)
  {
    CallEnds(e, row, outcome, now);
    EndsNever(e, row, outcome, now, AloneSession(e, row, outcome, true, now));
  }

  lemma TakenCallEnds(e: Exec, row: Row, outcome: GraphOutcome, now: int)
    requires Startable(e) && row.status == e.expected && Matches(e, row) && (IsRecovering(e) || TokenIsStored(e, row))
    ensures Ends(e, row, outcome, now, AloneFinish(e.(pc := InGraph), TakenRow(e, row), outcome, true, now))
  {
    TakenKeepsChecks(e, row);
    var running := e.(pc := InGraph);
    FinishHalf(running, TakenRow(e, row), outcome, now);
    var after := AloneFinish(running, TakenRow(e, row), outcome, true, now);
    if MayTake(e, row) && !MayPublish(e, row, outcome) {
      MarkedOver(running, row, after.row.error.value, now);
    }
  }

  lemma RefusedCallEnds(e: Exec, row: Row, outcome: GraphOutcome, now: int)
    ensures AloneFinish(e.(pc := Done), row, outcome, true, now) == Session(row, Done)
  {
  }

  /** The same of the whole deployment: the call completes its run exactly when every comparison holds, and
      changes nothing but its own row and executor. */
  lemma AloneCompletesIff(s: System, eid: Id, outcome: GraphOutcome, now: int)
    requires eid in s.execs && s.execs[eid].pc.Prepared? && s.execs[eid].runId in s.rows
    requires s.rows[s.execs[eid].runId].status != Completed
    ensures var e, after := s.execs[eid], Alone(s, eid, outcome, true, now);
            var row := s.rows[e.runId];
            && e.runId in after.rows && after == Put(s, eid, e.(pc := Done), after.rows[e.runId])
            && (after.rows[e.runId].status == Completed <==> MayPublish(e, row, outcome))
            && (after.rows[e.runId].status == Running ==> after.rows[e.runId] == row)
  {
    var e := s.execs[eid];
    AloneIsOnItsRow(s, eid, outcome, true, now);
    UndisturbedCallCompletesIff(e, s.rows[e.runId], outcome, now);
  }
}
