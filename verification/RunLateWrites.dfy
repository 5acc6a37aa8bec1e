/** Writers that read a run, decide, and later write by primary key without repeating what they read: the
    startup sweep and the two failure paths of run preparation. As single sessions they are steps of
    RunProtocol.dfy; here their reads and writes are apart. */
module RunLateWrites {
  import opened Common
  import opened Committee
  import opened RunProtocol
  import opened RunSafety

  // ----- The startup sweep -----

  function InterruptedIn(rows: map<Id, Row>): set<Id> {
    set id | id in rows && Interrupted(rows[id])
  }

  /** The sweep's writes when its rows were selected earlier: the UPDATE names only the primary key, so
      it lands on whatever the row has become. */
  function LateSweep(rows: map<Id, Row>, selected: set<Id>, now: int): map<Id, Row> {
    map id | id in rows :: if id in selected then SweepOne(rows[id], now) else rows[id]
  }

  /** Selecting and writing in one atomic session is the special case with nothing in between. */
  lemma AtomicSweepIsLateSweep(rows: map<Id, Row>, now: int)
    ensures Sweep(rows, now) == LateSweep(rows, InterruptedIn(rows), now)
  {
  }

  /** Separated from its SELECT, the sweep keeps the row invariant exactly when none of the selected
      runs was completed in between. */
  lemma LateSweepIsSoundIff(s: System, selected: set<Id>, now: int)
    requires Inv(s) && selected <= s.rows.Keys
    ensures RowsSound(s.(rows := LateSweep(s.rows, selected, now))) <==> forall id :: id in selected ==> s.rows[id].status != Completed
  {
    var rows := LateSweep(s.rows, selected, now);
    if forall id :: id in selected ==> s.rows[id].status != Completed {
      forall id | id in rows ensures RowSound(id, rows[id], s.admitted[id]) {
        LateSweptRow(id, s.rows[id], s.admitted[id], id in selected, now);
      }
    } else {
      var id :| id in selected && s.rows[id].status == Completed;
      assert rows[id] == SweepOne(s.rows[id], now);
      assert !RowSound(id, rows[id], s.admitted[id]);
    }
  }

  lemma LateSweptRow(id: Id, row: Row, origin: Row, selected: bool, now: int)
    requires RowSound(id, row, origin) && (selected ==> row.status != Completed)
    ensures RowSound(id, if selected then SweepOne(row, now) else row, origin)
  {
  }

  /** The schedule behind that condition: any executor that completes a run without a task between the
      sweep's SELECT and its UPDATE leaves a FAILED run that holds published results. */
  lemma LateSweepOverwritesCompletion(s: System, eid: Id, outcome: GraphOutcome, now: int, later: int)
    requires Inv(s) && eid in s.execs && s.execs[eid].runId in s.rows
    requires !s.rows[s.execs[eid].runId].hasTask
    requires s.rows[s.execs[eid].runId].status != Completed
    requires ApplyExec(s, eid, Finalise(outcome, true, now)).rows[s.execs[eid].runId].status == Completed
    ensures var id := s.execs[eid].runId;
            var rows := LateSweep(ApplyExec(s, eid, Finalise(outcome, true, now)).rows, InterruptedIn(s.rows), later);
            rows[id].status == Failed && |rows[id].outputs| == 1
  {
    var id := s.execs[eid].runId;
    ExecRowSound(id, s.rows[id], s.admitted[id], s.execs[eid], Finalise(outcome, true, now));
    assert s.rows[id].status == Running;
    assert id in InterruptedIn(s.rows);
  }

  // ----- The failure of a preparation -----

  lemma {:induction false} RowsStay(s: System, steps: seq<Step>, id: Id)
    requires id in s.rows
    ensures id in Run(s, steps).rows
  {
    if steps != [] {
      RowsStay(s, steps[..|steps| - 1], id);
      RowAfterStep(Run(s, steps[..|steps| - 1]), steps[|steps| - 1], id);
    }
  }

  lemma FailedAtIsSoundIff(s: System, id: Id, startedAt: int, error: string, now: int)
    requires Inv(s) && id in s.rows
    ensures Inv(s.(rows := s.rows[id := FailedAt(s.rows[id], startedAt, error, now)])) <==> s.rows[id].status != Completed
  {
    var row := FailedAt(s.rows[id], startedAt, error, now);
    var after := s.(rows := s.rows[id := row]);
    if s.rows[id].status != Completed {
      FailedAtIsSound(id, s.rows[id], s.admitted[id], startedAt, error, now);
      ReplaceKeepsSound(s, id, row);
      ReplaceKeepsUnique(s.rows, id, row);
    } else {
      assert after.rows[id] == row && !RowSound(id, row, s.admitted[id]);
    }
  }

  lemma FailedAtIsSound(id: Id, row: Row, origin: Row, startedAt: int, error: string, now: int)
    requires RowSound(id, row, origin) && row.status != Completed
    ensures RowSound(id, FailedAt(row, startedAt, error, now), origin)
  {
  }

  /** A run that was read in its initial status and is failed by key after any other steps: the invariant
      is kept exactly when the run was not completed in between. With nothing in between this is the
      atomic step. */
  lemma LateFailIsSoundIff(s: System, steps: seq<Step>, id: Id, initial: Status, error: string, now: int)
    requires Inv(s) && id in s.rows && s.rows[id].status == initial != Completed
    ensures id in Run(s, steps).rows
    ensures var t := Run(s, steps);
            var row := FailedAt(t.rows[id], s.rows[id].startedAt, error, now);
            && (Inv(t.(rows := t.rows[id := row])) <==> t.rows[id].status != Completed)
            && (steps == [] ==> row == FailInitial(s.rows[id], initial, error, now))
  {
    RowsStay(s, steps, id);
    RunKeepsInv(s, steps);
    FailedAtIsSoundIff(Run(s, steps), id, s.rows[id].startedAt, error, now);
  }
}
