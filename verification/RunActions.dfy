/** The sessions of everyone but the executors without the functions that perform them: what the API, the
    startup sweep, the file-handoff service and the task queue leave in the table of runs. */
module RunActions {
  import opened Common
  import opened RunProtocol
  import opened RunSafety

  /** Another live run for the same universe and session date has not failed. */
  predicate LiveRival(rows: map<Id, Row>, id: Id, key: LiveKey) {
    exists other :: other in rows && other != id && rows[other].mode == Live && rows[other].status != Failed && rows[other].key == key
  }

  /** Another run of the same mode, universe and session date has not failed. */
  predicate Rival(rows: map<Id, Row>, id: Id)
    requires id in rows
  {
    exists other :: other in rows && other != id && rows[other].mode == rows[id].mode && rows[other].status != Failed &&
                    rows[other].key == rows[id].key
  }

  function Gone(row: Row, error: string, now: int): Row {
    row.(status := Failed, completedAt := Some(now), duration := Some(if row.startedAt <= now then now - row.startedAt else 0),
         error := Some(error))
  }

  predicate AllPassed(checks: ServiceChecks) {
    checks.retryable && checks.attemptState && checks.quantRecords && checks.timeInOrder
  }

  /** What each of them makes of a stored run, the unique index included. */
  function Acted(rows: map<Id, Row>, id: Id, action: RowAction): Row
    requires id in rows
  {
    var row := rows[id];
    match action
    case FailUnqueued(error, now) => if row.status == Queued then Gone(row, error, now) else row
    case FailPreparation(error, now) => if row.status == AwaitingDraft then Gone(row, error, now) else row
    case SealToken(token) =>
      if row.status == AwaitingDraft && token !in row.spent then
        row.(quality := row.quality[Named(Id("handoff")) := Audit(Some(token), Id("validating"))], spent := row.spent + {token})
      else row
    case AnnotateAudit(note) =>
      var kept := if Named(Id("handoff")) in row.quality && row.quality[Named(Id("handoff"))].Audit?
                  then row.quality[Named(Id("handoff"))].token else None;
      row.(quality := row.quality[Named(Id("handoff")) := Audit(kept, note)])
    case RecoverRunner(checks, now) =>
      if row.status == Running && AllPassed(checks) && row.outputs == [] && !Rival(rows, id)
      then Gone(row, "Interrupted file handoff attempt", now) else row
    case RearmFailed(checks, preparedAt) =>
      if row.status == Failed && AllPassed(checks) && row.outputs == [] && !Rival(rows, id) then
        row.(status := AwaitingDraft, startedAt := preparedAt, completedAt := None, duration := None, error := None, steps := [],
             quality := row.quality[Named(Id("handoff")) := Audit(None, Id("awaiting_draft"))])
      else row
    case EnqueueTask(prepared, inputHash) =>
      if (prepared == Queued || prepared == AwaitingDraft) && row.status == prepared && row.inputHash == inputHash
      then row.(hasTask := true) else row
    case EndAttempt(terminal, error, now) =>
      if row.status == Completed then row
      else if terminal then row.(status := Failed, completedAt := Some(now), error := Some(error))
      else if row.mode == Live && LiveRival(rows, id, row.key) then row
      else row.(status := Queued, completedAt := None, duration := None, error := Some(error))
  }

  lemma IndexIff(rows: map<Id, Row>, id: Id, row: Row)
    ensures IndexAdmits(rows, id, row) <==> !(row.mode == Live && row.status != Failed && LiveRival(rows, id, row.key))
  {
  }

  lemma ReplacementIff(rows: map<Id, Row>, id: Id)
    requires id in rows
    ensures HasReplacement(rows, id, rows[id]) <==> Rival(rows, id)
  {
  }

  /** A run that has not failed has no live rival, if it is live itself. */
  lemma ActiveHasNoRival(rows: map<Id, Row>, id: Id)
    requires UniqueLive(rows) && id in rows && rows[id].mode == Live && rows[id].status != Failed
    ensures !LiveRival(rows, id, rows[id].key)
  {
  }

  lemma ActedIs(rows: map<Id, Row>, id: Id, action: RowAction)
    requires UniqueLive(rows) && id in rows
    ensures var row := ActOnRow(rows, id, rows[id], action);
            Acted(rows, id, action) == if IndexAdmits(rows, id, row) then row else rows[id]
  {
    var row := ActOnRow(rows, id, rows[id], action);
    IndexIff(rows, id, row);
    ReplacementIff(rows, id);
    if rows[id].mode == Live && rows[id].status != Failed {
      ActiveHasNoRival(rows, id);
    }
  }

  /** Each of these sessions changes its one row to exactly that, in every state the protocol keeps. */
  lemma RowActionContract(s: System, id: Id, action: RowAction)
    requires Inv(s)
    ensures Apply(s, OnRow(id, action)) == if id in s.rows then s.(rows := s.rows[id := Acted(s.rows, id, action)]) else s
  {
    if id in s.rows {
      ActedIs(s.rows, id, action);
      assert s.rows[id := s.rows[id]] == s.rows;
    }
  }

  /** A new run is stored, as given, exactly when its id is free and no live rival stands. */
  lemma InsertContract(s: System, id: Id, key: LiveKey, inputHash: Id, mode: Mode, initial: Status, snapshot: Snapshot, startedAt: int,
                       hasTask: bool)
    requires initial == Queued || initial == AwaitingDraft
    ensures var row := Row(key, inputHash, mode, initial, startedAt, None, None, None, map[SnapshotKey := SnapshotValue(snapshot)], [],
                           hasTask, [], {});
            Apply(s, Insert(id, NewRow(key, inputHash, mode, initial, snapshot, startedAt, hasTask))) ==
            if id !in s.rows && !(mode == Live && LiveRival(s.rows, id, key))
            then s.(rows := s.rows[id := row], admitted := s.admitted[id := row]) else s
  {
    IndexIff(s.rows, id, NewRow(key, inputHash, mode, initial, snapshot, startedAt, hasTask));
  }

  /** The sweep fails every queued or running run without a task, and leaves every other run alone. */
  lemma SweepContract(s: System, now: int)
    ensures var after := Apply(s, SweepAll(now));
            && after.execs == s.execs && after.admitted == s.admitted && after.rows.Keys == s.rows.Keys
            && forall id :: id in s.rows ==>
                 after.rows[id] == if (s.rows[id].status == Queued || s.rows[id].status == Running) && !s.rows[id].hasTask
                                   then Gone(s.rows[id], "Interrupted legacy run", now) else s.rows[id]
  {
  }
}
