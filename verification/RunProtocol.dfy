/** The life of a forecast run in the database: what each committed session of an executor, of the API,
    of the startup sweep and of the file-handoff service does to one `workflow_runs` row, and the
    transition system those sessions form. Everything here is on values; RunStore.dfy has the code. */
module RunProtocol {
  import opened Common
  import opened Committee

  datatype Status = AwaitingDraft | Queued | Running | Completed | Failed

  datatype Mode = Demo | Live

  /** `believability_run_binding_hash(run_id, content_hash)`, as an injective pairing. */
  datatype Binding = Binding(runId: Id, contentHash: Id)

  /** The believability snapshot stored with the row. `wellFormed` is the verdict of its own
      validator. */
  datatype Snapshot = Snapshot(contentHash: Id, policy: Id, mode: Mode, applied: bool, wellFormed: bool)

  datatype RuntimeSeal = RuntimeSeal(policy: Option<Id>, snapshotHash: Option<Id>, binding: Option<Binding>,
                                     shadowOnly: bool, applied: bool)

  /** Top-level keys of the `data_quality` object. */
  datatype Key = SnapshotKey | RuntimeKey | Named(name: Id)

  datatype QualityValue =
    | SnapshotValue(snapshot: Snapshot)
    | RuntimeValue(seal: RuntimeSeal)
    | Audit(token: Option<Id>, note: Id)
    | Other(text: Id)

  type Quality = map<Key, QualityValue>

  const HANDOFF: Key := Named(Id("handoff"))

  /** What the unique index on live runs is about. */
  datatype LiveKey = LiveKey(universeHash: Id, asOf: int)

  /** A `workflow_runs` row together with the opinions and forecasts that reference it: one element of
      `outputs` per committed `_persist_result`. `spent` records the attempt tokens ever sealed for
      the run; a token hashes its attempt number, so no two attempts share one. */
  datatype Row = Row(
    key: LiveKey, inputHash: Id, mode: Mode, status: Status, startedAt: int,
    completedAt: Option<int>, duration: Option<int>, error: Option<string>,
    quality: Quality, steps: seq<Id>, hasTask: bool, outputs: seq<Outcome>, spent: set<Id>)

  /** The frozen state an executor was handed. `configMatches` is the verdict of the horizon and
      universe comparisons against the runtime configuration. */
  datatype Frozen = Frozen(inputHash: Option<Id>, snapshotHash: Option<Id>, binding: Option<Binding>,
                           policy: Option<Id>, configMatches: bool)

  datatype Fence = Fence(namespace: Key, token: Id)

  datatype Pc =
    | Prepared
    | Claiming(verdict: Option<string>)
    | InGraph
    | Failing(error: string)
    | Done

  /** One call of `execute_prepared`. `expected` and `rowInputHash` are what its stale copy of the row
      says. */
  datatype Exec = Exec(
    runId: Id, expected: Status, rowInputHash: Id, frozen: Frozen, fence: Option<Fence>,
    allowRecovery: bool, retryable: bool, universeHash: Id, startedAt: int, pc: Pc)

  datatype GraphResult = GraphResult(quality: Quality, outcome: Outcome, steps: seq<Id>)

  datatype GraphOutcome = Raised(error: string) | Returned(result: GraphResult)

  /** What a session leaves behind. */
  datatype Session = Session(row: Row, pc: Pc)

  // ----- Fences and seals -----

  function TokenAt(q: Quality, namespace: Key): Option<Id> {
    if namespace in q && q[namespace].Audit? then q[namespace].token else None
  }

  predicate FenceHolds(fence: Option<Fence>, q: Quality) {
    fence.Some? ==> TokenAt(q, fence.value.namespace) == Some(fence.value.token)
  }

  /** `_validate_believability_seal` */
  function SealError(id: Id, row: Row, frozen: Frozen): Option<string> {
    if SnapshotKey !in row.quality || !row.quality[SnapshotKey].SnapshotValue? then
      Some("prepared run is missing its believability snapshot")
    else
      var snapshot := row.quality[SnapshotKey].snapshot;
      if !snapshot.wellFormed then Some("believability snapshot is invalid")
      else if Some(snapshot.contentHash) != frozen.snapshotHash then
        Some("prepared run believability snapshot no longer matches the frozen state")
      else if Some(snapshot.policy) != frozen.policy then
        Some("prepared run believability policy no longer matches the frozen state")
      else if Some(Binding(id, snapshot.contentHash)) != frozen.binding then
        Some("prepared run believability snapshot is bound to another run")
      else if snapshot.mode != row.mode || snapshot.applied then
        Some("prepared run believability boundary is invalid")
      else None
  }

  predicate InputHashMatches(row: Row, e: Exec) {
    Some(row.inputHash) == e.frozen.inputHash && row.inputHash == e.rowInputHash
  }

  /** Every check between reading the row and claiming it. */
  function PreparedError(id: Id, row: Row, e: Exec): Option<string> {
    if !e.frozen.configMatches then Some("prepared run no longer matches the runtime configuration")
    else if row.key.universeHash != e.universeHash then
      Some("prepared run market universe hash no longer matches the database seal")
    else if SealError(id, row, e.frozen).Some? then SealError(id, row, e.frozen)
    else if !InputHashMatches(row, e) then Some("prepared run input hash no longer matches the database seal")
    else None
  }

  function ExpectedRuntime(frozen: Frozen): RuntimeSeal {
    RuntimeSeal(frozen.policy, frozen.snapshotHash, frozen.binding, true, false)
  }

  /** `_validate_result_believability_boundary` */
  function BoundaryError(row: Row, result: GraphResult, frozen: Frozen): Option<string> {
    if RuntimeKey in row.quality then Some("believability runtime seal was written before completion")
    else if SnapshotKey in result.quality then
      Some("workflow result may not replace the database believability snapshot")
    else if RuntimeKey !in result.quality || result.quality[RuntimeKey] != RuntimeValue(ExpectedRuntime(frozen)) then
      Some("workflow result believability runtime seal does not match the frozen state")
    else None
  }

  // ----- Writes -----

  function Elapsed(startedAt: int, completedAt: int): int {
    if completedAt >= startedAt then completedAt - startedAt else 0
  }

  /** `_failure_values`, applied to the row. */
  function FailureValues(row: Row, error: string, startedAt: int, completedAt: int, retryable: bool): Row {
    if retryable then
      row.(status := Queued, startedAt := startedAt, completedAt := None, duration := None, error := Some(error))
    else
      row.(status := Failed, startedAt := startedAt, completedAt := Some(completedAt),
           duration := Some(Elapsed(startedAt, completedAt)), error := Some(error))
  }

  function CompletionValues(row: Row, e: Exec, result: GraphResult, completedAt: int): Row {
    row.(status := Completed, completedAt := Some(completedAt), duration := Some(Elapsed(e.startedAt, completedAt)),
         error := None, steps := result.steps, quality := row.quality + result.quality,
         outputs := row.outputs + [result.outcome])
  }

  function Recovering(e: Exec): bool {
    e.allowRecovery && e.expected == Running
  }

  predicate MayStart(e: Exec) {
    e.expected == Queued || e.expected == AwaitingDraft || Recovering(e)
  }

  /** The reads at the head of the first session. */
  function ClaimRead(e: Exec, row: Option<Row>, taskFenceHolds: bool): Pc {
    if !MayStart(e) || row.None? || !taskFenceHolds || row.value.status != e.expected then Done
    else Claiming(PreparedError(e.runId, row.value, e))
  }

  /** The writes of the first session, against the row as it is by then. */
  function ClaimWrite(e: Exec, verdict: Option<string>, row: Row, now: int): Session {
    var owned := row.status == e.expected && FenceHolds(e.fence, row.quality);
    if verdict.Some? then
      Session(if owned then FailureValues(row, verdict.value, e.startedAt, now, e.retryable) else row, Done)
    else if Recovering(e) then Session(row, InGraph)
    else if owned then Session(row.(status := Running, startedAt := e.startedAt), InGraph)
    else Session(row, Done)
  }

  /** What stops a completion once the executor is known to hold the running row. */
  function FinaliseError(e: Exec, row: Row, result: GraphResult): Option<string> {
    if SealError(e.runId, row, e.frozen).Some? then SealError(e.runId, row, e.frozen)
    else if !InputHashMatches(row, e) then Some("prepared run input hash changed during workflow execution")
    else if BoundaryError(row, result, e.frozen).Some? then BoundaryError(row, result, e.frozen)
    else if !PersistAccepts(result.outcome) then Some("new opinion direction must match")
    else None
  }

  /** The session after the graph: either every write of a completion, or none. */
  function FinaliseWrite(e: Exec, row: Row, outcome: GraphOutcome, taskFenceHolds: bool, now: int): Session {
    match outcome
    case Raised(error) => Session(row, Failing(error))
    case Returned(result) =>
      if !taskFenceHolds then Session(row, Done)
      else if row.status != Running || !FenceHolds(e.fence, row.quality) then
        Session(row, if e.fence.Some? then Done else Failing("run changed status during workflow execution"))
      else
        match FinaliseError(e, row, result)
        case Some(error) => Session(row, Failing(error))
        case None => Session(CompletionValues(row, e, result, now), Done)
  }

  function FailureWrite(e: Exec, error: string, row: Row, taskFenceHolds: bool, now: int): Session {
    if !taskFenceHolds || row.status != Running || !FenceHolds(e.fence, row.quality) then Session(row, Done)
    else Session(FailureValues(row, error, e.startedAt, now, e.retryable), Done)
  }

  // ----- The unique index -----

  predicate Active(row: Row) {
    row.mode == Live && row.status != Failed
  }

  /** `uq_active_live_run_as_of` admits this value of the row. */
  predicate IndexAdmits(rows: map<Id, Row>, id: Id, row: Row) {
    Active(row) ==> forall other :: other in rows && other != id && Active(rows[other]) ==> rows[other].key != row.key
  }

  predicate HasReplacement(rows: map<Id, Row>, id: Id, row: Row) {
    exists other :: other in rows && other != id && rows[other].mode == row.mode && rows[other].key == row.key &&
                    rows[other].status != Failed
  }

  // ----- The other writers -----

  predicate Interrupted(row: Row) {
    (row.status == Queued || row.status == Running) && !row.hasTask
  }

  /** A row failed by a writer that read the given start. */
  function FailedAt(row: Row, startedAt: int, error: string, now: int): Row {
    row.(status := Failed, completedAt := Some(now), duration := Some(Elapsed(startedAt, now)), error := Some(error))
  }

  function SweepOne(row: Row, now: int): Row {
    FailedAt(row, row.startedAt, "Interrupted legacy run", now)
  }

  /** `_fail_interrupted_runs` as one session. */
  function Sweep(rows: map<Id, Row>, now: int): map<Id, Row> {
    map id | id in rows :: if Interrupted(rows[id]) then SweepOne(rows[id], now) else rows[id]
  }

  /** `_fail_unqueued_prepared_run` and the preparation failure of a handoff: fail a row that is still
      in the given initial status. */
  function FailInitial(row: Row, initial: Status, error: string, now: int): Row {
    if row.status != initial then row else FailedAt(row, row.startedAt, error, now)
  }

  function NewRow(key: LiveKey, inputHash: Id, mode: Mode, initial: Status, snapshot: Snapshot, startedAt: int, hasTask: bool): Row {
    Row(key, inputHash, mode, initial, startedAt, None, None, None,
        map[SnapshotKey := SnapshotValue(snapshot)], [], hasTask, [], {})
  }

  /** A new attempt seals its token into a row that awaits a draft. */
  function SealAttempt(row: Row, token: Id): Row {
    if row.status != AwaitingDraft || token in row.spent then row
    else row.(quality := row.quality[HANDOFF := Audit(Some(token), Id("validating"))], spent := row.spent + {token})
  }

  /** The handoff service rewrites its own audit; the token stays. */
  function RewriteAudit(row: Row, note: Id): Row {
    row.(quality := row.quality[HANDOFF := Audit(TokenAt(row.quality, HANDOFF), note)])
  }

  /** The handoff service gives up on a runner that lost its lock. */
  function RecoverInterrupted(row: Row, now: int): Row {
    FailedAt(row, row.startedAt, "Interrupted file handoff attempt", now)
  }

  /** The verdicts of the handoff service's checks outside the run's own columns: the protocol is the one
      that allows another attempt, the sealed attempt state and history verify and are the expected ones,
      the quant records verify, and the transition is in time and in order. */
  datatype ServiceChecks = ServiceChecks(retryable: bool, attemptState: bool, quantRecords: bool, timeInOrder: bool) {
    predicate Pass() {
      retryable && attemptState && quantRecords && timeInOrder
    }
  }

  /** What the handoff service demands before it recovers or re-arms a run in the given status. */
  predicate ServiceMayTake(rows: map<Id, Row>, id: Id, row: Row, status: Status, checks: ServiceChecks) {
    checks.Pass() && row.status == status && row.outputs == [] && !HasReplacement(rows, id, row)
  }

  /** The statuses a run is prepared in. */
  predicate IsInitial(status: Status) {
    status == Queued || status == AwaitingDraft
  }

  /** The queue's task row for a run that still is as it was prepared. */
  function AttachTask(row: Row, prepared: Status, inputHash: Id): Row {
    if IsInitial(prepared) && row.status == prepared && row.inputHash == inputHash then row.(hasTask := true) else row
  }

  /** The handoff service re-arms a failed run for another attempt; the old token is removed. */
  function Rearm(row: Row, preparedAt: int): Row {
    row.(status := AwaitingDraft, startedAt := preparedAt, completedAt := None, duration := None, error := None,
         steps := [], quality := row.quality[HANDOFF := Audit(None, Id("awaiting_draft"))])
  }

  /** The task queue's own record of a finished attempt. */
  function AttemptEnded(row: Row, terminal: bool, error: string, now: int): Row {
    if terminal then row.(status := Failed, completedAt := Some(now), error := Some(error))
    else row.(status := Queued, completedAt := None, duration := None, error := Some(error))
  }

  // ----- The transition system -----

  /** `admitted` remembers every row as it was inserted. */
  datatype System = System(rows: map<Id, Row>, execs: map<Id, Exec>, admitted: map<Id, Row>)

  /** The sessions of an executor. A fence flag says whether the task lease still held. */
  datatype ExecAction =
    | BeginClaim(leaseHolds: bool)
    | EndClaim(now: int)
    | Finalise(outcome: GraphOutcome, leaseHolds: bool, now: int)
    | RecordFailure(leaseHolds: bool, now: int)

  /** The sessions of everyone else that touch one row. */
  datatype RowAction =
    | FailUnqueued(error: string, now: int)
    | FailPreparation(error: string, now: int)
    | SealToken(token: Id)
    | AnnotateAudit(note: Id)
    | RecoverRunner(checks: ServiceChecks, now: int)
    | RearmFailed(checks: ServiceChecks, preparedAt: int)
    | EnqueueTask(prepared: Status, inputHash: Id)
    | EndAttempt(terminal: bool, error: string, now: int)

  datatype Step =
    | Executor(eid: Id, action: ExecAction)
    | OnRow(id: Id, rowAction: RowAction)
    | Insert(newId: Id, row: Row)
    | Spawn(newEid: Id, exec: Exec)
    | SweepAll(now: int)

  predicate IsNew(row: Row) {
    && IsInitial(row.status)
    && row.completedAt == None && row.duration == None && row.outputs == [] && row.spent == {}
    && row.quality.Keys == {SnapshotKey} && row.quality[SnapshotKey].SnapshotValue?
  }

  /** One session of an executor against the current row. */
  function ExecSession(e: Exec, row: Row, action: ExecAction): Session {
    match action
    case BeginClaim(lease) => if e.pc.Prepared? then Session(row, ClaimRead(e, Some(row), lease)) else Session(row, e.pc)
    case EndClaim(now) => if e.pc.Claiming? then ClaimWrite(e, e.pc.verdict, row, now) else Session(row, e.pc)
    case Finalise(outcome, lease, now) =>
      if e.pc.InGraph? then FinaliseWrite(e, row, outcome, lease, now) else Session(row, e.pc)
    case RecordFailure(lease, now) =>
      if e.pc.Failing? then FailureWrite(e, e.pc.error, row, lease, now) else Session(row, e.pc)
  }

  /** What another actor's session makes of a row; a guard that fails leaves it alone. */
  function ActOnRow(rows: map<Id, Row>, id: Id, row: Row, action: RowAction): Row {
    match action
    case FailUnqueued(error, now) => FailInitial(row, Queued, error, now)
    case FailPreparation(error, now) => FailInitial(row, AwaitingDraft, error, now)
    case SealToken(token) => SealAttempt(row, token)
    case AnnotateAudit(note) => RewriteAudit(row, note)
    case RecoverRunner(checks, now) =>
      if ServiceMayTake(rows, id, row, Running, checks) then RecoverInterrupted(row, now) else row
    case RearmFailed(checks, preparedAt) =>
      if ServiceMayTake(rows, id, row, Failed, checks) then Rearm(row, preparedAt) else row
    case EnqueueTask(prepared, inputHash) => AttachTask(row, prepared, inputHash)
    case EndAttempt(terminal, error, now) =>
      if row.status != Completed then AttemptEnded(row, terminal, error, now) else row
  }

  function ApplyExec(s: System, eid: Id, action: ExecAction): System {
    if eid !in s.execs then s
    else
      var e := s.execs[eid];
      if e.runId !in s.rows then s.(execs := s.execs[eid := e.(pc := Done)])
      else
        var session := ExecSession(e, s.rows[e.runId], action);
        s.(rows := s.rows[e.runId := session.row], execs := s.execs[eid := e.(pc := session.pc)])
  }

  /** Change one existing row, provided the unique index admits the new value. */
  function Write(rows: map<Id, Row>, id: Id, row: Row): map<Id, Row> {
    if IndexAdmits(rows, id, row) then rows[id := row] else rows
  }

  function Apply(s: System, step: Step): System {
    match step
    case Executor(eid, action) => ApplyExec(s, eid, action)
    case OnRow(id, action) =>
      if id in s.rows then s.(rows := Write(s.rows, id, ActOnRow(s.rows, id, s.rows[id], action))) else s
    case Insert(id, row) =>
      if id in s.rows || !IsNew(row) || !IndexAdmits(s.rows, id, row) then s
      else s.(rows := s.rows[id := row], admitted := s.admitted[id := row])
    case Spawn(eid, exec) =>
      if eid in s.execs || !exec.pc.Prepared? then s else s.(execs := s.execs[eid := exec])
    case SweepAll(now) => s.(rows := Sweep(s.rows, now))
  }

  function Run(s: System, steps: seq<Step>): System {
    if steps == [] then s else Apply(Run(s, steps[..|steps| - 1]), steps[|steps| - 1])
  }

  function Start(): System {
    System(map[], map[], map[])
  }
}
