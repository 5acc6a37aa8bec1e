/** The retention guards that triggers put on the version-2 research tables, as a mutable database: the
    runs, and the ten append-only tables whose rows refer to runs and to each other. */
module ResearchGuards {
  import opened Common

  datatype RunStatus = AwaitingDraft | CompletedRun | FailedRun

  datatype RunRow = RunRow(status: RunStatus, inputHash: Id, body: Id)

  /** A row of one of the ten append-only tables. */
  datatype RecordKey = RecordKey(table: Id, key: Id)

  /** What a foreign key names. */
  datatype Reference = ToRun(run: Id) | ToRecord(record: RecordKey)

  /** The name of a unique constraint and the values the row has in its columns. */
  datatype UniqueValue = UniqueValue(constraint: Id, values: seq<Id>)

  datatype Record = Record(references: set<Reference>, uniques: set<UniqueValue>, body: Id)

  datatype Db = Db(records: map<RecordKey, Record>, runs: map<Id, RunRow>)

  /** Single-row statements. An UPDATE carries the whole new row, its primary key included. */
  datatype Statement =
    | InsertRecord(key: RecordKey, record: Record)
    | UpdateRecord(key: RecordKey, record: Record)
    | DeleteRecord(key: RecordKey)
    | InsertRun(id: Id, run: RunRow)
    | UpdateRun(id: Id, newId: Id, run: RunRow)
    | DeleteRun(id: Id)

  // ----- Keys -----

  /** The input hash is free apart from the row `except`. */
  predicate HashFree(s: Db, hash: Id, except: Id) {
    forall k :: k in s.runs && k != except ==> s.runs[k].inputHash != hash
  }

  predicate RunReferenced(s: Db, run: Id) {
    exists k :: k in s.records && ToRun(run) in s.records[k].references
  }

  /** A row about to be written under `key` may refer to itself. */
  predicate Present(s: Db, reference: Reference, key: RecordKey) {
    match reference
    case ToRun(run) => run in s.runs
    case ToRecord(record) => record in s.records || record == key
  }

  /** Two rows of one table that have the same values under some unique constraint. */
  predicate Clash(a: RecordKey, x: Record, b: RecordKey, y: Record) {
    a.table == b.table && x.uniques * y.uniques != {}
  }

  predicate RecordAdmitted(s: Db, key: RecordKey, record: Record) {
    && key !in s.records
    && (forall r :: r in record.references ==> Present(s, r, key))
    && (forall k :: k in s.records ==> !Clash(k, s.records[k], key, record))
  }

  predicate RunInsertAdmitted(s: Db, id: Id, run: RunRow) {
    id !in s.runs && HashFree(s, run.inputHash, id)
  }

  predicate RunUpdateAdmitted(s: Db, id: Id, newId: Id, run: RunRow) {
    && id in s.runs && s.runs[id].status == AwaitingDraft
    && (newId != id ==> newId !in s.runs && !RunReferenced(s, id))
    && HashFree(s, run.inputHash, id)
  }

  /** What the statement would leave behind if nothing stopped it. */
  function Effect(s: Db, statement: Statement): Db {
    match statement
    case InsertRecord(key, record) => s.(records := s.records[key := record])
    case InsertRun(id, run) => s.(runs := s.runs[id := run])
    case UpdateRun(id, newId, run) => s.(runs := Move(s.runs, id, newId, run))
    case _ => s
  }

  /** What the guards and the keys check, row by row. */
  predicate Admitted(s: Db, statement: Statement) {
    match statement
    case InsertRecord(key, record) => RecordAdmitted(s, key, record)
    case InsertRun(id, run) => RunInsertAdmitted(s, id, run)
    case UpdateRun(id, newId, run) => RunUpdateAdmitted(s, id, newId, run)
    case _ => false
  }

  /** One statement; an aborted or rejected one changes nothing. */
  function Execute(s: Db, statement: Statement): Db {
    if Admitted(s, statement) then Effect(s, statement) else s
  }

  function ExecuteAll(s: Db, statements: seq<Statement>): Db {
    if statements == [] then s
    else Execute(ExecuteAll(s, statements[..|statements| - 1]), statements[|statements| - 1])
  }

  // ----- The database that runs them -----

  class Database {
    var records: map<RecordKey, Record>
    var runs: map<Id, RunRow>

    function State(): Db
      reads this
    {
      Db(records, runs)
    }

    constructor ()
      ensures State() == Db(map[], map[])
    {
      records, runs := map[], map[];
    }

    method AddRecord(key: RecordKey, record: Record) returns (changed: nat)
      modifies this`records
      ensures State() == Execute(old(State()), InsertRecord(key, record))
      ensures changed == if RecordAdmitted(old(State()), key, record) then 1 else 0
    {
      changed := 0;
      if key in records { return; }
      if exists r :: r in record.references && !Present(State(), r, key) { return; }
      if exists k :: k in records && Clash(k, records[k], key, record) { return; }
      records := records[key := record];
      changed := 1;
    }

    method AddRun(id: Id, run: RunRow) returns (changed: nat)
      modifies this`runs
      ensures State() == Execute(old(State()), InsertRun(id, run))
      ensures changed == if RunInsertAdmitted(old(State()), id, run) then 1 else 0
    {
      changed := 0;
      if id in runs || !HashFree(State(), run.inputHash, id) { return; }
      runs := runs[id := run];
      changed := 1;
    }

    method WriteRun(id: Id, newId: Id, run: RunRow) returns (changed: nat)
      modifies this`runs
      ensures State() == Execute(old(State()), UpdateRun(id, newId, run))
      ensures changed == if RunUpdateAdmitted(old(State()), id, newId, run) then 1 else 0
    {
      changed := 0;
      if id !in runs { return; }
      if runs[id].status != AwaitingDraft { return; }
      if newId != id && (newId in runs || RunReferenced(State(), id)) { return; }
      if !HashFree(State(), run.inputHash, id) { return; }
      runs := runs - {id};
      runs := runs[newId := run];
      changed := 1;
    }
  }

  // ----- Referential integrity -----

  ghost predicate HashesUnique(s: Db) {
    forall j, k :: j in s.runs && k in s.runs && s.runs[j].inputHash == s.runs[k].inputHash ==> j == k
  }

  ghost predicate Resolved(s: Db, record: Record) {
    forall r :: r in record.references ==> match r case ToRun(run) => run in s.runs case ToRecord(key) => key in s.records
  }

  ghost predicate ReferencesResolve(s: Db) {
    forall k :: k in s.records ==> Resolved(s, s.records[k])
  }

  ghost predicate UniquesHold(s: Db) {
    forall j, k :: j in s.records && k in s.records && j != k ==> !Clash(j, s.records[j], k, s.records[k])
  }

  /** Every foreign key and unique constraint of the research tables. */
  ghost predicate Consistent(s: Db) {
    HashesUnique(s) && ReferencesResolve(s) && UniquesHold(s)
  }

  /** The triggers let the statement through, and the primary key it writes is free. */
  predicate Unguarded(s: Db, statement: Statement) {
    match statement
    case InsertRecord(key, _) => key !in s.records
    case InsertRun(id, _) => id !in s.runs
    case UpdateRun(id, newId, _) => id in s.runs && s.runs[id].status == AwaitingDraft && (newId != id ==> newId !in s.runs)
    case _ => false
  }

  /** The row-by-row checks are exactly the constraints: on a consistent database a statement takes effect
      if and only if the triggers let it through and what it leaves behind is consistent. */
  lemma AdmittedIff(s: Db, statement: Statement)
    requires Consistent(s)
    ensures Admitted(s, statement) <==> Unguarded(s, statement) && Consistent(Effect(s, statement))
    ensures Consistent(Execute(s, statement))
  {
    if Unguarded(s, statement) {
      match statement
      case InsertRecord(key, record) => RecordInsertIff(s, key, record);
      case InsertRun(id, run) => RunInsertIff(s, id, run);
      case UpdateRun(id, newId, run) => RunUpdateIff(s, id, newId, run);
    }
  }

  lemma RecordInsertIff(s: Db, key: RecordKey, record: Record)
    requires Consistent(s) && key !in s.records
    ensures RecordAdmitted(s, key, record) <==> Consistent(s.(records := s.records[key := record]))
  {
    RecordResolves(s, key, record);
    RecordIsUnique(s, key, record);
    assert HashesUnique(s.(records := s.records[key := record]));
  }

  lemma RecordResolves(s: Db, key: RecordKey, record: Record)
    requires ReferencesResolve(s) && key !in s.records
    ensures ReferencesResolve(s.(records := s.records[key := record])) <==> forall r :: r in record.references ==> Present(s, r, key)
  {
    var after := s.(records := s.records[key := record]);
    assert key in after.records && after.records[key] == record;
    forall k | k in s.records ensures Resolved(after, s.records[k]) {
      assert Resolved(s, s.records[k]);
    }
    forall r ensures Present(s, r, key) <==> match r case ToRun(run) => run in after.runs case ToRecord(k) => k in after.records {
    }
  }

  lemma RecordIsUnique(s: Db, key: RecordKey, record: Record)
    requires UniquesHold(s) && key !in s.records
    ensures UniquesHold(s.(records := s.records[key := record])) <==> forall k :: k in s.records ==> !Clash(k, s.records[k], key, record)
  {
    var after := s.(records := s.records[key := record]);
    assert key in after.records && after.records[key] == record;
    forall k | k in s.records
      ensures k in after.records && after.records[k] == s.records[k]
      ensures Clash(k, s.records[k], key, record) == Clash(key, record, k, s.records[k])
    {
      assert s.records[k].uniques * record.uniques == record.uniques * s.records[k].uniques;
    }
  }

  lemma HashesWithRun(s: Db, id: Id, newId: Id, run: RunRow)
    requires HashesUnique(s) && (newId == id || newId !in s.runs)
    ensures HashesUnique(s.(runs := Move(s.runs, id, newId, run))) <==> HashFree(s, run.inputHash, id)
  {
    var after := Move(s.runs, id, newId, run);
    assert newId in after && after[newId] == run;
    if HashesUnique(s.(runs := after)) {
      forall k | k in s.runs && k != id ensures s.runs[k].inputHash != run.inputHash {
        assert k in after && after[k] == s.runs[k];
      }
    }
  }

  lemma ReferencesWithRun(s: Db, id: Id, newId: Id, run: RunRow)
    requires ReferencesResolve(s) && (newId == id || newId !in s.runs)
    ensures ReferencesResolve(s.(runs := Move(s.runs, id, newId, run))) <==> newId == id || id !in s.runs || !RunReferenced(s, id)
  {
    var after := s.(runs := Move(s.runs, id, newId, run));
    forall k | k in s.records ensures Resolved(after, s.records[k]) <==> newId == id || ToRun(id) !in s.records[k].references {
      assert Resolved(s, s.records[k]);
    }
  }

  lemma RunInsertIff(s: Db, id: Id, run: RunRow)
    requires Consistent(s) && id !in s.runs
    ensures RunInsertAdmitted(s, id, run) <==> Consistent(s.(runs := s.runs[id := run]))
  {
    assert Move(s.runs, id, id, run) == s.runs[id := run];
    HashesWithRun(s, id, id, run);
    ReferencesWithRun(s, id, id, run);
    assert UniquesHold(s.(runs := s.runs[id := run]));
  }

  lemma RunUpdateIff(s: Db, id: Id, newId: Id, run: RunRow)
    requires Consistent(s) && Unguarded(s, UpdateRun(id, newId, run))
    ensures RunUpdateAdmitted(s, id, newId, run) <==> Consistent(Effect(s, UpdateRun(id, newId, run)))
  {
    HashesWithRun(s, id, newId, run);
    ReferencesWithRun(s, id, newId, run);
    assert UniquesHold(Effect(s, UpdateRun(id, newId, run)));
  }

  // ----- What nothing can undo -----

  lemma RecordStays(s: Db, statement: Statement, key: RecordKey)
    requires key in s.records
    ensures key in Execute(s, statement).records && Execute(s, statement).records[key] == s.records[key]
  {
  }

  /** The ten version-2 tables only ever grow. */
  lemma {:induction false} RecordsOnlyGrow(s: Db, statements: seq<Statement>, key: RecordKey)
    requires key in s.records
    ensures var after := ExecuteAll(s, statements); key in after.records && after.records[key] == s.records[key]
  {
    if statements != [] {
      RecordsOnlyGrow(s, statements[..|statements| - 1], key);
      RecordStays(ExecuteAll(s, statements[..|statements| - 1]), statements[|statements| - 1], key);
    }
  }

  ghost predicate Finished(s: Db, run: Id, row: RunRow) {
    run in s.runs && s.runs[run] == row && row.status != AwaitingDraft
  }

  lemma FinishedRunStays(s: Db, statement: Statement, run: Id, row: RunRow)
    requires Finished(s, run, row)
    ensures Finished(Execute(s, statement), run, row)
  {
  }

  /** A research run past `awaiting_draft` never changes again and is never deleted. */
  lemma {:induction false} FinishedRunIsFinal(s: Db, statements: seq<Statement>, run: Id, row: RunRow)
    requires Finished(s, run, row)
    ensures Finished(ExecuteAll(s, statements), run, row)
  {
    if statements != [] {
      FinishedRunIsFinal(s, statements[..|statements| - 1], run, row);
      FinishedRunStays(ExecuteAll(s, statements[..|statements| - 1]), statements[|statements| - 1], run, row);
    }
  }

  lemma {:induction false} ConsistentForever(s: Db, statements: seq<Statement>)
    requires Consistent(s)
    ensures Consistent(ExecuteAll(s, statements))
  {
    if statements != [] {
      ConsistentForever(s, statements[..|statements| - 1]);
      AdmittedIff(ExecuteAll(s, statements[..|statements| - 1]), statements[|statements| - 1]);
    }
  }

  /** A row in an append-only table keeps the run it belongs to: from its insertion on, after any further
      statements, that run is stored under the same key. */
  lemma RecordKeepsItsRun(s: Db, statements: seq<Statement>, key: RecordKey, run: Id)
    requires Consistent(s) && key in s.records && ToRun(run) in s.records[key].references
    ensures run in ExecuteAll(s, statements).runs
  {
    RecordsOnlyGrow(s, statements, key);
    ConsistentForever(s, statements);
    assert Resolved(ExecuteAll(s, statements), s.records[key]);
  }
}
