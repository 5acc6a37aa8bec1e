/** The research tables from outside: keys, guards and effects row by row, and runs as sequences of states. */
module ResearchKeys {
  import opened Common
  import opened ResearchGuards

  // ----- Keys -----

  /** What a row refers to is stored. */
  ghost predicate RefersToStored(s: Db, record: Record) {
    && (forall run :: ToRun(run) in record.references ==> run in s.runs)
    && (forall key :: ToRecord(key) in record.references ==> key in s.records)
  }

  /** Two rows of one table with the same values under some unique constraint. */
  predicate Doubles(s: Db, j: RecordKey, k: RecordKey)
    requires j in s.records && k in s.records
  {
    j.table == k.table && exists u :: u in s.records[j].uniques && u in s.records[k].uniques
  }

  ghost predicate KeysHold(s: Db) {
    && (forall j, k :: j in s.runs && k in s.runs && j != k ==> s.runs[j].inputHash != s.runs[k].inputHash)
    && (forall k :: k in s.records ==> RefersToStored(s, s.records[k]))
    && (forall j, k :: j in s.records && k in s.records && j != k ==> !Doubles(s, j, k))
  }

  lemma StoredIff(s: Db, record: Record)
    ensures Resolved(s, record) <==> RefersToStored(s, record)
  {
    if RefersToStored(s, record) {
      forall r | r in record.references ensures match r case ToRun(run) => run in s.runs case ToRecord(key) => key in s.records {
        match r { case ToRun(run) => case ToRecord(key) => }
      }
    }
  }

  lemma DoublesIff(s: Db, j: RecordKey, k: RecordKey)
    requires j in s.records && k in s.records
    ensures Clash(j, s.records[j], k, s.records[k]) <==> Doubles(s, j, k)
  {
    var both := s.records[j].uniques * s.records[k].uniques;
    if u :| u in s.records[j].uniques && u in s.records[k].uniques {
      assert u in both;
    }
    if both != {} {
      var u :| u in both;
    }
  }

  lemma KeysIff(s: Db)
    ensures Consistent(s) <==> KeysHold(s)
  {
    forall k | k in s.records ensures Resolved(s, s.records[k]) <==> RefersToStored(s, s.records[k]) {
      StoredIff(s, s.records[k]);
    }
    forall j, k | j in s.records && k in s.records ensures Clash(j, s.records[j], k, s.records[k]) <==> Doubles(s, j, k) {
      DoublesIff(s, j, k);
    }
  }

  // ----- One statement -----

  /** Records are only ever added, and a run changes only while it awaits its draft. */
  predicate LetThrough(s: Db, statement: Statement) {
    match statement
    case InsertRecord(key, _) => key !in s.records
    case UpdateRecord(_, _) => false
    case DeleteRecord(_) => false
    case InsertRun(id, _) => id !in s.runs
    case UpdateRun(id, newId, _) => id in s.runs && s.runs[id].status == AwaitingDraft && (newId == id || newId !in s.runs)
    case DeleteRun(_) => false
  }

  /** The table after a row was written under `newKey`, in place of the row `key` if there was one. */
  ghost predicate IsReplaced<K(!new), V>(before: map<K, V>, key: K, newKey: K, row: V, after: map<K, V>) {
    && (forall k :: k in after <==> k == newKey || (k in before && k != key))
    && (forall k :: k in after ==> after[k] == if k == newKey then row else before[k])
  }

  /** What the statement leaves behind if nothing stops it; statements that never pass have no effect to state. */
  ghost predicate LeavesBehind(s: Db, statement: Statement, after: Db) {
    match statement
    case InsertRecord(key, row) => IsReplaced(s.records, key, key, row, after.records) && after.runs == s.runs
    case InsertRun(id, row) => IsReplaced(s.runs, id, id, row, after.runs) && after.records == s.records
    case UpdateRun(id, newId, row) => IsReplaced(s.runs, id, newId, row, after.runs) && after.records == s.records
    case _ => true
  }

  lemma InsertedIsUpdate<K(!new), V>(before: map<K, V>, key: K, row: V, after: map<K, V>)
    requires IsReplaced(before, key, key, row, after)
    ensures after == before[key := row]
  {
    assert after.Keys == before[key := row].Keys;
  }

  lemma ReplacedIsMove<V>(before: map<Id, V>, id: Id, newId: Id, row: V, after: map<Id, V>)
    requires IsReplaced(before, id, newId, row, after)
    ensures after == Move(before, id, newId, row)
  {
    assert after.Keys == Move(before, id, newId, row).Keys;
  }

  lemma EffectIs(s: Db, statement: Statement, after: Db)
    requires LetThrough(s, statement) && LeavesBehind(s, statement, after)
    ensures Effect(s, statement) == after
  {
    match statement
    case InsertRecord(key, row) => InsertedIsUpdate(s.records, key, row, after.records);
    case InsertRun(id, row) => InsertedIsUpdate(s.runs, id, row, after.runs);
    case UpdateRun(id, newId, row) => ReplacedIsMove(s.runs, id, newId, row, after.runs);
  }

  lemma LetThroughIff(s: Db, statement: Statement)
    ensures Unguarded(s, statement) <==> LetThrough(s, statement)
  {
  }

  /** Where all keys hold, a statement takes effect exactly when it is let through and all keys still hold
      in what it leaves behind; otherwise it changes nothing. */
  lemma StatementIs(s: Db, statement: Statement, after: Db)
    requires KeysHold(s) && LeavesBehind(s, statement, after)
    ensures Execute(s, statement) == if LetThrough(s, statement) && KeysHold(after) then after else s
  {
    KeysIff(s);
    KeysIff(after);
    AdmittedIff(s, statement);
    LetThroughIff(s, statement);
    if LetThrough(s, statement) {
      EffectIs(s, statement, after);
    }
  }

  // ----- Runs -----

  /** The states between the statements. */
  ghost predicate IsRun(states: seq<Db>, statements: seq<Statement>) {
    |states| == |statements| + 1 && forall i :: 0 <= i < |statements| ==> states[i + 1] == Execute(states[i], statements[i])
  }

  /** Every record of the first state is in the second, unchanged; and so is every run past its draft. */
  ghost predicate Keeps(s: Db, t: Db) {
    && (forall k :: k in s.records ==> k in t.records && t.records[k] == s.records[k])
    && (forall k :: k in s.runs && s.runs[k].status != AwaitingDraft ==> k in t.runs && t.runs[k] == s.runs[k])
  }

  lemma StepKeeps(s: Db, statement: Statement)
    ensures Keeps(s, Execute(s, statement))
  {
    var t := Execute(s, statement);
    forall k | k in s.records ensures k in t.records && t.records[k] == s.records[k] {
      RecordStays(s, statement, k);
    }
    forall k | k in s.runs && s.runs[k].status != AwaitingDraft ensures k in t.runs && t.runs[k] == s.runs[k] {
      FinishedRunStays(s, statement, k, s.runs[k]);
    }
  }

  /** Between any two points of any run, records are only added and finished runs do not change. */
  lemma {:induction false} RunKeeps(states: seq<Db>, statements: seq<Statement>, i: nat, j: nat)
    requires IsRun(states, statements) && i <= j < |states|
    ensures Keeps(states[i], states[j])
    decreases j - i
  {
    if i < j {
      RunKeeps(states, statements, i, j - 1);
      StepKeeps(states[j - 1], statements[j - 1]);
    }
  }

  /** Keys that hold at the start hold throughout every run; so a record's run is stored as long as the
      record is. */
  lemma {:induction false} KeysHoldForever(states: seq<Db>, statements: seq<Statement>, j: nat)
    requires IsRun(states, statements) && j < |states| && KeysHold(states[0])
    ensures KeysHold(states[j])
  {
    if j > 0 {
      KeysHoldForever(states, statements, j - 1);
      KeysIff(states[j - 1]);
      AdmittedIff(states[j - 1], statements[j - 1]);
      KeysIff(states[j]);
    }
  }

  /** From its insertion on, at every later point of every run, the run a record refers to is stored. */
  lemma RunOfRecordStays(states: seq<Db>, statements: seq<Statement>, i: nat, j: nat, key: RecordKey, run: Id)
    requires IsRun(states, statements) && i <= j < |states| && KeysHold(states[0])
    requires key in states[i].records && ToRun(run) in states[i].records[key].references
    ensures run in states[j].runs
  {
    RunKeeps(states, statements, i, j);
    KeysHoldForever(states, statements, j);
    assert RefersToStored(states[j], states[j].records[key]);
  }
}
