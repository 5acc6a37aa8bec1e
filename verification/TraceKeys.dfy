/** The trace tables from outside: keys, guards and effects row by row, and runs as sequences of states. */
module TraceKeys {
  import opened Common
  import opened TraceGuards

  // ----- Keys -----

  /** No two traces are the same attempt at the same subject. */
  ghost predicate AttemptsDiffer(s: Db) {
    forall j, k :: j in s.traces && k in s.traces && j != k ==> s.traces[j].attempt != s.traces[k].attempt
  }

  /** No two spans of one trace have the same identity, and a parent is a span of the same trace. */
  ghost predicate SpanKeysHold(s: Db) {
    && (forall k :: k in s.spans ==> s.spans[k].trace in s.traces)
    && (forall j, k :: j in s.spans && k in s.spans && j != k ==> s.spans[j].trace != s.spans[k].trace || s.spans[j].spanId != s.spans[k].spanId)
    && ParentsPresent(s)
  }

  predicate HasSpan(s: Db, trace: Id, spanId: Id) {
    exists k :: k in s.spans && s.spans[k].trace == trace && s.spans[k].spanId == spanId
  }

  /** A link names a trace and, if any, one of its spans; and one artifact in one relation is linked to a span
      at most once. */
  ghost predicate LinkKeysHold(s: Db) {
    && (forall k :: k in s.links ==> s.links[k].trace in s.traces)
    && LinkedSpansPresent(s)
    && (forall j, k :: j in s.links && k in s.links && j != k && s.links[j].spanId.Some? ==>
          s.links[j].trace != s.links[k].trace || s.links[j].spanId != s.links[k].spanId || s.links[j].artifact != s.links[k].artifact)
  }

  ghost predicate KeysHold(s: Db) {
    && AttemptsDiffer(s) && SpanKeysHold(s) && LinkKeysHold(s)
    && (forall k :: k in s.references ==> s.references[k] in s.traces)
  }

  lemma AttemptsIff(s: Db)
    ensures AttemptsUnique(s) <==> AttemptsDiffer(s)
  {
  }

  lemma HasSpanIff(s: Db, trace: Id, spanId: Id)
    ensures SpanExists(s, trace, spanId) <==> HasSpan(s, trace, spanId)
  {
  }

  ghost predicate ParentsPresent(s: Db) {
    forall k :: k in s.spans && s.spans[k].parent.Some? ==> HasSpan(s, s.spans[k].trace, s.spans[k].parent.value)
  }

  lemma ParentsIff(s: Db)
    ensures ParentsExist(s) <==> ParentsPresent(s)
  {
    if ParentsExist(s) {
      forall k | k in s.spans && s.spans[k].parent.Some? ensures HasSpan(s, s.spans[k].trace, s.spans[k].parent.value) {
        assert ParentExists(s, s.spans[k]);
        HasSpanIff(s, s.spans[k].trace, s.spans[k].parent.value);
      }
    }
    if ParentsPresent(s) {
      forall k | k in s.spans ensures ParentExists(s, s.spans[k]) {
        if s.spans[k].parent.Some? {
          HasSpanIff(s, s.spans[k].trace, s.spans[k].parent.value);
        }
      }
    }
  }

  lemma SpanKeysIff(s: Db)
    ensures SpansHaveTraces(s) && IdentitiesUnique(s) && ParentsExist(s) <==> SpanKeysHold(s)
  {
    ParentsIff(s);
    assert IdentitiesUnique(s) <==>
           forall j, k :: j in s.spans && k in s.spans && j != k ==> s.spans[j].trace != s.spans[k].trace || s.spans[j].spanId != s.spans[k].spanId;
  }

  ghost predicate LinkedSpansPresent(s: Db) {
    forall k :: k in s.links && s.links[k].spanId.Some? ==> HasSpan(s, s.links[k].trace, s.links[k].spanId.value)
  }

  lemma LinkedSpansIff(s: Db)
    ensures LinkSpansExist(s) <==> LinkedSpansPresent(s)
  {
    if LinkSpansExist(s) {
      forall k | k in s.links && s.links[k].spanId.Some? ensures HasSpan(s, s.links[k].trace, s.links[k].spanId.value) {
        assert LinkSpanExists(s, s.links[k]);
        HasSpanIff(s, s.links[k].trace, s.links[k].spanId.value);
      }
    }
    if LinkedSpansPresent(s) {
      forall k | k in s.links ensures LinkSpanExists(s, s.links[k]) {
        if s.links[k].spanId.Some? {
          HasSpanIff(s, s.links[k].trace, s.links[k].spanId.value);
        }
      }
    }
  }

  lemma LinkKeysIff(s: Db)
    ensures LinksHaveTraces(s) && LinkSpansExist(s) && LinksUnique(s) <==> LinkKeysHold(s)
  {
    LinkedSpansIff(s);
    assert LinksUnique(s) <==>
           forall j, k :: j in s.links && k in s.links && j != k && s.links[j].spanId.Some? ==>
             s.links[j].trace != s.links[k].trace || s.links[j].spanId != s.links[k].spanId || s.links[j].artifact != s.links[k].artifact;
  }

  lemma KeysIff(s: Db)
    ensures Consistent(s) <==> KeysHold(s)
  {
    AttemptsIff(s);
    SpanKeysIff(s);
    LinkKeysIff(s);
  }

  // ----- One statement -----

  /** A trace that is stored is still running. */
  predicate Open(s: Db, trace: Id) {
    trace in s.traces ==> s.traces[trace].status == RunningTrace
  }

  /** What the triggers and the primary keys let through: nothing is deleted, no link is changed, a trace
      changes only while it runs, and spans and links are written only for a running trace; but the trigger on
      a span UPDATE asks for the trace the row belonged to. */
  predicate LetThrough(s: Db, statement: Statement) {
    match statement
    case InsertTrace(id, _) => id !in s.traces
    case UpdateTrace(id, newId, _) => id in s.traces && s.traces[id].status == RunningTrace && (newId == id || newId !in s.traces)
    case DeleteTrace(_) => false
    case InsertSpan(id, span) => id !in s.spans && Open(s, span.trace)
    case UpdateSpan(id, newId, _) => id in s.spans && Open(s, s.spans[id].trace) && (newId == id || newId !in s.spans)
    case DeleteSpan(_) => false
    case InsertLink(id, link) => id !in s.links && Open(s, link.trace)
    case UpdateLink(_, _, _) => false
    case DeleteLink(_) => false
    case WriteReference(_, _) => true
    case DeleteReference(id) => id in s.references
  }

  /** The table after a row was written under `newId`, in place of the row `id` if there was one. */
  ghost predicate IsReplaced<V>(before: map<Id, V>, id: Id, newId: Id, row: V, after: map<Id, V>) {
    && (forall k :: k in after <==> k == newId || (k in before && k != id))
    && (forall k :: k in after ==> after[k] == if k == newId then row else before[k])
  }

  ghost predicate IsRemoved<V>(before: map<Id, V>, id: Id, after: map<Id, V>) {
    && (forall k :: k in after <==> k in before && k != id)
    && (forall k :: k in after ==> after[k] == before[k])
  }

  /** What the statement leaves behind if nothing stops it; statements that never pass have no effect to state. */
  ghost predicate LeavesBehind(s: Db, statement: Statement, after: Db) {
    match statement
    case InsertTrace(id, row) =>
      IsReplaced(s.traces, id, id, row, after.traces) && after.spans == s.spans && after.links == s.links && after.references == s.references
    case UpdateTrace(id, newId, row) =>
      IsReplaced(s.traces, id, newId, row, after.traces) && after.spans == s.spans && after.links == s.links && after.references == s.references
    case InsertSpan(id, row) =>
      IsReplaced(s.spans, id, id, row, after.spans) && after.traces == s.traces && after.links == s.links && after.references == s.references
    case UpdateSpan(id, newId, row) =>
      IsReplaced(s.spans, id, newId, row, after.spans) && after.traces == s.traces && after.links == s.links && after.references == s.references
    case InsertLink(id, row) =>
      IsReplaced(s.links, id, id, row, after.links) && after.traces == s.traces && after.spans == s.spans && after.references == s.references
    case WriteReference(id, target) =>
      IsReplaced(s.references, id, id, target, after.references) && after.traces == s.traces && after.spans == s.spans && after.links == s.links
    case DeleteReference(id) =>
      IsRemoved(s.references, id, after.references) && after.traces == s.traces && after.spans == s.spans && after.links == s.links
    case _ => true
  }

  lemma LetThroughIff(s: Db, statement: Statement)
    ensures Unguarded(s, statement) <==> LetThrough(s, statement)
  {
  }

  lemma ReplacedIsMove<V>(before: map<Id, V>, id: Id, newId: Id, row: V, after: map<Id, V>)
    requires IsReplaced(before, id, newId, row, after)
    ensures after == Move(before, id, newId, row) && (newId == id ==> after == before[id := row])
  {
    assert after.Keys == Move(before, id, newId, row).Keys;
    assert newId == id ==> after.Keys == before[id := row].Keys;
  }

  lemma RemovedIsMinus<V>(before: map<Id, V>, id: Id, after: map<Id, V>)
    requires IsRemoved(before, id, after)
    ensures after == before - {id}
  {
    assert after.Keys == (before - {id}).Keys;
  }

  lemma EffectIs(s: Db, statement: Statement, after: Db)
    requires LetThrough(s, statement) && LeavesBehind(s, statement, after)
    ensures Effect(s, statement) == after
  {
    match statement
    case InsertTrace(id, row) => ReplacedIsMove(s.traces, id, id, row, after.traces);
    case UpdateTrace(id, newId, row) => ReplacedIsMove(s.traces, id, newId, row, after.traces);
    case InsertSpan(id, row) => ReplacedIsMove(s.spans, id, id, row, after.spans);
    case UpdateSpan(id, newId, row) => ReplacedIsMove(s.spans, id, newId, row, after.spans);
    case InsertLink(id, row) => ReplacedIsMove(s.links, id, id, row, after.links);
    case WriteReference(id, target) => ReplacedIsMove(s.references, id, id, target, after.references);
    case DeleteReference(id) => RemovedIsMinus(s.references, id, after.references);
  }

  /** Where all keys hold, a statement takes effect exactly when it is let through and all keys still hold
      in what it leaves behind; otherwise it changes nothing. */
  lemma StatementIs(s: Db, statement: Statement, after: Db)
    requires KeysHold(s) && LeavesBehind(s, statement, after)
    ensures Execute(s, statement) == if LetThrough(s, statement) && KeysHold(after) then after else s
  {
    KeysIff(s);
    KeysIff(after);
    AdmittedIff(s, statement);
    LetThroughIff(s, statement);
    if LetThrough(s, statement) {
      EffectIs(s, statement, after);
    }
  }

  // ----- Runs -----

  /** The states between the statements. */
  ghost predicate IsRun(states: seq<Db>, statements: seq<Statement>) {
    |states| == |statements| + 1 && forall i :: 0 <= i < |statements| ==> states[i + 1] == Execute(states[i], statements[i])
  }

  predicate Closed(s: Db, trace: Id) {
    trace in s.traces && s.traces[trace].status != RunningTrace
  }

  /** The trace has the same row, the same spans and the same links in both states. */
  ghost predicate SameTrace(s: Db, t: Db, trace: Id) {
    && trace in s.traces && trace in t.traces && s.traces[trace] == t.traces[trace]
    && (forall k :: k in s.spans && s.spans[k].trace == trace ==> k in t.spans && t.spans[k] == s.spans[k])
    && (forall k :: k in t.spans && t.spans[k].trace == trace ==> k in s.spans && s.spans[k] == t.spans[k])
    && (forall k :: k in s.links && s.links[k].trace == trace ==> k in t.links && t.links[k] == s.links[k])
    && (forall k :: k in t.links && t.links[k].trace == trace ==> k in s.links && s.links[k] == t.links[k])
  }

  /** A span UPDATE does not move its row to another trace. */
  predicate KeepsTrace(s: Db, statement: Statement) {
    statement.UpdateSpan? && statement.id in s.spans ==> statement.span.trace == s.spans[statement.id].trace
  }

  lemma StepKeepsTrace(s: Db, statement: Statement, trace: Id)
    requires Closed(s, trace) && KeepsTrace(s, statement)
    ensures SameTrace(s, Execute(s, statement), trace)
  {
    var t := Execute(s, statement);
    SealedStepIff(s, statement, trace);
    assert forall k :: k in s.spans && s.spans[k].trace == trace ==> k in SpansOf(s, trace);
    assert forall k :: k in t.spans && t.spans[k].trace == trace ==> k in SpansOf(t, trace);
    assert forall k :: k in s.links && s.links[k].trace == trace ==> k in LinksOf(s, trace);
    assert forall k :: k in t.links && t.links[k].trace == trace ==> k in LinksOf(t, trace);
  }

  lemma SameTraceTwice(s: Db, t: Db, u: Db, trace: Id)
    requires SameTrace(s, t, trace) && SameTrace(t, u, trace)
    ensures SameTrace(s, u, trace)
  {
  }

  /** From the state in which a trace has left RUNNING on, in every run whose span updates keep their trace,
      the trace stays the same in row, spans and links. */
  lemma {:induction false} ClosedTraceStays(states: seq<Db>, statements: seq<Statement>, i: nat, j: nat, trace: Id)
    requires IsRun(states, statements) && i <= j < |states| && Closed(states[i], trace)
    requires forall k :: i <= k < j ==> KeepsTrace(states[k], statements[k])
    ensures SameTrace(states[i], states[j], trace)
    decreases j - i
  {
    if i < j {
      ClosedTraceStays(states, statements, i, j - 1, trace);
      StepKeepsTrace(states[j - 1], statements[j - 1], trace);
      SameTraceTwice(states[i], states[j - 1], states[j], trace);
    }
  }

  /** Keys that hold at the start hold throughout every run. */
  lemma {:induction false} KeysHoldForever(states: seq<Db>, statements: seq<Statement>, j: nat)
    requires IsRun(states, statements) && j < |states| && KeysHold(states[0])
    ensures KeysHold(states[j])
  {
    if j > 0 {
      KeysHoldForever(states, statements, j - 1);
      KeysIff(states[j - 1]);
      ExecuteKeepsConsistent(states[j - 1], statements[j - 1]);
      KeysIff(states[j]);
    }
  }
}
