/** The retention and seal guards that triggers put on the trace tables, as a mutable database: which
    statements the guards and the keys admit, and what no admitted statement can undo. */
module TraceGuards {
  import opened Common

  datatype TraceStatus = RunningTrace | CompletedTrace | FailedTrace | DegradedTrace

  datatype WorkflowKind = Prediction | Reflection | AgentEval

  type AttemptNumber = n: int | n >= 1 witness 1

  /** What a trace is an attempt at. */
  datatype Attempt = Attempt(kind: WorkflowKind, subject: Id, number: AttemptNumber)

  datatype TraceRow = TraceRow(status: TraceStatus, attempt: Attempt, body: Id)

  datatype SpanRow = SpanRow(trace: Id, spanId: Id, parent: Option<Id>, body: Id)

  datatype Artifact = Artifact(kind: Id, id: Id, relation: Id)

  datatype LinkRow = LinkRow(trace: Id, spanId: Option<Id>, artifact: Artifact, body: Id)

  /** `references` are the rows of other tables that name a trace. */
  datatype Db = Db(
    traces: map<Id, TraceRow>, spans: map<Id, SpanRow>, links: map<Id, LinkRow>, references: map<Id, Id>)

  /** Single-row statements. An UPDATE carries the whole new row, its primary key included. */
  datatype Statement =
    | InsertTrace(id: Id, trace: TraceRow)
    | UpdateTrace(id: Id, newId: Id, trace: TraceRow)
    | DeleteTrace(id: Id)
    | InsertSpan(id: Id, span: SpanRow)
    | UpdateSpan(id: Id, newId: Id, span: SpanRow)
    | DeleteSpan(id: Id)
    | InsertLink(id: Id, link: LinkRow)
    | UpdateLink(id: Id, newId: Id, link: LinkRow)
    | DeleteLink(id: Id)
    | WriteReference(id: Id, target: Id)
    | DeleteReference(id: Id)

  // ----- Keys -----

  predicate Sealed(s: Db, trace: Id) {
    trace in s.traces && s.traces[trace].status != RunningTrace
  }

  /** Some span, link or row of another table refers to the trace. */
  predicate Referenced(s: Db, trace: Id) {
    || (exists k :: k in s.spans && s.spans[k].trace == trace)
    || (exists k :: k in s.links && s.links[k].trace == trace)
    || (exists k :: k in s.references && s.references[k] == trace)
  }

  /** The span identity is free apart from the row `except`. */
  predicate IdentityFree(s: Db, trace: Id, spanId: Id, except: Id) {
    forall k :: k in s.spans && k != except ==> !(s.spans[k].trace == trace && s.spans[k].spanId == spanId)
  }

  predicate Linked(s: Db, trace: Id, spanId: Id) {
    exists k :: k in s.links && s.links[k].trace == trace && s.links[k].spanId == Some(spanId)
  }

  predicate SpanExists(s: Db, trace: Id, spanId: Id) {
    exists k :: k in s.spans && s.spans[k].trace == trace && s.spans[k].spanId == spanId
  }

  /** A row other than `id` has this identity. */
  predicate ExistsElsewhere(s: Db, id: Id, trace: Id, spanId: Id) {
    exists k :: k in s.spans && k != id && s.spans[k].trace == trace && s.spans[k].spanId == spanId
  }

  /** The parent is the row itself or another row of its trace. */
  predicate ParentPresent(s: Db, id: Id, span: SpanRow) {
    span.parent.Some? ==> span.parent.value == span.spanId || ExistsElsewhere(s, id, span.trace, span.parent.value)
  }

  predicate IsChild(s: Db, k: Id, id: Id) {
    && k in s.spans && id in s.spans
    && s.spans[k].trace == s.spans[id].trace && s.spans[k].parent == Some(s.spans[id].spanId)
  }

  /** Another span names this row as its parent. */
  predicate HasChildren(s: Db, id: Id) {
    exists k :: k in s.spans && k != id && IsChild(s, k, id)
  }

  /** The unique constraint on links; a missing span id is never equal to another. */
  predicate SameLink(a: LinkRow, b: LinkRow) {
    a.trace == b.trace && a.spanId.Some? && a.spanId == b.spanId && a.artifact == b.artifact
  }

  predicate LinkFree(s: Db, link: LinkRow) {
    forall k :: k in s.links ==> !SameLink(s.links[k], link)
  }

  /** The attempt is free apart from the row `except`. */
  predicate AttemptFree(s: Db, attempt: Attempt, except: Id) {
    forall k :: k in s.traces && k != except ==> s.traces[k].attempt != attempt
  }

  predicate TraceInsertAdmitted(s: Db, id: Id, trace: TraceRow) {
    id !in s.traces && AttemptFree(s, trace.attempt, id)
  }

  predicate TraceUpdateAdmitted(s: Db, id: Id, newId: Id, trace: TraceRow) {
    && id in s.traces && s.traces[id].status == RunningTrace
    && (newId != id ==> newId !in s.traces && !Referenced(s, id))
    && AttemptFree(s, trace.attempt, id)
  }

  predicate SpanInsertAdmitted(s: Db, id: Id, span: SpanRow) {
    && !Sealed(s, span.trace)
    && id !in s.spans && span.trace in s.traces && IdentityFree(s, span.trace, span.spanId, id)
    && ParentPresent(s, id, span)
  }

  /** The trigger looks at the trace of the OLD row only. */
  predicate SpanUpdateAdmitted(s: Db, id: Id, newId: Id, span: SpanRow) {
    && id in s.spans && !Sealed(s, s.spans[id].trace)
    && (newId != id ==> newId !in s.spans)
    && span.trace in s.traces && IdentityFree(s, span.trace, span.spanId, id)
    && ParentPresent(s, id, span)
    && (SameIdentity(span, s.spans[id]) || (!Linked(s, s.spans[id].trace, s.spans[id].spanId) && !HasChildren(s, id)))
  }

  predicate SameIdentity(a: SpanRow, b: SpanRow) {
    a.trace == b.trace && a.spanId == b.spanId
  }

  predicate LinkInsertAdmitted(s: Db, id: Id, link: LinkRow) {
    && !Sealed(s, link.trace)
    && id !in s.links && link.trace in s.traces && (link.spanId.Some? ==> SpanExists(s, link.trace, link.spanId.value))
    && LinkFree(s, link)
  }

  /** What the statement would leave behind if nothing stopped it. */
  function Effect(s: Db, statement: Statement): Db {
    match statement
    case InsertTrace(id, trace) => s.(traces := s.traces[id := trace])
    case UpdateTrace(id, newId, trace) => s.(traces := Move(s.traces, id, newId, trace))
    case InsertSpan(id, span) => s.(spans := s.spans[id := span])
    case UpdateSpan(id, newId, span) => s.(spans := Move(s.spans, id, newId, span))
    case InsertLink(id, link) => s.(links := s.links[id := link])
    case WriteReference(id, trace) => s.(references := s.references[id := trace])
    case DeleteReference(id) => s.(references := s.references - {id})
    case _ => s
  }

  /** What the guards and the keys check, row by row. */
  predicate Admitted(s: Db, statement: Statement) {
    match statement
    case InsertTrace(id, trace) => TraceInsertAdmitted(s, id, trace)
    case UpdateTrace(id, newId, trace) => TraceUpdateAdmitted(s, id, newId, trace)
    case InsertSpan(id, span) => SpanInsertAdmitted(s, id, span)
    case UpdateSpan(id, newId, span) => SpanUpdateAdmitted(s, id, newId, span)
    case InsertLink(id, link) => LinkInsertAdmitted(s, id, link)
    case WriteReference(_, trace) => trace in s.traces
    case DeleteReference(id) => id in s.references
    case _ => false
  }

  /** One statement; an aborted or rejected one changes nothing. */
  function Execute(s: Db, statement: Statement): Db {
    if Admitted(s, statement) then Effect(s, statement) else s
  }

  function ExecuteAll(s: Db, statements: seq<Statement>): Db {
    if statements == [] then s
    else Execute(ExecuteAll(s, statements[..|statements| - 1]), statements[|statements| - 1])
  }

  // ----- The database that runs them -----

  class Database {
    var traces: map<Id, TraceRow>
    var spans: map<Id, SpanRow>
    var links: map<Id, LinkRow>
    var references: map<Id, Id>

    function State(): Db
      reads this
    {
      Db(traces, spans, links, references)
    }

    constructor ()
      ensures State() == Db(map[], map[], map[], map[])
    {
      traces, spans, links, references := map[], map[], map[], map[];
    }

    method AddTrace(id: Id, trace: TraceRow) returns (changed: nat)
      modifies this`traces
      ensures State() == Execute(old(State()), InsertTrace(id, trace))
      ensures changed == if TraceInsertAdmitted(old(State()), id, trace) then 1 else 0
    {
      changed := 0;
      if id in traces || !AttemptFree(State(), trace.attempt, id) { return; }
      traces := traces[id := trace];
      changed := 1;
    }

    method WriteTrace(id: Id, newId: Id, trace: TraceRow) returns (changed: nat)
      modifies this`traces
      ensures State() == Execute(old(State()), UpdateTrace(id, newId, trace))
      ensures changed == if TraceUpdateAdmitted(old(State()), id, newId, trace) then 1 else 0
    {
      changed := 0;
      if id !in traces { return; }
      if traces[id].status != RunningTrace { return; }
      if newId != id && (newId in traces || Referenced(State(), id)) { return; }
      if !AttemptFree(State(), trace.attempt, id) { return; }
      traces := traces - {id};
      traces := traces[newId := trace];
      changed := 1;
    }

    method AddSpan(id: Id, span: SpanRow) returns (changed: nat)
      modifies this`spans
      ensures State() == Execute(old(State()), InsertSpan(id, span))
      ensures changed == if SpanInsertAdmitted(old(State()), id, span) then 1 else 0
    {
      changed := 0;
      if Sealed(State(), span.trace) { return; }
      if id in spans || span.trace !in traces || !IdentityFree(State(), span.trace, span.spanId, id) { return; }
      if !ParentPresent(State(), id, span) { return; }
      spans := spans[id := span];
      changed := 1;
    }

    method WriteSpan(id: Id, newId: Id, span: SpanRow) returns (changed: nat)
      modifies this`spans
      ensures State() == Execute(old(State()), UpdateSpan(id, newId, span))
      ensures changed == if SpanUpdateAdmitted(old(State()), id, newId, span) then 1 else 0
    {
      changed := 0;
      if id !in spans { return; }
      var row := spans[id];
      if Sealed(State(), row.trace) { return; }
      if newId != id && newId in spans { return; }
      if span.trace !in traces || !IdentityFree(State(), span.trace, span.spanId, id) { return; }
      if !ParentPresent(State(), id, span) { return; }
      if !SameIdentity(span, row) && (Linked(State(), row.trace, row.spanId) || HasChildren(State(), id)) { return; }
      spans := spans - {id};
      spans := spans[newId := span];
      changed := 1;
    }

    method AddLink(id: Id, link: LinkRow) returns (changed: nat)
      modifies this`links
      ensures State() == Execute(old(State()), InsertLink(id, link))
      ensures changed == if LinkInsertAdmitted(old(State()), id, link) then 1 else 0
    {
      changed := 0;
      if Sealed(State(), link.trace) { return; }
      if id in links || link.trace !in traces { return; }
      if link.spanId.Some? && !SpanExists(State(), link.trace, link.spanId.value) { return; }
      if !LinkFree(State(), link) { return; }
      links := links[id := link];
      changed := 1;
    }
  }

  // ----- Referential integrity -----

  ghost predicate SpansHaveTraces(s: Db) {
    forall k :: k in s.spans ==> s.spans[k].trace in s.traces
  }

  ghost predicate LinksHaveTraces(s: Db) {
    forall k :: k in s.links ==> s.links[k].trace in s.traces
  }

  ghost predicate IdentitiesUnique(s: Db) {
    forall j, k :: j in s.spans && k in s.spans && SameIdentity(s.spans[j], s.spans[k]) ==> j == k
  }

  ghost predicate ParentExists(s: Db, span: SpanRow) {
    span.parent.Some? ==> SpanExists(s, span.trace, span.parent.value)
  }

  ghost predicate ParentsExist(s: Db) {
    forall k :: k in s.spans ==> ParentExists(s, s.spans[k])
  }

  ghost predicate LinkSpanExists(s: Db, link: LinkRow) {
    link.spanId.Some? ==> SpanExists(s, link.trace, link.spanId.value)
  }

  ghost predicate LinkSpansExist(s: Db) {
    forall k :: k in s.links ==> LinkSpanExists(s, s.links[k])
  }

  ghost predicate LinksUnique(s: Db) {
    forall j, k :: j in s.links && k in s.links && SameLink(s.links[j], s.links[k]) ==> j == k
  }

  ghost predicate AttemptsUnique(s: Db) {
    forall j, k :: j in s.traces && k in s.traces && s.traces[j].attempt == s.traces[k].attempt ==> j == k
  }

  ghost predicate ReferencesHaveTraces(s: Db) {
    forall k :: k in s.references ==> s.references[k] in s.traces
  }

  /** Every unique constraint of the three trace tables and every foreign key from or to them. */
  ghost predicate Consistent(s: Db) {
    && AttemptsUnique(s) && ReferencesHaveTraces(s)
    && SpansHaveTraces(s) && IdentitiesUnique(s) && ParentsExist(s)
    && LinksHaveTraces(s) && LinkSpansExist(s) && LinksUnique(s)
  }

  /** The triggers let the statement through, and the primary key it writes is free. */
  predicate Unguarded(s: Db, statement: Statement) {
    match statement
    case InsertTrace(id, _) => id !in s.traces
    case UpdateTrace(id, newId, _) => id in s.traces && s.traces[id].status == RunningTrace && (newId != id ==> newId !in s.traces)
    case InsertSpan(id, span) => !Sealed(s, span.trace) && id !in s.spans
    case UpdateSpan(id, newId, _) => id in s.spans && !Sealed(s, s.spans[id].trace) && (newId != id ==> newId !in s.spans)
    case InsertLink(id, link) => !Sealed(s, link.trace) && id !in s.links
    case WriteReference(_, _) => true
    case DeleteReference(id) => id in s.references
    case _ => false
  }

  /** The row-by-row checks are exactly the constraints: on a consistent database a statement takes effect
      if and only if the triggers let it through and what it leaves behind is consistent. */
  lemma AdmittedIff(s: Db, statement: Statement)
    requires Consistent(s)
    ensures Admitted(s, statement) <==> Unguarded(s, statement) && Consistent(Effect(s, statement))
  {
    if Unguarded(s, statement) {
      match statement
      case InsertTrace(id, trace) => TraceInsertIff(s, id, trace);
      case UpdateTrace(id, newId, trace) => TraceUpdateIff(s, id, newId, trace);
      case InsertSpan(id, span) => SpanInsertIff(s, id, span);
      case UpdateSpan(id, newId, span) => SpanUpdateIff(s, id, newId, span);
      case InsertLink(id, link) => LinkInsertIff(s, id, link);
      case WriteReference(id, trace) => ReferenceIff(s, id, trace);
      case DeleteReference(id) => SameSpansSameKeys(s, Effect(s, statement));
    }
  }

  /** Every statement keeps every key, renamed primary keys included. */
  lemma ExecuteKeepsConsistent(s: Db, statement: Statement)
    requires Consistent(s)
    ensures Consistent(Execute(s, statement))
  {
    AdmittedIff(s, statement);
  }

  /** The keys between spans and links do not depend on the traces. */
  lemma SameSpansSameKeys(s: Db, after: Db)
    requires after.spans == s.spans && after.links == s.links
    ensures IdentitiesUnique(after) == IdentitiesUnique(s) && ParentsExist(after) == ParentsExist(s)
    ensures LinkSpansExist(after) == LinkSpansExist(s) && LinksUnique(after) == LinksUnique(s)
  {
    forall trace, spanId ensures SpanExists(after, trace, spanId) == SpanExists(s, trace, spanId) {
    }
  }

  // ----- One trace inserted or replaced -----

  lemma AttemptsWithTrace(s: Db, id: Id, newId: Id, trace: TraceRow)
    requires AttemptsUnique(s) && (newId == id || newId !in s.traces)
    ensures AttemptsUnique(s.(traces := Move(s.traces, id, newId, trace))) <==> AttemptFree(s, trace.attempt, id)
  {
    var after := Move(s.traces, id, newId, trace);
    assert newId in after && after[newId] == trace;
    if AttemptsUnique(s.(traces := after)) {
      forall k | k in s.traces && k != id ensures s.traces[k].attempt != trace.attempt {
        assert k in after && after[k] == s.traces[k];
      }
    }
  }

  lemma TraceInsertIff(s: Db, id: Id, trace: TraceRow)
    requires Consistent(s) && Unguarded(s, InsertTrace(id, trace))
    ensures TraceInsertAdmitted(s, id, trace) <==> Consistent(Effect(s, InsertTrace(id, trace)))
  {
    SameSpansSameKeys(s, Effect(s, InsertTrace(id, trace)));
    AttemptsWithTrace(s, id, id, trace);
    assert Move(s.traces, id, id, trace) == s.traces[id := trace];
  }

  lemma TraceUpdateIff(s: Db, id: Id, newId: Id, trace: TraceRow)
    requires Consistent(s) && Unguarded(s, UpdateTrace(id, newId, trace))
    ensures TraceUpdateAdmitted(s, id, newId, trace) <==> Consistent(Effect(s, UpdateTrace(id, newId, trace)))
  {
    SameSpansSameKeys(s, Effect(s, UpdateTrace(id, newId, trace)));
    AttemptsWithTrace(s, id, newId, trace);
  }

  lemma ReferenceIff(s: Db, id: Id, trace: Id)
    requires Consistent(s)
    ensures trace in s.traces <==> Consistent(Effect(s, WriteReference(id, trace)))
  {
    var after := Effect(s, WriteReference(id, trace));
    SameSpansSameKeys(s, after);
    assert id in after.references && after.references[id] == trace;
  }

  // ----- One span inserted or replaced -----

  /** The span in the row `newId`, which replaces the row `id` if there is one. */
  function WithSpan(s: Db, id: Id, newId: Id, span: SpanRow): Db {
    s.(spans := Move(s.spans, id, newId, span))
  }

  lemma RowsWithSpan(s: Db, id: Id, newId: Id, span: SpanRow, k: Id)
    requires newId == id || newId !in s.spans
    ensures var after := WithSpan(s, id, newId, span).spans;
            && (k in after <==> k == newId || (k in s.spans && k != id))
            && (k in after ==> after[k] == if k == newId then span else s.spans[k])
  {
  }

  lemma ExistsWithSpan(s: Db, id: Id, newId: Id, span: SpanRow, trace: Id, spanId: Id)
    requires newId == id || newId !in s.spans
    ensures SpanExists(WithSpan(s, id, newId, span), trace, spanId) <==>
            (span.trace == trace && span.spanId == spanId) || ExistsElsewhere(s, id, trace, spanId)
  {
    var after := WithSpan(s, id, newId, span).spans;
    assert newId in after && after[newId] == span;
    if k :| k in s.spans && k != id && s.spans[k].trace == trace && s.spans[k].spanId == spanId {
      RowsWithSpan(s, id, newId, span, k);
    }
  }

  lemma ExistsAt(s: Db, id: Id, trace: Id, spanId: Id)
    requires IdentitiesUnique(s) && SpanExists(s, trace, spanId)
    ensures ExistsElsewhere(s, id, trace, spanId) <==>
            !(id in s.spans && s.spans[id].trace == trace && s.spans[id].spanId == spanId)
  {
    var k :| k in s.spans && s.spans[k].trace == trace && s.spans[k].spanId == spanId;
  }

  lemma TracesWithSpan(s: Db, id: Id, newId: Id, span: SpanRow)
    requires SpansHaveTraces(s) && (newId == id || newId !in s.spans)
    ensures SpansHaveTraces(WithSpan(s, id, newId, span)) <==> span.trace in s.traces
  {
    var after := WithSpan(s, id, newId, span).spans;
    assert newId in after && after[newId] == span;
  }

  lemma IdentitiesWithSpan(s: Db, id: Id, newId: Id, span: SpanRow)
    requires IdentitiesUnique(s) && (newId == id || newId !in s.spans)
    ensures IdentitiesUnique(WithSpan(s, id, newId, span)) <==> IdentityFree(s, span.trace, span.spanId, id)
  {
    var after := WithSpan(s, id, newId, span).spans;
    assert newId in after && after[newId] == span;
    if IdentitiesUnique(WithSpan(s, id, newId, span)) {
      forall k | k in s.spans && k != id ensures !SameIdentity(s.spans[k], span) {
        assert k in after && after[k] == s.spans[k];
      }
    }
  }

  /** What the new identity leaves behind: nothing may still refer to the old one. */
  predicate MayLeave(s: Db, id: Id, span: SpanRow) {
    id !in s.spans || SameIdentity(span, s.spans[id]) || (!Linked(s, s.spans[id].trace, s.spans[id].spanId) && !HasChildren(s, id))
  }

  /** A reference that held keeps holding unless it names the identity that is given up. */
  lemma ReferenceSurvives(s: Db, id: Id, newId: Id, span: SpanRow, trace: Id, spanId: Id)
    requires IdentitiesUnique(s) && (newId == id || newId !in s.spans) && SpanExists(s, trace, spanId)
    ensures SpanExists(WithSpan(s, id, newId, span), trace, spanId) <==>
            (span.trace == trace && span.spanId == spanId) ||
            !(id in s.spans && s.spans[id].trace == trace && s.spans[id].spanId == spanId)
  {
    ExistsWithSpan(s, id, newId, span, trace, spanId);
    ExistsAt(s, id, trace, spanId);
  }

  lemma ParentsWithSpan(s: Db, id: Id, newId: Id, span: SpanRow)
    requires IdentitiesUnique(s) && ParentsExist(s) && (newId == id || newId !in s.spans)
    ensures ParentsExist(WithSpan(s, id, newId, span)) <==>
            ParentPresent(s, id, span) && (id in s.spans && HasChildren(s, id) ==> SameIdentity(span, s.spans[id]))
  {
    var after := WithSpan(s, id, newId, span);
    assert newId in after.spans && after.spans[newId] == span;
    if span.parent.Some? {
      ExistsWithSpan(s, id, newId, span, span.trace, span.parent.value);
    }
    assert ParentExists(after, span) <==> ParentPresent(s, id, span);
    forall k | k in s.spans && k != id && s.spans[k].parent.Some?
      ensures ParentExists(after, s.spans[k]) <==> !IsChild(s, k, id) || SameIdentity(span, s.spans[id])
    {
      assert ParentExists(s, s.spans[k]);
      ReferenceSurvives(s, id, newId, span, s.spans[k].trace, s.spans[k].parent.value);
    }
    if id in s.spans && HasChildren(s, id) && ParentsExist(after) {
      var k :| k in s.spans && k != id && IsChild(s, k, id);
      assert k in after.spans && ParentExists(after, after.spans[k]);
    }
  }

  lemma LinksWithSpan(s: Db, id: Id, newId: Id, span: SpanRow)
    requires IdentitiesUnique(s) && LinkSpansExist(s) && (newId == id || newId !in s.spans)
    ensures LinkSpansExist(WithSpan(s, id, newId, span)) <==>
            (id in s.spans && Linked(s, s.spans[id].trace, s.spans[id].spanId) ==> SameIdentity(span, s.spans[id]))
  {
    var after := WithSpan(s, id, newId, span);
    forall k | k in s.links && s.links[k].spanId.Some?
      ensures LinkSpanExists(after, s.links[k]) <==>
              (id in s.spans && s.links[k].trace == s.spans[id].trace && s.links[k].spanId == Some(s.spans[id].spanId) ==>
               SameIdentity(span, s.spans[id]))
    {
      assert LinkSpanExists(s, s.links[k]);
      ReferenceSurvives(s, id, newId, span, s.links[k].trace, s.links[k].spanId.value);
    }
  }

  lemma SpanChange(s: Db, id: Id, newId: Id, span: SpanRow)
    requires Consistent(s) && (newId == id || newId !in s.spans)
    ensures Consistent(WithSpan(s, id, newId, span)) <==>
            && span.trace in s.traces && IdentityFree(s, span.trace, span.spanId, id)
            && ParentPresent(s, id, span) && MayLeave(s, id, span)
  {
    TracesWithSpan(s, id, newId, span);
    IdentitiesWithSpan(s, id, newId, span);
    ParentsWithSpan(s, id, newId, span);
    LinksWithSpan(s, id, newId, span);
  }

  lemma SpanInsertIff(s: Db, id: Id, span: SpanRow)
    requires Consistent(s) && Unguarded(s, InsertSpan(id, span))
    ensures SpanInsertAdmitted(s, id, span) <==> Consistent(Effect(s, InsertSpan(id, span)))
  {
    assert Move(s.spans, id, id, span) == s.spans[id := span];
    SpanChange(s, id, id, span);
  }

  lemma SpanUpdateIff(s: Db, id: Id, newId: Id, span: SpanRow)
    requires Consistent(s) && Unguarded(s, UpdateSpan(id, newId, span))
    ensures SpanUpdateAdmitted(s, id, newId, span) <==> Consistent(Effect(s, UpdateSpan(id, newId, span)))
  {
    SpanChange(s, id, newId, span);
  }

  // ----- One more link -----

  lemma LinkInsertIff(s: Db, id: Id, link: LinkRow)
    requires Consistent(s) && Unguarded(s, InsertLink(id, link))
    ensures LinkInsertAdmitted(s, id, link) <==> Consistent(Effect(s, InsertLink(id, link)))
  {
    var after := Effect(s, InsertLink(id, link));
    assert id in after.links && after.links[id] == link;
    SameSpans(s, after);
    LinkIsNew(s, id, link);
    LinksWithLink(s, id, link);
  }

  lemma SameSpans(s: Db, after: Db)
    requires after.spans == s.spans && after.traces == s.traces
    ensures SpansHaveTraces(after) == SpansHaveTraces(s)
    ensures IdentitiesUnique(after) == IdentitiesUnique(s) && ParentsExist(after) == ParentsExist(s)
    ensures forall link :: LinkSpanExists(after, link) == LinkSpanExists(s, link)
  {
    forall trace, spanId ensures SpanExists(after, trace, spanId) == SpanExists(s, trace, spanId) {
    }
  }

  lemma LinkIsNew(s: Db, id: Id, link: LinkRow)
    requires LinksUnique(s) && id !in s.links
    ensures LinksUnique(s.(links := s.links[id := link])) <==> LinkFree(s, link)
  {
    var after := s.(links := s.links[id := link]);
    assert id in after.links && after.links[id] == link;
    if LinksUnique(after) {
      forall k | k in s.links ensures !SameLink(s.links[k], link) {
        assert k in after.links && after.links[k] == s.links[k];
      }
    }
  }

  lemma LinksWithLink(s: Db, id: Id, link: LinkRow)
    requires LinkSpansExist(s) && LinksHaveTraces(s) && id !in s.links
    ensures var after := s.(links := s.links[id := link]);
            && (LinkSpansExist(after) <==> LinkSpanExists(s, link))
            && (LinksHaveTraces(after) <==> link.trace in s.traces)
  {
    var after := s.(links := s.links[id := link]);
    assert id in after.links && after.links[id] == link;
    SameSpans(s, after);
  }

  // ----- Sealed history -----

  function SpansOf(s: Db, trace: Id): map<Id, SpanRow> {
    map k | k in s.spans && s.spans[k].trace == trace :: s.spans[k]
  }

  function LinksOf(s: Db, trace: Id): map<Id, LinkRow> {
    map k | k in s.links && s.links[k].trace == trace :: s.links[k]
  }

  /** The statement moves a span of another trace into this one. */
  predicate MovesInto(s: Db, statement: Statement, trace: Id) {
    && statement.UpdateSpan? && SpanUpdateAdmitted(s, statement.id, statement.newId, statement.span)
    && statement.span.trace == trace && s.spans[statement.id].trace != trace
  }

  /** What each statement does to a trace that is no longer running: its row and its links stay, and its
      spans stay if and only if the statement is not a span UPDATE that moves a foreign span into it. */
  lemma SealedStepIff(s: Db, statement: Statement, trace: Id)
    requires Sealed(s, trace)
    ensures var after := Execute(s, statement);
            && trace in after.traces && after.traces[trace] == s.traces[trace]
            && LinksOf(after, trace) == LinksOf(s, trace)
            && (SpansOf(after, trace) == SpansOf(s, trace) <==> !MovesInto(s, statement, trace))
  {
    match statement
    case UpdateTrace(id, newId, row) => SealedRowStays(s, id, newId, row, trace);
    case InsertSpan(id, span) => SpanInsertStep(s, id, span, trace);
    case UpdateSpan(id, newId, span) => SpanUpdateStep(s, id, newId, span, trace);
    case InsertLink(id, link) => LinkInsertStep(s, id, link, trace);
    case _ => OtherStep(s, statement, trace);
  }

  lemma SpanInsertStep(s: Db, id: Id, span: SpanRow, trace: Id)
    requires Sealed(s, trace)
    ensures var after := Execute(s, InsertSpan(id, span));
            after.traces == s.traces && after.links == s.links && SpansOf(after, trace) == SpansOf(s, trace)
  {
  }

  lemma LinkInsertStep(s: Db, id: Id, link: LinkRow, trace: Id)
    requires Sealed(s, trace)
    ensures var after := Execute(s, InsertLink(id, link));
            after.traces == s.traces && after.spans == s.spans && LinksOf(after, trace) == LinksOf(s, trace)
  {
  }

  lemma OtherStep(s: Db, statement: Statement, trace: Id)
    requires trace in s.traces
    requires !statement.UpdateTrace? && !statement.InsertSpan? && !statement.UpdateSpan? && !statement.InsertLink?
    ensures var after := Execute(s, statement);
            && trace in after.traces && after.traces[trace] == s.traces[trace]
            && after.spans == s.spans && after.links == s.links
  {
  }

  lemma SealedRowStays(s: Db, id: Id, newId: Id, row: TraceRow, trace: Id)
    requires Sealed(s, trace)
    ensures var after := Execute(s, UpdateTrace(id, newId, row));
            && trace in after.traces && after.traces[trace] == s.traces[trace]
            && after.spans == s.spans && after.links == s.links
  {
  }

  lemma SpanUpdateStep(s: Db, id: Id, newId: Id, span: SpanRow, trace: Id)
    requires Sealed(s, trace)
    ensures var after := Execute(s, UpdateSpan(id, newId, span));
            && after.traces == s.traces && after.links == s.links
            && (SpansOf(after, trace) == SpansOf(s, trace) <==> !MovesInto(s, UpdateSpan(id, newId, span), trace))
  {
    if SpanUpdateAdmitted(s, id, newId, span) {
      var after := Execute(s, UpdateSpan(id, newId, span));
      if span.trace == trace {
        assert newId in SpansOf(after, trace);
        assert newId !in SpansOf(s, trace);
      } else {
        assert SpansOf(after, trace) == SpansOf(s, trace);
      }
    }
  }

  /** Span updates keep their `trace_id`, at every point of the run. */
  ghost predicate KeepTraceIds(s: Db, statements: seq<Statement>) {
    statements == [] ||
    var before, last := ExecuteAll(s, statements[..|statements| - 1]), statements[|statements| - 1];
    KeepTraceIds(s, statements[..|statements| - 1]) &&
    (last.UpdateSpan? && last.id in before.spans ==> last.span.trace == before.spans[last.id].trace)
  }

  /** A trace that has left RUNNING keeps the same row, spans and links over every sequence of statements
      whose span updates keep their trace. */
  lemma {:induction false} SealedHistory(s: Db, statements: seq<Statement>, trace: Id)
    requires Sealed(s, trace) && KeepTraceIds(s, statements)
    ensures var after := ExecuteAll(s, statements);
            && trace in after.traces && after.traces[trace] == s.traces[trace]
            && SpansOf(after, trace) == SpansOf(s, trace) && LinksOf(after, trace) == LinksOf(s, trace)
  {
    if statements != [] {
      SealedHistory(s, statements[..|statements| - 1], trace);
      SealedStepIff(ExecuteAll(s, statements[..|statements| - 1]), statements[|statements| - 1], trace);
    }
  }

  /** The gap is open: any span of a running trace that nothing refers to and that names no parent can be
      moved into any sealed trace in which its identity is free, although the same span could not be
      inserted there. */
  lemma SealedTraceCanGain(s: Db, id: Id, trace: Id)
    requires Sealed(s, trace) && id in s.spans && s.spans[id].trace in s.traces && !Sealed(s, s.spans[id].trace)
    requires IdentityFree(s, trace, s.spans[id].spanId, id) && !Linked(s, s.spans[id].trace, s.spans[id].spanId)
    requires s.spans[id].parent.None? && !HasChildren(s, id)
    ensures var moved := s.spans[id].(trace := trace);
            && SpansOf(Execute(s, UpdateSpan(id, id, moved)), trace) == SpansOf(s, trace)[id := moved] != SpansOf(s, trace)
            && forall other :: Execute(s, InsertSpan(other, moved)) == s
  {
    SealedStepIff(s, UpdateSpan(id, id, s.spans[id].(trace := trace)), trace);
  }
}
