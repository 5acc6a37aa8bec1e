/** What the handoff validator leaves open: it does not compare the evidence a task may cite with the
    snapshot, so the window guarantee of a forecast holds exactly when that comparison would. */
module PremarketGap {
  import opened Common
  import opened Scoring
  import opened Shrinkage
  import opened Coverage
  import opened Premarket
  import opened PremarketBuilder
  import opened PremarketFinal

  ghost predicate Succeeds(h: Handoff, b: Bundle, acceptedAt: int) {
    BundleValid(b) && Finalize(h, b, acceptedAt).Ok?
  }

  ghost predicate Cites(h: Handoff, b: Bundle, acceptedAt: int, id: Id) {
    Succeeds(h, b, acceptedAt) && id in Finalize(h, b, acceptedAt).value.evidence
  }

  /** No forecast the handoff can lead to cites anything outside the window. */
  ghost predicate CitesOnlyWindow(h: Handoff) {
    forall b, acceptedAt, id :: Cites(h, b, acceptedAt, id) ==> CitesWindow(h.body.snapshot, id)
  }

  /** Some bundle finalises and leaves room for one more cited id. */
  ghost predicate HasRoom(h: Handoff) {
    exists b, acceptedAt :: Succeeds(h, b, acceptedAt) && |CitedEvidence(b.drafts)| < MAX_EVIDENCE
  }

  // ----- One more citation -----

  function Extended(d: AgentDraft, task: AssignmentId, id: Id): AgentDraft {
    if d.assignment == task && id !in d.evidence then d.(evidence := d.evidence + [id]) else d
  }

  /** The same drafts, with one id added to the draft of one task. */
  function Extend(drafts: seq<AgentDraft>, task: AssignmentId, id: Id): seq<AgentDraft> {
    Map(drafts, (d: AgentDraft) => Extended(d, task, id))
  }

  lemma ExtendKeepsIdentities(drafts: seq<AgentDraft>, task: AssignmentId, id: Id)
    ensures DraftIds(Extend(drafts, task, id)) == DraftIds(drafts)
    ensures DraftAgents(Extend(drafts, task, id)) == DraftAgents(drafts)
  {
    var more := Extend(drafts, task, id);
    forall agent ensures agent in DraftAgents(more) <==> agent in DraftAgents(drafts) {
      if agent in DraftAgents(more) {
        var d :| d in more && d.agent == agent;
        var k :| 0 <= k < |more| && more[k] == d;
        assert drafts[k] in drafts;
      }
      if agent in DraftAgents(drafts) {
        var d :| d in drafts && d.agent == agent;
        var k :| 0 <= k < |drafts| && drafts[k] == d;
        assert more[k] in more;
      }
    }
  }

  lemma DraftCitesFew(drafts: seq<AgentDraft>, d: AgentDraft)
    requires d in drafts && DraftValid(d)
    ensures |d.evidence| <= |CitedEvidence(drafts)|
  {
    UniqueMembers(d.evidence);
    DistinctSize(d.evidence);
    SubsetSize(ToSet(d.evidence), CitedEvidence(drafts));
  }

  lemma ExtendedIsValid(d: AgentDraft, task: AssignmentId, id: Id)
    requires DraftValid(d) && |d.evidence| < MAX_EVIDENCE
    ensures DraftValid(Extended(d, task, id))
  {
    UniqueSnoc(d.evidence, id);
  }

  lemma ExtendCites(drafts: seq<AgentDraft>, task: AssignmentId, id: Id)
    ensures CitedEvidence(Extend(drafts, task, id)) <= CitedEvidence(drafts) + {id}
    ensures task in DraftIds(drafts) ==> id in CitedEvidence(Extend(drafts, task, id))
  {
    var more := Extend(drafts, task, id);
    forall x | x in CitedEvidence(more) ensures x in CitedEvidence(drafts) + {id} {
      var d :| d in more && x in d.evidence;
      var k :| 0 <= k < |more| && more[k] == d;
      assert drafts[k] in drafts;
    }
    if task in DraftIds(drafts) {
      var k :| 0 <= k < |drafts| && DraftIds(drafts)[k] == task;
      assert more[k] in more && id in more[k].evidence;
    }
  }

  lemma ExtendIsValid(b: Bundle, task: AssignmentId, id: Id)
    requires BundleValid(b) && |CitedEvidence(b.drafts)| < MAX_EVIDENCE
    ensures BundleValid(b.(drafts := Extend(b.drafts, task, id)))
  {
    var more := Extend(b.drafts, task, id);
    ExtendKeepsIdentities(b.drafts, task, id);
    forall d | d in more ensures DraftValid(d) {
      var k :| 0 <= k < |more| && more[k] == d;
      assert b.drafts[k] in b.drafts;
      DraftCitesFew(b.drafts, b.drafts[k]);
      ExtendedIsValid(b.drafts[k], task, id);
    }
  }

  lemma ExtendMatches(h: HandoffBody, b: Bundle, task: Task, id: Id)
    requires HandoffBodyValid(h) && DraftsMatch(b, h) && task in h.tasks && id in task.allowed
    ensures DraftsMatch(b.(drafts := Extend(b.drafts, task.id, id)), h)
  {
    var more := Extend(b.drafts, task.id, id);
    ExtendKeepsIdentities(b.drafts, task.id, id);
    forall d, t | d in more && t in h.tasks && d.assignment == t.id ensures DraftMatches(d, t) {
      var k :| 0 <= k < |more| && more[k] == d;
      assert b.drafts[k] in b.drafts && DraftMatches(b.drafts[k], t);
      if t.id == task.id {
        SameTask(h.tasks, t, task);
      }
    }
  }

  lemma {:induction false} ExtendCitedBy(drafts: seq<AgentDraft>, task: AssignmentId, id: Id, a: AssignmentId)
    ensures CitedBy(CoverageDrafts(drafts), a) <= CitedBy(CoverageDrafts(Extend(drafts, task, id)), a)
  {
    if drafts != [] {
      var n := |drafts| - 1;
      ExtendCitedBy(drafts[..n], task, id, a);
      assert CoverageDrafts(drafts)[..n] == CoverageDrafts(drafts[..n]);
      assert CoverageDrafts(Extend(drafts, task, id))[..n] == CoverageDrafts(Extend(drafts[..n], task, id));
    }
  }

  lemma ExtendKeepsCoverage(h: HandoffBody, b: Bundle, task: AssignmentId, id: Id)
    requires HandoffBodyValid(h) && CoverageHolds(h, b)
    ensures CoverageHolds(h, b.(drafts := Extend(b.drafts, task, id)))
  {
    if h.coverage.Some? {
      forall a ensures CitedBy(CoverageDrafts(b.drafts), a) <= CitedBy(CoverageDrafts(Extend(b.drafts, task, id)), a) {
        ExtendCitedBy(b.drafts, task, id, a);
      }
      MoreCitationsKeepAccepts(h.coverage.value, View(h.snapshot), Assignments(h.tasks), CoverageDrafts(b.drafts),
                               CoverageDrafts(Extend(b.drafts, task, id)));
    }
  }

  lemma {:induction false} ExtendDraftOf(drafts: seq<AgentDraft>, task: AssignmentId, id: Id, agent: AgentId)
    ensures DraftOf(Extend(drafts, task, id), agent) ==
            if DraftOf(drafts, agent).None? then None else Some(Extended(DraftOf(drafts, agent).value, task, id))
  {
    if drafts != [] {
      ExtendDraftOf(drafts[1..], task, id, agent);
      assert Extend(drafts, task, id)[1..] == Extend(drafts[1..], task, id);
    }
  }

  predicate Definite(q: Probabilities) {
    ScoringValid(q) && Winner(q).Some?
  }

  /** The discounted vector is valid and has a winner. */
  predicate Publishable(p: Probabilities, severity: Severity, hasGaps: bool) {
    Definite(Mix(p, Discount(severity, hasGaps)))
  }

  /** What Finalize reads of a bundle beyond its admissibility. */
  ghost predicate Publishes(h: Handoff, drafts: seq<AgentDraft>, p: Probabilities, severity: Severity) {
    && |CitedEvidence(drafts)| <= MAX_EVIDENCE
    && DraftOf(drafts, Strategy).Some? && DraftOf(drafts, Strategy).value.probabilities == Some(p)
    && DraftOf(drafts, RiskCritic).Some? && DraftOf(drafts, RiskCritic).value.severity == Some(severity)
    && Publishable(p, severity, GapsOf(h.body) != [])
  }

  lemma ConcludesOk(h: Handoff, b: Bundle, at: int, q: Probabilities, severity: Severity)
    requires Definite(q) && |CitedEvidence(b.drafts)| <= MAX_EVIDENCE
    ensures Conclude(h, b, at, q, severity).Ok? && Conclude(h, b, at, q, severity).value.evidence == CitedEvidence(b.drafts)
  {
  }

  lemma PublishedFinalizes(h: Handoff, b: Bundle, at: int, p: Probabilities, severity: Severity)
    requires Admissible(h, b, at) && Publishes(h, b.drafts, p, severity)
    ensures Finalize(h, b, at).Ok? && Finalize(h, b, at).value.evidence == CitedEvidence(b.drafts)
  {
    ConcludesOk(h, b, at, Mix(p, Discount(severity, GapsOf(h.body) != [])), severity);
  }

  lemma FinalizedPublishes(h: Handoff, b: Bundle, at: int) returns (p: Probabilities, severity: Severity)
    requires Finalize(h, b, at).Ok?
    ensures Admissible(h, b, at) && Publishes(h, b.drafts, p, severity)
  {
    p, severity := DraftOf(b.drafts, Strategy).value.probabilities.value, DraftOf(b.drafts, RiskCritic).value.severity.value;
  }

  lemma ExtendPublishes(h: Handoff, b: Bundle, task: AssignmentId, id: Id, p: Probabilities, severity: Severity)
    requires Publishes(h, b.drafts, p, severity) && |CitedEvidence(b.drafts)| < MAX_EVIDENCE
    ensures Publishes(h, Extend(b.drafts, task, id), p, severity)
  {
    ExtendCites(b.drafts, task, id);
    SubsetSize(CitedEvidence(Extend(b.drafts, task, id)), CitedEvidence(b.drafts) + {id});
    ExtendDraftOf(b.drafts, task, id, Strategy);
    ExtendDraftOf(b.drafts, task, id, RiskCritic);
  }

  lemma ExtendIsAdmissible(h: Handoff, b: Bundle, at: int, task: Task, id: Id)
    requires HandoffBodyValid(h.body) && Admissible(h, b, at) && task in h.body.tasks && id in task.allowed
    ensures Admissible(h, b.(drafts := Extend(b.drafts, task.id, id)), at)
  {
    ExtendKeepsCoverage(h.body, b, task.id, id);
    ExtendMatches(h.body, b, task, id);
  }

  /** Whatever a task may cite can be added to any successful bundle that has room. */
  lemma AddedCitationSucceeds(h: Handoff, b: Bundle, at: int, task: Task, id: Id)
    requires HandoffBodyValid(h.body) && Succeeds(h, b, at) && |CitedEvidence(b.drafts)| < MAX_EVIDENCE
    requires task in h.body.tasks && id in task.allowed
    ensures Cites(h, b.(drafts := Extend(b.drafts, task.id, id)), at, id)
  {
    var p, severity := FinalizedPublishes(h, b, at);
    var more := b.(drafts := Extend(b.drafts, task.id, id));
    ExtendIsValid(b, task.id, id);
    ExtendIsAdmissible(h, b, at, task, id);
    ExtendPublishes(h, b, task.id, id, p, severity);
    PublishedFinalizes(h, more, at, p, severity);
    TaskHasDraft(h.body, b, task);
    ExtendCites(b.drafts, task.id, id);
  }

  lemma TaskHasDraft(h: HandoffBody, b: Bundle, task: Task)
    requires DraftsMatch(b, h) && task in h.tasks
    ensures task.id in DraftIds(b.drafts)
  {
    MapMember(h.tasks, (t: Task) => t.id, task.id);
    assert task.id in ToSet(TaskIds(h.tasks));
  }

  /** Any id a task of a valid handoff with room may cite can end up in a finalised forecast, whether the
      handoff carries coverage or not. */
  lemma AnythingAllowedCanBeCited(h: Handoff, task: Task, id: Id) returns (b: Bundle, acceptedAt: int)
    requires HandoffBodyValid(h.body) && HasRoom(h) && task in h.body.tasks && id in task.allowed
    ensures Cites(h, b, acceptedAt, id)
  {
    var some, at :| Succeeds(h, some, at) && |CitedEvidence(some.drafts)| < MAX_EVIDENCE;
    AddedCitationSucceeds(h, some, at, task, id);
    b, acceptedAt := some.(drafts := Extend(some.drafts, task.id, id)), at;
  }

  // ----- The window guarantee -----

  /** Exactly: for a valid handoff, with or without coverage, that some bundle can finalise with room for
      one more citation, no forecast cites anything outside the frozen window if and only if every task
      allows only ids of the snapshot. */
  lemma CitesOnlyWindowIff(h: Handoff, sqrt: real -> real)
    requires HandoffValid(h, sqrt) && HasRoom(h)
    ensures CitesOnlyWindow(h) <==> AllowedInSnapshot(h.body)
  {
    SnapshotParts(h.body.snapshot, sqrt);
    if AllowedInSnapshot(h.body) {
      forall b, acceptedAt, id | Cites(h, b, acceptedAt, id) ensures CitesWindow(h.body.snapshot, id) {
        AllowedEvidenceIsInWindow(h, b, acceptedAt, id);
      }
    } else {
      var t, id :| t in h.body.tasks && id in t.allowed && id !in ItemIds(h.body.snapshot.items);
      var b, at := AnythingAllowedCanBeCited(h, t, id);
      ItemIdMember(h.body.snapshot.items, id);
      assert !CitesWindow(h.body.snapshot, id);
    }
  }

  // ----- A foreign id passes the validator -----

  /** A handoff with one more id allowed to one task, sealed again. */
  function Forged(h: Handoff, k: nat, id: Id): Handoff
    requires k < |h.body.tasks|
  {
    var t := h.body.tasks[k];
    var body := h.body.(tasks := h.body.tasks[k := t.(allowed := t.allowed + [id])]);
    Handoff(body, Digest(body))
  }

  /** From any valid handoff, allowing one foreign id to one task still passes the validator; and as soon
      as the forged handoff can be answered with room, the window guarantee is gone. */
  lemma ValidatorAdmitsForeignEvidence(h: Handoff, k: nat, id: Id, sqrt: real -> real)
    requires HandoffValid(h, sqrt) && k < |h.body.tasks| && id !in ItemIds(h.body.snapshot.items)
    ensures HandoffValid(Forged(h, k, id), sqrt) && !AllowedInSnapshot(Forged(h, k, id).body)
    ensures HasRoom(Forged(h, k, id)) ==> !CitesOnlyWindow(Forged(h, k, id))
  {
    var t := h.body.tasks[k];
    var t' := t.(allowed := t.allowed + [id]);
    ForeignEvidenceIsValid(h.body.tasks, k, t');
    var tasks := h.body.tasks[k := t'];
    assert tasks[k] in tasks && id in tasks[k].allowed;
    if HasRoom(Forged(h, k, id)) {
      CitesOnlyWindowIff(Forged(h, k, id), sqrt);
    }
  }

  lemma ForeignEvidenceIsValid(tasks: seq<Task>, k: nat, t: Task)
    requires TasksValid(tasks) && k < 6 && t == tasks[k].(allowed := t.allowed)
    ensures TasksValid(tasks[k := t])
  {
    SameIdentitiesSameIds(tasks, tasks[k := t]);
    DependenciesStayValid(tasks, tasks[k := t]);
  }

  lemma DependenciesStayValid(tasks: seq<Task>, more: seq<Task>)
    requires DependenciesValid(tasks) && SameIdentities(tasks, more)
    requires forall j :: 0 <= j < |tasks| ==> more[j].dependsOn == tasks[j].dependsOn
    ensures DependenciesValid(more)
  {
    SameIdentitiesSameIds(tasks, more);
    forall x, d | x in more && d in x.dependsOn ensures d in TaskIds(more) && d != x.id {
      var j :| 0 <= j < |more| && more[j] == x;
      OwnDependency(tasks, j, d);
    }
  }
}
