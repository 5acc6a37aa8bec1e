/** `validate_coverage` as the nested checking loops it is, proved against the predicate of Coverage.dfy:
    it accepts exactly what the predicate accepts, and the problem it raises is a real one. */
module CoverageGate {
  import opened Common
  import opened Coverage

  /** What the gate raises. */
  datatype Problem =
    | HashMismatch
    | WindowMismatch
    | FutureReceipt(receipt: Receipt)
    | MissingGroup(group: Id)
    | UnresolvedPolicy(event: PolicyEvent)
    | BadEvidence(event: PolicyEvent, item: Id)
    | UnmarkedMedia(event: PolicyEvent, item: Id)
    | NoAssignment(event: PolicyEvent, agent: AgentId)
    | NoPermission(event: PolicyEvent, assignment: Assignment)
    | NoCitation(event: PolicyEvent, assignment: Assignment)
    | NoWarning(event: PolicyEvent, assignment: Assignment)
    | UnwarnedDraft(draft: Draft)

  predicate EventProblem(c: Coverage, s: SnapshotView, assignments: seq<Assignment>, drafts: Option<seq<Draft>>, e: PolicyEvent, p: Problem) {
    match p
    case UnresolvedPolicy(x) => x == e && e.status != Verified && !Reported(c, e) && c.policy != Partial
    case BadEvidence(x, id) => x == e && id in e.evidence && !ItemBacks(e, s, id)
    case UnmarkedMedia(x, id) => x == e && id in e.evidence && Reported(c, e) && ItemBacks(e, s, id) && !ItemFor(s.items, id).value.marked
    case NoAssignment(x, agent) => x == e && agent in e.agents && forall a :: a in assignments ==> a.agent != agent
    case NoPermission(x, a) => x == e && a in assignments && a.agent in e.agents && Permitted(e, a) == {}
    case NoCitation(x, a) =>
      x == e && a in assignments && a.agent in e.agents && drafts.Some? && Permitted(e, a) * CitedBy(drafts.value, a.id) == {}
    case NoWarning(x, a) =>
      x == e && a in assignments && a.agent in e.agents && Reported(c, e) && drafts.Some? && !WarnedFor(drafts.value, a.id)
    case _ => false
  }

  predicate RealProblem(c: Coverage, s: SnapshotView, assignments: seq<Assignment>, drafts: Option<seq<Draft>>, p: Problem) {
    match p
    case HashMismatch => c.snapshotHash != s.contentHash
    case WindowMismatch => !WindowMatches(c, s)
    case FutureReceipt(r) => r in c.receipts && r.capturedAt > s.cutoff
    case MissingGroup(g) => c.policy != Partial && g in c.groups && !GroupMet(c, g)
    case UnwarnedDraft(d) => drafts.Some? && d in drafts.value && !DraftWarned(c, d)
    case _ => exists e :: e in c.events && EventProblem(c, s, assignments, drafts, e, p)
  }

  method CheckReceipts(c: Coverage, cutoff: int) returns (r: Option<Problem>)
    ensures r.None? <==> forall x :: x in c.receipts ==> x.capturedAt <= cutoff
    ensures r.Some? ==> r.value.FutureReceipt? && r.value.receipt in c.receipts && r.value.receipt.capturedAt > cutoff
  {
    for i := 0 to |c.receipts|
      invariant forall k :: 0 <= k < i ==> c.receipts[k].capturedAt <= cutoff
    {
      if c.receipts[i].capturedAt > cutoff {
        return Some(FutureReceipt(c.receipts[i]));
      }
    }
    return None;
  }

  method CheckGroups(c: Coverage) returns (r: Option<Problem>)
    ensures r.None? <==> c.policy == Partial || forall g :: g in c.groups ==> GroupMet(c, g)
    ensures r.Some? ==> r.value.MissingGroup? && c.policy != Partial && r.value.group in c.groups && !GroupMet(c, r.value.group)
  {
    for i := 0 to |c.groups|
      invariant c.policy == Partial || forall k :: 0 <= k < i ==> GroupMet(c, c.groups[k])
    {
      if !GroupMet(c, c.groups[i]) && c.policy != Partial {
        return Some(MissingGroup(c.groups[i]));
      }
    }
    return None;
  }

  method CheckItems(c: Coverage, e: PolicyEvent, s: SnapshotView) returns (r: Option<Problem>)
    ensures r.None? <==> forall id :: id in e.evidence ==> ItemAccepted(c, e, s, id)
    ensures r.Some? ==> EventProblem(c, s, [], None, e, r.value) && (r.value.BadEvidence? || r.value.UnmarkedMedia?)
  {
    for i := 0 to |e.evidence|
      invariant forall k :: 0 <= k < i ==> ItemAccepted(c, e, s, e.evidence[k])
    {
      var id := e.evidence[i];
      if !ItemBacks(e, s, id) {
        assert id in e.evidence && !ItemAccepted(c, e, s, id);
        return Some(BadEvidence(e, id));
      }
      if Reported(c, e) && !ItemFor(s.items, id).value.marked {
        assert id in e.evidence && !ItemAccepted(c, e, s, id);
        return Some(UnmarkedMedia(e, id));
      }
    }
    return None;
  }

  /** One assignment of a required agent. */
  method CheckAssignment(c: Coverage, e: PolicyEvent, a: Assignment, drafts: Option<seq<Draft>>) returns (r: Option<Problem>)
    ensures r.None? <==> AssignmentCovers(c, e, a, drafts)
    ensures r.Some? && a.agent in e.agents ==> EventProblem(c, SnapshotView(c.snapshotHash, 0, 0, []), [a], drafts, e, r.value)
    ensures r.Some? ==> r.value.NoPermission? || r.value.NoCitation? || r.value.NoWarning?
    ensures r.Some? ==> r.value.assignment == a
  {
    var permitted := Permitted(e, a);
    if permitted == {} {
      return Some(NoPermission(e, a));
    }
    if drafts.Some? && permitted * CitedBy(drafts.value, a.id) == {} {
      return Some(NoCitation(e, a));
    }
    if Reported(c, e) && drafts.Some? && !WarnedFor(drafts.value, a.id) {
      return Some(NoWarning(e, a));
    }
    return None;
  }

  method CheckAgent(c: Coverage, e: PolicyEvent, agent: AgentId, assignments: seq<Assignment>, drafts: Option<seq<Draft>>)
    returns (r: Option<Problem>)
    requires agent in e.agents
    ensures r.None? <==> AgentCovers(c, e, agent, assignments, drafts)
    ensures r.Some? ==> forall s :: EventProblem(c, s, assignments, drafts, e, r.value)
  {
    var found := false;
    for i := 0 to |assignments|
      invariant found <==> exists k :: 0 <= k < i && assignments[k].agent == agent
      invariant forall k :: 0 <= k < i && assignments[k].agent == agent ==> AssignmentCovers(c, e, assignments[k], drafts)
    {
      if assignments[i].agent == agent {
        found := true;
        r := CheckAssignment(c, e, assignments[i], drafts);
        if r.Some? {
          assert assignments[i] in assignments;
          return r;
        }
      }
    }
    if !found {
      return Some(NoAssignment(e, agent));
    }
    return None;
  }

  method CheckEvent(c: Coverage, e: PolicyEvent, s: SnapshotView, assignments: seq<Assignment>, drafts: Option<seq<Draft>>)
    returns (r: Option<Problem>)
    ensures r.None? <==> EventAccepted(c, e, s, assignments, drafts)
    ensures r.Some? ==> EventProblem(c, s, assignments, drafts, e, r.value)
  {
    if e.status != Verified && !Reported(c, e) && c.policy != Partial {
      return Some(UnresolvedPolicy(e));
    }
    r := CheckItems(c, e, s);
    if r.Some? || Waived(c, e) {
      return r;
    }
    for i := 0 to |e.agents|
      invariant forall k :: 0 <= k < i ==> AgentCovers(c, e, e.agents[k], assignments, drafts)
    {
      r := CheckAgent(c, e, e.agents[i], assignments, drafts);
      if r.Some? {
        return r;
      }
    }
    return None;
  }

  method CheckDrafts(c: Coverage, drafts: seq<Draft>) returns (r: Option<Problem>)
    ensures r.None? <==> forall d :: d in drafts ==> DraftWarned(c, d)
    ensures r.Some? ==> r.value.UnwarnedDraft? && r.value.draft in drafts && !DraftWarned(c, r.value.draft)
  {
    for i := 0 to |drafts|
      invariant forall k :: 0 <= k < i ==> DraftWarned(c, drafts[k])
    {
      if c.policy == Media && ReportedIds(c.events) * ToSet(drafts[i].evidence) != {} && !drafts[i].warned {
        assert drafts[i] in drafts && !DraftWarned(c, drafts[i]);
        return Some(UnwarnedDraft(drafts[i]));
      }
    }
    return None;
  }

  method CheckEvents(c: Coverage, s: SnapshotView, assignments: seq<Assignment>, drafts: Option<seq<Draft>>)
    returns (r: Option<Problem>)
    ensures r.None? <==> forall e :: e in c.events ==> EventAccepted(c, e, s, assignments, drafts)
    ensures r.Some? ==> exists e :: e in c.events && EventProblem(c, s, assignments, drafts, e, r.value)
  {
    for i := 0 to |c.events|
      invariant forall k :: 0 <= k < i ==> EventAccepted(c, c.events[k], s, assignments, drafts)
    {
      r := CheckEvent(c, c.events[i], s, assignments, drafts);
      if r.Some? {
        assert c.events[i] in c.events;
        return r;
      }
    }
    return None;
  }

  /** `validate_coverage` */
  method ValidateCoverage(c: Coverage, s: SnapshotView, assignments: seq<Assignment>, drafts: Option<seq<Draft>>)
    returns (r: Option<Problem>)
    ensures r.None? <==> Accepts(c, s, assignments, drafts)
    ensures r.Some? ==> RealProblem(c, s, assignments, drafts, r.value)
  {
    if c.snapshotHash != s.contentHash {
      return Some(HashMismatch);
    }
    if !WindowMatches(c, s) {
      return Some(WindowMismatch);
    }
    r := CheckReceipts(c, s.cutoff);
    if r.Some? {
      return r;
    }
    r := CheckGroups(c);
    if r.Some? {
      return r;
    }
    r := CheckEvents(c, s, assignments, drafts);
    if r.Some? || drafts.None? {
      return r;
    }
    r := CheckDrafts(c, drafts.value);
  }
}
