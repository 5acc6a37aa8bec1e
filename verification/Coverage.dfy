/** The policy coverage gates for sealed handoffs: collection receipts and required events against a
    frozen snapshot, the assignments' permissions and, at finalisation, the drafts' citations. Times are
    in microseconds. */
module Coverage {
  import opened Common

  datatype AgentId = MacroPolicy | MarketNews | GlobalMarket | AiStorage | Strategy | RiskCritic | OtherAgent(name: Id)

  /** The id the handoff builder gives an agent's assignment, or any other text. */
  datatype AssignmentId = ForAgent(agent: AgentId) | Named(text: Id)

  datatype Receipt = Receipt(group: Id, complete: bool, windowStart: int, observedThrough: int, capturedAt: int)

  datatype EventStatus = Verified | Unresolved | MediaReported

  /** `sourceHashes` binds the supporting evidence. `warned` says that the verification warning is the
      media warning, `warningSet` that there is one at all. */
  datatype PolicyEvent = PolicyEvent(
    id: Id, status: EventStatus, evidence: seq<Id>, sourceHashes: map<Id, Id>, agents: seq<AgentId>,
    missingReason: Option<Id>, warning: Option<Id>)

  /** The three versions of the contract: strict (v1), attributed media (v2), partial evidence (v3). */
  datatype Policy = Strict | Media | Partial

  datatype Coverage = Coverage(
    policy: Policy, windowStart: int, cutoff: int, snapshotHash: Id,
    groups: seq<Id>, receipts: seq<Receipt>, events: seq<PolicyEvent>)

  /** An evidence item as the gate sees it; `marked` says its summary carries the media warning. */
  datatype Item = Item(id: Id, sourceHash: Id, published: int, ingested: int, observed: Option<int>, marked: bool)

  /** `start` is the evidence start, or midnight of the cutoff's day where the snapshot names none. */
  datatype SnapshotView = SnapshotView(contentHash: Id, cutoff: int, start: int, items: seq<Item>)

  datatype Assignment = Assignment(id: AssignmentId, agent: AgentId, allowed: seq<Id>)

  /** `warned` says that the rationale carries the media warning. */
  datatype Draft = Draft(assignment: AssignmentId, evidence: seq<Id>, warned: bool)

  const MEDIA_WARNING: Id := Id("not independently verified")
  const MINUTE: int := 60_000_000
  const FRESHNESS: int := 15 * MINUTE

  // ----- Shapes -----

  predicate ReceiptValid(r: Receipt) {
    r.windowStart <= r.observedThrough <= r.capturedAt
  }

  predicate EventValid(e: PolicyEvent, policy: Policy) {
    && Unique(e.evidence) == e.evidence && Unique(e.agents) == e.agents
    && MacroPolicy in e.agents && Strategy in e.agents
    && e.sourceHashes.Keys == ToSet(e.evidence)
    && (e.status == Verified ==> e.evidence != [] && e.missingReason.None?)
    && (e.status == Unresolved ==> e.missingReason.Some?)
    && (e.status == MediaReported ==> policy == Media && e.evidence != [] && e.missingReason.Some? && e.warning == Some(MEDIA_WARNING))
    && (e.status != MediaReported ==> e.warning.None?)
  }

  predicate CoverageValid(c: Coverage) {
    && c.windowStart < c.cutoff && c.groups != []
    && Unique(c.groups) == c.groups
    && Unique(Map(c.receipts, (r: Receipt) => r.group)) == Map(c.receipts, (r: Receipt) => r.group)
    && Unique(Map(c.events, (e: PolicyEvent) => e.id)) == Map(c.events, (e: PolicyEvent) => e.id)
    && (forall r :: r in c.receipts ==> ReceiptValid(r))
    && (forall e :: e in c.events ==> EventValid(e, c.policy))
  }

  // ----- Gaps -----

  /** `{r.group_id: r for r in receipts}.get(group)`: the last receipt of a group wins. */
  function ReceiptFor(receipts: seq<Receipt>, group: Id): Option<Receipt> {
    if receipts == [] then None
    else if receipts[|receipts| - 1].group == group then Some(receipts[|receipts| - 1])
    else ReceiptFor(receipts[..|receipts| - 1], group)
  }

  predicate Fresh(c: Coverage, r: Receipt) {
    r.complete && r.observedThrough >= c.cutoff - FRESHNESS && r.windowStart <= c.windowStart
  }

  predicate GroupMet(c: Coverage, group: Id) {
    var r := ReceiptFor(c.receipts, group);
    r.Some? && Fresh(c, r.value)
  }

  datatype Gap = Source(group: Id) | UnresolvedEvent(event: Id)

  function Unmet(c: Coverage): Id -> bool {
    (group: Id) => !GroupMet(c, group)
  }

  function IsUnresolved(): PolicyEvent -> bool {
    (e: PolicyEvent) => e.status == Unresolved
  }

  function SourceGaps(c: Coverage, groups: seq<Id>): seq<Gap> {
    Map(Filter(groups, Unmet(c)), (group: Id) => Source(group))
  }

  function EventGaps(events: seq<PolicyEvent>): seq<Gap> {
    Map(Filter(events, IsUnresolved()), (e: PolicyEvent) => UnresolvedEvent(e.id))
  }

  function Gaps(c: Coverage): seq<Gap> {
    SourceGaps(c, c.groups) + EventGaps(c.events)
  }

  /** `coverage_gaps` */
  method CoverageGaps(c: Coverage) returns (gaps: seq<Gap>)
    ensures gaps == Gaps(c)
  {
    gaps := [];
    for i := 0 to |c.groups|
      invariant gaps == SourceGaps(c, c.groups[..i])
    {
      assert c.groups[..i + 1][..i] == c.groups[..i];
      var receipt := ReceiptFor(c.receipts, c.groups[i]);
      if receipt.None? || !receipt.value.complete || receipt.value.observedThrough < c.cutoff - FRESHNESS
         || receipt.value.windowStart > c.windowStart {
        gaps := gaps + [Source(c.groups[i])];
      }
    }
    assert c.groups[..|c.groups|] == c.groups;
    for i := 0 to |c.events|
      invariant gaps == SourceGaps(c, c.groups) + EventGaps(c.events[..i])
    {
      assert c.events[..i + 1][..i] == c.events[..i];
      if c.events[i].status == Unresolved {
        gaps := gaps + [UnresolvedEvent(c.events[i].id)];
      }
    }
    assert c.events[..|c.events|] == c.events;
  }

  lemma {:induction false} ReceiptForIff(receipts: seq<Receipt>, group: Id)
    requires NoDuplicates(Map(receipts, (r: Receipt) => r.group))
    ensures forall r :: ReceiptFor(receipts, group) == Some(r) <==> r in receipts && r.group == group
  {
    if receipts != [] {
      var init, last := receipts[..|receipts| - 1], receipts[|receipts| - 1];
      var name := (r: Receipt) => r.group;
      assert Map(receipts, name) == Map(init, name) + [last.group];
      DistinctInit(Map(init, name), last.group);
      ReceiptForIff(init, group);
      forall r | r in init ensures r.group != last.group {
        var i :| 0 <= i < |init| && init[i] == r;
        assert Map(init, name)[i] == r.group;
      }
      forall r ensures r in receipts <==> r in init || r == last {
        assert receipts == init + [last];
      }
    }
  }

  lemma MapMember<T, U>(xs: seq<T>, f: T -> U, y: U)
    ensures y in Map(xs, f) <==> exists x :: x in xs && f(x) == y
  {
    if y in Map(xs, f) {
      var i :| 0 <= i < |Map(xs, f)| && Map(xs, f)[i] == y;
      assert xs[i] in xs && f(xs[i]) == y;
    }
    if x :| x in xs && f(x) == y {
      var i :| 0 <= i < |xs| && xs[i] == x;
      assert Map(xs, f)[i] == y;
    }
  }

  /** The gaps are exactly the required groups without a complete, fresh receipt over the whole window,
      and the unresolved events. */
  lemma GapsAreExact(c: Coverage, group: Id, event: Id)
    requires CoverageValid(c)
    ensures Source(group) in Gaps(c) <==>
            group in c.groups && !(exists r :: r in c.receipts && r.group == group && Fresh(c, r))
    ensures UnresolvedEvent(event) in Gaps(c) <==> exists e :: e in c.events && e.id == event && e.status == Unresolved
  {
    UniqueMembers(Map(c.receipts, (r: Receipt) => r.group));
    ReceiptForIff(c.receipts, group);
    FilterMembers(c.groups, Unmet(c));
    FilterMembers(c.events, IsUnresolved());
    MapMember(Filter(c.groups, Unmet(c)), (g: Id) => Source(g), Source(group));
    MapMember(Filter(c.events, IsUnresolved()), (e: PolicyEvent) => UnresolvedEvent(e.id), UnresolvedEvent(event));
  }

  lemma NoGapsIff(c: Coverage)
    ensures Gaps(c) == [] <==>
            (forall g :: g in c.groups ==> GroupMet(c, g)) && (forall e :: e in c.events ==> e.status != Unresolved)
  {
    FilterMembers(c.groups, Unmet(c));
    FilterMembers(c.events, IsUnresolved());
    if forall g :: g in c.groups ==> GroupMet(c, g) {
      FilterNone(c.groups, Unmet(c));
    } else {
      var g :| g in c.groups && !GroupMet(c, g);
      assert g in Filter(c.groups, Unmet(c));
    }
    if forall e :: e in c.events ==> e.status != Unresolved {
      FilterNone(c.events, IsUnresolved());
    } else {
      var e :| e in c.events && e.status == Unresolved;
      assert e in Filter(c.events, IsUnresolved());
    }
  }

  // ----- The gate -----

  /** `{item.item_id: item for item in items}.get(id)` */
  function ItemFor(items: seq<Item>, id: Id): Option<Item> {
    if items == [] then None
    else if items[|items| - 1].id == id then Some(items[|items| - 1])
    else ItemFor(items[..|items| - 1], id)
  }

  /** `{d.assignment_id: set(d.evidence_item_ids) for d in drafts}.get(id, set())` */
  function CitedBy(drafts: seq<Draft>, id: AssignmentId): set<Id> {
    if drafts == [] then {}
    else if drafts[|drafts| - 1].assignment == id then ToSet(drafts[|drafts| - 1].evidence)
    else CitedBy(drafts[..|drafts| - 1], id)
  }

  /** The first draft of an assignment carries the media warning; there may be none. */
  predicate WarnedFor(drafts: seq<Draft>, id: AssignmentId) {
    if drafts == [] then false
    else if drafts[0].assignment == id then drafts[0].warned
    else WarnedFor(drafts[1..], id)
  }

  predicate Reported(c: Coverage, e: PolicyEvent) {
    c.policy == Media && e.status == MediaReported
  }

  predicate ItemInTime(item: Item, cutoff: int) {
    item.published <= cutoff && item.ingested <= cutoff && (item.observed.Some? ==> item.observed.value <= cutoff)
  }

  predicate ItemBacks(e: PolicyEvent, s: SnapshotView, id: Id) {
    var item := ItemFor(s.items, id);
    && item.Some? && id in e.sourceHashes && item.value.sourceHash == e.sourceHashes[id]
    && ItemInTime(item.value, s.cutoff)
  }

  predicate ItemAccepted(c: Coverage, e: PolicyEvent, s: SnapshotView, id: Id) {
    ItemBacks(e, s, id) && (Reported(c, e) ==> ItemFor(s.items, id).value.marked)
  }

  function Permitted(e: PolicyEvent, a: Assignment): set<Id> {
    ToSet(e.evidence) * ToSet(a.allowed)
  }

  predicate AssignmentCovers(c: Coverage, e: PolicyEvent, a: Assignment, drafts: Option<seq<Draft>>) {
    && Permitted(e, a) != {}
    && (drafts.Some? ==> Permitted(e, a) * CitedBy(drafts.value, a.id) != {})
    && (drafts.Some? && Reported(c, e) ==> WarnedFor(drafts.value, a.id))
  }

  predicate AgentCovers(c: Coverage, e: PolicyEvent, agent: AgentId, assignments: seq<Assignment>, drafts: Option<seq<Draft>>) {
    && (exists a :: a in assignments && a.agent == agent)
    && (forall a :: a in assignments && a.agent == agent ==> AssignmentCovers(c, e, a, drafts))
  }

  predicate Waived(c: Coverage, e: PolicyEvent) {
    c.policy == Partial && e.status == Unresolved
  }

  predicate EventAccepted(c: Coverage, e: PolicyEvent, s: SnapshotView, assignments: seq<Assignment>, drafts: Option<seq<Draft>>) {
    && (e.status == Verified || Reported(c, e) || c.policy == Partial)
    && (forall id :: id in e.evidence ==> ItemAccepted(c, e, s, id))
    && (Waived(c, e) || forall agent :: agent in e.agents ==> AgentCovers(c, e, agent, assignments, drafts))
  }

  function ReportedIds(events: seq<PolicyEvent>): set<Id> {
    set e, id | e in events && e.status == MediaReported && id in e.evidence :: id
  }

  predicate DraftWarned(c: Coverage, d: Draft) {
    c.policy == Media && ReportedIds(c.events) * ToSet(d.evidence) != {} ==> d.warned
  }

  predicate WindowMatches(c: Coverage, s: SnapshotView) {
    c.cutoff == s.cutoff && c.windowStart <= s.start
  }

  predicate Accepts(c: Coverage, s: SnapshotView, assignments: seq<Assignment>, drafts: Option<seq<Draft>>) {
    && c.snapshotHash == s.contentHash && WindowMatches(c, s)
    && (forall r :: r in c.receipts ==> r.capturedAt <= s.cutoff)
    && (c.policy == Partial || forall g :: g in c.groups ==> GroupMet(c, g))
    && (forall e :: e in c.events ==> EventAccepted(c, e, s, assignments, drafts))
    && (drafts.Some? ==> forall d :: d in drafts.value ==> DraftWarned(c, d))
  }

  /** Without gaps the partial policy is the strict one: over the same data, the strict gate accepts if
      and only if the partial gate accepts and finds no gap. */
  lemma StrictIsPartialWithoutGaps(c: Coverage, s: SnapshotView, assignments: seq<Assignment>, drafts: Option<seq<Draft>>)
    requires forall e :: e in c.events ==> e.status != MediaReported
    ensures var strict, partial := c.(policy := Strict), c.(policy := Partial);
            Accepts(strict, s, assignments, drafts) <==> Accepts(partial, s, assignments, drafts) && Gaps(partial) == []
  {
    var strict, partial := c.(policy := Strict), c.(policy := Partial);
    NoGapsIff(partial);
    forall g ensures GroupMet(strict, g) == GroupMet(partial, g) {
    }
    forall e | e in c.events && e.status == Verified
      ensures EventAccepted(strict, e, s, assignments, drafts) == EventAccepted(partial, e, s, assignments, drafts)
    {
      SamePolicyForVerified(strict, partial, e, s, assignments, drafts);
    }
  }

  lemma SameCover(c: Coverage, d: Coverage, e: PolicyEvent, a: Assignment, drafts: Option<seq<Draft>>)
    requires e.status != MediaReported
    ensures AssignmentCovers(c, e, a, drafts) == AssignmentCovers(d, e, a, drafts)
  {
  }

  lemma SameAgentCover(c: Coverage, d: Coverage, e: PolicyEvent, agent: AgentId, assignments: seq<Assignment>, drafts: Option<seq<Draft>>)
    requires e.status != MediaReported
    ensures AgentCovers(c, e, agent, assignments, drafts) == AgentCovers(d, e, agent, assignments, drafts)
  {
    forall a ensures AssignmentCovers(c, e, a, drafts) == AssignmentCovers(d, e, a, drafts) {
      SameCover(c, d, e, a, drafts);
    }
  }

  /** The policies differ only on events that are not verified. */
  lemma SamePolicyForVerified(c: Coverage, d: Coverage, e: PolicyEvent, s: SnapshotView, assignments: seq<Assignment>,
                              drafts: Option<seq<Draft>>)
    requires e.status == Verified
    ensures EventAccepted(c, e, s, assignments, drafts) == EventAccepted(d, e, s, assignments, drafts)
  {
    forall id ensures ItemAccepted(c, e, s, id) == ItemAccepted(d, e, s, id) {
    }
    forall agent ensures AgentCovers(c, e, agent, assignments, drafts) == AgentCovers(d, e, agent, assignments, drafts) {
      SameAgentCover(c, d, e, agent, assignments, drafts);
    }
  }

  /** The media policy is the strict one wherever no event is media-reported. */
  lemma MediaIsStrictWithoutReports(c: Coverage, s: SnapshotView, assignments: seq<Assignment>, drafts: Option<seq<Draft>>)
    requires forall e :: e in c.events ==> e.status != MediaReported
    ensures Accepts(c.(policy := Media), s, assignments, drafts) <==> Accepts(c.(policy := Strict), s, assignments, drafts)
  {
    var media, strict := c.(policy := Media), c.(policy := Strict);
    forall g ensures GroupMet(strict, g) == GroupMet(media, g) {
    }
    forall e | e in c.events && e.status == Verified
      ensures EventAccepted(strict, e, s, assignments, drafts) == EventAccepted(media, e, s, assignments, drafts)
    {
      SamePolicyForVerified(strict, media, e, s, assignments, drafts);
    }
    assert ReportedIds(c.events) == {};
  }

  /** The gate at finalisation is at least as strict as the gate at preparation. */
  lemma DraftGateImpliesBuildGate(c: Coverage, s: SnapshotView, assignments: seq<Assignment>, drafts: seq<Draft>)
    requires Accepts(c, s, assignments, Some(drafts))
    ensures Accepts(c, s, assignments, None)
  {
    forall e | e in c.events ensures EventAccepted(c, e, s, assignments, None) {
      forall agent | agent in e.agents && AgentCovers(c, e, agent, assignments, Some(drafts))
        ensures AgentCovers(c, e, agent, assignments, None)
      {
        forall a | a in assignments && a.agent == agent ensures AssignmentCovers(c, e, a, None) {
          assert AssignmentCovers(c, e, a, Some(drafts));
        }
      }
    }
  }

  lemma MoreCitationsCover(c: Coverage, e: PolicyEvent, a: Assignment, drafts: seq<Draft>, more: seq<Draft>)
    requires c.policy != Media && AssignmentCovers(c, e, a, Some(drafts)) && CitedBy(drafts, a.id) <= CitedBy(more, a.id)
    ensures AssignmentCovers(c, e, a, Some(more))
  {
    var id :| id in Permitted(e, a) * CitedBy(drafts, a.id);
    assert id in Permitted(e, a) * CitedBy(more, a.id);
  }

  /** Under the strict and the partial policy, citing more never turns acceptance into rejection. */
  lemma MoreCitationsKeepAccepts(c: Coverage, s: SnapshotView, assignments: seq<Assignment>, drafts: seq<Draft>, more: seq<Draft>)
    requires c.policy != Media && Accepts(c, s, assignments, Some(drafts))
    requires forall id :: CitedBy(drafts, id) <= CitedBy(more, id)
    ensures Accepts(c, s, assignments, Some(more))
  {
    forall e | e in c.events ensures EventAccepted(c, e, s, assignments, Some(more)) {
      forall agent | agent in e.agents && AgentCovers(c, e, agent, assignments, Some(drafts))
        ensures AgentCovers(c, e, agent, assignments, Some(more))
      {
        forall a | a in assignments && a.agent == agent ensures AssignmentCovers(c, e, a, Some(more)) {
          MoreCitationsCover(c, e, a, drafts, more);
        }
      }
    }
  }

  /** For every event that is not waived, every assignment of a required agent cites an item of the event
      that it may use. */
  ghost predicate AllHit(c: Coverage, assignments: seq<Assignment>, drafts: seq<Draft>) {
    forall e, a :: e in c.events && !Waived(c, e) && a in assignments && a.agent in e.agents ==>
      Permitted(e, a) * CitedBy(drafts, a.id) != {}
  }

  lemma HitEventsAreAccepted(c: Coverage, s: SnapshotView, assignments: seq<Assignment>, drafts: seq<Draft>, e: PolicyEvent)
    requires c.policy != Media && e in c.events && EventAccepted(c, e, s, assignments, None) && AllHit(c, assignments, drafts)
    ensures EventAccepted(c, e, s, assignments, Some(drafts))
  {
    forall agent | !Waived(c, e) && agent in e.agents ensures AgentCovers(c, e, agent, assignments, Some(drafts)) {
      assert AgentCovers(c, e, agent, assignments, None);
      forall a | a in assignments && a.agent == agent ensures AssignmentCovers(c, e, a, Some(drafts)) {
        assert AssignmentCovers(c, e, a, None);
      }
    }
  }

  /** What the drafts add to the gate, under the strict and the partial policy: exactly these citations. */
  lemma DraftGateIff(c: Coverage, s: SnapshotView, assignments: seq<Assignment>, drafts: seq<Draft>)
    requires c.policy != Media
    ensures Accepts(c, s, assignments, Some(drafts)) <==> Accepts(c, s, assignments, None) && AllHit(c, assignments, drafts)
  {
    if Accepts(c, s, assignments, Some(drafts)) {
      DraftGateImpliesBuildGate(c, s, assignments, drafts);
      forall e, a | e in c.events && !Waived(c, e) && a in assignments && a.agent in e.agents
        ensures Permitted(e, a) * CitedBy(drafts, a.id) != {}
      {
        var id := AcceptedEventIsCited(c, s, assignments, drafts, e, a);
        assert id in Permitted(e, a) * CitedBy(drafts, a.id);
      }
    }
    if Accepts(c, s, assignments, None) && AllHit(c, assignments, drafts) {
      forall e | e in c.events ensures EventAccepted(c, e, s, assignments, Some(drafts)) {
        HitEventsAreAccepted(c, s, assignments, drafts, e);
      }
    }
  }

  /** An accepted set of drafts cites, for every event that is not waived and every assignment of every
      agent the event requires, one of the event's own items that the assignment may use; and that item
      is in the snapshot, under the hash the event bound, and not later than the cutoff. */
  lemma AcceptedEventIsCited(c: Coverage, s: SnapshotView, assignments: seq<Assignment>, drafts: seq<Draft>, e: PolicyEvent, a: Assignment)
    returns (id: Id)
    requires Accepts(c, s, assignments, Some(drafts))
    requires e in c.events && !Waived(c, e) && a in assignments && a.agent in e.agents
    ensures id in e.evidence && id in a.allowed && id in CitedBy(drafts, a.id) && ItemBacks(e, s, id)
  {
    assert EventAccepted(c, e, s, assignments, Some(drafts));
    assert AgentCovers(c, e, a.agent, assignments, Some(drafts));
    assert AssignmentCovers(c, e, a, Some(drafts));
    id :| id in Permitted(e, a) * CitedBy(drafts, a.id);
    assert ItemAccepted(c, e, s, id);
  }
}
