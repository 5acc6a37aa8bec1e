/** The coverage gate without its dictionaries: what has to be true of the receipts, the events, the items
    and the drafts themselves. The look-ups of Coverage.dfy agree with it wherever ids are unique, as the
    validators of the three models demand. Times are in microseconds. */
module CoverageContract {
  import opened Common
  import opened Coverage

  // ----- Unique ids -----

  function Groups(receipts: seq<Receipt>): seq<Id> {
    Map(receipts, (r: Receipt) => r.group)
  }

  function ItemIds(items: seq<Item>): seq<Id> {
    Map(items, (i: Item) => i.id)
  }

  function DraftIds(drafts: seq<Draft>): seq<AssignmentId> {
    Map(drafts, (d: Draft) => d.assignment)
  }

  ghost predicate UniqueIds(c: Coverage, s: SnapshotView, drafts: Option<seq<Draft>>) {
    NoDuplicates(Groups(c.receipts)) && NoDuplicates(ItemIds(s.items)) && (drafts.Some? ==> NoDuplicates(DraftIds(drafts.value)))
  }

  // ----- What is demanded -----

  /** A complete receipt of the group, from the window's start to at most fifteen minutes before the cutoff. */
  predicate Collected(c: Coverage, g: Id) {
    exists r :: r in c.receipts && r.group == g && r.complete && r.observedThrough >= c.cutoff - 900_000_000 && r.windowStart <= c.windowStart
  }

  predicate IsReported(c: Coverage, e: PolicyEvent) {
    c.policy == Media && e.status == MediaReported
  }

  /** The evidence is in the snapshot, unchanged, from before the cutoff in every respect, and marked if the
      event rests on media reports. */
  predicate Holds(c: Coverage, e: PolicyEvent, s: SnapshotView, id: Id) {
    id in e.sourceHashes &&
    exists i :: i in s.items && i.id == id && i.sourceHash == e.sourceHashes[id] &&
                i.published <= s.cutoff && i.ingested <= s.cutoff && (i.observed.Some? ==> i.observed.value <= s.cutoff) &&
                (IsReported(c, e) ==> i.marked)
  }

  predicate Usable(e: PolicyEvent, a: Assignment, id: Id) {
    id in e.evidence && id in a.allowed
  }

  predicate Cites(drafts: seq<Draft>, a: Assignment, id: Id) {
    exists d :: d in drafts && d.assignment == a.id && id in d.evidence
  }

  ghost predicate HasUsable(e: PolicyEvent, a: Assignment) {
    exists id :: Usable(e, a, id)
  }

  ghost predicate CitesUsable(e: PolicyEvent, a: Assignment, drafts: seq<Draft>) {
    exists id :: Usable(e, a, id) && Cites(drafts, a, id)
  }

  predicate HasWarnedDraft(drafts: seq<Draft>, a: Assignment) {
    exists d :: d in drafts && d.assignment == a.id && d.warned
  }

  ghost predicate Serves(c: Coverage, e: PolicyEvent, a: Assignment, drafts: Option<seq<Draft>>) {
    && HasUsable(e, a)
    && (drafts.Some? ==> CitesUsable(e, a, drafts.value))
    && (drafts.Some? && IsReported(c, e) ==> HasWarnedDraft(drafts.value, a))
  }

  ghost predicate AgentServed(c: Coverage, e: PolicyEvent, agent: AgentId, assignments: seq<Assignment>, drafts: Option<seq<Draft>>) {
    && (exists a :: a in assignments && a.agent == agent)
    && (forall a :: a in assignments && a.agent == agent ==> Serves(c, e, a, drafts))
  }

  ghost predicate EventStands(c: Coverage, e: PolicyEvent, s: SnapshotView, assignments: seq<Assignment>, drafts: Option<seq<Draft>>) {
    && (c.policy == Strict ==> e.status == Verified)
    && (c.policy == Media ==> e.status != Unresolved)
    && (forall id :: id in e.evidence ==> Holds(c, e, s, id))
    && ((c.policy == Partial && e.status == Unresolved) || forall agent :: agent in e.agents ==> AgentServed(c, e, agent, assignments, drafts))
  }

  predicate CitesReport(c: Coverage, d: Draft) {
    exists e, id :: e in c.events && e.status == MediaReported && id in e.evidence && id in d.evidence
  }

  ghost predicate Conforms(c: Coverage, s: SnapshotView, assignments: seq<Assignment>, drafts: Option<seq<Draft>>) {
    && c.snapshotHash == s.contentHash && c.cutoff == s.cutoff && c.windowStart <= s.start
    && (forall r :: r in c.receipts ==> r.capturedAt <= s.cutoff)
    && (c.policy != Partial ==> forall g :: g in c.groups ==> Collected(c, g))
    && (forall e :: e in c.events ==> EventStands(c, e, s, assignments, drafts))
    && (c.policy == Media && drafts.Some? ==> forall d :: d in drafts.value && CitesReport(c, d) ==> d.warned)
  }

  // ----- The look-ups -----

  lemma {:induction false} LastReceipt(receipts: seq<Receipt>, g: Id)
    requires NoDuplicates(Groups(receipts))
    ensures forall r :: ReceiptFor(receipts, g) == Some(r) <==> r in receipts && r.group == g
  {
    if receipts != [] {
      var init, last := receipts[..|receipts| - 1], receipts[|receipts| - 1];
      assert receipts == init + [last];
      MapSnoc(init, last, (r: Receipt) => r.group);
      assert Groups(receipts) == Groups(init) + [last.group];
      DistinctInit(Groups(init), last.group);
      LastReceipt(init, g);
      forall r | r in init ensures r.group != last.group {
        var k :| 0 <= k < |init| && init[k] == r;
        assert Groups(init)[k] == r.group;
      }
    }
  }

  lemma {:induction false} LastItem(items: seq<Item>, id: Id)
    requires NoDuplicates(ItemIds(items))
    ensures forall i :: ItemFor(items, id) == Some(i) <==> i in items && i.id == id
  {
    if items != [] {
      var init, last := items[..|items| - 1], items[|items| - 1];
      assert items == init + [last];
      assert ItemIds(items) == ItemIds(init) + [last.id];
      DistinctInit(ItemIds(init), last.id);
      LastItem(init, id);
      forall i | i in init ensures i.id != last.id {
        var k :| 0 <= k < |init| && init[k] == i;
        assert ItemIds(init)[k] == i.id;
      }
    }
  }

  lemma {:induction false} LastDraft(drafts: seq<Draft>, a: AssignmentId, id: Id)
    requires NoDuplicates(DraftIds(drafts))
    ensures id in CitedBy(drafts, a) <==> exists d :: d in drafts && d.assignment == a && id in d.evidence
  {
    if drafts != [] {
      var init, last := drafts[..|drafts| - 1], drafts[|drafts| - 1];
      assert drafts == init + [last];
      assert DraftIds(drafts) == DraftIds(init) + [last.assignment];
      DistinctInit(DraftIds(init), last.assignment);
      LastDraft(init, a, id);
      forall d | d in init ensures d.assignment != last.assignment {
        var k :| 0 <= k < |init| && init[k] == d;
        assert DraftIds(init)[k] == d.assignment;
      }
    }
  }

  lemma TailIds(drafts: seq<Draft>)
    requires drafts != [] && NoDuplicates(DraftIds(drafts))
    ensures NoDuplicates(DraftIds(drafts[1..])) && forall d :: d in drafts[1..] ==> d.assignment != drafts[0].assignment
  {
    var tail := drafts[1..];
    assert DraftIds(drafts)[1..] == DraftIds(tail);
    DistinctTail(DraftIds(drafts));
    forall d | d in tail ensures d.assignment != drafts[0].assignment {
      MapMember(tail, (x: Draft) => x.assignment, d.assignment);
    }
  }

  lemma {:induction false} FirstDraft(drafts: seq<Draft>, a: AssignmentId)
    requires NoDuplicates(DraftIds(drafts))
    ensures WarnedFor(drafts, a) <==> exists d :: d in drafts && d.assignment == a && d.warned
  {
    if drafts != [] {
      TailIds(drafts);
      FirstDraft(drafts[1..], a);
      assert drafts == [drafts[0]] + drafts[1..];
    }
  }

  // ----- The gate -----

  lemma GroupMetIff(c: Coverage, g: Id)
    requires NoDuplicates(Groups(c.receipts))
    ensures GroupMet(c, g) <==> Collected(c, g)
  {
    LastReceipt(c.receipts, g);
  }

  lemma ItemAcceptedIff(c: Coverage, e: PolicyEvent, s: SnapshotView, id: Id)
    requires NoDuplicates(ItemIds(s.items))
    ensures ItemAccepted(c, e, s, id) <==> Holds(c, e, s, id)
  {
    LastItem(s.items, id);
    if ItemAccepted(c, e, s, id) {
      var i := ItemFor(s.items, id).value;
      assert i in s.items && i.id == id;
    }
  }

  lemma ServesIff(c: Coverage, e: PolicyEvent, a: Assignment, drafts: Option<seq<Draft>>)
    requires drafts.Some? ==> NoDuplicates(DraftIds(drafts.value))
    ensures AssignmentCovers(c, e, a, drafts) <==> Serves(c, e, a, drafts)
  {
    PermittedIff(e, a);
    if drafts.Some? {
      CitesUsableIff(e, a, drafts.value);
      FirstDraft(drafts.value, a.id);
    }
  }

  lemma PermittedIff(e: PolicyEvent, a: Assignment)
    ensures Permitted(e, a) != {} <==> HasUsable(e, a)
  {
    if id :| Usable(e, a, id) {
      assert id in Permitted(e, a);
    }
    if id :| id in Permitted(e, a) {
      assert Usable(e, a, id);
    }
  }

  lemma CitesUsableIff(e: PolicyEvent, a: Assignment, drafts: seq<Draft>)
    requires NoDuplicates(DraftIds(drafts))
    ensures Permitted(e, a) * CitedBy(drafts, a.id) != {} <==> CitesUsable(e, a, drafts)
  {
    if id :| id in Permitted(e, a) * CitedBy(drafts, a.id) {
      LastDraft(drafts, a.id, id);
      assert Usable(e, a, id) && Cites(drafts, a, id);
    }
    if id :| Usable(e, a, id) && Cites(drafts, a, id) {
      LastDraft(drafts, a.id, id);
      assert id in Permitted(e, a) * CitedBy(drafts, a.id);
    }
  }

  lemma AgentServedIff(c: Coverage, e: PolicyEvent, agent: AgentId, assignments: seq<Assignment>, drafts: Option<seq<Draft>>)
    requires drafts.Some? ==> NoDuplicates(DraftIds(drafts.value))
    ensures AgentCovers(c, e, agent, assignments, drafts) <==> AgentServed(c, e, agent, assignments, drafts)
  {
    forall a ensures AssignmentCovers(c, e, a, drafts) <==> Serves(c, e, a, drafts) {
      ServesIff(c, e, a, drafts);
    }
  }

  lemma EventStandsIff(c: Coverage, e: PolicyEvent, s: SnapshotView, assignments: seq<Assignment>, drafts: Option<seq<Draft>>)
    requires UniqueIds(c, s, drafts)
    ensures EventAccepted(c, e, s, assignments, drafts) <==> EventStands(c, e, s, assignments, drafts)
  {
    forall id ensures ItemAccepted(c, e, s, id) <==> Holds(c, e, s, id) {
      ItemAcceptedIff(c, e, s, id);
    }
    forall agent ensures AgentCovers(c, e, agent, assignments, drafts) <==> AgentServed(c, e, agent, assignments, drafts) {
      AgentServedIff(c, e, agent, assignments, drafts);
    }
  }

  lemma ReportIff(c: Coverage, d: Draft)
    ensures ReportedIds(c.events) * ToSet(d.evidence) != {} <==> CitesReport(c, d)
  {
    if id :| id in ReportedIds(c.events) * ToSet(d.evidence) {
      var e :| e in c.events && e.status == MediaReported && id in e.evidence;
    }
    if e, id :| e in c.events && e.status == MediaReported && id in e.evidence && id in d.evidence {
      assert id in ReportedIds(c.events) * ToSet(d.evidence);
    }
  }

  /** The gate accepts exactly what conforms. */
  lemma AcceptsIff(c: Coverage, s: SnapshotView, assignments: seq<Assignment>, drafts: Option<seq<Draft>>)
    requires UniqueIds(c, s, drafts)
    ensures Accepts(c, s, assignments, drafts) <==> Conforms(c, s, assignments, drafts)
  {
    forall g ensures GroupMet(c, g) <==> Collected(c, g) {
      GroupMetIff(c, g);
    }
    forall e ensures EventAccepted(c, e, s, assignments, drafts) <==> EventStands(c, e, s, assignments, drafts) {
      EventStandsIff(c, e, s, assignments, drafts);
    }
    forall d: Draft ensures ReportedIds(c.events) * ToSet(d.evidence) != {} <==> CitesReport(c, d) {
      ReportIff(c, d);
    }
  }

  // ----- The gaps -----

  /** A required group that was not collected, or an unresolved event. */
  predicate IsGap(c: Coverage, g: Gap) {
    match g
    case Source(group) => group in c.groups && !Collected(c, group)
    case UnresolvedEvent(event) => exists e :: e in c.events && e.id == event && e.status == Unresolved
  }

  /** Groups come before events, and each of the two in the order of the contract. */
  predicate GapBefore(c: Coverage, a: Gap, b: Gap) {
    match (a, b)
    case (Source(x), Source(y)) => exists i, k :: 0 <= i < k < |c.groups| && c.groups[i] == x && c.groups[k] == y
    case (Source(_), UnresolvedEvent(_)) => true
    case (UnresolvedEvent(_), Source(_)) => false
    case (UnresolvedEvent(x), UnresolvedEvent(y)) => exists i, k :: 0 <= i < k < |c.events| && c.events[i].id == x && c.events[k].id == y
  }

  lemma GapsIff(c: Coverage, g: Gap)
    requires NoDuplicates(Groups(c.receipts))
    ensures g in Gaps(c) <==> IsGap(c, g)
  {
    FilterMembers(c.groups, Unmet(c));
    FilterMembers(c.events, IsUnresolved());
    match g
    case Source(group) =>
      GroupMetIff(c, group);
      MapMember(Filter(c.groups, Unmet(c)), (x: Id) => Source(x), g);
    case UnresolvedEvent(event) =>
      MapMember(Filter(c.events, IsUnresolved()), (x: PolicyEvent) => UnresolvedEvent(x.id), g);
  }

  lemma {:induction false} FilteredAt<T>(xs: seq<T>, keep: T -> bool, j: nat) returns (a: nat)
    requires j < |Filter(xs, keep)|
    ensures a < |xs| && xs[a] == Filter(xs, keep)[j]
  {
    a := |xs| - 1;
    if j < |Filter(xs[..a], keep)| {
      a := FilteredAt(xs[..a], keep, j);
    }
  }

  /** A list keeps its order under a filter. */
  lemma {:induction false} FilterInOrder<T>(xs: seq<T>, keep: T -> bool, j: nat, k: nat) returns (a: nat, b: nat)
    requires j < k < |Filter(xs, keep)|
    ensures a < b < |xs| && xs[a] == Filter(xs, keep)[j] && xs[b] == Filter(xs, keep)[k]
  {
    b := |xs| - 1;
    if k < |Filter(xs[..b], keep)| {
      a, b := FilterInOrder(xs[..b], keep, j, k);
    } else {
      a := FilteredAt(xs[..b], keep, j);
    }
  }

  lemma GapsInOrder(c: Coverage, j: nat, k: nat)
    requires j < k < |Gaps(c)|
    ensures GapBefore(c, Gaps(c)[j], Gaps(c)[k])
  {
    var groups, events := Filter(c.groups, Unmet(c)), Filter(c.events, IsUnresolved());
    if k < |groups| {
      var x, y := FilterInOrder(c.groups, Unmet(c), j, k);
    } else if j >= |groups| {
      var x, y := FilterInOrder(c.events, IsUnresolved(), j - |groups|, k - |groups|);
    }
  }

  /** The listed gaps are exactly these, in that order. */
  ghost predicate AreGaps(c: Coverage, gaps: seq<Gap>) {
    && (forall g :: g in gaps <==> IsGap(c, g))
    && (forall j, k :: 0 <= j < k < |gaps| ==> GapBefore(c, gaps[j], gaps[k]))
  }

  lemma GapsAre(c: Coverage)
    requires NoDuplicates(Groups(c.receipts))
    ensures AreGaps(c, Gaps(c))
  {
    forall g ensures g in Gaps(c) <==> IsGap(c, g) {
      GapsIff(c, g);
    }
    forall j, k | 0 <= j < k < |Gaps(c)| ensures GapBefore(c, Gaps(c)[j], Gaps(c)[k]) {
      GapsInOrder(c, j, k);
    }
  }
}
