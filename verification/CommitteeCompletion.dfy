/** Exactly when the committee graph completes: what every cell's five drafts, the frozen evidence and the
    volatility have to be, whatever order the research outputs are joined in. */
module CommitteeCompletion {
  import opened Common
  import opened Scoring
  import opened Ranking
  import opened Committee
  import opened CommitteeProofs
  import opened CommitteeConfluence
  import opened CommitteeContract

  // ----- The condition -----

  /** The draft exists, and stays on the page its agent was given for the instrument. */
  predicate OnPage(inputs: Inputs, agent: Agent, cell: Cell) {
    Slot(agent, cell) in inputs.drafts && (agent, cell.code) in inputs.wiki &&
    inputs.drafts[Slot(agent, cell)].entry == inputs.wiki[(agent, cell.code)].entry &&
    inputs.drafts[Slot(agent, cell)].section in inputs.wiki[(agent, cell.code)].sections
  }

  /** The item is frozen, about the instrument, and was published by the cutoff. */
  predicate Citable(inputs: Inputs, code: Id, id: Id) {
    id in inputs.items && (inputs.items[id].entities == {} || code in inputs.items[id].entities) &&
    inputs.items[id].stamp.published <= inputs.dataCutoff
  }

  predicate Evidenced(inputs: Inputs, agent: Agent, cell: Cell) {
    OnPage(inputs, agent, cell) &&
    (inputs.live ==> |inputs.drafts[Slot(agent, cell)].evidenceIds| > 0) &&
    forall id :: id in inputs.drafts[Slot(agent, cell)].evidenceIds ==> Citable(inputs, cell.code, id)
  }

  predicate Declares(inputs: Inputs, agent: Agent, cell: Cell, id: Id) {
    Slot(agent, cell) in inputs.drafts && id in inputs.drafts[Slot(agent, cell)].evidenceIds
  }

  predicate StaysInResearch(inputs: Inputs, cell: Cell) {
    Slot(Strategy, cell) in inputs.drafts &&
    forall id :: id in inputs.drafts[Slot(Strategy, cell)].evidenceIds ==>
      Declares(inputs, MacroPolicy, cell, id) || Declares(inputs, MarketNews, cell, id) || Declares(inputs, AiStorage, cell, id)
  }

  /** The Strategy's lead is still above one billionth when fifteen percent of it are gone. */
  predicate KeepsLead(inputs: Inputs, cell: Cell) {
    Slot(Strategy, cell) in inputs.drafts &&
    var p := inputs.drafts[Slot(Strategy, cell)].probabilities;
    0.85 * p.up - 0.85 * p.down > 0.000000001 || 0.85 * p.down - 0.85 * p.up > 0.000000001
  }

  predicate CellFits(inputs: Inputs, cell: Cell) {
    && Evidenced(inputs, MacroPolicy, cell) && Evidenced(inputs, MarketNews, cell) && Evidenced(inputs, AiStorage, cell)
    && Evidenced(inputs, Strategy, cell) && StaysInResearch(inputs, cell) && KeepsLead(inputs, cell)
    && OnPage(inputs, RiskCritic, cell) && inputs.drafts[Slot(RiskCritic, cell)].evidenceIds == []
    && cell.code in inputs.volatility && inputs.volatility[cell.code] >= 0.0
  }

  /** Nothing to forecast, or some instruments and horizons, each listed once, whose cells all fit. */
  ghost predicate CanComplete(inputs: Inputs) {
    |inputs.horizons| == 0 ||
    (&& |inputs.codes| > 0
     && (forall i, j :: 0 <= i < j < |inputs.codes| ==> inputs.codes[i] != inputs.codes[j])
     && (forall i, j :: 0 <= i < j < |inputs.horizons| ==> inputs.horizons[i] != inputs.horizons[j])
     && forall code, h :: code in inputs.codes && h in inputs.horizons ==> CellFits(inputs, Cell(code, h)))
  }

  // ----- Counting the grid -----

  lemma {:induction false} RowCount(code: Id, horizons: seq<Horizon>, cell: Cell)
    ensures multiset(Row(code, horizons))[cell] == if cell.code == code then multiset(horizons)[cell.horizon] else 0
  {
    if horizons != [] {
      var init, last := horizons[..|horizons| - 1], horizons[|horizons| - 1];
      RowCount(code, init, cell);
      assert horizons == init + [last];
      assert multiset(Row(code, horizons)) == multiset(Row(code, init)) + multiset{Cell(code, last)};
    }
  }

  /** In a grid of distinct codes and horizons every cell occurs once. */
  lemma {:induction false} GridCount(codes: seq<Id>, horizons: seq<Horizon>, cell: Cell)
    requires forall i, j :: 0 <= i < j < |codes| ==> codes[i] != codes[j]
    ensures multiset(Grid(codes, horizons))[cell] == if cell.code in codes then multiset(horizons)[cell.horizon] else 0
  {
    if codes != [] {
      var init, last := codes[..|codes| - 1], codes[|codes| - 1];
      GridCount(init, horizons, cell);
      RowCount(last, horizons, cell);
      assert codes == init + [last];
      assert multiset(Grid(codes, horizons)) == multiset(Grid(init, horizons)) + multiset(Row(last, horizons));
    }
  }

  lemma DistinctCount<T>(xs: seq<T>, x: T)
    requires (forall i, j :: 0 <= i < j < |xs| ==> xs[i] != xs[j]) && x in xs
    ensures multiset(xs)[x] == 1
  {
    UniqueIff(xs);
    UniqueMembers(xs);
  }

  lemma CellCount(inputs: Inputs, cell: Cell)
    requires CanComplete(inputs) && cell in Cells(inputs)
    ensures multiset(Cells(inputs))[cell] == 1
  {
    GridMembers(inputs.codes, inputs.horizons);
    GridCount(inputs.codes, inputs.horizons, cell);
    DistinctCount(inputs.horizons, cell.horizon);
  }

  lemma FitsAt(inputs: Inputs, cell: Cell)
    requires CanComplete(inputs) && cell in Cells(inputs)
    ensures CellFits(inputs, cell)
  {
    GridMembers(inputs.codes, inputs.horizons);
    assert cell == Cell(cell.code, cell.horizon);
  }

  // ----- What completed fits -----

  lemma SlotIsTaken(inputs: Inputs, outcome: Outcome, agent: Agent, cell: Cell) returns (o: Opinion)
    requires Complete(inputs, outcome) && cell.code in inputs.codes && cell.horizon in inputs.horizons
    ensures o in outcome.opinions && o.slot == Slot(agent, cell)
  {
    assert |Filter(outcome.opinions, By(agent, Cell(cell.code, cell.horizon)))| == 1;
    FilterMembers(outcome.opinions, By(agent, cell));
    o := Filter(outcome.opinions, By(agent, cell))[0];
    assert o in Filter(outcome.opinions, By(agent, cell));
  }

  lemma SaidIsEvidenced(inputs: Inputs, o: Opinion)
    requires RepeatsDraft(inputs, o) && EvidencePolicy(inputs, o) && InTime(inputs, o)
    ensures OnPage(inputs, o.slot.agent, o.slot.cell)
    ensures o.slot.agent != RiskCritic ==> Evidenced(inputs, o.slot.agent, o.slot.cell)
    ensures o.slot.agent == RiskCritic ==> inputs.drafts[o.slot].evidenceIds == []
  {
    var slot := o.slot;
    assert slot == Slot(slot.agent, slot.cell);
    var ids := inputs.drafts[slot].evidenceIds;
    forall id | id in ids ensures Citable(inputs, slot.cell.code, id) {
      var k :| 0 <= k < |ids| && ids[k] == id;
      assert BoundTo(inputs, slot.cell.code, ids[k], o.citations[k]);
      assert o.citations[k] in o.citations;
    }
  }

  lemma CompletedCellFits(inputs: Inputs, outcome: Outcome, cell: Cell)
    requires Complete(inputs, outcome) && Says(inputs, outcome) && Persistable(outcome)
    requires cell.code in inputs.codes && cell.horizon in inputs.horizons
    ensures CellFits(inputs, cell)
  {
    CompletedDraftsFit(inputs, outcome, cell);
    CompletedStrategyStays(inputs, outcome, cell);
    CompletedForecastFits(inputs, outcome, cell);
  }

  lemma CompletedDraftsFit(inputs: Inputs, outcome: Outcome, cell: Cell)
    requires Complete(inputs, outcome) && Says(inputs, outcome)
    requires cell.code in inputs.codes && cell.horizon in inputs.horizons
    ensures Evidenced(inputs, MacroPolicy, cell) && Evidenced(inputs, MarketNews, cell) && Evidenced(inputs, AiStorage, cell)
    ensures Evidenced(inputs, Strategy, cell)
    ensures OnPage(inputs, RiskCritic, cell) && inputs.drafts[Slot(RiskCritic, cell)].evidenceIds == []
  {
    var m := SlotIsTaken(inputs, outcome, MacroPolicy, cell);
    var n := SlotIsTaken(inputs, outcome, MarketNews, cell);
    var a := SlotIsTaken(inputs, outcome, AiStorage, cell);
    var s := SlotIsTaken(inputs, outcome, Strategy, cell);
    var r := SlotIsTaken(inputs, outcome, RiskCritic, cell);
    SaidIsEvidenced(inputs, m);
    SaidIsEvidenced(inputs, n);
    SaidIsEvidenced(inputs, a);
    SaidIsEvidenced(inputs, s);
    SaidIsEvidenced(inputs, r);
  }

  lemma CompletedStrategyStays(inputs: Inputs, outcome: Outcome, cell: Cell)
    requires Complete(inputs, outcome) && Says(inputs, outcome)
    requires cell.code in inputs.codes && cell.horizon in inputs.horizons
    ensures StaysInResearch(inputs, cell)
  {
    var s := SlotIsTaken(inputs, outcome, Strategy, cell);
    assert RepeatsDraft(inputs, s) && CitesResearch(outcome.opinions, s);
    forall id | id in s.evidenceIds
      ensures Declares(inputs, MacroPolicy, cell, id) || Declares(inputs, MarketNews, cell, id) || Declares(inputs, AiStorage, cell, id)
    {
      assert EvidenceOfResearch(outcome.opinions, cell, id);
      var r :| r in outcome.opinions && r.slot.cell == cell &&
               (r.slot.agent == MacroPolicy || r.slot.agent == MarketNews || r.slot.agent == AiStorage) && id in r.evidenceIds;
      assert RepeatsDraft(inputs, r) && r.slot == Slot(r.slot.agent, cell);
    }
  }

  lemma CompletedForecastFits(inputs: Inputs, outcome: Outcome, cell: Cell)
    requires Complete(inputs, outcome) && Says(inputs, outcome) && Persistable(outcome)
    requires cell.code in inputs.codes && cell.horizon in inputs.horizons
    ensures KeepsLead(inputs, cell) && cell.code in inputs.volatility && inputs.volatility[cell.code] >= 0.0
  {
    assert |Filter(outcome.forecasts, ForecastOn(Cell(cell.code, cell.horizon)))| == 1;
    FilterMembers(outcome.forecasts, ForecastOn(cell));
    var f := Filter(outcome.forecasts, ForecastOn(cell))[0];
    assert f in Filter(outcome.forecasts, ForecastOn(cell));
    var s :| Follows(inputs, outcome.opinions, f, s);
    assert RepeatsDraft(inputs, s) && ForecastFits(f);
  }

  lemma DistinctFromCount<T>(xs: seq<T>)
    requires forall x :: x in xs ==> multiset(xs)[x] == 1
    ensures forall i, j :: 0 <= i < j < |xs| ==> xs[i] != xs[j]
  {
    assert multiset(xs) == multiset(ToSet(xs)) by {
      forall x ensures multiset(xs)[x] == multiset(ToSet(xs))[x] {
        assert x in multiset(xs) <==> x in xs;
      }
    }
    forall i, j | 0 <= i < j < |xs| ensures xs[i] != xs[j] {
      DistinctAt(xs, i, j);
    }
  }

  /** A repeated code or horizon repeats its cells. */
  lemma {:induction false} GridRepeats(codes: seq<Id>, horizons: seq<Horizon>, cell: Cell)
    requires cell.code in codes && cell.horizon in horizons
    ensures multiset(Grid(codes, horizons))[cell] >= multiset(codes)[cell.code]
    ensures multiset(Grid(codes, horizons))[cell] >= multiset(horizons)[cell.horizon]
  {
    var init, last := codes[..|codes| - 1], codes[|codes| - 1];
    RowCount(last, horizons, cell);
    assert codes == init + [last];
    assert multiset(codes) == multiset(init) + multiset{last};
    assert multiset(Grid(codes, horizons)) == multiset(Grid(init, horizons)) + multiset(Row(last, horizons));
    assert multiset(horizons)[cell.horizon] >= 1;
    if cell.code in init {
      GridRepeats(init, horizons, cell);
    } else {
      assert multiset(init)[cell.code] == 0;
    }
  }

  lemma CellIsOnce(inputs: Inputs, joined: seq<Opinion>, code: Id, h: Horizon)
    requires Joins(inputs, joined) && StrategyNode(inputs, joined).Ok? && code in inputs.codes && h in inputs.horizons
    ensures multiset(inputs.codes)[code] == 1 && multiset(inputs.horizons)[h] == 1
  {
    var cell := Cell(code, h);
    GridMembers(inputs.codes, inputs.horizons);
    StrategyChecksDistinct(inputs, joined, cell);
    GridRepeats(inputs.codes, inputs.horizons, cell);
  }

  lemma CompletedIsDistinct(inputs: Inputs, joined: seq<Opinion>)
    requires Joins(inputs, joined) && StrategyNode(inputs, joined).Ok? && inputs.codes != [] && inputs.horizons != []
    ensures forall i, j :: 0 <= i < j < |inputs.codes| ==> inputs.codes[i] != inputs.codes[j]
    ensures forall i, j :: 0 <= i < j < |inputs.horizons| ==> inputs.horizons[i] != inputs.horizons[j]
  {
    forall code | code in inputs.codes ensures multiset(inputs.codes)[code] == 1 {
      CellIsOnce(inputs, joined, code, inputs.horizons[0]);
    }
    DistinctFromCount(inputs.codes);
    forall h | h in inputs.horizons ensures multiset(inputs.horizons)[h] == 1 {
      CellIsOnce(inputs, joined, inputs.codes[0], h);
    }
    DistinctFromCount(inputs.horizons);
  }

  lemma CompletedHasCodes(inputs: Inputs, joined: seq<Opinion>)
    requires StrategyNode(inputs, joined).Ok? && inputs.horizons != []
    ensures inputs.codes != []
  {
    var additions := Collect(Cells(inputs), StrategyMaker(inputs, joined)).value;
    assert inputs.horizons[0] in inputs.horizons;
    assert CanRank(inputs, additions, inputs.horizons[0]);
  }

  lemma CompletedCanComplete(inputs: Inputs, joined: seq<Opinion>)
    requires forall s :: s in inputs.drafts ==> DraftValid(inputs.drafts[s])
    requires Joins(inputs, joined) && AfterJoin(inputs, joined).Ok?
    ensures CanComplete(inputs)
  {
    if inputs.horizons != [] {
      var outcome := AfterJoin(inputs, joined).value;
      CompletedHasCodes(inputs, joined);
      CompletedIsDistinct(inputs, joined);
      CompletedGraphCoversGrid(inputs, joined);
      CompletedGraphSays(inputs, joined);
      CompletedGraphIsPersistable(inputs, joined);
      PersistAcceptsIff(outcome);
      forall code, h | code in inputs.codes && h in inputs.horizons ensures CellFits(inputs, Cell(code, h)) {
        CompletedCellFits(inputs, outcome, Cell(code, h));
      }
    }
  }

  // ----- What fits completes -----

  lemma {:induction false} CitableBinds(inputs: Inputs, code: Id, page: WikiPage, section: Id, ids: seq<Id>)
    requires forall id :: id in ids ==> Citable(inputs, code, id)
    ensures BindAll(inputs, code, page, section, ids).Ok?
  {
    if ids != [] {
      CitableBinds(inputs, code, page, section, ids[..|ids| - 1]);
      assert ids[|ids| - 1] in ids;
    }
  }

  lemma EvidencedIsDrafted(inputs: Inputs, agent: Agent, cell: Cell)
    requires Evidenced(inputs, agent, cell)
    ensures DraftOpinion(inputs, Slot(agent, cell)).Ok?
  {
    var draft := inputs.drafts[Slot(agent, cell)];
    CitableBinds(inputs, cell.code, inputs.wiki[(agent, cell.code)], draft.section, draft.evidenceIds);
  }

  /** The three research nodes succeed. */
  lemma FittingResearch(inputs: Inputs, agent: Agent)
    requires CanComplete(inputs) && (agent == MacroPolicy || agent == MarketNews || agent == AiStorage)
    ensures Research(inputs, agent).Ok?
  {
    forall cell | cell in Cells(inputs) ensures ResearchMaker(inputs, agent)(cell).Ok? {
      FitsAt(inputs, cell);
      EvidencedIsDrafted(inputs, agent, cell);
    }
    CollectOkIff(Cells(inputs), ResearchMaker(inputs, agent));
  }

  lemma JoinedOpinion(inputs: Inputs, joined: seq<Opinion>, agent: Agent, cell: Cell) returns (o: Opinion)
    requires CanComplete(inputs) && Joins(inputs, joined) && cell in Cells(inputs) && IsResearch(agent)
    ensures o in joined && o.slot == Slot(agent, cell)
    ensures o.slot in inputs.drafts && o.evidenceIds == inputs.drafts[o.slot].evidenceIds
  {
    CellCount(inputs, cell);
    JoinedAgentCount(inputs, joined, agent, cell);
    FilterMembers(joined, By(agent, cell));
    o := Filter(joined, By(agent, cell))[0];
    assert o in Filter(joined, By(agent, cell));
    JoinedSays(inputs, joined, o);
  }

  lemma ResearchAgent(inputs: Inputs, joined: seq<Opinion>, cell: Cell, agent: Agent)
    requires CanComplete(inputs) && Joins(inputs, joined) && cell in Cells(inputs) && IsResearch(agent)
    ensures agent in Agents(Filter(joined, ResearchOn(cell)))
  {
    var o := JoinedOpinion(inputs, joined, agent, cell);
    FilterMembers(joined, ResearchOn(cell));
    assert o in Filter(joined, ResearchOn(cell));
  }

  lemma OnlyResearchAgents(joined: seq<Opinion>, cell: Cell)
    ensures Agents(Filter(joined, ResearchOn(cell))) <= RESEARCH_AGENTS
  {
    FilterMembers(joined, ResearchOn(cell));
  }

  lemma FittingResearchSet(inputs: Inputs, joined: seq<Opinion>, cell: Cell)
    requires CanComplete(inputs) && Joins(inputs, joined) && cell in Cells(inputs)
    ensures |Filter(joined, ResearchOn(cell))| == 3 && Agents(Filter(joined, ResearchOn(cell))) == RESEARCH_AGENTS
  {
    CellCount(inputs, cell);
    JoinedCellCount(inputs, joined, cell);
    OnlyResearchAgents(joined, cell);
    ResearchAgent(inputs, joined, cell, MacroPolicy);
    ResearchAgent(inputs, joined, cell, MarketNews);
    ResearchAgent(inputs, joined, cell, AiStorage);
  }

  function IdentityOf(o: Opinion): (Id, Agent) {
    (o.slot.cell.code, o.slot.agent)
  }

  lemma {:induction false} FilterTwice<T>(xs: seq<T>, first: T -> bool, second: T -> bool)
    ensures |Filter(Filter(xs, first), second)| <= |Filter(xs, second)|
  {
    if xs != [] {
      var init, last := xs[..|xs| - 1], xs[|xs| - 1];
      FilterTwice(init, first, second);
      if first(last) {
        FilterSnoc(Filter(init, first), last, second);
      }
    }
  }

  lemma TwoKept<T>(xs: seq<T>, keep: T -> bool, i: nat, j: nat)
    requires i < j < |xs| && keep(xs[i]) && keep(xs[j])
    ensures |Filter(xs, keep)| >= 2
  {
    var front, back := xs[..j], xs[j..];
    assert xs == front + back;
    FilterConcat(front, back, keep);
    FilterMembers(front, keep);
    FilterMembers(back, keep);
    assert front[i] in Filter(front, keep) && back[0] in Filter(back, keep);
  }

  /** No two peers have the same instrument and agent. */
  lemma PeersDiffer(inputs: Inputs, joined: seq<Opinion>, cell: Cell)
    requires CanComplete(inputs) && Joins(inputs, joined)
    ensures NoDuplicates(Map(Filter(joined, PeersOf(cell)), IdentityOf))
  {
    var peers := Filter(joined, PeersOf(cell));
    var identities := Map(peers, IdentityOf);
    FilterMembers(joined, PeersOf(cell));
    forall i, j | 0 <= i < j < |identities| ensures identities[i] != identities[j] {
      if identities[i] == identities[j] {
        assert peers[i] in peers && peers[j] in peers;
        SlotOnce(inputs, joined, peers[i]);
        var own := By(peers[i].slot.agent, peers[i].slot.cell);
        TwoKept(peers, own, i, j);
        FilterTwice(joined, PeersOf(cell), own);
        assert false;
      }
    }
    UniqueOfDistinct(identities);
    UniqueMembers(identities);
  }

  lemma SlotOnce(inputs: Inputs, joined: seq<Opinion>, o: Opinion)
    requires CanComplete(inputs) && Joins(inputs, joined) && o in joined
    ensures |Filter(joined, By(o.slot.agent, o.slot.cell))| == 1
  {
    JoinedAreResearch(inputs, joined);
    CellCount(inputs, o.slot.cell);
    JoinedAgentCount(inputs, joined, o.slot.agent, o.slot.cell);
  }

  lemma IdentitiesAre(peers: seq<Opinion>)
    ensures ToSet(Map(peers, IdentityOf)) == Identities(peers)
  {
    var identities := Map(peers, IdentityOf);
    forall x ensures x in identities <==> x in Identities(peers) {
      if x in identities {
        var k :| 0 <= k < |identities| && identities[k] == x;
        assert peers[k] in peers;
      }
      if x in Identities(peers) {
        var o :| o in peers && IdentityOf(o) == x;
        var k :| 0 <= k < |peers| && peers[k] == o;
        assert identities[k] == x;
      }
    }
  }

  lemma FittingPeers(inputs: Inputs, joined: seq<Opinion>, cell: Cell)
    requires CanComplete(inputs) && Joins(inputs, joined) && cell in Cells(inputs)
    ensures var peers, expected := Filter(joined, PeersOf(cell)), ExpectedPeers(inputs.codes, cell);
            |peers| == |expected| && Identities(peers) == expected
  {
    var peers := Filter(joined, PeersOf(cell));
    PeerIdentities(inputs, joined, cell);
    PeersDiffer(inputs, joined, cell);
    DistinctSize(Map(peers, IdentityOf));
    IdentitiesAre(peers);
  }

  lemma PeerIsExpected(inputs: Inputs, joined: seq<Opinion>, cell: Cell, o: Opinion)
    requires Joins(inputs, joined) && o in Filter(joined, PeersOf(cell))
    ensures (o.slot.cell.code, o.slot.agent) in ExpectedPeers(inputs.codes, cell)
  {
    FilterMembers(joined, PeersOf(cell));
    JoinedAreResearch(inputs, joined);
    GridMembers(inputs.codes, inputs.horizons);
  }

  lemma ExpectedIsPeer(inputs: Inputs, joined: seq<Opinion>, cell: Cell, code: Id, agent: Agent)
    requires CanComplete(inputs) && Joins(inputs, joined) && cell in Cells(inputs)
    requires (code, agent) in ExpectedPeers(inputs.codes, cell)
    ensures (code, agent) in Identities(Filter(joined, PeersOf(cell)))
  {
    GridMembers(inputs.codes, inputs.horizons);
    var o := JoinedOpinion(inputs, joined, agent, Cell(code, cell.horizon));
    FilterMembers(joined, PeersOf(cell));
    assert o in Filter(joined, PeersOf(cell));
  }

  lemma PeerIdentities(inputs: Inputs, joined: seq<Opinion>, cell: Cell)
    requires CanComplete(inputs) && Joins(inputs, joined) && cell in Cells(inputs)
    ensures Identities(Filter(joined, PeersOf(cell))) == ExpectedPeers(inputs.codes, cell)
  {
    var peers, expected := Filter(joined, PeersOf(cell)), ExpectedPeers(inputs.codes, cell);
    forall code, agent | (code, agent) in expected ensures (code, agent) in Identities(peers) {
      ExpectedIsPeer(inputs, joined, cell, code, agent);
    }
    forall o | o in peers ensures (o.slot.cell.code, o.slot.agent) in expected {
      PeerIsExpected(inputs, joined, cell, o);
    }
  }

  lemma FittingStrategy(inputs: Inputs, joined: seq<Opinion>, cell: Cell)
    requires CanComplete(inputs) && Joins(inputs, joined) && cell in Cells(inputs)
    ensures StrategyOpinion(inputs, joined, cell).Ok?
  {
    FitsAt(inputs, cell);
    FittingResearchSet(inputs, joined, cell);
    FittingPeers(inputs, joined, cell);
    EvidencedIsDrafted(inputs, Strategy, cell);
    FittingEvidence(inputs, joined, cell);
  }

  lemma FittingEvidence(inputs: Inputs, joined: seq<Opinion>, cell: Cell)
    requires CanComplete(inputs) && Joins(inputs, joined) && cell in Cells(inputs) && StaysInResearch(inputs, cell)
    ensures ToSet(inputs.drafts[Slot(Strategy, cell)].evidenceIds) <= EvidenceOf(Filter(joined, ResearchOn(cell)))
  {
    FilterMembers(joined, ResearchOn(cell));
    forall id | id in inputs.drafts[Slot(Strategy, cell)].evidenceIds ensures id in EvidenceOf(Filter(joined, ResearchOn(cell))) {
      var agent := if Declares(inputs, MacroPolicy, cell, id) then MacroPolicy
                   else if Declares(inputs, MarketNews, cell, id) then MarketNews else AiStorage;
      var o := JoinedOpinion(inputs, joined, agent, cell);
      assert o in Filter(joined, ResearchOn(cell)) && id in o.evidenceIds;
    }
  }

  // ----- Ranking -----

  function AtHorizon(h: Horizon): Cell -> bool {
    (c: Cell) => c.horizon == h
  }

  lemma {:induction false} RowAtHorizon(code: Id, horizons: seq<Horizon>, h: Horizon)
    ensures |Filter(Row(code, horizons), AtHorizon(h))| == multiset(horizons)[h]
  {
    if horizons != [] {
      var init, last := horizons[..|horizons| - 1], horizons[|horizons| - 1];
      RowAtHorizon(code, init, h);
      FilterSnoc(Row(code, init), Cell(code, last), AtHorizon(h));
      assert horizons == init + [last];
    }
  }

  lemma {:induction false} GridAtHorizon(codes: seq<Id>, horizons: seq<Horizon>, h: Horizon)
    requires multiset(horizons)[h] == 1
    ensures |Filter(Grid(codes, horizons), AtHorizon(h))| == |codes|
  {
    if codes != [] {
      var init, last := codes[..|codes| - 1], codes[|codes| - 1];
      GridAtHorizon(init, horizons, h);
      RowAtHorizon(last, horizons, h);
      FilterConcat(Grid(init, horizons), Row(last, horizons), AtHorizon(h));
    }
  }

  lemma {:induction false} FilledAtHorizon(opinions: seq<Opinion>, agent: Agent, cells: seq<Cell>, h: Horizon)
    requires Fills(opinions, agent, cells)
    ensures |Filter(opinions, OnHorizon(h))| == |Filter(cells, AtHorizon(h))|
  {
    if opinions != [] {
      var n := |opinions| - 1;
      FilledAtHorizon(opinions[..n], agent, cells[..n], h);
    }
  }

  lemma FilledHas(opinions: seq<Opinion>, agent: Agent, cells: seq<Cell>, cell: Cell) returns (o: Opinion)
    requires Fills(opinions, agent, cells) && cell in cells
    ensures o in opinions && o.slot == Slot(agent, cell)
  {
    var i :| 0 <= i < |cells| && cells[i] == cell;
    o := opinions[i];
  }

  lemma FittingRanks(inputs: Inputs, additions: seq<Opinion>, h: Horizon)
    requires CanComplete(inputs) && Fills(additions, Strategy, Cells(inputs)) && h in inputs.horizons
    ensures CanRank(inputs, additions, h)
  {
    var rows := Filter(additions, OnHorizon(h));
    DistinctCount(inputs.horizons, h);
    GridAtHorizon(inputs.codes, inputs.horizons, h);
    FilledAtHorizon(additions, Strategy, Cells(inputs), h);
    RankedCodes(inputs, additions, h);
  }

  lemma RankedCode(inputs: Inputs, additions: seq<Opinion>, h: Horizon, o: Opinion)
    requires Fills(additions, Strategy, Cells(inputs)) && o in Filter(additions, OnHorizon(h))
    ensures o.slot.cell.code in inputs.codes
  {
    FilterMembers(additions, OnHorizon(h));
    FillsMembers(additions, Strategy, Cells(inputs));
    GridMembers(inputs.codes, inputs.horizons);
  }

  lemma CodeIsRanked(inputs: Inputs, additions: seq<Opinion>, h: Horizon, code: Id)
    requires Fills(additions, Strategy, Cells(inputs)) && h in inputs.horizons && code in inputs.codes
    ensures code in CodesOf(Filter(additions, OnHorizon(h)))
  {
    var rows := Filter(additions, OnHorizon(h));
    GridMembers(inputs.codes, inputs.horizons);
    var o := FilledHas(additions, Strategy, Cells(inputs), Cell(code, h));
    FilterMembers(additions, OnHorizon(h));
    var k :| 0 <= k < |rows| && rows[k] == o;
    assert CodesOf(rows)[k] == code;
  }

  lemma RankedCodes(inputs: Inputs, additions: seq<Opinion>, h: Horizon)
    requires Fills(additions, Strategy, Cells(inputs)) && h in inputs.horizons
    ensures ToSet(CodesOf(Filter(additions, OnHorizon(h)))) == ToSet(inputs.codes)
  {
    var rows := Filter(additions, OnHorizon(h));
    forall code | code in CodesOf(rows) ensures code in inputs.codes {
      var k :| 0 <= k < |rows| && CodesOf(rows)[k] == code;
      RankedCode(inputs, additions, h, rows[k]);
    }
    forall code | code in inputs.codes ensures code in CodesOf(rows) {
      CodeIsRanked(inputs, additions, h, code);
    }
  }

  lemma FittingStrategyNode(inputs: Inputs, joined: seq<Opinion>)
    requires CanComplete(inputs) && Joins(inputs, joined)
    ensures StrategyNode(inputs, joined).Ok?
  {
    var cells, make := Cells(inputs), StrategyMaker(inputs, joined);
    forall cell | cell in cells ensures make(cell).Ok? {
      FittingStrategy(inputs, joined, cell);
    }
    CollectOkIff(cells, make);
    CollectAt(cells, make);
    var additions := Collect(cells, make).value;
    forall i | 0 <= i < |cells| ensures additions[i].slot == Slot(Strategy, cells[i]) {
      assert make(cells[i]) == Ok(additions[i]);
      StrategySlot(inputs, joined, cells[i]);
    }
    forall h | h in inputs.horizons ensures CanRank(inputs, additions, h) {
      FittingRanks(inputs, additions, h);
    }
  }

  // ----- Critic, validator and CIO -----

  lemma FittingCritic(inputs: Inputs, joined: seq<Opinion>, s: seq<Opinion>)
    requires CanComplete(inputs) && Joins(inputs, joined) && StrategyNode(inputs, joined) == Ok(s)
    ensures CriticNode(inputs, joined + s).Ok?
  {
    var cells, make := Cells(inputs), CriticMaker(inputs, joined + s);
    forall cell | cell in cells ensures make(cell).Ok? {
      FitsAt(inputs, cell);
      CriticInputCount(inputs, joined, s, cell);
    }
    CollectOkIff(cells, make);
  }

  lemma CriticInputCount(inputs: Inputs, joined: seq<Opinion>, s: seq<Opinion>, cell: Cell)
    requires CanComplete(inputs) && Joins(inputs, joined) && StrategyNode(inputs, joined) == Ok(s) && cell in Cells(inputs)
    ensures |Filter(joined + s, CriticInputs(cell))| == 4
  {
    var keep := CriticInputs(cell);
    CellCount(inputs, cell);
    FilterConcat(joined, s, keep);
    StrategyFills(inputs, joined);
    FillsCount(s, Strategy, Cells(inputs), keep, cell);
    JoinCount(inputs, joined, keep);
    ResearchFills(inputs, MacroPolicy);
    ResearchFills(inputs, MarketNews);
    ResearchFills(inputs, AiStorage);
    FillsCount(Research(inputs, MacroPolicy).value, MacroPolicy, Cells(inputs), keep, cell);
    FillsCount(Research(inputs, MarketNews).value, MarketNews, Cells(inputs), keep, cell);
    FillsCount(Research(inputs, AiStorage).value, AiStorage, Cells(inputs), keep, cell);
  }

  /** An opinion that repeats a fitting draft is properly cited. */
  lemma FittingIsCited(inputs: Inputs, o: Opinion)
    requires RepeatsDraft(inputs, o) && EvidencePolicy(inputs, o)
    requires o.evidenceIds == [] || Evidenced(inputs, o.slot.agent, o.slot.cell)
    ensures OpinionCited(inputs, o)
  {
    var key := (o.slot.agent, o.slot.cell.code);
    assert o.slot == Slot(o.slot.agent, o.slot.cell);
    var ids := o.evidenceIds;
    forall c | c in o.citations ensures CitationHolds(inputs, c) {
      var k :| 0 <= k < |o.citations| && o.citations[k] == c;
      assert inputs.wiki[key].entry == c.entry && inputs.wiki[key].version == c.version && c.section in inputs.wiki[key].sections;
      if ids != [] {
        assert BoundTo(inputs, o.slot.cell.code, ids[k], c) && Citable(inputs, o.slot.cell.code, ids[k]);
      }
    }
    if ids != [] {
      BoundAreDeclared(inputs, o.slot.cell.code, ids, o.citations);
    }
  }

  lemma BoundAreDeclared(inputs: Inputs, code: Id, ids: seq<Id>, citations: seq<Citation>)
    requires ids != [] && Bound(inputs, code, ids, citations)
    ensures BoundIds(citations) == ToSet(ids) && citations != [] && BoundIds(citations) != {}
  {
    forall id ensures id in BoundIds(citations) <==> id in ids {
      if id in ids {
        var k :| 0 <= k < |ids| && ids[k] == id;
        assert BoundTo(inputs, code, ids[k], citations[k]) && citations[k] in citations;
      }
      if id in BoundIds(citations) {
        var c :| c in citations && c.evidence == Some(id);
        var k :| 0 <= k < |citations| && citations[k] == c;
        assert BoundTo(inputs, code, ids[k], citations[k]);
      }
    }
    assert ids[0] in ToSet(ids);
  }

  lemma FittingIsValid(inputs: Inputs, joined: seq<Opinion>, s: seq<Opinion>, c: seq<Opinion>)
    requires CanComplete(inputs) && Joins(inputs, joined) && StrategyNode(inputs, joined) == Ok(s) && CriticNode(inputs, joined + s) == Ok(c)
    ensures EvidenceValid(inputs, joined + s + c)
  {
    JoinedAreResearch(inputs, joined);
    StrategyFills(inputs, joined);
    CriticFills(inputs, joined + s);
    FillsMembers(s, Strategy, Cells(inputs));
    FillsMembers(c, RiskCritic, Cells(inputs));
    forall o | o in joined + s + c ensures OpinionCited(inputs, o) {
      FitsAt(inputs, o.slot.cell);
      if o in joined {
        JoinedSays(inputs, joined, o);
      } else if o in s {
        StrategySays(inputs, joined, o);
      } else {
        CriticSays(inputs, joined + s, o);
      }
      FittingIsCited(inputs, o);
    }
  }

  lemma LeadHasDirection(p: Probabilities)
    requires SchemaValid(p) && (0.85 * p.up - 0.85 * p.down > 0.000000001 || 0.85 * p.down - 0.85 * p.up > 0.000000001)
    ensures ApplyHaircut(p, DIRECTIONAL_MASS_HAIRCUT).Ok?
    ensures var q := ApplyHaircut(p, DIRECTIONAL_MASS_HAIRCUT).value; PredictedDirection(q).Some? && DirectionalConfidence(q).Some?
  {
    CommitteeHaircutIsTotal(p);
    CommitteeHaircutDirection(p);
    DirectionIff(ApplyHaircut(p, DIRECTIONAL_MASS_HAIRCUT).value);
  }

  lemma FoundForecasts(inputs: Inputs, opinions: seq<Opinion>, cell: Cell, s: Opinion)
    requires |Filter(opinions, ResearchOn(cell))| == 3 && First(opinions, By(Strategy, cell)) == Some(s) && First(opinions, By(RiskCritic, cell)).Some?
    requires ApplyHaircut(s.probabilities, DIRECTIONAL_MASS_HAIRCUT).Ok?
    requires var q := ApplyHaircut(s.probabilities, DIRECTIONAL_MASS_HAIRCUT).value;
             PredictedDirection(q).Some? && DirectionalConfidence(q).Some?
    requires cell.code in inputs.volatility && inputs.volatility[cell.code] >= 0.0
    ensures CioForecast(inputs, opinions, cell).Ok?
  {
  }

  lemma OnlyJoinedResearch(joined: seq<Opinion>, s: seq<Opinion>, c: seq<Opinion>, cells: seq<Cell>, cell: Cell)
    requires Fills(s, Strategy, cells) && Fills(c, RiskCritic, cells)
    ensures |Filter(joined + s + c, ResearchOn(cell))| == |Filter(joined, ResearchOn(cell))|
  {
    FilterThree(joined, s, c, ResearchOn(cell));
    FillsNone(s, Strategy, cells, ResearchOn(cell));
    FillsNone(c, RiskCritic, cells, ResearchOn(cell));
  }

  /** The CIO finds the Strategy's and the critic's opinion. */
  lemma CioFinds(joined: seq<Opinion>, s: seq<Opinion>, c: seq<Opinion>, cells: seq<Cell>, cell: Cell)
    requires Fills(s, Strategy, cells) && Fills(c, RiskCritic, cells) && cell in cells
    ensures First(joined + s + c, By(Strategy, cell)).Some? && First(joined + s + c, By(RiskCritic, cell)).Some?
  {
    var own := FilledHas(s, Strategy, cells, cell);
    FoundIn(joined + s + c, By(Strategy, cell), own);
    var risk := FilledHas(c, RiskCritic, cells, cell);
    FoundIn(joined + s + c, By(RiskCritic, cell), risk);
  }

  lemma FoundIn(opinions: seq<Opinion>, keep: Opinion -> bool, o: Opinion)
    requires o in opinions && keep(o)
    ensures First(opinions, keep).Some?
  {
    FilterMembers(opinions, keep);
  }

  lemma CioInputs(inputs: Inputs, joined: seq<Opinion>, s: seq<Opinion>, c: seq<Opinion>, cell: Cell)
    requires CanComplete(inputs) && Joins(inputs, joined) && StrategyNode(inputs, joined) == Ok(s) && CriticNode(inputs, joined + s) == Ok(c)
    requires cell in Cells(inputs)
    ensures |Filter(joined + s + c, ResearchOn(cell))| == 3
    ensures First(joined + s + c, By(Strategy, cell)).Some? && First(joined + s + c, By(RiskCritic, cell)).Some?
  {
    StrategyFills(inputs, joined);
    CriticFills(inputs, joined + s);
    OnlyJoinedResearch(joined, s, c, Cells(inputs), cell);
    CellCount(inputs, cell);
    JoinedCellCount(inputs, joined, cell);
    CioFinds(joined, s, c, Cells(inputs), cell);
  }

  lemma FilterThree<T>(a: seq<T>, b: seq<T>, c: seq<T>, keep: T -> bool)
    ensures |Filter(a + b + c, keep)| == |Filter(a, keep)| + |Filter(b, keep)| + |Filter(c, keep)|
  {
    FilterConcat(a + b, c, keep);
    FilterConcat(a, b, keep);
  }

  lemma StrategyVector(inputs: Inputs, joined: seq<Opinion>, s: seq<Opinion>, c: seq<Opinion>, o: Opinion)
    requires Joins(inputs, joined) && StrategyNode(inputs, joined) == Ok(s) && CriticNode(inputs, joined + s) == Ok(c)
    requires o in joined + s + c && o.slot.agent == Strategy
    ensures o.slot in inputs.drafts && o.probabilities == inputs.drafts[o.slot].probabilities
  {
    if o in joined {
      JoinedSays(inputs, joined, o);
    } else if o in s {
      StrategySays(inputs, joined, o);
    } else {
      CriticSays(inputs, joined + s, o);
    }
  }

  lemma FittingForecast(inputs: Inputs, joined: seq<Opinion>, s: seq<Opinion>, c: seq<Opinion>, cell: Cell)
    requires forall s :: s in inputs.drafts ==> DraftValid(inputs.drafts[s])
    requires CanComplete(inputs) && Joins(inputs, joined) && StrategyNode(inputs, joined) == Ok(s) && CriticNode(inputs, joined + s) == Ok(c)
    requires cell in Cells(inputs)
    ensures CioForecast(inputs, joined + s + c, cell).Ok?
  {
    var opinions := joined + s + c;
    FitsAt(inputs, cell);
    CioInputs(inputs, joined, s, c, cell);
    FirstIsMember(opinions, By(Strategy, cell));
    var own := First(opinions, By(Strategy, cell)).value;
    StrategyVector(inputs, joined, s, c, own);
    assert DraftValid(inputs.drafts[own.slot]);
    LeadHasDirection(own.probabilities);
    FoundForecasts(inputs, opinions, cell, own);
  }

  lemma FittingCompletes(inputs: Inputs, joined: seq<Opinion>)
    requires forall s :: s in inputs.drafts ==> DraftValid(inputs.drafts[s])
    requires CanComplete(inputs) && Joins(inputs, joined)
    ensures AfterJoin(inputs, joined).Ok?
  {
    FittingStrategyNode(inputs, joined);
    var s := StrategyNode(inputs, joined).value;
    FittingCritic(inputs, joined, s);
    var c := CriticNode(inputs, joined + s).value;
    FittingIsValid(inputs, joined, s, c);
    forall cell | cell in Cells(inputs) ensures CioMaker(inputs, joined + s + c)(cell).Ok? {
      FittingForecast(inputs, joined, s, c, cell);
    }
    CollectOkIff(Cells(inputs), CioMaker(inputs, joined + s + c));
  }

  lemma JoinCompletesIff(inputs: Inputs, joined: seq<Opinion>)
    requires forall s :: s in inputs.drafts ==> DraftValid(inputs.drafts[s])
    requires Joins(inputs, joined)
    ensures AfterJoin(inputs, joined).Ok? <==> CanComplete(inputs)
  {
    if CanComplete(inputs) {
      FittingCompletes(inputs, joined);
    }
    if AfterJoin(inputs, joined).Ok? {
      CompletedCanComplete(inputs, joined);
    }
  }

  lemma FittingJoins(inputs: Inputs) returns (joined: seq<Opinion>)
    requires CanComplete(inputs)
    ensures Joins(inputs, joined)
  {
    FittingResearch(inputs, MacroPolicy);
    FittingResearch(inputs, MarketNews);
    FittingResearch(inputs, AiStorage);
    joined := Research(inputs, MacroPolicy).value + Research(inputs, MarketNews).value + Research(inputs, AiStorage).value;
  }

  /** However the research outputs are joined, a run of schema-valid drafts completes exactly when it can: the
      three research nodes then succeed, and every join goes through. */
  lemma CompletesIff(inputs: Inputs)
    requires forall s :: s in inputs.drafts ==> DraftValid(inputs.drafts[s])
    ensures (exists joined :: Joins(inputs, joined) && AfterJoin(inputs, joined).Ok?) <==> CanComplete(inputs)
    ensures forall joined :: Joins(inputs, joined) ==> (AfterJoin(inputs, joined).Ok? <==> CanComplete(inputs))
  {
    forall joined | Joins(inputs, joined) ensures AfterJoin(inputs, joined).Ok? <==> CanComplete(inputs) {
      JoinCompletesIff(inputs, joined);
    }
    if CanComplete(inputs) {
      var joined := FittingJoins(inputs);
    }
  }
}
