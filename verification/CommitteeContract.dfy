/** What a completed run of the committee graph says, in terms of its inputs and of the opinions it emits:
    which draft an opinion is, what it may cite, and what a forecast takes from the opinions on its cell. */
module CommitteeContract {
  import opened Common
  import opened Scoring
  import opened Ranking
  import opened Committee
  import opened CommitteeProofs
  import opened CommitteeConfluence
  import CommitteeNodes

  // ----- Opinions -----

  /** The citations carry one evidence item each, in the order the draft declares them, with the frozen
      item's own stamp; the item is about the instrument and was published by the cutoff. A draft without
      evidence cites its page alone. */
  ghost predicate Bound(inputs: Inputs, code: Id, ids: seq<Id>, citations: seq<Citation>) {
    if ids == [] then |citations| == 1 && citations[0].evidence == None && citations[0].stamp == None
    else
      |citations| == |ids| && forall k :: 0 <= k < |ids| ==> BoundTo(inputs, code, ids[k], citations[k])
  }

  ghost predicate BoundTo(inputs: Inputs, code: Id, id: Id, c: Citation) {
    && id in inputs.items && c.evidence == Some(id) && c.stamp == Some(inputs.items[id].stamp)
    && (inputs.items[id].entities == {} || code in inputs.items[id].entities)
  }

  /** The opinion repeats the draft of its slot, from the page its agent was given for the instrument. */
  ghost predicate RepeatsDraft(inputs: Inputs, o: Opinion) {
    var key := (o.slot.agent, o.slot.cell.code);
    o.slot in inputs.drafts && key in inputs.wiki &&
    var draft, page := inputs.drafts[o.slot], inputs.wiki[key];
    && draft.entry == page.entry && draft.section in page.sections
    && o.direction == draft.direction && o.probabilities == draft.probabilities && o.summary == draft.summary
    && o.counterEvidence == draft.counterEvidence && o.invalidation == draft.invalidation && o.evidenceIds == draft.evidenceIds
    && (forall c :: c in o.citations ==> c.entry == page.entry && c.version == page.version && c.section == draft.section)
    && Bound(inputs, o.slot.cell.code, draft.evidenceIds, o.citations)
  }

  /** In a live run research and Strategy cite evidence; the critic never does. */
  ghost predicate EvidencePolicy(inputs: Inputs, o: Opinion) {
    && (o.slot.agent == RiskCritic ==> o.evidenceIds == [])
    && (inputs.live && o.slot.agent != RiskCritic ==> o.evidenceIds != [])
  }

  /** Nothing an opinion cites was published after the cutoff. */
  ghost predicate InTime(inputs: Inputs, o: Opinion) {
    forall c :: c in o.citations && c.stamp.Some? ==> c.stamp.value.published <= inputs.dataCutoff
  }

  /** Strategy cites only what the research on its cell cites. */
  ghost predicate CitesResearch(opinions: seq<Opinion>, o: Opinion) {
    forall id :: id in o.evidenceIds ==> EvidenceOfResearch(opinions, o.slot.cell, id)
  }

  ghost predicate EvidenceOfResearch(opinions: seq<Opinion>, cell: Cell, id: Id) {
    exists r :: r in opinions && r.slot.cell == cell && (r.slot.agent == MacroPolicy || r.slot.agent == MarketNews || r.slot.agent == AiStorage) &&
                id in r.evidenceIds
  }

  lemma {:induction false} BindAllBinds(inputs: Inputs, code: Id, page: WikiPage, section: Id, ids: seq<Id>)
    requires BindAll(inputs, code, page, section, ids).Ok?
    ensures var bound := BindAll(inputs, code, page, section, ids).value;
            && |bound| == |ids| && (forall k :: 0 <= k < |ids| ==> BoundTo(inputs, code, ids[k], bound[k]))
            && (forall c :: c in bound ==> c.entry == page.entry && c.version == page.version && c.section == section)
  {
    if ids != [] {
      BindAllBinds(inputs, code, page, section, ids[..|ids| - 1]);
    }
  }

  lemma DraftIsRepeated(inputs: Inputs, slot: Slot)
    requires DraftOpinion(inputs, slot).Ok?
    ensures RepeatsDraft(inputs, DraftOpinion(inputs, slot).value)
    ensures DraftOpinion(inputs, slot).value.slot == slot && DraftOpinion(inputs, slot).value.place == None
    ensures inputs.live ==> DraftOpinion(inputs, slot).value.evidenceIds != []
  {
    var draft := inputs.drafts[slot];
    var page := inputs.wiki[(slot.agent, slot.cell.code)];
    if draft.evidenceIds != [] {
      BindAllBinds(inputs, slot.cell.code, page, draft.section, draft.evidenceIds);
    }
  }

  lemma ResearchSays(inputs: Inputs, agent: Agent, o: Opinion)
    requires Research(inputs, agent).Ok? && o in Research(inputs, agent).value && agent != RiskCritic
    ensures RepeatsDraft(inputs, o) && EvidencePolicy(inputs, o) && o.slot.agent == agent
  {
    var cells, make := Cells(inputs), ResearchMaker(inputs, agent);
    CollectAt(cells, make);
    var i :| 0 <= i < |cells| && Research(inputs, agent).value[i] == o;
    assert make(cells[i]) == Ok(o);
    DraftIsRepeated(inputs, Slot(agent, cells[i]));
  }

  lemma JoinedSays(inputs: Inputs, joined: seq<Opinion>, o: Opinion)
    requires Joins(inputs, joined) && o in joined
    ensures RepeatsDraft(inputs, o) && EvidencePolicy(inputs, o) && IsResearch(o.slot.agent)
  {
    var m, n, a := Research(inputs, MacroPolicy).value, Research(inputs, MarketNews).value, Research(inputs, AiStorage).value;
    PermutationMembers(joined, m + n + a);
    if o in m {
      ResearchSays(inputs, MacroPolicy, o);
    } else if o in n {
      ResearchSays(inputs, MarketNews, o);
    } else {
      ResearchSays(inputs, AiStorage, o);
    }
  }

  lemma StrategyOpinionSays(inputs: Inputs, joined: seq<Opinion>, cell: Cell)
    requires StrategyOpinion(inputs, joined, cell).Ok?
    ensures var o := StrategyOpinion(inputs, joined, cell).value;
            o.slot == Slot(Strategy, cell) && RepeatsDraft(inputs, o) && EvidencePolicy(inputs, o) && CitesResearch(joined, o)
  {
    StrategyIsDraft(inputs, joined, cell);
    DraftIsRepeated(inputs, Slot(Strategy, cell));
    var o := StrategyOpinion(inputs, joined, cell).value;
    CheckedEvidence(inputs, joined, cell);
    forall id | id in o.evidenceIds ensures EvidenceOfResearch(joined, cell, id) {
      assert id in ToSet(inputs.drafts[Slot(Strategy, cell)].evidenceIds);
      FilterMembers(joined, ResearchOn(cell));
      var r :| r in Filter(joined, ResearchOn(cell)) && id in r.evidenceIds;
      assert r in joined && ResearchOn(cell)(r);
    }
  }

  lemma CheckedEvidence(inputs: Inputs, joined: seq<Opinion>, cell: Cell)
    requires StrategyOpinion(inputs, joined, cell).Ok?
    ensures Slot(Strategy, cell) in inputs.drafts
    ensures ToSet(inputs.drafts[Slot(Strategy, cell)].evidenceIds) <= EvidenceOf(Filter(joined, ResearchOn(cell)))
  {
  }

  lemma PlacedSays(inputs: Inputs, o: Opinion, placed: Opinion)
    requires RepeatsDraft(inputs, o) && EvidencePolicy(inputs, o) && placed.(place := None) == o.(place := None)
    ensures RepeatsDraft(inputs, placed) && EvidencePolicy(inputs, placed) && placed.slot == o.slot && placed.evidenceIds == o.evidenceIds
  {
  }

  lemma StrategySays(inputs: Inputs, joined: seq<Opinion>, o: Opinion)
    requires StrategyNode(inputs, joined).Ok? && o in StrategyNode(inputs, joined).value
    ensures RepeatsDraft(inputs, o) && EvidencePolicy(inputs, o) && CitesResearch(joined, o) && o.slot.agent == Strategy
  {
    var cells, make := Cells(inputs), StrategyMaker(inputs, joined);
    CollectAt(cells, make);
    var additions := Collect(cells, make).value;
    var placed := StrategyNode(inputs, joined).value;
    var i :| 0 <= i < |placed| && placed[i] == o;
    assert make(cells[i]) == Ok(additions[i]);
    StrategyOpinionSays(inputs, joined, cells[i]);
    PlaceKeepsRest(inputs, additions, additions[i]);
    PlacedSays(inputs, additions[i], o);
    assert o.slot == Slot(Strategy, cells[i]) && o.evidenceIds == additions[i].evidenceIds;
  }

  lemma CriticOpinionSays(inputs: Inputs, opinions: seq<Opinion>, cell: Cell)
    requires CriticOpinion(inputs, opinions, cell).Ok?
    ensures var o := CriticOpinion(inputs, opinions, cell).value;
            o.slot == Slot(RiskCritic, cell) && RepeatsDraft(inputs, o) && EvidencePolicy(inputs, o)
  {
  }

  lemma CriticSays(inputs: Inputs, opinions: seq<Opinion>, o: Opinion)
    requires CriticNode(inputs, opinions).Ok? && o in CriticNode(inputs, opinions).value
    ensures RepeatsDraft(inputs, o) && EvidencePolicy(inputs, o) && o.slot.agent == RiskCritic
  {
    var cells, make := Cells(inputs), CriticMaker(inputs, opinions);
    CollectAt(cells, make);
    var i :| 0 <= i < |cells| && CriticNode(inputs, opinions).value[i] == o;
    assert make(cells[i]) == Ok(o);
    CriticOpinionSays(inputs, opinions, cells[i]);
  }

  lemma ValidatedInTime(inputs: Inputs, opinions: seq<Opinion>, o: Opinion)
    requires EvidenceValid(inputs, opinions) && o in opinions
    ensures InTime(inputs, o)
  {
    assert OpinionCited(inputs, o);
    forall c | c in o.citations && c.stamp.Some? ensures c.stamp.value.published <= inputs.dataCutoff {
      assert CitationHolds(inputs, c);
    }
  }

  // ----- Forecasts -----

  ghost predicate IsInput(cell: Cell, o: Opinion) {
    o.slot.cell == cell && o.slot.agent != RiskCritic && o.slot.agent != Cio
  }

  /** Two citations are the same one when page, version, section and evidence agree. */
  predicate HasKey(c: Citation, key: CitationKey) {
    c.entry == key.entry && c.version == key.version && c.section == key.section && c.evidence == key.evidence
  }

  ghost predicate CitedBy(opinions: seq<Opinion>, cell: Cell, key: CitationKey) {
    exists o, c :: o in opinions && IsInput(cell, o) && c in o.citations && HasKey(c, key)
  }

  ghost predicate Countered(opinions: seq<Opinion>, cell: Cell, text: Id) {
    exists o :: o in opinions && o.slot.cell == cell && o.slot.agent != Cio && text in o.counterEvidence
  }

  ghost predicate Invalidated(opinions: seq<Opinion>, cell: Cell, text: Id) {
    exists o :: o in opinions && o.slot.cell == cell && o.slot.agent != Cio && text in o.invalidation
  }

  /** The numbers of a forecast: the Strategy's directional masses shrunk by fifteen percent each, the rest
      neutral, in the Strategy's order, with the confidence the Strategy had and the band of the horizon. */
  ghost predicate Numbers(inputs: Inputs, f: Forecast, p: Probabilities) {
    && f.probabilities.up == 0.85 * p.up && f.probabilities.down == 0.85 * p.down
    && f.probabilities.up + f.probabilities.neutral + f.probabilities.down == 1.0
    && f.direction == (if p.up > p.down then Up else Down)
    && p.up + p.down > 0.0 && f.confidence == (if p.up >= p.down then p.up else p.down) / (p.up + p.down)
    && f.cell.code in inputs.volatility && inputs.volatility[f.cell.code] >= 0.0
    && f.threshold == 0.25 * inputs.volatility[f.cell.code] * (if f.cell.horizon == D1 then 1.0 else inputs.rootTwo)
    && !f.abstain
  }

  /** The lists of a forecast: each citation key and each non-empty text of its cell's opinions, once. */
  ghost predicate Lists(opinions: seq<Opinion>, f: Forecast) {
    && (forall key :: (exists c :: c in f.citations && HasKey(c, key)) <==> CitedBy(opinions, f.cell, key))
    && (forall i, j :: 0 <= i < j < |f.citations| ==> !HasKey(f.citations[i], KeyOf(f.citations[j])))
    && (forall t :: t in f.counterEvidence <==> t.text != "" && Countered(opinions, f.cell, t))
    && (forall t :: t in f.invalidation <==> t.text != "" && Invalidated(opinions, f.cell, t))
    && NoDuplicates(f.counterEvidence) && NoDuplicates(f.invalidation)
  }

  ghost predicate IsCited(opinions: seq<Opinion>, cell: Cell, c: Citation) {
    exists o :: o in opinions && IsInput(cell, o) && c in o.citations
  }

  /** Every citation, stamp included, is one of an opinion on the cell; and the wiki version lists their pages
      in order. */
  ghost predicate Sources(opinions: seq<Opinion>, f: Forecast) {
    && (forall c :: c in f.citations ==> IsCited(opinions, f.cell, c))
    && |f.wikiVersion| == |f.citations|
    && forall k :: 0 <= k < |f.citations| ==> f.wikiVersion[k] == (f.citations[k].entry, f.citations[k].version)
  }

  /** The CIO's opinion on the cell repeats the forecast. */
  ghost predicate Decided(opinions: seq<Opinion>, f: Forecast) {
    exists o :: o in opinions && o.slot == Slot(Cio, f.cell) && o.direction == f.direction && o.probabilities == f.probabilities &&
                o.citations == f.citations && o.counterEvidence == f.counterEvidence && o.invalidation == f.invalidation
  }

  ghost predicate Follows(inputs: Inputs, opinions: seq<Opinion>, f: Forecast, s: Opinion) {
    && s in opinions && s.slot == Slot(Strategy, f.cell) && f.place == s.place
    && Numbers(inputs, f, s.probabilities) && Lists(opinions, f) && Sources(opinions, f)
  }

  lemma HaircutNumbers(p: Probabilities)
    requires SchemaValid(p) && ApplyHaircut(p, DIRECTIONAL_MASS_HAIRCUT).Ok?
    ensures var q := ApplyHaircut(p, DIRECTIONAL_MASS_HAIRCUT).value;
            && q.up == 0.85 * p.up && q.down == 0.85 * p.down && q.up + q.neutral + q.down == 1.0
            && (PredictedDirection(q).Some? ==> PredictedDirection(q).value == (if p.up > p.down then Up else Down))
            && (DirectionalConfidence(q).Some? ==>
                  p.up + p.down > 0.0 && DirectionalConfidence(q).value == (if p.up >= p.down then p.up else p.down) / (p.up + p.down))
  {
    CommitteeHaircutIsTotal(p);
    var q := ApplyHaircut(p, DIRECTIONAL_MASS_HAIRCUT).value;
    HaircutMasses(p, q);
    ValidatorsAgree(p);
    ValidatorsAgree(q);
    DirectionIff(q);
  }

  lemma HaircutMasses(p: Probabilities, q: Probabilities)
    requires ApplyHaircut(p, DIRECTIONAL_MASS_HAIRCUT) == Ok(q)
    ensures q.up == 0.85 * p.up && q.down == 0.85 * p.down && q.up + q.neutral + q.down == 1.0
  {
  }

  lemma ForecastNumbers(inputs: Inputs, opinions: seq<Opinion>, cell: Cell) returns (s: Opinion)
    requires CioForecast(inputs, opinions, cell).Ok?
    requires forall o :: o in opinions ==> SchemaValid(o.probabilities)
    ensures s in opinions && s.slot == Slot(Strategy, cell)
    ensures var f := CioForecast(inputs, opinions, cell).value;
            f.cell == cell && f.place == s.place && Numbers(inputs, f, s.probabilities)
  {
    s := First(opinions, By(Strategy, cell)).value;
    FirstIsMember(opinions, By(Strategy, cell));
    StrategyNumbers(inputs, opinions, cell, s);
  }

  lemma StrategyNumbers(inputs: Inputs, opinions: seq<Opinion>, cell: Cell, s: Opinion)
    requires CioForecast(inputs, opinions, cell).Ok? && First(opinions, By(Strategy, cell)) == Some(s) && SchemaValid(s.probabilities)
    ensures var f := CioForecast(inputs, opinions, cell).value;
            f.cell == cell && f.place == s.place && Numbers(inputs, f, s.probabilities)
  {
    NumbersOf(inputs, opinions, cell, s);
    HaircutNumbers(s.probabilities);
    NumbersFrom(inputs, CioForecast(inputs, opinions, cell).value, s.probabilities);
  }

  lemma NumbersFrom(inputs: Inputs, f: Forecast, p: Probabilities)
    requires f.probabilities.up == 0.85 * p.up && f.probabilities.down == 0.85 * p.down
    requires f.probabilities.up + f.probabilities.neutral + f.probabilities.down == 1.0
    requires f.direction == (if p.up > p.down then Up else Down)
    requires p.up + p.down > 0.0 && f.confidence == (if p.up >= p.down then p.up else p.down) / (p.up + p.down)
    requires f.cell.code in inputs.volatility && inputs.volatility[f.cell.code] >= 0.0 && !f.abstain
    requires f.threshold == 0.25 * inputs.volatility[f.cell.code] * (if f.cell.horizon == D1 then 1.0 else inputs.rootTwo)
    ensures Numbers(inputs, f, p)
  {
  }

  /** The fields of a forecast, over the results of the arithmetic. */
  lemma NumbersOf(inputs: Inputs, opinions: seq<Opinion>, cell: Cell, s: Opinion)
    requires CioForecast(inputs, opinions, cell).Ok? && First(opinions, By(Strategy, cell)) == Some(s)
    ensures ApplyHaircut(s.probabilities, DIRECTIONAL_MASS_HAIRCUT).Ok?
    ensures var f, q := CioForecast(inputs, opinions, cell).value, ApplyHaircut(s.probabilities, DIRECTIONAL_MASS_HAIRCUT).value;
            && f.cell == cell && f.place == s.place && f.probabilities == q && !f.abstain
            && PredictedDirection(q) == Some(f.direction) && DirectionalConfidence(q) == Some(f.confidence)
            && cell.code in inputs.volatility && inputs.volatility[cell.code] >= 0.0
            && f.threshold == 0.25 * inputs.volatility[cell.code] * (if cell.horizon == D1 then 1.0 else inputs.rootTwo)
  {
  }

  lemma FirstIsMember(opinions: seq<Opinion>, keep: Opinion -> bool)
    requires First(opinions, keep).Some?
    ensures First(opinions, keep).value in opinions && keep(First(opinions, keep).value)
  {
    FilterMembers(opinions, keep);
    var kept := Filter(opinions, keep);
    assert kept[0] in kept;
  }

  /** Every slot of a cell is taken by one opinion only. */
  ghost predicate OnePerSlot(opinions: seq<Opinion>) {
    forall o, x :: o in opinions && x in opinions && o.slot == x.slot ==> o == x
  }

  /** The opinions a forecast combines are exactly those on its cell. */
  lemma CombinedInputs(opinions: seq<Opinion>, cell: Cell, s: Opinion, r: Opinion)
    requires OnePerSlot(opinions) && (forall o :: o in opinions ==> o.slot.agent != Cio)
    requires s in opinions && s.slot == Slot(Strategy, cell) && r in opinions && r.slot == Slot(RiskCritic, cell)
    ensures var research := Filter(opinions, ResearchOn(cell));
            && (forall o :: o in research + [s] <==> o in opinions && IsInput(cell, o))
            && (forall o :: o in research + [s, r] <==> o in opinions && o.slot.cell == cell)
  {
    FilterMembers(opinions, ResearchOn(cell));
    forall o | o in opinions && o.slot.cell == cell
      ensures o in Filter(opinions, ResearchOn(cell)) || o == s || o == r
    {
      match o.slot.agent
      case Strategy => assert o.slot == s.slot;
      case RiskCritic => assert o.slot == r.slot;
      case _ =>
    }
  }

  lemma KeyFields(c: Citation, key: CitationKey)
    ensures KeyOf(c) == key <==> HasKey(c, key)
  {
  }

  lemma KeyMembers(citations: seq<Citation>, key: CitationKey)
    ensures key in Keys(citations) <==> exists c :: c in citations && HasKey(c, key)
  {
    forall c ensures KeyOf(c) == key <==> HasKey(c, key) {
      KeyFields(c, key);
    }
  }

  lemma CombinedKeys(combined: seq<Opinion>, opinions: seq<Opinion>, cell: Cell, key: CitationKey)
    requires forall o :: o in combined <==> o in opinions && IsInput(cell, o)
    ensures (exists c :: c in Deduplicate(CitationsOf(combined)) && HasKey(c, key)) <==> CitedBy(opinions, cell, key)
  {
    CombinedMembers(combined);
    DeduplicateKeepsKeys(CitationsOf(combined));
    KeyMembers(Deduplicate(CitationsOf(combined)), key);
    KeyMembers(CitationsOf(combined), key);
    if c :| c in CitationsOf(combined) && HasKey(c, key) {
      var o :| o in combined && c in o.citations;
      assert IsInput(cell, o);
    }
    if o, c :| o in opinions && IsInput(cell, o) && c in o.citations && HasKey(c, key) {
      assert o in combined && c in CitationsOf(combined);
    }
  }

  lemma CombinedTexts(combined: seq<Opinion>, opinions: seq<Opinion>, cell: Cell)
    requires forall o :: o in combined <==> o in opinions && o.slot.cell == cell
    requires forall o :: o in opinions ==> o.slot.agent != Cio
    ensures forall t :: t in DeduplicateTexts(CountersOf(combined)) <==> t.text != "" && Countered(opinions, cell, t)
    ensures forall t :: t in DeduplicateTexts(InvalidationsOf(combined)) <==> t.text != "" && Invalidated(opinions, cell, t)
    ensures NoDuplicates(DeduplicateTexts(CountersOf(combined))) && NoDuplicates(DeduplicateTexts(InvalidationsOf(combined)))
  {
    CombinedMembers(combined);
    TextMembers(CountersOf(combined));
    TextMembers(InvalidationsOf(combined));
  }

  lemma ForecastLists(inputs: Inputs, opinions: seq<Opinion>, cell: Cell)
    requires CioForecast(inputs, opinions, cell).Ok?
    requires OnePerSlot(opinions) && (forall o :: o in opinions ==> o.slot.agent != Cio)
    ensures CioForecast(inputs, opinions, cell).value.cell == cell
    ensures Lists(opinions, CioForecast(inputs, opinions, cell).value)
  {
    var research := Filter(opinions, ResearchOn(cell));
    var s, r := First(opinions, By(Strategy, cell)).value, First(opinions, By(RiskCritic, cell)).value;
    FirstIsMember(opinions, By(Strategy, cell));
    FirstIsMember(opinions, By(RiskCritic, cell));
    CombinedInputs(opinions, cell, s, r);
    ListsOf(inputs, opinions, cell);
    CombinedTexts(research + [s, r], opinions, cell);
    DistinctKeys(CitationsOf(research + [s]));
    forall key ensures (exists c :: c in Deduplicate(CitationsOf(research + [s])) && HasKey(c, key)) <==> CitedBy(opinions, cell, key) {
      CombinedKeys(research + [s], opinions, cell, key);
    }
  }

  lemma WikiVersionOf(inputs: Inputs, opinions: seq<Opinion>, cell: Cell)
    requires CioForecast(inputs, opinions, cell).Ok?
    ensures CioForecast(inputs, opinions, cell).value.wikiVersion == WikiVersions(CioForecast(inputs, opinions, cell).value.citations)
  {
  }

  lemma CombinedCited(combined: seq<Opinion>, opinions: seq<Opinion>, cell: Cell, c: Citation)
    requires (forall o :: o in combined <==> o in opinions && IsInput(cell, o)) && c in Deduplicate(CitationsOf(combined))
    ensures IsCited(opinions, cell, c)
  {
    DeduplicateTakes(CitationsOf(combined));
    CombinedMembers(combined);
    var o :| o in combined && c in o.citations;
  }

  lemma ForecastSources(inputs: Inputs, opinions: seq<Opinion>, cell: Cell)
    requires CioForecast(inputs, opinions, cell).Ok?
    requires OnePerSlot(opinions) && (forall o :: o in opinions ==> o.slot.agent != Cio)
    ensures Sources(opinions, CioForecast(inputs, opinions, cell).value)
  {
    var research, s := Filter(opinions, ResearchOn(cell)), First(opinions, By(Strategy, cell)).value;
    FirstIsMember(opinions, By(Strategy, cell));
    FirstIsMember(opinions, By(RiskCritic, cell));
    CombinedInputs(opinions, cell, s, First(opinions, By(RiskCritic, cell)).value);
    ListsOf(inputs, opinions, cell);
    WikiVersionOf(inputs, opinions, cell);
    forall c | c in Deduplicate(CitationsOf(research + [s])) ensures IsCited(opinions, cell, c) {
      CombinedCited(research + [s], opinions, cell, c);
    }
  }

  lemma DistinctKeys(citations: seq<Citation>)
    ensures var unique := Deduplicate(citations);
            forall i, j :: 0 <= i < j < |unique| ==> !HasKey(unique[i], KeyOf(unique[j]))
  {
    CommitteeNodes.DeduplicateOnePerKey(citations);
    var unique := Deduplicate(citations);
    forall i, j | 0 <= i < j < |unique| ensures !HasKey(unique[i], KeyOf(unique[j])) {
      KeyFields(unique[i], KeyOf(unique[j]));
    }
  }

  lemma ListsOf(inputs: Inputs, opinions: seq<Opinion>, cell: Cell)
    requires CioForecast(inputs, opinions, cell).Ok?
    ensures First(opinions, By(Strategy, cell)).Some? && First(opinions, By(RiskCritic, cell)).Some?
    ensures var f, research := CioForecast(inputs, opinions, cell).value, Filter(opinions, ResearchOn(cell));
            var s, r := First(opinions, By(Strategy, cell)).value, First(opinions, By(RiskCritic, cell)).value;
            && f.cell == cell && f.citations == Deduplicate(CitationsOf(research + [s]))
            && f.counterEvidence == DeduplicateTexts(CountersOf(research + [s, r]))
            && f.invalidation == DeduplicateTexts(InvalidationsOf(research + [s, r]))
  {
  }

  // ----- A completed run -----

  ghost predicate Says(inputs: Inputs, outcome: Outcome) {
    && (forall o :: o in outcome.opinions && o.slot.agent != Cio ==>
          RepeatsDraft(inputs, o) && EvidencePolicy(inputs, o) && InTime(inputs, o))
    && (forall o :: o in outcome.opinions && o.slot.agent == Strategy ==> CitesResearch(outcome.opinions, o))
    && (forall f :: f in outcome.forecasts ==> Decided(outcome.opinions, f) && exists s :: Follows(inputs, outcome.opinions, f, s))
  }

  lemma PartsOfRun(inputs: Inputs, joined: seq<Opinion>) returns (s: seq<Opinion>, c: seq<Opinion>, fs: seq<Forecast>)
    requires AfterJoin(inputs, joined).Ok?
    ensures StrategyNode(inputs, joined) == Ok(s) && CriticNode(inputs, joined + s) == Ok(c) && CioNode(inputs, joined + s + c) == Ok(fs)
    ensures EvidenceValid(inputs, joined + s + c)
    ensures AfterJoin(inputs, joined).value == Outcome(joined + s + c + Map(fs, DecisionOpinion), fs)
  {
    s := StrategyNode(inputs, joined).value;
    c := CriticNode(inputs, joined + s).value;
    fs := CioNode(inputs, joined + s + c).value;
  }

  lemma OpinionSays(inputs: Inputs, joined: seq<Opinion>, s: seq<Opinion>, c: seq<Opinion>, o: Opinion)
    requires Joins(inputs, joined) && StrategyNode(inputs, joined) == Ok(s) && CriticNode(inputs, joined + s) == Ok(c)
    requires EvidenceValid(inputs, joined + s + c) && o in joined + s + c
    ensures RepeatsDraft(inputs, o) && EvidencePolicy(inputs, o) && InTime(inputs, o) && o.slot.agent != Cio
    ensures o.slot.agent == Strategy ==> CitesResearch(joined, o)
  {
    ValidatedInTime(inputs, joined + s + c, o);
    if o in joined {
      JoinedSays(inputs, joined, o);
    } else if o in s {
      StrategySays(inputs, joined, o);
    } else {
      CriticSays(inputs, joined + s, o);
    }
  }

  lemma MoreOpinionsCiteResearch(joined: seq<Opinion>, all: seq<Opinion>, o: Opinion)
    requires CitesResearch(joined, o) && forall x :: x in joined ==> x in all
    ensures CitesResearch(all, o)
  {
    forall id | id in o.evidenceIds ensures EvidenceOfResearch(all, o.slot.cell, id) {
      assert EvidenceOfResearch(joined, o.slot.cell, id);
    }
  }

  lemma OneKept(all: seq<Opinion>, o: Opinion, x: Opinion)
    requires o in all && x in all && o.slot == x.slot && |Filter(all, By(o.slot.agent, o.slot.cell))| == 1
    ensures o == x
  {
    FilterMembers(all, By(o.slot.agent, o.slot.cell));
    var own := Filter(all, By(o.slot.agent, o.slot.cell));
    assert o in own && x in own;
  }

  lemma CoveredOnce(inputs: Inputs, outcome: Outcome, o: Opinion)
    requires Complete(inputs, outcome) && o in outcome.opinions
    ensures |Filter(outcome.opinions, By(o.slot.agent, o.slot.cell))| == 1
  {
    var cell := o.slot.cell;
    assert cell == Cell(cell.code, cell.horizon) && cell.code in inputs.codes && cell.horizon in inputs.horizons;
  }

  lemma OneOpinionPerSlot(inputs: Inputs, outcome: Outcome, opinions: seq<Opinion>)
    requires Complete(inputs, outcome) && forall o :: o in opinions ==> o in outcome.opinions
    ensures OnePerSlot(opinions)
  {
    forall o, x | o in opinions && x in opinions && o.slot == x.slot ensures o == x {
      CoveredOnce(inputs, outcome, o);
      OneKept(outcome.opinions, o, x);
    }
  }

  lemma DecidedBy(opinions: seq<Opinion>, fs: seq<Forecast>, f: Forecast)
    requires f in fs
    ensures Decided(opinions + Map(fs, DecisionOpinion), f)
  {
    var k :| 0 <= k < |fs| && fs[k] == f;
    var all := opinions + Map(fs, DecisionOpinion);
    assert all[|opinions| + k] == DecisionOpinion(f) && all[|opinions| + k] in all;
  }

  lemma ForecastFollows(inputs: Inputs, opinions: seq<Opinion>, fs: seq<Forecast>, f: Forecast) returns (s: Opinion)
    requires CioNode(inputs, opinions) == Ok(fs) && f in fs
    requires OnePerSlot(opinions) && (forall o :: o in opinions ==> o.slot.agent != Cio && SchemaValid(o.probabilities))
    ensures Follows(inputs, opinions, f, s)
  {
    var cells, make := Cells(inputs), CioMaker(inputs, opinions);
    CollectAt(cells, make);
    var i :| 0 <= i < |fs| && fs[i] == f;
    assert make(cells[i]) == Ok(f);
    ForecastLists(inputs, opinions, cells[i]);
    ForecastSources(inputs, opinions, cells[i]);
    s := ForecastNumbers(inputs, opinions, cells[i]);
  }

  /** The decision opinions do not count among a forecast's inputs. */
  lemma SameInputs(opinions: seq<Opinion>, decisions: seq<Opinion>, inputs: Inputs, f: Forecast, s: Opinion)
    requires Follows(inputs, opinions, f, s) && forall d :: d in decisions ==> d.slot.agent == Cio
    ensures Follows(inputs, opinions + decisions, f, s)
  {
    var all := opinions + decisions;
    forall key ensures CitedBy(all, f.cell, key) <==> CitedBy(opinions, f.cell, key) {
      SameCited(opinions, decisions, f.cell, key);
    }
    forall c | IsCited(opinions, f.cell, c) ensures IsCited(all, f.cell, c) {
      var o :| o in opinions && IsInput(f.cell, o) && c in o.citations;
      assert o in all;
    }
    forall t ensures Countered(all, f.cell, t) <==> Countered(opinions, f.cell, t) {
      SameTextSources(opinions, decisions, f.cell, t);
    }
    forall t ensures Invalidated(all, f.cell, t) <==> Invalidated(opinions, f.cell, t) {
      SameTextSources(opinions, decisions, f.cell, t);
    }
  }

  lemma SameCited(opinions: seq<Opinion>, decisions: seq<Opinion>, cell: Cell, key: CitationKey)
    requires forall d :: d in decisions ==> d.slot.agent == Cio
    ensures CitedBy(opinions + decisions, cell, key) <==> CitedBy(opinions, cell, key)
  {
    if o, c :| o in opinions && IsInput(cell, o) && c in o.citations && HasKey(c, key) {
      assert o in opinions + decisions;
    }
  }

  lemma SameTextSources(opinions: seq<Opinion>, decisions: seq<Opinion>, cell: Cell, t: Id)
    requires forall d :: d in decisions ==> d.slot.agent == Cio
    ensures Countered(opinions + decisions, cell, t) <==> Countered(opinions, cell, t)
    ensures Invalidated(opinions + decisions, cell, t) <==> Invalidated(opinions, cell, t)
  {
    forall o | o in opinions ensures o in opinions + decisions {
    }
  }

  lemma DraftVector(inputs: Inputs, o: Opinion)
    requires (forall s :: s in inputs.drafts ==> DraftValid(inputs.drafts[s])) && RepeatsDraft(inputs, o)
    ensures SchemaValid(o.probabilities)
  {
    assert DraftValid(inputs.drafts[o.slot]);
  }

  lemma OpinionsSay(inputs: Inputs, joined: seq<Opinion>, s: seq<Opinion>, c: seq<Opinion>, all: seq<Opinion>)
    requires Joins(inputs, joined) && StrategyNode(inputs, joined) == Ok(s) && CriticNode(inputs, joined + s) == Ok(c)
    requires EvidenceValid(inputs, joined + s + c) && forall o :: o in joined + s + c ==> o in all
    ensures forall o :: o in joined + s + c ==> RepeatsDraft(inputs, o) && EvidencePolicy(inputs, o) && InTime(inputs, o) && o.slot.agent != Cio
    ensures forall o :: o in joined + s + c && o.slot.agent == Strategy ==> CitesResearch(all, o)
  {
    forall o | o in joined + s + c
      ensures RepeatsDraft(inputs, o) && EvidencePolicy(inputs, o) && InTime(inputs, o) && o.slot.agent != Cio
      ensures o.slot.agent == Strategy ==> CitesResearch(all, o)
    {
      OpinionSays(inputs, joined, s, c, o);
      if o.slot.agent == Strategy {
        MoreOpinionsCiteResearch(joined, all, o);
      }
    }
  }

  /** Whatever schema-valid drafts a run received: every opinion of a completed graph repeats the draft of
      its slot on the page given to its agent, with citations bound to frozen, timely evidence; Strategy
      stays within its research and the critic cites nothing; and every forecast shrinks the Strategy's
      own vector on its cell by exactly fifteen percent and lists exactly what the opinions on its cell
      cite and say. */
  lemma CompletedGraphSays(inputs: Inputs, joined: seq<Opinion>)
    requires forall s :: s in inputs.drafts ==> DraftValid(inputs.drafts[s])
    requires Joins(inputs, joined) && AfterJoin(inputs, joined).Ok?
    ensures Says(inputs, AfterJoin(inputs, joined).value)
  {
    var s, c, fs := PartsOfRun(inputs, joined);
    var opinions, decisions := joined + s + c, Map(fs, DecisionOpinion);
    var all := opinions + decisions;
    OpinionsSay(inputs, joined, s, c, all);
    CompletedGraphCoversGrid(inputs, joined);
    OneOpinionPerSlot(inputs, AfterJoin(inputs, joined).value, opinions);
    DecisionsAreCio(fs);
    forall o | o in opinions ensures SchemaValid(o.probabilities) {
      DraftVector(inputs, o);
    }
    forall f | f in fs ensures Decided(all, f) && exists x :: Follows(inputs, all, f, x) {
      DecidedBy(opinions, fs, f);
      var x := ForecastFollows(inputs, opinions, fs, f);
      SameInputs(opinions, decisions, inputs, f, x);
    }
  }

  lemma DecisionsAreCio(fs: seq<Forecast>)
    ensures forall d :: d in Map(fs, DecisionOpinion) ==> d.slot.agent == Cio
  {
    var decisions := Map(fs, DecisionOpinion);
    forall d | d in decisions ensures d.slot.agent == Cio {
      var k :| 0 <= k < |decisions| && decisions[k] == d;
    }
  }

  // ----- The persistence boundary -----

  /** The direction is that of a lead above one billionth. */
  predicate Points(p: Probabilities, d: Direction) {
    (d == Up && p.up - p.down > 0.000000001) || (d == Down && p.down - p.up > 0.000000001)
  }

  predicate ConfidenceFits(p: Probabilities, confidence: real)
    requires p.up + p.down > 0.0
  {
    -0.000000001 <= confidence - (if p.up >= p.down then p.up else p.down) / (p.up + p.down) <= 0.000000001
  }

  predicate ForecastFits(f: Forecast) {
    && VectorFits(f.probabilities) && Points(f.probabilities, f.direction) && !f.abstain
    && f.probabilities.up + f.probabilities.down > 0.0 && ConfidenceFits(f.probabilities, f.confidence)
  }

  predicate Persistable(outcome: Outcome) {
    && (forall o :: o in outcome.opinions ==> VectorFits(o.probabilities) && Points(o.probabilities, o.direction))
    && (forall f :: f in outcome.forecasts ==> ForecastFits(f))
  }

  lemma PointsIff(p: Probabilities, d: Direction)
    ensures SchemaValid(p) ==> (PredictedDirection(p) == Some(d) <==> Points(p, d))
  {
    if SchemaValid(p) {
      DirectionIff(p);
    }
  }

  lemma ForecastFitsIff(f: Forecast)
    ensures ForecastAccepted(f) <==> ForecastFits(f)
  {
    VectorFitsIff(f.probabilities);
    PointsIff(f.probabilities, f.direction);
  }

  /** The re-checks before anything is added, on the numbers themselves. */
  lemma PersistAcceptsIff(outcome: Outcome)
    ensures PersistAccepts(outcome) <==> Persistable(outcome)
  {
    forall o: Opinion ensures OpinionAccepted(o) <==> VectorFits(o.probabilities) && Points(o.probabilities, o.direction) {
      VectorFitsIff(o.probabilities);
      PointsIff(o.probabilities, o.direction);
    }
    forall f ensures ForecastAccepted(f) <==> ForecastFits(f) {
      ForecastFitsIff(f);
    }
  }
}
