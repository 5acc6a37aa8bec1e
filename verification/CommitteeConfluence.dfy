/** The order in which the parallel research outputs are joined does not reach any decision, and every
    row a completed graph emits passes the persistence boundary. */
module CommitteeConfluence {
  import opened Common
  import opened Scoring
  import opened Committee
  import opened CommitteeProofs

  // ----- Steps that read the join only as a bag -----

  lemma StrategySeesABag(inputs: Inputs, joined: seq<Opinion>, other: seq<Opinion>, cell: Cell)
    requires multiset(joined) == multiset(other)
    ensures StrategyOpinion(inputs, joined, cell) == StrategyOpinion(inputs, other, cell)
  {
    var research, research' := Filter(joined, ResearchOn(cell)), Filter(other, ResearchOn(cell));
    var peers, peers' := Filter(joined, PeersOf(cell)), Filter(other, PeersOf(cell));
    FilterPermutation(joined, other, ResearchOn(cell));
    FilterPermutation(joined, other, PeersOf(cell));
    BagReadings(research, research');
    BagReadings(peers, peers');
  }

  lemma BagReadings(opinions: seq<Opinion>, other: seq<Opinion>)
    requires multiset(opinions) == multiset(other)
    ensures Agents(opinions) == Agents(other)
    ensures Identities(opinions) == Identities(other)
    ensures EvidenceOf(opinions) == EvidenceOf(other)
  {
    PermutationMembers(opinions, other);
  }

  lemma StrategyNodeSeesABag(inputs: Inputs, joined: seq<Opinion>, other: seq<Opinion>)
    requires multiset(joined) == multiset(other)
    ensures StrategyNode(inputs, joined) == StrategyNode(inputs, other)
  {
    forall c | c in Cells(inputs) ensures StrategyMaker(inputs, joined)(c) == StrategyMaker(inputs, other)(c) {
      StrategySeesABag(inputs, joined, other, c);
    }
    CollectSame(Cells(inputs), StrategyMaker(inputs, joined), StrategyMaker(inputs, other));
  }

  lemma CriticNodeSeesABag(inputs: Inputs, opinions: seq<Opinion>, other: seq<Opinion>)
    requires multiset(opinions) == multiset(other)
    ensures CriticNode(inputs, opinions) == CriticNode(inputs, other)
  {
    forall c | c in Cells(inputs) ensures CriticMaker(inputs, opinions)(c) == CriticMaker(inputs, other)(c) {
      FilterPermutation(opinions, other, CriticInputs(c));
    }
    CollectSame(Cells(inputs), CriticMaker(inputs, opinions), CriticMaker(inputs, other));
  }

  lemma ValidatorSeesABag(inputs: Inputs, opinions: seq<Opinion>, other: seq<Opinion>)
    requires multiset(opinions) == multiset(other)
    ensures EvidenceValid(inputs, opinions) <==> EvidenceValid(inputs, other)
  {
    PermutationMembers(opinions, other);
  }

  // ----- The combined lists -----

  ghost function Keys(citations: seq<Citation>): set<CitationKey> {
    set c | c in citations :: KeyOf(c)
  }

  lemma {:induction false} UpsertMembers(unique: seq<Citation>, c: Citation)
    ensures Keys(Upsert(unique, c)) == Keys(unique) + {KeyOf(c)}
    ensures c in Upsert(unique, c)
    ensures forall x :: x in unique && KeyOf(x) != KeyOf(c) ==> x in Upsert(unique, c)
    ensures forall x :: x in Upsert(unique, c) ==> x == c || x in unique
  {
    if unique != [] {
      var head, tail := unique[0], unique[1..];
      assert unique == [head] + tail;
      assert Keys(unique) == {KeyOf(head)} + Keys(tail);
      if KeyOf(head) == KeyOf(c) {
        assert Keys([c] + tail) == {KeyOf(c)} + Keys(tail);
      } else {
        UpsertMembers(tail, c);
        assert Keys([head] + Upsert(tail, c)) == {KeyOf(head)} + Keys(Upsert(tail, c));
      }
    } else {
      assert Keys([c]) == {KeyOf(c)};
    }
  }

  /** Deduplication neither loses a key nor invents one. */
  lemma {:induction false} DeduplicateKeepsKeys(citations: seq<Citation>)
    ensures Keys(Deduplicate(citations)) == Keys(citations)
  {
    if citations != [] {
      var init, last := citations[..|citations| - 1], citations[|citations| - 1];
      assert citations == init + [last];
      DeduplicateKeepsKeys(init);
      UpsertMembers(Deduplicate(init), last);
      assert Keys(citations) == Keys(init) + {KeyOf(last)};
    }
  }

  /** What is kept was listed. */
  lemma {:induction false} DeduplicateTakes(citations: seq<Citation>)
    ensures forall c :: c in Deduplicate(citations) ==> c in citations
  {
    if citations != [] {
      var init, last := citations[..|citations| - 1], citations[|citations| - 1];
      assert citations == init + [last];
      DeduplicateTakes(init);
      UpsertMembers(Deduplicate(init), last);
    }
  }

  lemma {:induction false} CombinedMembers(opinions: seq<Opinion>)
    ensures forall c :: c in CitationsOf(opinions) <==> exists o :: o in opinions && c in o.citations
    ensures forall t :: t in CountersOf(opinions) <==> exists o :: o in opinions && t in o.counterEvidence
    ensures forall t :: t in InvalidationsOf(opinions) <==> exists o :: o in opinions && t in o.invalidation
  {
    if opinions != [] {
      var init, last := opinions[..|opinions| - 1], opinions[|opinions| - 1];
      assert opinions == init + [last];
      CombinedMembers(init);
    }
  }

  lemma TextMembers(texts: seq<Id>)
    ensures forall t :: t in DeduplicateTexts(texts) <==> t in texts && t.text != ""
    ensures NoDuplicates(DeduplicateTexts(texts))
  {
    var kept := Filter(texts, (t: Id) => t.text != "");
    FilterMembers(texts, (t: Id) => t.text != "");
    UniqueMembers(kept);
    forall t ensures t in Unique(kept) <==> t in kept {
      assert t in Unique(kept) <==> t in ToSet(Unique(kept));
      assert t in kept <==> t in ToSet(kept);
    }
  }

  // ----- One forecast -----

  /** Two forecasts take the same decision on the same evidence. */
  ghost predicate SameDecision(f: Forecast, g: Forecast) {
    && f.cell == g.cell && f.direction == g.direction && f.probabilities == g.probabilities
    && f.confidence == g.confidence && f.threshold == g.threshold && f.place == g.place
    && Keys(f.citations) == Keys(g.citations)
    && ToSet(f.counterEvidence) == ToSet(g.counterEvidence)
    && ToSet(f.invalidation) == ToSet(g.invalidation)
  }

  lemma SameBuild(inputs: Inputs, cell: Cell, research: seq<Opinion>, other: seq<Opinion>, strategy: Opinion, risk: Opinion,
                  parsed: Probabilities, direction: Direction, confidence: real, volatility: real)
    requires multiset(research) == multiset(other)
    ensures SameDecision(BuildForecast(inputs, cell, research, strategy, risk, parsed, direction, confidence, volatility),
                         BuildForecast(inputs, cell, other, strategy, risk, parsed, direction, confidence, volatility))
  {
    PermutationMembers(research, other);
    SameTexts(research + [strategy, risk], other + [strategy, risk]);
    SameKeys(research + [strategy], other + [strategy]);
  }

  lemma SameKeys(opinions: seq<Opinion>, other: seq<Opinion>)
    requires forall o :: o in opinions <==> o in other
    ensures Keys(Deduplicate(CitationsOf(opinions))) == Keys(Deduplicate(CitationsOf(other)))
  {
    CombinedMembers(opinions);
    CombinedMembers(other);
    DeduplicateKeepsKeys(CitationsOf(opinions));
    DeduplicateKeepsKeys(CitationsOf(other));
  }

  lemma SameTexts(opinions: seq<Opinion>, other: seq<Opinion>)
    requires forall o :: o in opinions <==> o in other
    ensures ToSet(DeduplicateTexts(CountersOf(opinions))) == ToSet(DeduplicateTexts(CountersOf(other)))
    ensures ToSet(DeduplicateTexts(InvalidationsOf(opinions))) == ToSet(DeduplicateTexts(InvalidationsOf(other)))
  {
    CombinedMembers(opinions);
    CombinedMembers(other);
    TextMembers(CountersOf(opinions));
    TextMembers(CountersOf(other));
    TextMembers(InvalidationsOf(opinions));
    TextMembers(InvalidationsOf(other));
  }

  /** `next(...)` never looks into the research part, so its answer does not depend on its order. */
  lemma FirstSkipsResearch(joined: seq<Opinion>, other: seq<Opinion>, rest: seq<Opinion>, agent: Agent, cell: Cell)
    requires !IsResearch(agent)
    requires forall o :: o in joined ==> IsResearch(o.slot.agent)
    requires forall o :: o in other ==> IsResearch(o.slot.agent)
    ensures First(joined + rest, By(agent, cell)) == First(other + rest, By(agent, cell))
  {
    FilterNone(joined, By(agent, cell));
    FilterNone(other, By(agent, cell));
    FilterConcat(joined, rest, By(agent, cell));
    FilterConcat(other, rest, By(agent, cell));
  }

  lemma CioSeesABag(inputs: Inputs, joined: seq<Opinion>, other: seq<Opinion>, rest: seq<Opinion>, cell: Cell)
    requires multiset(joined) == multiset(other)
    requires forall o :: o in joined ==> IsResearch(o.slot.agent)
    ensures CioForecast(inputs, joined + rest, cell).Ok? <==> CioForecast(inputs, other + rest, cell).Ok?
    ensures CioForecast(inputs, joined + rest, cell).Ok? ==>
              SameDecision(CioForecast(inputs, joined + rest, cell).value, CioForecast(inputs, other + rest, cell).value)
  {
    PermutationMembers(joined, other);
    FirstSkipsResearch(joined, other, rest, Strategy, cell);
    FirstSkipsResearch(joined, other, rest, RiskCritic, cell);
    var research, research' := Filter(joined + rest, ResearchOn(cell)), Filter(other + rest, ResearchOn(cell));
    assert multiset(joined + rest) == multiset(other + rest);
    FilterPermutation(joined + rest, other + rest, ResearchOn(cell));
    if CioForecast(inputs, joined + rest, cell).Ok? {
      var strategy := First(joined + rest, By(Strategy, cell)).value;
      var risk := First(joined + rest, By(RiskCritic, cell)).value;
      var parsed := ApplyHaircut(strategy.probabilities, DIRECTIONAL_MASS_HAIRCUT).value;
      SameBuild(inputs, cell, research, research', strategy, risk, parsed, PredictedDirection(parsed).value,
                DirectionalConfidence(parsed).value, inputs.volatility[cell.code]);
    }
  }

  // ----- Confluence -----

  ghost predicate SameForecasts(fs: seq<Forecast>, gs: seq<Forecast>) {
    |fs| == |gs| && forall i :: 0 <= i < |fs| ==> SameDecision(fs[i], gs[i])
  }

  /** Same decisions in the same places. */
  ghost predicate SameDecisions(a: Result<Outcome>, b: Result<Outcome>) {
    && (a.Ok? <==> b.Ok?)
    && (a.Ok? ==> SameForecasts(a.value.forecasts, b.value.forecasts))
  }

  lemma CioNodeSeesABag(inputs: Inputs, joined: seq<Opinion>, other: seq<Opinion>, rest: seq<Opinion>)
    requires multiset(joined) == multiset(other)
    requires forall o :: o in joined ==> IsResearch(o.slot.agent)
    ensures CioNode(inputs, joined + rest).Ok? <==> CioNode(inputs, other + rest).Ok?
    ensures CioNode(inputs, joined + rest).Ok? ==>
              SameForecasts(CioNode(inputs, joined + rest).value, CioNode(inputs, other + rest).value)
  {
    var cells, make, make' := Cells(inputs), CioMaker(inputs, joined + rest), CioMaker(inputs, other + rest);
    CollectOkIff(cells, make);
    CollectOkIff(cells, make');
    forall c | c in cells ensures make(c).Ok? <==> make'(c).Ok? {
      CioSeesABag(inputs, joined, other, rest, c);
    }
    if CioNode(inputs, joined + rest).Ok? {
      CollectAt(cells, make);
      CollectAt(cells, make');
      var fs, gs := Collect(cells, make).value, Collect(cells, make').value;
      forall i | 0 <= i < |fs| ensures SameDecision(fs[i], gs[i]) {
        assert make(cells[i]) == Ok(fs[i]) && make'(cells[i]) == Ok(gs[i]);
        CioSeesABag(inputs, joined, other, rest, cells[i]);
      }
    }
  }

  /** Confluence. However the reducer joined the three research outputs, the run completes or fails
      alike, and every forecast keeps its direction, probabilities, confidence, threshold, rank and sets
      of cited keys, counter evidence and invalidation conditions. */
  lemma JoinOrderIsInvisible(inputs: Inputs, joined: seq<Opinion>, other: seq<Opinion>)
    requires Joins(inputs, joined) && Joins(inputs, other)
    ensures SameDecisions(AfterJoin(inputs, joined), AfterJoin(inputs, other))
  {
    JoinedAreResearch(inputs, joined);
    StrategyNodeSeesABag(inputs, joined, other);
    if StrategyNode(inputs, joined).Ok? {
      AfterStrategySeesABag(inputs, joined, other, StrategyNode(inputs, joined).value);
    }
  }

  lemma AfterStrategySeesABag(inputs: Inputs, joined: seq<Opinion>, other: seq<Opinion>, s: seq<Opinion>)
    requires multiset(joined) == multiset(other)
    requires forall o :: o in joined ==> IsResearch(o.slot.agent)
    ensures SameDecisions(AfterStrategy(inputs, joined, s), AfterStrategy(inputs, other, s))
  {
    assert multiset(joined + s) == multiset(other + s);
    CriticNodeSeesABag(inputs, joined + s, other + s);
    if CriticNode(inputs, joined + s).Ok? {
      var c := CriticNode(inputs, joined + s).value;
      assert joined + s + c == joined + (s + c) && other + s + c == other + (s + c);
      AfterCriticSeesABag(inputs, joined, other, s + c);
    }
  }

  lemma AfterCriticSeesABag(inputs: Inputs, joined: seq<Opinion>, other: seq<Opinion>, rest: seq<Opinion>)
    requires multiset(joined) == multiset(other)
    requires forall o :: o in joined ==> IsResearch(o.slot.agent)
    ensures SameDecisions(AfterCritic(inputs, joined + rest), AfterCritic(inputs, other + rest))
  {
    assert multiset(joined + rest) == multiset(other + rest);
    ValidatorSeesABag(inputs, joined + rest, other + rest);
    CioNodeSeesABag(inputs, joined, other, rest);
  }

  // ----- The persistence boundary accepts -----

  lemma DraftOpinionAccepted(inputs: Inputs, slot: Slot)
    requires forall s :: s in inputs.drafts ==> DraftValid(inputs.drafts[s])
    requires DraftOpinion(inputs, slot).Ok?
    ensures OpinionAccepted(DraftOpinion(inputs, slot).value)
  {
  }

  lemma CollectedAccepted(cells: seq<Cell>, make: Cell -> Result<Opinion>)
    requires Collect(cells, make).Ok?
    requires forall c :: c in cells && make(c).Ok? ==> OpinionAccepted(make(c).value)
    ensures forall o :: o in Collect(cells, make).value ==> OpinionAccepted(o)
  {
    CollectAt(cells, make);
    var made := Collect(cells, make).value;
    forall o | o in made ensures OpinionAccepted(o) {
      var i :| 0 <= i < |made| && made[i] == o;
      assert make(cells[i]) == Ok(o);
    }
  }

  lemma ResearchAccepted(inputs: Inputs, agent: Agent)
    requires forall s :: s in inputs.drafts ==> DraftValid(inputs.drafts[s])
    requires Research(inputs, agent).Ok?
    ensures forall o :: o in Research(inputs, agent).value ==> OpinionAccepted(o)
  {
    forall c | c in Cells(inputs) && ResearchMaker(inputs, agent)(c).Ok?
      ensures OpinionAccepted(ResearchMaker(inputs, agent)(c).value)
    {
      DraftOpinionAccepted(inputs, Slot(agent, c));
    }
    CollectedAccepted(Cells(inputs), ResearchMaker(inputs, agent));
  }

  lemma AdditionsAccepted(inputs: Inputs, joined: seq<Opinion>)
    requires forall s :: s in inputs.drafts ==> DraftValid(inputs.drafts[s])
    requires Collect(Cells(inputs), StrategyMaker(inputs, joined)).Ok?
    ensures forall o :: o in Collect(Cells(inputs), StrategyMaker(inputs, joined)).value ==> OpinionAccepted(o)
  {
    var make := StrategyMaker(inputs, joined);
    forall c | c in Cells(inputs) && make(c).Ok? ensures OpinionAccepted(make(c).value) {
      StrategyIsDraft(inputs, joined, c);
      DraftOpinionAccepted(inputs, Slot(Strategy, c));
    }
    CollectedAccepted(Cells(inputs), make);
  }

  lemma StrategyIsDraft(inputs: Inputs, joined: seq<Opinion>, cell: Cell)
    requires StrategyOpinion(inputs, joined, cell).Ok?
    ensures StrategyOpinion(inputs, joined, cell) == DraftOpinion(inputs, Slot(Strategy, cell))
  {
  }

  lemma AnnotatedAccepted(inputs: Inputs, additions: seq<Opinion>)
    requires Annotate(inputs, additions).Ok? && forall o :: o in additions ==> OpinionAccepted(o)
    ensures forall o :: o in Annotate(inputs, additions).value ==> OpinionAccepted(o)
  {
    var placed := Annotate(inputs, additions).value;
    forall o | o in placed ensures OpinionAccepted(o) {
      var i :| 0 <= i < |placed| && placed[i] == o;
      PlaceKeepsRest(inputs, additions, additions[i]);
      SameVector(additions[i], o);
    }
  }

  lemma SameVector(o: Opinion, placed: Opinion)
    requires OpinionAccepted(o) && placed.(place := None) == o.(place := None)
    ensures OpinionAccepted(placed)
  {
  }

  lemma StrategyAccepted(inputs: Inputs, joined: seq<Opinion>)
    requires forall s :: s in inputs.drafts ==> DraftValid(inputs.drafts[s])
    requires StrategyNode(inputs, joined).Ok?
    ensures forall o :: o in StrategyNode(inputs, joined).value ==> OpinionAccepted(o)
  {
    AdditionsAccepted(inputs, joined);
    AnnotatedAccepted(inputs, Collect(Cells(inputs), StrategyMaker(inputs, joined)).value);
  }

  lemma CriticAccepted(inputs: Inputs, opinions: seq<Opinion>)
    requires forall s :: s in inputs.drafts ==> DraftValid(inputs.drafts[s])
    requires CriticNode(inputs, opinions).Ok?
    ensures forall o :: o in CriticNode(inputs, opinions).value ==> OpinionAccepted(o)
  {
    CollectedAccepted(Cells(inputs), CriticMaker(inputs, opinions));
  }

  lemma ForecastIsAccepted(inputs: Inputs, opinions: seq<Opinion>, cell: Cell)
    requires forall o :: o in opinions ==> OpinionAccepted(o)
    requires CioForecast(inputs, opinions, cell).Ok?
    ensures ForecastAccepted(CioForecast(inputs, opinions, cell).value)
    ensures OpinionAccepted(DecisionOpinion(CioForecast(inputs, opinions, cell).value))
    ensures exists s :: s in opinions && s.slot == Slot(Strategy, cell) &&
                        CioForecast(inputs, opinions, cell).value.direction == s.direction
  {
    var kept := Filter(opinions, By(Strategy, cell));
    FilterMembers(opinions, By(Strategy, cell));
    assert kept[0] in kept;
    CommitteeHaircutIsTotal(kept[0].probabilities);
    CommitteeHaircutDirection(kept[0].probabilities);
  }

  lemma ForecastsAccepted(inputs: Inputs, opinions: seq<Opinion>)
    requires forall o :: o in opinions ==> OpinionAccepted(o)
    requires CioNode(inputs, opinions).Ok?
    ensures forall f :: f in CioNode(inputs, opinions).value ==> ForecastAccepted(f) && OpinionAccepted(DecisionOpinion(f))
  {
    var make := CioMaker(inputs, opinions);
    CollectAt(Cells(inputs), make);
    var forecasts := CioNode(inputs, opinions).value;
    forall f | f in forecasts ensures ForecastAccepted(f) && OpinionAccepted(DecisionOpinion(f)) {
      var i :| 0 <= i < |forecasts| && forecasts[i] == f;
      assert make(Cells(inputs)[i]) == Ok(f);
      ForecastIsAccepted(inputs, opinions, Cells(inputs)[i]);
    }
  }

  /** Whatever schema-valid drafts a run received, every opinion and forecast of a completed graph
      passes the re-checks made before anything is added to the database. */
  lemma CompletedGraphIsPersistable(inputs: Inputs, joined: seq<Opinion>)
    requires forall s :: s in inputs.drafts ==> DraftValid(inputs.drafts[s])
    requires Joins(inputs, joined) && AfterJoin(inputs, joined).Ok?
    ensures PersistAccepts(AfterJoin(inputs, joined).value)
  {
    var s := StrategyNode(inputs, joined).value;
    var c := CriticNode(inputs, joined + s).value;
    var opinions := joined + s + c;
    ResearchAccepted(inputs, MacroPolicy);
    ResearchAccepted(inputs, MarketNews);
    ResearchAccepted(inputs, AiStorage);
    PermutationMembers(joined, Research(inputs, MacroPolicy).value + Research(inputs, MarketNews).value +
                               Research(inputs, AiStorage).value);
    StrategyAccepted(inputs, joined);
    CriticAccepted(inputs, joined + s);
    ForecastsAccepted(inputs, opinions);
    var forecasts := CioNode(inputs, opinions).value;
    var decisions := Map(forecasts, DecisionOpinion);
    forall o | o in decisions ensures OpinionAccepted(o) {
      var i :| 0 <= i < |decisions| && decisions[i] == o;
      assert forecasts[i] in forecasts;
    }
  }
}
