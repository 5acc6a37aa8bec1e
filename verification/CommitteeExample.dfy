/** A run of the committee graph that completes: one instrument, one horizon, one draft per agent. The
    three research agents are given different pages, so it also shows that the sealed wiki version can
    depend on the join order. */
module CommitteeExample {
  import opened Common
  import opened Scoring
  import opened Ranking
  import opened Committee
  import opened CommitteeProofs
  import opened WikiVersion

  const CODE: Id := Id("000852.SH")
  const CELL: Cell := Cell(CODE, D1)
  const VECTOR: Probabilities := Probabilities(0.6, 0.1, 0.3)
  const AGENTS: set<Agent> := {MacroPolicy, MarketNews, AiStorage, Strategy, RiskCritic}

  /** The name of an agent's page; only its length matters. */
  function EntryOf(agent: Agent): Id {
    match agent
    case MacroPolicy => Id("A")
    case MarketNews => Id("BB")
    case _ => Id("CCC")
  }

  function PageFor(agent: Agent): WikiPage {
    WikiPage(EntryOf(agent), Id("1"), {Id("s")})
  }

  function DraftFor(agent: Agent): AgentDraft {
    AgentDraft(Up, VECTOR, Id("x"), [], [], [], EntryOf(agent), Id("s"))
  }

  /** `root` is the square root of two. */
  function ExampleInputs(root: real): Inputs {
    Inputs([CODE], [D1], map a | a in AGENTS :: Slot(a, CELL) := DraftFor(a),
           map a | a in AGENTS :: (a, CODE) := PageFor(a), map[], map[CODE := 1.0], root, 0, false)
  }

  /** What the proofs below use of the inputs. */
  ghost predicate IsExample(inputs: Inputs) {
    && inputs.codes == [CODE] && inputs.horizons == [D1] && !inputs.live
    && CODE in inputs.volatility && inputs.volatility[CODE] == 1.0
    && forall a :: a in AGENTS ==> HasDraft(inputs, a)
  }

  ghost predicate HasDraft(inputs: Inputs, a: Agent) {
    && Slot(a, CELL) in inputs.drafts && inputs.drafts[Slot(a, CELL)] == DraftFor(a)
    && (a, CODE) in inputs.wiki && inputs.wiki[(a, CODE)] == PageFor(a)
  }

  lemma ExampleIsExample(root: real)
    ensures IsExample(ExampleInputs(root))
  {
  }

  function OpinionOf(agent: Agent): Opinion {
    FromDraft(Slot(agent, CELL), DraftFor(agent), [Citation(EntryOf(agent), Id("1"), Id("s"), None, None)])
  }

  lemma ExampleCells(inputs: Inputs)
    requires inputs.codes == [CODE] && inputs.horizons == [D1]
    ensures Cells(inputs) == [CELL]
  {
    var codes, horizons := [CODE], [D1];
    assert codes[..0] == [] && horizons[..0] == [];
    assert Row(CODE, horizons) == Row(CODE, []) + [CELL] && Row(CODE, []) == [];
    assert Grid(codes, horizons) == Grid([], horizons) + Row(CODE, horizons) && Grid([], horizons) == [];
  }

  lemma CollectOne<T>(cell: Cell, make: Cell -> Result<T>)
    requires make(cell).Ok?
    ensures Collect([cell], make) == Ok([make(cell).value])
  {
    assert [cell][..0] == [];
    assert Collect([], make) == Ok([]);
    assert [] + [make(cell).value] == [make(cell).value];
  }

  lemma ExampleOpinion(inputs: Inputs, agent: Agent)
    requires HasDraft(inputs, agent) && !inputs.live
    ensures DraftOpinion(inputs, Slot(agent, CELL)) == Ok(OpinionOf(agent))
  {
  }

  lemma ExampleResearch(inputs: Inputs, agent: Agent)
    requires IsExample(inputs) && agent in AGENTS
    ensures Research(inputs, agent) == Ok([OpinionOf(agent)])
  {
    ExampleCells(inputs);
    ExampleOpinion(inputs, agent);
    CollectOne(CELL, ResearchMaker(inputs, agent));
  }

  function ExampleJoin(): seq<Opinion> {
    [OpinionOf(MacroPolicy), OpinionOf(MarketNews), OpinionOf(AiStorage)]
  }

  lemma ExampleJoins(inputs: Inputs)
    requires IsExample(inputs)
    ensures Joins(inputs, ExampleJoin())
  {
    ExampleResearch(inputs, MacroPolicy);
    ExampleResearch(inputs, MarketNews);
    ExampleResearch(inputs, AiStorage);
    assert [OpinionOf(MacroPolicy)] + [OpinionOf(MarketNews)] + [OpinionOf(AiStorage)] == ExampleJoin();
  }

  /** The join holds one opinion of each research agent on the cell, and nothing else. */
  lemma JoinReadings()
    ensures Filter(ExampleJoin(), ResearchOn(CELL)) == ExampleJoin() && Filter(ExampleJoin(), PeersOf(CELL)) == []
    ensures |ExampleJoin()| == 3 && Agents(ExampleJoin()) == RESEARCH_AGENTS
  {
    var join := ExampleJoin();
    FilterAll(join, ResearchOn(CELL));
    FilterNone(join, PeersOf(CELL));
    assert join[0] in join && join[1] in join && join[2] in join;
  }

  lemma NoPeersExpected()
    ensures ExpectedPeers([CODE], CELL) == {} && Identities([]) == {}
  {
  }

  lemma ExampleStrategyOpinion(inputs: Inputs)
    requires IsExample(inputs)
    ensures StrategyOpinion(inputs, ExampleJoin(), CELL) == Ok(OpinionOf(Strategy))
  {
    JoinReadings();
    NoPeersExpected();
    assert HasDraft(inputs, Strategy);
    ExampleOpinion(inputs, Strategy);
    StrategyPasses(inputs, ExampleJoin(), OpinionOf(Strategy));
  }

  lemma StrategyPasses(inputs: Inputs, join: seq<Opinion>, o: Opinion)
    requires Filter(join, ResearchOn(CELL)) == join && Filter(join, PeersOf(CELL)) == [] && |join| == 3 && Agents(join) == RESEARCH_AGENTS
    requires ExpectedPeers(inputs.codes, CELL) == {} && Identities([]) == {} && CODE in inputs.volatility
    requires Slot(Strategy, CELL) in inputs.drafts && inputs.drafts[Slot(Strategy, CELL)].evidenceIds == []
    requires DraftOpinion(inputs, Slot(Strategy, CELL)) == Ok(o)
    ensures StrategyOpinion(inputs, join, CELL) == Ok(o)
  {
    assert ToSet(inputs.drafts[Slot(Strategy, CELL)].evidenceIds) == {};
  }

  lemma ExampleStrategy(inputs: Inputs) returns (s: Opinion)
    requires IsExample(inputs)
    ensures StrategyNode(inputs, ExampleJoin()) == Ok([s]) && s.(place := None) == OpinionOf(Strategy)
  {
    ExampleCells(inputs);
    ExampleStrategyOpinion(inputs);
    CollectOne(CELL, StrategyMaker(inputs, ExampleJoin()));
    s := AnnotateOne(inputs, OpinionOf(Strategy));
  }

  lemma RankableOne(inputs: Inputs, o: Opinion, code: Id, h: Horizon)
    requires inputs.codes == [code] && o.slot.cell == Cell(code, h)
    ensures CanRank(inputs, [o], h)
  {
    FilterAll([o], OnHorizon(h));
    CodeOfOne(o);
  }

  lemma CodeOfOne(o: Opinion)
    ensures CodesOf([o]) == [o.slot.cell.code]
  {
  }

  lemma AnnotateOne(inputs: Inputs, o: Opinion) returns (s: Opinion)
    requires inputs.codes == [CODE] && inputs.horizons == [D1] && o.slot.cell == CELL
    ensures Annotate(inputs, [o]) == Ok([s]) && s.(place := None) == o.(place := None)
  {
    RankableOne(inputs, o, CODE, D1);
    s := WithPlace(inputs, [o], o);
    PlaceKeepsRest(inputs, [o], o);
    AnnotatesTo(inputs, o, s);
  }

  lemma AnnotatesTo(inputs: Inputs, o: Opinion, s: Opinion)
    requires inputs.horizons == [D1] && CanRank(inputs, [o], D1) && s == WithPlace(inputs, [o], o)
    ensures Annotate(inputs, [o]) == Ok([s])
  {
    assert forall h :: h in inputs.horizons ==> h == D1;
    assert Map([o], (x: Opinion) => WithPlace(inputs, [o], x)) == [s];
  }

  lemma ExampleCritic(inputs: Inputs, s: Opinion)
    requires IsExample(inputs) && s.(place := None) == OpinionOf(Strategy)
    ensures CriticNode(inputs, ExampleJoin() + [s]) == Ok([OpinionOf(RiskCritic)])
  {
    var opinions := ExampleJoin() + [s];
    ExampleCells(inputs);
    FilterAll(opinions, CriticInputs(CELL));
    assert HasDraft(inputs, RiskCritic);
    CollectOne(CELL, CriticMaker(inputs, opinions));
  }

  lemma ExampleEvidence(inputs: Inputs, o: Opinion, agent: Agent)
    requires HasDraft(inputs, agent) && !inputs.live && o.(place := None) == OpinionOf(agent)
    ensures OpinionCited(inputs, o)
  {
  }

  lemma ExampleValidates(inputs: Inputs, s: Opinion)
    requires IsExample(inputs) && s.(place := None) == OpinionOf(Strategy)
    ensures EvidenceValid(inputs, ExampleJoin() + [s, OpinionOf(RiskCritic)])
  {
    ExampleEvidence(inputs, OpinionOf(MacroPolicy), MacroPolicy);
    ExampleEvidence(inputs, OpinionOf(MarketNews), MarketNews);
    ExampleEvidence(inputs, OpinionOf(AiStorage), AiStorage);
    ExampleEvidence(inputs, s, Strategy);
    ExampleEvidence(inputs, OpinionOf(RiskCritic), RiskCritic);
  }

  // ----- The forecast -----

  lemma ExampleHaircut()
    ensures ApplyHaircut(VECTOR, DIRECTIONAL_MASS_HAIRCUT).Ok?
    ensures var q := ApplyHaircut(VECTOR, DIRECTIONAL_MASS_HAIRCUT).value;
            PredictedDirection(q).Some? && DirectionalConfidence(q).Some?
  {
    CommitteeHaircutIsTotal(VECTOR);
    CommitteeHaircutDirection(VECTOR);
    DirectionIff(ApplyHaircut(VECTOR, DIRECTIONAL_MASS_HAIRCUT).value);
  }

  lemma ResearchOfAll(join: seq<Opinion>, s: Opinion, c: Opinion)
    requires Filter(join, ResearchOn(CELL)) == join && !IsResearch(s.slot.agent) && !IsResearch(c.slot.agent)
    ensures Filter(join + [s, c], ResearchOn(CELL)) == join
  {
    FilterNone([s, c], ResearchOn(CELL));
    FilterConcat(join, [s, c], ResearchOn(CELL));
  }

  lemma FoundIn(join: seq<Opinion>, s: Opinion, c: Opinion, agent: Agent)
    requires (forall o :: o in join ==> o.slot.agent != agent) && s.slot == Slot(Strategy, CELL) && c.slot == Slot(RiskCritic, CELL)
    requires agent == Strategy || agent == RiskCritic
    ensures First(join + [s, c], By(agent, CELL)) == Some(if agent == Strategy then s else c)
  {
    FilterNone(join, By(agent, CELL));
    FilterConcat(join, [s, c], By(agent, CELL));
    FilterSnoc([s], c, By(agent, CELL));
    FilterSnoc([], s, By(agent, CELL));
    assert [s] + [c] == [s, c] && [] + [s] == [s];
  }

  lemma ForecastExists(inputs: Inputs, opinions: seq<Opinion>, s: Opinion, c: Opinion)
    requires |Filter(opinions, ResearchOn(CELL))| == 3
    requires First(opinions, By(Strategy, CELL)) == Some(s) && First(opinions, By(RiskCritic, CELL)) == Some(c)
    requires s.probabilities == VECTOR && CODE in inputs.volatility && inputs.volatility[CODE] == 1.0
    ensures CioForecast(inputs, opinions, CELL).Ok?
  {
    ExampleHaircut();
  }

  lemma InputsFound(join: seq<Opinion>, s: Opinion, c: Opinion, opinions: seq<Opinion>)
    requires Filter(join, ResearchOn(CELL)) == join && |join| == 3 && forall o :: o in join ==> IsResearch(o.slot.agent)
    requires s.slot == Slot(Strategy, CELL) && c.slot == Slot(RiskCritic, CELL) && opinions == join + [s, c]
    ensures |Filter(opinions, ResearchOn(CELL))| == 3
    ensures First(opinions, By(Strategy, CELL)) == Some(s) && First(opinions, By(RiskCritic, CELL)) == Some(c)
  {
    ResearchOfAll(join, s, c);
    FoundIn(join, s, c, Strategy);
    FoundIn(join, s, c, RiskCritic);
  }

  lemma ExampleForecast(inputs: Inputs, s: Opinion)
    requires IsExample(inputs) && s.(place := None) == OpinionOf(Strategy)
    ensures CioForecast(inputs, ExampleJoin() + [s, OpinionOf(RiskCritic)], CELL).Ok?
  {
    var opinions := ExampleJoin() + [s, OpinionOf(RiskCritic)];
    JoinReadings();
    InputsFound(ExampleJoin(), s, OpinionOf(RiskCritic), opinions);
    ForecastExists(inputs, opinions, s, OpinionOf(RiskCritic));
  }

  lemma ExampleFinishes(inputs: Inputs, s: Opinion)
    requires IsExample(inputs) && s.(place := None) == OpinionOf(Strategy)
    ensures AfterCritic(inputs, ExampleJoin() + [s] + [OpinionOf(RiskCritic)]).Ok?
  {
    var opinions := ExampleJoin() + [s, OpinionOf(RiskCritic)];
    assert ExampleJoin() + [s] + [OpinionOf(RiskCritic)] == opinions;
    ExampleValidates(inputs, s);
    ExampleCells(inputs);
    ExampleForecast(inputs, s);
    CollectOne(CELL, CioMaker(inputs, opinions));
  }

  lemma ExampleRuns(inputs: Inputs)
    requires IsExample(inputs)
    ensures Joins(inputs, ExampleJoin()) && AfterJoin(inputs, ExampleJoin()).Ok?
  {
    ExampleJoins(inputs);
    var s := ExampleStrategy(inputs);
    ExampleCritic(inputs, s);
    ExampleFinishes(inputs, s);
  }

  /** The graph completes on these inputs. */
  lemma ExampleCompletes(root: real)
    ensures Joins(ExampleInputs(root), ExampleJoin()) && AfterJoin(ExampleInputs(root), ExampleJoin()).Ok?
  {
    ExampleIsExample(root);
    ExampleRuns(ExampleInputs(root));
  }

  lemma OrdersDiffer(inputs: Inputs) returns (joined: seq<Opinion>, other: seq<Opinion>)
    requires IsExample(inputs)
    ensures Joins(inputs, joined) && Joins(inputs, other)
    ensures AfterJoin(inputs, joined).Ok? && AfterJoin(inputs, other).Ok?
    ensures |AfterJoin(inputs, joined).value.forecasts| == |AfterJoin(inputs, other).value.forecasts| == 1
    ensures VersionAt(inputs, joined, 0) != VersionAt(inputs, other, 0)
  {
    ExampleRuns(inputs);
    ExampleCells(inputs);
    PagesDiffer(inputs);
    joined, other := JoinFrom(inputs, MacroPolicy), JoinFrom(inputs, MarketNews);
    JoinFromLeads(inputs, ExampleJoin(), MacroPolicy, 0);
    JoinFromLeads(inputs, ExampleJoin(), MarketNews, 0);
    ForecastAt(inputs, joined, 0);
    ForecastAt(inputs, other, 0);
  }

  lemma PagesDiffer(inputs: Inputs)
    requires IsExample(inputs)
    ensures PageOf(inputs, MacroPolicy, CODE) != PageOf(inputs, MarketNews, CODE)
  {
    assert |EntryOf(MacroPolicy).text| != |EntryOf(MarketNews).text|;
    assert HasDraft(inputs, MacroPolicy) && HasDraft(inputs, MarketNews);
  }

  /** Two orders of the same research, both of which complete, seal different versions. */
  lemma WikiVersionSeesTheOrder(root: real) returns (joined: seq<Opinion>, other: seq<Opinion>)
    ensures Joins(ExampleInputs(root), joined) && Joins(ExampleInputs(root), other)
    ensures AfterJoin(ExampleInputs(root), joined).Ok? && AfterJoin(ExampleInputs(root), other).Ok?
    ensures |AfterJoin(ExampleInputs(root), joined).value.forecasts| == |AfterJoin(ExampleInputs(root), other).value.forecasts| == 1
    ensures VersionAt(ExampleInputs(root), joined, 0) != VersionAt(ExampleInputs(root), other, 0)
  {
    ExampleIsExample(root);
    joined, other := OrdersDiffer(ExampleInputs(root));
  }
}
