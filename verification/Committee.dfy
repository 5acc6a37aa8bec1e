/** The committee graph: three research nodes over the instrument x horizon grid, then strategy, risk
    critic, evidence validator and CIO. Drafts are given; the graph only checks, binds and combines
    them. This file is the functional reading of the node functions; CommitteeNodes.dfy has the loops. */
module Committee {
  import opened Common
  import opened Scoring
  import opened Ranking

  datatype Agent = MacroPolicy | MarketNews | AiStorage | Strategy | RiskCritic | Cio

  /** The three agents whose opinions the later nodes read as research. */
  predicate IsResearch(a: Agent) {
    a == MacroPolicy || a == MarketNews || a == AiStorage
  }

  datatype Cell = Cell(code: Id, horizon: Horizon)

  datatype Slot = Slot(agent: Agent, cell: Cell)

  datatype Stamp = Stamp(sourceUrl: Id, contentHash: Id, eventTime: int, published: int, ingested: int, quote: Id)

  datatype EvidenceItem = EvidenceItem(entities: set<Id>, stamp: Stamp)

  datatype WikiPage = WikiPage(entry: Id, version: Id, sections: set<Id>)

  datatype Citation = Citation(entry: Id, version: Id, section: Id, evidence: Option<Id>, stamp: Option<Stamp>)

  datatype CitationKey = CitationKey(entry: Id, version: Id, section: Id, evidence: Option<Id>)

  datatype AgentDraft = AgentDraft(
    direction: Direction, probabilities: Probabilities, summary: Id,
    counterEvidence: seq<Id>, invalidation: seq<Id>,
    evidenceIds: seq<Id>, entry: Id, section: Id)

  datatype Opinion = Opinion(
    slot: Slot, direction: Direction, probabilities: Probabilities, summary: Id,
    counterEvidence: seq<Id>, invalidation: seq<Id>,
    evidenceIds: seq<Id>, citations: seq<Citation>, place: Option<Place>)

  datatype Forecast = Forecast(
    cell: Cell, direction: Direction, probabilities: Probabilities, threshold: real, confidence: real,
    counterEvidence: seq<Id>, invalidation: seq<Id>, citations: seq<Citation>,
    wikiVersion: seq<(Id, Id)>, place: Option<Place>, abstain: bool)

  /** Everything a run froze before the graph started. `drafts` is the provider: a slot without a
      draft is a provider that raised. `wiki` says which page an agent is given for an instrument.
      `rootTwo` is the square root of two. */
  datatype Inputs = Inputs(
    codes: seq<Id>, horizons: seq<Horizon>, drafts: map<Slot, AgentDraft>,
    wiki: map<(Agent, Id), WikiPage>, items: map<Id, EvidenceItem>,
    volatility: map<Id, real>, rootTwo: real, dataCutoff: int, live: bool)

  // ----- The grid -----

  function Row(code: Id, horizons: seq<Horizon>): seq<Cell> {
    if horizons == [] then [] else Row(code, horizons[..|horizons| - 1]) + [Cell(code, horizons[|horizons| - 1])]
  }

  /** Instrument-major, as the nested loops visit it. */
  function Grid(codes: seq<Id>, horizons: seq<Horizon>): seq<Cell> {
    if codes == [] then [] else Grid(codes[..|codes| - 1], horizons) + Row(codes[|codes| - 1], horizons)
  }

  function Cells(inputs: Inputs): seq<Cell> {
    Grid(inputs.codes, inputs.horizons)
  }

  /** Make one element per cell, stopping at the first cell that raises. */
  function Collect<T>(cells: seq<Cell>, make: Cell -> Result<T>): Result<seq<T>> {
    if cells == [] then Ok([])
    else
      match Collect(cells[..|cells| - 1], make)
      case Err(e) => Err(e)
      case Ok(made) =>
        match make(cells[|cells| - 1])
        case Err(e) => Err(e)
        case Ok(x) => Ok(made + [x])
  }

  // ----- One opinion -----

  /** The page the wiki gives an agent, if the draft stayed on it. */
  function WikiFor(inputs: Inputs, slot: Slot, draft: AgentDraft): Result<WikiPage> {
    var key := (slot.agent, slot.cell.code);
    if key !in inputs.wiki then Err("no Wiki page is assigned")
    else if draft.entry != inputs.wiki[key].entry then Err("referenced an unavailable Wiki entry")
    else if draft.section !in inputs.wiki[key].sections then Err("referenced an unavailable Wiki section")
    else Ok(inputs.wiki[key])
  }

  function BindOne(inputs: Inputs, code: Id, page: WikiPage, section: Id, evidence: Id): Result<Citation> {
    if evidence !in inputs.items then Err("model referenced unavailable frozen evidence")
    else
      var item := inputs.items[evidence];
      if item.entities != {} && code !in item.entities then Err("frozen evidence is not scoped to index")
      else Ok(Citation(page.entry, page.version, section, Some(evidence), Some(item.stamp)))
  }

  function BindAll(inputs: Inputs, code: Id, page: WikiPage, section: Id, ids: seq<Id>): Result<seq<Citation>> {
    if ids == [] then Ok([])
    else
      match BindAll(inputs, code, page, section, ids[..|ids| - 1])
      case Err(e) => Err(e)
      case Ok(bound) =>
        match BindOne(inputs, code, page, section, ids[|ids| - 1])
        case Err(e) => Err(e)
        case Ok(c) => Ok(bound + [c])
  }

  /** One citation per declared evidence id, or the bare wiki citation when none is declared. */
  function BindCitations(inputs: Inputs, code: Id, page: WikiPage, draft: AgentDraft): Result<seq<Citation>> {
    if draft.evidenceIds == [] then
      if inputs.live then Err("live opinions must cite frozen evidence_item_ids")
      else Ok([Citation(page.entry, page.version, draft.section, None, None)])
    else BindAll(inputs, code, page, draft.section, draft.evidenceIds)
  }

  function FromDraft(slot: Slot, draft: AgentDraft, citations: seq<Citation>): Opinion {
    Opinion(slot, draft.direction, draft.probabilities, draft.summary, draft.counterEvidence, draft.invalidation,
            draft.evidenceIds, citations, None)
  }

  function DraftOpinion(inputs: Inputs, slot: Slot): Result<Opinion> {
    if slot !in inputs.drafts then Err("the provider raised")
    else
      var draft := inputs.drafts[slot];
      match WikiFor(inputs, slot, draft)
      case Err(e) => Err(e)
      case Ok(page) =>
        match BindCitations(inputs, slot.cell.code, page, draft)
        case Err(e) => Err(e)
        case Ok(citations) => Ok(FromDraft(slot, draft, citations))
  }

  // ----- Research -----

  function ResearchMaker(inputs: Inputs, agent: Agent): Cell -> Result<Opinion> {
    (cell: Cell) => DraftOpinion(inputs, Slot(agent, cell))
  }

  function Research(inputs: Inputs, agent: Agent): Result<seq<Opinion>> {
    Collect(Cells(inputs), ResearchMaker(inputs, agent))
  }

  // ----- Strategy -----

  function ResearchOn(cell: Cell): Opinion -> bool {
    (o: Opinion) => IsResearch(o.slot.agent) && o.slot.cell == cell
  }

  function PeersOf(cell: Cell): Opinion -> bool {
    (o: Opinion) => IsResearch(o.slot.agent) && o.slot.cell.horizon == cell.horizon && o.slot.cell.code != cell.code
  }

  function Agents(opinions: seq<Opinion>): set<Agent> {
    set o | o in opinions :: o.slot.agent
  }

  function Identities(opinions: seq<Opinion>): set<(Id, Agent)> {
    set o | o in opinions :: (o.slot.cell.code, o.slot.agent)
  }

  const RESEARCH_AGENTS: set<Agent> := {MacroPolicy, MarketNews, AiStorage}

  function ExpectedPeers(codes: seq<Id>, cell: Cell): set<(Id, Agent)> {
    set code, agent | code in codes && code != cell.code && agent in RESEARCH_AGENTS :: (code, agent)
  }

  function EvidenceOf(opinions: seq<Opinion>): set<Id> {
    set o, e | o in opinions && e in o.evidenceIds :: e
  }

  function StrategyOpinion(inputs: Inputs, opinions: seq<Opinion>, cell: Cell): Result<Opinion> {
    var research := Filter(opinions, ResearchOn(cell));
    var peers := Filter(opinions, PeersOf(cell));
    var expected := ExpectedPeers(inputs.codes, cell);
    var slot := Slot(Strategy, cell);
    if |research| != 3 || Agents(research) != RESEARCH_AGENTS then Err("strategy agent received incomplete inputs")
    else if |peers| != |expected| || Identities(peers) != expected then Err("strategy agent received incomplete peer inputs")
    else if cell.code !in inputs.volatility then Err("no volatility for the instrument")
    else if slot !in inputs.drafts then Err("the provider raised")
    else if !(ToSet(inputs.drafts[slot].evidenceIds) <= EvidenceOf(research)) then
      Err("strategy agent referenced evidence outside its research inputs")
    else DraftOpinion(inputs, slot)
  }

  function StrategyMaker(inputs: Inputs, opinions: seq<Opinion>): Cell -> Result<Opinion> {
    (cell: Cell) => StrategyOpinion(inputs, opinions, cell)
  }

  function OnHorizon(h: Horizon): Opinion -> bool {
    (o: Opinion) => o.slot.cell.horizon == h
  }

  function CodesOf(opinions: seq<Opinion>): seq<Id> {
    Map(opinions, (o: Opinion) => o.slot.cell.code)
  }

  /** The rows of one horizon must be exactly the instruments, and there must be some to average. */
  predicate CanRank(inputs: Inputs, opinions: seq<Opinion>, h: Horizon) {
    var rows := Filter(opinions, OnHorizon(h));
    |rows| == |inputs.codes| && ToSet(CodesOf(rows)) == ToSet(inputs.codes) && inputs.codes != []
  }

  function ScoresOf(opinions: seq<Opinion>): Scores {
    if opinions == [] then map[]
    else
      var o := opinions[|opinions| - 1];
      ScoresOf(opinions[..|opinions| - 1])[o.slot.cell.code := o.probabilities.up - o.probabilities.down]
  }

  /** Position of every instrument in the configured list; a repeated code keeps its last position. */
  function Positions(codes: seq<Id>): (r: map<Id, nat>)
    ensures r.Keys == ToSet(codes)
  {
    if codes == [] then map[]
    else
      assert codes == codes[..|codes| - 1] + [codes[|codes| - 1]];
      Positions(codes[..|codes| - 1])[codes[|codes| - 1] := |codes| - 1]
  }

  predicate Rankable(codes: seq<Id>, scores: Scores, position: map<Id, nat>) {
    forall c :: c in codes ==> c in scores && c in position
  }

  function PlacesIfRankable(codes: seq<Id>, scores: Scores, position: map<Id, nat>): map<Id, Place> {
    if Rankable(codes, scores, position) then RankPlaces(codes, scores, position) else map[]
  }

  function PlacesOn(inputs: Inputs, opinions: seq<Opinion>, h: Horizon): map<Id, Place> {
    var rows := Filter(opinions, OnHorizon(h));
    PlacesIfRankable(Unique(CodesOf(rows)), ScoresOf(rows), Positions(inputs.codes))
  }

  function WithPlace(inputs: Inputs, opinions: seq<Opinion>, o: Opinion): Opinion {
    var places := PlacesOn(inputs, opinions, o.slot.cell.horizon);
    if o.slot.cell.code in places then o.(place := Some(places[o.slot.cell.code])) else o
  }

  /** Derive the cross-instrument view of every horizon and attach it to the strategy opinions. */
  function Annotate(inputs: Inputs, opinions: seq<Opinion>): Result<seq<Opinion>> {
    if exists h :: h in inputs.horizons && !CanRank(inputs, opinions, h) then
      Err("strategy context has duplicate or missing instruments")
    else Ok(Map(opinions, (o: Opinion) => WithPlace(inputs, opinions, o)))
  }

  function StrategyNode(inputs: Inputs, opinions: seq<Opinion>): Result<seq<Opinion>> {
    match Collect(Cells(inputs), StrategyMaker(inputs, opinions))
    case Err(e) => Err(e)
    case Ok(additions) => Annotate(inputs, additions)
  }

  // ----- Risk critic -----

  function CriticInputs(cell: Cell): Opinion -> bool {
    (o: Opinion) => (IsResearch(o.slot.agent) || o.slot.agent == Strategy) && o.slot.cell == cell
  }

  function CriticOpinion(inputs: Inputs, opinions: seq<Opinion>, cell: Cell): Result<Opinion> {
    var slot := Slot(RiskCritic, cell);
    if |Filter(opinions, CriticInputs(cell))| != 4 then Err("critic received incomplete inputs")
    else if slot !in inputs.drafts then Err("the provider raised")
    else
      var draft := inputs.drafts[slot];
      match WikiFor(inputs, slot, draft)
      case Err(e) => Err(e)
      case Ok(page) =>
        if draft.evidenceIds != [] then Err("risk critic must not introduce new evidence_item_ids")
        else Ok(FromDraft(slot, draft, [Citation(page.entry, page.version, draft.section, None, None)]))
  }

  function CriticMaker(inputs: Inputs, opinions: seq<Opinion>): Cell -> Result<Opinion> {
    (cell: Cell) => CriticOpinion(inputs, opinions, cell)
  }

  function CriticNode(inputs: Inputs, opinions: seq<Opinion>): Result<seq<Opinion>> {
    Collect(Cells(inputs), CriticMaker(inputs, opinions))
  }

  // ----- Evidence validator -----

  predicate OnKnownPage(inputs: Inputs, c: Citation) {
    exists key :: key in inputs.wiki && inputs.wiki[key].entry == c.entry && inputs.wiki[key].version == c.version &&
                  c.section in inputs.wiki[key].sections
  }

  predicate CitationHolds(inputs: Inputs, c: Citation) {
    && OnKnownPage(inputs, c)
    && (c.evidence.Some? ==> c.evidence.value in inputs.items && c.stamp == Some(inputs.items[c.evidence.value].stamp))
    && (c.evidence.None? ==> c.stamp == None)
    && (c.stamp.Some? ==> c.stamp.value.published <= inputs.dataCutoff)
  }

  function BoundIds(citations: seq<Citation>): set<Id> {
    set c | c in citations && c.evidence.Some? :: c.evidence.value
  }

  predicate OpinionCited(inputs: Inputs, o: Opinion) {
    && o.citations != []
    && (forall c :: c in o.citations ==> CitationHolds(inputs, c))
    && (inputs.live && (IsResearch(o.slot.agent) || o.slot.agent == Strategy) ==>
          BoundIds(o.citations) != {} && BoundIds(o.citations) == ToSet(o.evidenceIds))
  }

  predicate EvidenceValid(inputs: Inputs, opinions: seq<Opinion>) {
    forall o :: o in opinions ==> OpinionCited(inputs, o)
  }

  // ----- CIO -----

  function By(agent: Agent, cell: Cell): Opinion -> bool {
    (o: Opinion) => o.slot == Slot(agent, cell)
  }

  /** `next(o for o in opinions if keep(o))` */
  function First(opinions: seq<Opinion>, keep: Opinion -> bool): Option<Opinion> {
    var kept := Filter(opinions, keep);
    if kept == [] then None else Some(kept[0])
  }

  function KeyOf(c: Citation): CitationKey {
    CitationKey(c.entry, c.version, c.section, c.evidence)
  }

  /** One dictionary assignment: a known key keeps its place and takes the new value. */
  function Upsert(unique: seq<Citation>, c: Citation): seq<Citation> {
    if unique == [] then [c]
    else if KeyOf(unique[0]) == KeyOf(c) then [c] + unique[1..]
    else [unique[0]] + Upsert(unique[1..], c)
  }

  function Deduplicate(citations: seq<Citation>): seq<Citation> {
    if citations == [] then []
    else Upsert(Deduplicate(citations[..|citations| - 1]), citations[|citations| - 1])
  }

  function DeduplicateTexts(texts: seq<Id>): seq<Id> {
    Unique(Filter(texts, (t: Id) => t.text != ""))
  }

  function CitationsOf(opinions: seq<Opinion>): seq<Citation> {
    if opinions == [] then [] else CitationsOf(opinions[..|opinions| - 1]) + opinions[|opinions| - 1].citations
  }

  function CountersOf(opinions: seq<Opinion>): seq<Id> {
    if opinions == [] then [] else CountersOf(opinions[..|opinions| - 1]) + opinions[|opinions| - 1].counterEvidence
  }

  function InvalidationsOf(opinions: seq<Opinion>): seq<Id> {
    if opinions == [] then [] else InvalidationsOf(opinions[..|opinions| - 1]) + opinions[|opinions| - 1].invalidation
  }

  function NeutralThreshold(inputs: Inputs, volatility: real, h: Horizon): real {
    0.25 * volatility * (if h == D1 then 1.0 else inputs.rootTwo)
  }

  function WikiVersions(citations: seq<Citation>): seq<(Id, Id)> {
    Map(citations, (c: Citation) => (c.entry, c.version))
  }

  /** The forecast of one cell, once the three inputs are found and the haircut has a direction. */
  function BuildForecast(inputs: Inputs, cell: Cell, research: seq<Opinion>, strategy: Opinion, risk: Opinion,
                         parsed: Probabilities, direction: Direction, confidence: real, volatility: real): Forecast {
    var citations := Deduplicate(CitationsOf(research + [strategy]));
    Forecast(cell, direction, parsed, NeutralThreshold(inputs, volatility, cell.horizon), confidence,
             DeduplicateTexts(CountersOf(research + [strategy, risk])),
             DeduplicateTexts(InvalidationsOf(research + [strategy, risk])),
             citations, WikiVersions(citations), strategy.place, false)
  }

  function CioForecast(inputs: Inputs, opinions: seq<Opinion>, cell: Cell): Result<Forecast> {
    var research := Filter(opinions, ResearchOn(cell));
    var strategy := First(opinions, By(Strategy, cell));
    var risk := First(opinions, By(RiskCritic, cell));
    if |research| != 3 then Err("incomplete research set")
    else if strategy.None? then Err("missing strategy opinion")
    else if risk.None? then Err("missing risk opinion")
    else
      match ApplyHaircut(strategy.value.probabilities, DIRECTIONAL_MASS_HAIRCUT)
      case Err(e) => Err(e)
      case Ok(parsed) =>
        match PredictedDirection(parsed)
        case None => Err("up and down probabilities must not be tied")
        case Some(direction) =>
          match DirectionalConfidence(parsed)
          case None => Err("at least one directional probability must be positive")
          case Some(confidence) =>
            if cell.code !in inputs.volatility || inputs.volatility[cell.code] < 0.0 then
              Err("volatility_20d must be a finite non-negative number")
            else
              Ok(BuildForecast(inputs, cell, research, strategy.value, risk.value, parsed, direction, confidence,
                               inputs.volatility[cell.code]))
  }

  function CioMaker(inputs: Inputs, opinions: seq<Opinion>): Cell -> Result<Forecast> {
    (cell: Cell) => CioForecast(inputs, opinions, cell)
  }

  /** The decision opinion that accompanies a forecast. */
  function DecisionOpinion(f: Forecast): Opinion {
    Opinion(Slot(Cio, f.cell), f.direction, f.probabilities, Id("rationale"), f.counterEvidence, f.invalidation, [],
            f.citations, None)
  }

  function CioNode(inputs: Inputs, opinions: seq<Opinion>): Result<seq<Forecast>> {
    Collect(Cells(inputs), CioMaker(inputs, opinions))
  }

  // ----- The graph -----

  datatype Outcome = Outcome(opinions: seq<Opinion>, forecasts: seq<Forecast>)

  /** Validator and CIO, on the opinions of all earlier nodes. */
  function AfterCritic(inputs: Inputs, opinions: seq<Opinion>): Result<Outcome> {
    if !EvidenceValid(inputs, opinions) then Err("invalid citation")
    else
      match CioNode(inputs, opinions)
      case Err(e) => Err(e)
      case Ok(forecasts) => Ok(Outcome(opinions + Map(forecasts, DecisionOpinion), forecasts))
  }

  function AfterStrategy(inputs: Inputs, joined: seq<Opinion>, strategy: seq<Opinion>): Result<Outcome> {
    match CriticNode(inputs, joined + strategy)
    case Err(e) => Err(e)
    case Ok(critic) => AfterCritic(inputs, joined + strategy + critic)
  }

  /** Everything after the research join, on whatever list the reducer built. */
  function AfterJoin(inputs: Inputs, joined: seq<Opinion>): Result<Outcome> {
    match StrategyNode(inputs, joined)
    case Err(e) => Err(e)
    case Ok(strategy) => AfterStrategy(inputs, joined, strategy)
  }

  /** The reducer may append the three research outputs in any order, even interleaved. */
  ghost predicate Joins(inputs: Inputs, joined: seq<Opinion>) {
    && Research(inputs, MacroPolicy).Ok? && Research(inputs, MarketNews).Ok? && Research(inputs, AiStorage).Ok?
    && multiset(joined) == multiset(Research(inputs, MacroPolicy).value + Research(inputs, MarketNews).value +
                                    Research(inputs, AiStorage).value)
  }

  // ----- The persistence boundary -----

  predicate OpinionAccepted(o: Opinion) {
    SchemaValid(o.probabilities) && PredictedDirection(o.probabilities) == Some(o.direction)
  }

  predicate ForecastAccepted(f: Forecast) {
    && SchemaValid(f.probabilities)
    && PredictedDirection(f.probabilities) == Some(f.direction)
    && DirectionalConfidence(f.probabilities).Some?
    && Abs(f.confidence - DirectionalConfidence(f.probabilities).value) <= TIE_TOLERANCE
    && !f.abstain
  }

  /** `_persist_result` re-checks every row before adding any of them. */
  predicate PersistAccepts(outcome: Outcome) {
    && (forall o :: o in outcome.opinions ==> OpinionAccepted(o))
    && (forall f :: f in outcome.forecasts ==> ForecastAccepted(f))
  }

  /** What the draft schema guarantees about a draft the provider returns. */
  ghost predicate DraftValid(d: AgentDraft) {
    SchemaValid(d.probabilities) && PredictedDirection(d.probabilities) == Some(d.direction) && NoDuplicates(d.evidenceIds)
  }
}
