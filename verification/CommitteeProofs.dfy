/** What a completed committee graph guarantees: exact coverage of the grid, independence of the order
    in which the parallel research outputs were joined, and acceptance by the persistence boundary. */
module CommitteeProofs {
  import opened Common
  import opened Scoring
  import opened Ranking
  import opened Committee

  // ----- Collecting over the grid -----

  lemma {:induction false} CollectAt<T>(cells: seq<Cell>, make: Cell -> Result<T>)
    requires Collect(cells, make).Ok?
    ensures |Collect(cells, make).value| == |cells|
    ensures forall i :: 0 <= i < |cells| ==> make(cells[i]) == Ok(Collect(cells, make).value[i])
  {
    if cells != [] {
      CollectAt(cells[..|cells| - 1], make);
    }
  }

  lemma {:induction false} CollectSame<T>(cells: seq<Cell>, make: Cell -> Result<T>, other: Cell -> Result<T>)
    requires forall c :: c in cells ==> make(c) == other(c)
    ensures Collect(cells, make) == Collect(cells, other)
  {
    if cells != [] {
      CollectSame(cells[..|cells| - 1], make, other);
    }
  }

  /** A collection succeeds exactly when every cell does. */
  lemma {:induction false} CollectOkIff<T>(cells: seq<Cell>, make: Cell -> Result<T>)
    ensures Collect(cells, make).Ok? <==> forall c :: c in cells ==> make(c).Ok?
  {
    if cells != [] {
      var init, last := cells[..|cells| - 1], cells[|cells| - 1];
      CollectOkIff(init, make);
      assert cells == init + [last];
    }
  }

  lemma {:induction false} RowMembers(code: Id, horizons: seq<Horizon>)
    ensures forall c :: c in Row(code, horizons) <==> c.code == code && c.horizon in horizons
  {
    if horizons != [] {
      var init := horizons[..|horizons| - 1];
      RowMembers(code, init);
      assert horizons == init + [horizons[|horizons| - 1]];
    }
  }

  /** The grid is the full product of instruments and horizons. */
  lemma {:induction false} GridMembers(codes: seq<Id>, horizons: seq<Horizon>)
    ensures forall c :: c in Grid(codes, horizons) <==> c.code in codes && c.horizon in horizons
  {
    if codes != [] {
      var init, last := codes[..|codes| - 1], codes[|codes| - 1];
      GridMembers(init, horizons);
      RowMembers(last, horizons);
      assert codes == init + [last];
    }
  }

  // ----- Slots -----

  /** The list holds one opinion of `agent` per cell, in grid order. */
  ghost predicate Fills(opinions: seq<Opinion>, agent: Agent, cells: seq<Cell>) {
    && |opinions| == |cells|
    && forall i :: 0 <= i < |cells| ==> opinions[i].slot == Slot(agent, cells[i])
  }

  lemma ResearchFills(inputs: Inputs, agent: Agent)
    requires Research(inputs, agent).Ok?
    ensures Fills(Research(inputs, agent).value, agent, Cells(inputs))
  {
    CollectAt(Cells(inputs), ResearchMaker(inputs, agent));
  }

  lemma StrategyFills(inputs: Inputs, opinions: seq<Opinion>)
    requires StrategyNode(inputs, opinions).Ok?
    ensures Fills(StrategyNode(inputs, opinions).value, Strategy, Cells(inputs))
  {
    var cells, make := Cells(inputs), StrategyMaker(inputs, opinions);
    CollectAt(cells, make);
    var additions := Collect(cells, make).value;
    forall i | 0 <= i < |cells| ensures WithPlace(inputs, additions, additions[i]).slot == Slot(Strategy, cells[i]) {
      assert make(cells[i]) == Ok(additions[i]);
      StrategySlot(inputs, opinions, cells[i]);
      PlaceKeepsRest(inputs, additions, additions[i]);
    }
  }

  lemma StrategySlot(inputs: Inputs, opinions: seq<Opinion>, cell: Cell)
    requires StrategyOpinion(inputs, opinions, cell).Ok?
    ensures StrategyOpinion(inputs, opinions, cell).value.slot == Slot(Strategy, cell)
  {
  }

  lemma PlaceKeepsRest(inputs: Inputs, opinions: seq<Opinion>, o: Opinion)
    ensures WithPlace(inputs, opinions, o).(place := None) == o.(place := None)
  {
  }

  lemma CriticFills(inputs: Inputs, opinions: seq<Opinion>)
    requires CriticNode(inputs, opinions).Ok?
    ensures Fills(CriticNode(inputs, opinions).value, RiskCritic, Cells(inputs))
  {
    CollectAt(Cells(inputs), CriticMaker(inputs, opinions));
  }

  /** In a list that fills the grid, a test that singles out one cell keeps as many opinions as the
      grid has copies of that cell. */
  lemma {:induction false} FillsCount(opinions: seq<Opinion>, agent: Agent, cells: seq<Cell>, keep: Opinion -> bool, cell: Cell)
    requires Fills(opinions, agent, cells)
    requires forall o: Opinion :: o.slot.agent == agent ==> (keep(o) <==> o.slot.cell == cell)
    ensures |Filter(opinions, keep)| == multiset(cells)[cell]
  {
    if opinions != [] {
      var n := |opinions| - 1;
      FillsCount(opinions[..n], agent, cells[..n], keep, cell);
      assert cells == cells[..n] + [cells[n]];
    }
  }

  lemma FillsNone(opinions: seq<Opinion>, agent: Agent, cells: seq<Cell>, keep: Opinion -> bool)
    requires Fills(opinions, agent, cells)
    requires forall o: Opinion :: o.slot.agent == agent ==> !keep(o)
    ensures Filter(opinions, keep) == []
  {
    forall o | o in opinions ensures !keep(o) {
      var i :| 0 <= i < |opinions| && opinions[i] == o;
    }
    FilterNone(opinions, keep);
  }

  /** What the joined research list keeps, counted through its three parts. */
  lemma JoinCount(inputs: Inputs, joined: seq<Opinion>, keep: Opinion -> bool)
    requires Joins(inputs, joined)
    ensures |Filter(joined, keep)| ==
            |Filter(Research(inputs, MacroPolicy).value, keep)| + |Filter(Research(inputs, MarketNews).value, keep)| +
            |Filter(Research(inputs, AiStorage).value, keep)|
  {
    var m, n, a := Research(inputs, MacroPolicy).value, Research(inputs, MarketNews).value, Research(inputs, AiStorage).value;
    FilterPermutation(joined, m + n + a, keep);
    FilterConcat(m + n, a, keep);
    FilterConcat(m, n, keep);
  }

  lemma JoinedAreResearch(inputs: Inputs, joined: seq<Opinion>)
    requires Joins(inputs, joined)
    ensures forall o :: o in joined ==> IsResearch(o.slot.agent) && o.slot.cell in Cells(inputs)
    ensures |joined| == 3 * |Cells(inputs)|
  {
    ResearchFills(inputs, MacroPolicy);
    ResearchFills(inputs, MarketNews);
    ResearchFills(inputs, AiStorage);
    FillsMembers(Research(inputs, MacroPolicy).value, MacroPolicy, Cells(inputs));
    FillsMembers(Research(inputs, MarketNews).value, MarketNews, Cells(inputs));
    FillsMembers(Research(inputs, AiStorage).value, AiStorage, Cells(inputs));
    PermutationMembers(joined, Research(inputs, MacroPolicy).value + Research(inputs, MarketNews).value +
                               Research(inputs, AiStorage).value);
  }

  lemma JoinedAgentCount(inputs: Inputs, joined: seq<Opinion>, agent: Agent, cell: Cell)
    requires Joins(inputs, joined)
    ensures |Filter(joined, By(agent, cell))| == (if IsResearch(agent) then multiset(Cells(inputs))[cell] else 0)
  {
    JoinCount(inputs, joined, By(agent, cell));
    PartCount(inputs, MacroPolicy, agent, cell);
    PartCount(inputs, MarketNews, agent, cell);
    PartCount(inputs, AiStorage, agent, cell);
  }

  lemma PartCount(inputs: Inputs, part: Agent, agent: Agent, cell: Cell)
    requires Research(inputs, part).Ok?
    ensures |Filter(Research(inputs, part).value, By(agent, cell))| ==
            (if part == agent then multiset(Cells(inputs))[cell] else 0)
  {
    ResearchFills(inputs, part);
    if part == agent {
      FillsCount(Research(inputs, part).value, part, Cells(inputs), By(agent, cell), cell);
    } else {
      FillsNone(Research(inputs, part).value, part, Cells(inputs), By(agent, cell));
    }
  }

  lemma JoinedCellCount(inputs: Inputs, joined: seq<Opinion>, cell: Cell)
    requires Joins(inputs, joined)
    ensures |Filter(joined, ResearchOn(cell))| == 3 * multiset(Cells(inputs))[cell]
  {
    JoinCount(inputs, joined, ResearchOn(cell));
    ResearchFills(inputs, MacroPolicy);
    ResearchFills(inputs, MarketNews);
    ResearchFills(inputs, AiStorage);
    FillsCount(Research(inputs, MacroPolicy).value, MacroPolicy, Cells(inputs), ResearchOn(cell), cell);
    FillsCount(Research(inputs, MarketNews).value, MarketNews, Cells(inputs), ResearchOn(cell), cell);
    FillsCount(Research(inputs, AiStorage).value, AiStorage, Cells(inputs), ResearchOn(cell), cell);
  }

  // ----- Coverage -----

  function ForecastOn(cell: Cell): Forecast -> bool {
    (f: Forecast) => f.cell == cell
  }

  /** Exactly one opinion per agent, instrument and horizon, exactly one forecast per instrument and
      horizon, and nothing outside the grid. */
  ghost predicate Complete(inputs: Inputs, outcome: Outcome) {
    && (forall agent: Agent, code, h :: code in inputs.codes && h in inputs.horizons ==>
          |Filter(outcome.opinions, By(agent, Cell(code, h)))| == 1)
    && (forall code, h :: code in inputs.codes && h in inputs.horizons ==>
          |Filter(outcome.forecasts, ForecastOn(Cell(code, h)))| == 1)
    && (forall o :: o in outcome.opinions ==> o.slot.cell.code in inputs.codes && o.slot.cell.horizon in inputs.horizons)
    && (forall f :: f in outcome.forecasts ==> f.cell.code in inputs.codes && f.cell.horizon in inputs.horizons)
    && |outcome.opinions| == 6 * |Cells(inputs)|
    && |outcome.forecasts| == |Cells(inputs)|
  }

  /** The strategy node's completeness check is what rules out a repeated instrument: it accepts a join
      only if every cell occurs once in the grid. */
  lemma StrategyChecksDistinct(inputs: Inputs, joined: seq<Opinion>, cell: Cell)
    requires Joins(inputs, joined) && StrategyNode(inputs, joined).Ok? && cell in Cells(inputs)
    ensures multiset(Cells(inputs))[cell] == 1
  {
    CollectOkIff(Cells(inputs), StrategyMaker(inputs, joined));
    assert StrategyMaker(inputs, joined)(cell).Ok?;
    JoinedCellCount(inputs, joined, cell);
  }

  lemma {:induction false} ForecastsCount(cells: seq<Cell>, forecasts: seq<Forecast>, cell: Cell)
    requires |forecasts| == |cells| && forall i :: 0 <= i < |cells| ==> forecasts[i].cell == cells[i]
    ensures |Filter(forecasts, ForecastOn(cell))| == multiset(cells)[cell]
  {
    if cells != [] {
      var n := |cells| - 1;
      ForecastsCount(cells[..n], forecasts[..n], cell);
      assert cells == cells[..n] + [cells[n]];
    }
  }

  lemma ForecastCell(inputs: Inputs, opinions: seq<Opinion>, cell: Cell)
    requires CioForecast(inputs, opinions, cell).Ok?
    ensures CioForecast(inputs, opinions, cell).value.cell == cell
  {
  }

  lemma ForecastsFill(inputs: Inputs, opinions: seq<Opinion>)
    requires CioNode(inputs, opinions).Ok?
    ensures var forecasts := CioNode(inputs, opinions).value;
            |forecasts| == |Cells(inputs)| &&
            (forall i :: 0 <= i < |forecasts| ==> forecasts[i].cell == Cells(inputs)[i]) &&
            Fills(Map(forecasts, DecisionOpinion), Cio, Cells(inputs))
  {
    CollectAt(Cells(inputs), CioMaker(inputs, opinions));
    var forecasts := CioNode(inputs, opinions).value;
    forall i | 0 <= i < |forecasts| ensures forecasts[i].cell == Cells(inputs)[i] {
      assert CioMaker(inputs, opinions)(Cells(inputs)[i]) == Ok(forecasts[i]);
      ForecastCell(inputs, opinions, Cells(inputs)[i]);
    }
  }

  lemma FilterSizes(joined: seq<Opinion>, s: seq<Opinion>, c: seq<Opinion>, d: seq<Opinion>, keep: Opinion -> bool)
    ensures |Filter(joined + s + c + d, keep)| == |Filter(joined, keep)| + |Filter(s, keep)| + |Filter(c, keep)| + |Filter(d, keep)|
  {
    FilterConcat(joined + s + c, d, keep);
    FilterConcat(joined + s, c, keep);
    FilterConcat(joined, s, keep);
  }

  lemma OpinionsOfRun(inputs: Inputs, joined: seq<Opinion>, s: seq<Opinion>, c: seq<Opinion>)
    requires AfterJoin(inputs, joined).Ok?
    requires StrategyNode(inputs, joined) == Ok(s) && CriticNode(inputs, joined + s) == Ok(c)
    ensures CioNode(inputs, joined + s + c).Ok?
    ensures AfterJoin(inputs, joined).value.opinions ==
            joined + s + c + Map(CioNode(inputs, joined + s + c).value, DecisionOpinion)
  {
  }

  /** The six lists of a completed run, and what each agent contributes to one cell. */
  lemma AgentCount(inputs: Inputs, joined: seq<Opinion>, agent: Agent, cell: Cell)
    requires Joins(inputs, joined) && AfterJoin(inputs, joined).Ok?
    ensures |Filter(AfterJoin(inputs, joined).value.opinions, By(agent, cell))| == multiset(Cells(inputs))[cell]
  {
    var cells := Cells(inputs);
    var s := StrategyNode(inputs, joined).value;
    var c := CriticNode(inputs, joined + s).value;
    OpinionsOfRun(inputs, joined, s, c);
    var d := Map(CioNode(inputs, joined + s + c).value, DecisionOpinion);
    StrategyFills(inputs, joined);
    CriticFills(inputs, joined + s);
    ForecastsFill(inputs, joined + s + c);
    JoinedAgentCount(inputs, joined, agent, cell);
    FilterSizes(joined, s, c, d, By(agent, cell));
    FillsOne(s, Strategy, cells, agent, cell);
    FillsOne(c, RiskCritic, cells, agent, cell);
    FillsOne(d, Cio, cells, agent, cell);
  }

  lemma FillsOne(opinions: seq<Opinion>, part: Agent, cells: seq<Cell>, agent: Agent, cell: Cell)
    requires Fills(opinions, part, cells)
    ensures |Filter(opinions, By(agent, cell))| == (if part == agent then multiset(cells)[cell] else 0)
  {
    if part == agent {
      FillsCount(opinions, part, cells, By(agent, cell), cell);
    } else {
      FillsNone(opinions, part, cells, By(agent, cell));
    }
  }

  /** Coverage. For any instrument list and horizon list, if the graph completes then it covered the
      grid exactly: the node checks leave no way to complete with a gap, a surplus or a repeat. */
  lemma CompletedGraphCoversGrid(inputs: Inputs, joined: seq<Opinion>)
    requires Joins(inputs, joined) && AfterJoin(inputs, joined).Ok?
    ensures Complete(inputs, AfterJoin(inputs, joined).value)
  {
    var outcome := AfterJoin(inputs, joined).value;
    var s := StrategyNode(inputs, joined).value;
    var c := CriticNode(inputs, joined + s).value;
    var opinions := joined + s + c;
    GridMembers(inputs.codes, inputs.horizons);
    JoinedAreResearch(inputs, joined);
    StrategyFills(inputs, joined);
    CriticFills(inputs, joined + s);
    ForecastsFill(inputs, opinions);
    forall agent: Agent, code, h | code in inputs.codes && h in inputs.horizons
      ensures |Filter(outcome.opinions, By(agent, Cell(code, h)))| == 1
    {
      assert Cell(code, h) in Cells(inputs);
      AgentCount(inputs, joined, agent, Cell(code, h));
      StrategyChecksDistinct(inputs, joined, Cell(code, h));
    }
    forall code, h | code in inputs.codes && h in inputs.horizons
      ensures |Filter(outcome.forecasts, ForecastOn(Cell(code, h)))| == 1
    {
      assert Cell(code, h) in Cells(inputs);
      ForecastsCount(Cells(inputs), outcome.forecasts, Cell(code, h));
      StrategyChecksDistinct(inputs, joined, Cell(code, h));
    }
    forall o | o in outcome.opinions ensures o.slot.cell in Cells(inputs) {
      FillsMembers(s, Strategy, Cells(inputs));
      FillsMembers(c, RiskCritic, Cells(inputs));
      FillsMembers(Map(outcome.forecasts, DecisionOpinion), Cio, Cells(inputs));
    }
    forall f | f in outcome.forecasts ensures f.cell in Cells(inputs) {
      var i :| 0 <= i < |outcome.forecasts| && outcome.forecasts[i] == f;
      assert f.cell == Cells(inputs)[i];
    }
  }

  lemma FillsMembers(opinions: seq<Opinion>, agent: Agent, cells: seq<Cell>)
    requires Fills(opinions, agent, cells)
    ensures forall o :: o in opinions ==> o.slot.agent == agent && o.slot.cell in cells
  {
    forall o | o in opinions ensures o.slot.agent == agent && o.slot.cell in cells {
      var i :| 0 <= i < |opinions| && opinions[i] == o;
      assert opinions[i].slot == Slot(agent, cells[i]);
    }
  }
}
