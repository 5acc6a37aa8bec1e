/** The loops of the committee nodes, each proved equal to its functional reading. */
module CommitteeNodes {
  import opened Common
  import opened Scoring
  import opened Ranking
  import opened Committee
  import opened CommitteeProofs
  import opened CommitteeConfluence

  // ----- Walking the grid -----

  /** The cells visited before instrument `i`, horizon `j`. */
  function Visited(inputs: Inputs, i: nat, j: nat): seq<Cell>
    requires i < |inputs.codes| && j <= |inputs.horizons|
  {
    Grid(inputs.codes[..i], inputs.horizons) + Row(inputs.codes[i], inputs.horizons[..j])
  }

  lemma VisitedStart(inputs: Inputs, i: nat)
    requires i < |inputs.codes|
    ensures Visited(inputs, i, 0) == Grid(inputs.codes[..i], inputs.horizons)
  {
  }

  lemma VisitedStep(inputs: Inputs, i: nat, j: nat)
    requires i < |inputs.codes| && j < |inputs.horizons|
    ensures Visited(inputs, i, j + 1) == Visited(inputs, i, j) + [Cell(inputs.codes[i], inputs.horizons[j])]
  {
    var hs := inputs.horizons[..j + 1];
    assert hs[..j] == inputs.horizons[..j] && hs[j] == inputs.horizons[j];
  }

  lemma VisitedEnd(inputs: Inputs, i: nat)
    requires i < |inputs.codes|
    ensures Visited(inputs, i, |inputs.horizons|) == Grid(inputs.codes[..i + 1], inputs.horizons)
  {
    assert inputs.horizons[..|inputs.horizons|] == inputs.horizons;
    assert inputs.codes[..i + 1][..i] == inputs.codes[..i];
  }

  lemma {:induction false} RowPrefix(code: Id, horizons: seq<Horizon>, j: nat)
    requires j <= |horizons|
    ensures Row(code, horizons[..j]) <= Row(code, horizons)
  {
    if j < |horizons| {
      var n := |horizons| - 1;
      RowPrefix(code, horizons[..n], j);
      assert horizons[..n][..j] == horizons[..j];
    } else {
      assert horizons[..j] == horizons;
    }
  }

  lemma {:induction false} GridPrefix(codes: seq<Id>, horizons: seq<Horizon>, i: nat)
    requires i <= |codes|
    ensures Grid(codes[..i], horizons) <= Grid(codes, horizons)
  {
    if i < |codes| {
      var n := |codes| - 1;
      GridPrefix(codes[..n], horizons, i);
      assert codes[..n][..i] == codes[..i];
    } else {
      assert codes[..i] == codes;
    }
  }

  lemma VisitedPrefix(inputs: Inputs, i: nat, j: nat)
    requires i < |inputs.codes| && j <= |inputs.horizons|
    ensures Visited(inputs, i, j) <= Cells(inputs)
  {
    RowPrefix(inputs.codes[i], inputs.horizons, j);
    VisitedEnd(inputs, i);
    assert inputs.horizons[..|inputs.horizons|] == inputs.horizons;
    GridPrefix(inputs.codes, inputs.horizons, i + 1);
  }

  lemma CollectStep<T>(cells: seq<Cell>, cell: Cell, make: Cell -> Result<T>)
    requires Collect(cells, make).Ok?
    ensures Collect(cells + [cell], make) ==
            (match make(cell) case Err(e) => Err(e) case Ok(x) => Ok(Collect(cells, make).value + [x]))
  {
    assert (cells + [cell])[..|cells|] == cells;
  }

  /** A cell that raised decides the whole collection. */
  lemma {:induction false} CollectStops<T>(cells: seq<Cell>, more: seq<Cell>, make: Cell -> Result<T>)
    requires cells <= more && Collect(cells, make).Err?
    ensures Collect(more, make) == Collect(cells, make)
  {
    if |cells| < |more| {
      CollectStops(cells, more[..|more| - 1], make);
    } else {
      assert cells == more;
    }
  }

  /** The cell at `(i, j)` raised: the node's result is that error. */
  lemma NodeStops<T>(inputs: Inputs, i: nat, j: nat, make: Cell -> Result<T>)
    requires i < |inputs.codes| && j < |inputs.horizons|
    requires Collect(Visited(inputs, i, j), make).Ok?
    requires make(Cell(inputs.codes[i], inputs.horizons[j])).Err?
    ensures Collect(Cells(inputs), make) == Err(make(Cell(inputs.codes[i], inputs.horizons[j])).error)
  {
    VisitedStep(inputs, i, j);
    CollectStep(Visited(inputs, i, j), Cell(inputs.codes[i], inputs.horizons[j]), make);
    VisitedPrefix(inputs, i, j + 1);
    CollectStops(Visited(inputs, i, j + 1), Cells(inputs), make);
  }

  lemma NodeContinues<T>(inputs: Inputs, i: nat, j: nat, make: Cell -> Result<T>, made: seq<T>)
    requires i < |inputs.codes| && j < |inputs.horizons|
    requires Collect(Visited(inputs, i, j), make) == Ok(made)
    requires make(Cell(inputs.codes[i], inputs.horizons[j])).Ok?
    ensures Collect(Visited(inputs, i, j + 1), make) == Ok(made + [make(Cell(inputs.codes[i], inputs.horizons[j])).value])
  {
    VisitedStep(inputs, i, j);
    CollectStep(Visited(inputs, i, j), Cell(inputs.codes[i], inputs.horizons[j]), make);
  }

  // ----- Citation binding -----

  lemma {:induction false} BindStops(inputs: Inputs, code: Id, page: WikiPage, section: Id, ids: seq<Id>, n: nat)
    requires n <= |ids| && BindAll(inputs, code, page, section, ids[..n]).Err?
    ensures BindAll(inputs, code, page, section, ids) == BindAll(inputs, code, page, section, ids[..n])
  {
    if n < |ids| {
      var last := |ids| - 1;
      assert ids[..last][..n] == ids[..n];
      BindStops(inputs, code, page, section, ids[..last], n);
    } else {
      assert ids[..n] == ids;
    }
  }

  method BindEvidenceCitations(inputs: Inputs, code: Id, page: WikiPage, draft: AgentDraft) returns (r: Result<seq<Citation>>)
    ensures r == BindCitations(inputs, code, page, draft)
  {
    if inputs.live && draft.evidenceIds == [] {
      return Err("live opinions must cite frozen evidence_item_ids");
    }
    if draft.evidenceIds == [] {
      return Ok([Citation(page.entry, page.version, draft.section, None, None)]);
    }
    var ids := draft.evidenceIds;
    var citations: seq<Citation> := [];
    for i := 0 to |ids|
      invariant BindAll(inputs, code, page, draft.section, ids[..i]) == Ok(citations)
    {
      assert ids[..i + 1][..i] == ids[..i];
      var bound := BindOne(inputs, code, page, draft.section, ids[i]);
      if bound.Err? {
        BindStops(inputs, code, page, draft.section, ids, i + 1);
        return Err(bound.error);
      }
      citations := citations + [bound.value];
    }
    assert ids[..|ids|] == ids;
    r := Ok(citations);
  }

  method BuildDraftOpinion(inputs: Inputs, slot: Slot) returns (r: Result<Opinion>)
    ensures r == DraftOpinion(inputs, slot)
  {
    if slot !in inputs.drafts {
      return Err("the provider raised");
    }
    var draft := inputs.drafts[slot];
    var page := WikiFor(inputs, slot, draft);
    if page.Err? {
      return Err(page.error);
    }
    var citations := BindEvidenceCitations(inputs, slot.cell.code, page.value, draft);
    if citations.Err? {
      return Err(citations.error);
    }
    r := Ok(FromDraft(slot, draft, citations.value));
  }

  // ----- The nodes -----

  /** The nested loops of a node: one result per cell, stopping at the first cell that raises. */
  method VisitGrid<T>(inputs: Inputs, make: Cell -> Result<T>) returns (r: Result<seq<T>>)
    ensures r == Collect(Cells(inputs), make)
  {
    var additions: seq<T> := [];
    for i := 0 to |inputs.codes|
      invariant Collect(Grid(inputs.codes[..i], inputs.horizons), make) == Ok(additions)
    {
      VisitedStart(inputs, i);
      for j := 0 to |inputs.horizons|
        invariant Collect(Visited(inputs, i, j), make) == Ok(additions)
      {
        var made := make(Cell(inputs.codes[i], inputs.horizons[j]));
        if made.Err? {
          NodeStops(inputs, i, j, make);
          return Err(made.error);
        }
        NodeContinues(inputs, i, j, make, additions);
        additions := additions + [made.value];
      }
      VisitedEnd(inputs, i);
    }
    assert inputs.codes[..|inputs.codes|] == inputs.codes;
    r := Ok(additions);
  }

  /** A research node asks the provider in every cell, so its loop body is itself a method. */
  method RunResearch(inputs: Inputs, agent: Agent) returns (r: Result<seq<Opinion>>)
    ensures r == Research(inputs, agent)
  {
    var additions: seq<Opinion> := [];
    ghost var make := ResearchMaker(inputs, agent);
    for i := 0 to |inputs.codes|
      invariant Collect(Grid(inputs.codes[..i], inputs.horizons), make) == Ok(additions)
    {
      VisitedStart(inputs, i);
      for j := 0 to |inputs.horizons|
        invariant Collect(Visited(inputs, i, j), make) == Ok(additions)
      {
        var cell := Cell(inputs.codes[i], inputs.horizons[j]);
        var opinion := BuildDraftOpinion(inputs, Slot(agent, cell));
        assert make(cell) == opinion;
        if opinion.Err? {
          NodeStops(inputs, i, j, make);
          return Err(opinion.error);
        }
        NodeContinues(inputs, i, j, make, additions);
        additions := additions + [opinion.value];
      }
      VisitedEnd(inputs, i);
    }
    assert inputs.codes[..|inputs.codes|] == inputs.codes;
    r := Ok(additions);
  }

  method RunStrategy(inputs: Inputs, opinions: seq<Opinion>) returns (r: Result<seq<Opinion>>)
    ensures r == StrategyNode(inputs, opinions)
  {
    var additions := VisitGrid(inputs, StrategyMaker(inputs, opinions));
    if additions.Err? {
      return Err(additions.error);
    }
    r := Annotate(inputs, additions.value);
  }

  method RunCritic(inputs: Inputs, opinions: seq<Opinion>) returns (r: Result<seq<Opinion>>)
    ensures r == CriticNode(inputs, opinions)
  {
    r := VisitGrid(inputs, CriticMaker(inputs, opinions));
  }

  /** The CIO loop grows the forecasts and their decision opinions side by side. */
  method RunCio(inputs: Inputs, opinions: seq<Opinion>) returns (r: Result<(seq<Opinion>, seq<Forecast>)>)
    ensures r.Ok? <==> CioNode(inputs, opinions).Ok?
    ensures r.Ok? ==> r.value.1 == CioNode(inputs, opinions).value && r.value.0 == Map(r.value.1, DecisionOpinion)
    ensures r.Err? ==> r.error == CioNode(inputs, opinions).error
  {
    var forecasts: seq<Forecast> := [];
    var decisions: seq<Opinion> := [];
    ghost var make := CioMaker(inputs, opinions);
    for i := 0 to |inputs.codes|
      invariant Collect(Grid(inputs.codes[..i], inputs.horizons), make) == Ok(forecasts)
      invariant decisions == Map(forecasts, DecisionOpinion)
    {
      VisitedStart(inputs, i);
      for j := 0 to |inputs.horizons|
        invariant Collect(Visited(inputs, i, j), make) == Ok(forecasts)
        invariant decisions == Map(forecasts, DecisionOpinion)
      {
        var cell := Cell(inputs.codes[i], inputs.horizons[j]);
        var forecast := CioForecast(inputs, opinions, cell);
        assert make(cell) == forecast;
        if forecast.Err? {
          NodeStops(inputs, i, j, make);
          return Err(forecast.error);
        }
        NodeContinues(inputs, i, j, make, forecasts);
        MapSnoc(forecasts, forecast.value, DecisionOpinion);
        forecasts := forecasts + [forecast.value];
        decisions := decisions + [DecisionOpinion(forecast.value)];
      }
      VisitedEnd(inputs, i);
    }
    assert inputs.codes[..|inputs.codes|] == inputs.codes;
    r := Ok((decisions, forecasts));
  }

  /** Deduplication by key: one citation per key, no key lost, and a key that occurs again takes the
      later citation. */
  method DeduplicateCitations(citations: seq<Citation>) returns (unique: seq<Citation>)
    ensures unique == Deduplicate(citations)
    ensures Keys(unique) == Keys(citations)
  {
    unique := [];
    for i := 0 to |citations|
      invariant unique == Deduplicate(citations[..i])
    {
      assert citations[..i + 1][..i] == citations[..i];
      unique := Upsert(unique, citations[i]);
    }
    assert citations[..|citations|] == citations;
    DeduplicateKeepsKeys(citations);
  }

  /** `c` is listed at `i` and its key does not occur again. */
  ghost predicate LastAt(citations: seq<Citation>, c: Citation, i: nat) {
    i < |citations| && citations[i] == c && forall j :: i < j < |citations| ==> KeyOf(citations[j]) != KeyOf(c)
  }

  /** No two citations of a deduplicated list share a key, and the last citation of every key wins. */
  lemma {:induction false} DeduplicateLastWins(citations: seq<Citation>, c: Citation)
    requires c in Deduplicate(citations)
    ensures exists i :: LastAt(citations, c, i)
  {
    var n := |citations| - 1;
    var init, last := citations[..n], citations[n];
    assert citations == init + [last];
    UpsertMembers(Deduplicate(init), last);
    if c == last {
      assert LastAt(citations, c, n);
    } else {
      DeduplicateOnePerKey(init);
      UpsertReplaces(Deduplicate(init), last, c);
      DeduplicateLastWins(init, c);
      var i: nat :| LastAt(init, c, i);
      LastAtGrows(init, last, c, i);
    }
  }

  lemma LastAtGrows(init: seq<Citation>, last: Citation, c: Citation, i: nat)
    requires LastAt(init, c, i) && KeyOf(last) != KeyOf(c)
    ensures LastAt(init + [last], c, i)
  {
  }

  ghost predicate OnePerKey(citations: seq<Citation>) {
    forall i, j :: 0 <= i < j < |citations| ==> KeyOf(citations[i]) != KeyOf(citations[j])
  }

  lemma {:induction false} UpsertOnePerKey(unique: seq<Citation>, c: Citation)
    requires OnePerKey(unique)
    ensures OnePerKey(Upsert(unique, c))
  {
    if unique != [] && KeyOf(unique[0]) != KeyOf(c) {
      UpsertOnePerKey(unique[1..], c);
      UpsertMembers(unique[1..], c);
      var rest := Upsert(unique[1..], c);
      forall j | 0 <= j < |rest| ensures KeyOf(unique[0]) != KeyOf(rest[j]) {
        assert rest[j] in rest;
        assert rest[j] == c || rest[j] in unique[1..];
      }
    }
  }

  lemma {:induction false} DeduplicateOnePerKey(citations: seq<Citation>)
    ensures OnePerKey(Deduplicate(citations))
  {
    if citations != [] {
      DeduplicateOnePerKey(citations[..|citations| - 1]);
      UpsertOnePerKey(Deduplicate(citations[..|citations| - 1]), citations[|citations| - 1]);
    }
  }

  lemma {:induction false} UpsertReplaces(unique: seq<Citation>, c: Citation, x: Citation)
    requires x in Upsert(unique, c) && x != c && OnePerKey(unique)
    ensures x in unique && KeyOf(x) != KeyOf(c)
  {
    if unique != [] {
      if KeyOf(unique[0]) == KeyOf(c) {
        assert x in unique[1..];
      } else if x != unique[0] {
        UpsertReplaces(unique[1..], c, x);
      }
    }
  }

  /** One run of the graph from a join of the three research outputs. The result is the spec's. */
  method RunGraph(inputs: Inputs, joined: seq<Opinion>) returns (r: Result<Outcome>)
    requires Joins(inputs, joined)
    ensures r == AfterJoin(inputs, joined)
    ensures r.Ok? ==> Complete(inputs, r.value)
  {
    var strategy := RunStrategy(inputs, joined);
    if strategy.Err? {
      return Err(strategy.error);
    }
    var critic := RunCritic(inputs, joined + strategy.value);
    if critic.Err? {
      return Err(critic.error);
    }
    var opinions := joined + strategy.value + critic.value;
    if !EvidenceValid(inputs, opinions) {
      return Err("invalid citation");
    }
    var cio := RunCio(inputs, opinions);
    if cio.Err? {
      return Err(cio.error);
    }
    r := Ok(Outcome(opinions + cio.value.0, cio.value.1));
    CompletedGraphCoversGrid(inputs, joined);
  }

  /** Re-check every row; the first bad one aborts the whole transaction. */
  method PersistResult(outcome: Outcome) returns (added: Option<Outcome>)
    ensures added == if PersistAccepts(outcome) then Some(outcome) else None
  {
    for i := 0 to |outcome.opinions|
      invariant forall k :: 0 <= k < i ==> OpinionAccepted(outcome.opinions[k])
    {
      if !OpinionAccepted(outcome.opinions[i]) {
        return None;
      }
    }
    for i := 0 to |outcome.forecasts|
      invariant forall k :: 0 <= k < i ==> ForecastAccepted(outcome.forecasts[k])
    {
      if !ForecastAccepted(outcome.forecasts[i]) {
        return None;
      }
    }
    added := Some(outcome);
  }
}
