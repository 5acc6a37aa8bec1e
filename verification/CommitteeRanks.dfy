/** The ranks inside a completed graph: the strategy node's annotation is the tolerance ranking of the
    very probabilities its opinions carry, and it reaches the forecasts. */
module CommitteeRanks {
  import opened Common
  import opened Scoring
  import opened Ranking
  import opened Committee
  import opened CommitteeProofs

  /** An opinion's own score. */
  function Lead(o: Opinion): real {
    o.probabilities.up - o.probabilities.down
  }

  lemma {:induction false} ScoresKeys(opinions: seq<Opinion>)
    ensures ScoresOf(opinions).Keys == ToSet(CodesOf(opinions))
  {
    if opinions != [] {
      var init, last := opinions[..|opinions| - 1], opinions[|opinions| - 1];
      ScoresKeys(init);
      assert CodesOf(opinions) == CodesOf(init) + [last.slot.cell.code];
    }
  }

  /** The score of an instrument is the lead of the opinion on it, when opinions on one instrument agree. */
  lemma {:induction false} ScoresAreLeads(opinions: seq<Opinion>, o: Opinion)
    requires o in opinions
    requires forall p :: p in opinions && p.slot.cell.code == o.slot.cell.code ==> p == o
    ensures o.slot.cell.code in ScoresOf(opinions) && ScoresOf(opinions)[o.slot.cell.code] == Lead(o)
  {
    var init, last := opinions[..|opinions| - 1], opinions[|opinions| - 1];
    assert opinions == init + [last];
    if last.slot.cell.code != o.slot.cell.code {
      ScoresAreLeads(init, o);
    } else {
      assert last in opinions;
    }
  }

  /** The opinions the strategy node collected, before their ranks were attached. */
  function Collected(inputs: Inputs, opinions: seq<Opinion>): seq<Opinion>
    requires StrategyNode(inputs, opinions).Ok?
  {
    Collect(Cells(inputs), StrategyMaker(inputs, opinions)).value
  }

  lemma SameCellSameOpinion(inputs: Inputs, opinions: seq<Opinion>, o: Opinion, p: Opinion)
    requires StrategyNode(inputs, opinions).Ok? && o in Collected(inputs, opinions) && p in Collected(inputs, opinions)
    requires o.slot.cell == p.slot.cell
    ensures o == p
  {
    var cells, make := Cells(inputs), StrategyMaker(inputs, opinions);
    CollectAt(cells, make);
    var i :| 0 <= i < |cells| && Collected(inputs, opinions)[i] == o;
    var j :| 0 <= j < |cells| && Collected(inputs, opinions)[j] == p;
    assert make(cells[i]) == Ok(o) && make(cells[j]) == Ok(p);
    StrategySlot(inputs, opinions, cells[i]);
    StrategySlot(inputs, opinions, cells[j]);
  }

  /** The scores the ranking of one horizon is made from. */
  function ScoresOn(inputs: Inputs, opinions: seq<Opinion>, h: Horizon): Scores
    requires StrategyNode(inputs, opinions).Ok?
  {
    ScoresOf(Filter(Collected(inputs, opinions), OnHorizon(h)))
  }

  lemma ScoreOfOpinion(inputs: Inputs, opinions: seq<Opinion>, o: Opinion)
    requires StrategyNode(inputs, opinions).Ok? && o in Collected(inputs, opinions)
    ensures var scores := ScoresOn(inputs, opinions, o.slot.cell.horizon);
            o.slot.cell.code in scores && scores[o.slot.cell.code] == Lead(o)
  {
    var rows := Filter(Collected(inputs, opinions), OnHorizon(o.slot.cell.horizon));
    FilterMembers(Collected(inputs, opinions), OnHorizon(o.slot.cell.horizon));
    forall p | p in rows && p.slot.cell.code == o.slot.cell.code ensures p == o {
      SameCellSameOpinion(inputs, opinions, o, p);
    }
    ScoresAreLeads(rows, o);
  }

  lemma RankableCodes(inputs: Inputs, opinions: seq<Opinion>, h: Horizon)
    requires CanRank(inputs, opinions, h)
    ensures var rows := Filter(opinions, OnHorizon(h));
            NoDuplicates(Unique(CodesOf(rows))) && ToSet(Unique(CodesOf(rows))) == ScoresOf(rows).Keys == ToSet(inputs.codes)
  {
    var rows := Filter(opinions, OnHorizon(h));
    ScoresKeys(rows);
    UniqueMembers(CodesOf(rows));
  }

  lemma MemberOfSet<T>(xs: seq<T>, ys: set<T>)
    requires ToSet(xs) == ys
    ensures forall x :: x in xs <==> x in ys
  {
    forall x ensures x in xs <==> x in ys {
      assert x in xs <==> x in ToSet(xs);
    }
  }

  lemma PlacesAreRankedIf(codes: seq<Id>, scores: Scores, position: map<Id, nat>)
    requires NoDuplicates(codes) && ToSet(codes) == scores.Keys == position.Keys
    ensures Ranked(PlacesIfRankable(codes, scores, position), scores)
  {
    MemberOfSet(codes, scores.Keys);
    RankPlacesAreRanked(codes, scores, position);
  }

  lemma PlacesOnAreRanked(inputs: Inputs, opinions: seq<Opinion>, h: Horizon)
    requires CanRank(inputs, opinions, h)
    ensures ScoresOf(Filter(opinions, OnHorizon(h))).Keys == ToSet(inputs.codes)
    ensures Ranked(PlacesOn(inputs, opinions, h), ScoresOf(Filter(opinions, OnHorizon(h))))
  {
    RankableCodes(inputs, opinions, h);
    var rows := Filter(opinions, OnHorizon(h));
    PlacesAreRankedIf(Unique(CodesOf(rows)), ScoresOf(rows), Positions(inputs.codes));
  }

  /** What an annotated opinion carries. */
  ghost predicate CarriesPlace(o: Opinion, places: map<Id, Place>, scores: Scores) {
    && o.slot.cell.code in places && o.place == Some(places[o.slot.cell.code])
    && o.slot.cell.code in scores && scores[o.slot.cell.code] == o.probabilities.up - o.probabilities.down
  }

  /** Every strategy opinion of a run that got past the strategy node carries its place in the tolerance
      ranking of its horizon: competition ranks with exact tie flags over exactly the instruments, scored
      by the opinions' own leads. */
  lemma StrategyPlacesAreRanked(inputs: Inputs, opinions: seq<Opinion>, h: Horizon) returns (places: map<Id, Place>, scores: Scores)
    requires StrategyNode(inputs, opinions).Ok? && h in inputs.horizons
    ensures scores.Keys == ToSet(inputs.codes) && Ranked(places, scores)
    ensures forall o :: o in StrategyNode(inputs, opinions).value && o.slot.cell.horizon == h ==> CarriesPlace(o, places, scores)
  {
    var collected := Collected(inputs, opinions);
    places, scores := PlacesOn(inputs, collected, h), ScoresOn(inputs, opinions, h);
    assert CanRank(inputs, collected, h);
    PlacesOnAreRanked(inputs, collected, h);
    forall o | o in StrategyNode(inputs, opinions).value && o.slot.cell.horizon == h ensures CarriesPlace(o, places, scores) {
      AnnotatedOpinion(inputs, opinions, o);
    }
  }

  lemma AnnotatedOpinion(inputs: Inputs, opinions: seq<Opinion>, o: Opinion)
    requires StrategyNode(inputs, opinions).Ok? && o in StrategyNode(inputs, opinions).value
    requires o.slot.cell.horizon in inputs.horizons
    ensures CarriesPlace(o, PlacesOn(inputs, Collected(inputs, opinions), o.slot.cell.horizon), ScoresOn(inputs, opinions, o.slot.cell.horizon))
  {
    var bare := BareOpinion(inputs, opinions, o);
    ScoreOfOpinion(inputs, opinions, bare);
    assert CanRank(inputs, Collected(inputs, opinions), o.slot.cell.horizon);
    PlacesOnAreRanked(inputs, Collected(inputs, opinions), o.slot.cell.horizon);
  }

  lemma BareOpinion(inputs: Inputs, opinions: seq<Opinion>, o: Opinion) returns (bare: Opinion)
    requires StrategyNode(inputs, opinions).Ok? && o in StrategyNode(inputs, opinions).value
    ensures bare in Collected(inputs, opinions) && o == WithPlace(inputs, Collected(inputs, opinions), bare)
    ensures o.slot == bare.slot && o.probabilities == bare.probabilities
  {
    var collected, all := Collected(inputs, opinions), StrategyNode(inputs, opinions).value;
    var i :| 0 <= i < |all| && all[i] == o;
    bare := collected[i];
    assert o == WithPlace(inputs, collected, bare);
    PlaceKeepsRest(inputs, collected, bare);
    assert o.(place := None).slot == bare.slot && o.(place := None).probabilities == bare.probabilities;
  }
}
