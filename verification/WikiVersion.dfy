/** The sealed `wiki_version` of a forecast, the one output that can see the order in which the parallel
    research outputs were joined: when it does not, exactly. */
module WikiVersion {
  import opened Common
  import opened Scoring
  import opened Ranking
  import opened Committee
  import opened CommitteeProofs
  import opened CommitteeConfluence

  // ----- The keys of a deduplicated list -----

  function KeysOf(citations: seq<Citation>): seq<CitationKey> {
    Map(citations, KeyOf)
  }

  function Pairs(keys: seq<CitationKey>): seq<(Id, Id)> {
    Map(keys, (k: CitationKey) => (k.entry, k.version))
  }

  /** What `Upsert` does to the keys. */
  function UpsertKey(keys: seq<CitationKey>, k: CitationKey): seq<CitationKey> {
    if keys == [] then [k] else if keys[0] == k then keys else [keys[0]] + UpsertKey(keys[1..], k)
  }

  lemma {:induction false} UpsertOnKeys(unique: seq<Citation>, c: Citation)
    ensures KeysOf(Upsert(unique, c)) == UpsertKey(KeysOf(unique), KeyOf(c))
  {
    if unique != [] {
      UpsertOnKeys(unique[1..], c);
      assert KeysOf(unique)[1..] == KeysOf(unique[1..]);
    }
  }

  lemma {:induction false} UpsertKeyAppends(keys: seq<CitationKey>, k: CitationKey)
    ensures UpsertKey(keys, k) == if k in keys then keys else keys + [k]
  {
    if keys != [] && keys[0] != k {
      UpsertKeyAppends(keys[1..], k);
      assert keys == [keys[0]] + keys[1..];
    }
  }

  /** The dictionary lists every key where it first occurred. */
  lemma {:induction false} DeduplicateKeyOrder(citations: seq<Citation>)
    ensures KeysOf(Deduplicate(citations)) == Unique(KeysOf(citations))
  {
    if citations != [] {
      var init, last := citations[..|citations| - 1], citations[|citations| - 1];
      DeduplicateKeyOrder(init);
      UpsertOnKeys(Deduplicate(init), last);
      UpsertKeyAppends(KeysOf(Deduplicate(init)), KeyOf(last));
      assert KeysOf(citations)[..|citations| - 1] == KeysOf(init);
    }
  }

  function NotIn<T(==)>(xs: seq<T>): T -> bool {
    (x: T) => x !in xs
  }

  lemma {:induction false} UniqueConcat<T>(xs: seq<T>, ys: seq<T>)
    ensures Unique(xs + ys) == Unique(xs) + Filter(Unique(ys), NotIn(xs))
  {
    if ys == [] {
      assert xs + ys == xs;
    } else {
      var init, y := ys[..|ys| - 1], ys[|ys| - 1];
      UniqueConcat(xs, init);
      assert ys == init + [y] && xs + ys == (xs + init) + [y];
      UniqueConcatStep(xs, init, y);
    }
  }

  lemma UniqueConcatStep<T>(xs: seq<T>, init: seq<T>, y: T)
    requires Unique(xs + init) == Unique(xs) + Filter(Unique(init), NotIn(xs))
    ensures Unique(xs + init + [y]) == Unique(xs) + Filter(Unique(init + [y]), NotIn(xs))
  {
    UniqueSnoc(xs + init, y);
    UniqueSnoc(init, y);
    FilterSnoc(Unique(init), y, NotIn(xs));
  }

  lemma {:induction false} CitationsConcat(opinions: seq<Opinion>, last: Opinion)
    ensures CitationsOf(opinions + [last]) == CitationsOf(opinions) + last.citations
  {
    assert (opinions + [last])[..|opinions|] == opinions;
  }

  lemma KeysConcat(xs: seq<Citation>, ys: seq<Citation>)
    ensures KeysOf(xs + ys) == KeysOf(xs) + KeysOf(ys)
  {
  }

  /** The version of a forecast in two parts: the research keys, then what the strategy adds. */
  lemma VersionParts(research: seq<Opinion>, strategy: Opinion)
    ensures var keys := KeysOf(CitationsOf(research));
            WikiVersions(Deduplicate(CitationsOf(research + [strategy]))) ==
              Pairs(Unique(keys)) + Pairs(Filter(Unique(KeysOf(strategy.citations)), NotIn(keys)))
  {
    var keys, added := KeysOf(CitationsOf(research)), KeysOf(strategy.citations);
    CitationsConcat(research, strategy);
    KeysConcat(CitationsOf(research), strategy.citations);
    VersionOf(CitationsOf(research + [strategy]), keys + added);
    UniqueConcat(keys, added);
    PairsConcat(Unique(keys), Filter(Unique(added), NotIn(keys)));
  }

  lemma VersionOf(all: seq<Citation>, keys: seq<CitationKey>)
    requires KeysOf(all) == keys
    ensures WikiVersions(Deduplicate(all)) == Pairs(Unique(keys))
  {
    DeduplicateKeyOrder(all);
    VersionsArePairs(Deduplicate(all));
  }

  lemma VersionsArePairs(citations: seq<Citation>)
    ensures WikiVersions(citations) == Pairs(KeysOf(citations))
  {
  }

  lemma PairsConcat(xs: seq<CitationKey>, ys: seq<CitationKey>)
    ensures Pairs(xs + ys) == Pairs(xs) + Pairs(ys)
  {
  }

  // ----- Research from one page -----

  ghost predicate AllFrom(keys: seq<CitationKey>, page: (Id, Id)) {
    forall k :: k in keys ==> (k.entry, k.version) == page
  }

  lemma UniformPairs(keys: seq<CitationKey>, page: (Id, Id))
    requires AllFrom(keys, page)
    ensures |Pairs(Unique(keys))| == |ToSet(keys)|
    ensures forall i :: 0 <= i < |Pairs(Unique(keys))| ==> Pairs(Unique(keys))[i] == page
  {
    UniqueMembers(keys);
    DistinctSize(Unique(keys));
    forall i | 0 <= i < |Unique(keys)| ensures Pairs(Unique(keys))[i] == page {
      InUnique(keys, Unique(keys)[i]);
    }
  }

  lemma FilterSame<T>(xs: seq<T>, f: T -> bool, g: T -> bool)
    requires forall x :: f(x) == g(x)
    ensures Filter(xs, f) == Filter(xs, g)
  {
  }

  /** Two orders of the same research, all of it from one page, seal the same version. */
  lemma UniformVersion(research: seq<Opinion>, other: seq<Opinion>, strategy: Opinion, page: (Id, Id))
    requires multiset(research) == multiset(other) && AllFrom(KeysOf(CitationsOf(research)), page)
    ensures WikiVersions(Deduplicate(CitationsOf(research + [strategy]))) == WikiVersions(Deduplicate(CitationsOf(other + [strategy])))
  {
    var keys, keys' := KeysOf(CitationsOf(research)), KeysOf(CitationsOf(other));
    SameKeyMembers(research, other);
    assert ToSet(keys) == ToSet(keys');
    UniformPairs(keys, page);
    UniformPairs(keys', page);
    assert Pairs(Unique(keys)) == Pairs(Unique(keys'));
    FilterSame(Unique(KeysOf(strategy.citations)), NotIn(keys), NotIn(keys'));
    VersionParts(research, strategy);
    VersionParts(other, strategy);
  }

  lemma SameKeyMembers(research: seq<Opinion>, other: seq<Opinion>)
    requires multiset(research) == multiset(other)
    ensures forall k :: k in KeysOf(CitationsOf(research)) <==> k in KeysOf(CitationsOf(other))
  {
    PermutationMembers(research, other);
    CombinedMembers(research);
    CombinedMembers(other);
    forall k ensures k in KeysOf(CitationsOf(research)) <==> k in KeysOf(CitationsOf(other)) {
      KeyMember(CitationsOf(research), k);
      KeyMember(CitationsOf(other), k);
    }
  }

  lemma KeyMember(citations: seq<Citation>, k: CitationKey)
    ensures k in KeysOf(citations) <==> exists c :: c in citations && KeyOf(c) == k
  {
    if k in KeysOf(citations) {
      var i :| 0 <= i < |citations| && KeysOf(citations)[i] == k;
      assert citations[i] in citations;
    }
    if c :| c in citations && KeyOf(c) == k {
      var i :| 0 <= i < |citations| && citations[i] == c;
      assert KeysOf(citations)[i] == k;
    }
  }

  // ----- What a research opinion cites -----

  function PageOf(inputs: Inputs, agent: Agent, code: Id): (Id, Id) {
    if (agent, code) in inputs.wiki then (inputs.wiki[(agent, code)].entry, inputs.wiki[(agent, code)].version) else (Id(""), Id(""))
  }

  lemma {:induction false} BoundToPage(inputs: Inputs, code: Id, page: WikiPage, section: Id, ids: seq<Id>)
    requires BindAll(inputs, code, page, section, ids).Ok?
    ensures var bound := BindAll(inputs, code, page, section, ids).value;
            |bound| == |ids| && forall c :: c in bound ==> (c.entry, c.version) == (page.entry, page.version)
  {
    if ids != [] {
      BoundToPage(inputs, code, page, section, ids[..|ids| - 1]);
    }
  }

  ghost predicate CitesPage(o: Opinion, page: (Id, Id)) {
    o.citations != [] && forall c :: c in o.citations ==> (c.entry, c.version) == page
  }

  lemma DraftCitesPage(inputs: Inputs, slot: Slot)
    requires DraftOpinion(inputs, slot).Ok?
    ensures CitesPage(DraftOpinion(inputs, slot).value, PageOf(inputs, slot.agent, slot.cell.code))
  {
    var draft := inputs.drafts[slot];
    var page := WikiFor(inputs, slot, draft).value;
    if draft.evidenceIds != [] {
      BoundToPage(inputs, slot.cell.code, page, draft.section, draft.evidenceIds);
    }
  }

  lemma ResearchCitesPage(inputs: Inputs, agent: Agent, o: Opinion)
    requires Research(inputs, agent).Ok? && o in Research(inputs, agent).value
    ensures o.slot.agent == agent && CitesPage(o, PageOf(inputs, agent, o.slot.cell.code))
  {
    var cells, make := Cells(inputs), ResearchMaker(inputs, agent);
    CollectAt(cells, make);
    var i :| 0 <= i < |cells| && Research(inputs, agent).value[i] == o;
    assert make(cells[i]) == Ok(o);
    DraftCitesPage(inputs, Slot(agent, cells[i]));
  }

  lemma JoinedCitesPage(inputs: Inputs, joined: seq<Opinion>, o: Opinion)
    requires Joins(inputs, joined) && o in joined
    ensures IsResearch(o.slot.agent) && CitesPage(o, PageOf(inputs, o.slot.agent, o.slot.cell.code))
  {
    var m, n, a := Research(inputs, MacroPolicy).value, Research(inputs, MarketNews).value, Research(inputs, AiStorage).value;
    PermutationMembers(joined, m + n + a);
    if o in m {
      ResearchCitesPage(inputs, MacroPolicy, o);
    } else if o in n {
      ResearchCitesPage(inputs, MarketNews, o);
    } else {
      ResearchCitesPage(inputs, AiStorage, o);
    }
  }

  // ----- The forecast of one cell -----

  /** What the nodes after the join added. */
  function Rest(inputs: Inputs, joined: seq<Opinion>): seq<Opinion>
    requires StrategyNode(inputs, joined).Ok? && CriticNode(inputs, joined + StrategyNode(inputs, joined).value).Ok?
  {
    var s := StrategyNode(inputs, joined).value;
    s + CriticNode(inputs, joined + s).value
  }

  lemma RestIsNotResearch(inputs: Inputs, joined: seq<Opinion>)
    requires AfterJoin(inputs, joined).Ok?
    ensures forall o :: o in Rest(inputs, joined) ==> !IsResearch(o.slot.agent)
  {
    var s := StrategyNode(inputs, joined).value;
    StrategyFills(inputs, joined);
    CriticFills(inputs, joined + s);
    FillsMembers(s, Strategy, Cells(inputs));
    FillsMembers(CriticNode(inputs, joined + s).value, RiskCritic, Cells(inputs));
  }

  function VersionAt(inputs: Inputs, joined: seq<Opinion>, i: nat): seq<(Id, Id)>
    requires AfterJoin(inputs, joined).Ok? && i < |AfterJoin(inputs, joined).value.forecasts|
  {
    AfterJoin(inputs, joined).value.forecasts[i].wikiVersion
  }

  /** The sealed version of a cell reads the joined list only through its research on that cell. */
  lemma VersionOfCell(inputs: Inputs, joined: seq<Opinion>, i: nat) returns (strategy: Opinion)
    requires Joins(inputs, joined) && AfterJoin(inputs, joined).Ok? && i < |Cells(inputs)|
    ensures |AfterJoin(inputs, joined).value.forecasts| == |Cells(inputs)|
    ensures First(Rest(inputs, joined), By(Strategy, Cells(inputs)[i])) == Some(strategy)
    ensures VersionAt(inputs, joined, i) ==
            WikiVersions(Deduplicate(CitationsOf(Filter(joined, ResearchOn(Cells(inputs)[i])) + [strategy])))
  {
    var cell := Cells(inputs)[i];
    var rest := Rest(inputs, joined);
    ForecastAt(inputs, joined, i);
    strategy := VersionOfForecast(inputs, joined + rest, cell);
    StrategyIsInRest(inputs, joined, cell);
    ResearchOnly(inputs, joined, cell);
  }

  lemma StrategyIsInRest(inputs: Inputs, joined: seq<Opinion>, cell: Cell)
    requires Joins(inputs, joined) && AfterJoin(inputs, joined).Ok?
    ensures First(joined + Rest(inputs, joined), By(Strategy, cell)) == First(Rest(inputs, joined), By(Strategy, cell))
  {
    JoinedAreResearch(inputs, joined);
    FirstSkipsResearch(joined, [], Rest(inputs, joined), Strategy, cell);
    assert [] + Rest(inputs, joined) == Rest(inputs, joined);
  }

  lemma ForecastAt(inputs: Inputs, joined: seq<Opinion>, i: nat)
    requires AfterJoin(inputs, joined).Ok? && i < |Cells(inputs)|
    ensures |AfterJoin(inputs, joined).value.forecasts| == |Cells(inputs)|
    ensures CioForecast(inputs, joined + Rest(inputs, joined), Cells(inputs)[i]) == Ok(AfterJoin(inputs, joined).value.forecasts[i])
  {
    CompletedForecasts(inputs, joined);
    CioAt(inputs, joined + Rest(inputs, joined), i);
  }

  lemma CompletedForecasts(inputs: Inputs, joined: seq<Opinion>)
    requires AfterJoin(inputs, joined).Ok?
    ensures CioNode(inputs, joined + Rest(inputs, joined)) == Ok(AfterJoin(inputs, joined).value.forecasts)
  {
    var s := StrategyNode(inputs, joined).value;
    var c := CriticNode(inputs, joined + s).value;
    CriticPasses(inputs, joined, s);
    CioStage(inputs, joined + s + c);
    Regroup(joined, s, c);
  }

  lemma CriticPasses(inputs: Inputs, joined: seq<Opinion>, s: seq<Opinion>)
    requires AfterStrategy(inputs, joined, s).Ok?
    ensures CriticNode(inputs, joined + s).Ok?
    ensures AfterStrategy(inputs, joined, s) == AfterCritic(inputs, joined + s + CriticNode(inputs, joined + s).value)
  {
  }

  lemma CioStage(inputs: Inputs, opinions: seq<Opinion>)
    requires AfterCritic(inputs, opinions).Ok?
    ensures CioNode(inputs, opinions) == Ok(AfterCritic(inputs, opinions).value.forecasts)
  {
  }

  lemma CioAt(inputs: Inputs, opinions: seq<Opinion>, i: nat)
    requires CioNode(inputs, opinions).Ok? && i < |Cells(inputs)|
    ensures |CioNode(inputs, opinions).value| == |Cells(inputs)|
    ensures CioForecast(inputs, opinions, Cells(inputs)[i]) == Ok(CioNode(inputs, opinions).value[i])
  {
    CollectAt(Cells(inputs), CioMaker(inputs, opinions));
    assert CioMaker(inputs, opinions)(Cells(inputs)[i]) == CioForecast(inputs, opinions, Cells(inputs)[i]);
  }

  lemma VersionOfForecast(inputs: Inputs, opinions: seq<Opinion>, cell: Cell) returns (strategy: Opinion)
    requires CioForecast(inputs, opinions, cell).Ok?
    ensures First(opinions, By(Strategy, cell)) == Some(strategy)
    ensures CioForecast(inputs, opinions, cell).value.wikiVersion ==
            WikiVersions(Deduplicate(CitationsOf(Filter(opinions, ResearchOn(cell)) + [strategy])))
  {
    strategy := First(opinions, By(Strategy, cell)).value;
  }

  lemma ResearchOnly(inputs: Inputs, joined: seq<Opinion>, cell: Cell)
    requires Joins(inputs, joined) && AfterJoin(inputs, joined).Ok?
    ensures Filter(joined + Rest(inputs, joined), ResearchOn(cell)) == Filter(joined, ResearchOn(cell))
  {
    RestIsNotResearch(inputs, joined);
    FilterNone(Rest(inputs, joined), ResearchOn(cell));
    FilterConcat(joined, Rest(inputs, joined), ResearchOn(cell));
  }

  lemma SameRest(inputs: Inputs, joined: seq<Opinion>, other: seq<Opinion>)
    requires Joins(inputs, joined) && Joins(inputs, other) && AfterJoin(inputs, joined).Ok? && AfterJoin(inputs, other).Ok?
    ensures Rest(inputs, joined) == Rest(inputs, other)
  {
    StrategyNodeSeesABag(inputs, joined, other);
    var s := StrategyNode(inputs, joined).value;
    assert multiset(joined + s) == multiset(other + s);
    CriticNodeSeesABag(inputs, joined + s, other + s);
  }

  // ----- The exact condition -----

  /** The three research agents were given the same page, in the same version, for the instrument. */
  predicate PagesAgree(inputs: Inputs, code: Id) {
    PageOf(inputs, MacroPolicy, code) == PageOf(inputs, MarketNews, code) == PageOf(inputs, AiStorage, code)
  }

  /** Every join of the research that completes seals the same version for the `i`-th cell. */
  ghost predicate VersionIsStable(inputs: Inputs, i: nat) {
    forall joined, other ::
      Joins(inputs, joined) && Joins(inputs, other) && AfterJoin(inputs, joined).Ok? && AfterJoin(inputs, other).Ok? &&
      i < |AfterJoin(inputs, joined).value.forecasts| && i < |AfterJoin(inputs, other).value.forecasts| ==>
        VersionAt(inputs, joined, i) == VersionAt(inputs, other, i)
  }

  lemma AgreeingPagesSealOneVersion(inputs: Inputs, joined: seq<Opinion>, other: seq<Opinion>, i: nat)
    requires Joins(inputs, joined) && Joins(inputs, other) && AfterJoin(inputs, joined).Ok? && AfterJoin(inputs, other).Ok?
    requires i < |Cells(inputs)| && PagesAgree(inputs, Cells(inputs)[i].code)
    ensures i < |AfterJoin(inputs, joined).value.forecasts| && i < |AfterJoin(inputs, other).value.forecasts|
    ensures VersionAt(inputs, joined, i) == VersionAt(inputs, other, i)
  {
    var cell := Cells(inputs)[i];
    var page := PageOf(inputs, MacroPolicy, cell.code);
    var strategy := VersionOfCell(inputs, joined, i);
    var strategy' := VersionOfCell(inputs, other, i);
    SameRest(inputs, joined, other);
    FilterPermutation(joined, other, ResearchOn(cell));
    ResearchFromPage(inputs, joined, cell, page);
    UniformVersion(Filter(joined, ResearchOn(cell)), Filter(other, ResearchOn(cell)), strategy, page);
  }

  lemma ResearchFromPage(inputs: Inputs, joined: seq<Opinion>, cell: Cell, page: (Id, Id))
    requires Joins(inputs, joined) && PagesAgree(inputs, cell.code) && page == PageOf(inputs, MacroPolicy, cell.code)
    ensures AllFrom(KeysOf(CitationsOf(Filter(joined, ResearchOn(cell)))), page)
  {
    var research := Filter(joined, ResearchOn(cell));
    FilterMembers(joined, ResearchOn(cell));
    CombinedMembers(research);
    forall k | k in KeysOf(CitationsOf(research)) ensures (k.entry, k.version) == page {
      KeyMember(CitationsOf(research), k);
      var c :| c in CitationsOf(research) && KeyOf(c) == k;
      var o :| o in research && c in o.citations;
      JoinedCitesPage(inputs, joined, o);
    }
  }

  lemma {:induction false} CitationsHead(opinions: seq<Opinion>)
    requires opinions != [] && opinions[0].citations != []
    ensures CitationsOf(opinions) != [] && CitationsOf(opinions)[0] == opinions[0].citations[0]
  {
    if |opinions| > 1 {
      CitationsHead(opinions[..|opinions| - 1]);
    } else {
      assert opinions[..0] == [] && CitationsOf([]) == [];
    }
  }

  lemma {:induction false} UniqueHead<T>(xs: seq<T>)
    requires xs != []
    ensures Unique(xs) != [] && Unique(xs)[0] == xs[0]
  {
    if |xs| > 1 {
      UniqueHead(xs[..|xs| - 1]);
    } else {
      assert xs[..0] == [];
    }
  }

  lemma OwnResearch(inputs: Inputs, agent: Agent, cell: Cell)
    requires IsResearch(agent) && Research(inputs, agent).Ok? && cell in Cells(inputs)
    ensures var own := Filter(Research(inputs, agent).value, ResearchOn(cell));
            own != [] && CitesPage(own[0], PageOf(inputs, agent, cell.code))
  {
    var own := Filter(Research(inputs, agent).value, ResearchOn(cell));
    ResearchFills(inputs, agent);
    FillsCount(Research(inputs, agent).value, agent, Cells(inputs), ResearchOn(cell), cell);
    FilterMembers(Research(inputs, agent).value, ResearchOn(cell));
    assert own[0] in own;
    ResearchCitesPage(inputs, agent, own[0]);
  }

  /** The first key of a version is the first key of the first research opinion. */
  lemma VersionHead(research: seq<Opinion>, strategy: Opinion)
    requires research != [] && research[0].citations != []
    ensures var version := WikiVersions(Deduplicate(CitationsOf(research + [strategy])));
            version != [] && version[0] == (research[0].citations[0].entry, research[0].citations[0].version)
  {
    CitationsHead(research);
    UniqueHead(KeysOf(CitationsOf(research)));
    VersionParts(research, strategy);
  }

  lemma FirstResearch(inputs: Inputs, agent: Agent, tail: seq<Opinion>, cell: Cell)
    requires IsResearch(agent) && Research(inputs, agent).Ok? && cell in Cells(inputs)
    ensures var research := Filter(Research(inputs, agent).value + tail, ResearchOn(cell));
            research != [] && CitesPage(research[0], PageOf(inputs, agent, cell.code))
  {
    OwnResearch(inputs, agent, cell);
    FilterConcat(Research(inputs, agent).value, tail, ResearchOn(cell));
  }

  /** A join that starts with one agent's research seals that agent's page first. */
  lemma FirstAgentLeads(inputs: Inputs, agent: Agent, tail: seq<Opinion>, i: nat)
    requires IsResearch(agent) && Research(inputs, agent).Ok? && Joins(inputs, Research(inputs, agent).value + tail)
    requires AfterJoin(inputs, Research(inputs, agent).value + tail).Ok? && i < |Cells(inputs)|
    ensures i < |AfterJoin(inputs, Research(inputs, agent).value + tail).value.forecasts|
    ensures var version := VersionAt(inputs, Research(inputs, agent).value + tail, i);
            version != [] && version[0] == PageOf(inputs, agent, Cells(inputs)[i].code)
  {
    var cell := Cells(inputs)[i];
    var joined := Research(inputs, agent).value + tail;
    var strategy := VersionOfCell(inputs, joined, i);
    FirstResearch(inputs, agent, tail, cell);
    var research := Filter(joined, ResearchOn(cell));
    assert research[0].citations[0] in research[0].citations;
    VersionHead(research, strategy);
  }

  /** Three of the orders the reducer can produce. */
  function JoinFrom(inputs: Inputs, first: Agent): seq<Opinion>
    requires Research(inputs, MacroPolicy).Ok? && Research(inputs, MarketNews).Ok? && Research(inputs, AiStorage).Ok?
  {
    var m, n, a := Research(inputs, MacroPolicy).value, Research(inputs, MarketNews).value, Research(inputs, AiStorage).value;
    match first
    case MacroPolicy => m + (n + a)
    case MarketNews => n + (m + a)
    case _ => a + (m + n)
  }

  lemma JoinFromJoins(inputs: Inputs, joined: seq<Opinion>, first: Agent)
    requires Joins(inputs, joined)
    ensures Joins(inputs, JoinFrom(inputs, first))
  {
  }

  function JoinTail(inputs: Inputs, first: Agent): seq<Opinion>
    requires Research(inputs, MacroPolicy).Ok? && Research(inputs, MarketNews).Ok? && Research(inputs, AiStorage).Ok?
  {
    var m, n, a := Research(inputs, MacroPolicy).value, Research(inputs, MarketNews).value, Research(inputs, AiStorage).value;
    match first
    case MacroPolicy => n + a
    case MarketNews => m + a
    case _ => m + n
  }

  lemma JoinFromLeads(inputs: Inputs, joined: seq<Opinion>, first: Agent, i: nat)
    requires Joins(inputs, joined) && AfterJoin(inputs, joined).Ok? && i < |Cells(inputs)| && IsResearch(first)
    ensures Joins(inputs, JoinFrom(inputs, first)) && AfterJoin(inputs, JoinFrom(inputs, first)).Ok?
    ensures i < |AfterJoin(inputs, JoinFrom(inputs, first)).value.forecasts|
    ensures var version := VersionAt(inputs, JoinFrom(inputs, first), i);
            version != [] && version[0] == PageOf(inputs, first, Cells(inputs)[i].code)
  {
    JoinFromJoins(inputs, joined, first);
    JoinOrderIsInvisible(inputs, joined, JoinFrom(inputs, first));
    assert JoinFrom(inputs, first) == Research(inputs, first).value + JoinTail(inputs, first);
    FirstAgentLeads(inputs, first, JoinTail(inputs, first), i);
  }

  /** Order independence of the sealed version, exactly: for a run that completes, it holds of a cell if
      and only if the three research agents were given one page in one version for its instrument. */
  lemma WikiVersionIsStableIff(inputs: Inputs, joined: seq<Opinion>, i: nat)
    requires Joins(inputs, joined) && AfterJoin(inputs, joined).Ok? && i < |Cells(inputs)|
    ensures VersionIsStable(inputs, i) <==> PagesAgree(inputs, Cells(inputs)[i].code)
  {
    if PagesAgree(inputs, Cells(inputs)[i].code) {
      forall one, two | Joins(inputs, one) && Joins(inputs, two) && AfterJoin(inputs, one).Ok? && AfterJoin(inputs, two).Ok?
        ensures i < |AfterJoin(inputs, one).value.forecasts| && i < |AfterJoin(inputs, two).value.forecasts|
        ensures VersionAt(inputs, one, i) == VersionAt(inputs, two, i)
      {
        AgreeingPagesSealOneVersion(inputs, one, two, i);
      }
    } else {
      JoinFromLeads(inputs, joined, MacroPolicy, i);
      JoinFromLeads(inputs, joined, MarketNews, i);
      JoinFromLeads(inputs, joined, AiStorage, i);
    }
  }
}
