/** Keyset pagination of agent traces: the listing is ordered by start time and id, both descending, and
    every page but the first resumes strictly after the row its cursor names. */
module TracePages {
  import opened Common
  import opened TraceCursor

  datatype Trace = Trace(
    id: string, startedAt: int, kind: Id, status: Id, target: Option<Id>, horizon: Option<Id>, agents: set<Id>)

  /** The query parameters; an absent or empty one filters nothing. */
  datatype Query = Query(
    kind: Option<Id>, status: Option<Id>, target: Option<Id>, horizon: Option<Id>, agent: Option<Id>,
    from: Option<int>, to: Option<int>)

  datatype Page = Page(items: seq<Trace>, next: Option<string>)

  predicate Wanted<T(==)>(parameter: Option<T>, value: Option<T>) {
    parameter.Some? ==> parameter == value
  }

  function Matches(q: Query): Trace -> bool {
    (t: Trace) =>
      && Wanted(q.kind, Some(t.kind)) && Wanted(q.status, Some(t.status))
      && Wanted(q.target, t.target) && Wanted(q.horizon, t.horizon)
      && (q.agent.Some? ==> q.agent.value in t.agents)
      && (q.from.Some? ==> t.startedAt >= q.from.value) && (q.to.Some? ==> t.startedAt <= q.to.value)
  }

  // ----- The order -----

  /** A row of the listing, or the place a cursor names. */
  datatype Place = Place(startedAt: int, id: string)

  function PlaceOf(t: Trace): Place {
    Place(t.startedAt, t.id)
  }

  /** `a` is listed before `b`. */
  predicate Before(a: Place, b: Place) {
    b.startedAt < a.startedAt || (b.startedAt == a.startedAt && TextBefore(b.id, a.id))
  }

  lemma BeforeIsOrder(a: Place, b: Place, c: Place)
    ensures !Before(a, a)
    ensures Before(a, b) && Before(b, c) ==> Before(a, c)
    ensures a == b || Before(a, b) || Before(b, a)
  {
    TextOrder(a.id, a.id, a.id);
    TextOrder(c.id, b.id, a.id);
    TextOrder(a.id, b.id, a.id);
  }

  predicate Listed(xs: seq<Trace>) {
    |xs| < 2 || (Before(PlaceOf(xs[0]), PlaceOf(xs[1])) && Listed(xs[1..]))
  }

  function Insert(xs: seq<Trace>, t: Trace): seq<Trace> {
    if xs == [] || Before(PlaceOf(t), PlaceOf(xs[0])) then [t] + xs else [xs[0]] + Insert(xs[1..], t)
  }

  /** `ORDER BY started_at DESC, id DESC` */
  function OrderBy(xs: seq<Trace>): seq<Trace> {
    if xs == [] then [] else Insert(OrderBy(xs[1..]), xs[0])
  }

  lemma {:induction false} InsertMembers(xs: seq<Trace>, t: Trace)
    ensures ToSet(Insert(xs, t)) == ToSet(xs) + {t}
    ensures |Insert(xs, t)| == |xs| + 1
    ensures Insert(xs, t)[0] == t || (xs != [] && Insert(xs, t)[0] == xs[0])
  {
    if xs != [] && !Before(PlaceOf(t), PlaceOf(xs[0])) {
      InsertMembers(xs[1..], t);
      assert xs == [xs[0]] + xs[1..];
      assert ToSet(Insert(xs, t)) == {xs[0]} + ToSet(Insert(xs[1..], t));
      assert ToSet(xs) == {xs[0]} + ToSet(xs[1..]);
    }
  }

  lemma {:induction false} OrderByMembers(xs: seq<Trace>)
    ensures ToSet(OrderBy(xs)) == ToSet(xs)
  {
    if xs != [] {
      OrderByMembers(xs[1..]);
      InsertMembers(OrderBy(xs[1..]), xs[0]);
      assert xs == [xs[0]] + xs[1..];
      assert ToSet(xs) == {xs[0]} + ToSet(xs[1..]);
    }
  }

  /** The places of the rows are pairwise different: ids are primary keys. */
  ghost predicate PrimaryKeys(xs: seq<Trace>) {
    forall i, j :: 0 <= i < j < |xs| ==> xs[i].id != xs[j].id
  }

  lemma {:induction false} InsertKeepsListed(xs: seq<Trace>, t: Trace)
    requires Listed(xs) && forall x :: x in xs ==> x.id != t.id
    ensures Listed(Insert(xs, t))
  {
    if xs != [] {
      BeforeIsOrder(PlaceOf(t), PlaceOf(xs[0]), PlaceOf(t));
      if !Before(PlaceOf(t), PlaceOf(xs[0])) {
        InsertKeepsListed(xs[1..], t);
        InsertMembers(xs[1..], t);
        assert ([xs[0]] + Insert(xs[1..], t))[1..] == Insert(xs[1..], t);
      } else {
        assert ([t] + xs)[1..] == xs;
      }
    }
  }

  lemma {:induction false} OrderByIsListed(xs: seq<Trace>)
    requires PrimaryKeys(xs)
    ensures Listed(OrderBy(xs))
  {
    if xs != [] {
      OrderByIsListed(xs[1..]);
      OrderByMembers(xs[1..]);
      forall x | x in OrderBy(xs[1..]) ensures x.id != xs[0].id {
        assert x in ToSet(OrderBy(xs[1..]));
        var k :| 0 <= k < |xs[1..]| && xs[1..][k] == x;
      }
      InsertKeepsListed(OrderBy(xs[1..]), xs[0]);
    }
  }

  lemma {:induction false} HeadIsFirst(xs: seq<Trace>, x: Trace)
    requires Listed(xs) && xs != [] && x in xs[1..]
    ensures Before(PlaceOf(xs[0]), PlaceOf(x))
  {
    if x != xs[1] {
      assert xs[1..] == [xs[1]] + xs[2..] && xs[1..][1..] == xs[2..];
      HeadIsFirst(xs[1..], x);
      BeforeIsOrder(PlaceOf(xs[0]), PlaceOf(xs[1]), PlaceOf(x));
    }
  }

  lemma HeadIsFresh(xs: seq<Trace>)
    requires Listed(xs) && xs != []
    ensures ToSet(xs[1..]) == ToSet(xs) - {xs[0]}
  {
    assert xs == [xs[0]] + xs[1..];
    if xs[0] in xs[1..] {
      HeadIsFirst(xs, xs[0]);
      BeforeIsOrder(PlaceOf(xs[0]), PlaceOf(xs[0]), PlaceOf(xs[0]));
    }
  }

  /** There is only one way to list a set of rows. */
  lemma {:induction false} ListingIsUnique(xs: seq<Trace>, ys: seq<Trace>)
    requires Listed(xs) && Listed(ys) && ToSet(xs) == ToSet(ys)
    ensures xs == ys
  {
    EmptyMembers(xs);
    EmptyMembers(ys);
    if xs != [] {
      assert xs[0] in ToSet(ys) && ys[0] in ToSet(xs);
      SameHead(xs, ys);
      HeadIsFresh(xs);
      HeadIsFresh(ys);
      ListingIsUnique(xs[1..], ys[1..]);
      assert xs == [xs[0]] + xs[1..] && ys == [ys[0]] + ys[1..];
    }
  }

  lemma EmptyMembers(xs: seq<Trace>)
    ensures xs == [] <==> ToSet(xs) == {}
  {
    if xs != [] {
      assert xs[0] in ToSet(xs);
    }
  }

  lemma SameHead(xs: seq<Trace>, ys: seq<Trace>)
    requires Listed(xs) && Listed(ys) && xs != [] && ys != [] && xs[0] in ys && ys[0] in xs
    ensures xs[0] == ys[0]
  {
    assert xs == [xs[0]] + xs[1..] && ys == [ys[0]] + ys[1..];
    if xs[0] != ys[0] {
      HeadIsFirst(xs, ys[0]);
      HeadIsFirst(ys, xs[0]);
      BeforeIsOrder(PlaceOf(xs[0]), PlaceOf(ys[0]), PlaceOf(xs[0]));
    }
  }

  // ----- One page -----

  function After(q: Query, place: Option<Place>): Trace -> bool {
    (t: Trace) => Matches(q)(t) && (place.Some? ==> Before(place.value, PlaceOf(t)))
  }

  /** The whole listing that is still to come after a place. */
  function Remaining(table: seq<Trace>, q: Query, place: Option<Place>): seq<Trace> {
    OrderBy(Filter(table, After(q, place)))
  }

  function Limit(xs: seq<Trace>, n: nat): seq<Trace> {
    if |xs| <= n then xs else xs[..n]
  }

  /** The first page of what remains, and the cursor of its last row if there is more. */
  function PageFrom(c: Codec, remaining: seq<Trace>, limit: nat): Page
    requires limit >= 1
  {
    var rows := Limit(remaining, limit + 1);
    var items := Limit(rows, limit);
    Page(items, if |rows| > limit then Some(EncodeCursor(c, items[|items| - 1].startedAt, items[|items| - 1].id)) else None)
  }

  function PageOf(c: Codec, table: seq<Trace>, q: Query, place: Option<Place>, limit: nat): Page
    requires limit >= 1
  {
    PageFrom(c, Remaining(table, q, place), limit)
  }

  function PlaceOfCursor(c: Codec, cursor: string): Result<Option<Place>> {
    if cursor == "" then Ok(None)
    else
      match DecodeCursor(c, cursor)
      case Err(e) => Err(e)
      case Ok(decoded) => Ok(Some(Place(decoded.0, decoded.1)))
  }

  lemma {:induction false} FilterTwice(xs: seq<Trace>, f: Trace -> bool, g: Trace -> bool, both: Trace -> bool)
    requires forall t :: both(t) <==> f(t) && g(t)
    ensures Filter(Filter(xs, f), g) == Filter(xs, both)
  {
    if xs != [] {
      var init, last := xs[..|xs| - 1], xs[|xs| - 1];
      FilterTwice(init, f, g, both);
      if f(last) {
        assert (Filter(init, f) + [last])[..|Filter(init, f)|] == Filter(init, f);
      }
    }
  }

  method NarrowByParameters(table: seq<Trace>, q: Query) returns (statement: seq<Trace>)
    ensures statement == Filter(table, Matches(q))
  {
    var keep := (t: Trace) => Wanted(q.kind, Some(t.kind)) && Wanted(q.status, Some(t.status)) && Wanted(q.target, t.target) && Wanted(q.horizon, t.horizon);
    statement := Filter(table, keep);
    var narrow := (t: Trace) =>
      (q.agent.Some? ==> q.agent.value in t.agents) && (q.from.Some? ==> t.startedAt >= q.from.value) && (q.to.Some? ==> t.startedAt <= q.to.value);
    statement := Filter(statement, narrow);
    FilterTwice(table, keep, narrow, Matches(q));
  }

  /** `list_agent_traces`: the statement is narrowed parameter by parameter, then by the cursor. */
  method ListAgentTraces(c: Codec, table: seq<Trace>, q: Query, limit: nat, cursor: string) returns (r: Result<Page>)
    requires 1 <= limit <= 200
    ensures r.Ok? <==> PlaceOfCursor(c, cursor).Ok?
    ensures r.Ok? ==> r.value == PageOf(c, table, q, PlaceOfCursor(c, cursor).value, limit)
    ensures cursor == "" ==> r == Ok(PageOf(c, table, q, None, limit))
  {
    var statement := NarrowByParameters(table, q);
    var place := PlaceOfCursor(c, cursor);
    if place.Err? {
      return Err("Invalid Agent trace cursor");
    }
    LaterNarrows(table, q, place.value);
    statement := Filter(statement, Later(place.value));
    r := Ok(PageFrom(c, OrderBy(statement), limit));
  }

  function Later(place: Option<Place>): Trace -> bool {
    (t: Trace) => place.Some? ==> Before(place.value, PlaceOf(t))
  }

  lemma LaterNarrows(table: seq<Trace>, q: Query, place: Option<Place>)
    ensures Filter(Filter(table, Matches(q)), Later(place)) == Filter(table, After(q, place))
  {
    FilterTwice(table, Matches(q), Later(place), After(q, place));
  }

  // ----- Following the cursor -----

  lemma FilterKeys(table: seq<Trace>, f: Trace -> bool)
    requires PrimaryKeys(table)
    ensures PrimaryKeys(Filter(table, f))
  {
    if table != [] {
      var init, last := table[..|table| - 1], table[|table| - 1];
      FilterKeys(init, f);
      FilterMembers(init, f);
      forall x | x in Filter(init, f) ensures x.id != last.id {
        var k :| 0 <= k < |init| && init[k] == x;
      }
    }
  }

  lemma RemainingIsListed(table: seq<Trace>, q: Query, place: Option<Place>)
    requires PrimaryKeys(table)
    ensures Listed(Remaining(table, q, place))
    ensures forall t :: t in Remaining(table, q, place) <==> t in table && After(q, place)(t)
  {
    var rows := Filter(table, After(q, place));
    FilterKeys(table, After(q, place));
    OrderByIsListed(rows);
    OrderByMembers(rows);
    FilterMembers(table, After(q, place));
    forall t ensures t in Remaining(table, q, place) <==> t in rows {
      assert t in ToSet(OrderBy(rows)) <==> t in ToSet(rows);
    }
  }

  lemma {:induction false} ListedSuffix(xs: seq<Trace>, k: nat)
    requires Listed(xs) && k < |xs|
    ensures Listed(xs[k + 1..])
    ensures forall t :: t in xs[k + 1..] <==> t in xs && Before(PlaceOf(xs[k]), PlaceOf(t))
  {
    assert xs == [xs[0]] + xs[1..];
    if k == 0 {
      forall t ensures t in xs[1..] <==> t in xs && Before(PlaceOf(xs[0]), PlaceOf(t)) {
        if t in xs[1..] {
          HeadIsFirst(xs, t);
        }
        BeforeIsOrder(PlaceOf(xs[0]), PlaceOf(xs[0]), PlaceOf(xs[0]));
      }
    } else {
      ListedSuffix(xs[1..], k - 1);
      assert xs[1..][k..] == xs[k + 1..] && xs[1..][k - 1] == xs[k];
      HeadIsFirst(xs, xs[k]);
      BeforeIsOrder(PlaceOf(xs[0]), PlaceOf(xs[k]), PlaceOf(xs[0]));
    }
  }

  /** Resuming after the row at position `k` leaves exactly the rest of the listing. */
  lemma ResumeLeavesRest(table: seq<Trace>, q: Query, place: Option<Place>, k: nat)
    requires PrimaryKeys(table) && k < |Remaining(table, q, place)|
    ensures var xs := Remaining(table, q, place); Remaining(table, q, Some(PlaceOf(xs[k]))) == xs[k + 1..]
  {
    var xs := Remaining(table, q, place);
    var next := Some(PlaceOf(xs[k]));
    RemainingIsListed(table, q, place);
    RemainingIsListed(table, q, next);
    ListedSuffix(xs, k);
    forall t ensures t in ToSet(Remaining(table, q, next)) <==> t in ToSet(xs[k + 1..]) {
      ResumedRow(table, q, place, next, xs[k], t);
    }
    ListingIsUnique(Remaining(table, q, next), xs[k + 1..]);
  }

  lemma ResumedRow(table: seq<Trace>, q: Query, place: Option<Place>, next: Option<Place>, last: Trace, t: Trace)
    requires After(q, place)(last) && next == Some(PlaceOf(last))
    ensures After(q, next)(t) <==> After(q, place)(t) && Before(PlaceOf(last), PlaceOf(t))
  {
    if place.Some? {
      BeforeIsOrder(place.value, PlaceOf(last), PlaceOf(t));
    }
  }

  /** Ids whose cursors round-trip. */
  ghost predicate GoodIds(table: seq<Trace>) {
    forall t :: t in table ==> t.id != "" && |t.id| <= MAX_ID && '|' !in t.id
  }

  /** Following the cursor leaves exactly these rows. */
  ghost predicate Resumes(c: Codec, table: seq<Trace>, q: Query, cursor: string, rest: seq<Trace>) {
    && cursor != "" && PlaceOfCursor(c, cursor).Ok?
    && Remaining(table, q, PlaceOfCursor(c, cursor).value) == rest
  }

  lemma PageAdvances(c: Codec, table: seq<Trace>, q: Query, place: Option<Place>, limit: nat)
    requires CodecRight(c) && PrimaryKeys(table) && GoodIds(table) && limit >= 1
    ensures var xs, page := Remaining(table, q, place), PageOf(c, table, q, place, limit);
            && page.items == Limit(xs, limit) && (page.next.Some? <==> |xs| > limit)
            && (page.next.Some? ==> Resumes(c, table, q, page.next.value, xs[limit..]))
  {
    var xs := Remaining(table, q, place);
    if |xs| > limit {
      CursorResumes(c, table, q, place, limit - 1);
    }
    PageAdvancesOver(c, table, q, xs, limit);
  }

  lemma PageAdvancesOver(c: Codec, table: seq<Trace>, q: Query, xs: seq<Trace>, limit: nat)
    requires limit >= 1
    requires |xs| > limit ==> Resumes(c, table, q, EncodeCursor(c, xs[limit - 1].startedAt, xs[limit - 1].id), xs[limit..])
    ensures var page := PageFrom(c, xs, limit);
            && page.items == Limit(xs, limit) && (page.next.Some? <==> |xs| > limit)
            && (page.next.Some? ==> Resumes(c, table, q, page.next.value, xs[limit..]))
  {
    PageCut(c, xs, limit);
  }

  /** The cursor of a row of the listing stands for the listing after that row. */
  lemma CursorResumes(c: Codec, table: seq<Trace>, q: Query, place: Option<Place>, k: nat)
    requires CodecRight(c) && PrimaryKeys(table) && GoodIds(table) && k < |Remaining(table, q, place)|
    ensures var xs := Remaining(table, q, place); Resumes(c, table, q, EncodeCursor(c, xs[k].startedAt, xs[k].id), xs[k + 1..])
  {
    var xs := Remaining(table, q, place);
    RemainingIsListed(table, q, place);
    assert xs[k] in xs;
    CursorOf(c, xs[k]);
    ResumeLeavesRest(table, q, place, k);
  }

  lemma LimitTwice(xs: seq<Trace>, n: nat)
    ensures Limit(Limit(xs, n + 1), n) == Limit(xs, n) && (|Limit(xs, n + 1)| > n <==> |xs| > n)
  {
    if |xs| > n {
      assert xs[..n + 1][..n] == xs[..n] || |xs| == n + 1;
    }
  }

  lemma PageCut(c: Codec, xs: seq<Trace>, limit: nat)
    requires limit >= 1
    ensures var page := PageFrom(c, xs, limit);
            && page.items == Limit(xs, limit)
            && page.next == if |xs| > limit then Some(EncodeCursor(c, xs[limit - 1].startedAt, xs[limit - 1].id)) else None
  {
    LimitTwice(xs, limit);
  }

  lemma CursorOf(c: Codec, last: Trace)
    requires CodecRight(c) && last.id != "" && |last.id| <= MAX_ID && '|' !in last.id
    ensures var cursor := EncodeCursor(c, last.startedAt, last.id);
            cursor != "" && PlaceOfCursor(c, cursor) == Ok(Some(PlaceOf(last)))
  {
    CursorRoundTripIff(c, last.startedAt, last.id);
    EmptyCursorIsInvalid(c);
  }

  /** An empty cursor, which the endpoint takes for no cursor, is never one that was handed out. */
  lemma EmptyCursorIsInvalid(c: Codec)
    requires CodecRight(c)
    ensures DecodeCursor(c, "").Err?
  {
    assert "" + Pads(Missing(0)) == "";
    assert Decode64("") == Ok([]);
  }

  /** Cut a listing into pages. */
  function Chunks(xs: seq<Trace>, n: nat): seq<seq<Trace>>
    requires n >= 1
  {
    if |xs| <= n then [xs] else [xs[..n]] + Chunks(xs[n..], n)
  }

  function Flatten(pages: seq<seq<Trace>>): seq<Trace> {
    if pages == [] then [] else pages[0] + Flatten(pages[1..])
  }

  lemma {:induction false} ChunksCover(xs: seq<Trace>, n: nat)
    requires n >= 1
    ensures Flatten(Chunks(xs, n)) == xs
    ensures forall k :: 0 <= k < |Chunks(xs, n)| - 1 ==> |Chunks(xs, n)[k]| == n
    ensures |Chunks(xs, n)| >= 1 && |Chunks(xs, n)[|Chunks(xs, n)| - 1]| <= n
  {
    if |xs| <= n {
      assert [xs][1..] == [] && xs + [] == xs;
    } else {
      ChunksCover(xs[n..], n);
      assert Chunks(xs, n)[1..] == Chunks(xs[n..], n);
      assert xs[..n] + xs[n..] == xs;
    }
  }

  /** A client that follows `next_cursor` from a place until there is none. */
  ghost function Follow(c: Codec, table: seq<Trace>, q: Query, place: Option<Place>, limit: nat): seq<seq<Trace>>
    requires CodecRight(c) && PrimaryKeys(table) && GoodIds(table) && limit >= 1
    decreases |Remaining(table, q, place)|
  {
    PageAdvances(c, table, q, place, limit);
    var page := PageOf(c, table, q, place, limit);
    if page.next.None? then [page.items]
    else [page.items] + Follow(c, table, q, PlaceOfCursor(c, page.next.value).value, limit)
  }

  lemma {:induction false} FollowIsChunks(c: Codec, table: seq<Trace>, q: Query, place: Option<Place>, limit: nat)
    requires CodecRight(c) && PrimaryKeys(table) && GoodIds(table) && limit >= 1
    ensures Follow(c, table, q, place, limit) == Chunks(Remaining(table, q, place), limit)
    decreases |Remaining(table, q, place)|
  {
    PageAdvances(c, table, q, place, limit);
    var page := PageOf(c, table, q, place, limit);
    if page.next.Some? {
      FollowIsChunks(c, table, q, PlaceOfCursor(c, page.next.value).value, limit);
    }
  }

  /** Latest start first and, on equal starts, the later id first; so no row is listed twice. */
  ghost predicate LatestFirst(xs: seq<Trace>) {
    forall i, j :: 0 <= i < j < |xs| ==>
      xs[i].startedAt > xs[j].startedAt || (xs[i].startedAt == xs[j].startedAt && TextBefore(xs[j].id, xs[i].id))
  }

  lemma {:induction false} ListedIsLatestFirst(xs: seq<Trace>)
    requires Listed(xs)
    ensures LatestFirst(xs)
  {
    if |xs| >= 2 {
      ListedIsLatestFirst(xs[1..]);
      forall j | 0 < j < |xs|
        ensures xs[0].startedAt > xs[j].startedAt || (xs[0].startedAt == xs[j].startedAt && TextBefore(xs[j].id, xs[0].id))
      {
        assert xs[j] == xs[1..][j - 1];
        HeadIsFirst(xs, xs[j]);
      }
      forall i, j | 0 < i < j < |xs|
        ensures xs[i].startedAt > xs[j].startedAt || (xs[i].startedAt == xs[j].startedAt && TextBefore(xs[j].id, xs[i].id))
      {
        assert xs[i] == xs[1..][i - 1] && xs[j] == xs[1..][j - 1];
      }
    }
  }

  /** What the query parameters ask of a row, one by one. */
  predicate Asked(q: Query, t: Trace) {
    && (q.kind.Some? ==> t.kind == q.kind.value)
    && (q.status.Some? ==> t.status == q.status.value)
    && (q.target.Some? ==> t.target.Some? && t.target.value == q.target.value)
    && (q.horizon.Some? ==> t.horizon.Some? && t.horizon.value == q.horizon.value)
    && (q.agent.Some? ==> q.agent.value in t.agents)
    && (q.from.Some? ==> q.from.value <= t.startedAt)
    && (q.to.Some? ==> t.startedAt <= q.to.value)
  }

  /** Latest first and without duplicates, the pages hold exactly the rows of the table that meet every
      parameter, and every one but the last is full. */
  ghost predicate IsListing(table: seq<Trace>, q: Query, limit: nat, pages: seq<seq<Trace>>) {
    && LatestFirst(Flatten(pages))
    && (forall t :: t in Flatten(pages) <==> t in table && Asked(q, t))
    && (forall k :: 0 <= k < |pages| - 1 ==> |pages[k]| == limit)
    && |pages| >= 1 && |pages[|pages| - 1]| <= limit
  }

  /** Following the cursor terminates; the pages, every one full but the last, concatenate to exactly the
      rows of the table that meet every parameter, latest first, without duplicates and without omissions. */
  lemma PagesAreTheListing(c: Codec, table: seq<Trace>, q: Query, limit: nat)
    requires CodecRight(c) && PrimaryKeys(table) && GoodIds(table) && limit >= 1
    ensures IsListing(table, q, limit, Follow(c, table, q, None, limit))
  {
    FollowIsChunks(c, table, q, None, limit);
    ChunksHold(table, q, limit);
  }

  /** The predicate the statement is narrowed by, and the rows it keeps. */
  lemma RemainingIs(table: seq<Trace>, q: Query, place: Option<Place>)
    requires PrimaryKeys(table)
    ensures LatestFirst(Remaining(table, q, place))
    ensures forall t :: t in Remaining(table, q, place) <==> t in table && Asked(q, t) && Comes(place, t)
  {
    RemainingIsListed(table, q, place);
    ListedIsLatestFirst(Remaining(table, q, place));
    forall t ensures After(q, place)(t) <==> Asked(q, t) && Comes(place, t) {
      AfterIff(q, place, t);
    }
  }

  lemma AfterIff(q: Query, place: Option<Place>, t: Trace)
    ensures After(q, place)(t) <==> Asked(q, t) && Comes(place, t)
  {
    assert Wanted(q.target, t.target) <==> (q.target.Some? ==> t.target.Some? && t.target.value == q.target.value);
    assert Wanted(q.horizon, t.horizon) <==> (q.horizon.Some? ==> t.horizon.Some? && t.horizon.value == q.horizon.value);
    assert Wanted(q.kind, Some(t.kind)) <==> (q.kind.Some? ==> t.kind == q.kind.value);
    assert Wanted(q.status, Some(t.status)) <==> (q.status.Some? ==> t.status == q.status.value);
    assert Matches(q)(t) <==> Asked(q, t);
  }

  lemma ChunksHold(table: seq<Trace>, q: Query, limit: nat)
    requires PrimaryKeys(table) && limit >= 1
    ensures IsListing(table, q, limit, Chunks(Remaining(table, q, None), limit))
  {
    ChunksCover(Remaining(table, q, None), limit);
    RemainingIs(table, q, None);
  }

  /** The rows a request is about: those of the table that meet the parameters and come after the place. */
  ghost predicate Due(table: seq<Trace>, q: Query, place: Option<Place>, t: Trace) {
    t in table && Asked(q, t) && Comes(place, t)
  }

  /** Where a cursor resumes: whatever text was encoded, at the time and the id it names, if it names them. */
  lemma CursorPlaceIff(c: Codec, raw: string, place: Place)
    requires CodecRight(c) && raw != ""
    ensures PlaceOfCursor(c, StripPads(Encode64(c.utf8(raw)))) == Ok(Some(place)) <==>
            exists head :: raw == head + "|" + place.id && '|' !in place.id && 1 <= |place.id| <= 32 && c.fromIso(head) == Some(place.startedAt)
  {
    CursorDecodesIff(c, raw, place.startedAt, place.id);
    assert c.fromUtf8(c.utf8(raw)) == Some(raw);
    SomethingIsSent(c.utf8(raw));
  }

  lemma SomethingIsSent(bytes: seq<Byte>)
    requires bytes != []
    ensures StripPads(Encode64(bytes)) != ""
  {
    LettersHaveNoPads(bytes);
    StripUndoesPads(Letters(bytes), Missing(|Letters(bytes)|));
  }

  /** One page of the endpoint, in terms of the rows only: the first `limit` of those that are due, and a
      next cursor exactly when that is not all of them. */
  lemma PageHolds(c: Codec, table: seq<Trace>, q: Query, place: Option<Place>, limit: nat)
    requires PrimaryKeys(table) && limit >= 1
    ensures var page := PageOf(c, table, q, place, limit);
            && LatestFirst(page.items) && |page.items| <= limit
            && (forall t :: t in page.items ==> Due(table, q, place, t))
            && (forall t :: Due(table, q, place, t) && t !in page.items ==> |page.items| == limit && ComesAfterAll(page.items, t))
            && (page.next.Some? <==> exists t :: Due(table, q, place, t) && t !in page.items)
  {
    var xs := Remaining(table, q, place);
    PageCut(c, xs, limit);
    RemainingIs(table, q, place);
    CutHolds(xs, limit);
    var items := Limit(xs, limit);
    if |xs| > limit {
      var t :| t in xs && t !in items;
      assert Due(table, q, place, t);
    }
  }

  predicate ComesAfterAll(items: seq<Trace>, t: Trace) {
    forall x :: x in items ==> Comes(Some(Place(x.startedAt, x.id)), t)
  }

  /** The row comes after the place: an earlier start or, on the same start, an earlier id. */
  predicate Comes(place: Option<Place>, t: Trace) {
    place.Some? ==>
      t.startedAt < place.value.startedAt || (t.startedAt == place.value.startedAt && TextBefore(t.id, place.value.id))
  }

  lemma CutHolds(xs: seq<Trace>, limit: nat)
    requires LatestFirst(xs)
    ensures var items := Limit(xs, limit);
            && LatestFirst(items) && |items| <= limit
            && (forall t :: t in items ==> t in xs)
            && (forall t :: t in xs && t !in items ==> |items| == limit && ComesAfterAll(items, t))
            && (|xs| > limit <==> exists t :: t in xs && t !in items)
  {
    var items := Limit(xs, limit);
    forall t | t in xs && t !in items
      ensures |items| == limit < |xs| && ComesAfterAll(items, t)
    {
      var j :| 0 <= j < |xs| && xs[j] == t;
      forall x | x in items ensures Comes(Some(Place(x.startedAt, x.id)), t) {
        var i :| 0 <= i < |items| && items[i] == x;
        assert xs[i] == x && i < j;
      }
    }
    if |xs| > limit {
      LaterIsNew(xs, limit);
      assert xs[limit] in xs && xs[limit] !in items;
    }
  }

  lemma LaterIsNew(xs: seq<Trace>, n: nat)
    requires LatestFirst(xs) && n < |xs|
    ensures xs[n] !in xs[..n]
  {
    if xs[n] in xs[..n] {
      var i :| 0 <= i < n && xs[i] == xs[n];
      TextOrder(xs[n].id, xs[n].id, xs[n].id);
      assert false;
    }
  }
}
