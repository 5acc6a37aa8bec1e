/** The strategy node's cross-instrument ranking: sort by score, then give every instrument the
    position of the first member of its tolerance group. */
module Ranking {
  import opened Common

  const RANK_TOLERANCE: real := 0.000001

  type Scores = map<Id, real>

  /** The score of a code (zero for a code that has none). */
  function Score(scores: Scores, code: Id): real {
    if code in scores then scores[code] else 0.0
  }

  /** The scores of a list of codes, in its order. */
  function Column(order: seq<Id>, scores: Scores): (column: seq<real>)
    ensures |column| == |order|
    ensures forall i {:trigger column[i]} :: 0 <= i < |order| ==> column[i] == Score(scores, order[i])
  {
    seq(|order|, i requires 0 <= i < |order| => Score(scores, order[i]))
  }

  ghost predicate Descending(column: seq<real>) {
    forall i, j :: 0 <= i < j < |column| ==> column[i] >= column[j]
  }

  /** `order` lists every scored code once, best score first. How equal scores are ordered is left
      open. */
  ghost predicate RanksBy(order: seq<Id>, scores: Scores) {
    && NoDuplicates(order)
    && ToSet(order) == scores.Keys
    && Descending(Column(order, scores))
  }

  // ----- Python's sorted(), as an insertion sort on the key (-score, position) -----

  /** Does `a` sort strictly before `b`? */
  predicate Before(a: Id, b: Id, scores: Scores, position: map<Id, nat>)
    requires a in scores && b in scores && a in position && b in position
  {
    scores[a] > scores[b] || (scores[a] == scores[b] && position[a] < position[b])
  }

  function Insert(code: Id, order: seq<Id>, scores: Scores, position: map<Id, nat>): (r: seq<Id>)
    requires code in scores && code in position
    requires forall c :: c in order ==> c in scores && c in position
    ensures forall c :: c in r <==> c == code || c in order
    ensures |r| == |order| + 1
  {
    if order == [] then [code]
    else if Before(code, order[0], scores, position) then [code] + order
    else [order[0]] + Insert(code, order[1..], scores, position)
  }

  function SortCodes(codes: seq<Id>, scores: Scores, position: map<Id, nat>): (r: seq<Id>)
    requires forall c :: c in codes ==> c in scores && c in position
    ensures forall c :: c in r <==> c in codes
    ensures |r| == |codes|
  {
    if codes == [] then []
    else Insert(codes[|codes| - 1], SortCodes(codes[..|codes| - 1], scores, position), scores, position)
  }

  lemma Prepend(code: Id, order: seq<Id>, scores: Scores)
    requires code !in order
    requires forall c :: c in order ==> Score(scores, c) <= Score(scores, code)
    requires NoDuplicates(order) && Descending(Column(order, scores))
    ensures NoDuplicates([code] + order) && Descending(Column([code] + order, scores))
  {
    DistinctCons(code, order);
    assert Column([code] + order, scores) == [Score(scores, code)] + Column(order, scores);
    forall i | 0 <= i < |order| ensures Column(order, scores)[i] <= Score(scores, code) {
      assert order[i] in order;
    }
  }

  lemma {:induction false} InsertKeepsOrder(code: Id, order: seq<Id>, scores: Scores, position: map<Id, nat>)
    requires code in scores && code in position && code !in order
    requires forall c :: c in order ==> c in scores && c in position
    requires NoDuplicates(order) && Descending(Column(order, scores))
    ensures var r := Insert(code, order, scores, position);
            NoDuplicates(r) && Descending(Column(r, scores))
  {
    if order == [] {
      Prepend(code, [], scores);
    } else {
      HeadIsLargest(order, scores);
      if Before(code, order[0], scores, position) {
        Prepend(code, order, scores);
      } else {
        DistinctTail(order);
        InsertKeepsOrder(code, order[1..], scores, position);
        Prepend(order[0], Insert(code, order[1..], scores, position), scores);
      }
    }
  }

  lemma HeadIsLargest(order: seq<Id>, scores: Scores)
    requires order != []
    requires Descending(Column(order, scores))
    ensures forall c :: c in order ==> Score(scores, c) <= Score(scores, order[0])
    ensures Descending(Column(order[1..], scores))
  {
    var column := Column(order, scores);
    forall c | c in order ensures Score(scores, c) <= Score(scores, order[0]) {
      var i :| 0 <= i < |order| && order[i] == c;
      assert column[0] >= column[i];
    }
    assert Column(order[1..], scores) == column[1..];
  }

  /** Sorting the distinct codes yields a ranking order. */
  lemma {:induction false} SortCodesRanks(codes: seq<Id>, scores: Scores, position: map<Id, nat>)
    requires NoDuplicates(codes)
    requires forall c :: c in codes ==> c in scores && c in position
    ensures var r := SortCodes(codes, scores, position);
            NoDuplicates(r) && ToSet(r) == ToSet(codes) && Descending(Column(r, scores))
  {
    if codes != [] {
      var n := |codes| - 1;
      assert codes == codes[..n] + [codes[n]];
      DistinctInit(codes[..n], codes[n]);
      SortCodesRanks(codes[..n], scores, position);
      InsertKeepsOrder(codes[n], SortCodes(codes[..n], scores, position), scores, position);
    }
  }

  // ----- Tolerance groups -----

  /** Index of the first member of the group that position `i` belongs to: a member joins the group of
      its predecessor while its score is within the tolerance of that group's first score. */
  function Leader(column: seq<real>, i: nat): (l: nat)
    requires i < |column|
    ensures l <= i
  {
    if i == 0 then 0
    else
      var previous := Leader(column, i - 1);
      if Abs(column[i] - column[previous]) > RANK_TOLERANCE then i else previous
  }

  lemma {:induction false} LeaderMonotone(column: seq<real>, i: nat, j: nat)
    requires i <= j < |column|
    ensures Leader(column, i) <= Leader(column, j)
    ensures Leader(column, j) > i || Leader(column, j) == Leader(column, i)
  {
    if i < j {
      LeaderMonotone(column, i, j - 1);
    }
  }

  lemma {:induction false} LeaderIsOwnLeader(column: seq<real>, i: nat)
    requires i < |column|
    ensures Leader(column, Leader(column, i)) == Leader(column, i)
    ensures Abs(column[i] - column[Leader(column, i)]) <= RANK_TOLERANCE
  {
    if i > 0 && Leader(column, i) != i {
      LeaderIsOwnLeader(column, i - 1);
    }
  }

  /** A strictly better rank is exactly a place before the group's first member. */
  lemma BetterRankIsEarlierGroup(column: seq<real>, i: nat, j: nat)
    requires i < |column| && j < |column|
    ensures Leader(column, j) < Leader(column, i) <==> j < Leader(column, i)
  {
    LeaderIsOwnLeader(column, i);
    if j < Leader(column, i) {
      LeaderMonotone(column, j, Leader(column, i));
    } else {
      LeaderMonotone(column, Leader(column, i), j);
    }
  }

  lemma SameGroupIsClose(column: seq<real>, i: nat, j: nat)
    requires Descending(column) && i < |column| && j < |column|
    requires Leader(column, i) == Leader(column, j)
    ensures Abs(column[i] - column[j]) <= RANK_TOLERANCE
  {
    LeaderIsOwnLeader(column, i);
    LeaderIsOwnLeader(column, j);
  }

  lemma {:induction false} EqualScoresShareGroup(column: seq<real>, i: nat, j: nat)
    requires Descending(column) && i <= j < |column| && column[i] == column[j]
    ensures Leader(column, i) == Leader(column, j)
  {
    if i < j {
      assert column[i] >= column[j - 1] >= column[j];
      EqualScoresShareGroup(column, i, j - 1);
      LeaderIsOwnLeader(column, i);
    }
  }

  lemma LeadGivesEarlierGroup(column: seq<real>, i: nat, j: nat)
    requires Descending(column) && i < |column| && j < |column|
    requires column[i] - column[j] > RANK_TOLERANCE
    ensures Leader(column, i) < Leader(column, j)
  {
    assert i < j;
    LeaderMonotone(column, i, j);
    if Leader(column, i) == Leader(column, j) {
      SameGroupIsClose(column, i, j);
    }
  }

  // ----- The loop -----

  /** The rank of the code at index `i` of an order. */
  function RankAt(order: seq<Id>, scores: Scores, i: nat): nat
    requires i < |order|
  {
    Leader(Column(order, scores), i) + 1
  }

  /** The ranks of the first `n` codes of an order. */
  function RanksUpTo(order: seq<Id>, scores: Scores, n: nat): map<Id, nat>
    requires n <= |order|
  {
    if n == 0 then map[]
    else RanksUpTo(order, scores, n - 1)[order[n - 1] := RankAt(order, scores, n - 1)]
  }

  method AssignRanks(order: seq<Id>, scores: Scores) returns (ranks: map<Id, nat>)
    ensures ranks == RanksUpTo(order, scores, |order|)
  {
    ranks := map[];
    var groupScore: Option<real> := None;
    var currentRank := 1;
    ghost var column := Column(order, scores);
    var position := 1;
    while position <= |order|
      invariant 1 <= position <= |order| + 1
      invariant ranks == RanksUpTo(order, scores, position - 1)
      invariant position == 1 ==> groupScore == None
      invariant position > 1 ==> currentRank == Leader(column, position - 2) + 1 && groupScore == Some(column[currentRank - 1])
    {
      var code := order[position - 1];
      if groupScore == None || Abs(Score(scores, code) - groupScore.value) > RANK_TOLERANCE {
        currentRank := position;
        groupScore := Some(Score(scores, code));
      }
      ranks := ranks[code := currentRank];
      position := position + 1;
    }
  }

  // ----- What the ranks mean -----

  /** Competition ranking with a tolerance, stated without mentioning any order. */
  ghost predicate CompetitionRanks(ranks: map<Id, nat>, scores: Scores) {
    && ranks.Keys == scores.Keys
    && CountsBetter(ranks)
    && Separates(ranks, scores)
    && (forall a, b :: a in ranks && b in ranks && ranks[a] == ranks[b] ==> Abs(scores[a] - scores[b]) <= RANK_TOLERANCE)
    && FollowsScores(ranks, scores)
    && GroupsFromTop(ranks, scores)
  }

  ghost predicate Separates(ranks: map<Id, nat>, scores: Scores)
    requires ranks.Keys == scores.Keys
  {
    forall a, b :: a in ranks && b in ranks && scores[a] - scores[b] > RANK_TOLERANCE ==> ranks[a] < ranks[b]
  }

  ghost predicate FollowsScores(ranks: map<Id, nat>, scores: Scores)
    requires ranks.Keys == scores.Keys
  {
    forall a, b :: a in ranks && b in ranks && scores[a] >= scores[b] ==> ranks[a] <= ranks[b]
  }

  /** Nobody with its rank has a better score. */
  ghost predicate Leads(ranks: map<Id, nat>, scores: Scores, b: Id)
    requires ranks.Keys == scores.Keys && b in ranks
  {
    forall c :: c in ranks && ranks[c] == ranks[b] ==> scores[c] <= scores[b]
  }

  /** Whoever ranks below a group misses the best score in it by more than the tolerance. */
  ghost predicate GroupsFromTop(ranks: map<Id, nat>, scores: Scores)
    requires ranks.Keys == scores.Keys
  {
    forall a, b :: a in ranks && b in ranks && ranks[b] < ranks[a] && Leads(ranks, scores, b) ==> scores[b] - scores[a] > RANK_TOLERANCE
  }

  ghost predicate CountsBetter(ranks: map<Id, nat>) {
    forall a :: a in ranks ==> ranks[a] == 1 + |BetterThan(ranks, a)|
  }

  ghost function BetterThan(ranks: map<Id, nat>, a: Id): set<Id>
    requires a in ranks
  {
    set b | b in ranks && ranks[b] < ranks[a]
  }

  ghost predicate ReadsOff(ranks: map<Id, nat>, order: seq<Id>, scores: Scores)
  {
    && ranks.Keys == ToSet(order)
    && forall i {:trigger RankAt(order, scores, i)} :: 0 <= i < |order| ==> ranks[order[i]] == RankAt(order, scores, i)
  }

  lemma {:induction false} RanksUpToKeys(order: seq<Id>, scores: Scores, n: nat)
    requires n <= |order|
    ensures RanksUpTo(order, scores, n).Keys == ToSet(order[..n])
  {
    if n > 0 {
      RanksUpToKeys(order, scores, n - 1);
      assert order[..n] == order[..n - 1] + [order[n - 1]];
    }
  }

  /** When no code is listed twice, no later entry overwrites an earlier one. */
  lemma {:induction false} RanksUpToAt(order: seq<Id>, scores: Scores, n: nat, i: nat)
    requires NoDuplicates(order) && i < n <= |order|
    ensures order[i] in RanksUpTo(order, scores, n)
    ensures RanksUpTo(order, scores, n)[order[i]] == RankAt(order, scores, i)
  {
    if i < n - 1 {
      RanksUpToAt(order, scores, n - 1, i);
      DistinctAt(order, i, n - 1);
    }
  }

  lemma AllRanksReadOff(order: seq<Id>, scores: Scores)
    requires NoDuplicates(order)
    ensures ReadsOff(RanksUpTo(order, scores, |order|), order, scores)
  {
    RanksUpToKeys(order, scores, |order|);
    assert order[..|order|] == order;
    forall i | 0 <= i < |order|
      ensures order[i] in RanksUpTo(order, scores, |order|)
      ensures RanksUpTo(order, scores, |order|)[order[i]] == RankAt(order, scores, i)
    {
      RanksUpToAt(order, scores, |order|, i);
    }
  }

  /** The ranks before a group are exactly as many as the group's rank says. */
  lemma BetterCount(ranks: map<Id, nat>, order: seq<Id>, scores: Scores, i: nat)
    requires RanksBy(order, scores) && ReadsOff(ranks, order, scores) && i < |order|
    ensures |BetterThan(ranks, order[i])| + 1 == ranks[order[i]]
  {
    var column := Column(order, scores);
    var l := Leader(column, i);
    assert order[i] in ranks.Keys && ranks[order[i]] == RankAt(order, scores, i);
    forall b ensures b in BetterThan(ranks, order[i]) <==> b in ToSet(order[..l]) {
      if b in ranks {
        assert b in order;
        var j :| 0 <= j < |order| && order[j] == b;
        assert ranks[b] == RankAt(order, scores, j);
        BetterRankIsEarlierGroup(column, i, j);
        if b in order[..l] {
          var k :| 0 <= k < l && order[k] == b;
          DistinctAt(order, j, k);
        }
      }
      if b in order[..l] {
        assert b in order;
      }
    }
    assert BetterThan(ranks, order[i]) == ToSet(order[..l]);
    DistinctPrefix(order, l);
    DistinctSize(order[..l]);
  }

  lemma LeaderBreaks(column: seq<real>, m: nat)
    requires 0 < m < |column| && Leader(column, m) == m
    ensures Abs(column[m] - column[Leader(column, m - 1)]) > RANK_TOLERANCE
  {
  }

  lemma NoEarlierThan(column: seq<real>, l: nat, m: nat)
    requires l < m < |column| && Leader(column, l) == l
    ensures l <= Leader(column, m - 1) < m
  {
    LeaderMonotone(column, l, m - 1);
  }

  /** The first members of two groups are further apart than the tolerance. */
  lemma LeadersDiffer(column: seq<real>, l: nat, m: nat)
    requires Descending(column) && l < m < |column| && Leader(column, l) == l && Leader(column, m) == m
    ensures column[l] - column[m] > RANK_TOLERANCE
  {
    LeaderBreaks(column, m);
    NoEarlierThan(column, l, m);
    FurtherApart(column, l, Leader(column, m - 1), m);
  }

  lemma FurtherApart(column: seq<real>, l: nat, previous: nat, m: nat)
    requires Descending(column) && l <= previous < m < |column| && Abs(column[m] - column[previous]) > RANK_TOLERANCE
    ensures column[l] - column[m] > RANK_TOLERANCE && column[previous] - column[m] > RANK_TOLERANCE
  {
    assert column[previous] >= column[m];
    assert l == previous || column[l] >= column[previous];
  }

  lemma LaterGroupMisses(column: seq<real>, i: nat, j: nat)
    requires Descending(column) && i < |column| && j < |column| && Leader(column, j) < Leader(column, i)
    ensures column[Leader(column, j)] - column[i] > RANK_TOLERANCE
  {
    LeaderIsOwnLeader(column, i);
    LeaderIsOwnLeader(column, j);
    LeadersDiffer(column, Leader(column, j), Leader(column, i));
    assert column[Leader(column, i)] >= column[i];
  }

  lemma LeadIsFirst(ranks: map<Id, nat>, order: seq<Id>, scores: Scores, j: nat)
    requires RanksBy(order, scores) && ReadsOff(ranks, order, scores) && j < |order|
    requires order[j] in ranks && Leads(ranks, scores, order[j])
    ensures Column(order, scores)[Leader(Column(order, scores), j)] == Column(order, scores)[j]
  {
    var column := Column(order, scores);
    var l := Leader(column, j);
    LeaderIsOwnLeader(column, j);
    assert order[l] in order && order[l] in ranks && ranks[order[l]] == RankAt(order, scores, l);
    assert ranks[order[j]] == RankAt(order, scores, j);
    assert column[l] >= column[j];
    assert order[l] in scores && scores[order[l]] <= scores[order[j]];
  }

  lemma GroupsReadFromTop(ranks: map<Id, nat>, order: seq<Id>, scores: Scores)
    requires RanksBy(order, scores) && ReadsOff(ranks, order, scores)
    ensures GroupsFromTop(ranks, scores)
  {
    var column := Column(order, scores);
    forall a, b | a in ranks && b in ranks && ranks[b] < ranks[a] && Leads(ranks, scores, b) ensures scores[b] - scores[a] > RANK_TOLERANCE {
      assert a in order && b in order;
      var i :| 0 <= i < |order| && order[i] == a;
      var j :| 0 <= j < |order| && order[j] == b;
      assert ranks[a] == RankAt(order, scores, i) && ranks[b] == RankAt(order, scores, j);
      LeadIsFirst(ranks, order, scores, j);
      LaterGroupMisses(column, i, j);
    }
  }

  /** Whatever order the sort produced, the loop's ranks are competition ranks. */
  lemma LoopRanksAreCompetitionRanks(ranks: map<Id, nat>, order: seq<Id>, scores: Scores)
    requires RanksBy(order, scores) && ReadsOff(ranks, order, scores)
    ensures CompetitionRanks(ranks, scores)
  {
    var column := Column(order, scores);
    GroupsReadFromTop(ranks, order, scores);
    forall a | a in ranks ensures ranks[a] == 1 + |BetterThan(ranks, a)| {
      assert a in order;
      var i :| 0 <= i < |order| && order[i] == a;
      BetterCount(ranks, order, scores, i);
    }
    forall a, b | a in ranks && b in ranks
      ensures scores[a] - scores[b] > RANK_TOLERANCE ==> ranks[a] < ranks[b]
      ensures ranks[a] == ranks[b] ==> Abs(scores[a] - scores[b]) <= RANK_TOLERANCE
      ensures scores[a] >= scores[b] ==> ranks[a] <= ranks[b]
    {
      assert a in order && b in order;
      var i :| 0 <= i < |order| && order[i] == a;
      var j :| 0 <= j < |order| && order[j] == b;
      assert ranks[a] == RankAt(order, scores, i) && ranks[b] == RankAt(order, scores, j);
      assert column[i] == scores[a] && column[j] == scores[b];
      if column[i] - column[j] > RANK_TOLERANCE {
        LeadGivesEarlierGroup(column, i, j);
      }
      if Leader(column, i) == Leader(column, j) {
        SameGroupIsClose(column, i, j);
      }
      if column[i] == column[j] {
        if i <= j { EqualScoresShareGroup(column, i, j); } else { EqualScoresShareGroup(column, j, i); }
      } else if column[i] > column[j] {
        LeaderMonotone(column, i, j);
      }
    }
  }

  // ----- Competition ranks are unique -----

  /** The ranks in the order of the codes. */
  ghost function Read(ranks: map<Id, nat>, order: seq<Id>): (rs: seq<nat>)
    requires ranks.Keys == ToSet(order)
    ensures |rs| == |order| && forall i :: 0 <= i < |order| ==> order[i] in ranks && rs[i] == ranks[order[i]]
  {
    assert forall i :: 0 <= i < |order| ==> order[i] in ToSet(order);
    seq(|order|, i requires 0 <= i < |order| => ranks[order[i]])
  }

  ghost predicate LeadsAt(column: seq<real>, rs: seq<nat>, j: nat)
    requires |column| == |rs| && j < |rs|
  {
    forall k :: 0 <= k < |rs| && rs[k] == rs[j] ==> column[k] <= column[j]
  }

  /** The ranks agree with the loop's on the first `i` places. */
  ghost predicate AgreeTo(column: seq<real>, rs: seq<nat>, i: nat)
    requires |column| == |rs| && i <= |rs|
  {
    forall k :: 0 <= k < i ==> rs[k] == Leader(column, k) + 1
  }

  lemma ReadInOrder(ranks: map<Id, nat>, order: seq<Id>, scores: Scores, i: nat, j: nat)
    requires ToSet(order) == scores.Keys == ranks.Keys && FollowsScores(ranks, scores) && i <= j < |order|
    requires Score(scores, order[i]) >= Score(scores, order[j])
    ensures Read(ranks, order)[i] <= Read(ranks, order)[j]
  {
    assert order[i] in ToSet(order) && order[j] in ToSet(order);
  }

  lemma ReadSeparates(ranks: map<Id, nat>, order: seq<Id>, scores: Scores, i: nat, j: nat)
    requires ToSet(order) == scores.Keys == ranks.Keys && Separates(ranks, scores) && i < |order| && j < |order|
    requires Score(scores, order[i]) - Score(scores, order[j]) > RANK_TOLERANCE
    ensures Read(ranks, order)[i] < Read(ranks, order)[j]
  {
    assert order[i] in ToSet(order) && order[j] in ToSet(order);
  }

  lemma ColumnDescends(order: seq<Id>, scores: Scores, i: nat, j: nat)
    requires Descending(Column(order, scores)) && i <= j < |order|
    ensures Score(scores, order[i]) >= Score(scores, order[j])
  {
    assert Column(order, scores)[i] == Score(scores, order[i]) && Column(order, scores)[j] == Score(scores, order[j]);
  }

  lemma ReadFromTop(ranks: map<Id, nat>, order: seq<Id>, scores: Scores, i: nat, j: nat)
    requires ToSet(order) == scores.Keys == ranks.Keys && GroupsFromTop(ranks, scores) && i < |order| && j < |order|
    requires Read(ranks, order)[j] < Read(ranks, order)[i] && LeadsAt(Column(order, scores), Read(ranks, order), j)
    ensures Score(scores, order[j]) - Score(scores, order[i]) > RANK_TOLERANCE
  {
    var rs, column := Read(ranks, order), Column(order, scores);
    assert order[i] in ToSet(order) && order[j] in ToSet(order);
    forall c | c in ranks && ranks[c] == ranks[order[j]] ensures scores[c] <= scores[order[j]] {
      assert c in order;
      var k :| 0 <= k < |order| && order[k] == c;
      assert rs[k] == rs[j];
      assert column[k] == scores[c] && column[j] == scores[order[j]];
    }
    assert Leads(ranks, scores, order[j]);
  }

  /** A place that follows its group's leader has the leader's rank. */
  lemma FollowerJoins(column: seq<real>, rs: seq<nat>, i: nat)
    requires |column| == |rs| && i < |rs| && Descending(column) && Leader(column, i) < i
    requires rs[Leader(column, i)] == Leader(column, i) + 1 && forall k :: 0 <= k < Leader(column, i) ==> rs[k] <= Leader(column, i)
    requires rs[Leader(column, i)] <= rs[i]
    requires rs[Leader(column, i)] < rs[i] && LeadsAt(column, rs, Leader(column, i)) ==> column[Leader(column, i)] - column[i] > RANK_TOLERANCE
    ensures rs[i] == Leader(column, i) + 1
  {
    var l := Leader(column, i);
    LeaderIsOwnLeader(column, i);
    forall k | 0 <= k < |rs| && rs[k] == rs[l] ensures column[k] <= column[l] {
      assert k >= l;
    }
  }

  lemma AgreeingRanks(column: seq<real>, rs: seq<nat>, i: nat, l: nat)
    requires |column| == |rs| && l < i <= |rs| && AgreeTo(column, rs, i) && Leader(column, l) == l
    ensures rs[l] == l + 1 && forall k :: 0 <= k < l ==> rs[k] <= l
  {
    forall k | 0 <= k < l ensures rs[k] <= l {
      assert rs[k] == Leader(column, k) + 1 <= k + 1;
    }
  }

  lemma FollowerStep(ranks: map<Id, nat>, order: seq<Id>, scores: Scores, i: nat)
    requires RanksBy(order, scores) && CompetitionRanks(ranks, scores) && i < |order|
    requires AgreeTo(Column(order, scores), Read(ranks, order), i) && Leader(Column(order, scores), i) < i
    ensures Read(ranks, order)[i] == Leader(Column(order, scores), i) + 1
  {
    var column, rs := Column(order, scores), Read(ranks, order);
    var l := Leader(column, i);
    LeaderIsOwnLeader(column, i);
    AgreeingRanks(column, rs, i, l);
    ColumnDescends(order, scores, l, i);
    ReadInOrder(ranks, order, scores, l, i);
    if rs[l] < rs[i] && LeadsAt(column, rs, l) {
      ReadFromTop(ranks, order, scores, i, l);
    }
    FollowerJoins(column, rs, i);
  }

  lemma EarlierIsBetter(column: seq<real>, rs: seq<nat>, i: nat, j: nat, p: nat)
    requires |column| == |rs| && j < i < |rs| && p == Leader(column, i - 1)
    requires rs[p] == p + 1 && rs[j] == Leader(column, j) + 1 && rs[p] < rs[i]
    ensures rs[j] < rs[i]
  {
    LeaderMonotone(column, j, i - 1);
  }

  lemma PreviousLeaderIsBetter(ranks: map<Id, nat>, order: seq<Id>, scores: Scores, i: nat)
    requires ToSet(order) == scores.Keys == ranks.Keys && Descending(Column(order, scores)) && Separates(ranks, scores)
    requires 0 < i < |order| && Leader(Column(order, scores), i) == i
    ensures Read(ranks, order)[Leader(Column(order, scores), i - 1)] < Read(ranks, order)[i]
  {
    var column := Column(order, scores);
    var p := Leader(column, i - 1);
    FurtherApart(column, p, p, i);
    assert column[p] == Score(scores, order[p]) && column[i] == Score(scores, order[i]);
    ReadSeparates(ranks, order, scores, p, i);
  }

  lemma PreviousGroupIsBetter(column: seq<real>, rs: seq<nat>, i: nat)
    requires |column| == |rs| && 0 < i < |rs| && AgreeTo(column, rs, i) && rs[Leader(column, i - 1)] < rs[i]
    ensures forall j :: 0 <= j < i ==> rs[j] < rs[i]
  {
    var p := Leader(column, i - 1);
    LeaderIsOwnLeader(column, i - 1);
    assert rs[p] == p + 1;
    forall j | 0 <= j < i ensures rs[j] < rs[i] {
      EarlierIsBetter(column, rs, i, j, p);
    }
  }

  lemma LeaderStep(ranks: map<Id, nat>, order: seq<Id>, scores: Scores, i: nat)
    requires RanksBy(order, scores) && CompetitionRanks(ranks, scores) && i < |order|
    requires AgreeTo(Column(order, scores), Read(ranks, order), i) && Leader(Column(order, scores), i) == i
    ensures Read(ranks, order)[i] == i + 1
  {
    if i > 0 {
      PreviousLeaderIsBetter(ranks, order, scores, i);
      PreviousGroupIsBetter(Column(order, scores), Read(ranks, order), i);
    }
    forall j | i <= j < |order| ensures Read(ranks, order)[i] <= Read(ranks, order)[j] {
      ColumnDescends(order, scores, i, j);
      ReadInOrder(ranks, order, scores, i, j);
    }
    BetterAreEarlier(ranks, order, i);
    DistinctPrefix(order, i);
    DistinctSize(order[..i]);
    assert ranks[order[i]] == 1 + |BetterThan(ranks, order[i])|;
  }

  lemma BetterAreEarlier(ranks: map<Id, nat>, order: seq<Id>, i: nat)
    requires ranks.Keys == ToSet(order) && i < |order|
    requires forall j :: 0 <= j < i ==> Read(ranks, order)[j] < Read(ranks, order)[i]
    requires forall j :: i <= j < |order| ==> Read(ranks, order)[i] <= Read(ranks, order)[j]
    ensures order[i] in ranks && BetterThan(ranks, order[i]) == ToSet(order[..i])
  {
    var rs, a := Read(ranks, order), order[i];
    forall b ensures b in BetterThan(ranks, a) <==> b in order[..i] {
      if b in order[..i] {
        var j :| 0 <= j < i && order[..i][j] == b;
        assert rs[j] < rs[i];
      }
      if b in BetterThan(ranks, a) {
        assert b in order;
        var k :| 0 <= k < |order| && order[k] == b;
        assert k < i;
        assert order[..i][k] == b;
      }
    }
  }

  lemma NextRank(ranks: map<Id, nat>, order: seq<Id>, scores: Scores, i: nat)
    requires RanksBy(order, scores) && CompetitionRanks(ranks, scores) && i < |order|
    requires AgreeTo(Column(order, scores), Read(ranks, order), i)
    ensures Read(ranks, order)[i] == Leader(Column(order, scores), i) + 1
  {
    if Leader(Column(order, scores), i) < i {
      FollowerStep(ranks, order, scores, i);
    } else {
      LeaderStep(ranks, order, scores, i);
    }
  }

  lemma AgreeOneMore(column: seq<real>, rs: seq<nat>, i: nat)
    requires |column| == |rs| && i < |rs| && AgreeTo(column, rs, i) && rs[i] == Leader(column, i) + 1
    ensures AgreeTo(column, rs, i + 1)
  {
  }

  lemma CompetitionAgrees(ranks: map<Id, nat>, order: seq<Id>, scores: Scores)
    requires RanksBy(order, scores) && CompetitionRanks(ranks, scores)
    ensures AgreeTo(Column(order, scores), Read(ranks, order), |order|)
  {
    for i := 0 to |order|
      invariant AgreeTo(Column(order, scores), Read(ranks, order), i)
    {
      NextRank(ranks, order, scores, i);
      AgreeOneMore(Column(order, scores), Read(ranks, order), i);
    }
  }

  lemma AgreeingIsReadOff(ranks: map<Id, nat>, order: seq<Id>, scores: Scores)
    requires RanksBy(order, scores) && ranks.Keys == ToSet(order) && AgreeTo(Column(order, scores), Read(ranks, order), |order|)
    ensures ReadsOff(ranks, order, scores)
  {
  }

  /** There is only one competition ranking of the scores, and it is the loop's. */
  lemma CompetitionRanksIff(ranks: map<Id, nat>, order: seq<Id>, scores: Scores)
    requires RanksBy(order, scores)
    ensures CompetitionRanks(ranks, scores) <==> ranks == RanksUpTo(order, scores, |order|)
  {
    var loop := RanksUpTo(order, scores, |order|);
    AllRanksReadOff(order, scores);
    LoopRanksAreCompetitionRanks(loop, order, scores);
    if CompetitionRanks(ranks, scores) {
      CompetitionAgrees(ranks, order, scores);
      AgreeingIsReadOff(ranks, order, scores);
      RanksDoNotDependOnOrder(ranks, order, loop, order, scores);
    }
  }

  // ----- Independence of the input order -----

  function Without<T>(xs: seq<T>, j: nat): seq<T>
    requires j < |xs|
  {
    xs[..j] + xs[j + 1..]
  }

  lemma RemoveAt<T>(xs: seq<T>, j: nat)
    requires j < |xs|
    ensures multiset(xs) == multiset(Without(xs, j)) + multiset{xs[j]}
    ensures multiset(Without(xs, j)) == multiset(xs) - multiset{xs[j]}
  {
    assert xs == xs[..j] + [xs[j]] + xs[j + 1..];
  }

  lemma SameHead(xs: seq<real>, ys: seq<real>)
    requires Descending(xs) && Descending(ys) && multiset(xs) == multiset(ys) && xs != [] && ys != []
    ensures xs[0] == ys[0]
  {
    PermutationMembers(xs, ys);
    assert xs[0] in ys && ys[0] in xs;
  }

  lemma HeadOff<T>(xs: seq<T>)
    requires xs != []
    ensures multiset(xs[1..]) == multiset(xs) - multiset{xs[0]}
  {
    assert xs == [xs[0]] + xs[1..];
  }

  lemma TailsPermute(xs: seq<real>, ys: seq<real>)
    requires multiset(xs) == multiset(ys) && xs != [] && ys != [] && xs[0] == ys[0]
    ensures multiset(xs[1..]) == multiset(ys[1..])
  {
    HeadOff(xs);
    HeadOff(ys);
  }

  lemma {:induction false} DescendingIsUnique(xs: seq<real>, ys: seq<real>)
    requires Descending(xs) && Descending(ys) && multiset(xs) == multiset(ys)
    ensures xs == ys
  {
    assert |multiset(xs)| == |multiset(ys)|;
    if xs != [] {
      SameHead(xs, ys);
      TailsPermute(xs, ys);
      DescendingIsUnique(xs[1..], ys[1..]);
      assert xs == [xs[0]] + xs[1..] && ys == [ys[0]] + ys[1..];
    }
  }

  lemma RemoveOne(order: seq<Id>, j: nat, scores: Scores)
    requires j < |order|
    ensures multiset(Without(order, j)) == multiset(order) - multiset{order[j]}
    ensures multiset(Column(order, scores)) == multiset(Column(Without(order, j), scores)) + multiset{Score(scores, order[j])}
  {
    RemoveAt(order, j);
    RemoveAt(Column(order, scores), j);
    assert Column(Without(order, j), scores) == Without(Column(order, scores), j);
  }

  lemma {:induction false} SameCodesSameColumn(order: seq<Id>, other: seq<Id>, scores: Scores)
    requires multiset(order) == multiset(other)
    ensures multiset(Column(order, scores)) == multiset(Column(other, scores))
    decreases |order|
  {
    PermutationMembers(order, other);
    if order != [] {
      assert order[0] in other;
      var j :| 0 <= j < |other| && other[j] == order[0];
      RemoveOne(order, 0, scores);
      RemoveOne(other, j, scores);
      SameCodesSameColumn(Without(order, 0), Without(other, j), scores);
    }
  }

  /** Two ways of sorting the same scores, however they break ties and whatever order the opinions
      came in, give every instrument the same rank. */
  lemma RanksDoNotDependOnOrder(ranks: map<Id, nat>, order: seq<Id>,
                                others: map<Id, nat>, other: seq<Id>, scores: Scores)
    requires RanksBy(order, scores) && ReadsOff(ranks, order, scores)
    requires RanksBy(other, scores) && ReadsOff(others, other, scores)
    ensures ranks == others
  {
    var column, column' := Column(order, scores), Column(other, scores);
    DistinctMembersPermute(order, other);
    SameCodesSameColumn(order, other, scores);
    DescendingIsUnique(Column(order, scores), Column(other, scores));
    forall a | a in scores ensures a in ranks && a in others && ranks[a] == others[a] {
      SameColumnSameRank(ranks, order, others, other, scores, a);
    }
  }

  lemma SameColumnSameRank(ranks: map<Id, nat>, order: seq<Id>, others: map<Id, nat>, other: seq<Id>, scores: Scores, a: Id)
    requires RanksBy(order, scores) && ReadsOff(ranks, order, scores)
    requires RanksBy(other, scores) && ReadsOff(others, other, scores)
    requires Column(order, scores) == Column(other, scores) && a in scores
    ensures a in ranks && a in others && ranks[a] == others[a]
  {
    assert a in ToSet(order) && a in ToSet(other);
    var i :| 0 <= i < |order| && order[i] == a;
    var j :| 0 <= j < |other| && other[j] == a;
    var column := Column(order, scores);
    assert column[i] == Score(scores, a) == Column(other, scores)[j];
    assert ranks[a] == RankAt(order, scores, i) && others[a] == RankAt(other, scores, j);
    if i <= j { EqualScoresShareGroup(column, i, j); } else { EqualScoresShareGroup(column, j, i); }
  }

  // ----- The whole ranking step -----

  datatype Place = Place(rank: nat, tied: bool)

  /** How many instruments share a rank. */
  function Sharing(ranks: map<Id, nat>, rank: nat): set<Id> {
    set c | c in ranks && ranks[c] == rank
  }

  ghost predicate Ranked(places: map<Id, Place>, scores: Scores) {
    && places.Keys == scores.Keys
    && CompetitionRanks(RankColumn(places), scores)
    && TiesExact(places)
  }

  ghost predicate TiesExact(places: map<Id, Place>) {
    forall a {:trigger places[a].tied} :: a in places ==>
      (places[a].tied <==> exists b :: b in places && b != a && places[b].rank == places[a].rank)
  }

  lemma SameRanksSamePlaces(places: map<Id, Place>, places': map<Id, Place>)
    requires TiesExact(places) && TiesExact(places') && RankColumn(places) == RankColumn(places')
    ensures places == places'
  {
    assert places.Keys == RankColumn(places).Keys == places'.Keys;
    forall c | c in places ensures c in places' && places[c].rank == places'[c].rank {
      assert RankColumn(places)[c] == RankColumn(places')[c];
    }
    forall c | c in places ensures places[c] == places'[c] {
      SameTie(places, places', c);
      SameTie(places', places, c);
    }
  }

  lemma SameTie(places: map<Id, Place>, places': map<Id, Place>, c: Id)
    requires TiesExact(places) && TiesExact(places') && c in places && places.Keys == places'.Keys
    requires forall b :: b in places ==> places[b].rank == places'[b].rank
    ensures places[c].tied ==> places'[c].tied
  {
    if places[c].tied {
      var b :| b in places && b != c && places[b].rank == places[c].rank;
      assert b in places' && places'[b].rank == places'[c].rank;
    }
  }

  function RankColumn(places: map<Id, Place>): map<Id, nat> {
    map c | c in places :: places[c].rank
  }

  method CountRank(order: seq<Id>, ranks: map<Id, nat>, rank: nat) returns (count: nat)
    requires NoDuplicates(order) && ranks.Keys == ToSet(order)
    ensures count == |Sharing(ranks, rank)|
  {
    count := 0;
    ghost var seen: set<Id> := {};
    for i := 0 to |order|
      invariant seen == set c | c in order[..i] && ranks[c] == rank
      invariant count == |seen|
    {
      assert order[..i + 1] == order[..i] + [order[i]];
      DistinctPrefix(order, i + 1);
      DistinctInit(order[..i], order[i]);
      assert order[i] in ToSet(order);
      if ranks[order[i]] == rank {
        seen := seen + {order[i]};
        count := count + 1;
      }
    }
    assert order[..|order|] == order;
    assert seen == Sharing(ranks, rank);
  }

  function PlacesFor(codes: set<Id>, ranks: map<Id, nat>): map<Id, Place> {
    map c | c in codes && c in ranks :: Place(ranks[c], |Sharing(ranks, ranks[c])| > 1)
  }

  /** The rank and tie flag of every code, as the loops below compute them. */
  function RankPlaces(codes: seq<Id>, scores: Scores, position: map<Id, nat>): map<Id, Place>
    requires forall c :: c in codes ==> c in scores && c in position
  {
    var order := SortCodes(codes, scores, position);
    PlacesFor(ToSet(order), RanksUpTo(order, scores, |order|))
  }

  method PlaceAll(order: seq<Id>, ranks: map<Id, nat>) returns (places: map<Id, Place>)
    requires NoDuplicates(order) && ranks.Keys == ToSet(order)
    ensures places == PlacesFor(ToSet(order), ranks)
  {
    places := map[];
    for i := 0 to |order|
      invariant places == PlacesFor(ToSet(order[..i]), ranks)
    {
      var code := order[i];
      assert code in ToSet(order);
      var sharing := CountRank(order, ranks, ranks[code]);
      assert ToSet(order[..i + 1]) == ToSet(order[..i]) + {code};
      places := places[code := Place(ranks[code], sharing > 1)];
    }
    assert order[..|order|] == order;
  }

  /** `codes` are the instruments in the order their opinions arrived. The result is the competition
      ranking of the scores with an exact tie flag, so it is the same for every arrival order. */
  method RankInstruments(codes: seq<Id>, scores: Scores, position: map<Id, nat>)
    returns (places: map<Id, Place>)
    requires NoDuplicates(codes) && ToSet(codes) == scores.Keys == position.Keys
    ensures places == RankPlaces(codes, scores, position)
    ensures Ranked(places, scores)
    ensures ReadsOff(RankColumn(places), SortCodes(codes, scores, position), scores)
  {
    var order := SortCodes(codes, scores, position);
    SortCodesRanks(codes, scores, position);
    var ranks := AssignRanks(order, scores);
    AllRanksReadOff(order, scores);
    places := PlaceAll(order, ranks);
    PlacesAreRanked(places, order, ranks, scores);
  }

  /** The specification of the whole step has the ranks and tie flags it should have. */
  lemma RankPlacesAreRanked(codes: seq<Id>, scores: Scores, position: map<Id, nat>)
    requires NoDuplicates(codes) && ToSet(codes) == scores.Keys == position.Keys
    ensures Ranked(RankPlaces(codes, scores, position), scores)
  {
    var order := SortCodes(codes, scores, position);
    SortCodesRanks(codes, scores, position);
    AllRanksReadOff(order, scores);
    PlacesAreRanked(RankPlaces(codes, scores, position), order, RanksUpTo(order, scores, |order|), scores);
  }

  lemma PlacesAreRanked(places: map<Id, Place>, order: seq<Id>, ranks: map<Id, nat>, scores: Scores)
    requires RanksBy(order, scores) && ReadsOff(ranks, order, scores)
    requires places == PlacesFor(ToSet(order), ranks)
    ensures RankColumn(places) == ranks && Ranked(places, scores)
  {
    assert RankColumn(places) == ranks;
    LoopRanksAreCompetitionRanks(ranks, order, scores);
    TiesAreExact(places, ranks);
  }

  lemma TiesAreExact(places: map<Id, Place>, ranks: map<Id, nat>)
    requires places == PlacesFor(ranks.Keys, ranks)
    ensures TiesExact(places)
  {
    assert forall b :: b in places <==> b in ranks;
    assert forall b :: b in places ==> places[b].rank == ranks[b];
    forall a | a in places
      ensures places[a].tied <==> exists b :: b in places && b != a && places[b].rank == places[a].rank
    {
      SharedIffAnother(ranks, a);
    }
  }

  lemma SharedIffAnother(ranks: map<Id, nat>, a: Id)
    requires a in ranks
    ensures |Sharing(ranks, ranks[a])| > 1 <==> exists b :: b in ranks && b != a && ranks[b] == ranks[a]
  {
    var sharing := Sharing(ranks, ranks[a]);
    assert a in sharing;
    if b :| b in ranks && b != a && ranks[b] == ranks[a] {
      assert {a, b} <= sharing;
      assert |sharing - {a, b}| == |sharing| - 2;
    } else {
      assert sharing == {a};
    }
  }

  /** Two runs of the ranking step over the same scores agree on every rank and every tie flag,
      whatever order the opinions arrived in and however equal scores were positioned. */
  lemma PlacesDoNotDependOnArrival(places: map<Id, Place>, codes: seq<Id>, position: map<Id, nat>,
                                   places': map<Id, Place>, codes': seq<Id>, position': map<Id, nat>, scores: Scores)
    requires NoDuplicates(codes) && ToSet(codes) == scores.Keys == position.Keys
    requires NoDuplicates(codes') && ToSet(codes') == scores.Keys == position'.Keys
    requires Ranked(places, scores) && ReadsOff(RankColumn(places), SortCodes(codes, scores, position), scores)
    requires Ranked(places', scores) && ReadsOff(RankColumn(places'), SortCodes(codes', scores, position'), scores)
    ensures places == places'
  {
    SortCodesRanks(codes, scores, position);
    SortCodesRanks(codes', scores, position');
    RanksDoNotDependOnOrder(RankColumn(places), SortCodes(codes, scores, position),
                            RankColumn(places'), SortCodes(codes', scores, position'), scores);
    SameRanksSamePlaces(places, places');
  }

  predicate Close(scores: Scores, a: Id, b: Id) {
    a in scores && b in scores && Abs(scores[a] - scores[b]) <= RANK_TOLERANCE
  }

  ghost predicate CloseIsTransitive(scores: Scores) {
    forall a, b, c :: Close(scores, a, b) && Close(scores, b, c) ==> Close(scores, a, c)
  }

  ghost predicate CloseScoresShareRank(ranks: map<Id, nat>, scores: Scores)
    requires ranks.Keys == scores.Keys
  {
    forall a, b :: Close(scores, a, b) ==> ranks[a] == ranks[b]
  }

  /** As long as scores stay within the tolerance of a group's first one, they stay in the group. */
  lemma {:induction false} RunStaysInGroup(column: seq<real>, l: nat, k: nat)
    requires Descending(column) && l <= k < |column| && Leader(column, l) == l && column[l] - column[k] <= RANK_TOLERANCE
    ensures Leader(column, k) == l
  {
    if l < k {
      assert column[l] >= column[k - 1] >= column[k];
      RunStaysInGroup(column, l, k - 1);
      assert column[l] >= column[k];
    }
  }

  lemma ClosePairSharesRank(ranks: map<Id, nat>, order: seq<Id>, scores: Scores, i: nat, j: nat)
    requires RanksBy(order, scores) && ReadsOff(ranks, order, scores) && CloseIsTransitive(scores)
    requires i <= j < |order| && Close(scores, order[i], order[j])
    ensures RankAt(order, scores, i) == RankAt(order, scores, j)
  {
    var column := Column(order, scores);
    var l := Leader(column, i);
    LeaderIsOwnLeader(column, i);
    assert order[l] in ToSet(order) && column[l] == Score(scores, order[l]) && column[j] == Score(scores, order[j]);
    assert column[i] == Score(scores, order[i]);
    assert Close(scores, order[l], order[i]);
    assert Close(scores, order[l], order[j]);
    RunStaysInGroup(column, l, j);
  }

  /** Groups are measured from their first member, so scores within the tolerance of one another share a
      rank throughout if and only if being within the tolerance is transitive on the scores. */
  lemma CloseScoresShareRankIff(ranks: map<Id, nat>, order: seq<Id>, scores: Scores)
    requires RanksBy(order, scores) && ReadsOff(ranks, order, scores)
    ensures ranks.Keys == scores.Keys
    ensures CloseScoresShareRank(ranks, scores) <==> CloseIsTransitive(scores)
  {
    LoopRanksAreCompetitionRanks(ranks, order, scores);
    if CloseIsTransitive(scores) {
      forall a, b | Close(scores, a, b) ensures ranks[a] == ranks[b] {
        assert a in ToSet(order) && b in ToSet(order);
        var i :| 0 <= i < |order| && order[i] == a;
        var j :| 0 <= j < |order| && order[j] == b;
        assert ranks[a] == RankAt(order, scores, i) && ranks[b] == RankAt(order, scores, j);
        if i <= j {
          ClosePairSharesRank(ranks, order, scores, i, j);
        } else {
          ClosePairSharesRank(ranks, order, scores, j, i);
        }
      }
    }
    SharedRanksAreTransitive(ranks, scores);
  }

  lemma SharedRanksAreTransitive(ranks: map<Id, nat>, scores: Scores)
    requires CompetitionRanks(ranks, scores)
    ensures CloseScoresShareRank(ranks, scores) ==> CloseIsTransitive(scores)
  {
    if CloseScoresShareRank(ranks, scores) {
      forall a, b, c | Close(scores, a, b) && Close(scores, b, c) ensures Close(scores, a, c) {
        assert ranks[a] == ranks[c];
      }
    }
  }

  /** A chain of close scores that is cut, so the condition can fail. */
  lemma CloseScoresMayRankApart()
    ensures exists order: seq<Id>, scores: Scores, ranks: map<Id, nat> ::
              RanksBy(order, scores) && ReadsOff(ranks, order, scores) &&
              exists a, b :: a in ranks && b in ranks && a in scores && b in scores &&
                             Abs(scores[a] - scores[b]) <= RANK_TOLERANCE && ranks[a] != ranks[b]
  {
    ExampleIsRanked();
    assert Abs(EXAMPLE_SCORES[Id("B")] - EXAMPLE_SCORES[Id("C")]) <= RANK_TOLERANCE;
    assert EXAMPLE_RANKS[Id("B")] != EXAMPLE_RANKS[Id("C")];
  }

  const EXAMPLE_ORDER: seq<Id> := [Id("A"), Id("B"), Id("C")]
  const EXAMPLE_SCORES: Scores := map[Id("A") := 0.0000014, Id("B") := 0.0000007, Id("C") := 0.0]
  const EXAMPLE_RANKS: map<Id, nat> := map[Id("A") := 1, Id("B") := 1, Id("C") := 3]

  lemma ExampleColumn()
    ensures Column(EXAMPLE_ORDER, EXAMPLE_SCORES) == [0.0000014, 0.0000007, 0.0]
    ensures NoDuplicates(EXAMPLE_ORDER) && ToSet(EXAMPLE_ORDER) == EXAMPLE_SCORES.Keys
  {
    var order := EXAMPLE_ORDER;
    assert order[0] != order[1] && order[1] != order[2] && order[0] != order[2];
    assert ToSet(order) == EXAMPLE_SCORES.Keys;
  }

  lemma ExampleLeaders(column: seq<real>)
    requires column == [0.0000014, 0.0000007, 0.0]
    ensures Descending(column) && Leader(column, 0) == 0 && Leader(column, 1) == 0 && Leader(column, 2) == 2
  {
  }

  lemma ExampleIsRanked()
    ensures RanksBy(EXAMPLE_ORDER, EXAMPLE_SCORES) && ReadsOff(EXAMPLE_RANKS, EXAMPLE_ORDER, EXAMPLE_SCORES)
  {
    ExampleColumn();
    ExampleLeaders(Column(EXAMPLE_ORDER, EXAMPLE_SCORES));
  }
}
