/** The Laplace-smoothed historical baseline that scorecards compare forecasts with: the loop that counts
    labels, and why its result is the right constant forecast to compare with. */
module Baseline {
  import opened Common
  import opened Scoring

  /** A historical label: one of the three classes, or text that names none of them. */
  type Label = Option<Direction>

  const CLASSES: seq<Direction> := [Up, Neutral, Down]

  function Occurrences(labels: seq<Label>, d: Direction): nat {
    multiset(labels)[Some(d)]
  }

  /** Every label is counted for exactly one class. */
  lemma {:induction false} OccurrencesCover(labels: seq<Label>)
    requires None !in labels
    ensures Occurrences(labels, Up) + Occurrences(labels, Neutral) + Occurrences(labels, Down) == |labels|
  {
    if labels != [] {
      var init, last := labels[..|labels| - 1], labels[|labels| - 1];
      OccurrencesCover(init);
      assert labels == init + [last] && last in labels;
      assert multiset(labels) == multiset(init) + multiset{last};
      match last.value { case Up => case Neutral => case Down => }
    }
  }

  /** Multiplication as repeated addition, which keeps the sums below linear. */
  function Times(n: nat, x: real): real {
    if n == 0 then 0.0 else Times(n - 1, x) + x
  }

  lemma {:induction false} TimesIsProduct(n: nat, x: real)
    ensures Times(n, x) == (n as real) * x
  {
    if n > 0 {
      TimesIsProduct(n - 1, x);
    }
  }

  lemma {:induction false} TimesAdds(n: nat, x: real, y: real)
    ensures Times(n, x + y) == Times(n, x) + Times(n, y)
  {
    if n > 0 {
      TimesAdds(n - 1, x, y);
    }
  }

  predicate HasShare(labels: seq<Label>, q: Probabilities, d: Direction) {
    0.0 < q.Of(d) < 1.0 && Times(|labels| + 3, q.Of(d)) == (Occurrences(labels, d) + 1) as real
  }

  /** `q` gives every class its share of the labels when each class is granted one label more. */
  predicate IsBaseline(labels: seq<Label>, q: Probabilities) {
    HasShare(labels, q, Up) && HasShare(labels, q, Neutral) && HasShare(labels, q, Down)
  }

  lemma Between(n: real, x: real, c: real)
    requires n * x == c && 0.0 < c < n
    ensures 0.0 < x < 1.0
  {
    PositiveFactor(n, x);
    assert n * (1.0 - x) == n - c;
    PositiveFactor(n, 1.0 - x);
  }

  lemma PositiveFactor(n: real, x: real)
    requires n > 0.0 && n * x > 0.0
    ensures x > 0.0
  {
  }

  lemma ShareIff(labels: seq<Label>, q: Probabilities, d: Direction)
    requires None !in labels
    ensures HasShare(labels, q, d) <==> (|labels| + 3) as real * q.Of(d) == (multiset(labels)[Some(d)] + 1) as real
  {
    TimesIsProduct(|labels| + 3, q.Of(d));
    OccurrencesCover(labels);
    assert Occurrences(labels, d) <= |labels| by {
      match d { case Up => case Neutral => case Down => }
    }
    if (|labels| + 3) as real * q.Of(d) == (Occurrences(labels, d) + 1) as real {
      Between((|labels| + 3) as real, q.Of(d), (Occurrences(labels, d) + 1) as real);
    }
  }

  /** The baseline by the numbers: one more than the label's count, over three more than there are labels. */
  lemma BaselineIff(labels: seq<Label>, q: Probabilities)
    requires None !in labels
    ensures IsBaseline(labels, q) <==>
            && (|labels| + 3) as real * q.up == (multiset(labels)[Some(Up)] + 1) as real
            && (|labels| + 3) as real * q.neutral == (multiset(labels)[Some(Neutral)] + 1) as real
            && (|labels| + 3) as real * q.down == (multiset(labels)[Some(Down)] + 1) as real
  {
    ShareIff(labels, q, Up);
    ShareIff(labels, q, Neutral);
    ShareIff(labels, q, Down);
  }

  lemma SharesTotalOne(labels: seq<Label>, q: Probabilities)
    requires None !in labels && IsBaseline(labels, q)
    ensures q.Total() == 1.0
  {
    OccurrencesCover(labels);
    assert q.Of(Up) == q.up && q.Of(Neutral) == q.neutral && q.Of(Down) == q.down;
    SharesSumToOne(q.up, q.neutral, q.down, Occurrences(labels, Up) + 1, Occurrences(labels, Neutral) + 1,
                   Occurrences(labels, Down) + 1, |labels| + 3);
  }

  lemma UnitTotalIsValid(q: Probabilities)
    requires q.Bounded() && q.Total() == 1.0
    ensures ScoringValid(q)
  {
    ValidatorsAgree(q);
  }

  lemma SharesSumToOne(a: real, b: real, c: real, u: nat, v: nat, w: nat, total: nat)
    requires u + v + w == total && total > 0
    requires Times(total, a) == u as real && Times(total, b) == v as real && Times(total, c) == w as real
    ensures a + b + c == 1.0
  {
    assert u as real + v as real + w as real == total as real;
    TimesAdds(total, a, b);
    TimesAdds(total, a + b, c);
    TimesCancels(total, a + b + c);
  }

  lemma TimesCancels(n: nat, x: real)
    requires n > 0 && Times(n, x) == n as real
    ensures x == 1.0
  {
    TimesIsProduct(n, x);
    assert (x - 1.0) * (n as real) == 0.0;
  }

  /** The baseline is a proper distribution: it sums to exactly one and rules no class out. */
  lemma BaselineIsDistribution(labels: seq<Label>, q: Probabilities)
    requires None !in labels && IsBaseline(labels, q)
    ensures q.Total() == 1.0 && ScoringValid(q)
  {
    SharesTotalOne(labels, q);
    assert q.Of(Up) == q.up && q.Of(Neutral) == q.neutral && q.Of(Down) == q.down;
    UnitTotalIsValid(q);
  }

  /** A quotient strictly between zero and one. */
  function Share(count: nat, total: nat): (r: real)
    requires 0 < count < total
    ensures 0.0 < r < 1.0 && Times(total, r) == count as real
  {
    TimesIsProduct(total, (count as real) / (total as real));
    (count as real) / (total as real)
  }

  function FromCounts(up: nat, neutral: nat, down: nat): Probabilities
    requires up > 0 && neutral > 0 && down > 0
  {
    var total := up + neutral + down;
    Probabilities(Share(up, total), Share(neutral, total), Share(down, total))
  }

  lemma FromCountsIsBaseline(labels: seq<Label>, up: nat, neutral: nat, down: nat)
    requires None !in labels
    requires up == Occurrences(labels, Up) + 1 && neutral == Occurrences(labels, Neutral) + 1 && down == Occurrences(labels, Down) + 1
    ensures IsBaseline(labels, FromCounts(up, neutral, down))
  {
    OccurrencesCover(labels);
    assert up + neutral + down == |labels| + 3;
    var q := FromCounts(up, neutral, down);
    assert q.Of(Up) == Share(up, |labels| + 3);
    assert q.Of(Neutral) == Share(neutral, |labels| + 3);
    assert q.Of(Down) == Share(down, |labels| + 3);
  }

  /** `smoothed_baseline` */
  method SmoothedBaseline(labels: seq<Label>) returns (r: Result<Probabilities>)
    ensures r.Ok? <==> None !in labels
    ensures r.Ok? ==> IsBaseline(labels, r.value) && ScoringValid(r.value)
  {
    var counts: map<Direction, nat> := map[Up := 1, Neutral := 1, Down := 1];
    for i := 0 to |labels|
      invariant None !in labels[..i]
      invariant counts.Keys == {Up, Neutral, Down}
      invariant forall d :: d in counts ==> counts[d] == Occurrences(labels[..i], d) + 1
    {
      assert labels[..i + 1] == labels[..i] + [labels[i]];
      if labels[i].None? {
        return Err("unknown historical label");
      }
      var d := labels[i].value;
      assert d.Up? || d.Neutral? || d.Down?;
      counts := counts[d := counts[d] + 1];
    }
    assert labels[..|labels|] == labels;
    r := Ok(FromCounts(counts[Up], counts[Neutral], counts[Down]));
    FromCountsIsBaseline(labels, counts[Up], counts[Neutral], counts[Down]);
    BaselineIsDistribution(labels, r.value);
  }

  /** Only how often each label occurred matters, never in which order. */
  lemma BaselineIgnoresOrder(xs: seq<Label>, ys: seq<Label>, q: Probabilities)
    requires multiset(xs) == multiset(ys)
    ensures IsBaseline(xs, q) <==> IsBaseline(ys, q)
  {
    PermutationMembers(xs, ys);
  }

  // ----- Optimality -----

  /** Total Brier score of the constant forecast `p`. */
  function TotalBrier(outcomes: seq<Direction>, p: Probabilities): real {
    if outcomes == [] then 0.0
    else TotalBrier(outcomes[..|outcomes| - 1], p) + Brier(p, outcomes[|outcomes| - 1])
  }

  function SumOver(f: Direction -> real, classes: seq<Direction>): real {
    if classes == [] then 0.0 else SumOver(f, classes[1..]) + f(classes[0])
  }

  function SquaredGap(p: Probabilities, q: Probabilities): Direction -> real {
    (d: Direction) => Square(p.Of(d) - q.Of(d))
  }

  /** Squared Euclidean distance. */
  function Distance(p: Probabilities, q: Probabilities): real {
    SumOver(SquaredGap(p, q), CLASSES)
  }

  function ClassOf(): Label -> Direction {
    (x: Label) => if x.Some? then x.value else Up
  }

  /** The observed classes and one pseudo-observation of each class. */
  function Smoothed(labels: seq<Label>): seq<Direction>
    requires None !in labels
  {
    Map(labels, ClassOf()) + CLASSES
  }

  /** One class's share of three times the total. */
  function ClassSum(outcomes: seq<Direction>, d: Direction, x: real): real {
    if outcomes == [] then 0.0
    else ClassSum(outcomes[..|outcomes| - 1], d, x) + SquaredError(x, d, outcomes[|outcomes| - 1])
  }

  lemma {:induction false} TotalBrierByClass(outcomes: seq<Direction>, p: Probabilities)
    ensures 3.0 * TotalBrier(outcomes, p) ==
            ClassSum(outcomes, Up, p.up) + ClassSum(outcomes, Neutral, p.neutral) + ClassSum(outcomes, Down, p.down)
  {
    if outcomes != [] {
      TotalBrierByClass(outcomes[..|outcomes| - 1], p);
    }
  }

  function Miss(y: real, d: Direction, outcome: Direction): real {
    y - (if outcome == d then 1.0 else 0.0)
  }

  /** By how much the forecast `y` of one class misses, with sign, over all outcomes. */
  function Residual(outcomes: seq<Direction>, d: Direction, y: real): real {
    if outcomes == [] then 0.0
    else Residual(outcomes[..|outcomes| - 1], d, y) + Miss(y, d, outcomes[|outcomes| - 1])
  }

  lemma {:induction false} ResidualClosedForm(outcomes: seq<Direction>, d: Direction, y: real)
    ensures Residual(outcomes, d, y) == Times(|outcomes|, y) - (multiset(outcomes)[d] as real)
  {
    if outcomes != [] {
      var init, last := outcomes[..|outcomes| - 1], outcomes[|outcomes| - 1];
      ResidualClosedForm(init, d, y);
      assert outcomes == init + [last];
      assert multiset(outcomes) == multiset(init) + multiset{last};
    }
  }

  lemma {:induction false} MapCounts(labels: seq<Label>, d: Direction)
    requires None !in labels
    ensures multiset(Map(labels, ClassOf()))[d] == Occurrences(labels, d)
  {
    if labels != [] {
      var init, last := labels[..|labels| - 1], labels[|labels| - 1];
      MapCounts(init, d);
      assert labels == init + [last] && last in labels;
      MapSnoc(init, last, ClassOf());
      assert multiset(labels) == multiset(init) + multiset{last};
    }
  }

  lemma SmoothedCounts(labels: seq<Label>, d: Direction)
    requires None !in labels
    ensures multiset(Smoothed(labels))[d] == Occurrences(labels, d) + 1
  {
    MapCounts(labels, d);
    assert multiset(CLASSES)[d] == 1 by {
      match d { case Up => case Neutral => case Down => }
    }
  }

  /** What one class contributes to the excess of `x` over `y`. */
  function ClassGap(outcomes: seq<Direction>, d: Direction, x: real, y: real): real {
    ClassSum(outcomes, d, x) - ClassSum(outcomes, d, y)
  }

  function Weighted(k: real, miss: real): real {
    k * miss
  }

  lemma ErrorGap(x: real, y: real, d: Direction, last: Direction)
    ensures SquaredError(x, d, last) - SquaredError(y, d, last) == Square(x - y) + Weighted(2.0 * (x - y), Miss(y, d, last))
  {
  }

  /** The misses of `y`, each weighted with `k`. */
  function Cross(outcomes: seq<Direction>, d: Direction, k: real, y: real): real {
    if outcomes == [] then 0.0
    else Cross(outcomes[..|outcomes| - 1], d, k, y) + Weighted(k, Miss(y, d, outcomes[|outcomes| - 1]))
  }

  lemma Accumulate(k: real, sum: real, miss: real)
    ensures Weighted(k, sum + miss) == Weighted(k, sum) + Weighted(k, miss)
  {
  }

  lemma {:induction false} CrossIsWeighted(outcomes: seq<Direction>, d: Direction, k: real, y: real)
    ensures Cross(outcomes, d, k, y) == Weighted(k, Residual(outcomes, d, y))
  {
    if outcomes != [] {
      var init, last := outcomes[..|outcomes| - 1], outcomes[|outcomes| - 1];
      CrossIsWeighted(init, d, k, y);
      Accumulate(k, Residual(init, d, y), Miss(y, d, last));
    }
  }

  lemma {:induction false} ClassGapClosedForm(outcomes: seq<Direction>, d: Direction, x: real, y: real)
    ensures ClassGap(outcomes, d, x, y) == Times(|outcomes|, Square(x - y)) + Cross(outcomes, d, 2.0 * (x - y), y)
  {
    if outcomes != [] {
      var init, last := outcomes[..|outcomes| - 1], outcomes[|outcomes| - 1];
      ClassGapClosedForm(init, d, x, y);
      ErrorGap(x, y, d, last);
    }
  }

  /** The baseline's misses cancel out class by class. */
  lemma BaselineResidual(labels: seq<Label>, q: Probabilities, d: Direction)
    requires None !in labels && IsBaseline(labels, q)
    ensures Residual(Smoothed(labels), d, q.Of(d)) == 0.0
  {
    SmoothedCounts(labels, d);
    ResidualClosedForm(Smoothed(labels), d, q.Of(d));
    match d { case Up => case Neutral => case Down => }
  }

  function GapOf(s: seq<Direction>, p: Probabilities, q: Probabilities): Direction -> real {
    (d: Direction) => ClassGap(s, d, p.Of(d), q.Of(d))
  }

  lemma SumOfThree(f: Direction -> real)
    ensures SumOver(f, CLASSES) == f(Up) + f(Neutral) + f(Down)
  {
    assert CLASSES[1..] == [Neutral, Down] && [Neutral, Down][1..] == [Down] && [Down][1..] == [];
    assert SumOver(f, [Down]) == f(Down);
    assert SumOver(f, [Neutral, Down]) == SumOver(f, [Down]) + f(Neutral);
  }

  lemma GapsAddUp(s: seq<Direction>, p: Probabilities, q: Probabilities)
    ensures 3.0 * TotalBrier(s, p) - 3.0 * TotalBrier(s, q) == SumOver(GapOf(s, p, q), CLASSES)
  {
    TotalBrierByClass(s, p);
    TotalBrierByClass(s, q);
    SumOfThree(GapOf(s, p, q));
  }

  lemma {:induction false} SumsScale(f: Direction -> real, g: Direction -> real, n: nat, classes: seq<Direction>)
    requires forall d :: f(d) == Times(n, g(d))
    ensures SumOver(f, classes) == Times(n, SumOver(g, classes))
  {
    if classes == [] {
      TimesIsProduct(n, 0.0);
    } else {
      SumsScale(f, g, n, classes[1..]);
      TimesAdds(n, SumOver(g, classes[1..]), g(classes[0]));
    }
  }

  lemma UnbiasedGap(outcomes: seq<Direction>, d: Direction, x: real, y: real)
    requires Residual(outcomes, d, y) == 0.0
    ensures ClassGap(outcomes, d, x, y) == Times(|outcomes|, Square(x - y))
  {
    ClassGapClosedForm(outcomes, d, x, y);
    CrossIsWeighted(outcomes, d, 2.0 * (x - y), y);
  }

  /** No class is forecast too high or too low on average. */
  ghost predicate Unbiased(outcomes: seq<Direction>, q: Probabilities) {
    forall d :: Residual(outcomes, d, q.Of(d)) == 0.0
  }

  lemma BaselineIsUnbiased(labels: seq<Label>, q: Probabilities)
    requires None !in labels && IsBaseline(labels, q)
    ensures Unbiased(Smoothed(labels), q)
  {
    forall d ensures Residual(Smoothed(labels), d, q.Of(d)) == 0.0 {
      BaselineResidual(labels, q, d);
    }
  }

  lemma GapAt(s: seq<Direction>, p: Probabilities, q: Probabilities, d: Direction)
    requires Unbiased(s, q)
    ensures GapOf(s, p, q)(d) == Times(|s|, SquaredGap(p, q)(d))
  {
    UnbiasedGap(s, d, p.Of(d), q.Of(d));
  }

  lemma UnbiasedExcess(s: seq<Direction>, p: Probabilities, q: Probabilities)
    requires Unbiased(s, q)
    ensures 3.0 * TotalBrier(s, p) - 3.0 * TotalBrier(s, q) == Times(|s|, Distance(p, q))
  {
    forall d ensures GapOf(s, p, q)(d) == Times(|s|, SquaredGap(p, q)(d)) {
      GapAt(s, p, q, d);
    }
    GapsAddUp(s, p, q);
    SumsScale(GapOf(s, p, q), SquaredGap(p, q), |s|, CLASSES);
  }

  /** How much any constant forecast, distribution or not, loses to the baseline: a third of its squared
      distance for every label and every pseudo-label (`Times(n, x)` is `n * x`, by TimesIsProduct). */
  lemma BaselineExcess(labels: seq<Label>, p: Probabilities, q: Probabilities)
    requires None !in labels && IsBaseline(labels, q)
    ensures 3.0 * TotalBrier(Smoothed(labels), p) - 3.0 * TotalBrier(Smoothed(labels), q) == Times(|labels| + 3, Distance(p, q))
  {
    BaselineIsUnbiased(labels, q);
    UnbiasedExcess(Smoothed(labels), p, q);
  }

  /** The baseline is the one and only best constant forecast for the smoothed history. */
  lemma BaselineIsUniquelyOptimal(labels: seq<Label>, p: Probabilities, q: Probabilities)
    requires None !in labels && IsBaseline(labels, q) && p != q
    ensures TotalBrier(Smoothed(labels), q) < TotalBrier(Smoothed(labels), p)
  {
    BaselineIsUnbiased(labels, q);
    UnbiasedExcess(Smoothed(labels), p, q);
    DistanceIsPositive(p, q);
    TimesIsPositive(|Smoothed(labels)|, Distance(p, q));
  }

  lemma {:induction false} TimesIsPositive(n: nat, x: real)
    requires x > 0.0
    ensures Times(n, x) >= 0.0 && (n > 0 ==> Times(n, x) > 0.0)
  {
    if n > 0 {
      TimesIsPositive(n - 1, x);
    }
  }

  lemma DistanceIsPositive(p: Probabilities, q: Probabilities)
    requires p != q
    ensures Distance(p, q) > 0.0
  {
    assert p == Probabilities(p.Of(Up), p.Of(Neutral), p.Of(Down)) && q == Probabilities(q.Of(Up), q.Of(Neutral), q.Of(Down));
    SquareSign(p.Of(Up) - q.Of(Up));
    SquareSign(p.Of(Neutral) - q.Of(Neutral));
    SquareSign(p.Of(Down) - q.Of(Down));
    SumOfThree(SquaredGap(p, q));
  }

  lemma SquareSign(x: real)
    ensures Square(x) >= 0.0 && (x != 0.0 ==> Square(x) > 0.0)
  {
    if x < 0.0 {
      PositiveProduct(-x, -x, Square(x));
    } else if x > 0.0 {
      PositiveProduct(x, x, Square(x));
    }
  }

  lemma PositiveProduct(a: real, b: real, c: real)
    requires a > 0.0 && b > 0.0 && c == a * b
    ensures c > 0.0
  {
  }
}
