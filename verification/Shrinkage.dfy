/** The premarket probability arithmetic: the unique-maximum direction, and the Risk Critic's discount,
    which mixes the Strategy vector with the uniform one. */
module Shrinkage {
  import opened Common
  import opened Scoring

  /** `math.isclose(a, b)` with its defaults: relative, no absolute tolerance. */
  predicate RelativelyClose(a: real, b: real) {
    Abs(a - b) <= RELATIVE_TOLERANCE * Max(Abs(a), Abs(b))
  }

  function Greatest(p: Probabilities): (m: real)
    ensures forall d :: p.Of(d) <= m
    ensures exists d :: p.Of(d) == m
  {
    var m := Max(Max(p.up, p.neutral), p.down);
    assert p.Of(Up) == p.up && p.Of(Neutral) == p.neutral && p.Of(Down) == p.down;
    m
  }

  predicate IsWinner(p: Probabilities, d: Direction) {
    RelativelyClose(p.Of(d), Greatest(p))
  }

  /** The direction of a premarket vector: its one and only winner. `None` stands for the error. */
  function Winner(p: Probabilities): Option<Direction> {
    if IsWinner(p, Up) && !IsWinner(p, Neutral) && !IsWinner(p, Down) then Some(Up)
    else if !IsWinner(p, Up) && IsWinner(p, Neutral) && !IsWinner(p, Down) then Some(Neutral)
    else if !IsWinner(p, Up) && !IsWinner(p, Neutral) && IsWinner(p, Down) then Some(Down)
    else None
  }

  /** With non-negative entries, a class wins when it misses the maximum by a billionth of it at most. */
  lemma WinnerMargin(p: Probabilities, d: Direction)
    requires p.Bounded()
    ensures IsWinner(p, d) <==> Greatest(p) - p.Of(d) <= RELATIVE_TOLERANCE * Greatest(p)
    ensures p.Of(d) == Greatest(p) ==> IsWinner(p, d)
  {
    assert 0.0 <= p.Of(d) <= Greatest(p) by {
      match d { case Up => case Neutral => case Down => }
    }
  }

  lemma WinnerIff(p: Probabilities, w: Direction)
    requires p.Bounded()
    ensures Winner(p) == Some(w) <==> forall d :: d != w ==> !IsWinner(p, d)
    ensures Winner(p) == Some(w) ==> p.Of(w) == Greatest(p)
  {
    WinnerMargin(p, Up);
    WinnerMargin(p, Neutral);
    WinnerMargin(p, Down);
    var top :| p.Of(top) == Greatest(p);
    assert top == Up || top == Neutral || top == Down by {
      match top { case Up => case Neutral => case Down => }
    }
  }

  // ----- The discount -----

  datatype Severity = NoRisk | Low | Medium | High

  function Discount(severity: Severity, hasGaps: bool): (d: real)
    ensures 0.0 <= d <= 0.35
    ensures hasGaps <==> d == 0.35
  {
    var d := match severity
      case NoRisk => 0.0
      case Low => 0.05
      case Medium => 0.12
      case High => 0.20;
    if hasGaps then Max(d, 0.35) else d
  }

  /** One entry of the mixture with the uniform vector. */
  function Mixed(v: real, d: real): real {
    (1.0 - d) * v + d / 3.0
  }

  function Mix(p: Probabilities, d: real): Probabilities {
    Probabilities(Mixed(p.up, d), Mixed(p.neutral, d), Mixed(p.down, d))
  }

  lemma MixOf(p: Probabilities, d: real, c: Direction)
    ensures Mix(p, d).Of(c) == Mixed(p.Of(c), d)
  {
  }

  lemma KeepOrder(u: real, v: real, d: real)
    requires 0.0 <= d <= 1.0
    ensures Mixed(u, d) - Mixed(v, d) == (1.0 - d) * (u - v)
    ensures u >= v ==> Mixed(u, d) >= Mixed(v, d)
  {
    if u >= v {
      ScaleDown(1.0 - d, u - v);
    }
  }

  lemma MixedBounds(v: real, d: real)
    requires 0.0 <= v <= 1.0 && 0.0 <= d <= 1.0
    ensures d / 3.0 <= Mixed(v, d) <= 1.0 - d + d / 3.0
  {
    ScaleDown(1.0 - d, v);
    ScaleDown(1.0 - d, 1.0 - v);
    assert (1.0 - d) * v + (1.0 - d) * (1.0 - v) == 1.0 - d;
  }

  /** Shrinking always yields a valid vector, and bounds every class on both sides; an evidence gap caps
      every class at 0.65 + 0.35 / 3. */
  lemma MixIsValid(p: Probabilities, severity: Severity, hasGaps: bool)
    requires ScoringValid(p)
    ensures var d := Discount(severity, hasGaps);
            var q := Mix(p, d);
            && ScoringValid(q)
            && (forall c :: d / 3.0 <= q.Of(c) <= 1.0 - d + d / 3.0)
            && (hasGaps ==> forall c :: q.Of(c) <= 0.65 + 0.35 / 3.0)
  {
    var d := Discount(severity, hasGaps);
    var q := Mix(p, d);
    MixedBounds(p.up, d);
    MixedBounds(p.neutral, d);
    MixedBounds(p.down, d);
    ValidatorsAgree(p);
    MixTotal(p, d);
    ValidatorsAgree(q);
    forall c ensures d / 3.0 <= q.Of(c) <= 1.0 - d + d / 3.0 {
      match c { case Up => case Neutral => case Down => }
    }
  }

  lemma MixTotal(p: Probabilities, d: real)
    requires 0.0 <= d <= 1.0
    ensures Abs(Mix(p, d).Total() - 1.0) <= Abs(p.Total() - 1.0)
  {
    assert (1.0 - d) * p.up + (1.0 - d) * p.neutral + (1.0 - d) * p.down == (1.0 - d) * p.Total();
    assert Mix(p, d).Total() - 1.0 == (1.0 - d) * (p.Total() - 1.0);
    AbsScales(1.0 - d, p.Total() - 1.0, Mix(p, d).Total() - 1.0);
  }

  lemma AbsScales(keep: real, x: real, y: real)
    requires 0.0 <= keep <= 1.0 && y == keep * x
    ensures Abs(y) <= Abs(x)
  {
    if x >= 0.0 {
      ScaleDown(keep, x);
    } else {
      ScaleDown(keep, -x);
      assert keep * (-x) == -y;
    }
  }

  lemma GreatestOfMix(p: Probabilities, d: real)
    requires 0.0 <= d <= 1.0
    ensures Greatest(Mix(p, d)) == Mixed(Greatest(p), d)
  {
    KeepOrder(Greatest(p), p.up, d);
    KeepOrder(Greatest(p), p.neutral, d);
    KeepOrder(Greatest(p), p.down, d);
  }

  /** The shrunken lead of the winner over a class is within the tie tolerance of the shrunken winner. */
  predicate LeadVanishes(p: Probabilities, d: real, c: Direction) {
    Mixed(Greatest(p), d) - Mixed(p.Of(c), d) <= RELATIVE_TOLERANCE * Mixed(Greatest(p), d)
  }

  lemma MixWinner(p: Probabilities, d: real, c: Direction)
    requires p.Bounded() && 0.0 <= d <= 1.0 && Mix(p, d).Bounded()
    ensures IsWinner(Mix(p, d), c) <==> LeadVanishes(p, d, c)
  {
    WinnerMargin(Mix(p, d), c);
    GreatestOfMix(p, d);
    MixOf(p, d, c);
  }

  lemma WinnerLeadVanishes(p: Probabilities, d: real, c: Direction)
    requires p.Bounded() && 0.0 <= d <= 1.0 && IsWinner(p, c)
    ensures LeadVanishes(p, d, c)
  {
    WinnerMargin(p, c);
    ScaledLead(Greatest(p), p.Of(c), d);
  }

  lemma ScaledLead(m: real, v: real, d: real)
    requires 0.0 <= d <= 1.0 && m - v <= RELATIVE_TOLERANCE * m
    ensures Mixed(m, d) - Mixed(v, d) <= RELATIVE_TOLERANCE * Mixed(m, d)
  {
    KeepOrder(m, v, d);
    Monotone(1.0 - d, m - v, RELATIVE_TOLERANCE * m);
    var kept := (1.0 - d) * m;
    assert (1.0 - d) * (RELATIVE_TOLERANCE * m) == RELATIVE_TOLERANCE * kept;
    assert RELATIVE_TOLERANCE * Mixed(m, d) == RELATIVE_TOLERANCE * kept + RELATIVE_TOLERANCE * (d / 3.0);
    assert Mixed(m, d) - Mixed(v, d) <= RELATIVE_TOLERANCE * kept;
  }

  lemma Monotone(keep: real, x: real, y: real)
    requires 0.0 <= keep && x <= y
    ensures keep * x <= keep * y
  {
    assert keep * (y - x) >= 0.0;
  }

  /** The discount never changes the winning class. It either keeps it or raises, and it raises exactly
      when some other class's shrunken lead vanishes. */
  lemma DiscountKeepsWinner(p: Probabilities, severity: Severity, hasGaps: bool, w: Direction)
    requires ScoringValid(p) && Winner(p) == Some(w)
    ensures var d := Discount(severity, hasGaps);
            && (Winner(Mix(p, d)) == Some(w) || Winner(Mix(p, d)) == None)
            && (Winner(Mix(p, d)) == None <==> exists c :: c != w && LeadVanishes(p, d, c))
  {
    var d := Discount(severity, hasGaps);
    var q := Mix(p, d);
    MixIsValid(p, severity, hasGaps);
    WinnerIff(p, w);
    WinnerIff(q, w);
    forall c ensures (IsWinner(q, c) <==> LeadVanishes(p, d, c)) && (IsWinner(p, c) ==> LeadVanishes(p, d, c)) {
      MixWinner(p, d, c);
      if IsWinner(p, c) {
        WinnerLeadVanishes(p, d, c);
      }
    }
    forall x ensures Winner(q) == Some(x) ==> x == w {
      WinnerIff(q, x);
    }
  }

  /** A vector whose own direction is accepted can lose it to the discount. */
  lemma DiscountCanRaiseATie()
    ensures exists p :: ScoringValid(p) && Winner(p) == Some(Up) && Winner(Mix(p, Discount(High, false))) == None
  {
    var p := Probabilities(0.40000000024, 0.39999999976, 0.2);
    assert p.Of(Up) == Greatest(p) == 0.40000000024;
    assert !IsWinner(p, Neutral) && !IsWinner(p, Down);
    WinnerIff(p, Up);
    ValidatorsAgree(p);
    DiscountKeepsWinner(p, High, false, Up);
    assert LeadVanishes(p, 0.20, Neutral);
  }

  // ----- Accuracy -----

  const UNIFORM: Probabilities := Probabilities(1.0 / 3.0, 1.0 / 3.0, 1.0 / 3.0)

  lemma Convex(x: real, y: real, d: real)
    requires 0.0 <= d <= 1.0
    ensures Square((1.0 - d) * x + d * y) <= (1.0 - d) * Square(x) + d * Square(y)
  {
    var keep := 1.0 - d;
    var gap := Square(x - y);
    ScaleDown(keep, gap);
    ScaleDown(d, keep * gap);
    ConvexIdentity(x, y, d, keep);
  }

  lemma ConvexIdentity(x: real, y: real, d: real, keep: real)
    requires keep == 1.0 - d
    ensures keep * Square(x) + d * Square(y) - Square(keep * x + d * y) == d * (keep * Square(x - y))
  {
  }

  lemma ErrorIsConvex(v: real, d: real, c: Direction, actual: Direction)
    requires 0.0 <= d <= 1.0
    ensures SquaredError(Mixed(v, d), c, actual) <= (1.0 - d) * SquaredError(v, c, actual) + d * SquaredError(1.0 / 3.0, c, actual)
  {
    var hit := if c == actual then 1.0 else 0.0;
    Convex(v - hit, 1.0 / 3.0 - hit, d);
    assert Mixed(v, d) - hit == (1.0 - d) * (v - hit) + d * (1.0 / 3.0 - hit);
  }

  lemma UniformBrier(actual: Direction)
    ensures Brier(UNIFORM, actual) == 2.0 / 9.0
  {
  }

  /** Whatever happens, shrinking costs at most the mixture of the Strategy's own Brier score and the
      uniform forecast's, which is two ninths. */
  lemma DiscountBoundsBrier(p: Probabilities, d: real, actual: Direction)
    requires 0.0 <= d <= 1.0
    ensures Brier(Mix(p, d), actual) <= (1.0 - d) * Brier(p, actual) + d * (2.0 / 9.0)
  {
    ErrorIsConvex(p.up, d, Up, actual);
    ErrorIsConvex(p.neutral, d, Neutral, actual);
    ErrorIsConvex(p.down, d, Down, actual);
    UniformBrier(actual);
    AddUp(d, SquaredError(p.up, Up, actual), SquaredError(p.neutral, Neutral, actual), SquaredError(p.down, Down, actual),
          SquaredError(1.0 / 3.0, Up, actual), SquaredError(1.0 / 3.0, Neutral, actual), SquaredError(1.0 / 3.0, Down, actual));
  }

  /** `q` never scores worse than the mixture of `p`'s own score and two ninths, whatever happens. */
  ghost predicate CostsAtMost(q: Probabilities, p: Probabilities, d: real) {
    forall actual :: Brier(q, actual) <= (1.0 - d) * Brier(p, actual) + d * (2.0 / 9.0)
  }

  lemma MixCostsAtMost(p: Probabilities, d: real)
    requires 0.0 <= d <= 1.0
    ensures CostsAtMost(Mix(p, d), p, d)
  {
    forall actual ensures Brier(Mix(p, d), actual) <= (1.0 - d) * Brier(p, actual) + d * (2.0 / 9.0) {
      DiscountBoundsBrier(p, d, actual);
    }
  }

  lemma AddUp(d: real, a: real, b: real, c: real, x: real, y: real, z: real)
    ensures ((1.0 - d) * a + d * x) + ((1.0 - d) * b + d * y) + ((1.0 - d) * c + d * z) == (1.0 - d) * (a + b + c) + d * (x + y + z)
  {
  }
}
