/** Probability vectors over the three outcome classes and the deterministic scoring functions of the
    committee: validity, direction, confidence, the symmetric haircut and the Brier score. Floats are
    reals, so rounding is not modelled. */
module Scoring {
  import opened Common

  datatype Direction = Up | Neutral | Down

  datatype Horizon = D1 | D2

  datatype Probabilities = Probabilities(up: real, neutral: real, down: real) {
    function Of(outcome: Direction): real {
      match outcome
      case Up => up
      case Neutral => neutral
      case Down => down
    }

    function Total(): real {
      up + neutral + down
    }

    predicate Bounded() {
      0.0 <= up <= 1.0 && 0.0 <= neutral <= 1.0 && 0.0 <= down <= 1.0
    }
  }

  const SUM_TOLERANCE: real := 0.000001
  const TIE_TOLERANCE: real := 0.000000001
  const RELATIVE_TOLERANCE: real := 0.000000001
  const DIRECTIONAL_MASS_HAIRCUT: real := 0.15

  /** `math.isclose(a, b, abs_tol=tolerance)` with the default relative tolerance. */
  predicate IsClose(a: real, b: real, tolerance: real) {
    Abs(a - b) <= Max(RELATIVE_TOLERANCE * Max(Abs(a), Abs(b)), tolerance)
  }

  /** The request/draft schema's notion of a probability vector. */
  predicate SchemaValid(p: Probabilities) {
    p.Bounded() && Abs(p.Total() - 1.0) <= SUM_TOLERANCE
  }

  /** The scoring functions' own notion, which uses the relative comparison. */
  predicate ScoringValid(p: Probabilities) {
    p.Bounded() && IsClose(p.Total(), 1.0, SUM_TOLERANCE)
  }

  /** The two validators never disagree, although one compares relatively and the other does not. */
  lemma ValidatorsAgree(p: Probabilities)
    ensures SchemaValid(p) <==> ScoringValid(p)
  {
    if p.Bounded() {
      assert RELATIVE_TOLERANCE * Max(Abs(p.Total()), Abs(1.0)) <= SUM_TOLERANCE;
    }
  }

  /** Either validator, spelled out. */
  predicate VectorFits(p: Probabilities) {
    && 0.0 <= p.up <= 1.0 && 0.0 <= p.neutral <= 1.0 && 0.0 <= p.down <= 1.0
    && -0.000001 <= p.up + p.neutral + p.down - 1.0 <= 0.000001
  }

  lemma VectorFitsIff(p: Probabilities)
    ensures ScoringValid(p) <==> VectorFits(p)
    ensures SchemaValid(p) <==> VectorFits(p)
  {
    ValidatorsAgree(p);
  }

  /** `math.isclose` with an absolute tolerance of 1e-12, spelled out. */
  predicate Near(x: real, y: real) {
    var gap := if x >= y then x - y else y - x;
    gap <= 0.000000000001 || gap <= 0.000000001 * (if x >= 0.0 then x else -x) || gap <= 0.000000001 * (if y >= 0.0 then y else -y)
  }

  lemma NearIff(x: real, y: real)
    ensures IsClose(x, y, 0.000000000001) <==> Near(x, y)
  {
  }

  /** The mandatory up/down choice; `None` stands for the raised error (invalid or tied). */
  function PredictedDirection(p: Probabilities): Option<Direction> {
    if !ScoringValid(p) then None
    else if IsClose(p.up, p.down, TIE_TOLERANCE) then None
    else if p.up > p.down then Some(Up) else Some(Down)
  }

  /** Confidence conditional on a directional outcome. */
  function DirectionalConfidence(p: Probabilities): Option<real> {
    if !ScoringValid(p) then None
    else if p.up + p.down <= 0.0 then None
    else Some(Max(p.up, p.down) / (p.up + p.down))
  }

  lemma TieIsAbsolute(p: Probabilities)
    requires p.Bounded()
    ensures IsClose(p.up, p.down, TIE_TOLERANCE) <==> Abs(p.up - p.down) <= TIE_TOLERANCE
  {
    assert RELATIVE_TOLERANCE * Max(Abs(p.up), Abs(p.down)) <= TIE_TOLERANCE;
  }

  lemma DirectionIff(p: Probabilities)
    requires SchemaValid(p)
    ensures PredictedDirection(p) == Some(Up) <==> p.up - p.down > TIE_TOLERANCE
    ensures PredictedDirection(p) == Some(Down) <==> p.down - p.up > TIE_TOLERANCE
    ensures PredictedDirection(p) != Some(Neutral)
    ensures PredictedDirection(p).Some? ==> DirectionalConfidence(p).Some?
  {
    ValidatorsAgree(p);
    TieIsAbsolute(p);
  }

  /** Move the same share of both directional masses into the neutral bucket. Building the result
      re-validates it. */
  function ApplyHaircut(p: Probabilities, haircut: real): Result<Probabilities> {
    if !(0.0 <= haircut <= 1.0) then Err("haircut must be between zero and one")
    else
      var up := (1.0 - haircut) * p.up;
      var down := (1.0 - haircut) * p.down;
      var q := Probabilities(up, 1.0 - up - down, down);
      if SchemaValid(q) then Ok(q) else Err("probabilities must sum to one")
  }

  /** A haircut succeeds exactly when the directional mass it leaves fits in one; the result then sums
      to exactly one whatever the rounding slack of the input was. */
  lemma HaircutSucceedsIff(p: Probabilities, haircut: real)
    requires SchemaValid(p) && 0.0 <= haircut <= 1.0
    ensures ApplyHaircut(p, haircut).Ok? <==> (1.0 - haircut) * (p.up + p.down) <= 1.0
    ensures ApplyHaircut(p, haircut).Ok? ==> ApplyHaircut(p, haircut).value.Total() == 1.0
  {
    var keep := 1.0 - haircut;
    ScaleDown(keep, p.up);
    ScaleDown(keep, p.down);
    assert keep * p.up + keep * p.down == keep * (p.up + p.down);
  }

  /** With no haircut at all a schema-valid vector can be rejected: the slack of the sum lands in the
      neutral bucket. */
  lemma ZeroHaircutCanReject()
    ensures exists p :: SchemaValid(p) && ApplyHaircut(p, 0.0).Err?
  {
    var p := Probabilities(0.6, 0.0, 0.4000005);
    assert SchemaValid(p);
    HaircutSucceedsIff(p, 0.0);
    assert ApplyHaircut(p, 0.0).Err?;
  }

  /** The committee's own haircut never fails, and keeps the directional confidence. */
  lemma CommitteeHaircutIsTotal(p: Probabilities)
    requires SchemaValid(p)
    ensures ApplyHaircut(p, DIRECTIONAL_MASS_HAIRCUT).Ok?
    ensures var q := ApplyHaircut(p, DIRECTIONAL_MASS_HAIRCUT).value;
            SchemaValid(q) && q.Total() == 1.0 && q.neutral >= 0.149999 &&
            DirectionalConfidence(q) == DirectionalConfidence(p)
  {
    HaircutSucceedsIff(p, DIRECTIONAL_MASS_HAIRCUT);
    var q := ApplyHaircut(p, DIRECTIONAL_MASS_HAIRCUT).value;
    ValidatorsAgree(p);
    ValidatorsAgree(q);
    var total := p.up + p.down;
    assert q.up + q.down == 0.85 * total;
    if total > 0.0 {
      RatioScales(Max(p.up, p.down), total, 0.85);
      assert Max(q.up, q.down) == 0.85 * Max(p.up, p.down);
    }
  }

  lemma RatioScales(x: real, total: real, keep: real)
    requires total > 0.0 && keep > 0.0
    ensures (keep * x) / (keep * total) == x / total
  {
    assert keep * total > 0.0;
    assert (keep * x) == (x / total) * (keep * total);
  }

  /** The haircut never flips up and down. It either keeps the direction or raises a tie, and it
      raises a tie exactly when the shrunken margin falls to the tie tolerance. */
  lemma CommitteeHaircutDirection(p: Probabilities)
    requires SchemaValid(p)
    ensures var q := ApplyHaircut(p, DIRECTIONAL_MASS_HAIRCUT);
            q.Ok? &&
            (PredictedDirection(q.value) == None || PredictedDirection(q.value) == PredictedDirection(p)) &&
            (PredictedDirection(q.value) == None <==> 0.85 * Abs(p.up - p.down) <= TIE_TOLERANCE)
  {
    CommitteeHaircutIsTotal(p);
    var q := ApplyHaircut(p, DIRECTIONAL_MASS_HAIRCUT).value;
    DirectionIff(p);
    DirectionIff(q);
    assert q.up - q.down == 0.85 * (p.up - p.down);
  }

  /** The raised tie is real: a vector whose own direction is accepted can lose it to the haircut. */
  lemma HaircutCanRaiseATie()
    ensures exists p :: SchemaValid(p) && PredictedDirection(p) == Some(Up) &&
                        ApplyHaircut(p, DIRECTIONAL_MASS_HAIRCUT).Ok? &&
                        PredictedDirection(ApplyHaircut(p, DIRECTIONAL_MASS_HAIRCUT).value) == None
  {
    var p := Probabilities(0.4000000011, 0.1999999989, 0.4);
    assert SchemaValid(p);
    DirectionIff(p);
    CommitteeHaircutDirection(p);
    assert PredictedDirection(p) == Some(Up);
  }

  function SquaredError(p: real, outcome: Direction, actual: Direction): real {
    var e := p - (if outcome == actual then 1.0 else 0.0);
    e * e
  }

  /** Mean squared error over the three classes. */
  function Brier(p: Probabilities, actual: Direction): real {
    (SquaredError(p.up, Up, actual) + SquaredError(p.neutral, Neutral, actual) + SquaredError(p.down, Down, actual)) / 3.0
  }
}
