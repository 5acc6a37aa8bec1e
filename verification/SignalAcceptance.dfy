/** Acceptance of a signal, spelled out per declared capability: what has to be in the envelope, what must
    not be, and what stands behind it for each kind of source. */
module SignalAcceptance {
  import opened Common
  import opened Scoring
  import opened SignalContract

  // ----- Policies and specs -----

  predicate Declares(p: Policy, metric: Metric) {
    metric in p.metrics
  }

  /** Disabled agents declare nothing; shadow agents have no influence and formal ones have some; calibration
      comes with the Brier score. */
  ghost predicate PolicyFits(p: Policy) {
    && (forall j, k :: 0 <= j < k < |p.metrics| ==> p.metrics[j] != p.metrics[k])
    && (Declares(p, CalibrationMetric) ==> Declares(p, BrierMetric))
    && match p.mode
       case Disabled => p.influence == NoInfluence && |p.metrics| == 0
       case Shadow => p.influence == NoInfluence
       case Formal => p.influence != NoInfluence
  }

  /** Every declared capability rests on the one it needs. */
  ghost predicate SpecFits(b: SpecBody) {
    && PolicyFits(b.participation)
    && (b.capabilities.direction ||
        (b.capabilities.probability == NoProbability && !b.capabilities.blindSubmission && !Declares(b.participation, DirectionMetric)))
    && (b.capabilities.probability == Multiclass || (!Declares(b.participation, BrierMetric) && !Declares(b.participation, CalibrationMetric)))
    && (b.capabilities.structuredReasoning || !Declares(b.participation, ReasoningMetric))
    && (b.capabilities.inputBinding || b.participation.mode == Disabled)
  }

  lemma PolicyFitsIff(p: Policy)
    ensures PolicyValid(p) <==> PolicyFits(p)
  {
    UniqueIff(p.metrics);
  }

  lemma SpecFitsIff(b: SpecBody)
    ensures SpecValid(b) <==> SpecFits(b)
  {
    PolicyFitsIff(b.participation);
  }

  // ----- The envelope -----

  predicate Leads(winner: real, loser: real) {
    winner - loser > 0.000000001
  }

  /** A vector leads in the direction by more than a billionth, and a stated confidence is within a billionth
      of the leader's share of the directional mass. */
  predicate Speaks(winner: real, loser: real, confidence: Option<real>) {
    && Leads(winner, loser)
    && (confidence.Some? && winner + loser > 0.0 ==> -0.000000001 <= confidence.value - winner / (winner + loser) <= 0.000000001)
  }

  predicate DirectionFits(s: Signal) {
    match s.direction
    case None => s.probabilities == None && s.confidence == None
    case Some(Neutral) => false
    case Some(Up) => s.probabilities.Some? ==> Speaks(s.probabilities.value.up, s.probabilities.value.down, s.confidence)
    case Some(Down) => s.probabilities.Some? ==> Speaks(s.probabilities.value.down, s.probabilities.value.up, s.confidence)
  }

  /** Material, submission, acceptance, deadline and target follow one another. */
  predicate TimesFit(s: Signal) {
    && s.target.cutoff <= s.target.asOf <= s.submitted <= s.accepted < s.deadline
    && s.deadlineDate < s.target.targetDate && s.target.baseDate < s.target.targetDate
    && (forall c :: c in s.citations ==> c <= s.target.cutoff)
  }

  ghost predicate SignalFits(s: Signal) {
    && PolicyFits(s.participation) && TimesFit(s) && DirectionFits(s)
    && (s.probabilities.Some? ==> VectorFits(s.probabilities.value))
    && (s.confidence.Some? ==> 0.5 <= s.confidence.value <= 1.0)
  }

  lemma LeaderIff(p: Probabilities)
    requires VectorFits(p)
    ensures PredictedDirection(p) == Some(Up) <==> Leads(p.up, p.down)
    ensures PredictedDirection(p) == Some(Down) <==> Leads(p.down, p.up)
    ensures PredictedDirection(p) != Some(Neutral)
  {
    VectorFitsIff(p);
    TieIsAbsolute(p);
  }

  lemma ShareIsBounded(winner: real, loser: real)
    requires 0.0 <= loser < winner
    ensures 0.0 <= winner / (winner + loser) <= 1.0
  {
    Quotient(winner, winner + loser);
  }

  lemma Quotient(x: real, total: real)
    requires 0.0 <= x <= total && total > 0.0
    ensures 0.0 <= x / total <= 1.0
  {
    var share := x / total;
    assert x == share * total;
    Product(share, total);
    Product(share - 1.0, total);
  }

  lemma Product(x: real, total: real)
    requires total > 0.0
    ensures x > 0.0 <==> x * total > 0.0
    ensures x < 0.0 <==> x * total < 0.0
  {
  }

  lemma ConfidenceIff(confidence: real, share: real)
    requires 0.0 <= confidence <= 1.0 && 0.0 <= share <= 1.0
    ensures IsClose(confidence, share, 0.000000001) <==> -0.000000001 <= confidence - share <= 0.000000001
  {
  }

  lemma SpeaksIff(s: Signal, winner: real, loser: real)
    requires s.probabilities.Some? && VectorFits(s.probabilities.value) && (s.confidence.Some? ==> 0.5 <= s.confidence.value <= 1.0)
    requires (winner == s.probabilities.value.up && loser == s.probabilities.value.down) ||
             (winner == s.probabilities.value.down && loser == s.probabilities.value.up)
    requires Leads(winner, loser)
    ensures (s.confidence.Some? ==> IsClose(s.confidence.value, DirectionalShare(s.probabilities.value), 0.000000001)) <==>
            Speaks(winner, loser, s.confidence)
  {
    var p := s.probabilities.value;
    ShareIsBounded(winner, loser);
    assert DirectionalShare(p) == winner / (winner + loser);
    if s.confidence.Some? {
      ConfidenceIff(s.confidence.value, winner / (winner + loser));
    }
  }

  lemma DirectionFitsIff(s: Signal)
    requires s.probabilities.Some? ==> VectorFits(s.probabilities.value)
    requires s.confidence.Some? ==> 0.5 <= s.confidence.value <= 1.0
    ensures DirectionConsistent(s) && s.direction != Some(Neutral) <==> DirectionFits(s)
  {
    if s.probabilities.Some? {
      var p := s.probabilities.value;
      LeaderIff(p);
      if Leads(p.up, p.down) {
        SpeaksIff(s, p.up, p.down);
      }
      if Leads(p.down, p.up) {
        SpeaksIff(s, p.down, p.up);
      }
    }
  }

  lemma SignalFitsIff(s: Signal)
    ensures SignalValid(s) <==> SignalFits(s)
  {
    PolicyFitsIff(s.participation);
    if s.probabilities.Some? {
      VectorFitsIff(s.probabilities.value);
    }
    if (s.probabilities.Some? ==> VectorFits(s.probabilities.value)) && (s.confidence.Some? ==> 0.5 <= s.confidence.value <= 1.0) {
      DirectionFitsIff(s);
    }
  }

  // ----- The envelope against the spec -----

  predicate BindsSpec(s: Signal, spec: Spec) {
    && s.specHash.body == spec.body && s.agentId == spec.body.agentId && s.version == spec.body.version
    && s.participation == spec.body.participation && spec.body.participation.mode != Disabled && spec.body.capabilities.inputBinding
  }

  /** A direction exactly where the spec declares one; a vector exactly for the multiclass agents; a
      confidence always from the confidence-only ones and never from those without probabilities. */
  predicate OutputsFit(s: Signal, c: Capabilities) {
    && (s.direction != None <==> c.direction) && (s.probabilities != None <==> c.probability == Multiclass)
    && (c.probability == ConfidenceOnly ==> s.confidence != None) && (c.probability == NoProbability ==> s.confidence == None)
    && (c.structuredReasoning <==> s.rationale) && (c.structuredReasoning <==> |s.counterEvidence| > 0) &&
       (c.structuredReasoning <==> |s.invalidation| > 0)
    && (|s.citations| == 0 ==> c.evidence != FrozenCitations) && (|s.citations| > 0 ==> c.evidence != NoEvidence)
    && (s.blind ==> c.blindSubmission)
  }

  /** An AI signal names its model and prompt, a quantitative one its code and artifacts, and a deterministic
      one its code. */
  predicate IsAttributed(p: Provenance, source: SourceType) {
    && p.source == source
    && (p.model || source != Ai) && (p.prompt || source != Ai)
    && (p.code || (source != Quant && source != Deterministic)) && (p.artifacts || source != Quant)
  }

  /** A valid signal is accepted against a spec exactly when the spec is sealed and fits, the signal binds it,
      submits what its capabilities declare, and is attributed as its source demands. */
  lemma AcceptanceIff(s: Signal, spec: Spec)
    ensures SignalValid(s) && Accepted(s, spec) <==>
            && SignalFits(s) && SpecFits(spec.body) && spec.contentHash.body == spec.body
            && BindsSpec(s, spec) && OutputsFit(s, spec.body.capabilities) && IsAttributed(s.provenance, spec.body.source)
  {
    SignalFitsIff(s);
    SpecFitsIff(spec.body);
    CapabilitiesIff(s, spec.body.capabilities);
    ProvenanceIff(s.provenance, spec.body.source);
  }

  lemma CapabilitiesIff(s: Signal, c: Capabilities)
    ensures ProbabilityMatches(s, c) && ReasoningMatches(s, c) && EvidenceMatches(s, c) <==> OutputsFit(s, c) && c.inputBinding
  {
  }

  lemma ProvenanceIff(p: Provenance, source: SourceType)
    ensures ProvenanceMatches(p, source) && p.source == source <==> IsAttributed(p, source)
  {
  }
}
