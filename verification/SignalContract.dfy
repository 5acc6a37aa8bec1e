/** Agent contracts: the validators of a participation policy, an Agent spec and a signal envelope, and
    what acceptance of a signal against its spec promises the evaluation. */
module SignalContract {
  import opened Common
  import opened Scoring

  datatype ProbabilityMode = NoProbability | ConfidenceOnly | Multiclass

  datatype EvidenceMode = NoEvidence | DeclaredEvidence | FrozenCitations

  datatype ParticipationMode = Formal | Shadow | Disabled

  datatype Influence = InputInfluence | Advisory | Decision | NoInfluence

  datatype Metric = DirectionMetric | BrierMetric | CalibrationMetric | ReasoningMetric

  datatype SourceType = Human | Ai | Quant | Deterministic

  datatype Capabilities = Capabilities(
    direction: bool, probability: ProbabilityMode, structuredReasoning: bool, evidence: EvidenceMode,
    blindSubmission: bool, inputBinding: bool)

  datatype Policy = Policy(mode: ParticipationMode, influence: Influence, metrics: seq<Metric>)

  datatype SpecBody = SpecBody(agentId: Id, version: Id, source: SourceType, capabilities: Capabilities, participation: Policy)

  /** A content hash, injective by construction. */
  datatype SpecDigest = SpecDigest(body: SpecBody)

  datatype Spec = Spec(body: SpecBody, contentHash: SpecDigest)

  datatype Target = Target(baseDate: int, targetDate: int, asOf: int, cutoff: int)

  /** Each flag says that all the fields of its kind are present: model name and version, prompt version,
      code version and hash, artifact hashes. */
  datatype Provenance = Provenance(source: SourceType, model: bool, prompt: bool, code: bool, artifacts: bool)

  /** `deadlineDate` is the deadline's date in the zone of the target; `citations` are observation times. */
  datatype Signal = Signal(
    agentId: Id, version: Id, specHash: SpecDigest, participation: Policy, provenance: Provenance,
    target: Target, submitted: int, accepted: int, deadline: int, deadlineDate: int,
    direction: Option<Direction>, probabilities: Option<Probabilities>, confidence: Option<real>,
    rationale: bool, counterEvidence: seq<Id>, invalidation: seq<Id>, citations: seq<int>, blind: bool)

  // ----- Validators -----

  predicate PolicyValid(p: Policy) {
    && Unique(p.metrics) == p.metrics
    && (p.mode == Disabled ==> p.influence == NoInfluence && p.metrics == [])
    && (p.mode == Shadow ==> p.influence == NoInfluence)
    && (p.mode == Formal ==> p.influence != NoInfluence)
    && (CalibrationMetric in p.metrics ==> BrierMetric in p.metrics)
  }

  /** The conditions on a spec that do not concern its metrics. */
  predicate SpecShape(s: SpecBody) {
    var c := s.capabilities;
    && PolicyValid(s.participation)
    && (c.probability != NoProbability ==> c.direction)
    && (c.blindSubmission ==> c.direction)
    && (s.participation.mode != Disabled ==> c.inputBinding)
  }

  predicate SpecValid(s: SpecBody) {
    var c, metrics := s.capabilities, s.participation.metrics;
    && SpecShape(s)
    && (DirectionMetric in metrics ==> c.direction)
    && (BrierMetric in metrics || CalibrationMetric in metrics ==> c.probability == Multiclass)
    && (ReasoningMetric in metrics ==> c.structuredReasoning)
  }

  predicate SealedSpec(s: Spec) {
    SpecValid(s.body) && s.contentHash == SpecDigest(s.body)
  }

  predicate TargetValid(t: Target) {
    t.cutoff <= t.asOf && t.baseDate < t.targetDate
  }

  predicate DirectionConsistent(s: Signal) {
    if s.direction.None? then s.probabilities.None? && s.confidence.None?
    else
      s.probabilities.Some? ==>
        && PredictedDirection(s.probabilities.value) == s.direction
        && (s.confidence.Some? ==> IsClose(s.confidence.value, DirectionalShare(s.probabilities.value), 0.000000001))
  }

  function DirectionalShare(p: Probabilities): real {
    if p.up + p.down == 0.0 then 0.0 else Max(p.up, p.down) / (p.up + p.down)
  }

  predicate SignalValid(s: Signal) {
    && PolicyValid(s.participation) && TargetValid(s.target)
    && (s.direction.Some? ==> s.direction.value != Neutral)
    && (s.probabilities.Some? ==> ScoringValid(s.probabilities.value))
    && (s.confidence.Some? ==> 0.5 <= s.confidence.value <= 1.0)
    && s.submitted <= s.accepted && s.target.cutoff <= s.submitted && s.target.asOf <= s.submitted
    && s.accepted < s.deadline && s.deadlineDate < s.target.targetDate
    && (forall c :: c in s.citations ==> c <= s.target.cutoff)
    && DirectionConsistent(s)
  }

  // ----- Acceptance against the spec -----

  predicate IdentityMatches(s: Signal, spec: Spec) {
    && s.agentId == spec.body.agentId && s.version == spec.body.version
    && s.specHash == spec.contentHash && s.provenance.source == spec.body.source
    && s.participation == spec.body.participation && spec.body.participation.mode != Disabled
  }

  predicate ProbabilityMatches(s: Signal, c: Capabilities) {
    && (c.direction <==> s.direction.Some?)
    && match c.probability
       case NoProbability => s.probabilities.None? && s.confidence.None?
       case ConfidenceOnly => s.probabilities.None? && s.confidence.Some?
       case Multiclass => s.probabilities.Some?
  }

  predicate ReasoningMatches(s: Signal, c: Capabilities) {
    if c.structuredReasoning then s.rationale && s.counterEvidence != [] && s.invalidation != []
    else !s.rationale && s.counterEvidence == [] && s.invalidation == []
  }

  predicate EvidenceMatches(s: Signal, c: Capabilities) {
    && (c.evidence == NoEvidence ==> s.citations == []) && (c.evidence == FrozenCitations ==> s.citations != [])
    && (s.blind ==> c.blindSubmission) && c.inputBinding
  }

  predicate ProvenanceMatches(p: Provenance, source: SourceType) {
    match source
    case Human => true
    case Ai => p.model && p.prompt
    case Quant => p.code && p.artifacts
    case Deterministic => p.code
  }

  /** The signal agrees with what the spec declares. */
  predicate Matches(s: Signal, spec: Spec) {
    && IdentityMatches(s, spec)
    && ProbabilityMatches(s, spec.body.capabilities) && ReasoningMatches(s, spec.body.capabilities)
    && EvidenceMatches(s, spec.body.capabilities) && ProvenanceMatches(s.provenance, spec.body.source)
  }

  /** `validate_signal_against_spec` */
  predicate Accepted(s: Signal, spec: Spec) {
    SealedSpec(spec) && Matches(s, spec)
  }

  // ----- What acceptance is for -----

  /** What the evaluation of one metric reads off a signal. */
  predicate Scorable(s: Signal, metric: Metric) {
    match metric
    case DirectionMetric => s.direction == Some(Up) || s.direction == Some(Down)
    case BrierMetric => s.probabilities.Some? && ScoringValid(s.probabilities.value)
    case CalibrationMetric =>
      && s.probabilities.Some? && ScoringValid(s.probabilities.value)
      && PredictedDirection(s.probabilities.value) == s.direction && DirectionalConfidence(s.probabilities.value).Some?
    case ReasoningMetric => s.rationale && s.counterEvidence != [] && s.invalidation != []
  }

  /** An accepted signal can be scored on every metric its policy declares, from material that was there
      before the time it speaks for and in a submission accepted before the target date. */
  lemma AcceptedSignalIsScorable(s: Signal, spec: Spec, metric: Metric)
    requires SignalValid(s) && Accepted(s, spec) && metric in s.participation.metrics
    ensures Scorable(s, metric)
    ensures forall c :: c in s.citations ==> c <= s.target.cutoff
    ensures s.target.cutoff <= s.target.asOf <= s.submitted <= s.accepted < s.deadline && s.deadlineDate < s.target.targetDate
  {
    if metric == CalibrationMetric {
      var p := s.probabilities.value;
      ValidatorsAgree(p);
      DirectionIff(p);
    }
  }

  /** Every valid signal that agrees with the spec can be scored on every metric the spec declares. */
  ghost predicate AlwaysScorable(spec: Spec) {
    forall s, metric :: SignalValid(s) && Matches(s, spec) && metric in spec.body.participation.metrics ==> Scorable(s, metric)
  }

  predicate Supports(c: Capabilities, metric: Metric) {
    match metric
    case DirectionMetric => c.direction
    case BrierMetric | CalibrationMetric => c.probability == Multiclass
    case ReasoningMetric => c.structuredReasoning
  }

  /** A signal that submits what the spec's capabilities ask for and nothing else. */
  function LeastSignal(spec: Spec): Signal {
    var c := spec.body.capabilities;
    Signal(spec.body.agentId, spec.body.version, spec.contentHash, spec.body.participation,
           Provenance(spec.body.source, true, true, true, true), Target(0, 2, 0, 0), 0, 0, 1, 1,
           if c.direction then Some(Up) else None,
           if c.probability == Multiclass then Some(Probabilities(0.75, 0.0, 0.25)) else None,
           if c.probability == ConfidenceOnly then Some(0.75) else None,
           c.structuredReasoning, if c.structuredReasoning then [Id("counter")] else [],
           if c.structuredReasoning then [Id("condition")] else [],
           if c.evidence == FrozenCitations then [0] else [], false)
  }

  /** No active spec is beyond every signal: the least one is valid, agrees with the spec, and can be
      scored exactly on what the capabilities support. */
  lemma EverySpecAdmitsASignal(spec: Spec, metric: Metric)
    requires SpecShape(spec.body) && spec.body.participation.mode != Disabled
    ensures SignalValid(LeastSignal(spec)) && Matches(LeastSignal(spec), spec)
    ensures Scorable(LeastSignal(spec), metric) <==> Supports(spec.body.capabilities, metric)
  {
    var p := Probabilities(0.75, 0.0, 0.25);
    ValidatorsAgree(p);
    DirectionIff(p);
  }

  lemma SupportedMetrics(s: SpecBody)
    requires SpecShape(s)
    ensures SpecValid(s) <==> forall metric :: metric in s.participation.metrics ==> Supports(s.capabilities, metric)
  {
  }

  /** The conditions on metrics are exactly what evaluation needs: an otherwise valid spec may declare its
      metrics if and only if every valid signal that agrees with it can be scored on all of them. */
  lemma SpecValidIffScorable(body: SpecBody)
    requires SpecShape(body)
    ensures SpecValid(body) <==> AlwaysScorable(Spec(body, SpecDigest(body)))
  {
    var spec := Spec(body, SpecDigest(body));
    SupportedMetrics(body);
    if SpecValid(body) {
      forall s, metric | SignalValid(s) && Matches(s, spec) && metric in body.participation.metrics ensures Scorable(s, metric) {
        AcceptedSignalIsScorable(s, spec, metric);
      }
    } else {
      var metric :| metric in body.participation.metrics && !Supports(body.capabilities, metric);
      EverySpecAdmitsASignal(spec, metric);
    }
  }

  /** A signal is accepted against at most one spec, and nothing outside the capabilities that spec
      declares can be in it. */
  lemma AcceptedSignalNamesItsSpec(s: Signal, first: Spec, second: Spec)
    requires SignalValid(s) && Accepted(s, first) && Accepted(s, second)
    ensures first == second
    ensures var c := first.body.capabilities;
            && (s.probabilities.Some? ==> c.probability == Multiclass)
            && (s.confidence.Some? ==> c.probability != NoProbability && c.direction)
            && (s.citations != [] ==> c.evidence != NoEvidence) && (s.blind ==> s.direction.Some?)
  {
  }
}
