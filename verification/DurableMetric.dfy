/** Recorded metric gates written out as JSON: the written gate counts exactly when
    the recorded one does, and storing its row keeps that for plain metrics only. */
module DurableMetric {
  import opened Wrappers
  import opened Json
  import opened DurableProjection
  import opened MetricComparator
  import opened PrimaryMetric
  import MetricLineage
  import D = DurableIdempotence
  import S = StoredMetric

  // ---- writing a gate ------------------------------------------------------

  /** Choices of the writer that nothing depends on: the token order of a set, how a
      value outside the normal forms is written, and the keys of a migration receipt
      beyond those that bind the transition. */
  datatype Writer = Writer(sorted: set<Atom> -> seq<Atom>, odd: Datum -> Json, rest: Receipt -> Object)

  function AtomJson(a: Atom): Json {
    match a
    case Flag(b) => Bool(b)
    case Whole(i) => Int(i)
    case Decimal(x) => Real(x)
    case Words(s) => Str(s)
  }

  function AtomsJson(atoms: seq<Atom>): Json {
    List(seq(|atoms|, i requires 0 <= i < |atoms| => AtomJson(atoms[i])))
  }

  function ValueJson(w: Writer, v: Datum): Json {
    match v
    case Absent => Null
    case Single(a) => AtomJson(a)
    case Members(members) => AtomsJson(w.sorted(members))
    case AxisValues(axes) => Dict(map k | k in axes :: Real(axes[k]))
    case _ => w.odd(v)
  }

  function KindWord(k: Kind): string {
    match k
    case Scalar => "scalar"
    case Set => "set"
    case Vector => "vector"
    case Ordered => "ordered"
    case Predicate => "predicate"
  }

  function SemanticsWord(s: Semantics): string {
    match s
    case HigherIsBetter => "higher_is_better"
    case LowerIsBetter => "lower_is_better"
    case EqualRequired => "equal_required"
    case SetRelation => "set_relation"
    case Pareto => "pareto"
    case PredicateOnly => "predicate_only"
  }

  function AxesJson(axes: seq<(string, bool)>): Object {
    if axes == [] then map[]
    else
      var n := |axes| - 1;
      AxesJson(axes[..n])[axes[n].0 := Str(if axes[n].1 then "higher_is_better" else "lower_is_better")]
  }

  function ConfigJson(c: Config): Object {
    match c
    case NoConfig => map[]
    case Target(t) => map["target_value" := AtomJson(t)]
    case Inclusion(up) => map["set_relation_direction" := Str(if up then "superset_is_better" else "subset_is_better")]
    case Directions(axes) => map["vector_directions" := Dict(AxesJson(axes))]
    case Ranks(ranks) => map["ordered_values" := AtomsJson(ranks)]
  }

  function ContractJson(c: Contract): Object {
    map["metric_id" := Str(c.metricId), "metric_basis_id" := Str(c.basisId), "metric_dimension_id" := Str(c.dimensionId),
        "metric_subject_id" := Str(c.subjectId), "metric_provenance_id" := Str(c.provenanceId),
        "value_kind" := Str(KindWord(c.kind)), "comparison_semantics" := Str(SemanticsWord(c.semantics)),
        "comparison_config" := Dict(ConfigJson(c.config))]
  }

  /** A lineage identifier is a digest of its material. */
  function ScopeJson(k: ScopeKey): Json {
    match k
    case NoKey => Str("")
    case LegacyAxis(axis, basis, dimension, semantics) =>
      Sha(List([Str(axis), Str(basis), Str(dimension), Str(SemanticsWord(semantics))]))
    case ContractAxis(c) => Sha(Dict(ContractJson(c)))
  }

  function LabelWord(l: Label): string {
    match l
    case IndependentlyVerified => "independently_verified"
    case ProducerAttested => "producer_attested"
    case SelfGrounded => "self_grounded"
    case NotEvaluated => "not_evaluated"
    case OtherLabel(text) => text
  }

  function ComparabilityWord(c: Comparability): string {
    match c
    case MigratedBaseline => "basis_migration_new_baseline"
    case MigrationWithoutBaseline => "basis_migration_no_comparable_baseline"
    case NoBaseline => "no_comparable_baseline"
    case Comparable => "comparable"
    case NotComparable => "incomparable"
  }

  function MigrationWord(m: MigrationStatus): string {
    match m
    case VerifiedNewBaseline => "verified_new_baseline"
    case Unverified => "unverified"
    case NotApplicable => "not_applicable"
  }

  function Maybe<T>(x: Option<T>, write: T -> Json): Json { if x.Some? then write(x.value) else Null }

  function DigestJson(w: Writer, d: Digest): Json
    decreases d
  {
    match d
    case OfValue(c, v) => S.ValueSha(Dict(ContractJson(c)), ValueJson(w, v))
    case OfJson(body) => Sha(body)
    case OfInput(c, v, binding, verification) =>
      Sha(Dict(map["metric_contract" := Dict(ContractJson(c)), "observed_value" := ValueJson(w, v),
                   "decision_artifact_binding" := Dict(binding), "verification_gate_sha256" := DigestJson(w, verification)]))
    case OfObservation(o) => Sha(Dict(ObservationJson(w, o)))
  }

  function ReceiptJson(w: Writer, r: Receipt): Object
    decreases r
  {
    w.rest(r) + map[
      "metric_axis_id" := Str(r.axisId), "old_metric_basis_id" := Str(r.oldBasis), "new_metric_basis_id" := Str(r.newBasis),
      "old_observation_sha256" := DigestJson(w, r.oldObservation), "new_observation_input_sha256" := DigestJson(w, r.newInput),
      "old_lineage_id" := ScopeJson(r.oldLineage), "new_lineage_id" := ScopeJson(r.newLineage),
      "decision_binding_sha256" := DigestJson(w, r.binding), "verification_gate_sha256" := DigestJson(w, r.verification)]
  }

  /** An observation: what it observed, what the gate repeats, and any migration. */
  function ObservationJson(w: Writer, o: Observation): Object
    decreases o, 1
  {
    Evidence(w, o) + Outcome(w, o) + Migration(w, o)
  }

  function Evidence(w: Writer, o: Observation): Object
    decreases o, 0
  {
    map["contract_version" := Int(1), "metric_contract" := Dict(ContractJson(o.contract)),
        "observed_value" := ValueJson(w, o.value), "observed_value_sha256" := DigestJson(w, o.valueSha),
        "decision_artifact_binding" := Dict(o.binding), "verification_gate_sha256" := DigestJson(w, o.verificationSha),
        "decision_contribution_allowed" := Bool(o.contributionAllowed),
        "gate_compatibility_sha256" := if o.compatibilitySha.Some? then DigestJson(w, o.compatibilitySha.value) else Null]
  }

  function Outcome(w: Writer, o: Observation): Object
    decreases o, 0
  {
    map["evidence_provenance" := Maybe(o.provenance, l => Str(LabelWord(l))),
        "independent_source_separation_status" := Maybe(o.separation, t => Str(t)),
        "high_water_value" := ValueJson(w, o.highWater),
        "high_water_value_sha256" := if o.highWaterSha.Some? then DigestJson(w, o.highWaterSha.value) else Null,
        "zero_movement_streak" := Maybe(o.streak, n => Int(n)), "stalled" := Maybe(o.stalled, b => Bool(b)),
        "comparability_status" := Maybe(o.comparability, c => Str(ComparabilityWord(c))),
        "high_water_moved" := Maybe(o.moved, b => Bool(b))]
  }

  function Migration(w: Writer, o: Observation): Object
    decreases o, 0
  {
    map["basis_migration_status" := Str(MigrationWord(o.migrationStatus)),
        "basis_migration_receipt" := if o.receipt.Some? then Dict(ReceiptJson(w, o.receipt.value)) else Null,
        "basis_migration_prior_observation_sha256" :=
          if o.priorObservation.Some? then DigestJson(w, o.priorObservation.value) else Null,
        "basis_migration_prior_lineage_id" := Maybe(o.priorLineage, ScopeJson),
        "basis_migration_new_lineage_id" := Maybe(o.newLineage, ScopeJson)]
  }

  /** What a written gate repeats of its observation. */
  function EchoedFields(w: Writer, g: Gate): Object {
    map["primary_metric_high_water" := ValueJson(w, g.highWater),
        "primary_metric_high_water_sha256" := DigestJson(w, g.highWaterSha),
        "metric_comparability_status" := Str(ComparabilityWord(g.comparability)),
        "primary_metric_high_water_moved" := Bool(g.moved), "primary_metric_stalled" := Bool(g.stalled),
        "primary_metric_zero_movement_streak" := Maybe(g.streak, n => Int(n)),
        "evidence_provenance" := Str(LabelWord(g.provenance)), "independent_source_separation_status" := Str(g.separation)]
  }

  /** What it holds besides. */
  function OwnFields(w: Writer, g: Gate): Object {
    map["verification_source_separation_gate" := Dict(g.verification),
        "artifact_binding_status" := Str(if g.bindingExact then "exact" else "unbound"),
        "primary_metric_scope_key" := ScopeJson(g.scopeKey), "basis_migration_observed" := Bool(g.migrationObserved),
        "basis_migration_status" := Str(MigrationWord(g.migrationStatus)),
        "basis_migration_receipt" := if g.receipt.Some? then Dict(ReceiptJson(w, g.receipt.value)) else Null,
        "gate_compatibility" := if g.compatibility.Some? then Dict(g.compatibility.value) else Null,
        "decision_contribution_allowed" := Bool(g.contributionAllowed),
        "metric_observation" := if g.observation.Some? then Dict(ObservationJson(w, g.observation.value)) else Null,
        "metric_observation_sha256" := DigestJson(w, g.observationSha)]
  }

  /** A written gate; `extra` are all its other fields. */
  function GateJson(w: Writer, extra: Object, g: Gate): Object {
    extra + ContractJson(g.contract) + EchoedFields(w, g) + OwnFields(w, g)
  }

  // ---- reading it back -----------------------------------------------------

  function EchoedKeys(): set<string> {
    {"primary_metric_high_water", "primary_metric_high_water_sha256", "metric_comparability_status",
     "primary_metric_high_water_moved", "primary_metric_stalled", "primary_metric_zero_movement_streak", "evidence_provenance",
     "independent_source_separation_status"}
  }

  function OwnKeys(): set<string> {
    {"verification_source_separation_gate", "artifact_binding_status", "primary_metric_scope_key", "basis_migration_observed",
     "basis_migration_status", "basis_migration_receipt", "gate_compatibility", "decision_contribution_allowed",
     "metric_observation", "metric_observation_sha256"}
  }

  lemma WrittenKeys(w: Writer, g: Gate)
    ensures EchoedFields(w, g).Keys == EchoedKeys() && OwnFields(w, g).Keys == OwnKeys()
    ensures ContractJson(g.contract).Keys == S.ContractKeys()
  {
    hide EchoedFields, OwnFields, EchoedKeys, OwnKeys, ContractJson, S.ContractKeys;
    EchoedHas(w, g);
    OwnHas(w, g);
    ContractWritten(g.contract);
  }

  lemma EchoedHas(w: Writer, g: Gate)
    ensures EchoedFields(w, g).Keys == EchoedKeys()
  {
    hide ValueJson, DigestJson, ComparabilityWord, LabelWord;
  }

  lemma OwnHas(w: Writer, g: Gate)
    ensures OwnFields(w, g).Keys == OwnKeys()
  {
    hide DigestJson, ScopeJson, ReceiptJson, ObservationJson, MigrationWord;
  }

  lemma KeysApart()
    ensures S.ContractKeys() !! EchoedKeys() && S.ContractKeys() + EchoedKeys() !! OwnKeys()
  {
    ContractApart();
    EchoedApart();
  }

  lemma ContractApart()
    ensures forall k :: k in S.ContractKeys() ==> k !in EchoedKeys() && k !in OwnKeys()
  {
    hide EchoedKeys, OwnKeys, S.ContractKeys;
    ContractNotEchoed();
    ContractNotOwn();
  }

  lemma ContractNotEchoed()
    ensures forall k :: k in S.ContractKeys() ==> k !in EchoedKeys()
  {
  }

  lemma ContractNotOwn()
    ensures forall k :: k in S.ContractKeys() ==> k !in OwnKeys()
  {
  }

  lemma EchoedApart()
    ensures forall k :: k in EchoedKeys() ==> k !in OwnKeys()
  {
  }

  /** Each group of fields reads back from the written gate. */
  lemma Written(w: Writer, extra: Object, g: Gate, k: string)
    ensures var m := GateJson(w, extra, g);
      && (k in OwnKeys() ==> Get(m, k) == Get(OwnFields(w, g), k))
      && (k in EchoedKeys() ==> Get(m, k) == Get(EchoedFields(w, g), k))
      && (k in S.ContractKeys() ==> Get(m, k) == Get(ContractJson(g.contract), k))
  {
    hide EchoedFields, OwnFields, ContractJson, EchoedKeys, OwnKeys, S.ContractKeys;
    WrittenKeys(w, g);
    KeysApart();
  }

  lemma WrittenEchoes(w: Writer, g: Gate)
    ensures var m := EchoedFields(w, g);
      && Get(m, "evidence_provenance") == Str(LabelWord(g.provenance))
      && Get(m, "independent_source_separation_status") == Str(g.separation)
      && Get(m, "primary_metric_high_water_sha256") == DigestJson(w, g.highWaterSha)
      && Get(m, "primary_metric_zero_movement_streak") == Maybe(g.streak, n => Int(n))
      && Get(m, "primary_metric_stalled") == Bool(g.stalled)
      && Get(m, "metric_comparability_status") == Str(ComparabilityWord(g.comparability))
      && Get(m, "primary_metric_high_water_moved") == Bool(g.moved)
      && Get(m, S.HIGH_WATER) == ValueJson(w, g.highWater)
  {
    hide ValueJson, DigestJson, ComparabilityWord, LabelWord;
  }

  lemma WrittenOwn(w: Writer, g: Gate)
    ensures var m := OwnFields(w, g);
      && Get(m, S.VERIFICATION) == Dict(g.verification)
      && Get(m, "artifact_binding_status") == Str(if g.bindingExact then "exact" else "unbound")
      && Get(m, S.SCOPE) == ScopeJson(g.scopeKey) && Get(m, S.OBSERVED) == Bool(g.migrationObserved)
      && Get(m, S.MIGRATION) == Str(MigrationWord(g.migrationStatus))
      && Get(m, S.RECEIPT) == (if g.receipt.Some? then Dict(ReceiptJson(w, g.receipt.value)) else Null)
      && Get(m, S.COMPATIBILITY) == (if g.compatibility.Some? then Dict(g.compatibility.value) else Null)
      && Get(m, S.ALLOWED) == Bool(g.contributionAllowed)
      && Get(m, D.OBSERVATION) == (if g.observation.Some? then Dict(ObservationJson(w, g.observation.value)) else Null)
      && Get(m, S.SEAL) == DigestJson(w, g.observationSha)
  {
    hide ValueJson, DigestJson, ScopeJson, ReceiptJson, ObservationJson, MigrationWord;
  }

  function EvidenceKeys(): set<string> {
    {"contract_version", "metric_contract", "observed_value", "observed_value_sha256", "decision_artifact_binding",
     "verification_gate_sha256", "decision_contribution_allowed", "gate_compatibility_sha256"}
  }

  function OutcomeKeys(): set<string> {
    {"evidence_provenance", "independent_source_separation_status", "high_water_value", "high_water_value_sha256",
     "zero_movement_streak", "stalled", "comparability_status", "high_water_moved"}
  }

  function MigrationKeys(): set<string> {
    {"basis_migration_status", "basis_migration_receipt", "basis_migration_prior_observation_sha256",
     "basis_migration_prior_lineage_id", "basis_migration_new_lineage_id"}
  }

  lemma ObservedKeys(w: Writer, o: Observation)
    ensures Evidence(w, o).Keys == EvidenceKeys() && Outcome(w, o).Keys == OutcomeKeys() && Migration(w, o).Keys == MigrationKeys()
  {
    hide Evidence, Outcome, Migration, EvidenceKeys, OutcomeKeys, MigrationKeys;
    EvidenceHas(w, o);
    OutcomeHas(w, o);
    MigrationHas(w, o);
  }

  lemma EvidenceHas(w: Writer, o: Observation)
    ensures Evidence(w, o).Keys == EvidenceKeys()
  {
    hide ValueJson, DigestJson, ContractJson;
  }

  lemma OutcomeHas(w: Writer, o: Observation)
    ensures Outcome(w, o).Keys == OutcomeKeys()
  {
    hide ValueJson, DigestJson, ComparabilityWord, LabelWord;
  }

  lemma MigrationHas(w: Writer, o: Observation)
    ensures Migration(w, o).Keys == MigrationKeys()
  {
    hide DigestJson, ScopeJson, ReceiptJson, MigrationWord;
  }

  lemma ObservedApart()
    ensures forall k :: k in EvidenceKeys() ==> k !in OutcomeKeys()
    ensures forall k :: k in MigrationKeys() ==> k !in OutcomeKeys() && k !in EvidenceKeys()
  {
    assert forall k :: k in MigrationKeys() ==> k[0] == 'b';
    assert forall k :: k in OutcomeKeys() + EvidenceKeys() ==> k[0] != 'b';
    EvidenceApart();
    hide EvidenceKeys, OutcomeKeys, MigrationKeys;
  }

  lemma EvidenceApart()
    ensures forall k :: k in EvidenceKeys() ==> k !in OutcomeKeys()
  {
  }

  lemma AllObserved()
    ensures EvidenceKeys() + OutcomeKeys() + MigrationKeys() == S.ObservationKeys()
  {
  }

  lemma WrittenObservation(w: Writer, o: Observation)
    ensures ObservationJson(w, o).Keys == S.ObservationKeys()
  {
    hide Evidence, Outcome, Migration, S.ObservationKeys, EvidenceKeys, OutcomeKeys, MigrationKeys;
    ObservedKeys(w, o);
    AllObserved();
  }

  /** Each group of fields reads back from the written observation. */
  lemma ObservedAt(w: Writer, o: Observation, k: string)
    ensures var m := ObservationJson(w, o);
      && (k in EvidenceKeys() ==> Get(m, k) == Get(Evidence(w, o), k))
      && (k in OutcomeKeys() ==> Get(m, k) == Get(Outcome(w, o), k))
      && (k in MigrationKeys() ==> Get(m, k) == Get(Migration(w, o), k))
  {
    hide Evidence, Outcome, Migration, S.ObservationKeys, EvidenceKeys, OutcomeKeys, MigrationKeys;
    ObservedKeys(w, o);
    ObservedApart();
  }

  lemma OutcomeAt(w: Writer, o: Observation)
    ensures var m := Outcome(w, o);
      && Get(m, "evidence_provenance") == Maybe(o.provenance, l => Str(LabelWord(l)))
      && Get(m, "independent_source_separation_status") == Maybe(o.separation, t => Str(t))
      && Get(m, "high_water_value_sha256") == (if o.highWaterSha.Some? then DigestJson(w, o.highWaterSha.value) else Null)
      && Get(m, "zero_movement_streak") == Maybe(o.streak, n => Int(n)) && Get(m, "stalled") == Maybe(o.stalled, b => Bool(b))
      && Get(m, "comparability_status") == Maybe(o.comparability, c => Str(ComparabilityWord(c)))
      && Get(m, "high_water_moved") == Maybe(o.moved, b => Bool(b)) && Get(m, "high_water_value") == ValueJson(w, o.highWater)
  {
    hide ValueJson, DigestJson, ComparabilityWord, LabelWord;
  }

  lemma EvidenceAt(w: Writer, o: Observation)
    ensures var m := Evidence(w, o);
      && Get(m, "contract_version") == Int(1) && Get(m, D.CONTRACT) == Dict(ContractJson(o.contract))
      && Get(m, "observed_value") == ValueJson(w, o.value) && Get(m, "observed_value_sha256") == DigestJson(w, o.valueSha)
      && Get(m, "decision_artifact_binding") == Dict(o.binding)
      && Get(m, "verification_gate_sha256") == DigestJson(w, o.verificationSha)
      && Get(m, S.ALLOWED) == Bool(o.contributionAllowed)
      && Get(m, "gate_compatibility_sha256") == (if o.compatibilitySha.Some? then DigestJson(w, o.compatibilitySha.value) else Null)
  {
    hide ValueJson, DigestJson, ContractJson;
  }

  lemma MigrationAt(w: Writer, o: Observation)
    ensures var m := Migration(w, o);
      && Get(m, S.MIGRATION) == Str(MigrationWord(o.migrationStatus))
      && Get(m, S.RECEIPT) == (if o.receipt.Some? then Dict(ReceiptJson(w, o.receipt.value)) else Null)
      && Get(m, "basis_migration_prior_observation_sha256")
         == (if o.priorObservation.Some? then DigestJson(w, o.priorObservation.value) else Null)
      && Get(m, "basis_migration_prior_lineage_id") == Maybe(o.priorLineage, ScopeJson)
      && Get(m, "basis_migration_new_lineage_id") == Maybe(o.newLineage, ScopeJson)
  {
    hide DigestJson, ScopeJson, ReceiptJson, MigrationWord;
  }

  lemma {:induction false} ObservedOwn(w: Writer, o: Observation)
    ensures var m := ObservationJson(w, o);
      && Get(m, "contract_version") == Int(1) && Get(m, D.CONTRACT) == Dict(ContractJson(o.contract))
      && Get(m, "observed_value") == ValueJson(w, o.value) && Get(m, "observed_value_sha256") == DigestJson(w, o.valueSha)
      && Get(m, "decision_artifact_binding") == Dict(o.binding)
      && Get(m, "verification_gate_sha256") == DigestJson(w, o.verificationSha)
      && Get(m, S.ALLOWED) == Bool(o.contributionAllowed)
      && Get(m, "gate_compatibility_sha256") == (if o.compatibilitySha.Some? then DigestJson(w, o.compatibilitySha.value) else Null)
  {
    hide ObservationJson, Evidence, ValueJson, DigestJson, ContractJson;
    EvidenceAt(w, o);
    forall k | k in EvidenceKeys() ensures Get(ObservationJson(w, o), k) == Get(Evidence(w, o), k) { ObservedAt(w, o, k); }
  }

  lemma {:induction false} ObservedMigration(w: Writer, o: Observation)
    ensures var m := ObservationJson(w, o);
      && Get(m, S.MIGRATION) == Str(MigrationWord(o.migrationStatus))
      && Get(m, S.RECEIPT) == (if o.receipt.Some? then Dict(ReceiptJson(w, o.receipt.value)) else Null)
      && Get(m, "basis_migration_prior_observation_sha256")
         == (if o.priorObservation.Some? then DigestJson(w, o.priorObservation.value) else Null)
      && Get(m, "basis_migration_prior_lineage_id") == Maybe(o.priorLineage, ScopeJson)
      && Get(m, "basis_migration_new_lineage_id") == Maybe(o.newLineage, ScopeJson)
  {
    hide ObservationJson, Migration, DigestJson, ScopeJson, ReceiptJson, MigrationWord;
    MigrationAt(w, o);
    forall k | k in MigrationKeys() ensures Get(ObservationJson(w, o), k) == Get(Migration(w, o), k) { ObservedAt(w, o, k); }
  }

  // ---- recorded gates are sealed -------------------------------------------

  /** What evaluating, binding and sealing leave in gate and observation alike. */
  ghost predicate Mirrored(s: Settings, g: Gate) {
    && g.bindingExact && g.compatibility.Some? && g.observation.Some?
    && var o := g.observation.value;
       && o.contract == g.contract && o.provenance == Some(g.provenance) && o.separation == Some(g.separation)
       && o.highWater == g.highWater && o.highWaterSha == Some(g.highWaterSha)
       && o.streak == g.streak && o.stalled == Some(g.stalled) && o.comparability == Some(g.comparability)
       && o.moved == Some(g.moved) && o.contributionAllowed == g.contributionAllowed
       && o.migrationStatus == g.migrationStatus && o.receipt == g.receipt
       && o.verificationSha == VerificationSha(s, g.verification)
       && o.compatibilitySha == Some(OfJson(Project(s.policy, Dict(g.compatibility.value), "")))
       && g.observationSha == OfObservation(o)
       && o.valueSha == OfValue(o.contract, o.value) && g.highWaterSha == OfValue(o.contract, o.highWater)
  }

  lemma RecordMirrors(s: Settings, rows: seq<Row>, r: Reading, compatibility: Object)
    requires ReadingValid(r)
    ensures Mirrored(s, Record(s, rows, r, compatibility))
  {
    hide KeyOf, StreakOf, StalledOf, HighWaterOf, EffectiveLabel, Separation, ReasonOf, ComparabilityOf, CompatibilityStatus,
      CapValue, VerificationSha, Project, StatusOf, DeclaredLabel, Binding, LatestBaseline, LatestOtherBasis, ReceiptAccepted,
      Independent, Compare;
  }

  lemma EchoCase(w: Writer, s: Settings, g: Gate, k: string)
    requires Mirrored(s, g) && k in S.Echoed()
    ensures S.Echoed()[k] in EchoedKeys() && k in OutcomeKeys()
    ensures Get(EchoedFields(w, g), S.Echoed()[k]) == Get(Outcome(w, g.observation.value), k)
  {
    hide ValueJson, DigestJson, ComparabilityWord, LabelWord, EchoedFields, Outcome, VerificationSha, Project;
    WrittenEchoes(w, g);
    OutcomeAt(w, g.observation.value);
  }

  lemma {:induction false} WrittenEcho(w: Writer, s: Settings, extra: Object, g: Gate, k: string)
    requires Mirrored(s, g) && k in S.Echoed()
    ensures Get(GateJson(w, extra, g), S.Echoed()[k]) == Get(ObservationJson(w, g.observation.value), k)
  {
    hide GateJson, EchoedFields, ObservationJson, S.Echoed, EchoedKeys, OwnKeys, Outcome, OutcomeKeys, Mirrored;
    assert g.observation.Some? by { MirroredObserves(s, g); }
    EchoCase(w, s, g, k);
    Written(w, extra, g, S.Echoed()[k]);
    ObservedAt(w, g.observation.value, k);
  }

  lemma MirroredObserves(s: Settings, g: Gate)
    requires Mirrored(s, g)
    ensures g.observation.Some? && g.observation.value.contract == g.contract && g.observation.value.highWater == g.highWater
  {
  }

  lemma {:induction false} WrittenRepeats(w: Writer, s: Settings, extra: Object, g: Gate)
    requires Mirrored(s, g)
    ensures S.Repeats(GateJson(w, extra, g), ObservationJson(w, g.observation.value))
  {
    hide ValueJson, GateJson, EchoedFields, ObservationJson, ContractJson, S.ContractKeys, S.Echoed, EchoedKeys, OwnKeys,
      Mirrored, Outcome, OutcomeKeys;
    MirroredObserves(s, g);
    var m, o := GateJson(w, extra, g), g.observation.value;
    ObservedOwn(w, o);
    forall k | k in S.ContractKeys() ensures Get(m, k) == Get(ContractJson(o.contract), k) { Written(w, extra, g, k); }
    forall k | k in S.Echoed() ensures Get(m, S.Echoed()[k]) == Get(ObservationJson(w, o), k) { WrittenEcho(w, s, extra, g, k); }
    HighWaterRepeated(w, s, extra, g);
  }

  lemma {:induction false} HighWaterRepeated(w: Writer, s: Settings, extra: Object, g: Gate)
    requires Mirrored(s, g)
    ensures Get(GateJson(w, extra, g), S.HIGH_WATER) == Get(ObservationJson(w, g.observation.value), "high_water_value")
  {
    hide ValueJson, GateJson, EchoedFields, ObservationJson, EchoedKeys, OwnKeys, Mirrored, Outcome, OutcomeKeys, DigestJson;
    MirroredObserves(s, g);
    OutcomeAt(w, g.observation.value);
    WrittenEchoes(w, g);
    HighWaterEchoed();
    Written(w, extra, g, S.HIGH_WATER);
    ObservedAt(w, g.observation.value, "high_water_value");
  }

  lemma HighWaterEchoed()
    ensures S.HIGH_WATER in EchoedKeys() && "high_water_value" in OutcomeKeys()
  {
  }

  lemma OwnField(w: Writer, extra: Object, g: Gate, k: string)
    requires k in OwnKeys()
    ensures Get(GateJson(w, extra, g), k) == Get(OwnFields(w, g), k)
  {
    hide OwnKeys, OwnFields, GateJson;
    Written(w, extra, g, k);
  }

  /** The gate's own fields, read from the written gate. */
  lemma {:induction false} WrittenGate(w: Writer, extra: Object, g: Gate)
    ensures var m := GateJson(w, extra, g);
      && Get(m, S.VERIFICATION) == Dict(g.verification)
      && Get(m, "artifact_binding_status") == Str(if g.bindingExact then "exact" else "unbound")
      && Get(m, S.SCOPE) == ScopeJson(g.scopeKey) && Get(m, S.OBSERVED) == Bool(g.migrationObserved)
      && Get(m, S.MIGRATION) == Str(MigrationWord(g.migrationStatus))
      && Get(m, S.RECEIPT) == (if g.receipt.Some? then Dict(ReceiptJson(w, g.receipt.value)) else Null)
      && Get(m, S.COMPATIBILITY) == (if g.compatibility.Some? then Dict(g.compatibility.value) else Null)
      && Get(m, S.ALLOWED) == Bool(g.contributionAllowed)
      && Get(m, D.OBSERVATION) == (if g.observation.Some? then Dict(ObservationJson(w, g.observation.value)) else Null)
      && Get(m, S.SEAL) == DigestJson(w, g.observationSha)
  {
    hide OwnFields, GateJson, ScopeJson, DigestJson, ReceiptJson, ObservationJson, MigrationWord;
    WrittenOwn(w, g);
    OwnField(w, extra, g, S.VERIFICATION);
    OwnField(w, extra, g, "artifact_binding_status");
    OwnField(w, extra, g, S.SCOPE);
    OwnField(w, extra, g, S.OBSERVED);
    OwnField(w, extra, g, S.MIGRATION);
    OwnField(w, extra, g, S.RECEIPT);
    OwnField(w, extra, g, S.COMPATIBILITY);
    OwnField(w, extra, g, S.ALLOWED);
    OwnField(w, extra, g, D.OBSERVATION);
    OwnField(w, extra, g, S.SEAL);
  }

  lemma {:induction false} WrittenDigests(w: Writer, e: S.Reader, extra: Object, g: Gate)
    requires Mirrored(e.settings, g)
    ensures S.Digested(e, GateJson(w, extra, g), ObservationJson(w, g.observation.value))
  {
    hide GateJson, ScopeJson, ReceiptJson, ObservationJson, MigrationWord, ValueJson, ContractJson, Project;
    WrittenGate(w, extra, g);
    ObservedOwn(w, g.observation.value);
  }

  lemma ScopeIsLeaf(k: ScopeKey)
    ensures ScopeJson(k).Str? || ScopeJson(k).Sha?
  {
  }

  /** The written gate is what the sealer leaves. */
  lemma {:induction false} WrittenIsSealed(w: Writer, e: S.Reader, extra: Object, g: Gate)
    requires Mirrored(e.settings, g)
    ensures S.Sealed(e, GateJson(w, extra, g))
  {
    hide GateJson, ScopeJson, ReceiptJson, ObservationJson, MigrationWord, ValueJson, ContractJson, Project, DigestJson, S.Repeats,
      S.Digested, S.ObservationKeys;
    WrittenGate(w, extra, g);
    WrittenRepeats(w, e.settings, extra, g);
    WrittenDigests(w, e, extra, g);
    WrittenObservation(w, g.observation.value);
    ObservedMigration(w, g.observation.value);
    ScopeIsLeaf(g.scopeKey);
  }

  // ---- the written gate counts as the recorded one -------------------------

  /** Reader and writer understand each other: truth values are read as such, and a
      receipt is well shaped exactly if it was marked so and changes the basis. */
  ghost predicate Faithful(e: S.Reader, w: Writer) {
    && (forall b :: e.flag(Bool(b)) == b)
    && forall r :: e.shape(ReceiptJson(w, r)) <==> r.wellFormed && r.oldBasis != r.newBasis
  }

  /** A label outside the four known ones does not read as one of trust. */
  predicate Proper(l: Label) { l.OtherLabel? ==> l.text != "independently_verified" }

  lemma TrustedIff(s: Settings, r: Reading)
    requires Proper(r.declared)
    ensures LabelWord(EffectiveLabel(s, r)) == "independently_verified" <==> Independent(s, r)
    ensures Independent(s, r) ==> Separation(s, r) == "pass"
  {
    assert |"legacy_unclassified"| == 19 && |"independently_verified"| == 22 && |"producer_attested"| == 17;
    assert |"self_grounded"| == 13 && |"not_evaluated"| == 13;
  }

  lemma ReceiptAt(w: Writer, r: Receipt)
    ensures var m := ReceiptJson(w, r);
      && Get(m, "metric_axis_id") == Str(r.axisId) && Get(m, "new_metric_basis_id") == Str(r.newBasis)
      && Get(m, "old_observation_sha256") == DigestJson(w, r.oldObservation)
      && Get(m, "new_observation_input_sha256") == DigestJson(w, r.newInput)
      && Get(m, "old_lineage_id") == ScopeJson(r.oldLineage) && Get(m, "new_lineage_id") == ScopeJson(r.newLineage)
      && Get(m, "decision_binding_sha256") == DigestJson(w, r.binding)
      && Get(m, "verification_gate_sha256") == DigestJson(w, r.verification)
  {
    hide DigestJson, ScopeJson;
  }

  lemma ContractIds(c: Contract)
    ensures Get(ContractJson(c), "metric_id") == Str(c.metricId) && Get(ContractJson(c), "metric_basis_id") == Str(c.basisId)
    ensures Get(ContractJson(c), "value_kind") == Str(KindWord(c.kind))
    ensures Get(ContractJson(c), D.CONFIG) == Dict(ConfigJson(c.config))
  {
    hide KindWord, SemanticsWord, ConfigJson;
  }

  lemma MigrationWords(m: MigrationStatus)
    ensures MigrationWord(m) == "verified_new_baseline" <==> m == VerifiedNewBaseline
    ensures MigrationWord(m) == "not_applicable" <==> m == NotApplicable
  {
  }

  /** The digests a receipt binds, written out. */
  lemma WrittenBonds(w: Writer, e: S.Reader, c: Contract, v: Datum, binding: Object, gate: Object)
    ensures DigestJson(w, OfJson(Dict(binding))) == Sha(Dict(binding))
    ensures DigestJson(w, VerificationSha(e.settings, gate)) == S.RecordSha(e.Policy(), Dict(gate))
    ensures DigestJson(w, InputSha(e.settings, c, v, binding, gate))
         == S.InputSha(e.Policy(), Dict(ContractJson(c)), ValueJson(w, v), Dict(binding), Dict(gate))
  {
    hide Project, ContractJson, ValueJson;
  }

  lemma ShapeKnown(e: S.Reader, w: Writer, r: Receipt)
    requires Faithful(e, w) && r.wellFormed && r.oldBasis != r.newBasis
    ensures e.shape(ReceiptJson(w, r))
  {
    hide ReceiptJson;
  }

  /** A proven migration is proven again from the written gate. */
  lemma {:induction false} ProvenAgain(w: Writer, e: S.Reader, extra: Object, g: Gate)
    requires Faithful(e, w) && g.observation.Some? && MigrationProven(e.settings, g, g.observation.value)
    ensures S.MigrationProven(e, GateJson(w, extra, g), ObservationJson(w, g.observation.value))
  {
    hide GateJson, ObservationJson, ReceiptJson, ScopeJson, ContractJson, ValueJson, Project, MigrationWord, DigestJson, S.InputSha,
      InputSha, VerificationSha, S.RecordSha, Faithful, Leveled;
    var o := g.observation.value;
    ShapeKnown(e, w, o.receipt.value);
    WrittenBonds(w, e, o.contract, o.value, o.binding, g.verification);
    WrittenGate(w, extra, g);
    ObservedOwn(w, o);
    ObservedMigration(w, o);
    ReceiptAt(w, o.receipt.value);
    ContractIds(o.contract);
    MigrationWords(VerifiedNewBaseline);
  }

  /** An accepted receipt proves the migration. */
  lemma {:induction false} AcceptedProves(s: Settings, rows: seq<Row>, r: Reading, compatibility: Object)
    requires ReadingValid(r) && Judge(s, rows, r).migrated
    ensures var g := Record(s, rows, r, compatibility);
            g.observation.Some? && MigrationProven(s, g, g.observation.value)
  {
    hide Record, LatestBaseline, LatestOtherBasis, Compare, KeyOf, Binding, Independent, VerificationSha, ObservationSealed, HighWaterOf,
      StreakOf, StalledOf, Normal, ContractValid, EffectiveLabel, Separation;
    MetricLineage.RecordView(s, rows, r, compatibility);
    MetricLineage.SealView(s, rows, r, compatibility);
  }

  lemma {:induction false} WrittenMigrationIff(
    w: Writer, e: S.Reader, extra: Object, rows: seq<Row>, r: Reading, compatibility: Object)
    requires ReadingValid(r) && Faithful(e, w)
    ensures var g := Record(e.settings, rows, r, compatibility); var j := Judge(e.settings, rows, r);
            && g.observation.Some?
            && var m := GateJson(w, extra, g); var o := ObservationJson(w, g.observation.value);
            && (S.MigrationProven(e, m, o) || S.MigrationAbsent(m, o) <==> (j.migrating ==> j.migrated))
            && (Truthy(Get(m, S.OBSERVED)) <==> j.migrating)
            && (j.migrating ==> (Get(m, S.MIGRATION) == Str("verified_new_baseline") <==> j.migrated))
  {
    hide Record, GateJson, ObservationJson, ReceiptJson, ScopeJson, ContractJson, Project, LatestBaseline, LatestOtherBasis, Compare,
      KeyOf, Binding, Independent, MigrationWord, Faithful, DigestJson;
    var s, g, j := e.settings, Record(e.settings, rows, r, compatibility), Judge(e.settings, rows, r);
    MetricLineage.RecordView(s, rows, r, compatibility);
    MetricLineage.SealView(s, rows, r, compatibility);
    var o := g.observation.value;
    WrittenGate(w, extra, g);
    ObservedMigration(w, o);
    MigrationWords(o.migrationStatus);
    if j.migrated {
      AcceptedProves(s, rows, r, compatibility);
      ProvenAgain(w, e, extra, g);
    }
  }

  lemma {:induction false} WrittenSelf(w: Writer, e: S.Reader, g: Gate)
    requires Mirrored(e.settings, g)
    ensures S.SelfConsistent(e, ObservationJson(w, g.observation.value)) <==>
            g.contributionAllowed && BindingValid(e.settings, g.observation.value.binding)
  {
    hide ObservationJson, ValueJson, ContractJson, Project, BindingValid, S.ObservationKeys, Outcome, OutcomeKeys;
    var o := g.observation.value;
    WrittenObservation(w, o);
    ObservedOwn(w, o);
    OutcomeAt(w, o);
    ShaObserved();
    ObservedAt(w, o, "high_water_value");
    ObservedAt(w, o, "high_water_value_sha256");
  }

  lemma ShaObserved()
    ensures "high_water_value" in OutcomeKeys() && "high_water_value_sha256" in OutcomeKeys()
  {
  }

  /** The written gate counts exactly when the recorded gate is eligible. */
  lemma {:induction false} WrittenCountsIff(
    w: Writer, e: S.Reader, extra: Object, rows: seq<Row>, r: Reading, compatibility: Object)
    requires ReadingValid(r) && Faithful(e, w) && Proper(r.declared) && MetricLineage.FoldsVerdict(e.settings)
    ensures var g := Record(e.settings, rows, r, compatibility);
            S.Counts(e, GateJson(w, extra, g)) <==> Eligible(e.settings, g)
  {
    hide Record, GateJson, ObservationJson, ReceiptJson, ScopeJson, ContractJson, Project, Compare, KeyOf, Binding, Independent,
      Eligible, Judge, S.SelfConsistent, S.Repeats, S.Agrees, S.Digested, S.MigrationProven, S.MigrationAbsent, BindingValid, DigestJson,
      StreakOf, StalledOf, HighWaterOf, LabelWord, MigrationWord, VerificationSha, EffectiveLabel, Separation;
    var s, g := e.settings, Record(e.settings, rows, r, compatibility);
    RecordMirrors(s, rows, r, compatibility);
    MetricLineage.RecordView(s, rows, r, compatibility);
    MetricLineage.SealView(s, rows, r, compatibility);
    MetricLineage.RecordedGateCountsIff(s, rows, r, compatibility);
    WrittenGate(w, extra, g);
    WrittenMigrationIff(w, e, extra, rows, r, compatibility);
    WrittenRepeats(w, s, extra, g);
    S.RepeatsAgrees(GateJson(w, extra, g), ObservationJson(w, g.observation.value));
    WrittenDigests(w, e, extra, g);
    WrittenSelf(w, e, g);
    TrustedIff(s, r);
    WrittenTrust(w, extra, g);
  }

  lemma WrittenTrust(w: Writer, extra: Object, g: Gate)
    ensures var m := GateJson(w, extra, g);
      && Get(m, "evidence_provenance") == Str(LabelWord(g.provenance))
      && Get(m, "independent_source_separation_status") == Str(g.separation)
  {
    hide GateJson, EchoedFields, LabelWord;
    WrittenEchoes(w, g);
    Written(w, extra, g, "evidence_provenance");
    Written(w, extra, g, "independent_source_separation_status");
  }

  // ---- which recorded gates survive a save ---------------------------------

  predicate PlainAtom(p: Policy, a: Atom) { a.Words? ==> p.plainLabel(a.s) }

  predicate PlainValue(p: Policy, v: Datum) { v.Single? && PlainAtom(p, v.a) }

  /** One value at a time, and no settings but a plain target. */
  predicate PlainContract(p: Policy, c: Contract) {
    && c.kind !in {Set, Vector}
    && (c.config.NoConfig? || (c.config.Target? && PlainAtom(p, c.config.target)))
  }

  /** Binding and receipt hold nothing sensitive and nothing path-like under a
      reference key. */
  ghost predicate CleanEvidence(w: Writer, p: Policy, binding: Object, receipt: Option<Receipt>) {
    && D.Clean(p, Dict(binding), "decision_artifact_binding")
    && (receipt.Some? ==> D.Clean(p, Dict(ReceiptJson(w, receipt.value)), S.RECEIPT))
  }

  /** A sealed observation that the projection leaves alone. */
  ghost predicate Plain(w: Writer, p: Policy, o: Observation) {
    && PlainContract(p, o.contract) && PlainValue(p, o.value) && PlainValue(p, o.highWater)
    && CleanEvidence(w, p, o.binding, o.receipt)
  }

  /** The projection keeps an observation's own keys and can read a kind. */
  ghost predicate Legible(p: Policy) {
    && S.KeysOpen(p) && !p.sensitive(D.Gate) && !p.sensitive("target_value")
    && (forall k :: k in S.ObservationKeys() ==> !p.sensitive(k))
    && forall k: Kind :: p.fold(p.show(Str(KindWord(k)))) == KindWord(k)
  }

  predicate Leaf(j: Json) { !j.Dict? && !j.List? }

  lemma LeafClean(p: Policy, j: Json, k: string)
    requires Leaf(j) && !Locates(k) && k != "findings"
    ensures D.ChildClean(p, k, j)
  {
  }

  lemma DigestIsLeaf(w: Writer, d: Digest)
    ensures DigestJson(w, d).Sha?
  {
  }

  function Composite(): set<string> {
    {"metric_contract", "observed_value", "high_water_value", "decision_artifact_binding", "basis_migration_receipt"}
  }

  lemma EvidenceLeaf(w: Writer, o: Observation, k: string)
    requires k in EvidenceKeys() && k !in Composite()
    ensures Leaf(Get(Evidence(w, o), k))
  {
    hide Evidence, DigestJson, ValueJson, ContractJson;
    EvidenceAt(w, o);
    forall d ensures Leaf(DigestJson(w, d)) { DigestIsLeaf(w, d); }
  }

  lemma OutcomeLeaf(w: Writer, o: Observation, k: string)
    requires k in OutcomeKeys() && k !in Composite()
    ensures Leaf(Get(Outcome(w, o), k))
  {
    hide Outcome, DigestJson, ValueJson, LabelWord, ComparabilityWord;
    OutcomeAt(w, o);
    forall d ensures Leaf(DigestJson(w, d)) { DigestIsLeaf(w, d); }
  }

  lemma MigrationLeaf(w: Writer, o: Observation, k: string)
    requires k in MigrationKeys() && k !in Composite()
    ensures Leaf(Get(Migration(w, o), k))
  {
    hide Migration, DigestJson, ReceiptJson, ScopeJson, MigrationWord;
    MigrationAt(w, o);
    forall d ensures Leaf(DigestJson(w, d)) { DigestIsLeaf(w, d); }
    forall d ensures Leaf(ScopeJson(d)) { ScopeIsLeaf(d); }
  }

  /** Five fields of a written observation hold more than a leaf. */
  lemma {:induction false} ObservedLeaf(w: Writer, o: Observation, k: string)
    requires k in S.ObservationKeys() && k !in Composite()
    ensures Leaf(Get(ObservationJson(w, o), k))
  {
    hide Composite, Evidence, Outcome, Migration, ObservationJson, EvidenceKeys, OutcomeKeys, MigrationKeys, S.ObservationKeys;
    AllObserved();
    ObservedAt(w, o, k);
    if k in EvidenceKeys() {
      EvidenceLeaf(w, o, k);
    } else if k in OutcomeKeys() {
      OutcomeLeaf(w, o, k);
    } else {
      MigrationLeaf(w, o, k);
    }
  }

  lemma ContractKeyLeaf(c: Contract, k: string)
    requires k in S.ContractKeys() && k != D.CONFIG
    ensures Leaf(Get(ContractJson(c), k))
  {
    hide KindWord, SemanticsWord, ConfigJson;
  }

  lemma PlainConfig(p: Policy, c: Config)
    requires !p.sensitive("target_value") && (c.NoConfig? || c.Target?)
    ensures D.ChildClean(p, D.CONFIG, Dict(ConfigJson(c)))
  {
    assert |D.CONFIG| == 17 && |D.Gate| == 19 && |"findings"| == 8 && |"target_value"| == 12;
    if c.Target? {
      assert !Locates("target_value") by { S.HarmlessKey("target_value"); }
      LeafClean(p, AtomJson(c.target), "target_value");
    }
  }

  lemma {:induction false} CleanContract(p: Policy, c: Contract)
    requires Legible(p) && (c.config.NoConfig? || c.config.Target?)
    ensures D.ChildClean(p, D.CONTRACT, Dict(ContractJson(c)))
  {
    hide ContractJson, S.ContractKeys, Locates, D.Clean, ConfigJson;
    var m := ContractJson(c);
    D.KeysApart();
    assert m.Keys == S.ContractKeys() by { ContractWritten(c); }
    forall k | k in m ensures !p.sensitive(k) && D.ChildClean(p, k, m[k]) {
      S.GateKeysHarmless(k);
      S.HarmlessKey(k);
      if k == D.CONFIG {
        ContractIds(c);
        PlainConfig(p, c.config);
      } else {
        ContractKeyLeaf(c, k);
        LeafClean(p, m[k], k);
      }
    }
    CleanChildren(p, m, D.CONTRACT);
  }

  lemma ContractWritten(c: Contract)
    ensures ContractJson(c).Keys == S.ContractKeys()
  {
    hide KindWord, SemanticsWord, ConfigJson;
  }

  lemma CleanChildren(p: Policy, m: Object, parent: string)
    requires parent != D.Gate && parent != "findings"
    ensures D.ChildClean(p, parent, Dict(m)) <==> forall k :: k in m ==> !p.sensitive(k) && D.ChildClean(p, k, m[k])
    ensures D.ChildClean(p, parent, Dict(m)) <==> D.Clean(p, Dict(m), parent)
  {
  }

  /** The composite fields of a written observation. */
  lemma {:induction false} Composites(w: Writer, o: Observation)
    ensures var m := ObservationJson(w, o);
      && Get(m, D.CONTRACT) == Dict(ContractJson(o.contract)) && Get(m, "decision_artifact_binding") == Dict(o.binding)
      && Get(m, S.RECEIPT) == (if o.receipt.Some? then Dict(ReceiptJson(w, o.receipt.value)) else Null)
      && Get(m, "observed_value") == ValueJson(w, o.value) && Get(m, "high_water_value") == ValueJson(w, o.highWater)
  {
    hide ObservationJson, ReceiptJson, ContractJson, DigestJson, ValueJson, ScopeJson, MigrationWord;
    ObservedOwn(w, o);
    ObservedMigration(w, o);
    WrittenValues(w, o);
  }

  /** Each composite field of a plain observation is clean. */
  lemma {:induction false} CompositeClean(w: Writer, p: Policy, o: Observation, k: string)
    requires Legible(p) && Plain(w, p, o) && k in Composite()
    ensures D.ChildClean(p, k, Get(ObservationJson(w, o), k))
  {
    hide ObservationJson, Locates, D.Clean, ReceiptJson, D.ChildClean, ContractJson, Legible;
    Composites(w, o);
    assert k !in {D.Gate, "findings"} && !Locates(k) by { CompositeObserved(k); S.ObservationKeysPlain(k); }
    if k == D.CONTRACT {
      CleanContract(p, o.contract);
    } else if k == "decision_artifact_binding" {
      CleanChildren(p, o.binding, k);
    } else if k == S.RECEIPT && o.receipt.Some? {
      CleanChildren(p, ReceiptJson(w, o.receipt.value), k);
    } else {
      LeafClean(p, Get(ObservationJson(w, o), k), k);
    }
  }

  lemma CompositeObserved(k: string)
    requires k in Composite()
    ensures k in S.ObservationKeys()
  {
  }

  lemma {:induction false} PlainIsClean(w: Writer, p: Policy, o: Observation)
    requires Legible(p) && Plain(w, p, o)
    ensures D.Clean(p, Dict(ObservationJson(w, o)), D.OBSERVATION)
  {
    hide ObservationJson, Locates, D.Clean, S.ObservationKeys, Composite, Plain, D.ChildClean;
    var m := ObservationJson(w, o);
    D.KeysApart();
    WrittenObservation(w, o);
    forall k | k in m ensures !p.sensitive(k) && D.ChildClean(p, k, m[k]) {
      if k in Composite() {
        CompositeClean(w, p, o, k);
      } else {
        S.ObservationKeysPlain(k);
        ObservedLeaf(w, o, k);
        LeafClean(p, m[k], k);
      }
    }
    CleanChildren(p, m, D.OBSERVATION);
  }

  lemma {:induction false} CleanBinds(w: Writer, p: Policy, o: Observation)
    requires D.Clean(p, Dict(ObservationJson(w, o)), D.OBSERVATION)
    ensures CleanEvidence(w, p, o.binding, o.receipt)
  {
    hide ObservationJson, Locates, D.Clean, S.ObservationKeys, D.ChildClean, ReceiptJson;
    var m, b := ObservationJson(w, o), "decision_artifact_binding";
    D.KeysApart();
    WrittenObservation(w, o);
    ObservedOwn(w, o);
    ObservedMigration(w, o);
    CleanChildren(p, m, D.OBSERVATION);
    CompositeObserved(b);
    CompositeObserved(S.RECEIPT);
    S.ObservationKeysPlain(b);
    S.ObservationKeysPlain(S.RECEIPT);
    CleanChildren(p, o.binding, b);
    if o.receipt.Some? { CleanChildren(p, ReceiptJson(w, o.receipt.value), S.RECEIPT); }
  }

  lemma AtomNeeds(p: Policy, a: Atom, kind: string)
    requires kind !in {"set", "vector"}
    ensures NeedsReference(p, AtomJson(a), kind) <==> !PlainAtom(p, a)
  {
  }

  /** Which settings hold a value that is replaced. */
  lemma ConfigQuietIff(p: Policy, c: Contract)
    requires ContractValid(c) && c.kind !in {Set, Vector}
    ensures D.ConfigQuiet(p, Dict(ConfigJson(c.config)), KindWord(c.kind)) <==> PlainContract(p, c)
  {
    hide NeedsReference, PlainAtom;
    var m, kind := ConfigJson(c.config), KindWord(c.kind);
    if c.config.Target? {
      AtomNeeds(p, c.config.target, kind);
      assert "target_value" in m && "target_value" in D.ConfigFields();
    } else if c.config.Ranks? {
      assert "ordered_values" in m && "ordered_values" in D.ConfigFields();
      ListNeeds(p, m["ordered_values"], kind);
    } else {
      assert m == map[];
    }
  }

  lemma ListNeeds(p: Policy, j: Json, kind: string)
    requires j.List?
    ensures NeedsReference(p, j, kind)
  {
  }

  lemma CollectionNeeds(p: Policy, v: Datum, w: Writer, c: Contract)
    requires ContractValid(c) && Normal(v, c)
    ensures c.kind in {Set, Vector} ==> NeedsReference(p, ValueJson(w, v), KindWord(c.kind))
    ensures c.kind !in {Set, Vector} ==> v.Single? && (NeedsReference(p, ValueJson(w, v), KindWord(c.kind)) <==> !PlainValue(p, v))
  {
    hide NeedsReference, PlainAtom;
    if c.kind in {Set, Vector} {
      KindNeeds(p, ValueJson(w, v), KindWord(c.kind));
    } else {
      AtomNeeds(p, v.a, KindWord(c.kind));
    }
  }

  lemma KindNeeds(p: Policy, j: Json, kind: string)
    requires j != Null && kind in {"set", "vector"}
    ensures NeedsReference(p, j, kind)
  {
  }

  /** The kind of a written contract reads back. */
  lemma WrittenKind(p: Policy, c: Contract, default: string)
    requires Legible(p)
    ensures KindOf(p, ContractJson(c), default) == KindWord(c.kind)
  {
    hide ContractJson, S.KeysOpen, S.ObservationKeys;
    ContractIds(c);
    WordNotEmpty(c.kind);
  }

  /** An observation with both its values is quiet if its settings and values are. */
  lemma QuietReads(p: Policy, m: Object, kind: string, gateKind: string)
    requires Get(m, D.CONTRACT).Dict? && KindOf(p, Get(m, D.CONTRACT).entries, gateKind) == kind
    requires D.ObservedFields() <= m.Keys
    ensures D.ObservationQuiet(p, m, gateKind) <==>
            && D.ConfigQuiet(p, Get(Get(m, D.CONTRACT).entries, D.CONFIG), kind)
            && !NeedsReference(p, Get(m, "observed_value"), kind) && !NeedsReference(p, Get(m, "high_water_value"), kind)
  {
    hide NeedsReference, D.ConfigQuiet, KindOf;
    assert forall k :: k in D.ObservedFields() <==> k == "observed_value" || k == "high_water_value";
  }

  lemma WrittenNames(w: Writer, o: Observation)
    ensures D.NamedObservation(ObservationJson(w, o)) == ObservationJson(w, o)
  {
    hide ObservationJson, ContractJson, DigestJson, ValueJson, S.ObservationKeys;
    ObservedOwn(w, o);
    ContractWritten(o.contract);
    ConfigAmong();
    WrittenObservation(w, o);
    CompositeObserved(D.CONTRACT);
    assert D.Named(ContractJson(o.contract)) == ContractJson(o.contract);
  }

  lemma WrittenValues(w: Writer, o: Observation)
    ensures var m := ObservationJson(w, o);
      && D.ObservedFields() <= m.Keys && Get(m, D.CONTRACT) == Dict(ContractJson(o.contract))
      && Get(m, "observed_value") == ValueJson(w, o.value) && Get(m, "high_water_value") == ValueJson(w, o.highWater)
  {
    hide ObservationJson, ContractJson, ValueJson, Outcome, OutcomeKeys, DigestJson, S.ObservationKeys;
    ObservedOwn(w, o);
    OutcomeAt(w, o);
    ShaObserved();
    ObservedAt(w, o, "high_water_value");
    WrittenObservation(w, o);
    ValuesObserved();
  }

  /** The observation's values are left alone exactly for plain metrics. */
  lemma {:induction false} PlainQuietIff(w: Writer, p: Policy, o: Observation, kind: string)
    requires Legible(p) && ContractValid(o.contract) && Normal(o.value, o.contract) && Normal(o.highWater, o.contract)
    ensures D.ObservationQuiet(p, ObservationJson(w, o), kind) <==>
            PlainContract(p, o.contract) && PlainValue(p, o.value) && PlainValue(p, o.highWater)
  {
    hide ObservationJson, ContractJson, ValueJson, NeedsReference, D.ConfigQuiet, PlainContract, PlainValue, KindWord, ConfigJson, Normal,
      ContractValid, D.ObservationQuiet, D.ObservedFields, KindOf, Legible;
    var c := o.contract;
    WrittenValues(w, o);
    ContractIds(c);
    WrittenKind(p, c, kind);
    QuietReads(p, ObservationJson(w, o), KindWord(c.kind), kind);
    CollectionNeeds(p, o.value, w, c);
    CollectionNeeds(p, o.highWater, w, c);
    if c.kind in {Set, Vector} {
      NeverPlain(p, c);
    } else {
      ConfigQuietIff(p, c);
    }
  }

  lemma NeverPlain(p: Policy, c: Contract)
    requires c.kind in {Set, Vector}
    ensures !PlainContract(p, c)
  {
  }

  lemma ConfigAmong()
    ensures D.CONFIG in S.ContractKeys()
  {
  }

  lemma WordNotEmpty(k: Kind)
    ensures KindWord(k) != ""
  {
  }

  lemma ValuesObserved()
    ensures D.ObservedFields() == {"observed_value", "high_water_value"} <= S.ObservationKeys()
  {
  }

  /** The high-water of a recorded gate is a normal value of its contract. */
  lemma HighWaterNormal(s: Settings, rows: seq<Row>, r: Reading)
    requires ReadingValid(r)
    ensures Normal(HighWaterOf(s, r, Judge(s, rows, r)), r.contract)
  {
    hide Compare, Normal;
    BaselineNormal(s, rows, r.contract);
  }

  /** What a save asks of a recorded gate: a plain observation, and two sealed records
      whose projections are final. */
  ghost predicate Lasting(w: Writer, p: Policy, g: Gate) {
    && g.observation.Some? && Plain(w, p, g.observation.value) && D.Quiet(p, Dict(g.verification), "")
    && (g.compatibility.Some? ==> D.Quiet(p, Dict(g.compatibility.value), ""))
  }

  lemma {:induction false} DurableIff(w: Writer, e: S.Reader, extra: Object, rows: seq<Row>, r: Reading, compatibility: Object)
    requires ReadingValid(r) && Legible(e.Policy())
    ensures var g := Record(e.settings, rows, r, compatibility);
            S.Durable(e.Policy(), GateJson(w, extra, g)) <==> Lasting(w, e.Policy(), g)
  {
    hide Record, GateJson, ObservationJson, HighWaterOf, Judge, KeyOf, StreakOf, StalledOf, Binding, EffectiveLabel, Separation, StatusOf,
      D.Quiet, D.Clean, D.ObservationQuiet, D.NamedObservation, Legible, PlainContract, PlainValue, CleanEvidence, VerificationSha,
      Project, ScopeJson, ReceiptJson, DigestJson, MigrationWord, Normal, ContractValid;
    var p, g := e.Policy(), Record(e.settings, rows, r, compatibility);
    RecordMirrors(e.settings, rows, r, compatibility);
    MetricLineage.RecordView(e.settings, rows, r, compatibility);
    MetricLineage.SealView(e.settings, rows, r, compatibility);
    HighWaterNormal(e.settings, rows, r);
    WrittenGate(w, extra, g);
    var o := g.observation.value;
    PlainQuietIff(w, p, o, KindOf(p, GateJson(w, extra, g), ""));
    WrittenNames(w, o);
    if Plain(w, p, o) { PlainIsClean(w, p, o); }
    if D.Clean(p, Dict(ObservationJson(w, o)), D.OBSERVATION) { CleanBinds(w, p, o); }
  }

  /** Saving the row of a recorded gate: later cycles count the stored gate exactly when
      they would have counted the recorded one and it is lasting. */
  lemma {:induction false} SavedGateCountsIff(
    w: Writer, e: S.Reader, extra: Object, row: Object, rows: seq<Row>, r: Reading, compatibility: Object)
    requires ReadingValid(r) && Faithful(e, w) && Proper(r.declared) && MetricLineage.FoldsVerdict(e.settings)
    requires Legible(e.Policy()) && Get(row, D.Gate) == Dict(GateJson(w, extra, Record(e.settings, rows, r, compatibility)))
    ensures var g := Record(e.settings, rows, r, compatibility); var saved := Project(e.Policy(), Dict(row), "");
            && saved.Dict? && Get(saved.entries, D.Gate).Dict?
            && (S.Counts(e, Get(saved.entries, D.Gate).entries) <==> Eligible(e.settings, g) && Lasting(w, e.Policy(), g))
  {
    hide Record, GateJson, Project, Eligible, Lasting, S.Counts, S.Durable, S.Stored, S.KeysOpen, S.Sealed, Mirrored, Faithful;
    var g := Record(e.settings, rows, r, compatibility);
    var m := GateJson(w, extra, g);
    S.RowStoresGate(e.Policy(), row, m);
    RecordMirrors(e.settings, rows, r, compatibility);
    WrittenIsSealed(w, e, extra, g);
    S.StoredCountsIff(e, m);
    WrittenCountsIff(w, e, extra, rows, r, compatibility);
    DurableIff(w, e, extra, rows, r, compatibility);
  }

  /** A reader, a writer and a projection of this kind exist. */
  lemma Understood() returns (e: S.Reader, w: Writer)
    ensures Faithful(e, w) && Legible(e.Policy()) && MetricLineage.FoldsVerdict(e.settings)
  {
    hide KindWord, S.ContractKeys, S.ObservationKeys, S.Echoed, S.OtherKeys, ReceiptJson;
    var policy := Policy(_ => false, _ => false, _ => true, (j: Json) => if j.Str? then j.s else "", t => t);
    var settings := Settings(0.0, None, t => t, _ => Err(""), t => t, (_, _) => NotEvaluated, policy);
    w := Writer(_ => [], _ => Null, (r: Receipt) => map["well_formed" := Bool(r.wellFormed)]);
    e := S.Reader(settings, j => j == Bool(true),
                  o => Get(o, "well_formed") == Bool(true) && Get(o, "old_metric_basis_id") != Get(o, "new_metric_basis_id"));
    forall r ensures e.shape(ReceiptJson(w, r)) <==> r.wellFormed && r.oldBasis != r.newBasis { ShapeRead(w, r); }
  }

  lemma ShapeRead(w: Writer, r: Receipt)
    requires w.rest(r) == map["well_formed" := Bool(r.wellFormed)]
    ensures var m := ReceiptJson(w, r);
      && Get(m, "well_formed") == Bool(r.wellFormed)
      && Get(m, "old_metric_basis_id") == Str(r.oldBasis) && Get(m, "new_metric_basis_id") == Str(r.newBasis)
  {
    hide DigestJson, ScopeJson;
  }
}
