/** The primary-metric gate: evaluating a reading against the history, binding
    the result to a compatibility verdict, sealing it as an observation, and
    deciding which recorded gates later readings may build on. */
module PrimaryMetric {
  import opened Json
  import opened Wrappers
  import Text
  import opened MetricComparator
  import opened DurableProjection

  /** Evidence provenance after label normalisation. */
  datatype Label = IndependentlyVerified | ProducerAttested | SelfGrounded | NotEvaluated | OtherLabel(text: string)

  /** A lineage identifier, kept as the material that is hashed into it. */
  datatype ScopeKey =
    | NoKey
    | LegacyAxis(axis: string, basis: string, dimension: string, semantics: Semantics)
    | ContractAxis(contract: Contract)

  /** SHA-256 digests, kept as what was hashed. */
  datatype Digest =
    | OfValue(contract: Contract, value: Datum)
    | OfJson(body: Json)
    | OfInput(contract: Contract, value: Datum, binding: Object, verification: Digest)
    | OfObservation(observation: Observation)

  /** A basis-migration receipt. `wellFormed` stands for the closed schema, the
      identifier patterns, the embedded mapping and verifier receipts and the
      receipt's own digest. */
  datatype Receipt = Receipt(
    axisId: string, oldBasis: string, newBasis: string,
    oldObservation: Digest, newInput: Digest,
    oldLineage: ScopeKey, newLineage: ScopeKey,
    binding: Digest, verification: Digest, wellFormed: bool)

  datatype Comparability =
    MigratedBaseline | MigrationWithoutBaseline | NoBaseline | Comparable | NotComparable

  datatype MigrationStatus = VerifiedNewBaseline | Unverified | NotApplicable

  datatype Observation = Observation(
    contract: Contract, value: Datum, valueSha: Digest,
    binding: Object, verificationSha: Digest,
    provenance: Option<Label>, separation: Option<string>,
    highWater: Datum, highWaterSha: Option<Digest>,
    streak: Option<int>, stalled: Option<bool>,
    comparability: Option<Comparability>, moved: Option<bool>,
    contributionAllowed: bool, compatibilitySha: Option<Digest>,
    migrationStatus: MigrationStatus, receipt: Option<Receipt>,
    priorObservation: Option<Digest>, priorLineage: Option<ScopeKey>, newLineage: Option<ScopeKey>)

  datatype EvaluationStatus = Passed | Failed | NotJudged

  datatype Gate = Gate(
    contract: Contract, scopeKey: ScopeKey,
    comparability: Comparability, relation: Option<Relation>,
    value: Datum, previous: Datum, highWater: Datum, highWaterSha: Digest,
    moved: bool, rawMoved: bool, attestedOnly: bool,
    provenance: Label, declared: Label, separation: string, verification: Object,
    bindingExact: bool,
    migrationObserved: bool, migrationStatus: MigrationStatus, receipt: Option<Receipt>,
    priorObservation: Option<Digest>, priorLineage: Option<ScopeKey>, newLineage: Option<ScopeKey>,
    streak: Option<int>, cap: Option<nat>, stalled: bool,
    evaluation: EvaluationStatus, reason: string,
    compatibility: Option<Object>, contributionAllowed: bool,
    observation: Option<Observation>, observationSha: Digest)

  /** A registry row as far as the primary metric reads it. */
  datatype Row = Row(gate: Option<Gate>, goalScope: ScopeKey)

  /** What one run of the evaluator is configured with: the tolerance, the stall
      cap, and the text functions (axis-name normaliser, number reader,
      trim-and-lowercase, provenance label of a metric among a gate's axes). */
  datatype Settings = Settings(
    epsilon: real, cap: Option<nat>,
    axisName: string -> string, number: string -> Result<real>, fold: string -> string,
    axisLabel: (Object, string) -> Label, policy: Policy)

  /** One adapter reading together with its evidence. */
  datatype Reading = Reading(
    contract: Contract, value: Datum, receipt: Option<Receipt>, adapterStalled: bool,
    hookProvided: bool, declared: Label, separationGate: Object, artifactRef: Object)

  predicate ReadingValid(r: Reading) {
    ContractValid(r.contract) && Normal(r.value, r.contract)
  }

  // ---- identities ----------------------------------------------------------

  predicate LegacyScalar(c: Contract) {
    && c.kind == Scalar && c.semantics in {HigherIsBetter, LowerIsBetter}
    && c.subjectId == c.metricId && c.provenanceId == "independently_verified" && c.config.NoConfig?
  }

  function KeyOf(s: Settings, c: Contract): ScopeKey {
    if LegacyScalar(c) then LegacyAxis(s.axisName(c.metricId), c.basisId, c.dimensionId, c.semantics)
    else ContractAxis(c)
  }

  const EXPLICIT_FIELDS: seq<string> := [
    "decision_subject_id", "subject_class_id", "revision_id", "subject_digest", "lineage_id",
    "freshness_status", "body_fingerprint", "production_lane", "cohort", "producer_run"]

  const LEGACY_FIELDS: seq<string> := [
    "artifact_id", "artifact_class", "artifact_sha256", "production_lane_identity",
    "body_projection_fingerprint", "verification_input_ids", "input_fingerprints"]

  function Binding(ref: Object): Object {
    var fields := if exists k :: k in EXPLICIT_FIELDS[..5] && k in ref then EXPLICIT_FIELDS else LEGACY_FIELDS;
    map k | k in fields && k in ref :: ref[k]
  }

  predicate HexText(t: string) {
    |t| == 64 && forall i :: 0 <= i < |t| ==> '0' <= t[i] <= '9' || 'a' <= t[i] <= 'f'
  }

  predicate FullSha(s: Settings, j: Json) {
    match j
    case Sha(_) => true
    case Str(t) =>
      var n := s.fold(t);
      HexText(if "sha256:" <= n then n[7..] else n)
    case _ => false
  }

  predicate Filled(j: Json) {
    j !in {Null, Str(""), List([]), Dict(map[])}
  }

  predicate ApplicabilityRowValid(s: Settings, name: string, j: Json) {
    && j.Dict? && j.entries.Keys == {"applicability", "value"}
    && j.entries["applicability"].Str?
    && var word := s.fold(j.entries["applicability"].s);
       if word == "not_applicable" then j.entries["value"] == Null
       else
         && word == "applicable" && Filled(j.entries["value"])
         && (name == "body_fingerprint" ==> FullSha(s, j.entries["value"]))
  }

  predicate ExplicitBindingValid(s: Settings, b: Object) {
    && (forall k :: k in b ==> k in EXPLICIT_FIELDS)
    && (forall k :: k in EXPLICIT_FIELDS ==> k in b)
    && (forall k :: k in {"decision_subject_id", "subject_class_id", "revision_id", "lineage_id"} ==>
          Get(b, k).Str? && Text.Strip(Get(b, k).s) != "")
    && FullSha(s, Get(b, "subject_digest"))
    && Get(b, "freshness_status").Str? && s.fold(Get(b, "freshness_status").s) == "current"
    && forall k :: k in {"body_fingerprint", "production_lane", "cohort", "producer_run"} ==>
         ApplicabilityRowValid(s, k, Get(b, k))
  }

  predicate LegacyBindingValid(s: Settings, b: Object) {
    && (forall k :: k in b ==> k in LEGACY_FIELDS)
    && (forall k :: k in LEGACY_FIELDS[..5] ==> k in b && Filled(b[k]))
    && ("verification_input_ids" in b || "input_fingerprints" in b)
    && FullSha(s, Get(b, "artifact_sha256")) && FullSha(s, Get(b, "body_projection_fingerprint"))
    && (Get(b, "verification_input_ids") !in {Null, List([]), Dict(map[])}
        || Get(b, "input_fingerprints") !in {Null, List([]), Dict(map[])})
  }

  predicate BindingValid(s: Settings, b: Object) {
    if "decision_subject_id" in b then ExplicitBindingValid(s, b) else LegacyBindingValid(s, b)
  }

  function VerificationSha(s: Settings, gate: Object): Digest {
    OfJson(Project(s.policy, Dict(gate), ""))
  }

  function InputSha(s: Settings, c: Contract, v: Datum, binding: Object, gate: Object): Digest {
    OfInput(c, v, binding, VerificationSha(s, gate))
  }

  // ---- which recorded gates count ------------------------------------------

  predicate MigrationProven(s: Settings, g: Gate, o: Observation) {
    && g.migrationObserved
    && o.migrationStatus == VerifiedNewBaseline == g.migrationStatus
    && o.receipt.Some? && o.receipt == g.receipt
    && var r := o.receipt.value;
       && r.wellFormed && r.oldBasis != r.newBasis
       && r.axisId == o.contract.metricId && r.newBasis == o.contract.basisId
       && o.priorObservation == Some(r.oldObservation)
       && o.priorLineage == Some(r.oldLineage) && o.newLineage == Some(r.newLineage)
       && r.newLineage == g.scopeKey
       && r.binding == OfJson(Dict(o.binding))
       && r.verification == VerificationSha(s, g.verification)
       && r.newInput == InputSha(s, o.contract, o.value, o.binding, g.verification)
  }

  predicate MigrationAbsent(g: Gate, o: Observation) {
    && !g.migrationObserved
    && o.migrationStatus == NotApplicable == g.migrationStatus
    && o.receipt == None && o.priorObservation == None && o.priorLineage == None && o.newLineage == None
  }

  function CompatibilityStatus(c: Object): string {
    match Get(c, "gate_compatibility_status") case Str(t) => if t == "" then "not_evaluated" else t case _ => "not_evaluated"
  }

  /** The sealed observation repeats what the gate says, and its digests match. */
  predicate ObservationSealed(s: Settings, g: Gate, o: Observation) {
    && o.contract == g.contract
    && o.valueSha == OfValue(o.contract, o.value)
    && o.verificationSha == VerificationSha(s, g.verification)
    && o.provenance == Some(g.provenance) && o.separation == Some(g.separation)
    && o.highWater == g.highWater && o.highWaterSha == Some(g.highWaterSha)
    && g.highWaterSha == OfValue(o.contract, o.highWater)
    && o.streak == g.streak && o.stalled == Some(g.stalled)
    && o.comparability == Some(g.comparability) && o.moved == Some(g.moved)
    && o.contributionAllowed && g.contributionAllowed
    && g.compatibility.Some?
    && o.compatibilitySha == Some(OfJson(Project(s.policy, Dict(g.compatibility.value), "")))
    && g.observationSha == OfObservation(o)
  }

  predicate ObservationValid(s: Settings, g: Gate) {
    && g.observation.Some?
    && var o := g.observation.value;
       && ObservationSealed(s, g, o)
       && BindingValid(s, o.binding)
       && s.fold(CompatibilityStatus(g.compatibility.value)) == "compatible"
       && (MigrationProven(s, g, o) || MigrationAbsent(g, o))
  }

  predicate Eligible(s: Settings, g: Gate) {
    && g.bindingExact
    && g.provenance == IndependentlyVerified
    && g.separation == "pass"
    && g.contributionAllowed
    && (g.migrationObserved ==> g.migrationStatus == VerifiedNewBaseline)
    && ObservationValid(s, g)
  }

  predicate RowEligible(s: Settings, row: Row) {
    row.gate.Some? && Eligible(s, row.gate.value)
  }

  // ---- looking back --------------------------------------------------------

  datatype Baseline = Baseline(value: Datum, gate: Gate)

  /** The recorded high-water of a row, if it can serve this contract. */
  function RowBaseline(s: Settings, row: Row, c: Contract): Option<Baseline>
    requires ContractValid(c)
  {
    if !RowEligible(s, row) || row.gate.value.scopeKey != KeyOf(s, c) || row.gate.value.contract != c then None
    else
      match NormalizeValue(row.gate.value.highWater, c, s.number)
      case Err(_) => None
      case Ok(v) =>
        if row.gate.value.highWaterSha != OfValue(c, v) then None else Some(Baseline(v, row.gate.value))
  }

  function LatestBaseline(s: Settings, rows: seq<Row>, c: Contract): Option<Baseline>
    requires ContractValid(c)
  {
    if rows == [] then None
    else
      var n := |rows| - 1;
      match RowBaseline(s, rows[n], c)
      case Some(b) => Some(b)
      case None => LatestBaseline(s, rows[..n], c)
  }

  /** Same metric, another basis. */
  predicate OtherBasis(s: Settings, row: Row, c: Contract) {
    RowEligible(s, row) && row.gate.value.contract.(basisId := c.basisId) == c
    && row.gate.value.contract.basisId != c.basisId
  }

  function LatestOtherBasis(s: Settings, rows: seq<Row>, c: Contract): Option<Gate> {
    if rows == [] then None
    else
      var n := |rows| - 1;
      if OtherBasis(s, rows[n], c) then rows[n].gate else LatestOtherBasis(s, rows[..n], c)
  }

  predicate InScope(s: Settings, row: Row, key: ScopeKey) {
    && RowEligible(s, row)
    && (if row.gate.value.scopeKey != NoKey then row.gate.value.scopeKey else row.goalScope) == key
  }

  function LatestInScope(s: Settings, rows: seq<Row>, key: ScopeKey): Option<Gate> {
    if rows == [] then None
    else
      var n := |rows| - 1;
      if InScope(s, rows[n], key) then rows[n].gate else LatestInScope(s, rows[..n], key)
  }

  function Counter(streak: Option<int>): Option<nat> {
    if streak.Some? && streak.value >= 0 then Some(streak.value) else None
  }

  /** The streak recounted from recorded movements, for gates without a counter. */
  function Recount(s: Settings, rows: seq<Row>, key: ScopeKey): nat {
    if rows == [] then 0
    else
      var n := |rows| - 1;
      if !InScope(s, rows[n], key) then Recount(s, rows[..n], key)
      else if rows[n].gate.value.moved || rows[n].gate.value.previous == Absent then 0
      else 1 + Recount(s, rows[..n], key)
  }

  function ZeroStreak(s: Settings, rows: seq<Row>, key: ScopeKey, moved: bool, comparable: bool): nat {
    if moved then 0
    else
      var latest := LatestInScope(s, rows, key);
      var prior := if latest.Some? then Counter(latest.value.streak) else None;
      if !comparable then (if prior.Some? then prior.value else 0)
      else if prior.Some? then prior.value + 1
      else 1 + Recount(s, rows, key)
  }

  // ---- evaluating a reading ------------------------------------------------

  function Separation(s: Settings, r: Reading): string {
    s.fold(match Get(r.separationGate, "independent_source_separation_status")
           case Str(t) => if t == "" then "not_evaluated" else t case _ => "not_evaluated")
  }

  predicate Independent(s: Settings, r: Reading) {
    && r.hookProvided
    && r.declared == IndependentlyVerified
    && Separation(s, r) == "pass"
    && s.axisLabel(r.separationGate, r.contract.metricId) == IndependentlyVerified
  }

  function DeclaredLabel(r: Reading): Label {
    if r.hookProvided then r.declared else OtherLabel("legacy_unclassified")
  }

  function EffectiveLabel(s: Settings, r: Reading): Label {
    var axis := s.axisLabel(r.separationGate, r.contract.metricId);
    if Independent(s, r) then IndependentlyVerified
    else if DeclaredLabel(r) == IndependentlyVerified then
      (if axis in {ProducerAttested, SelfGrounded} then axis else NotEvaluated)
    else DeclaredLabel(r)
  }

  /** A migration receipt is accepted only if it binds this exact transition. */
  predicate ReceiptAccepted(s: Settings, r: Reading, prior: Gate) {
    && r.receipt.Some?
    && Independent(s, r)
    && var x := r.receipt.value; var binding := Binding(r.artifactRef);
       && x.wellFormed && x.oldBasis != x.newBasis
       && x.axisId == r.contract.metricId
       && x.oldBasis == prior.contract.basisId && x.newBasis == r.contract.basisId
       && x.oldObservation == prior.observationSha
       && x.newInput == InputSha(s, r.contract, r.value, binding, r.separationGate)
       && x.oldLineage == prior.scopeKey && x.newLineage == KeyOf(s, r.contract)
       && x.binding == OfJson(Dict(binding))
       && x.verification == VerificationSha(s, r.separationGate)
  }

  function CapValue(s: Settings): Option<nat> {
    if s.cap.Some? && s.cap.value > 0 then s.cap else None
  }

  /** Everything the evaluation derives from the history and the reading. */
  datatype Judgement = Judgement(
    baseline: Option<Baseline>, prior: Option<Gate>, relation: Option<Relation>,
    independent: bool, comparable: bool, moved: bool, rawMoved: bool,
    migrating: bool, migrated: bool)

  function Judge(s: Settings, rows: seq<Row>, r: Reading): Judgement
    requires ReadingValid(r)
  {
    var baseline := LatestBaseline(s, rows, r.contract);
    BaselineNormal(s, rows, r.contract);
    var relation := if baseline.Some? then Some(Compare(r.value, baseline.value.value, r.contract, s.epsilon)) else None;
    var independent := Independent(s, r);
    var rawMoved := relation == Some(Improved);
    var other := if baseline.None? then LatestOtherBasis(s, rows, r.contract) else None;
    Judgement(
      baseline,
      if baseline.Some? then Some(baseline.value.gate) else other,
      relation, independent,
      relation.Some? && relation.value != Incomparable && independent,
      rawMoved && independent, rawMoved,
      other.Some?, other.Some? && ReceiptAccepted(s, r, other.value))
  }

  lemma {:induction false} BaselineNormal(s: Settings, rows: seq<Row>, c: Contract)
    requires ContractValid(c)
    ensures LatestBaseline(s, rows, c).Some? ==> Normal(LatestBaseline(s, rows, c).value.value, c)
  {
    if rows != [] {
      var n := |rows| - 1;
      BaselineNormal(s, rows[..n], c);
      if rows[n].gate.Some? {
        NormalizeIsNormalForm(rows[n].gate.value.highWater, c, s.number);
      }
    }
  }

  function StreakOf(s: Settings, rows: seq<Row>, r: Reading, j: Judgement): nat {
    if !j.comparable && j.prior.Some? then
      var stored := Counter(j.prior.value.streak); if stored.Some? then stored.value else 0
    else ZeroStreak(s, rows, KeyOf(s, r.contract), j.moved, j.comparable)
  }

  function StalledOf(s: Settings, r: Reading, j: Judgement, streak: nat): bool {
    if j.comparable then
      r.adapterStalled || (!j.moved && CapValue(s).Some? && streak >= CapValue(s).value)
    else j.prior.Some? && j.prior.value.stalled
  }

  function HighWaterOf(s: Settings, r: Reading, j: Judgement): Datum {
    if j.baseline.None? then r.value
    else if j.relation == Some(Improved) && j.independent then r.value
    else j.baseline.value.value
  }

  function ReasonOf(j: Judgement): string {
    if j.moved || j.comparable then ""
    else if j.migrating then
      (if j.migrated then "metric_basis_migration_started_new_baseline"
       else "metric_basis_migration_receipt_missing_or_invalid")
    else if j.baseline.None? then "no_comparable_baseline"
    else if j.relation == Some(Incomparable) then "metric_values_incomparable"
    else "independent_metric_provenance_missing"
  }

  function ComparabilityOf(j: Judgement): Comparability {
    if j.migrated then MigratedBaseline
    else if j.migrating then MigrationWithoutBaseline
    else if j.baseline.None? then NoBaseline
    else if j.relation != Some(Incomparable) then Comparable
    else NotComparable
  }

  function OpenObservation(s: Settings, r: Reading, j: Judgement): Observation
    requires j.migrating ==> j.prior.Some?
  {
    Observation(
      r.contract, r.value, OfValue(r.contract, r.value),
      Binding(r.artifactRef), VerificationSha(s, r.separationGate),
      None, None, Absent, None, None, None, None, None, false, None,
      StatusOf(j), if j.migrated then r.receipt else None,
      if j.migrating then Some(j.prior.value.observationSha) else None,
      if j.migrating then Some(j.prior.value.scopeKey) else None,
      if j.migrating then Some(KeyOf(s, r.contract)) else None)
  }

  function StatusOf(j: Judgement): MigrationStatus {
    if j.migrated then VerifiedNewBaseline else if j.migrating then Unverified else NotApplicable
  }

  function Evaluate(s: Settings, rows: seq<Row>, r: Reading): Gate
    requires ReadingValid(r)
  {
    var j := Judge(s, rows, r);
    var streak := StreakOf(s, rows, r, j);
    var hw := HighWaterOf(s, r, j);
    var o := OpenObservation(s, r, j);
    Gate(
      r.contract, KeyOf(s, r.contract), ComparabilityOf(j), j.relation,
      r.value, if j.baseline.Some? then j.baseline.value.value else Absent,
      hw, OfValue(r.contract, hw),
      j.moved, j.rawMoved, j.rawMoved && !j.independent,
      EffectiveLabel(s, r), DeclaredLabel(r), Separation(s, r), r.separationGate,
      true,
      j.migrating, StatusOf(j), o.receipt, o.priorObservation, o.priorLineage, o.newLineage,
      Some(streak), CapValue(s), StalledOf(s, r, j, streak),
      if j.moved then Passed else if j.comparable then Failed else NotJudged, ReasonOf(j),
      None, false, Some(o), OfObservation(o))
  }

  /** Attach a compatibility verdict; anything but "compatible" disarms the gate. */
  function Bind(g: Gate, compatibility: Object): Gate {
    var allowed := CompatibilityStatus(compatibility) == "compatible";
    g.(compatibility := Some(compatibility), contributionAllowed := allowed,
       evaluation := if allowed then g.evaluation else NotJudged,
       moved := allowed && g.moved, stalled := allowed && g.stalled)
  }

  /** The observation with the gate's outcome written into it. */
  function Seal(s: Settings, g: Gate, o: Observation): Observation {
    o.(provenance := Some(g.provenance), separation := Some(g.separation),
       highWater := g.highWater, highWaterSha := Some(g.highWaterSha),
       streak := g.streak, stalled := Some(g.stalled),
       comparability := Some(g.comparability), moved := Some(g.moved),
       contributionAllowed := g.contributionAllowed,
       compatibilitySha := if g.compatibility.Some?
                           then Some(OfJson(Project(s.policy, Dict(g.compatibility.value), ""))) else None)
  }

  function Finalize(s: Settings, g: Gate): Gate {
    if g.observation.None? then g
    else
      var sealed := Seal(s, g, g.observation.value);
      g.(observation := Some(sealed), observationSha := OfObservation(sealed))
  }

  /** The gate that one cycle appends to the registry. */
  function Record(s: Settings, rows: seq<Row>, r: Reading, compatibility: Object): Gate
    requires ReadingValid(r)
  {
    Finalize(s, Bind(Evaluate(s, rows, r), compatibility))
  }
}
