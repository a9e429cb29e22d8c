/** Metric gates as registry rows hold them, as JSON: which of them later cycles
    count, and what storing a row through the durable projection does to that. */
module StoredMetric {
  import opened Json
  import opened DurableProjection
  import opened DurableIdempotence
  import opened ProjectionTraces
  import PM = PrimaryMetric

  /** How a gate is read: the evaluator's settings, `bool_value`, and the shape check
      of a migration receipt. */
  datatype Reader = Reader(settings: PM.Settings, flag: Json -> bool, shape: Object -> bool) {
    function Policy(): Policy { settings.policy }
  }

  // ---- reading a gate ------------------------------------------------------

  function ContractKeys(): set<string> {
    {"metric_id", "metric_basis_id", "metric_dimension_id", "metric_subject_id", "metric_provenance_id", "value_kind",
     "comparison_semantics", "comparison_config"}
  }

  function ObservationKeys(): set<string> {
    {"contract_version", "metric_contract", "observed_value", "observed_value_sha256", "decision_artifact_binding",
     "verification_gate_sha256", "evidence_provenance", "independent_source_separation_status", "high_water_value",
     "high_water_value_sha256", "zero_movement_streak", "stalled", "comparability_status", "high_water_moved",
     "decision_contribution_allowed", "gate_compatibility_sha256", "basis_migration_status", "basis_migration_receipt",
     "basis_migration_prior_observation_sha256", "basis_migration_prior_lineage_id", "basis_migration_new_lineage_id"}
  }

  /** Under which key of the gate each repeated field of the observation stands. */
  function Echoed(): map<string, string> {
    map["evidence_provenance" := "evidence_provenance",
        "independent_source_separation_status" := "independent_source_separation_status",
        "high_water_value_sha256" := "primary_metric_high_water_sha256",
        "zero_movement_streak" := "primary_metric_zero_movement_streak",
        "stalled" := "primary_metric_stalled",
        "comparability_status" := "metric_comparability_status",
        "high_water_moved" := "primary_metric_high_water_moved"]
  }

  const HIGH_WATER := "primary_metric_high_water"
  const VERIFICATION := "verification_source_separation_gate"
  const COMPATIBILITY := "gate_compatibility"
  const MIGRATION := "basis_migration_status"
  const RECEIPT := "basis_migration_receipt"
  const OBSERVED := "basis_migration_observed"
  const SCOPE := "primary_metric_scope_key"
  const ALLOWED := "decision_contribution_allowed"
  const SEAL := "metric_observation_sha256"

  function ValueSha(contract: Json, value: Json): Json { Sha(Dict(map["contract" := contract, "value" := value])) }

  function RecordSha(p: Policy, record: Json): Json { Sha(Project(p, record, "")) }

  function InputSha(p: Policy, contract: Json, value: Json, binding: Json, verification: Json): Json {
    Sha(Dict(map["metric_contract" := contract, "observed_value" := value, "decision_artifact_binding" := binding,
                 "verification_gate_sha256" := RecordSha(p, verification)]))
  }

  predicate MigrationProven(e: Reader, g: Object, o: Object) {
    var receipt := Get(o, RECEIPT);
    var contract := Get(o, CONTRACT);
    && Get(g, OBSERVED) == Bool(true) && Get(o, MIGRATION) == Str("verified_new_baseline") == Get(g, MIGRATION)
    && receipt.Dict? && Same(receipt, Get(g, RECEIPT)) && e.shape(receipt.entries)
    && contract.Dict?
    && var r := receipt.entries;
       && Same(Get(r, "metric_axis_id"), Get(contract.entries, "metric_id"))
       && Same(Get(r, "new_metric_basis_id"), Get(contract.entries, "metric_basis_id"))
       && Same(Get(r, "old_observation_sha256"), Get(o, "basis_migration_prior_observation_sha256"))
       && Same(Get(r, "old_lineage_id"), Get(o, "basis_migration_prior_lineage_id"))
       && Same(Get(r, "new_lineage_id"), Get(o, "basis_migration_new_lineage_id")) && Same(Get(r, "new_lineage_id"), Get(g, SCOPE))
       && Get(r, "decision_binding_sha256") == Sha(Get(o, "decision_artifact_binding"))
       && Get(r, "verification_gate_sha256") == RecordSha(e.Policy(), Get(g, VERIFICATION))
       && Get(r, "new_observation_input_sha256")
          == InputSha(e.Policy(), contract, Get(o, "observed_value"), Get(o, "decision_artifact_binding"), Get(g, VERIFICATION))
  }

  predicate MigrationAbsent(g: Object, o: Object) {
    && Get(g, OBSERVED) != Bool(true) && Get(o, MIGRATION) == Str("not_applicable") == Get(g, MIGRATION)
    && Get(o, RECEIPT) == Null && Get(o, "basis_migration_prior_observation_sha256") == Null
    && Get(o, "basis_migration_prior_lineage_id") == Null && Get(o, "basis_migration_new_lineage_id") == Null
  }

  /** The observation on its own: complete, with the digest of its value and a valid
      artifact binding. */
  predicate SelfConsistent(e: Reader, o: Object) {
    && o.Keys == ObservationKeys() && Get(o, "contract_version") in {Int(1), Real(1.0), Bool(true)}
    && Get(o, CONTRACT).Dict? && Get(o, "decision_artifact_binding").Dict?
    && Get(o, "observed_value_sha256") == ValueSha(Get(o, CONTRACT), Get(o, "observed_value"))
    && Get(o, "high_water_value_sha256") == ValueSha(Get(o, CONTRACT), Get(o, "high_water_value"))
    && Get(o, ALLOWED) == Bool(true) && PM.BindingValid(e.settings, Get(o, "decision_artifact_binding").entries)
  }

  /** The gate repeats what its observation says. */
  predicate Repeats(g: Object, o: Object) {
    && Get(o, CONTRACT).Dict? && (forall k :: k in ContractKeys() ==> Get(g, k) == Get(Get(o, CONTRACT).entries, k))
    && (forall k :: k in Echoed() ==> Get(g, Echoed()[k]) == Get(o, k))
    && Get(g, HIGH_WATER) == Get(o, "high_water_value")
  }

  /** As far as Python's `==` can tell. */
  predicate Agrees(g: Object, o: Object) {
    && Get(o, CONTRACT).Dict? && (forall k :: k in ContractKeys() ==> Same(Get(g, k), Get(Get(o, CONTRACT).entries, k)))
    && (forall k :: k in Echoed() ==> Same(Get(g, Echoed()[k]), Get(o, k)))
    && Same(Get(g, HIGH_WATER), Get(o, "high_water_value"))
  }

  lemma RepeatsAgrees(g: Object, o: Object)
    requires Repeats(g, o)
    ensures Agrees(g, o)
  {
    hide Leveled;
  }

  function VerdictWord(e: Reader, c: Object): string { e.settings.fold(PM.CompatibilityStatus(c)) }

  /** The two records and the observation are sealed by their digests. */
  predicate Digested(e: Reader, g: Object, o: Object) {
    && Get(g, VERIFICATION).Dict? && Get(o, "verification_gate_sha256") == RecordSha(e.Policy(), Get(g, VERIFICATION))
    && Get(g, COMPATIBILITY).Dict? && Get(o, "gate_compatibility_sha256") == RecordSha(e.Policy(), Get(g, COMPATIBILITY))
    && Get(g, SEAL) == Sha(Dict(o))
  }

  predicate ObservationValid(e: Reader, g: Object) {
    && Get(g, OBSERVATION).Dict?
    && var o := Get(g, OBSERVATION).entries;
       && SelfConsistent(e, o) && Agrees(g, o) && Digested(e, g, o)
       && Get(g, ALLOWED) == Bool(true) && VerdictWord(e, Get(g, COMPATIBILITY).entries) == "compatible"
       && (MigrationProven(e, g, o) || MigrationAbsent(g, o))
  }

  /** Whether later cycles build on this gate. */
  predicate Counts(e: Reader, g: Object) {
    && Get(g, "artifact_binding_status") == Str("exact") && Get(g, "evidence_provenance") == Str("independently_verified")
    && Get(g, "independent_source_separation_status") == Str("pass") && e.flag(Get(g, ALLOWED))
    && (Truthy(Get(g, OBSERVED)) ==> Get(g, MIGRATION) == Str("verified_new_baseline"))
    && ObservationValid(e, g)
  }

  // ---- storing a row -------------------------------------------------------

  /** What becomes of a row's metric gate when the row is stored. */
  function Stored(p: Policy, g: Object): Object { SafeGate(p, Kept(p, g)) }

  lemma RowStoresGate(p: Policy, row: Object, g: Object)
    requires !p.sensitive(Gate) && Get(row, Gate) == Dict(g)
    ensures Project(p, Dict(row), "").Dict? && Get(Project(p, Dict(row), "").entries, Gate) == Dict(Stored(p, g))
  {
    hide Project, Kept, SafeGate;
    KeysApart();
    assert |Gate| == 19;
    ProjectDict(p, row, "");
    ProjectDict(p, g, Gate);
    KeptAt(p, row);
  }

  /** The keys the check reads are not among the sensitive ones, and nothing is read
      as no kind. */
  predicate KeysOpen(p: Policy) {
    && OwnKeysOpen(p) && (forall k :: k in ContractKeys() ==> !p.sensitive(k))
    && (forall k :: k in Echoed() ==> !p.sensitive(Echoed()[k]))
    && (forall k :: k in OtherKeys() ==> !p.sensitive(k)) && p.fold("") == ""
  }

  function OtherKeys(): set<string> {
    {OBSERVATION, HIGH_WATER, VERIFICATION, COMPATIBILITY, MIGRATION, RECEIPT, OBSERVED, SCOPE, ALLOWED, SEAL,
     "artifact_binding_status", "gate_compatibility_status"}
  }

  /** Under two keys that neither locate nor name a gate, a value fares the same. */
  lemma {:induction false} SameUnder(p: Policy, j: Json, a: string, b: string)
    requires Locates(a) == Locates(b) && a != Gate && b != Gate
    ensures Project(p, j, a) == Project(p, j, b)
    decreases j
  {
    match j
    case Dict(m) => ProjectDict(p, m, a); ProjectDict(p, m, b);
    case List(xs) => SameAllUnder(p, xs, a, b);
    case _ =>
  }

  lemma {:induction false} SameAllUnder(p: Policy, xs: seq<Json>, a: string, b: string)
    requires Locates(a) == Locates(b) && a != Gate && b != Gate
    ensures ProjectAll(p, xs, a) == ProjectAll(p, xs, b)
    decreases xs
  {
    hide Project, Locates;
    if xs != [] {
      SameUnder(p, xs[0], a, b);
      SameAllUnder(p, xs[1..], a, b);
    }
  }

  /** A key of a gate that the gate's rule does not touch. */
  predicate Ordinary(p: Policy, k: string) {
    k !in GateFields() + {CONFIG, OBSERVATION, STATUS, "findings"} && !p.sensitive(k)
  }

  lemma {:induction false} KeptGet(p: Policy, m: Object, k: string)
    requires !p.sensitive(k) && k != "findings"
    ensures Get(Kept(p, m), k) == Project(p, Get(m, k), k)
  {
    hide Project, Kept;
    KeptAt(p, m);
    NullStays(p, k);
  }

  lemma {:induction false} StoredGet(p: Policy, g: Object, k: string)
    requires Ordinary(p, k)
    ensures Get(Stored(p, g), k) == Project(p, Get(g, k), k)
  {
    hide Project, Kept, SafeGate, GateFields, NeedsReference, Reference, SafeObservation, SafeConfig, KindOf;
    KeptGet(p, g, k);
    SafeGateAt(p, Kept(p, g));
  }

  lemma LeafStays(p: Policy, j: Json, k: string)
    requires !Locates(k)
    ensures j.Str? || j.Bool? || j.Sha? || j == Null ==> Project(p, j, k) == j
    ensures Project(p, j, k).Str? || Project(p, j, k).Bool? || Project(p, j, k).Sha? || Project(p, j, k) == Null ==> Project(p, j, k) == j
  {
  }

  /** A key whose last letters show that it locates nothing. */
  predicate Harmless(k: string) {
    && |k| >= 8 && k[|k| - 1] != 'f' && (k[|k| - 1] == 's' ==> k[|k| - 2] != 'f')
    && (k[|k| - 1] == 'r' ==> k[|k| - 2] != 'o') && k != "provenance_refs"
  }

  lemma HarmlessKey(k: string)
    requires Harmless(k)
    ensures !Locates(k)
  {
    assert |"action"| == 6 && |"error"| == 5 && |"message"| == 7 && |"orphans"| == 7;
  }

  lemma GateKeysHarmless(k: string)
    requires k in ContractKeys() + OtherKeys()
    ensures Harmless(k) && k != Gate && k != "findings"
  {
  }

  lemma EchoedHarmless(k: string)
    requires k in Echoed()
    ensures Harmless(Echoed()[k]) && Echoed()[k] !in {Gate, "findings", CONFIG, OBSERVATION, STATUS} + GateFields()
    ensures k in ObservationKeys()
  {
  }

  lemma ObservationKeysPlain(k: string)
    requires k in ObservationKeys()
    ensures !Locates(k) && k != Gate && k != "findings"
  {
    hide Locates;
    if k == "stalled" {
      StalledHarmless();
    } else {
      ObservationKeysHarmless(k);
      HarmlessKey(k);
    }
  }

  lemma ObservationKeysHarmless(k: string)
    requires k in ObservationKeys() && k != "stalled"
    ensures Harmless(k) && k != Gate && k != "findings"
  {
  }

  lemma StalledHarmless()
    ensures !Locates("stalled") && "stalled" != Gate && "stalled" != "findings"
  {
  }

  // ---- what builder and sealer leave ---------------------------------------

  /** A gate as the builder makes it and the sealer closes it: it repeats its
      observation, the digests match, and the migration fields agree. */
  predicate Sealed(e: Reader, g: Object) {
    && Get(g, OBSERVATION).Dict?
    && var o := Get(g, OBSERVATION).entries;
       && o.Keys == ObservationKeys() && Repeats(g, o) && Digested(e, g, o)
       && Get(g, MIGRATION) == Get(o, MIGRATION) && Get(g, RECEIPT) == Get(o, RECEIPT)
       && Get(g, OBSERVED).Bool? && (Get(g, SCOPE).Str? || Get(g, SCOPE).Sha?)
  }

  /** The observation passes the projection unchanged: nothing in it is sensitive or
      looks like a path, no metric value must be replaced, and its contract names its
      comparison settings. */
  ghost predicate ObservationEndures(p: Policy, g: Object, o: Object) {
    Clean(p, Dict(o), OBSERVATION) && ObservationQuiet(p, o, KindOf(p, g, "")) && NamedObservation(o) == o
  }

  /** And the projections of the two sealed records are final. */
  ghost predicate Durable(p: Policy, g: Object) {
    && Get(g, OBSERVATION).Dict? && ObservationEndures(p, g, Get(g, OBSERVATION).entries)
    && Quiet(p, Get(g, VERIFICATION), "") && Quiet(p, Get(g, COMPATIBILITY), "")
  }

  lemma CleanKept(p: Policy, o: Object)
    requires KeysOpen(p)
    ensures Clean(p, Dict(o), OBSERVATION) <==> Kept(p, o) == o
    ensures Kept(p, o) == o <==> ChildrenFixed(p, o)
  {
    hide Project, Kept, Clean, ChildrenFixed;
    KeysApart();
    FixedIff(p, Dict(o), OBSERVATION);
    FixedDict(p, o, OBSERVATION);
    KeptWholeIff(p, o);
  }

  lemma FixedChild(p: Policy, o: Object, k: string)
    requires ChildrenFixed(p, o) && k != "findings"
    ensures Project(p, Get(o, k), k) == Get(o, k)
  {
    hide Project;
    NullStays(p, k);
  }

  /** In an enduring observation the contract's own fields are fixed. */
  lemma {:induction false} ContractFixed(p: Policy, o: Object, k: string)
    requires ChildrenFixed(p, o) && Get(o, CONTRACT).Dict? && k in ContractKeys()
    ensures Project(p, Get(Get(o, CONTRACT).entries, k), k) == Get(Get(o, CONTRACT).entries, k)
  {
    hide Project, ChildrenFixed;
    KeysApart();
    GateKeysHarmless(k);
    FixedChild(p, o, CONTRACT);
    FixedDict(p, Get(o, CONTRACT).entries, CONTRACT);
    FixedChild(p, Get(o, CONTRACT).entries, k);
  }

  /** Then gate and observation are read under the same kind, before and after. */
  lemma {:induction false} KindStays(p: Policy, g: Object, o: Object)
    requires KeysOpen(p) && Repeats(g, o) && ChildrenFixed(p, o)
    ensures KindOf(p, Kept(p, g), "") == KindOf(p, g, "") == ObservedKind(p, o, KindOf(p, g, ""))
  {
    hide Project, Kept, ChildrenFixed, OwnKeysOpen;
    var k := "value_kind";
    GateKeysHarmless(k);
    ContractFixed(p, o, k);
    KeptGet(p, g, k);
    assert Get(g, k) == Get(Get(o, CONTRACT).entries, k);
  }

  lemma {:induction false} StoredObservation(p: Policy, g: Object)
    requires KeysOpen(p) && Get(g, OBSERVATION).Dict?
    ensures Get(Stored(p, g), OBSERVATION)
         == Dict(SafeObservation(p, Kept(p, Get(g, OBSERVATION).entries), KindOf(p, Kept(p, g), "")))
  {
    hide Project, Kept, SafeGate, GateFields, NeedsReference, Reference, SafeObservation, SafeConfig, KindOf;
    KeysApart();
    assert !p.sensitive(OBSERVATION);
    KeptGet(p, g, OBSERVATION);
    ProjectDict(p, Get(g, OBSERVATION).entries, OBSERVATION);
    SafeGateAt(p, Kept(p, g));
  }

  /** The stored gate holds the same observation exactly when it endures. */
  lemma {:induction false} EnduresIff(p: Policy, g: Object)
    requires KeysOpen(p) && Get(g, OBSERVATION).Dict? && Repeats(g, Get(g, OBSERVATION).entries)
    ensures Get(Stored(p, g), OBSERVATION) == Get(g, OBSERVATION) <==>
            ObservationEndures(p, g, Get(g, OBSERVATION).entries)
  {
    hide Project, Kept, SafeObservation, KindOf, Stored, Repeats, ObservationQuiet, NamedObservation, Clean, ChildrenFixed;
    var o := Get(g, OBSERVATION).entries;
    StoredObservation(p, g);
    CleanKept(p, o);
    var kind := KindOf(p, Kept(p, g), "");
    if SafeObservation(p, Kept(p, o), kind) == o { ObservationBack(p, o, kind); }
    if Kept(p, o) == o {
      KindStays(p, g, o);
      SettledObservation(p, o, kind);
    }
  }

  // ---- the stored gate, field by field -------------------------------------

  lemma {:induction false} StoredContractField(p: Policy, g: Object, o: Object, k: string)
    requires KeysOpen(p) && Repeats(g, o) && ChildrenFixed(p, o) && k in ContractKeys() && k != CONFIG
    ensures Get(Stored(p, g), k) == Get(g, k)
  {
    hide Project, ChildrenFixed, Stored;
    GateKeysHarmless(k);
    ContractFixed(p, o, k);
    ContractOrdinary(p, k);
    StoredGet(p, g, k);
  }

  lemma ContractOrdinary(p: Policy, k: string)
    requires KeysOpen(p) && k in ContractKeys() && k != CONFIG
    ensures Ordinary(p, k)
  {
    hide GateFields, ContractKeys;
    ContractKeysApart(k);
  }

  lemma ContractKeysApart(k: string)
    requires k in ContractKeys() && k != CONFIG
    ensures k !in GateFields() + {CONFIG, OBSERVATION, STATUS, "findings"}
  {
    assert OBSERVATION !in ContractKeys() && STATUS !in ContractKeys() && "findings" !in ContractKeys();
    assert forall f :: f in GateFields() ==> f !in ContractKeys();
    hide ContractKeys;
  }

  lemma OtherOrdinary(p: Policy, k: string)
    requires KeysOpen(p) && k in OtherKeys() && k != OBSERVATION && k != HIGH_WATER
    ensures Ordinary(p, k)
  {
    hide KeysOpen;
    NotSensitive(p, k);
    OtherKeysApart(k);
  }

  lemma OtherKeysApart(k: string)
    requires k in OtherKeys() && k != OBSERVATION && k != HIGH_WATER
    ensures k !in GateFields() + {CONFIG, OBSERVATION, STATUS, "findings"}
  {
    assert CONFIG !in OtherKeys() && STATUS !in OtherKeys() && "findings" !in OtherKeys();
    assert "primary_metric_value" !in OtherKeys() && "previous_primary_metric_value" !in OtherKeys();
    hide OtherKeys;
  }

  lemma {:induction false} StoredConfig(p: Policy, g: Object, o: Object)
    requires KeysOpen(p) && Repeats(g, o) && ChildrenFixed(p, o) && ObservationQuiet(p, o, KindOf(p, g, ""))
    ensures Get(Stored(p, g), CONFIG) == Get(g, CONFIG)
  {
    hide Project, ChildrenFixed, Kept, SafeGate, KindOf, NeedsReference, Reference, SafeObservation, GateFields, SafeFields;
    KeysApart();
    ContractFixed(p, o, CONFIG);
    KindStays(p, g, o);
    KeptGet(p, g, CONFIG);
    SafeGateAt(p, Kept(p, g));
    assert Get(g, CONFIG) == Get(Get(o, CONTRACT).entries, CONFIG);
    SettledConfig(p, Get(g, CONFIG), KindOf(p, g, ""));
  }

  lemma {:induction false} StoredHighWater(p: Policy, g: Object, o: Object)
    requires KeysOpen(p) && Repeats(g, o) && ChildrenFixed(p, o) && ObservationQuiet(p, o, KindOf(p, g, ""))
    ensures Get(Stored(p, g), HIGH_WATER) == Get(g, HIGH_WATER)
  {
    hide Project, ChildrenFixed, Kept, SafeGate, KindOf, Reference, SafeObservation, SafeConfig, Locates, ConfigQuiet;
    var w := "high_water_value";
    FixedChild(p, o, w);
    ObservationKeysPlain(w);
    GateKeysHarmless(HIGH_WATER);
    HarmlessKey(HIGH_WATER);
    SameUnder(p, Get(g, HIGH_WATER), HIGH_WATER, w);
    assert !p.sensitive(HIGH_WATER);
    KeptGet(p, g, HIGH_WATER);
    KindStays(p, g, o);
    SafeGateAt(p, Kept(p, g));
    assert HIGH_WATER in GateFields() && w in ObservedFields();
  }

  lemma {:induction false} StoredEcho(p: Policy, g: Object, o: Object, k: string)
    requires KeysOpen(p) && Repeats(g, o) && ChildrenFixed(p, o) && k in Echoed()
    ensures Get(Stored(p, g), Echoed()[k]) == Get(g, Echoed()[k])
  {
    hide Project, ChildrenFixed, Stored, Locates, Harmless;
    var f := Echoed()[k];
    EchoedHarmless(k);
    HarmlessKey(f);
    ObservationKeysPlain(k);
    FixedChild(p, o, k);
    SameUnder(p, Get(o, k), k, f);
    StoredGet(p, g, f);
  }

  /** A stored gate repeats an observation that endures. */
  lemma {:induction false} StoredRepeats(p: Policy, g: Object, o: Object)
    requires KeysOpen(p) && Repeats(g, o) && ChildrenFixed(p, o) && ObservationQuiet(p, o, KindOf(p, g, ""))
    ensures Repeats(Stored(p, g), o)
  {
    hide ChildrenFixed, Stored, KindOf, ContractKeys, Echoed, ObservationQuiet, KeysOpen;
    var m := Stored(p, g);
    StoredConfig(p, g, o);
    StoredHighWater(p, g, o);
    forall k | k in ContractKeys() ensures Get(m, k) == Get(g, k) {
      if k != CONFIG { StoredContractField(p, g, o, k); }
    }
    forall k | k in Echoed() ensures Get(m, Echoed()[k]) == Get(g, Echoed()[k]) { StoredEcho(p, g, o, k); }
  }

  lemma {:induction false} StoredField(p: Policy, g: Object, k: string)
    requires KeysOpen(p) && k in OtherKeys() && k != OBSERVATION && k != HIGH_WATER
    ensures Get(Stored(p, g), k) == Project(p, Get(g, k), k) && !Locates(k) && k != Gate && k != "findings"
  {
    hide Project, Stored, Locates, KeysOpen, OtherKeys;
    OtherOrdinary(p, k);
    GateKeysHarmless(k);
    HarmlessKey(k);
    StoredGet(p, g, k);
  }

  lemma NoParent()
    ensures !Locates("") && "" != Gate
  {
  }

  /** A sealed record's digest still matches exactly when its projection is final. */
  lemma {:induction false} RecordStays(p: Policy, g: Object, k: string)
    requires KeysOpen(p) && k in {VERIFICATION, COMPATIBILITY} && Get(g, k).Dict?
    ensures var r := Get(Stored(p, g), k);
            && r == Project(p, Get(g, k), "") && r.Dict?
            && (RecordSha(p, r) == RecordSha(p, Get(g, k)) <==> Quiet(p, Get(g, k), ""))
  {
    hide Project, Stored, Locates, KeysOpen, Quiet;
    StoredField(p, g, k);
    NoParent();
    SameUnder(p, Get(g, k), k, "");
    DictStays(p, Get(g, k), "");
    assert OwnKeysOpen(p) by { Opened(p); }
    ProjectTwiceIff(p, Get(g, k), "");
  }

  lemma Opened(p: Policy)
    requires KeysOpen(p)
    ensures OwnKeysOpen(p)
  {
  }

  lemma {:induction false} VerdictStays(e: Reader, c: Object)
    requires KeysOpen(e.Policy())
    ensures VerdictWord(e, Kept(e.Policy(), c)) == VerdictWord(e, c)
  {
    hide Project, Kept, Locates, KeysOpen;
    var p, k := e.Policy(), "gate_compatibility_status";
    assert k in OtherKeys();
    GateKeysHarmless(k);
    HarmlessKey(k);
    assert !p.sensitive(k) by { NotSensitive(p, k); }
    KeptGet(p, c, k);
    LeafStays(p, Get(c, k), k);
  }

  lemma NotSensitive(p: Policy, k: string)
    requires KeysOpen(p) && k in OtherKeys()
    ensures !p.sensitive(k)
  {
  }

  // ---- which stored gates count --------------------------------------------

  /** The seal is a digest, so a stored gate can only count with its observation
      unchanged. */
  lemma {:induction false} SealPins(e: Reader, g: Object)
    requires KeysOpen(e.Policy()) && Sealed(e, g) && ObservationValid(e, Stored(e.Policy(), g))
    ensures Get(Stored(e.Policy(), g), OBSERVATION) == Get(g, OBSERVATION)
  {
    hide Project, Stored, Locates, KeysOpen, SelfConsistent, Repeats, MigrationProven, MigrationAbsent, VerdictWord, RecordSha;
    StoredField(e.Policy(), g, SEAL);
    LeafStays(e.Policy(), Get(g, SEAL), SEAL);
  }

  lemma {:induction false} LabelStays(p: Policy, g: Object, k: string)
    requires KeysOpen(p) && k in OtherKeys() && k != OBSERVATION && k != HIGH_WATER
    ensures forall t :: Get(Stored(p, g), k) == Str(t) <==> Get(g, k) == Str(t)
    ensures forall b :: Get(Stored(p, g), k) == Bool(b) <==> Get(g, k) == Bool(b)
    ensures Get(g, k).Str? || Get(g, k).Bool? || Get(g, k).Sha? ==> Get(Stored(p, g), k) == Get(g, k)
  {
    hide Project, Stored, Locates, KeysOpen, OtherKeys;
    StoredField(p, g, k);
    LeafStays(p, Get(g, k), k);
  }

  lemma {:induction false} SharedStays(p: Policy, g: Object, o: Object, k: string)
    requires KeysOpen(p) && k in {MIGRATION, RECEIPT} && Get(g, k) == Get(o, k) && ChildrenFixed(p, o)
    ensures Get(Stored(p, g), k) == Get(g, k)
  {
    hide Project, Stored, Locates, KeysOpen, ChildrenFixed;
    StoredField(p, g, k);
    FixedChild(p, o, k);
  }

  lemma {:induction false} MigrationStays(e: Reader, g: Object, o: Object)
    requires KeysOpen(e.Policy()) && Sealed(e, g) && Get(g, OBSERVATION) == Dict(o) && ChildrenFixed(e.Policy(), o)
    requires Quiet(e.Policy(), Get(g, VERIFICATION), "")
    ensures MigrationProven(e, Stored(e.Policy(), g), o) <==> MigrationProven(e, g, o)
    ensures MigrationAbsent(Stored(e.Policy(), g), o) <==> MigrationAbsent(g, o)
  {
    hide Project, Stored, Locates, KeysOpen, ChildrenFixed, RecordSha, Repeats, Quiet;
    var p := e.Policy();
    LabelStays(p, g, OBSERVED);
    LabelStays(p, g, SCOPE);
    SharedStays(p, g, o, MIGRATION);
    SharedStays(p, g, o, RECEIPT);
    RecordStays(p, g, VERIFICATION);
  }

  /** With the observation unchanged and the records' projections final, the stored
      gate passes every check the gate passes. */
  lemma {:induction false} EnduringCounts(e: Reader, g: Object)
    requires KeysOpen(e.Policy()) && Sealed(e, g) && Durable(e.Policy(), g)
    ensures Counts(e, Stored(e.Policy(), g)) <==> Counts(e, g)
  {
    hide Project, Stored, Locates, KeysOpen, Quiet, Clean, ChildrenFixed, RecordSha, Repeats, MigrationProven, MigrationAbsent,
      SelfConsistent, VerdictWord, Agrees, NamedObservation, ObservationQuiet, KindOf, Kept;
    var p, o := e.Policy(), Get(g, OBSERVATION).entries;
    var m := Stored(p, g);
    EnduresIff(p, g);
    CleanKept(p, o);
    StoredRepeats(p, g, o);
    RepeatsAgrees(m, o);
    RepeatsAgrees(g, o);
    MigrationStays(e, g, o);
    RecordStays(p, g, VERIFICATION);
    RecordStays(p, g, COMPATIBILITY);
    ProjectDict(p, Get(g, COMPATIBILITY).entries, "");
    NoParent();
    VerdictStays(e, Get(g, COMPATIBILITY).entries);
    LabelStays(p, g, SEAL);
    LabelStays(p, g, ALLOWED);
    LabelStays(p, g, OBSERVED);
    LabelStays(p, g, MIGRATION);
    LabelStays(p, g, "artifact_binding_status");
    EchoStays(p, g, o);
  }

  lemma {:induction false} EchoStays(p: Policy, g: Object, o: Object)
    requires KeysOpen(p) && Repeats(g, o) && ChildrenFixed(p, o)
    ensures var m := Stored(p, g);
      && Get(m, "evidence_provenance") == Get(g, "evidence_provenance")
      && Get(m, "independent_source_separation_status") == Get(g, "independent_source_separation_status")
  {
    hide Stored, KeysOpen, Repeats, ChildrenFixed;
    StoredEcho(p, g, o, "evidence_provenance");
    StoredEcho(p, g, o, "independent_source_separation_status");
  }

  /** A sealed gate counts after its row is stored exactly when it counted before, its
      observation passes the projection unchanged, and the projections of its two
      sealed records are final. */
  lemma {:induction false} StoredCountsIff(e: Reader, g: Object)
    requires KeysOpen(e.Policy()) && Sealed(e, g)
    ensures Counts(e, Stored(e.Policy(), g)) <==> Counts(e, g) && Durable(e.Policy(), g)
  {
    hide Project, Stored, Locates, KeysOpen, Quiet, Clean, ObservationEndures, RecordSha, Repeats, MigrationProven, MigrationAbsent,
      SelfConsistent, VerdictWord;
    var p := e.Policy();
    EnduresIff(p, g);
    if Counts(e, Stored(p, g)) {
      SealPins(e, g);
      RecordStays(p, g, VERIFICATION);
      RecordStays(p, g, COMPATIBILITY);
      assert Durable(p, g);
    }
    if Durable(p, g) { EnduringCounts(e, g); }
  }

  /** Storing a durable sealed gate leaves all that is read of it: same observation, the
      fields that repeat it, lineage identifier and seal; it stays sealed and durable. */
  lemma {:induction false} DurableStaysWhole(e: Reader, g: Object)
    requires KeysOpen(e.Policy()) && Sealed(e, g) && Durable(e.Policy(), g)
    ensures var m := Stored(e.Policy(), g);
      && Get(m, OBSERVATION) == Get(g, OBSERVATION) && Repeats(m, Get(g, OBSERVATION).entries)
      && Get(m, SCOPE) == Get(g, SCOPE) && Get(m, SEAL) == Get(g, SEAL)
      && Sealed(e, m) && Durable(e.Policy(), m)
  {
    hide Project, Stored, Locates, KeysOpen, Quiet, Clean, RecordSha, Repeats, MigrationProven, MigrationAbsent, SelfConsistent, VerdictWord,
      ObservationQuiet, KindOf, Kept, ChildrenFixed, NamedObservation;
    var p, o := e.Policy(), Get(g, OBSERVATION).entries;
    EnduresIff(p, g);
    CleanKept(p, o);
    StoredRepeats(p, g, o);
    LabelStays(p, g, SCOPE);
    LabelStays(p, g, SEAL);
    LabelStays(p, g, OBSERVED);
    SharedStays(p, g, o, MIGRATION);
    SharedStays(p, g, o, RECEIPT);
    RecordStays(p, g, VERIFICATION);
    RecordStays(p, g, COMPATIBILITY);
    Opened(p);
    ProjectedIsQuiet(p, Get(g, VERIFICATION));
    ProjectedIsQuiet(p, Get(g, COMPATIBILITY));
    SameKind(p, g, Stored(p, g), o);
  }

  lemma {:induction false} ProjectedIsQuiet(p: Policy, j: Json)
    requires OwnKeysOpen(p) && Quiet(p, j, "")
    ensures Quiet(p, Project(p, j, ""), "")
  {
    hide Project, Quiet, OwnKeysOpen;
    ProjectTwiceIff(p, j, "");
    ProjectTwiceIff(p, Project(p, j, ""), "");
  }

  lemma SameKind(p: Policy, g: Object, m: Object, o: Object)
    requires Repeats(g, o) && Repeats(m, o)
    ensures KindOf(p, m, "") == KindOf(p, g, "")
  {
    assert "value_kind" in ContractKeys();
  }

  // ---- saving again and again ----------------------------------------------

  /** The gate after so many saves. */
  function StoredTimes(p: Policy, g: Object, n: nat): Object {
    if n == 0 then g else Stored(p, StoredTimes(p, g, n - 1))
  }

  lemma {:induction false} DurableForEver(e: Reader, g: Object, n: nat)
    requires KeysOpen(e.Policy()) && Sealed(e, g) && Durable(e.Policy(), g)
    ensures var m := StoredTimes(e.Policy(), g, n);
      && Get(m, OBSERVATION) == Get(g, OBSERVATION) && Repeats(m, Get(g, OBSERVATION).entries)
      && Get(m, SCOPE) == Get(g, SCOPE) && Get(m, SEAL) == Get(g, SEAL)
      && Sealed(e, m) && Durable(e.Policy(), m) && (Counts(e, m) <==> Counts(e, g))
  {
    hide Stored, KeysOpen, Durable, Counts, Repeats, Digested, Project;
    if n == 0 {
      SealedRepeats(e, g);
    } else {
      DurableForEver(e, g, n - 1);
      DurableStaysWhole(e, StoredTimes(e.Policy(), g, n - 1));
      EnduringCounts(e, StoredTimes(e.Policy(), g, n - 1));
    }
  }

  /** The seal is a digest, and so stays. */
  lemma {:induction false} SealStays(p: Policy, g: Object, n: nat)
    requires KeysOpen(p) && Get(g, SEAL).Sha?
    ensures Get(StoredTimes(p, g, n), SEAL) == Get(g, SEAL)
  {
    hide Stored, KeysOpen;
    if n > 0 {
      SealStays(p, g, n - 1);
      LabelStays(p, StoredTimes(p, g, n - 1), SEAL);
    }
  }

  /** What the saves make of a gate's observation. */
  lemma {:induction false} ObservationMoves(p: Policy, g: Object)
    requires KeysOpen(p) && Get(g, OBSERVATION).Dict?
    ensures Get(Stored(p, g), OBSERVATION).Dict?
    ensures Step(p, InObservation, Get(g, OBSERVATION).entries, Get(Stored(p, g), OBSERVATION).entries)
  {
    hide Project, Kept, Stored, KindOf, SafeObservation, Step;
    StoredObservation(p, g);
    ObservationSteps(p, Get(g, OBSERVATION).entries, KindOf(p, Kept(p, g), ""));
  }

  function ObservationAfter(p: Policy, g: Object, n: nat): Object {
    var o := Get(StoredTimes(p, g, n), OBSERVATION);
    if o.Dict? then o.entries else map[]
  }

  lemma {:induction false} ObservationCourse(p: Policy, g: Object, i: nat)
    requires KeysOpen(p) && Get(g, OBSERVATION).Dict?
    ensures Get(StoredTimes(p, g, i), OBSERVATION) == Dict(ObservationAfter(p, g, i))
    ensures Step(p, InObservation, ObservationAfter(p, g, i), ObservationAfter(p, g, i + 1))
  {
    hide Stored, KeysOpen, Step;
    ObservationIsDict(p, g, i);
    ObservationMoves(p, StoredTimes(p, g, i));
  }

  /** An observation that is there again after some saves was never changed. */
  lemma {:induction false} ObservationReturns(p: Policy, g: Object, n: nat)
    requires KeysOpen(p) && Get(g, OBSERVATION).Dict? && n > 0
    requires Get(StoredTimes(p, g, n), OBSERVATION) == Get(g, OBSERVATION)
    ensures Get(Stored(p, g), OBSERVATION) == Get(g, OBSERVATION)
  {
    hide Stored, KeysOpen, Step, StoredTimes, ObservationAfter;
    var ms := seq(n + 1, i requires 0 <= i <= n => ObservationAfter(p, g, i));
    forall i | 0 <= i < n ensures Step(p, InObservation, ms[i], ms[i + 1]) { ObservationCourse(p, g, i); }
    FirstSave(p, g);
    ObservationCourse(p, g, 0);
    ObservationCourse(p, g, 1);
    ObservationCourse(p, g, n);
    Opened(p);
    CourseConstant(p, InObservation, ms);
  }

  lemma FirstSave(p: Policy, g: Object)
    ensures StoredTimes(p, g, 0) == g && StoredTimes(p, g, 1) == Stored(p, g)
  {
    hide Stored;
  }

  lemma {:induction false} ObservationIsDict(p: Policy, g: Object, n: nat)
    requires KeysOpen(p) && Get(g, OBSERVATION).Dict?
    ensures Get(StoredTimes(p, g, n), OBSERVATION).Dict?
  {
    hide Stored, KeysOpen, Step;
    if n > 0 {
      ObservationIsDict(p, g, n - 1);
      ObservationMoves(p, StoredTimes(p, g, n - 1));
    }
  }

  lemma {:induction false} RecordMoves(p: Policy, g: Object, k: string, n: nat)
    requires KeysOpen(p) && k in {VERIFICATION, COMPATIBILITY} && Get(g, k).Dict?
    ensures Get(StoredTimes(p, g, n), k) == Repeated(p, Get(g, k), "", n) && Get(StoredTimes(p, g, n), k).Dict?
  {
    hide Stored, KeysOpen, Project, Quiet;
    if n > 0 {
      RecordMoves(p, g, k, n - 1);
      RecordStays(p, StoredTimes(p, g, n - 1), k);
    }
  }

  lemma {:induction false} RepeatedShifts(p: Policy, j: Json, k: string, n: nat)
    ensures Project(p, Repeated(p, j, k, n), k) == Repeated(p, Project(p, j, k), k, n)
  {
    hide Project;
    if n > 0 { RepeatedShifts(p, j, k, n - 1); }
  }

  /** A sealed record whose digest matches after some saves is final. */
  lemma {:induction false} RecordReturns(p: Policy, g: Object, k: string, n: nat)
    requires KeysOpen(p) && k in {VERIFICATION, COMPATIBILITY} && Get(g, k).Dict? && n > 0
    requires RecordSha(p, Get(StoredTimes(p, g, n), k)) == RecordSha(p, Get(g, k))
    ensures Quiet(p, Get(g, k), "")
  {
    hide Stored, KeysOpen, Project, Quiet, OwnKeysOpen;
    RecordMoves(p, g, k, n);
    RepeatedShifts(p, Get(g, k), "", n);
    Opened(p);
    NoCycles(p, Project(p, Get(g, k), ""), "", n);
    ProjectTwiceIff(p, Get(g, k), "");
  }

  /** However often its row is saved, a sealed gate counts exactly when it counted before
      and is durable: no save brings a lost gate back. */
  lemma {:induction false} SavedCountsIff(e: Reader, g: Object, n: nat)
    requires KeysOpen(e.Policy()) && Sealed(e, g) && n > 0
    ensures Counts(e, StoredTimes(e.Policy(), g, n)) <==> Counts(e, g) && Durable(e.Policy(), g)
  {
    hide Stored, KeysOpen, Project, Quiet, StoredTimes, RecordSha, Repeats, SelfConsistent, VerdictWord, MigrationProven, MigrationAbsent,
      ObservationEndures;
    var p, m := e.Policy(), StoredTimes(e.Policy(), g, n);
    if Counts(e, m) {
      SealStays(p, g, n);
      ObservationReturns(p, g, n);
      EnduresIff(p, g);
      RecordMoves(p, g, VERIFICATION, n);
      RecordMoves(p, g, COMPATIBILITY, n);
      RecordReturns(p, g, VERIFICATION, n);
      RecordReturns(p, g, COMPATIBILITY, n);
      assert Durable(p, g);
    }
    if Durable(p, g) { DurableForEver(e, g, n); }
  }

  // ---- what storing loses --------------------------------------------------

  /** An observed set or vector, or an ordered contract's list of ranks, is always
      replaced by a reference. */
  ghost predicate Replaced(p: Policy, o: Object) {
    && Get(o, CONTRACT).Dict?
    && var c := Get(o, CONTRACT).entries; var kind := KindOf(p, c, "");
       || (kind in {"set", "vector"} && Get(o, "observed_value") != Null)
       || (Get(c, CONFIG).Dict? && (Get(Get(c, CONFIG).entries, "ordered_values").List?
                                    || Get(Get(c, CONFIG).entries, "vector_directions").Dict?))
  }

  lemma {:induction false} ReplacedIsLost(e: Reader, g: Object)
    requires KeysOpen(e.Policy()) && Sealed(e, g) && Truthy(Get(g, "value_kind"))
    requires Replaced(e.Policy(), Get(g, OBSERVATION).entries)
    ensures !Counts(e, Stored(e.Policy(), g))
  {
    hide Stored, KeysOpen, Quiet, Clean, Counts, Sealed, NamedObservation, Kept;
    StoredCountsIff(e, g);
    SealedRepeats(e, g);
    ReplacedIsLoud(e.Policy(), g, Get(g, OBSERVATION).entries);
  }

  lemma SealedRepeats(e: Reader, g: Object)
    requires Sealed(e, g)
    ensures Get(g, OBSERVATION).Dict? && Repeats(g, Get(g, OBSERVATION).entries)
  {
  }

  lemma ReplacedIsLoud(p: Policy, g: Object, o: Object)
    requires Repeats(g, o) && Truthy(Get(g, "value_kind")) && Replaced(p, o)
    ensures !ObservationQuiet(p, o, KindOf(p, g, ""))
  {
    var c := Get(o, CONTRACT).entries;
    assert Get(g, "value_kind") == Get(c, "value_kind");
    var kind := KindOf(p, c, "");
    assert kind == KindOf(p, c, KindOf(p, g, ""));
    if kind in {"set", "vector"} && Get(o, "observed_value") != Null {
      assert "observed_value" in ObservedFields();
    } else {
      var config := Get(c, CONFIG).entries;
      assert "ordered_values" in ConfigFields() && "vector_directions" in ConfigFields();
    }
  }
}
