/** What the seal of a stored metric gate vouches for. */
module StoredSeal {
  import opened Json
  import opened DurableProjection
  import opened DurableIdempotence
  import opened StoredMetric

  /** What a gate and its observation both state, under the gate's key and the
      observation's. */
  const REPEATED: seq<(string, string)> := [
    ("evidence_provenance", "evidence_provenance"),
    ("independent_source_separation_status", "independent_source_separation_status"),
    ("primary_metric_high_water", "high_water_value"),
    ("primary_metric_high_water_sha256", "high_water_value_sha256"),
    ("primary_metric_zero_movement_streak", "zero_movement_streak"),
    ("primary_metric_stalled", "stalled"),
    ("metric_comparability_status", "comparability_status"),
    ("primary_metric_high_water_moved", "high_water_moved"),
    ("basis_migration_status", "basis_migration_status")]

  const CONTRACT_FIELDS: seq<string> := [
    "metric_id", "metric_basis_id", "metric_dimension_id", "metric_subject_id", "metric_provenance_id", "value_kind",
    "comparison_semantics", "comparison_config"]

  lemma ContractFieldsAre()
    ensures forall k :: k in CONTRACT_FIELDS ==> k in ContractKeys()
  {
  }

  lemma RepeatedAre()
    ensures forall i :: 0 <= i < |REPEATED| ==>
      || REPEATED[i] == (HIGH_WATER, "high_water_value") || REPEATED[i] == (MIGRATION, MIGRATION)
      || (REPEATED[i].1 in Echoed() && Echoed()[REPEATED[i].1] == REPEATED[i].0)
  {
  }

  /** A gate that counts repeats its observation and the observation's contract, field by
      field. */
  lemma {:induction false} CountedRepeats(e: Reader, g: Object)
    requires Counts(e, g)
    ensures Get(g, "metric_observation").Dict? && Get(Get(g, "metric_observation").entries, "metric_contract").Dict?
    ensures var o := Get(g, "metric_observation").entries; var contract := Get(o, "metric_contract").entries;
      && (forall i :: 0 <= i < |REPEATED| ==> Same(Get(g, REPEATED[i].0), Get(o, REPEATED[i].1)))
      && (forall i :: 0 <= i < |CONTRACT_FIELDS| ==> Same(Get(g, CONTRACT_FIELDS[i]), Get(contract, CONTRACT_FIELDS[i])))
  {
    hide Leveled, Same, Echoed, ContractKeys, REPEATED, CONTRACT_FIELDS, Digested, SelfConsistent, VerdictWord, RecordSha, InputSha, ObservationKeys;
    RepeatedAre();
    ContractFieldsAre();
    var o := Get(g, OBSERVATION).entries;
    forall x ensures Same(x, x) { SameItself(x); }
    forall i | 0 <= i < |REPEATED| ensures Same(Get(g, REPEATED[i].0), Get(o, REPEATED[i].1)) {
      if REPEATED[i].1 in Echoed() && Echoed()[REPEATED[i].1] == REPEATED[i].0 { assert Agrees(g, o); }
    }
    forall i | 0 <= i < |CONTRACT_FIELDS| ensures CONTRACT_FIELDS[i] in ContractKeys() { assert CONTRACT_FIELDS[i] in CONTRACT_FIELDS; }
  }

  lemma SameItself(x: Json)
    ensures Same(x, x)
  {
  }

  lemma SameVia(a: Json, x: Json, b: Json)
    ensures Same(a, x) && Same(b, x) ==> Same(a, b)
  {
  }

  /** Two stored gates that count under the same seal state the same: no field that later
      cycles read can be edited without breaking the seal. */
  lemma {:induction false} SealFixesStored(e: Reader, g: Object, h: Object)
    requires Counts(e, g) && Counts(e, h) && Get(g, "metric_observation_sha256") == Get(h, "metric_observation_sha256")
    ensures Get(g, "metric_observation") == Get(h, "metric_observation")
    ensures forall i :: 0 <= i < |REPEATED| ==> Same(Get(g, REPEATED[i].0), Get(h, REPEATED[i].0))
    ensures forall i :: 0 <= i < |CONTRACT_FIELDS| ==> Same(Get(g, CONTRACT_FIELDS[i]), Get(h, CONTRACT_FIELDS[i]))
  {
    hide Leveled, Same, REPEATED, CONTRACT_FIELDS;
    CountedRepeats(e, g);
    CountedRepeats(e, h);
    SealOfObservation(e, g);
    SealOfObservation(e, h);
    var o := Get(g, OBSERVATION).entries;
    forall i | 0 <= i < |REPEATED| ensures Same(Get(g, REPEATED[i].0), Get(h, REPEATED[i].0)) {
      SameVia(Get(g, REPEATED[i].0), Get(o, REPEATED[i].1), Get(h, REPEATED[i].0));
    }
    var contract := Get(o, CONTRACT).entries;
    forall i | 0 <= i < |CONTRACT_FIELDS| ensures Same(Get(g, CONTRACT_FIELDS[i]), Get(h, CONTRACT_FIELDS[i])) {
      SameVia(Get(g, CONTRACT_FIELDS[i]), Get(contract, CONTRACT_FIELDS[i]), Get(h, CONTRACT_FIELDS[i]));
    }
  }

  lemma SealOfObservation(e: Reader, g: Object)
    requires Counts(e, g)
    ensures Get(g, "metric_observation").Dict?
    ensures Get(g, "metric_observation_sha256") == Sha(Get(g, "metric_observation"))
  {
    hide Leveled, Same, Echoed, ContractKeys, SelfConsistent, VerdictWord, RecordSha, InputSha, ObservationKeys;
  }

  /** The observation of a gate that counts digests its value, its high-water, the evidence
      and the verdict; the evidence is independent, the verdict compatible. */
  lemma {:induction false} CountedIsDigested(e: Reader, g: Object)
    requires Counts(e, g)
    ensures Get(g, "metric_observation").Dict? && Get(g, "gate_compatibility").Dict?
    ensures var o := Get(g, "metric_observation").entries; var contract := Get(o, "metric_contract");
      && Get(o, "observed_value_sha256") == Sha(Dict(map["contract" := contract, "value" := Get(o, "observed_value")]))
      && Get(o, "high_water_value_sha256") == Sha(Dict(map["contract" := contract, "value" := Get(o, "high_water_value")]))
      && Get(o, "verification_gate_sha256") == Sha(Project(e.Policy(), Get(g, "verification_source_separation_gate"), ""))
      && Get(o, "gate_compatibility_sha256") == Sha(Project(e.Policy(), Get(g, "gate_compatibility"), ""))
      && Get(o, "decision_contribution_allowed") == Bool(true) && Get(g, "decision_contribution_allowed") == Bool(true)
      && Get(g, "artifact_binding_status") == Str("exact") && Get(g, "evidence_provenance") == Str("independently_verified")
      && Get(g, "independent_source_separation_status") == Str("pass") && e.flag(Bool(true))
      && VerdictWord(e, Get(g, "gate_compatibility").entries) == "compatible"
  {
    hide Leveled, Same, Echoed, ContractKeys, ObservationKeys, Project, VerdictWord, MigrationProven, MigrationAbsent;
  }

  /** A stored gate on a new basis that counts holds a receipt for this very transition; one
      on the old basis holds nothing of a transition. */
  lemma {:induction false} CountedTransition(e: Reader, g: Object)
    requires Counts(e, g)
    ensures Get(g, "metric_observation").Dict?
    ensures var o := Get(g, "metric_observation").entries;
      if Get(g, "basis_migration_observed") == Bool(true) then
        && Get(o, "basis_migration_receipt").Dict? && Same(Get(g, "basis_migration_receipt"), Get(o, "basis_migration_receipt"))
        && Get(o, "metric_contract").Dict?
        && var r := Get(o, "basis_migration_receipt").entries; var contract := Get(o, "metric_contract").entries;
           var evidence := Sha(Project(e.Policy(), Get(g, "verification_source_separation_gate"), ""));
           && e.shape(r)
           && Same(Get(r, "metric_axis_id"), Get(contract, "metric_id"))
           && Same(Get(r, "new_metric_basis_id"), Get(contract, "metric_basis_id"))
           && Same(Get(r, "old_observation_sha256"), Get(o, "basis_migration_prior_observation_sha256"))
           && Same(Get(r, "old_lineage_id"), Get(o, "basis_migration_prior_lineage_id"))
           && Same(Get(r, "new_lineage_id"), Get(o, "basis_migration_new_lineage_id"))
           && Same(Get(r, "new_lineage_id"), Get(g, "primary_metric_scope_key"))
           && Get(r, "decision_binding_sha256") == Sha(Get(o, "decision_artifact_binding"))
           && Get(r, "verification_gate_sha256") == evidence
           && Get(r, "new_observation_input_sha256")
              == Sha(Dict(map["metric_contract" := Get(o, "metric_contract"), "observed_value" := Get(o, "observed_value"),
                              "decision_artifact_binding" := Get(o, "decision_artifact_binding"), "verification_gate_sha256" := evidence]))
      else
        && Get(o, "basis_migration_receipt") == Null && Get(o, "basis_migration_prior_observation_sha256") == Null
        && Get(o, "basis_migration_prior_lineage_id") == Null && Get(o, "basis_migration_new_lineage_id") == Null
  {
    hide Leveled, Echoed, ContractKeys, ObservationKeys, Project, VerdictWord, SelfConsistent, Digested;
    forall x, y ensures Same(x, y) <==> Same(y, x) { SameBack(x, y); }
    hide Same;
  }

  lemma SameBack(x: Json, y: Json)
    ensures Same(x, y) <==> Same(y, x)
  {
  }
}
