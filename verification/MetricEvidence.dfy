/** What a recorded gate says, and which readings are taken as evidence, stated on
    the reading and on the gate themselves. */
module MetricEvidence {
  import opened Json
  import opened Wrappers
  import Text
  import opened MetricComparator
  import opened PrimaryMetric
  import opened MetricLineage
  import DurableProjection
  import RecurrenceRules

  // ---- the artifact reference ----------------------------------------------

  /** The reference names a decision subject, the artifact's own kind of identity. */
  predicate NamesSubject(ref: Object) {
    || "decision_subject_id" in ref || "subject_class_id" in ref || "revision_id" in ref
    || "subject_digest" in ref || "lineage_id" in ref
  }

  function SubjectFields(): set<string> {
    {"decision_subject_id", "subject_class_id", "revision_id", "subject_digest", "lineage_id",
     "freshness_status", "body_fingerprint", "production_lane", "cohort", "producer_run"}
  }

  function ArtifactFields(): set<string> {
    {"artifact_id", "artifact_class", "artifact_sha256", "production_lane_identity",
     "body_projection_fingerprint", "verification_input_ids", "input_fingerprints"}
  }

  function KeptFields(ref: Object): set<string> { if NamesSubject(ref) then SubjectFields() else ArtifactFields() }

  /** A SHA-256 digest, or its text with or without the scheme. */
  ghost predicate Hashed(s: Settings, j: Json) {
    j.Sha? || (j.Str? && exists h :: Hex64(h) && (s.fold(j.s) == h || s.fold(j.s) == "sha256:" + h))
  }

  predicate Hex64(h: string) { |h| == 64 && forall c :: c in h ==> c in "0123456789abcdef" }

  predicate SaysSomething(j: Json) { j != Null && j != Str("") && j != List([]) && j != Dict(map[]) }

  predicate Text_(j: Json) { j.Str? && Text.Strip(j.s) != "" }

  predicate IsRow(j: Json, word: string, value: Json) {
    j.Dict? && j.entries == map["applicability" := Str(word), "value" := value]
  }

  /** Either not applicable and empty, or applicable with a value. */
  ghost predicate RowAllowed(s: Settings, j: Json, digest: bool) {
    exists word, value :: IsRow(j, word, value)
      && ((s.fold(word) == "not_applicable" && value == Null)
          || (s.fold(word) == "applicable" && s.fold(word) != "not_applicable" && SaysSomething(value)
              && (digest ==> Hashed(s, value))))
  }

  /** A current decision subject, every field stated. */
  ghost predicate SubjectAllowed(s: Settings, ref: Object) {
    && SubjectFields() <= ref.Keys
    && Text_(ref["decision_subject_id"]) && Text_(ref["subject_class_id"])
    && Text_(ref["revision_id"]) && Text_(ref["lineage_id"])
    && Hashed(s, ref["subject_digest"])
    && ref["freshness_status"].Str? && s.fold(ref["freshness_status"].s) == "current"
    && RowAllowed(s, ref["body_fingerprint"], true) && RowAllowed(s, ref["production_lane"], false)
    && RowAllowed(s, ref["cohort"], false) && RowAllowed(s, ref["producer_run"], false)
  }

  /** A bare list or dictionary that is not empty, or a text. */
  predicate Listed(j: Json) { j != Null && j != List([]) && j != Dict(map[]) }

  ghost predicate ArtifactAllowed(s: Settings, ref: Object) {
    && SaysSomething(Get(ref, "artifact_id")) && SaysSomething(Get(ref, "artifact_class"))
    && SaysSomething(Get(ref, "production_lane_identity"))
    && Hashed(s, Get(ref, "artifact_sha256")) && SaysSomething(Get(ref, "artifact_sha256"))
    && Hashed(s, Get(ref, "body_projection_fingerprint")) && SaysSomething(Get(ref, "body_projection_fingerprint"))
    && (Listed(Get(ref, "verification_input_ids")) || Listed(Get(ref, "input_fingerprints")))
  }

  ghost predicate ReferenceAllowed(s: Settings, ref: Object) {
    if NamesSubject(ref) then SubjectAllowed(s, ref) else ArtifactAllowed(s, ref)
  }

  /** What a reading keeps of its artifact reference: the fields of its kind, as given. */
  lemma {:induction false} ReferenceKept(ref: Object)
    ensures Binding(ref).Keys == ref.Keys * KeptFields(ref)
    ensures forall k :: k in Binding(ref) ==> Binding(ref)[k] == ref[k]
  {
    hide NamesSubject, EXPLICIT_FIELDS, LEGACY_FIELDS, SubjectFields, ArtifactFields;
    KindDecided(ref);
    SubjectListed();
    ArtifactListed();
  }

  lemma KindDecided(ref: Object)
    ensures |EXPLICIT_FIELDS| >= 5
    ensures NamesSubject(ref) <==> exists k :: k in EXPLICIT_FIELDS[..5] && k in ref
  {
    var five := EXPLICIT_FIELDS[..5];
    assert five == ["decision_subject_id", "subject_class_id", "revision_id", "subject_digest", "lineage_id"];
    hide EXPLICIT_FIELDS;
    assert five[0] in five && five[1] in five && five[2] in five && five[3] in five && five[4] in five;
  }

  lemma SubjectListed()
    ensures forall k :: k in EXPLICIT_FIELDS <==> k in SubjectFields()
  {
    assert EXPLICIT_FIELDS[0] == "decision_subject_id" && EXPLICIT_FIELDS[1] == "subject_class_id";
    assert EXPLICIT_FIELDS[2] == "revision_id" && EXPLICIT_FIELDS[3] == "subject_digest" && EXPLICIT_FIELDS[4] == "lineage_id";
    assert EXPLICIT_FIELDS[5] == "freshness_status" && EXPLICIT_FIELDS[6] == "body_fingerprint";
    assert EXPLICIT_FIELDS[7] == "production_lane" && EXPLICIT_FIELDS[8] == "cohort" && EXPLICIT_FIELDS[9] == "producer_run";
  }

  lemma ArtifactListed()
    ensures forall k :: k in LEGACY_FIELDS <==> k in ArtifactFields()
    ensures forall k :: k in LEGACY_FIELDS[..5] <==>
      k in {"artifact_id", "artifact_class", "artifact_sha256", "production_lane_identity", "body_projection_fingerprint"}
  {
    assert LEGACY_FIELDS[0] == "artifact_id" && LEGACY_FIELDS[1] == "artifact_class" && LEGACY_FIELDS[2] == "artifact_sha256";
    assert LEGACY_FIELDS[3] == "production_lane_identity" && LEGACY_FIELDS[4] == "body_projection_fingerprint";
    assert LEGACY_FIELDS[5] == "verification_input_ids" && LEGACY_FIELDS[6] == "input_fingerprints";
    var five := LEGACY_FIELDS[..5];
    assert five[0] == "artifact_id" && five[1] == "artifact_class" && five[2] == "artifact_sha256";
    assert five[3] == "production_lane_identity" && five[4] == "body_projection_fingerprint";
  }

  lemma Hex64Iff(h: string)
    ensures Hex64(h) <==> HexText(h)
    ensures Hex64(h) ==> !("sha256:" <= h)
  {
    forall c: char ensures c in "0123456789abcdef" <==> '0' <= c <= '9' || 'a' <= c <= 'f' { RecurrenceRules.HexDigit(c); }
    assert (forall c :: c in h ==> c in "0123456789abcdef") <==> forall i :: 0 <= i < |h| ==> h[i] in "0123456789abcdef";
    assert 's' !in "0123456789abcdef";
    assert "sha256:" <= h ==> 's' in h by { assert "sha256:"[0] == 's'; }
  }

  lemma HashedIff(s: Settings, j: Json)
    ensures Hashed(s, j) <==> FullSha(s, j)
  {
    if j.Str? {
      var n := s.fold(j.s);
      forall h ensures (Hex64(h) <==> HexText(h)) && (Hex64(h) ==> !("sha256:" <= h)) { Hex64Iff(h); }
      hide Hex64;
      if Hashed(s, j) {
        var h :| Hex64(h) && (n == h || n == "sha256:" + h);
        assert HexText(h);
        assert n != h ==> n[7..] == h;
      }
      if FullSha(s, j) {
        var h := if "sha256:" <= n then n[7..] else n;
        assert Hex64(h) && (n == h || n == "sha256:" + h);
      }
    }
  }

  lemma RowIff(s: Settings, name: string, j: Json)
    ensures RowAllowed(s, j, name == "body_fingerprint") <==> ApplicabilityRowValid(s, name, j)
  {
    hide FullSha, Hashed;
    forall x ensures Hashed(s, x) <==> FullSha(s, x) { HashedIff(s, x); }
    assert "not_applicable"[0] == 'n' && "applicable"[0] == 'a';
    if ApplicabilityRowValid(s, name, j) {
      assert IsRow(j, j.entries["applicability"].s, j.entries["value"]);
    }
    if RowAllowed(s, j, name == "body_fingerprint") {
      var word, value :| IsRow(j, word, value)
        && ((s.fold(word) == "not_applicable" && value == Null)
            || (s.fold(word) == "applicable" && s.fold(word) != "not_applicable" && SaysSomething(value)
                && (name == "body_fingerprint" ==> Hashed(s, value))));
      assert j.entries["applicability"] == Str(word) && j.entries["value"] == value;
    }
  }

  lemma {:induction false} SubjectIff(s: Settings, ref: Object, b: Object)
    requires NamesSubject(ref) && b.Keys == ref.Keys * SubjectFields() && forall k :: k in b ==> b[k] == ref[k]
    ensures BindingValid(s, b) <==> SubjectAllowed(s, ref)
  {
    hide ExplicitBindingValid, LegacyBindingValid, SubjectAllowed, NamesSubject;
    SubjectMissing(s, ref, b);
    if "decision_subject_id" in ref {
      SubjectStated(s, ref, b);
    }
  }

  lemma {:induction false} SubjectMissing(s: Settings, ref: Object, b: Object)
    requires NamesSubject(ref) && b.Keys == ref.Keys * SubjectFields()
    ensures !LegacyBindingValid(s, b)
    ensures "decision_subject_id" in b <==> "decision_subject_id" in ref
    ensures SubjectAllowed(s, ref) ==> "decision_subject_id" in ref
  {
    hide LEGACY_FIELDS, FullSha, Hashed, RowAllowed;
    SubjectIsNoArtifact(ref, b);
    ArtifactListed();
    var k :| k in b && k !in ArtifactFields();
    assert k !in LEGACY_FIELDS;
  }

  lemma {:induction false} SubjectStated(s: Settings, ref: Object, b: Object)
    requires b.Keys == ref.Keys * SubjectFields() && forall k :: k in b ==> b[k] == ref[k]
    ensures ExplicitBindingValid(s, b) <==> SubjectAllowed(s, ref)
  {
    hide FullSha, Hashed, ApplicabilityRowValid, RowAllowed, EXPLICIT_FIELDS, LEGACY_FIELDS;
    SubjectListed();
    if SubjectFields() <= ref.Keys {
      assert b.Keys == SubjectFields();
      assert forall k :: k in SubjectFields() ==> Get(b, k) == ref[k];
      HashedIff(s, ref["subject_digest"]);
      RowIff(s, "body_fingerprint", ref["body_fingerprint"]);
      RowIff(s, "production_lane", ref["production_lane"]);
      RowIff(s, "cohort", ref["cohort"]);
      RowIff(s, "producer_run", ref["producer_run"]);
      OtherRows();
    }
  }

  lemma OtherRows()
    ensures "production_lane" != "body_fingerprint" && "cohort" != "body_fingerprint" && "producer_run" != "body_fingerprint"
  {
    assert "production_lane"[0] == 'p' && "cohort"[0] == 'c' && "producer_run"[0] == 'p' && "body_fingerprint"[0] == 'b';
  }

  lemma SubjectIsNoArtifact(ref: Object, b: Object)
    requires NamesSubject(ref) && b.Keys == ref.Keys * SubjectFields()
    ensures exists k :: k in b && k !in ArtifactFields()
  {
    assert forall k :: k in ArtifactFields() ==> k[0] == 'a' || k[0] == 'p' || k[0] == 'b' || k[0] == 'v' || k[0] == 'i';
    assert "decision_subject_id"[0] == 'd' && "subject_class_id"[0] == 's' && "revision_id"[0] == 'r';
    assert "subject_digest"[0] == 's' && "lineage_id"[0] == 'l';
    var k :| k in {"decision_subject_id", "subject_class_id", "revision_id", "subject_digest", "lineage_id"} && k in ref;
    assert k in b;
  }

  lemma {:induction false} ArtifactIff(s: Settings, ref: Object, b: Object)
    requires !NamesSubject(ref) && b.Keys == ref.Keys * ArtifactFields() && forall k :: k in b ==> b[k] == ref[k]
    ensures BindingValid(s, b) <==> ArtifactAllowed(s, ref)
  {
    hide FullSha, Hashed, EXPLICIT_FIELDS, LEGACY_FIELDS, ExplicitBindingValid;
    ArtifactListed();
    HashedIff(s, Get(b, "artifact_sha256"));
    HashedIff(s, Get(b, "body_projection_fingerprint"));
    assert forall k :: k in ArtifactFields() ==> Get(b, k) == Get(ref, k);
    assert "decision_subject_id" !in b;
  }

  /** A reference is a valid binding exactly if it fully identifies a current decision
      subject, or names no subject field and identifies an artifact with its inputs. */
  lemma {:induction false} ReferenceAllowedIff(s: Settings, ref: Object)
    ensures BindingValid(s, Binding(ref)) <==> ReferenceAllowed(s, ref)
  {
    hide Binding, NamesSubject, BindingValid, SubjectAllowed, ArtifactAllowed;
    ReferenceKept(ref);
    if NamesSubject(ref) { SubjectIff(s, ref, Binding(ref)); } else { ArtifactIff(s, ref, Binding(ref)); }
  }

  // ---- the evidence --------------------------------------------------------

  /** The word of the separation gate. */
  function SeparationWord(gate: Object): string {
    if "independent_source_separation_status" in gate && gate["independent_source_separation_status"].Str?
       && |gate["independent_source_separation_status"].s| > 0
    then gate["independent_source_separation_status"].s
    else "not_evaluated"
  }

  /** Independently verified evidence: the provenance hook answered, the metric is
      declared and found so, and the separation of sources passed. */
  predicate Verified(s: Settings, r: Reading) {
    && r.hookProvided && r.declared == IndependentlyVerified
    && s.fold(SeparationWord(r.separationGate)) == "pass"
    && s.axisLabel(r.separationGate, r.contract.metricId) == IndependentlyVerified
  }

  predicate SaysCompatible(compatibility: Object) {
    Get(compatibility, "gate_compatibility_status") == Str("compatible")
  }

  lemma SaysCompatibleIff(compatibility: Object)
    ensures SaysCompatible(compatibility) <==> Allows(compatibility)
  {
    assert |"compatible"| == 10 && |"not_evaluated"| == 13;
  }

  /** The one receipt that carries a metric over to a new basis: it names both bases,
      observations and lineages, the artifact and the evidence. */
  ghost predicate Carries(s: Settings, r: Reading, prior: Gate) {
    exists kept: Object :: kept.Keys == r.artifactRef.Keys * KeptFields(r.artifactRef)
      && (forall k :: k in kept ==> kept[k] == r.artifactRef[k])
      && var evidence := OfJson(DurableProjection.Project(s.policy, Dict(r.separationGate), ""));
         r.receipt == Some(Receipt(
           r.contract.metricId, prior.contract.basisId, r.contract.basisId, prior.observationSha,
           OfInput(r.contract, r.value, kept, evidence), prior.scopeKey, KeyOf(s, r.contract),
           OfJson(Dict(kept)), evidence, true))
  }

  lemma {:induction false} CarriesIff(s: Settings, r: Reading, prior: Gate)
    requires r.contract.basisId != prior.contract.basisId
    ensures ReceiptAccepted(s, r, prior) <==> Independent(s, r) && Carries(s, r, prior)
  {
    hide Binding, NamesSubject, Independent, KeyOf, DurableProjection.Project;
    ReferenceKept(r.artifactRef);
    var kept := Binding(r.artifactRef);
    forall m: Object | m.Keys == kept.Keys && (forall k :: k in m ==> m[k] == r.artifactRef[k]) ensures m == kept {}
  }

  lemma VerifiedIff(s: Settings, r: Reading)
    ensures Verified(s, r) <==> Independent(s, r)
    ensures Verified(s, r) <==> EffectiveLabel(s, r) == IndependentlyVerified
  {
    assert SeparationWord(r.separationGate)
        == (match Get(r.separationGate, "independent_source_separation_status")
            case Str(t) => if t == "" then "not_evaluated" else t case _ => "not_evaluated");
  }

  /** The label a gate publishes for evidence that is not independent. */
  lemma LabelExactly(s: Settings, r: Reading)
    requires !Verified(s, r)
    ensures var found := s.axisLabel(r.separationGate, r.contract.metricId); var published := EffectiveLabel(s, r);
      && (!r.hookProvided ==> published == OtherLabel("legacy_unclassified"))
      && (r.hookProvided && r.declared != IndependentlyVerified ==> published == r.declared)
      && (r.hookProvided && r.declared == IndependentlyVerified && found in {ProducerAttested, SelfGrounded} ==> published == found)
      && (r.hookProvided && r.declared == IndependentlyVerified && found !in {ProducerAttested, SelfGrounded} ==>
            published == NotEvaluated)
  {
    VerifiedIff(s, r);
  }

  /** The gate on another basis that a reading would carry over from. */
  function Predecessor(s: Settings, rows: seq<Row>, c: Contract): Option<Gate>
    requires ContractValid(c)
  {
    if LatestBaseline(s, rows, c).Some? then None else LatestOtherBasis(s, rows, c)
  }

  /** A gate that counts, of a contract that differs in its basis and in nothing else. */
  predicate Kin(s: Settings, row: Row, c: Contract) {
    && row.gate.Some? && Eligible(s, row.gate.value)
    && var d := row.gate.value.contract;
       && d.basisId != c.basisId
       && d.metricId == c.metricId && d.dimensionId == c.dimensionId && d.subjectId == c.subjectId
       && d.provenanceId == c.provenanceId && d.kind == c.kind && d.semantics == c.semantics && d.config == c.config
  }

  /** The gate on another basis is the newest of its kind. */
  lemma {:induction false} OtherBasisIsNewest(s: Settings, rows: seq<Row>, c: Contract)
    ensures match LatestOtherBasis(s, rows, c)
            case None => forall i :: 0 <= i < |rows| ==> !Kin(s, rows[i], c)
            case Some(g) =>
              exists i :: 0 <= i < |rows| && Kin(s, rows[i], c) && rows[i].gate == Some(g)
                && forall k :: i < k < |rows| ==> !Kin(s, rows[k], c)
  {
    hide Eligible, Kin, OtherBasis;
    if rows != [] {
      var n := |rows| - 1;
      KinIff(s, rows[n], c);
      OtherBasisIsNewest(s, rows[..n], c);
      assert forall i :: 0 <= i < n ==> rows[..n][i] == rows[i];
    }
  }

  lemma KinIff(s: Settings, row: Row, c: Contract)
    ensures Kin(s, row, c) <==> OtherBasis(s, row, c)
    ensures Kin(s, row, c) ==> row.gate.Some?
  {
    hide Eligible;
  }

  lemma {:induction false} OtherBasisDiffers(s: Settings, rows: seq<Row>, c: Contract)
    ensures var g := LatestOtherBasis(s, rows, c); g.Some? ==> g.value.contract.basisId != c.basisId
  {
    hide RowEligible;
    if rows != [] { OtherBasisDiffers(s, rows[..|rows| - 1], c); }
  }

  /** Which recorded gates later readings may build on, in terms of the reading, the
      verdict and the newest gate on another basis. */
  lemma {:induction false} CountsExactly(s: Settings, rows: seq<Row>, r: Reading, compatibility: Object)
    requires ReadingValid(r) && FoldsVerdict(s)
    ensures Eligible(s, Record(s, rows, r, compatibility)) <==>
      && Verified(s, r) && SaysCompatible(compatibility) && ReferenceAllowed(s, r.artifactRef)
      && (Predecessor(s, rows, r.contract).Some? ==> Carries(s, r, Predecessor(s, rows, r.contract).value))
  {
    hide Record, Eligible, Verified, Independent, ReferenceAllowed, BindingValid, Binding, CompatibilityStatus, SaysCompatible,
      Carries, ReceiptAccepted, Compare, LatestBaseline, LatestOtherBasis, KeyOf;
    RecordedGateCountsIff(s, rows, r, compatibility);
    VerifiedIff(s, r);
    SaysCompatibleIff(compatibility);
    ReferenceAllowedIff(s, r.artifactRef);
    OtherBasisDiffers(s, rows, r.contract);
    if Predecessor(s, rows, r.contract).Some? { CarriesIff(s, r, Predecessor(s, rows, r.contract).value); }
  }

  // ---- what the gate says --------------------------------------------------

  predicate Judged(g: Gate) { g.relation in {Some(Improved), Some(Adverse), Some(Same)} && g.provenance == IndependentlyVerified }

  /** The relation is that of the reading to the previous high-water; the high-water and
      the movement flags follow from it and from the provenance. */
  predicate ValuesAgree(s: Settings, r: Reading, g: Gate, compatible: bool)
    requires ReadingValid(r)
  {
    && g.value == r.value && (g.contributionAllowed <==> compatible)
    && (g.relation == None <==> g.previous == Absent)
    && (g.relation.Some? ==> Normal(g.previous, r.contract) && g.relation == Some(Compare(r.value, g.previous, r.contract, s.epsilon)))
    && (g.rawMoved <==> g.relation == Some(Improved))
    && (g.attestedOnly <==> g.relation == Some(Improved) && g.provenance != IndependentlyVerified)
    && (g.moved <==> compatible && g.relation == Some(Improved) && g.provenance == IndependentlyVerified)
    && g.highWater == (if g.relation == None || (g.relation == Some(Improved) && g.provenance == IndependentlyVerified)
                       then r.value else g.previous)
  }

  function ReasonGiven(g: Gate): string {
    if Judged(g) then ""
    else
      match g.comparability
      case MigratedBaseline => "metric_basis_migration_started_new_baseline"
      case MigrationWithoutBaseline => "metric_basis_migration_receipt_missing_or_invalid"
      case NoBaseline => "no_comparable_baseline"
      case NotComparable => "metric_values_incomparable"
      case Comparable => "independent_metric_provenance_missing"
  }

  predicate BasisAgrees(g: Gate) {
    && (g.comparability == MigratedBaseline <==> g.migrationStatus == VerifiedNewBaseline)
    && (g.comparability == MigrationWithoutBaseline <==> g.migrationStatus == Unverified)
    && (g.comparability == NoBaseline <==> g.relation == None && !g.migrationObserved)
    && (g.comparability == NotComparable <==> g.relation == Some(Incomparable))
    && (g.migrationObserved <==> g.migrationStatus != NotApplicable) && (g.migrationObserved ==> g.relation == None)
    && g.reason == ReasonGiven(g)
  }

  /** Evaluation, reason, comparability and stall follow from relation, provenance, basis
      and verdict. */
  predicate VerdictsAgree(s: Settings, r: Reading, g: Gate, compatible: bool) {
    && (g.evaluation == Passed <==> g.moved)
    && (g.evaluation == Failed <==> compatible && Judged(g) && g.relation != Some(Improved))
    && g.cap == (if s.cap == Some(0) then None else s.cap)
    && (Judged(g) ==>
          (g.stalled <==> compatible && (r.adapterStalled || (!g.moved && g.cap.Some? && g.streak.Some? && g.streak.value >= g.cap.value))))
  }

  /** A recorded gate keeps the better of the reading and the previous high-water, as far
      as the evidence is independent. */
  lemma {:induction false} ValuesExactly(s: Settings, rows: seq<Row>, r: Reading, compatibility: Object)
    requires ReadingValid(r)
    ensures ValuesAgree(s, r, Record(s, rows, r, compatibility), SaysCompatible(compatibility))
  {
    hide KeyOf, StreakOf, CompatibilityStatus, VerificationSha, DurableProjection.Project, Binding, LatestBaseline,
      LatestOtherBasis, ReceiptAccepted, Compare, SaysCompatible, Verified, Independent, EffectiveLabel, Normal, StalledOf;
    VerifiedIff(s, r);
    SaysCompatibleIff(compatibility);
    BaselineNormal(s, rows, r.contract);
    RecordView(s, rows, r, compatibility);
    OutcomeView(s, rows, r, compatibility);
    hide Record;
    AbsentIsNotNormal(r.contract);
  }

  lemma AbsentIsNotNormal(c: Contract)
    requires ContractValid(c)
    ensures !Normal(Absent, c)
  {
  }

  /** How the parts of a judgement hang together. */
  lemma JudgementFacts(s: Settings, rows: seq<Row>, r: Reading)
    requires ReadingValid(r)
    ensures var j := Judge(s, rows, r);
      && (j.independent <==> EffectiveLabel(s, r) == IndependentlyVerified)
      && (j.comparable <==> j.relation in {Some(Improved), Some(Adverse), Some(Same)} && j.independent)
      && (j.rawMoved <==> j.relation == Some(Improved)) && (j.moved <==> j.rawMoved && j.independent)
      && (j.baseline.Some? <==> j.relation.Some?) && (j.migrating ==> j.relation.None?) && (j.migrated ==> j.migrating)
  {
    hide KeyOf, LatestBaseline, LatestOtherBasis, ReceiptAccepted, Compare, Verified, Independent, EffectiveLabel, Normal;
    VerifiedIff(s, r);
  }

  /** A recorded gate says why it was not judged, as its own relation, provenance and basis
      have it. */
  lemma {:induction false} BasisExactly(s: Settings, rows: seq<Row>, r: Reading, compatibility: Object)
    requires ReadingValid(r)
    ensures BasisAgrees(Record(s, rows, r, compatibility))
  {
    hide Judge, Record, KeyOf, StreakOf, EffectiveLabel, HighWaterOf, StalledOf, CapValue, Separation;
    JudgementFacts(s, rows, r);
    RecordView(s, rows, r, compatibility);
    OutcomeView(s, rows, r, compatibility);
  }

  /** It judges and stalls as relation, provenance and verdict have it. */
  lemma {:induction false} VerdictsExactly(s: Settings, rows: seq<Row>, r: Reading, compatibility: Object)
    requires ReadingValid(r)
    ensures VerdictsAgree(s, r, Record(s, rows, r, compatibility), SaysCompatible(compatibility))
  {
    hide Judge, Record, KeyOf, StreakOf, EffectiveLabel, HighWaterOf, SaysCompatible, Allows, ReasonOf, ComparabilityOf, StatusOf, Separation;
    JudgementFacts(s, rows, r);
    SaysCompatibleIff(compatibility);
    RecordView(s, rows, r, compatibility);
    OutcomeView(s, rows, r, compatibility);
  }

  /** The published outcome, read off the judgement. */
  lemma OutcomeView(s: Settings, rows: seq<Row>, r: Reading, compatibility: Object)
    requires ReadingValid(r)
    ensures var j := Judge(s, rows, r); var g := Record(s, rows, r, compatibility);
      && g.value == r.value && g.relation == j.relation && g.rawMoved == j.rawMoved
      && g.attestedOnly == (j.rawMoved && !j.independent)
      && g.previous == (if j.baseline.Some? then j.baseline.value.value else Absent)
      && g.comparability == ComparabilityOf(j) && g.reason == ReasonOf(j) && g.cap == CapValue(s)
      && g.evaluation == (if !Allows(compatibility) then NotJudged else if j.moved then Passed else if j.comparable then Failed else NotJudged)
  {
    hide KeyOf, StreakOf, StalledOf, HighWaterOf, EffectiveLabel, Separation, ReasonOf, ComparabilityOf,
      CompatibilityStatus, CapValue, VerificationSha, DurableProjection.Project, StatusOf, DeclaredLabel, Binding,
      LatestBaseline, LatestOtherBasis, ReceiptAccepted, Independent, Compare;
  }

  // ---- the streak ----------------------------------------------------------

  /** The gate can be built on and is filed under the key, by itself or by its row. */
  predicate Speaks(s: Settings, row: Row, key: ScopeKey) {
    && row.gate.Some? && Eligible(s, row.gate.value)
    && ((row.gate.value.scopeKey == key && key != NoKey) || (row.gate.value.scopeKey == NoKey && row.goalScope == key))
  }

  function Heard(s: Settings, rows: seq<Row>, key: ScopeKey): seq<Gate> {
    if rows == [] then []
    else
      var n := |rows| - 1;
      Heard(s, rows[..n], key) + if Speaks(s, rows[n], key) then [rows[n].gate.value] else []
  }

  predicate Steady(g: Gate) { !g.moved && g.previous != Absent }

  /** The last `k` gates, and no more, had something to improve on and did not. */
  ghost predicate IsStretch(gs: seq<Gate>, k: int) {
    && 0 <= k <= |gs| && (forall i :: |gs| - k <= i < |gs| ==> Steady(gs[i]))
    && (k < |gs| ==> !Steady(gs[|gs| - k - 1]))
  }

  lemma StretchGrows(gs: seq<Gate>, k: int, g: Gate)
    requires IsStretch(gs, k)
    ensures IsStretch(gs + [g], if Steady(g) then k + 1 else 0)
  {
    hide Steady;
  }

  lemma SpeaksIff(s: Settings, row: Row, key: ScopeKey)
    ensures Speaks(s, row, key) <==> InScope(s, row, key)
    ensures Speaks(s, row, key) ==> row.gate.Some?
  {
    hide Eligible;
  }

  /** The gates heard, one row further. */
  lemma {:induction false} HeardStep(s: Settings, rows: seq<Row>, key: ScopeKey)
    requires rows != []
    ensures var n := |rows| - 1; var gs := Heard(s, rows[..n], key); var row := rows[n];
      && (InScope(s, row, key) ==> row.gate.Some? && Heard(s, rows, key) == gs + [row.gate.value])
      && (!InScope(s, row, key) ==> Heard(s, rows, key) == gs)
  {
    hide Speaks, InScope;
    SpeaksIff(s, rows[|rows| - 1], key);
  }

  lemma {:induction false} HeardLatest(s: Settings, rows: seq<Row>, key: ScopeKey)
    ensures var gs := Heard(s, rows, key);
            LatestInScope(s, rows, key) == if gs == [] then None else Some(gs[|gs| - 1])
  {
    hide InScope, Heard;
    if rows == [] {
      NothingHeard(s, key);
    } else {
      HeardLatest(s, rows[..|rows| - 1], key);
      HeardStep(s, rows, key);
    }
  }

  lemma {:induction false} HeardStretch(s: Settings, rows: seq<Row>, key: ScopeKey)
    ensures IsStretch(Heard(s, rows, key), Recount(s, rows, key))
  {
    hide InScope, Heard, IsStretch;
    if rows == [] {
      NothingHeard(s, key);
      NoStretch();
    } else {
      var n := |rows| - 1;
      HeardStretch(s, rows[..n], key);
      HeardStep(s, rows, key);
      if InScope(s, rows[n], key) {
        StretchGrows(Heard(s, rows[..n], key), Recount(s, rows[..n], key), rows[n].gate.value);
      }
    }
  }

  lemma NothingHeard(s: Settings, key: ScopeKey)
    ensures Heard(s, [], key) == []
  {
  }

  lemma NoStretch()
    ensures IsStretch([], 0)
  {
  }

  predicate Counts(g: Gate) { g.streak.Some? && g.streak.value >= 0 }

  function Carried(g: Option<Gate>): int { if g.Some? && Counts(g.value) then g.value.streak.value else 0 }

  /** The gate a reading takes up: the lineage's newest, else the newest on another basis,
      else the newest filed under the key. */
  function TakenUp(s: Settings, rows: seq<Row>, c: Contract): Option<Gate>
    requires ContractValid(c)
  {
    if LatestBaseline(s, rows, c).Some? then Some(LatestBaseline(s, rows, c).value.gate)
    else if LatestOtherBasis(s, rows, c).Some? then LatestOtherBasis(s, rows, c)
    else
      var gs := Heard(s, rows, KeyOf(s, c));
      if gs == [] then None else Some(gs[|gs| - 1])
  }

  /** The gates a judged reading without movement counts on from. */
  ghost predicate CountsOn(gs: seq<Gate>, streak: int) {
    if gs != [] && Counts(gs[|gs| - 1]) then streak == gs[|gs| - 1].streak.value + 1 else IsStretch(gs, streak - 1)
  }

  lemma JudgedIff(s: Settings, rows: seq<Row>, r: Reading, compatibility: Object)
    requires ReadingValid(r)
    ensures var j := Judge(s, rows, r); var g := Record(s, rows, r, compatibility);
      (Judged(g) <==> j.comparable) && (Judged(g) && g.relation == Some(Improved) <==> j.moved)
  {
    hide Judge, Record, KeyOf, StreakOf, EffectiveLabel, HighWaterOf, StalledOf, Separation;
    JudgementFacts(s, rows, r);
    RecordView(s, rows, r, compatibility);
    OutcomeView(s, rows, r, compatibility);
  }

  lemma {:induction false} ZeroStreakExactly(s: Settings, rows: seq<Row>, key: ScopeKey, moved: bool, comparable: bool)
    ensures var gs := Heard(s, rows, key); var streak := ZeroStreak(s, rows, key, moved, comparable);
      && (moved ==> streak == 0)
      && (!moved && comparable ==> CountsOn(gs, streak))
      && (!moved && !comparable ==> streak == Carried(if gs == [] then None else Some(gs[|gs| - 1])))
  {
    hide Heard, IsStretch, LatestInScope, Recount;
    HeardLatest(s, rows, key);
    HeardStretch(s, rows, key);
  }

  lemma {:induction false} StreakOfExactly(s: Settings, rows: seq<Row>, r: Reading)
    requires ReadingValid(r)
    ensures var j := Judge(s, rows, r); var streak := StreakOf(s, rows, r, j);
      && (!j.comparable ==> streak == Carried(TakenUp(s, rows, r.contract)))
      && (j.moved ==> streak == 0)
      && (j.comparable && !j.moved ==> CountsOn(Heard(s, rows, KeyOf(s, r.contract)), streak))
  {
    hide KeyOf, LatestBaseline, LatestOtherBasis, ReceiptAccepted, Compare, Independent, Normal, Heard, CountsOn, ZeroStreak;
    var j := Judge(s, rows, r);
    ZeroStreakExactly(s, rows, KeyOf(s, r.contract), j.moved, j.comparable);
  }

  /** The recorded streak: zero on movement, one more than the newest gate's on a judged
      reading without it, recounted where that gate carries none; a reading that is not
      judged repeats the streak it takes up. */
  lemma {:induction false} StreakExactly(s: Settings, rows: seq<Row>, r: Reading, compatibility: Object)
    requires ReadingValid(r)
    ensures var g := Record(s, rows, r, compatibility);
      && g.streak.Some?
      && (!Judged(g) ==> g.streak.value == Carried(TakenUp(s, rows, r.contract)))
      && (Judged(g) && g.relation == Some(Improved) ==> g.streak.value == 0)
      && (Judged(g) && g.relation != Some(Improved) ==> CountsOn(Heard(s, rows, KeyOf(s, r.contract)), g.streak.value))
  {
    JudgedIff(s, rows, r, compatibility);
    StreakOfExactly(s, rows, r);
    RecordView(s, rows, r, compatibility);
    hide Record, Judge, Judged, StreakOf, TakenUp, CountsOn, Heard, KeyOf;
  }

  // ---- the seal ------------------------------------------------------------

  /** Two gates that count and carry the same observation digest say the same: a stored
      gate cannot be changed in any of these without changing the digest. */
  lemma {:induction false} SealFixesGate(s: Settings, g: Gate, h: Gate)
    requires Eligible(s, g) && Eligible(s, h) && g.observationSha == h.observationSha
    ensures g.contract == h.contract && g.highWater == h.highWater && g.highWaterSha == h.highWaterSha
    ensures g.streak == h.streak && g.stalled == h.stalled && g.moved == h.moved
    ensures g.comparability == h.comparability && g.provenance == h.provenance && g.separation == h.separation
    ensures g.migrationObserved == h.migrationObserved && g.migrationStatus == h.migrationStatus
    ensures g.migrationObserved ==> g.receipt == h.receipt
    ensures g.migrationObserved ==> g.scopeKey == h.scopeKey
    ensures g.observation == h.observation
  {
    hide BindingValid, DurableProjection.Project;
  }

  /** What the seal vouches for besides: the evidence and the verdict as stored, and a
      receipt for this very transition. */
  lemma {:induction false} SealVouches(s: Settings, g: Gate)
    requires Eligible(s, g)
    ensures g.observation.Some? && g.compatibility.Some?
    ensures var o := g.observation.value; var evidence := OfJson(DurableProjection.Project(s.policy, Dict(g.verification), ""));
      && g.observationSha == OfObservation(o)
      && o.contract == g.contract && o.verificationSha == evidence && o.valueSha == OfValue(g.contract, o.value)
      && g.highWaterSha == OfValue(g.contract, g.highWater)
      && o.compatibilitySha == Some(OfJson(DurableProjection.Project(s.policy, Dict(g.compatibility.value), "")))
      && (g.migrationObserved ==>
            exists from :: from != g.contract.basisId && o.priorObservation.Some? && o.priorLineage.Some?
              && g.receipt == Some(Receipt(
                   g.contract.metricId, from, g.contract.basisId, o.priorObservation.value,
                   OfInput(g.contract, o.value, o.binding, evidence), o.priorLineage.value, g.scopeKey,
                   OfJson(Dict(o.binding)), evidence, true)))
  {
    hide BindingValid, DurableProjection.Project;
    if g.migrationObserved {
      var x := g.receipt.value;
      assert x.oldBasis != g.contract.basisId;
    }
  }
}
