/** Which recurrence records are accepted, stated as what they may say. */
module RecurrenceRules {
  import opened Json
  import opened Text
  import opened Recurrence

  /** An identifier: a text whose trimmed form is not empty, not too long and free of
      blanks, control characters and slashes. */
  predicate Named(j: Json) {
    && j.Str? && Strip(j.s) != "" && |Strip(j.s)| < 256
    && forall c :: c in Strip(j.s) ==> c > ' ' && c != '/' && c != '\\'
  }

  /** A list of identifiers, each once. */
  predicate AllNamed(j: Json) {
    && j.List? && |j.items| > 0 && (forall i :: 0 <= i < |j.items| ==> Named(j.items[i]))
    && forall i, k :: 0 <= i < k < |j.items| ==> j.items[i] != j.items[k]
  }

  predicate Digested(env: Env, j: Json) {
    var t := Label(env, j);
    |t| == 64 && forall c :: c in t ==> c in "0123456789abcdef"
  }

  predicate Counted(j: Json) { j.Int? && j.i >= 0 }

  predicate FullyNamed(d: Identity) { Named(d.root) && Named(d.relation) && Named(d.scope) }

  /** Which deltas a record may carry. A cosmetic delta may not claim to affect the
      violated relation; a material one must, and must be bound and evidenced. */
  predicate DeltaAllowed(env: Env, f: DeltaField) {
    match f
    case NoDelta => true
    case OtherDelta => false
    case TheDelta(d, receipt) =>
      var kind, effect := Label(env, d.classification), Label(env, d.effect);
      && Named(d.deltaId) && Named(d.rationaleId)
      && effect in {"affects_violated_relation", "does_not_affect", "not_evaluated"}
      && (kind == "not_evaluated"
          || (kind == "cosmetic" && effect != "affects_violated_relation")
          || (kind == "material" && Material(env, d, receipt)))
  }

  /** A material delta: exactly its fields, the three premises stated, rationale and
      content digested, differences named, and a receipt over all of it. */
  predicate Material(env: Env, d: Delta, receipt: Json) {
    && Label(env, d.effect) == "affects_violated_relation"
    && d.exact && d.authorityChanged.Bool? && d.externalChanged.Bool? && d.toolchainChanged.Bool?
    && Digested(env, d.rationaleDigest) && Digested(env, d.contentDigest) && AllNamed(d.differences)
    && Digested(env, receipt) && receipt == Str(env.deltaDigest(d))
  }

  predicate Lineal(kind: string) { kind == "split" || kind == "merge" || kind == "reclassification" || kind == "correction" }

  /** Which transitions: none, or a complete one whose aggregate does not fall below its
      lower bound; a correction must name its attempt and increment its revision. */
  predicate TransitionAllowed(env: Env, f: TransitionField) {
    match f
    case NoTransition => true
    case OtherTransition => false
    case TheTransition(t) =>
      || Label(env, t.kind) == "none"
      || (&& Lineal(Label(env, t.kind)) && Named(t.id) && AllNamed(t.parents) && AllNamed(t.children)
          && Counted(t.lowerBound) && Counted(t.aggregate) && t.aggregate.i >= t.lowerBound.i
          && (Label(env, t.kind) == "correction" ==>
                Named(t.logicalAttempt) && t.revision.Int? && t.supersedes.Int? && t.revision.i - t.supersedes.i == 1))
  }

  function Kind(env: Env, f: TransitionField): string {
    match f case TheTransition(t) => Label(env, t.kind) case _ => "none"
  }

  predicate Bound(env: Env, d: Identity, digest: Json) {
    FullyNamed(d) && Digested(env, digest) && digest == Str(env.rootDigest(d))
  }

  /** Whether the record says anything about what came before. */
  predicate Succeeds(r: Record) {
    !(r.priorRootCount == Null && r.prior.root == Null && r.prior.relation == Null && r.prior.scope == Null && r.priorDigest == Null)
  }

  /** A change of root goes with a transition that connects the two. */
  predicate ChangeAllowed(env: Env, r: Record) {
    Succeeds(r) ==>
      && Bound(env, r.prior, r.priorDigest)
      && (r.declaredUnchanged == Bool(true) ==> r.current == r.prior) && (r.declaredUnchanged == Bool(false) ==> r.current != r.prior)
      && (r.current != r.prior ==>
            && Kind(env, r.transition) != "none"
            && r.transition.TheTransition? && r.transition.t.parents.List? && r.transition.t.children.List?
            && r.prior.root in r.transition.t.parents.items && r.current.root in r.transition.t.children.items)
  }

  /** A count falls only with a changed root or a material delta, and under a transition
      only down to what its aggregate still covers; the debt of a binding that was not
      evaluated grows. */
  predicate CountsAllowed(env: Env, r: Record) {
    && (Counted(r.priorRootCount) && r.rootCount.Int? && r.rootCount.i < r.priorRootCount.i ==>
          && ((Succeeds(r) && r.current != r.prior)
              || (r.delta.TheDelta? && Label(env, r.delta.body.classification) == "material" && Material(env, r.delta.body, r.delta.receipt)))
          && (Lineal(Kind(env, r.transition)) ==>
                r.transition.TheTransition? && Counted(r.transition.t.aggregate) && r.transition.t.aggregate.i >= r.priorRootCount.i))
    && (r.bindingStatus == Str("not_evaluated") && Counted(r.priorDebt) && r.debt.Int? ==> r.debt.i > r.priorDebt.i)
  }

  /** What an accepted record says. */
  predicate Acceptable(env: Env, r: Record) {
    && Label(env, r.applicability) == "applicable"
    && Named(r.facet) && Named(r.family)
    && Counted(r.rootCount) && Counted(r.facetCount) && Counted(r.attemptCount) && Counted(r.debt)
    && (r.priorRootCount == Null || Counted(r.priorRootCount)) && (r.priorDebt == Null || Counted(r.priorDebt))
    && Bound(env, r.current, r.digest)
    && DeltaAllowed(env, r.delta) && TransitionAllowed(env, r.transition) && ChangeAllowed(env, r) && CountsAllowed(env, r)
  }

  // ---- the findings say the same -------------------------------------------

  lemma NamedIff(j: Json)
    ensures Named(j) <==> IsOpaque(j)
  {
    if j.Str? {
      var t := Strip(j.s);
      assert (forall c :: c in t ==> c > ' ' && c != '/' && c != '\\') <==>
             forall i :: 0 <= i < |t| ==> t[i] as int > 0x20 && t[i] != '/' && t[i] != '\\' by {
        if forall c :: c in t ==> c > ' ' && c != '/' && c != '\\' { assert forall i :: 0 <= i < |t| ==> t[i] in t; }
      }
    }
  }

  lemma AllNamedIff(j: Json)
    ensures AllNamed(j) <==> IsIds(j)
  {
    hide IsOpaque, Named;
    forall x ensures Named(x) <==> IsOpaque(x) { NamedIff(x); }
  }

  lemma DigestedIff(env: Env, j: Json)
    ensures Digested(env, j) <==> IsHash(Label(env, j))
  {
    var t := Label(env, j);
    hide Label;
    forall c: char ensures c in "0123456789abcdef" <==> '0' <= c <= '9' || 'a' <= c <= 'f' { HexDigit(c); }
    assert (forall c :: c in t ==> c in "0123456789abcdef") <==> forall i :: 0 <= i < |t| ==> t[i] in "0123456789abcdef";
  }

  lemma HexDigit(c: char)
    ensures c in "0123456789abcdef" <==> '0' <= c <= '9' || 'a' <= c <= 'f'
  {
    var s := "0123456789abcdef";
    assert s[0] == '0' && s[1] == '1' && s[2] == '2' && s[3] == '3' && s[4] == '4' && s[5] == '5' && s[6] == '6' && s[7] == '7';
    assert s[8] == '8' && s[9] == '9' && s[10] == 'a' && s[11] == 'b' && s[12] == 'c' && s[13] == 'd' && s[14] == 'e' && s[15] == 'f';
  }

  lemma {:induction false} DeltaIff(env: Env, f: DeltaField)
    ensures DeltaFindings(env, f) == [] <==> DeltaAllowed(env, f)
    ensures MaterialReset(env, f) <==>
            f.TheDelta? && Label(env, f.body.classification) == "material" && Material(env, f.body, f.receipt)
  {
    hide IsOpaque, Named, IsHash, Digested, IsIds, AllNamed, Label;
    forall x ensures Named(x) <==> IsOpaque(x) { NamedIff(x); }
    forall x ensures AllNamed(x) <==> IsIds(x) { AllNamedIff(x); }
    forall x ensures Digested(env, x) <==> IsHash(Label(env, x)) { DigestedIff(env, x); }
    assert |"material"| == 8 == |"cosmetic"| && |"not_evaluated"| == 13 && "material"[0] == 'm' && "cosmetic"[0] == 'c';
  }

  lemma {:induction false} TransitionIff(env: Env, f: TransitionField)
    ensures TransitionFindings(env, f) == [] <==> TransitionAllowed(env, f)
    ensures KindOf(env, f) == Kind(env, f) && (Kind(env, f) in LineageKinds() <==> Lineal(Kind(env, f)))
  {
    hide IsOpaque, Named, IsIds, AllNamed, Label;
    forall x ensures Named(x) <==> IsOpaque(x) { NamedIff(x); }
    forall x ensures AllNamed(x) <==> IsIds(x) { AllNamedIff(x); }
    assert |"none"| == 4 && |"split"| == 5 == |"merge"| && |"reclassification"| == 16 && |"correction"| == 10;
  }

  lemma {:induction false} IdentityIff(env: Env, r: Record)
    ensures IdentityFindings(env, r) == [] <==> Bound(env, r.current, r.digest) && ChangeAllowed(env, r)
    ensures Bound(env, r.current, r.digest) && ChangeAllowed(env, r) ==> (Comparable(env, r) <==> Succeeds(r))
  {
    hide IsOpaque, Named, IsHash, Digested, Label, Kind, KindOf;
    forall x ensures Named(x) <==> IsOpaque(x) { NamedIff(x); }
    forall x ensures Digested(env, x) <==> IsHash(Label(env, x)) { DigestedIff(env, x); }
    TransitionIff(env, r.transition);
    assert PriorRequired(r) <==> Succeeds(r);
  }

  lemma {:induction false} CountsIff(env: Env, r: Record)
    requires Counted(r.rootCount) && Counted(r.debt) && (Comparable(env, r) <==> Succeeds(r))
    ensures CountFindings(env, r) == [] <==> CountsAllowed(env, r)
  {
    hide IsHash, Digested, Label, Kind, KindOf, Comparable, Succeeds, MaterialReset, Material, LineageKinds, Lineal;
    TransitionIff(env, r.transition);
    DeltaIff(env, r.delta);
  }

  lemma {:induction false} CoreIff(r: Record)
    ensures CoreFindings(r) == [] <==>
            && FullyNamed(r.current) && Named(r.facet) && Named(r.family)
            && Counted(r.rootCount) && Counted(r.facetCount) && Counted(r.attemptCount) && Counted(r.debt)
            && (r.priorRootCount == Null || Counted(r.priorRootCount)) && (r.priorDebt == Null || Counted(r.priorDebt))
  {
    hide IsOpaque, Named;
    forall x ensures Named(x) <==> IsOpaque(x) { NamedIff(x); }
  }

  /** A record is accepted exactly if it says only what it may. */
  lemma {:induction false} AcceptedIff(env: Env, r: Record)
    ensures Accepted(env, r) <==> Acceptable(env, r)
  {
    hide CoreFindings, DeltaFindings, TransitionFindings, IdentityFindings, CountFindings, Label, Named, Digested, DeltaAllowed,
      TransitionAllowed, ChangeAllowed, CountsAllowed, Succeeds;
    CoreIff(r);
    DeltaIff(env, r.delta);
    TransitionIff(env, r.transition);
    IdentityIff(env, r);
    if Counted(r.rootCount) && Counted(r.debt) && Bound(env, r.current, r.digest) && ChangeAllowed(env, r) { CountsIff(env, r); }
    assert "applicable"[0] == 'a' && "not_applicable"[0] == 'n';
  }

  // ---- every finding by its code -------------------------------------------

  predicate CoreObjects(r: Record, code: string) {
    || (code == "recurrence_identity_ids_invalid" && !(FullyNamed(r.current) && Named(r.facet) && Named(r.family)))
    || (code == "recurrence_identity_counts_invalid"
        && !(Counted(r.rootCount) && Counted(r.facetCount) && Counted(r.attemptCount) && Counted(r.debt)))
    || (code == "recurrence_prior_root_count_invalid" && r.priorRootCount != Null && !Counted(r.priorRootCount))
    || (code == "recurrence_prior_evaluation_debt_invalid" && r.priorDebt != Null && !Counted(r.priorDebt))
  }

  /** A delta says what it is and whether it matters, each in one of three words. */
  predicate WellWorded(kind: string, effect: string) {
    && (kind == "material" || kind == "cosmetic" || kind == "not_evaluated")
    && (effect == "affects_violated_relation" || effect == "does_not_affect" || effect == "not_evaluated")
  }

  predicate BoundDelta(env: Env, d: Delta, receipt: Json) {
    && d.exact && d.authorityChanged.Bool? && d.externalChanged.Bool? && d.toolchainChanged.Bool?
    && Digested(env, d.rationaleDigest) && Digested(env, receipt) && receipt == Str(env.deltaDigest(d))
  }

  predicate DeltaObjects(env: Env, f: DeltaField, code: string) {
    match f
    case NoDelta => false
    case OtherDelta => code == "recurrence_input_delta_invalid"
    case TheDelta(d, receipt) =>
      var kind, effect := Label(env, d.classification), Label(env, d.effect);
      || (code == "recurrence_input_delta_classification_invalid" && !WellWorded(kind, effect))
      || (code == "recurrence_input_delta_identity_invalid" && !(Named(d.deltaId) && Named(d.rationaleId)))
      || (code == "recurrence_cosmetic_delta_overclaimed" && kind == "cosmetic" && effect == "affects_violated_relation")
      || (kind == "material"
          && ((code == "recurrence_material_delta_binding_invalid" && !BoundDelta(env, d, receipt))
              || (code == "recurrence_material_delta_evidence_missing" && !(Digested(env, d.contentDigest) && AllNamed(d.differences)))
              || (code == "recurrence_material_delta_relation_unproven" && effect != "affects_violated_relation")))
  }

  predicate Complete(t: Transition) {
    Named(t.id) && AllNamed(t.parents) && AllNamed(t.children) && Counted(t.lowerBound) && Counted(t.aggregate)
  }

  predicate Increments(t: Transition) {
    Named(t.logicalAttempt) && t.revision.Int? && t.supersedes.Int? && t.revision.i - t.supersedes.i == 1
  }

  predicate TransitionObjects(env: Env, f: TransitionField, code: string) {
    match f
    case NoTransition => false
    case OtherTransition => code == "recurrence_lineage_transition_invalid"
    case TheTransition(t) =>
      var kind := Label(env, t.kind);
      || (code == "recurrence_lineage_transition_kind_invalid" && kind != "none" && !Lineal(kind))
      || (Lineal(kind)
          && ((code == "recurrence_lineage_transition_incomplete" && !Complete(t))
              || (code == "recurrence_lineage_attempts_lost" && Complete(t) && t.lowerBound.i > t.aggregate.i)
              || (code == "recurrence_correction_lineage_invalid" && kind == "correction" && !Increments(t))))
  }

  /** The transition goes from the prior root to the current one. */
  predicate Connects(r: Record) {
    && r.transition.TheTransition? && r.transition.t.parents.List? && r.transition.t.children.List?
    && r.prior.root in r.transition.t.parents.items && r.current.root in r.transition.t.children.items
  }

  predicate BothBound(env: Env, r: Record) { Bound(env, r.current, r.digest) && Succeeds(r) && Bound(env, r.prior, r.priorDigest) }

  predicate IdentityObjects(env: Env, r: Record, code: string) {
    || (code == "recurrence_root_identity_binding_invalid" && !Bound(env, r.current, r.digest))
    || (code == "recurrence_prior_root_identity_binding_invalid" && Succeeds(r) && !Bound(env, r.prior, r.priorDigest))
    || (BothBound(env, r)
        && ((code == "recurrence_root_identity_echo_mismatch"
             && ((r.declaredUnchanged == Bool(true) && r.current != r.prior) || (r.declaredUnchanged == Bool(false) && r.current == r.prior)))
            || (code == "recurrence_root_identity_changed_without_lineage" && r.current != r.prior && Kind(env, r.transition) == "none")
            || (code == "recurrence_root_lineage_binding_mismatch"
                && r.current != r.prior && Kind(env, r.transition) != "none" && !Connects(r))))
  }

  predicate Fell(r: Record) { Counted(r.rootCount) && Counted(r.priorRootCount) && r.rootCount.i < r.priorRootCount.i }

  /** The count fell though the root is the same and no material delta explains it. */
  predicate FellUnexplained(env: Env, r: Record) {
    && Fell(r) && !(BothBound(env, r) && r.current != r.prior)
    && !(r.delta.TheDelta? && Label(env, r.delta.body.classification) == "material" && Material(env, r.delta.body, r.delta.receipt))
  }

  /** The count fell below what the transition carries over. */
  predicate FellUncovered(env: Env, r: Record) {
    && Fell(r) && Lineal(Kind(env, r.transition))
    && !(r.transition.TheTransition? && Counted(r.transition.t.aggregate) && r.transition.t.aggregate.i >= r.priorRootCount.i)
  }

  predicate DebtStands(r: Record) {
    r.bindingStatus == Str("not_evaluated") && Counted(r.priorDebt) && Counted(r.debt) && r.debt.i <= r.priorDebt.i
  }

  predicate CountObjects(env: Env, r: Record, code: string) {
    || (FellUnexplained(env, r) && code == "recurrence_root_count_reset_without_material_delta")
    || (FellUncovered(env, r) && code == "recurrence_lineage_count_reset")
    || (DebtStands(r) && code == "recurrence_evaluation_debt_not_incremented")
  }

  /** What each finding objects to. */
  predicate Objects(env: Env, r: Record, code: string) {
    var applies := Label(env, r.applicability);
    || (code == "recurrence_identity_applicability_invalid" && applies != "applicable" && applies != "not_applicable")
    || (applies != "not_applicable"
        && (CoreObjects(r, code) || DeltaObjects(env, r.delta, code) || TransitionObjects(env, r.transition, code)
            || IdentityObjects(env, r, code) || CountObjects(env, r, code)))
  }

  /** Findings in a row, each under its condition. */
  lemma InOrder(a: bool, b: bool, c: bool, x: string, y: string, z: string, code: string)
    ensures code in When(a, x) + When(b, y) + When(c, z) <==> (a && code == x) || (b && code == y) || (c && code == z)
  {
  }

  lemma CoreExactly(r: Record, code: string)
    ensures code in CoreFindings(r) <==> CoreObjects(r, code)
  {
    hide IsOpaque, Named;
    forall x ensures Named(x) <==> IsOpaque(x) { NamedIff(x); }
  }

  lemma {:induction false} DeltaExactly(env: Env, f: DeltaField, code: string)
    ensures code in DeltaFindings(env, f) <==> DeltaObjects(env, f, code)
  {
    hide IsOpaque, Named, IsHash, Digested, IsIds, AllNamed, Label;
    forall x ensures Named(x) <==> IsOpaque(x) { NamedIff(x); }
    forall x ensures AllNamed(x) <==> IsIds(x) { AllNamedIff(x); }
    forall x ensures Digested(env, x) <==> IsHash(Label(env, x)) { DigestedIff(env, x); }
  }

  lemma {:induction false} TransitionExactly(env: Env, f: TransitionField, code: string)
    ensures code in TransitionFindings(env, f) <==> TransitionObjects(env, f, code)
  {
    hide IsOpaque, Named, IsIds, AllNamed, Label;
    forall x ensures Named(x) <==> IsOpaque(x) { NamedIff(x); }
    forall x ensures AllNamed(x) <==> IsIds(x) { AllNamedIff(x); }
    assert |"none"| == 4 && |"split"| == 5 == |"merge"| && |"reclassification"| == 16 && |"correction"| == 10;
  }

  lemma BoundIff(env: Env, d: Identity, digest: Json)
    ensures Bound(env, d, digest) <==> IdentityBound(env, d, digest)
  {
    hide IsOpaque, Named, IsHash, Digested, Label;
    forall x ensures Named(x) <==> IsOpaque(x) { NamedIff(x); }
    DigestedIff(env, digest);
  }

  lemma LinksIff(r: Record)
    ensures Links(r.transition, r.prior, r.current) <==> Connects(r)
  {
  }

  lemma {:induction false} IdentityExactly(env: Env, r: Record, code: string)
    ensures code in IdentityFindings(env, r) <==> IdentityObjects(env, r, code)
    ensures Comparable(env, r) <==> BothBound(env, r)
  {
    hide Bound, IdentityBound, Kind, KindOf, Links, Connects;
    assert Links(r.transition, r.prior, r.current) <==> Connects(r) by { LinksIff(r); }
    BoundIff(env, r.current, r.digest);
    BoundIff(env, r.prior, r.priorDigest);
    TransitionIff(env, r.transition);
    assert PriorRequired(r) <==> Succeeds(r);
  }

  lemma {:induction false} FallsIff(env: Env, r: Record)
    ensures FellUnexplained(env, r) <==> Falls(r) && !(Comparable(env, r) && r.current != r.prior) && !MaterialReset(env, r.delta)
    ensures FellUncovered(env, r) <==> Falls(r) && KindOf(env, r.transition) in LineageKinds() && !AggregateCovers(r)
    ensures DebtStands(r) <==>
      r.bindingStatus == Str("not_evaluated") && IsCount(r.priorDebt) && IsCount(r.debt) && r.debt.i <= r.priorDebt.i
  {
    hide Label, Kind, KindOf, Comparable, BothBound, MaterialReset, Material, LineageKinds, Lineal;
    TransitionIff(env, r.transition);
    DeltaIff(env, r.delta);
    IdentityExactly(env, r, "");
  }

  lemma {:induction false} CountExactly(env: Env, r: Record, code: string)
    ensures code in CountFindings(env, r) <==> CountObjects(env, r, code)
  {
    hide KindOf, Comparable, MaterialReset, LineageKinds, When, FellUnexplained, FellUncovered, AggregateCovers, DebtStands, Falls;
    FallsIff(env, r);
    InOrder(FellUnexplained(env, r), FellUncovered(env, r), DebtStands(r),
            "recurrence_root_count_reset_without_material_delta", "recurrence_lineage_count_reset",
            "recurrence_evaluation_debt_not_incremented", code);
  }

  /** A record gets exactly the findings that object to it. */
  lemma {:induction false} FindingsExactly(env: Env, r: Record, code: string)
    ensures code in Findings(env, r) <==> Objects(env, r, code)
  {
    hide CoreFindings, DeltaFindings, TransitionFindings, IdentityFindings, CountFindings, Label, CoreObjects, DeltaObjects,
      TransitionObjects, IdentityObjects, CountObjects;
    CoreExactly(r, code);
    DeltaExactly(env, r.delta, code);
    TransitionExactly(env, r.transition, code);
    IdentityExactly(env, r, code);
    CountExactly(env, r, code);
  }
}
