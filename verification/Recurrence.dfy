/** The recurrence contract: when a root's recurrence count may fall, and what that
    means for whole chains of accepted records. */
module Recurrence {
  import opened Json
  import opened Text

  // ---- records -------------------------------------------------------------

  /** The violated relation a count belongs to. */
  datatype Identity = Identity(root: Json, relation: Json, scope: Json)

  /** A supplied input delta; `exact` says that its keys are exactly the material
      delta's keys. The receipt is kept apart from the body it is computed over. */
  datatype Delta = Delta(
    exact: bool, classification: Json, effect: Json, deltaId: Json, rationaleId: Json, rationaleDigest: Json,
    contentDigest: Json, differences: Json, authorityChanged: Json, externalChanged: Json, toolchainChanged: Json)

  datatype DeltaField = NoDelta | OtherDelta | TheDelta(body: Delta, receipt: Json)

  datatype Transition = Transition(
    kind: Json, id: Json, parents: Json, children: Json, lowerBound: Json, aggregate: Json,
    logicalAttempt: Json, revision: Json, supersedes: Json)

  datatype TransitionField = NoTransition | OtherTransition | TheTransition(t: Transition)

  /** A caller's record; a missing field reads as null. */
  datatype Record = Record(
    applicability: Json, current: Identity, digest: Json, prior: Identity, priorDigest: Json,
    facet: Json, family: Json, rootCount: Json, priorRootCount: Json, facetCount: Json, attemptCount: Json,
    debt: Json, priorDebt: Json, declaredUnchanged: Json, bindingStatus: Json,
    delta: DeltaField, transition: TransitionField)

  /** `str`, and the SHA-256 digests of the canonical JSON of an identity and of a
      delta body. */
  datatype Env = Env(show: Json -> string, rootDigest: Identity -> string, deltaDigest: Delta -> string)

  predicate IsHash(s: string) {
    |s| == 64 && forall i :: 0 <= i < |s| ==> '0' <= s[i] <= '9' || 'a' <= s[i] <= 'f'
  }

  function Label(env: Env, j: Json): string { if Truthy(j) then env.show(j) else "" }

  predicate OpaqueText(s: string) {
    1 <= |s| <= 255 && forall i :: 0 <= i < |s| ==> s[i] as int > 0x20 && s[i] != '/' && s[i] != '\\'
  }

  predicate IsOpaque(j: Json) { j.Str? && OpaqueText(Strip(j.s)) }

  predicate IsCount(j: Json) { j.Int? && j.i >= 0 }

  predicate IsIds(j: Json) {
    && j.List? && j.items != [] && (forall i :: 0 <= i < |j.items| ==> IsOpaque(j.items[i]))
    && forall i, k :: 0 <= i < k < |j.items| ==> j.items[i] != j.items[k]
  }

  predicate Lists(j: Json, x: Json) { j.List? && x in j.items }

  predicate OpaqueIdentity(d: Identity) { IsOpaque(d.root) && IsOpaque(d.relation) && IsOpaque(d.scope) }

  // ---- the validators ------------------------------------------------------

  function When(wrong: bool, code: string): seq<string> { if wrong then [code] else [] }

  function CoreFindings(r: Record): seq<string> {
    When(!OpaqueIdentity(r.current) || !IsOpaque(r.facet) || !IsOpaque(r.family), "recurrence_identity_ids_invalid")
    + When(!IsCount(r.rootCount) || !IsCount(r.facetCount) || !IsCount(r.attemptCount) || !IsCount(r.debt),
           "recurrence_identity_counts_invalid")
    + When(r.priorRootCount != Null && !IsCount(r.priorRootCount), "recurrence_prior_root_count_invalid")
    + When(r.priorDebt != Null && !IsCount(r.priorDebt), "recurrence_prior_evaluation_debt_invalid")
  }

  predicate DeltaBound(env: Env, d: Delta, receipt: Json) {
    && d.exact && d.authorityChanged.Bool? && d.externalChanged.Bool? && d.toolchainChanged.Bool?
    && IsHash(Label(env, d.rationaleDigest))
    && IsHash(Label(env, receipt)) && receipt == Str(env.deltaDigest(d))
  }

  predicate DeltaEvidenced(env: Env, d: Delta) {
    IsHash(Label(env, d.contentDigest)) && IsIds(d.differences)
  }

  function DeltaFindings(env: Env, f: DeltaField): seq<string> {
    match f
    case NoDelta => []
    case OtherDelta => ["recurrence_input_delta_invalid"]
    case TheDelta(d, receipt) =>
      var kind, effect := Label(env, d.classification), Label(env, d.effect);
      When(kind !in {"material", "cosmetic", "not_evaluated"}
           || effect !in {"affects_violated_relation", "does_not_affect", "not_evaluated"},
           "recurrence_input_delta_classification_invalid")
      + When(!IsOpaque(d.deltaId) || !IsOpaque(d.rationaleId), "recurrence_input_delta_identity_invalid")
      + When(kind == "cosmetic" && effect == "affects_violated_relation", "recurrence_cosmetic_delta_overclaimed")
      + (if kind != "material" then []
         else
           When(!DeltaBound(env, d, receipt), "recurrence_material_delta_binding_invalid")
           + When(!DeltaEvidenced(env, d), "recurrence_material_delta_evidence_missing")
           + When(effect != "affects_violated_relation", "recurrence_material_delta_relation_unproven"))
  }

  /** A material delta, fully bound and evidenced, that affects the violated relation. */
  predicate MaterialReset(env: Env, f: DeltaField) {
    && f.TheDelta? && Label(env, f.body.classification) == "material"
    && DeltaBound(env, f.body, f.receipt) && DeltaEvidenced(env, f.body)
    && Label(env, f.body.effect) == "affects_violated_relation"
  }

  function LineageKinds(): set<string> { {"split", "merge", "reclassification", "correction"} }

  function KindOf(env: Env, f: TransitionField): string {
    if f.TheTransition? then Label(env, f.t.kind) else "none"
  }

  predicate TransitionComplete(t: Transition) {
    IsOpaque(t.id) && IsIds(t.parents) && IsIds(t.children) && IsCount(t.lowerBound) && IsCount(t.aggregate)
  }

  function TransitionFindings(env: Env, f: TransitionField): seq<string> {
    match f
    case NoTransition => []
    case OtherTransition => ["recurrence_lineage_transition_invalid"]
    case TheTransition(t) =>
      var kind := Label(env, t.kind);
      if kind != "none" && kind !in LineageKinds() then ["recurrence_lineage_transition_kind_invalid"]
      else if kind == "none" then []
      else
        (if !TransitionComplete(t) then ["recurrence_lineage_transition_incomplete"]
         else When(t.aggregate.i < t.lowerBound.i, "recurrence_lineage_attempts_lost"))
        + When(kind == "correction" &&
               !(IsOpaque(t.logicalAttempt) && t.revision.Int? && t.supersedes.Int? && t.revision.i == t.supersedes.i + 1),
               "recurrence_correction_lineage_invalid")
  }

  predicate IdentityBound(env: Env, d: Identity, digest: Json) {
    OpaqueIdentity(d) && IsHash(Label(env, digest)) && digest == Str(env.rootDigest(d))
  }

  predicate PriorRequired(r: Record) {
    r.priorRootCount != Null || r.prior != Identity(Null, Null, Null) || r.priorDigest != Null
  }

  /** Both identities are bound, so that they can be compared. */
  predicate Comparable(env: Env, r: Record) {
    IdentityBound(env, r.current, r.digest) && PriorRequired(r) && IdentityBound(env, r.prior, r.priorDigest)
  }

  predicate Links(f: TransitionField, before: Identity, after: Identity) {
    f.TheTransition? && Lists(f.t.parents, before.root) && Lists(f.t.children, after.root)
  }

  function IdentityFindings(env: Env, r: Record): seq<string> {
    var kind := KindOf(env, r.transition);
    When(!IdentityBound(env, r.current, r.digest), "recurrence_root_identity_binding_invalid")
    + When(PriorRequired(r) && !IdentityBound(env, r.prior, r.priorDigest), "recurrence_prior_root_identity_binding_invalid")
    + (if !Comparable(env, r) then []
       else
         When(r.declaredUnchanged.Bool? && r.declaredUnchanged.b != (r.current == r.prior),
              "recurrence_root_identity_echo_mismatch")
         + When(r.current != r.prior && kind == "none", "recurrence_root_identity_changed_without_lineage")
         + When(r.current != r.prior && kind != "none" && !Links(r.transition, r.prior, r.current),
                "recurrence_root_lineage_binding_mismatch"))
  }

  predicate Falls(r: Record) {
    IsCount(r.rootCount) && IsCount(r.priorRootCount) && r.rootCount.i < r.priorRootCount.i
  }

  predicate AggregateCovers(r: Record) {
    && r.transition.TheTransition? && IsCount(r.transition.t.aggregate)
    && IsCount(r.priorRootCount) && r.transition.t.aggregate.i >= r.priorRootCount.i
  }

  function CountFindings(env: Env, r: Record): seq<string> {
    var changed := Comparable(env, r) && r.current != r.prior;
    When(Falls(r) && !changed && !MaterialReset(env, r.delta), "recurrence_root_count_reset_without_material_delta")
    + When(Falls(r) && KindOf(env, r.transition) in LineageKinds() && !AggregateCovers(r), "recurrence_lineage_count_reset")
    + When(r.bindingStatus == Str("not_evaluated") && IsCount(r.priorDebt) && IsCount(r.debt) && r.debt.i <= r.priorDebt.i,
           "recurrence_evaluation_debt_not_incremented")
  }

  function Findings(env: Env, r: Record): seq<string> {
    When(Label(env, r.applicability) !in {"applicable", "not_applicable"}, "recurrence_identity_applicability_invalid")
    + if Label(env, r.applicability) == "not_applicable" then []
      else
        CoreFindings(r) + DeltaFindings(env, r.delta) + TransitionFindings(env, r.transition)
        + IdentityFindings(env, r) + CountFindings(env, r)
  }

  /** The record may be made durable. */
  predicate Accepted(env: Env, r: Record) {
    Label(env, r.applicability) == "applicable" && Findings(env, r) == []
  }

  // ---- one step ------------------------------------------------------------

  /** A change of root that a lineage transition connects, carrying at least the
      prior count over as its aggregate. */
  predicate LinkedChange(env: Env, r: Record) {
    && r.current != r.prior && KindOf(env, r.transition) in LineageKinds()
    && Links(r.transition, r.prior, r.current) && AggregateCovers(r)
  }

  /** Why a count may fall. */
  predicate Excused(env: Env, r: Record) {
    && (MaterialReset(env, r.delta) || LinkedChange(env, r))
    && (KindOf(env, r.transition) in LineageKinds() ==> AggregateCovers(r))
  }

  lemma AcceptedParts(env: Env, r: Record)
    requires Accepted(env, r)
    ensures CoreFindings(r) == [] == DeltaFindings(env, r.delta) && TransitionFindings(env, r.transition) == []
    ensures IdentityFindings(env, r) == [] == CountFindings(env, r)
  {
  }

  /** In an accepted record with a prior count, the count falls only if excused. */
  lemma FallsOnlyExcused(env: Env, r: Record)
    requires Accepted(env, r) && Falls(r)
    ensures Excused(env, r)
  {
  }

  /** Exactly: restating an accepted record with another count leaves it accepted if
      and only if the count has not fallen or the record is excused. */
  lemma FallAllowedIff(env: Env, r: Record, n: nat)
    requires Accepted(env, r) && IsCount(r.priorRootCount)
    ensures Accepted(env, r.(rootCount := Int(n))) <==> n >= r.priorRootCount.i || Excused(env, r)
  {
    hide DeltaFindings, TransitionFindings, IsHash, IsOpaque, IsIds, MaterialReset, OpaqueIdentity, IdentityBound;
    var r' := r.(rootCount := Int(n));
    AcceptedParts(env, r);
    assert PriorRequired(r) && Comparable(env, r);
    if Accepted(env, r') && Falls(r') {
      FallsOnlyExcused(env, r');
    }
    if n >= r.priorRootCount.i || Excused(env, r) {
      assert CountFindings(env, r') == [] && CoreFindings(r') == [];
    }
  }

  /** What acceptance says about the fields a chain is made of. */
  lemma AcceptedCounts(env: Env, r: Record)
    requires Accepted(env, r)
    ensures IsCount(r.rootCount) && IsCount(r.debt) && IdentityBound(env, r.current, r.digest)
    ensures r.bindingStatus == Str("not_evaluated") && IsCount(r.priorDebt) ==> r.debt.i > r.priorDebt.i
  {
  }

  // ---- chains --------------------------------------------------------------

  /** The next record quotes this one as its prior. */
  predicate Follows(a: Record, b: Record) {
    && b.prior == a.current && b.priorDigest == a.digest
    && b.priorRootCount == a.rootCount && b.priorDebt == a.debt
  }

  ghost predicate Chain(env: Env, rs: seq<Record>) {
    && (forall i :: 0 <= i < |rs| ==> Accepted(env, rs[i]))
    && forall i :: 0 < i < |rs| ==> Follows(rs[i - 1], rs[i])
  }

  lemma {:induction false} ChainCounts(env: Env, rs: seq<Record>)
    requires Chain(env, rs)
    ensures forall i :: 0 <= i < |rs| ==> IsCount(rs[i].rootCount) && IsCount(rs[i].debt)
  {
  }

  /** In every chain of accepted records a count can only be lower than an earlier one
      if some record in between was excused: by a fully bound material delta, or by a
      root change that a transition links and whose aggregate covers the count. */
  lemma {:induction false} LowerOnlyIfExcused(env: Env, rs: seq<Record>, i: nat, j: nat)
    requires Chain(env, rs) && i <= j < |rs| && IsCount(rs[i].rootCount) && IsCount(rs[j].rootCount)
    requires rs[j].rootCount.i < rs[i].rootCount.i
    ensures exists k :: i < k <= j && Falls(rs[k]) && Excused(env, rs[k])
    decreases j
  {
    hide Accepted, Excused, Falls, IsCount;
    ChainCounts(env, rs);
    assert forall k :: 0 <= k < |rs| ==> rs[k].rootCount.Int? by { CountsAreInts(rs); }
    if rs[j - 1].rootCount.i < rs[i].rootCount.i {
      LowerOnlyIfExcused(env, rs, i, j - 1);
    } else {
      assert Follows(rs[j - 1], rs[j]);
      assert Falls(rs[j]) by { FallsFrom(rs[j - 1], rs[j]); }
      FallsOnlyExcused(env, rs[j]);
    }
  }

  lemma CountsAreInts(rs: seq<Record>)
    requires forall k :: 0 <= k < |rs| ==> IsCount(rs[k].rootCount)
    ensures forall k :: 0 <= k < |rs| ==> rs[k].rootCount.Int?
  {
  }

  lemma FallsFrom(a: Record, b: Record)
    requires Follows(a, b) && IsCount(a.rootCount) && IsCount(b.rootCount) && b.rootCount.i < a.rootCount.i
    ensures Falls(b)
  {
  }

  /** Each not-evaluated record of a chain adds to the evaluation debt. */
  lemma {:induction false} DebtAccumulates(env: Env, rs: seq<Record>, i: nat, j: nat)
    requires Chain(env, rs) && i <= j < |rs|
    requires forall k :: i < k <= j ==> rs[k].bindingStatus == Str("not_evaluated")
    ensures rs[i].debt.Int? && rs[j].debt.Int? && rs[j].debt.i >= rs[i].debt.i + (j - i)
    decreases j
  {
    hide Accepted;
    ChainCounts(env, rs);
    if i < j {
      DebtAccumulates(env, rs, i, j - 1);
      assert Follows(rs[j - 1], rs[j]);
      AcceptedCounts(env, rs[j]);
    }
  }

  // ---- what the contract does not hold on to -------------------------------

  /** A first record, and one that reclassifies the previous identity. */
  function First(env: Env, d: Identity, count: nat): Record {
    Record(Str("applicable"), d, Str(env.rootDigest(d)), Identity(Null, Null, Null), Null,
           d.root, d.root, Int(count), Null, Int(0), Int(0), Int(0), Null, Null, Null, NoDelta, NoTransition)
  }

  function Reclassify(env: Env, before: Record, d: Identity, count: nat): Record {
    First(env, d, count).(
      prior := before.current, priorDigest := before.digest, priorRootCount := before.rootCount, priorDebt := before.debt,
      transition := TheTransition(Transition(
        Str("reclassification"), d.root, List([before.current.root]), List([d.root]), Int(0), before.rootCount,
        Null, Null, Null)))
  }

  /** `str` of a text is the text, digests look like digests. */
  ghost predicate Sensible(env: Env) {
    (forall s :: env.show(Str(s)) == s) && forall d :: IsHash(env.rootDigest(d))
  }

  lemma BoundHere(env: Env, d: Identity)
    requires Sensible(env) && OpaqueIdentity(d)
    ensures IdentityBound(env, d, Str(env.rootDigest(d)))
  {
  }

  lemma FromParts(env: Env, r: Record)
    requires Sensible(env) && r.applicability == Str("applicable")
    requires CoreFindings(r) == [] == DeltaFindings(env, r.delta) && TransitionFindings(env, r.transition) == []
    requires IdentityFindings(env, r) == [] == CountFindings(env, r)
    ensures Accepted(env, r)
  {
  }

  lemma FirstAccepted(env: Env, d: Identity, count: nat)
    requires Sensible(env) && OpaqueIdentity(d)
    ensures Accepted(env, First(env, d, count))
  {
    hide IsOpaque, IsHash, IdentityBound, Accepted;
    BoundHere(env, d);
    FromParts(env, First(env, d, count));
  }

  lemma {:induction false} ReclassifyAccepted(env: Env, before: Record, d: Identity, count: nat)
    requires Sensible(env) && OpaqueIdentity(d) && Accepted(env, before) && before.current != d
    ensures Accepted(env, Reclassify(env, before, d, count))
  {
    hide Accepted, IsOpaque, IdentityBound, CoreFindings, TransitionFindings, IdentityFindings, CountFindings,
      Sensible, IsHash;
    BoundHere(env, d);
    AcceptedCounts(env, before);
    BoundOpaque(env, before.current, before.digest);
    ReclassifyTransition(env, before, d, count);
    ReclassifyIdentity(env, before, d, count);
    assert CoreFindings(Reclassify(env, before, d, count)) == [] by { ReclassifyCore(env, before, d, count); }
    FromParts(env, Reclassify(env, before, d, count));
  }

  lemma BoundOpaque(env: Env, d: Identity, digest: Json)
    requires IdentityBound(env, d, digest)
    ensures OpaqueIdentity(d)
  {
  }

  lemma ReclassifyCore(env: Env, before: Record, d: Identity, count: nat)
    requires OpaqueIdentity(d) && IsCount(before.rootCount) && IsCount(before.debt)
    ensures CoreFindings(Reclassify(env, before, d, count)) == []
  {
  }

  lemma ReclassifyTransition(env: Env, before: Record, d: Identity, count: nat)
    requires Sensible(env) && OpaqueIdentity(d) && OpaqueIdentity(before.current) && IsCount(before.rootCount)
    ensures var r := Reclassify(env, before, d, count);
            TransitionFindings(env, r.transition) == [] && KindOf(env, r.transition) == "reclassification"
  {
  }

  lemma {:induction false} ReclassifyIdentity(env: Env, before: Record, d: Identity, count: nat)
    requires before.current != d && IsCount(before.rootCount)
    requires KindOf(env, Reclassify(env, before, d, count).transition) == "reclassification"
    requires IdentityBound(env, d, Str(env.rootDigest(d))) && IdentityBound(env, before.current, before.digest)
    ensures var r := Reclassify(env, before, d, count); IdentityFindings(env, r) == [] == CountFindings(env, r)
  {
    hide IdentityBound, KindOf, MaterialReset;
    assert |"reclassification"| == 16 && |"none"| == 4;
    var r := Reclassify(env, before, d, count);
    assert r.prior.root in r.transition.t.parents.items && r.current.root in r.transition.t.children.items;
  }

  /** The floor is only ever one step deep: relabelling a root and relabelling it
      back brings its own count from any value to zero, with every record accepted
      and no material delta. */
  lemma {:induction false} DetourClearsCount(env: Env, a: Identity, b: Identity, count: nat)
    requires Sensible(env) && OpaqueIdentity(a) && OpaqueIdentity(b) && a != b
    ensures var first := First(env, a, count);
            var away := Reclassify(env, first, b, 0);
            var back := Reclassify(env, away, a, 0);
      && Chain(env, [first, away, back]) && back.current == first.current
      && first.rootCount == Int(count) && back.rootCount == Int(0)
      && first.delta.NoDelta? && away.delta.NoDelta? && back.delta.NoDelta?
  {
    hide Accepted, OpaqueIdentity, Sensible;
    var first := First(env, a, count);
    FirstAccepted(env, a, count);
    ReclassifyAccepted(env, first, b, 0);
    ReclassifyAccepted(env, Reclassify(env, first, b, 0), a, 0);
  }
}
