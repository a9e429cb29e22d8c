/** How a stored metric gate relates to the gate it was made from, value by value. */
module StoredValues {
  import opened Json
  import opened DurableProjection
  import opened DurableIdempotence

  /** A value that may be stored as it is. */
  predicate Plain(p: Policy, v: Json, kind: string) {
    v == Null || (kind != "set" && kind != "vector" && (v.Bool? || v.Int? || v.Real? || v.Sha? || (v.Str? && p.plainLabel(v.s))))
  }

  function ShapeOf(v: Json): string {
    match v
    case Dict(_) => "vector"
    case List(_) => "collection"
    case Str(_) => "enum"
    case Sha(_) => "enum"
    case _ => "scalar"
  }

  function SizeOf(v: Json): int {
    match v case Dict(m) => |m| case List(items) => |items| case _ => 1
  }

  /** The digest reference to a value, with its shape and size. */
  predicate PointsTo(w: Json, v: Json, kind: string) {
    && w.Dict? && w.entries.Keys == {"contract_version", "value_ref", "full_content_sha256", "summary"}
    && w.entries["contract_version"] == Int(1)
    && w.entries["value_ref"] == Sha(v) && w.entries["full_content_sha256"] == Sha(v)
    && w.entries["summary"].Dict?
    && var s := w.entries["summary"].entries;
       && s.Keys == {"summary_kind", "value_kind", "member_count"}
       && s["summary_kind"] == Str(ShapeOf(v)) && s["member_count"] == Int(SizeOf(v))
       && s["value_kind"] == (if |kind| > 0 then Str(kind) else Str("unknown"))
  }

  /** What is stored for a value: itself if plain, else a reference to it. */
  predicate StandsFor(p: Policy, w: Json, v: Json, kind: string) {
    if Plain(p, v, kind) then w == v else PointsTo(w, v, kind)
  }

  function Kind(p: Policy, o: Object, default: string): string {
    if Truthy(Get(o, "value_kind")) then p.fold(p.show(Get(o, "value_kind"))) else p.fold(default)
  }

  predicate SettingsStand(p: Policy, w: Json, v: Json, kind: string) {
    if !v.Dict? then w == v
    else
      && w.Dict? && w.entries.Keys == v.entries.Keys
      && forall f :: f in v.entries ==>
           if f == "ordered_values" || f == "target_value" || f == "vector_directions"
           then StandsFor(p, w.entries[f], v.entries[f], kind)
           else w.entries[f] == v.entries[f]
  }

  /** A stored contract is the contract, its settings named and stored. */
  predicate ContractStands(p: Policy, w: Json, v: Json, kind: string) {
    if !v.Dict? then w == v
    else
      && w.Dict? && w.entries.Keys == v.entries.Keys + {"comparison_config"}
      && SettingsStand(p, w.entries["comparison_config"], Get(v.entries, "comparison_config"), kind)
      && forall f :: f in v.entries && f != "comparison_config" ==> w.entries[f] == v.entries[f]
  }

  /** A stored observation, field by field. */
  predicate FieldStands(p: Policy, f: string, w: Json, v: Json, kind: string) {
    if f == "metric_contract" then ContractStands(p, w, v, kind)
    else if f == "observed_value" || f == "high_water_value" then StandsFor(p, w, v, kind)
    else w == v
  }

  /** Its values are of the kind its contract says, or else of the gate's. */
  predicate ObservationStands(p: Policy, w: Json, v: Json, gateKind: string) {
    if !v.Dict? then w == v
    else
      && w.Dict? && w.entries.Keys == v.entries.Keys
      && var contract := Get(v.entries, "metric_contract");
         var kind := if contract.Dict? then Kind(p, contract.entries, gateKind) else gateKind;
         forall f :: f in v.entries ==> FieldStands(p, f, w.entries[f], v.entries[f], kind)
  }

  /** Somewhere in the tree a dictionary refers to a digest. */
  ghost predicate RefersSomewhere(j: Json) { exists m: Object :: Inside(Dict(m), j) && "value_ref" in m && "full_content_sha256" in m }

  ghost predicate Inside(x: Json, j: Json)
    decreases j
  {
    || x == j
    || (j.Dict? && exists k :: k in j.entries && Inside(x, j.entries[k]))
    || (j.List? && exists i :: 0 <= i < |j.items| && Inside(x, j.items[i]))
  }

  /** A stored gate, field by field. */
  predicate GateFieldStands(p: Policy, f: string, w: Json, v: Json, kind: string) {
    if f == "primary_metric_value" || f == "previous_primary_metric_value" || f == "primary_metric_high_water"
    then StandsFor(p, w, v, kind)
    else if f == "metric_observation" then ObservationStands(p, w, v, kind)
    else f == "comparison_config" || f == "durable_value_projection_status" || w == v
  }

  predicate GateStands(p: Policy, w: Object, v: Object) {
    var kind := Kind(p, v, "");
    && v.Keys + {"comparison_config"} <= w.Keys <= v.Keys + {"comparison_config", "durable_value_projection_status"}
    && SettingsStand(p, w["comparison_config"], Get(v, "comparison_config"), kind)
    && forall f :: f in v ==> GateFieldStands(p, f, w[f], v[f], kind)
  }

  lemma ReferencePointsTo(p: Policy, v: Json, kind: string)
    ensures StandsFor(p, if NeedsReference(p, v, kind) then Reference(v, kind) else v, v, kind)
  {
  }

  lemma KindIff(p: Policy, o: Object, default: string)
    ensures Kind(p, o, default) == KindOf(p, o, default)
  {
  }

  lemma SettingsFollow(p: Policy, v: Json, kind: string)
    ensures SettingsStand(p, SafeConfig(p, v, kind), v, kind)
  {
    hide NeedsReference, Reference, StandsFor;
    forall x ensures StandsFor(p, if NeedsReference(p, x, kind) then Reference(x, kind) else x, x, kind) { ReferencePointsTo(p, x, kind); }
  }

  lemma ContractFollows(p: Policy, c: Object, kind: string)
    ensures ContractStands(p, Dict(c[CONFIG := SafeConfig(p, Get(c, CONFIG), kind)]), Dict(c), kind)
  {
    hide SafeConfig, SettingsStand;
    SettingsFollow(p, Get(c, CONFIG), kind);
  }

  lemma {:induction false} FieldFollows(p: Policy, o: Object, gateKind: string, f: string)
    requires f in o
    ensures f in SafeObservation(p, o, gateKind)
    ensures FieldStands(p, f, SafeObservation(p, o, gateKind)[f], o[f], ObservedKind(p, o, gateKind))
  {
    hide NeedsReference, Reference, StandsFor, SafeConfig, SettingsStand, ObservedKind, SafeObservation, ContractStands;
    var kind := ObservedKind(p, o, gateKind);
    SafeObservationAt(p, o, gateKind);
    ReferencePointsTo(p, o[f], kind);
    KeysApart();
    if f == CONTRACT {
      if o[f].Dict? { ContractFollows(p, o[f].entries, kind); } else { NoContract(p, o[f], kind); }
    }
  }

  lemma NoContract(p: Policy, v: Json, kind: string)
    ensures !v.Dict? ==> ContractStands(p, v, v, kind)
  {
  }

  lemma {:induction false} ObservationFollows(p: Policy, o: Object, gateKind: string)
    ensures ObservationStands(p, Dict(SafeObservation(p, o, gateKind)), Dict(o), gateKind)
  {
    hide FieldStands, KindOf, Kind, SafeObservation;
    forall f | f in o
      ensures f in SafeObservation(p, o, gateKind)
      ensures FieldStands(p, f, SafeObservation(p, o, gateKind)[f], o[f], ObservedKind(p, o, gateKind))
    {
      FieldFollows(p, o, gateKind, f);
    }
    ObservationKeys(p, o, gateKind);
    if Get(o, CONTRACT).Dict? { KindIff(p, Get(o, CONTRACT).entries, gateKind); }
  }

  lemma ObservationKeys(p: Policy, o: Object, gateKind: string)
    ensures SafeObservation(p, o, gateKind).Keys == o.Keys
  {
    SafeObservationAt(p, o, gateKind);
  }

  lemma GateAt(p: Policy, g: Object, f: string)
    requires f in g
    ensures var m := SafeGate(p, g); var kind := KindOf(p, g, "");
      && f in m
      && (f in GateFields() ==> m[f] == if NeedsReference(p, g[f], kind) then Reference(g[f], kind) else g[f])
      && (f == OBSERVATION ==> m[f] == if g[f].Dict? then Dict(SafeObservation(p, g[f].entries, kind)) else g[f])
      && (f !in GateFields() + {CONFIG, OBSERVATION, STATUS} ==> m[f] == g[f])
  {
    hide GateFields;
    SafeGateAt(p, g);
  }

  lemma {:induction false} GateFieldFollows(p: Policy, g: Object, f: string)
    requires f in g
    ensures f in SafeGate(p, g) && GateFieldStands(p, f, SafeGate(p, g)[f], g[f], KindOf(p, g, ""))
  {
    hide NeedsReference, Reference, StandsFor, SafeConfig, KindOf, SafeObservation, ObservationStands, SafeGate;
    var kind := KindOf(p, g, "");
    GateAt(p, g, f);
    KeysApart();
    ReferencePointsTo(p, g[f], kind);
    if f == OBSERVATION {
      if g[f].Dict? { ObservationFollows(p, g[f].entries, kind); } else { NoObservation(p, g[f], kind); }
    }
  }

  /** A stored gate is the gate with every metric value stored as itself or as a reference
      to it; nothing else of it changes but its settings' name and its mark. */
  lemma {:induction false} GateFollows(p: Policy, g: Object)
    ensures GateStands(p, SafeGate(p, g), g)
  {
    hide SafeConfig, SettingsStand, KindOf, Kind, SafeGate, GateFieldStands;
    KindIff(p, g, "");
    SettingsFollow(p, Get(g, CONFIG), KindOf(p, g, ""));
    GateKeys(p, g);
    forall f | f in g ensures f in SafeGate(p, g) && GateFieldStands(p, f, SafeGate(p, g)[f], g[f], KindOf(p, g, "")) {
      GateFieldFollows(p, g, f);
    }
  }

  lemma GateKeys(p: Policy, g: Object)
    ensures var m := SafeGate(p, g);
      && g.Keys + {CONFIG} <= m.Keys <= g.Keys + {CONFIG, STATUS}
      && m[CONFIG] == SafeConfig(p, Get(g, CONFIG), KindOf(p, g, ""))
  {
    SafeGateAt(p, g);
  }

  lemma NoObservation(p: Policy, v: Json, kind: string)
    ensures !v.Dict? ==> ObservationStands(p, v, v, kind)
  {
  }

  lemma {:induction false} RefersIff(j: Json)
    ensures HoldsReference(j) <==> RefersSomewhere(j)
    decreases j
  {
    hide RefersSomewhere;
    RefersUnfolds(j);
    match j
    case Dict(m) => forall k | k in m { RefersIff(m[k]); }
    case List(xs) => forall i | 0 <= i < |xs| { RefersIff(xs[i]); }
    case _ =>
  }

  lemma RefersChild(j: Json, child: Json)
    requires RefersSomewhere(child)
    requires (j.Dict? && exists k :: k in j.entries && j.entries[k] == child)
          || (j.List? && exists i :: 0 <= i < |j.items| && j.items[i] == child)
    ensures RefersSomewhere(j)
  {
    var d: Object :| Inside(Dict(d), child) && "value_ref" in d && "full_content_sha256" in d;
    assert Inside(Dict(d), j);
  }

  /** A tree refers somewhere if its root does or one of its children does. */
  lemma {:induction false} RefersUnfolds(j: Json)
    ensures RefersSomewhere(j) <==>
      || (j.Dict? && "value_ref" in j.entries && "full_content_sha256" in j.entries)
      || (j.Dict? && exists k :: k in j.entries && RefersSomewhere(j.entries[k]))
      || (j.List? && exists i :: 0 <= i < |j.items| && RefersSomewhere(j.items[i]))
  {
    if j.Dict? && "value_ref" in j.entries && "full_content_sha256" in j.entries { assert Inside(Dict(j.entries), j); }
    if j.Dict? {
      forall k | k in j.entries && RefersSomewhere(j.entries[k]) ensures RefersSomewhere(j) { RefersChild(j, j.entries[k]); }
    }
    if j.List? {
      forall i | 0 <= i < |j.items| && RefersSomewhere(j.items[i]) ensures RefersSomewhere(j) { RefersChild(j, j.items[i]); }
    }
    if RefersSomewhere(j) {
      var d: Object :| Inside(Dict(d), j) && "value_ref" in d && "full_content_sha256" in d;
      if Dict(d) != j {
        if j.Dict? {
          var k :| k in j.entries && Inside(Dict(d), j.entries[k]);
          assert RefersSomewhere(j.entries[k]);
        } else {
          var i :| 0 <= i < |j.items| && Inside(Dict(d), j.items[i]);
          assert RefersSomewhere(j.items[i]);
        }
      }
    }
  }

  /** A stored gate that refers to a digest anywhere is marked, and one that was not marked
      before is marked only then. */
  lemma {:induction false} MarkExactly(p: Policy, g: Object)
    ensures var w := SafeGate(p, g); var mark := "durable_value_projection_status";
      && (RefersSomewhere(Dict(w)) ==> Get(w, mark) == Str("reference_only"))
      && (mark !in g ==> (mark in w <==> RefersSomewhere(Dict(w))))
  {
    hide NeedsReference, Reference, SafeConfig, KindOf, SafeObservation, HoldsReference, SafeGate, Observed, RefersSomewhere;
    var o := Observed(p, g);
    KeysApart();
    SafeGateStages(p, g);
    ObservedAt(p, g);
    RefersIff(Dict(SafeGate(p, g)));
    if STATUS !in g && HoldsReference(Dict(o)) { MarkedHolds(o); }
  }

  lemma {:induction false} MarkedHolds(o: Object)
    requires HoldsReference(Dict(o)) && STATUS !in o
    ensures HoldsReference(Dict(Marked(o)))
  {
    var w := Marked(o);
    if !("value_ref" in o && "full_content_sha256" in o) {
      var k :| k in o && HoldsReference(o[k]);
      assert w[k] == o[k];
    }
  }
}
