/** What no projected tree holds, and what the projection never drops. */
module ProjectionPrivacy {
  import opened Json
  import opened DurableProjection
  import opened DurableIdempotence

  // ---- what must not be stored ---------------------------------------------

  /** Keys that refer to something: path-like text under them must go. */
  ghost predicate Refers(k: string) {
    || (exists stem :: k == stem + "_ref") || (exists stem :: k == stem + "_refs") || (exists stem :: k == stem + "_error")
    || k == "action" || k == "error" || k == "message" || k == "orphans" || k == "provenance_refs"
  }

  lemma SuffixIff(k: string, suffix: string)
    ensures EndsWith(k, suffix) <==> exists stem :: k == stem + suffix
  {
    if EndsWith(k, suffix) { assert k == k[..|k| - |suffix|] + suffix; }
    if stem :| k == stem + suffix { assert k[|k| - |suffix|..] == suffix; }
  }

  lemma RefersIff(k: string)
    ensures Refers(k) <==> Locates(k)
  {
    hide EndsWith;
    SuffixIff(k, "_ref");
    SuffixIff(k, "_refs");
    SuffixIff(k, "_error");
  }

  /** A digest in place of a value: it tells the value's shape and size, and no more. */
  predicate Opaque(v: Json) {
    && v.Dict? && v.entries.Keys == {"contract_version", "value_ref", "full_content_sha256", "summary"}
    && v.entries["contract_version"].Int? && v.entries["value_ref"].Sha? && v.entries["full_content_sha256"].Sha?
    && v.entries["summary"].Dict?
    && var s := v.entries["summary"].entries;
       && s.Keys == {"summary_kind", "value_kind", "member_count"} && s["member_count"].Int? && s["value_kind"].Str?
       && s["summary_kind"] in {Str("vector"), Str("collection"), Str("enum"), Str("scalar")}
  }

  /** A metric value that may be stored: none, a digest, or a single number, truth value
      or plain label of a metric that is no set or vector. */
  predicate Storable(p: Policy, v: Json, kind: string) {
    || v == Null || Opaque(v)
    || (kind != "set" && kind != "vector" && !v.List? && !v.Dict? && (v.Str? ==> p.plainLabel(v.s)))
  }

  predicate SettingsStorable(p: Policy, config: Json, kind: string) {
    config.Dict? ==> forall f :: f in config.entries && f in ["ordered_values", "target_value", "vector_directions"] ==>
                       Storable(p, config.entries[f], kind)
  }

  predicate ObservationStorable(p: Policy, o: Object, gateKind: string) {
    var contract := Get(o, "metric_contract");
    var kind := if contract.Dict? then KindOf(p, contract.entries, gateKind) else gateKind;
    && (forall f :: f in o && f in ["observed_value", "high_water_value"] ==> Storable(p, o[f], kind))
    && (contract.Dict? ==> SettingsStorable(p, Get(contract.entries, "comparison_config"), kind))
  }

  /** No metric value of the gate, of its settings or of its observation is stored as it
      is unless it is storable. */
  predicate GateStorable(p: Policy, g: Object) {
    var kind := KindOf(p, g, "");
    && (forall f :: f in g && f in ["primary_metric_value", "previous_primary_metric_value", "primary_metric_high_water"] ==>
          Storable(p, g[f], kind))
    && SettingsStorable(p, Get(g, "comparison_config"), kind)
    && (Get(g, "metric_observation").Dict? ==> ObservationStorable(p, Get(g, "metric_observation").entries, kind))
  }

  // ---- the metric gate -----------------------------------------------------

  lemma ReferenceOpaque(v: Json, kind: string)
    ensures Opaque(Reference(v, kind))
  {
  }

  lemma SafeIsStorable(p: Policy, v: Json, kind: string)
    ensures Storable(p, if NeedsReference(p, v, kind) then Reference(v, kind) else v, kind)
  {
    hide Reference, Opaque;
    ReferenceOpaque(v, kind);
  }

  lemma SettingsAreStorable(p: Policy, config: Json, kind: string)
    ensures SettingsStorable(p, SafeConfig(p, config, kind), kind)
  {
    hide Reference, NeedsReference, Storable;
    if config.Dict? {
      forall f | f in config.entries ensures Storable(p, if NeedsReference(p, config.entries[f], kind) then Reference(config.entries[f], kind) else config.entries[f], kind) {
        SafeIsStorable(p, config.entries[f], kind);
      }
    }
  }

  lemma FieldsListed(f: string)
    ensures f in ["observed_value", "high_water_value"] <==> f in ObservedFields()
    ensures f in ["primary_metric_value", "previous_primary_metric_value", "primary_metric_high_water"] <==> f in GateFields()
  {
  }

  lemma {:induction false} ObservationIsStorable(p: Policy, o: Object, gateKind: string)
    ensures ObservationStorable(p, SafeObservation(p, o, gateKind), gateKind)
  {
    hide Reference, NeedsReference, Storable, SafeConfig, KindOf, SafeObservation, SettingsStorable, ObservedFields;
    var s, kind := SafeObservation(p, o, gateKind), ObservedKind(p, o, gateKind);
    SafeObservationAt(p, o, gateKind);
    KeysApart();
    forall f | f in o && f in ObservedFields() ensures Storable(p, s[f], kind) { SafeIsStorable(p, o[f], kind); }
    forall f ensures f in ["observed_value", "high_water_value"] <==> f in ObservedFields() { FieldsListed(f); }
    if Get(o, CONTRACT).Dict? {
      var c := Get(o, CONTRACT).entries;
      SettingsAreStorable(p, Get(c, CONFIG), kind);
      SameKindNamed(p, c, SafeConfig(p, Get(c, CONFIG), kind), gateKind);
    }
  }

  lemma SameKindNamed(p: Policy, c: Object, config: Json, default: string)
    ensures KindOf(p, c[CONFIG := config], default) == KindOf(p, c, default)
  {
    KeysApart();
  }

  lemma {:induction false} GateIsStorable(p: Policy, g: Object)
    ensures GateStorable(p, SafeGate(p, g))
  {
    hide Reference, NeedsReference, Storable, SafeConfig, KindOf, SafeObservation, SettingsStorable, SafeGate, ObservationStorable, GateFields;
    var m, kind := SafeGate(p, g), KindOf(p, g, "");
    SafeGateAt(p, g);
    KeysApart();
    KindIsNoField();
    SameKindRead(p, g, m);
    forall f | f in g && f in GateFields() ensures Storable(p, m[f], kind) { SafeIsStorable(p, g[f], kind); }
    forall f ensures f in ["primary_metric_value", "previous_primary_metric_value", "primary_metric_high_water"] <==> f in GateFields() {
      FieldsListed(f);
    }
    SettingsAreStorable(p, Get(g, CONFIG), kind);
    if Get(g, OBSERVATION).Dict? { ObservationIsStorable(p, Get(g, OBSERVATION).entries, kind); }
  }

  lemma KindIsNoField()
    ensures "value_kind" !in GateFields()
  {
  }

  lemma SameKindRead(p: Policy, g: Object, m: Object)
    requires "value_kind" in m <==> "value_kind" in g
    requires "value_kind" in g ==> m["value_kind"] == g["value_kind"]
    ensures KindOf(p, m, "") == KindOf(p, g, "")
  {
  }

  // ---- the whole tree ------------------------------------------------------

  predicate Bare(j: Json) { j.Dict? && forall k :: k in j.entries ==> k == "severity" || k == "code" }

  predicate BareList(k: string, j: Json) { k == "findings" && j.List? && forall i :: 0 <= i < |j.items| ==> Bare(j.items[i]) }

  function ValueFields(): set<string> { GateFields() + ConfigFields() + ObservedFields() }

  /** No key is sensitive, no path-like text stands under a referring key, findings keep
      severity and code alone, and every metric gate is storable. Under the keys of metric
      values a digest may stand. */
  ghost predicate Private(p: Policy, j: Json, parent: string)
    decreases j, 0
  {
    match j
    case Dict(m) => (parent == Gate ==> GateStorable(p, m)) && forall k :: k in m ==> PrivateChild(p, k, m[k])
    case List(xs) => forall i :: 0 <= i < |xs| ==> Private(p, xs[i], parent)
    case Str(s) => Refers(parent) ==> !p.pathLike(s)
    case _ => true
  }

  ghost predicate PrivateChild(p: Policy, k: string, j: Json)
    decreases j, 1
  {
    !p.sensitive(k) && (BareList(k, j) || Private(p, j, k) || (k in ValueFields() && Opaque(j)))
  }

  ghost predicate PrivateChildren(p: Policy, m: Object) { forall k :: k in m ==> PrivateChild(p, k, m[k]) }

  lemma PrivateDict(p: Policy, m: Object, parent: string)
    ensures Private(p, Dict(m), parent) <==> PrivateChildren(p, m) && (parent == Gate ==> GateStorable(p, m))
  {
    hide GateStorable, PrivateChild;
  }

  /** Putting digests in place of some metric values keeps a dictionary private. */
  lemma Redacted(p: Policy, m: Object, s: Object)
    requires PrivateChildren(p, m) && s.Keys == m.Keys && forall k :: k in m ==> s[k] == m[k] || (k in ValueFields() && Opaque(s[k]))
    ensures PrivateChildren(p, s)
  {
    hide Private, BareList, Opaque, ValueFields;
  }

  lemma {:induction false} BareFindings(items: seq<Json>)
    ensures forall i :: 0 <= i < |Findings(items)| ==> Bare(Findings(items)[i])
  {
    if items != [] { BareFindings(items[1..]); }
  }

  lemma OpaqueOrSame(p: Policy, v: Json, kind: string)
    ensures var s := if NeedsReference(p, v, kind) then Reference(v, kind) else v; s == v || Opaque(s)
  {
    hide Reference, Opaque, NeedsReference;
    ReferenceOpaque(v, kind);
  }

  lemma {:induction false} SettingsPrivate(p: Policy, config: Json, kind: string)
    requires Private(p, config, CONFIG)
    ensures Private(p, SafeConfig(p, config, kind), CONFIG)
  {
    hide Private, Opaque, Reference, NeedsReference, PrivateChildren, ConfigFields;
    if config.Dict? {
      var m := config.entries;
      var s := SafeFields(p, m, ConfigFields(), kind);
      KeysApart();
      PrivateDict(p, m, CONFIG);
      forall k | k in m ensures s[k] == m[k] || (k in ValueFields() && Opaque(s[k])) { OpaqueOrSame(p, m[k], kind); }
      Redacted(p, m, s);
      PrivateDict(p, s, CONFIG);
      SettingsAre(p, m, kind);
    }
  }

  lemma SettingsAre(p: Policy, m: Object, kind: string)
    ensures SafeConfig(p, Dict(m), kind) == Dict(SafeFields(p, m, ConfigFields(), kind))
  {
  }

  lemma NullPrivate(p: Policy, k: string)
    ensures Private(p, Null, k)
  {
  }

  lemma StrictChild(p: Policy, m: Object, k: string)
    requires PrivateChildren(p, m) && k in m && k != "findings" && k !in ValueFields()
    ensures Private(p, m[k], k) && !p.sensitive(k)
  {
    hide Private, ValueFields;
  }

  lemma ChildPrivate(p: Policy, k: string, j: Json)
    requires !p.sensitive(k) && Private(p, j, k)
    ensures PrivateChild(p, k, j)
  {
    hide Private;
  }

  lemma StructureApart()
    ensures CONFIG !in ValueFields() && CONTRACT !in ValueFields() && OBSERVATION !in ValueFields()
  {
    assert |CONFIG| == 17 && |OBSERVATION| == 18 && |CONTRACT| == 15;
    KeysApart();
    NotSettings();
  }

  lemma NotSettings()
    ensures CONFIG !in ConfigFields() && CONTRACT !in ConfigFields() && OBSERVATION !in ConfigFields()
  {
  }

  lemma {:induction false} ContractPrivate(p: Policy, c: Object, kind: string)
    requires OwnKeysOpen(p) && Private(p, Dict(c), CONTRACT)
    ensures Private(p, Dict(c[CONFIG := SafeConfig(p, Get(c, CONFIG), kind)]), CONTRACT)
  {
    hide Private, SafeConfig, PrivateChild, ValueFields;
    KeysApart();
    StructureApart();
    PrivateDict(p, c, CONTRACT);
    if CONFIG in c { StrictChild(p, c, CONFIG); } else { NullPrivate(p, CONFIG); }
    SettingsPrivate(p, Get(c, CONFIG), kind);
    ChildPrivate(p, CONFIG, SafeConfig(p, Get(c, CONFIG), kind));
    PrivateDict(p, c[CONFIG := SafeConfig(p, Get(c, CONFIG), kind)], CONTRACT);
  }

  lemma {:induction false} ObservationPrivate(p: Policy, o: Object, gateKind: string)
    requires OwnKeysOpen(p) && Private(p, Dict(o), OBSERVATION)
    ensures Private(p, Dict(SafeObservation(p, o, gateKind)), OBSERVATION)
  {
    hide Private, Opaque, Reference, NeedsReference, SafeObservation, SafeConfig, KindOf, PrivateChild, ObservedFields, OwnKeysOpen;
    var s, kind := SafeObservation(p, o, gateKind), ObservedKind(p, o, gateKind);
    SafeObservationAt(p, o, gateKind);
    KeysApart();
    StructureApart();
    PrivateDict(p, o, OBSERVATION);
    forall k | k in s ensures PrivateChild(p, k, s[k]) {
      assert PrivateChild(p, k, o[k]);
      if k in ObservedFields() {
        OpaqueOrSame(p, o[k], kind);
        if s[k] != o[k] { DigestPrivate(p, k, o[k], s[k]); }
      } else if k == CONTRACT && o[k].Dict? {
        StrictChild(p, o, CONTRACT);
        ContractPrivate(p, o[k].entries, kind);
        ChildPrivate(p, CONTRACT, s[k]);
      }
    }
    PrivateDict(p, s, OBSERVATION);
  }

  lemma DigestPrivate(p: Policy, k: string, j: Json, s: Json)
    requires PrivateChild(p, k, j) && k in ValueFields() && Opaque(s)
    ensures PrivateChild(p, k, s)
  {
    hide Private, Opaque, ValueFields;
  }

  lemma {:induction false} GatePrivate(p: Policy, g: Object)
    requires OwnKeysOpen(p) && PrivateChildren(p, g)
    ensures Private(p, Dict(SafeGate(p, g)), Gate)
  {
    hide Private, Opaque, Reference, NeedsReference, SafeObservation, SafeConfig, KindOf, PrivateChild, GateFields, SafeGate, GateStorable,
      OwnKeysOpen, Locates;
    var s, kind := SafeGate(p, g), KindOf(p, g, "");
    SafeGateAt(p, g);
    KeysApart();
    StructureApart();
    GateIsStorable(p, g);
    forall k | k in s ensures PrivateChild(p, k, s[k]) {
      assert k in g ==> PrivateChild(p, k, g[k]);
      if k == CONFIG {
        if CONFIG in g { StrictChild(p, g, CONFIG); } else { NullPrivate(p, CONFIG); }
        SettingsPrivate(p, Get(g, CONFIG), kind);
        OpenKeys(p);
        ChildPrivate(p, CONFIG, s[k]);
      } else if k == STATUS {
        OpenKeys(p);
        MarkPrivate(p);
      } else if k in GateFields() {
        OpaqueOrSame(p, g[k], kind);
        if s[k] != g[k] { DigestPrivate(p, k, g[k], s[k]); }
      } else if k == OBSERVATION && g[k].Dict? {
        StrictChild(p, g, OBSERVATION);
        ObservationPrivate(p, g[k].entries, kind);
        ChildPrivate(p, OBSERVATION, s[k]);
      }
    }
    PrivateDict(p, s, Gate);
  }

  lemma OpenKeys(p: Policy)
    requires OwnKeysOpen(p)
    ensures !p.sensitive(CONFIG) && !p.sensitive(STATUS)
  {
  }

  lemma MarkPrivate(p: Policy)
    requires !p.sensitive(STATUS)
    ensures PrivateChild(p, STATUS, Str("reference_only"))
  {
    hide Locates;
    KeysApart();
    RefersIff(STATUS);
  }

  /** Whatever is projected, the result is private. */
  lemma {:induction false} ProjectionIsPrivate(p: Policy, j: Json, parent: string)
    requires OwnKeysOpen(p)
    ensures Private(p, Project(p, j, parent), parent)
    decreases j
  {
    match j
    case Dict(m) =>
      hide Project, Kept, Private, SafeGate, OwnKeysOpen, GateStorable;
      var kept := Kept(p, m);
      KeptAt(p, m);
      ProjectDict(p, m, parent);
      forall k | k in kept ensures PrivateChild(p, k, kept[k]) {
        if Listed(k, m[k]) {
          BareFindings(m[k].items);
        } else {
          ProjectionIsPrivate(p, m[k], k);
        }
      }
      if parent == Gate { GatePrivate(p, kept); } else { PrivateDict(p, kept, parent); }
    case List(xs) => AllPrivate(p, xs, parent);
    case Str(_) => RefersIff(parent);
    case _ =>
  }

  lemma {:induction false} AllPrivate(p: Policy, xs: seq<Json>, parent: string)
    requires OwnKeysOpen(p)
    ensures forall i :: 0 <= i < |ProjectAll(p, xs, parent)| ==> Private(p, ProjectAll(p, xs, parent)[i], parent)
    decreases xs
  {
    hide Project, Private, OwnKeysOpen;
    if xs != [] {
      ProjectionIsPrivate(p, xs[0], parent);
      AllPrivate(p, xs[1..], parent);
    }
  }

  // ---- and nothing else is dropped -----------------------------------------

  /** A key that is gone was sensitive or referred to path-like text. */
  lemma {:induction false} DropsNothingElse(p: Policy, m: Object, parent: string, k: string)
    requires k in m && k !in Project(p, Dict(m), parent).entries
    ensures p.sensitive(k) || (m[k].Str? && p.pathLike(m[k].s) && Refers(k))
  {
    hide Project, Kept, SafeGate;
    ProjectDict(p, m, parent);
    KeptAt(p, m);
    SafeGateAt(p, Kept(p, m));
    DictStays(p, m[k], k);
    RefersIff(k);
    if m[k].Str? { TextStays(p, m[k].s, k); }
  }

  lemma TextStays(p: Policy, s: string, k: string)
    ensures Project(p, Str(s), k) == if p.pathLike(s) && Locates(k) then Null else Str(s)
  {
  }
}
