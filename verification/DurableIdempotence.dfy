/** The durable projection is a normal form wherever no metric value is replaced by a
    reference; a replaced value is replaced again. */
module DurableIdempotence {
  import opened Json
  import opened DurableProjection

  const Gate := "primary_metric_gate"

  /** A value that projecting leaves alone. */
  predicate Fixed(p: Policy, j: Json, parent: string) { Project(p, j, parent) == j }

  /** What is kept of a dictionary before the metric gate's own rule. */
  function Kept(p: Policy, m: Object): Object { Project(p, Dict(m), "").entries }

  predicate Listed(k: string, j: Json) { k == "findings" && j.List? }

  ghost predicate ChildrenFixed(p: Policy, m: Object) {
    forall k :: k in m ==> !p.sensitive(k) && ChildFixed(p, k, m[k])
  }

  predicate ChildFixed(p: Policy, k: string, j: Json) {
    if Listed(k, j) then Findings(j.items) == j.items else Fixed(p, j, k)
  }

  lemma KeptAt(p: Policy, m: Object)
    ensures forall k :: k in Kept(p, m) <==>
              k in m && !p.sensitive(k) && (m[k] == Null || Listed(k, m[k]) || Project(p, m[k], k) != Null)
    ensures forall k :: k in Kept(p, m) ==>
              Kept(p, m)[k] == if Listed(k, m[k]) then List(Findings(m[k].items)) else Project(p, m[k], k)
  {
  }

  lemma ProjectDict(p: Policy, m: Object, parent: string)
    ensures Project(p, Dict(m), parent) == Dict(if parent == Gate then SafeGate(p, Kept(p, m)) else Kept(p, m))
  {
  }

  /** A dictionary is kept whole exactly when its children are fixed. */
  lemma KeptWholeIff(p: Policy, m: Object)
    ensures Kept(p, m) == m <==> ChildrenFixed(p, m)
  {
  }

  // ---- metric gates --------------------------------------------------------

  /** Nothing under these fields would be replaced. */
  ghost predicate FieldsQuiet(p: Policy, o: Object, fields: set<string>, kind: string) {
    forall k :: k in o && k in fields ==> !NeedsReference(p, o[k], kind)
  }

  function ConfigFields(): set<string> { {"ordered_values", "target_value", "vector_directions"} }

  function GateFields(): set<string> {
    {"primary_metric_value", "previous_primary_metric_value", "primary_metric_high_water"}
  }

  function ObservedFields(): set<string> { {"observed_value", "high_water_value"} }

  ghost predicate ConfigQuiet(p: Policy, config: Json, kind: string) {
    config.Dict? ==> FieldsQuiet(p, config.entries, ConfigFields(), kind)
  }

  ghost predicate ObservationQuiet(p: Policy, o: Object, gateKind: string) {
    var contract := Get(o, "metric_contract");
    if contract.Dict? then
      var kind := KindOf(p, contract.entries, gateKind);
      ConfigQuiet(p, Get(contract.entries, "comparison_config"), kind) && FieldsQuiet(p, o, ObservedFields(), kind)
    else FieldsQuiet(p, o, ObservedFields(), gateKind)
  }

  /** No metric value of the gate would be replaced by a reference. */
  ghost predicate GateQuiet(p: Policy, g: Object) {
    var kind := KindOf(p, g, "");
    && FieldsQuiet(p, g, GateFields(), kind) && ConfigQuiet(p, Get(g, "comparison_config"), kind)
    && (Get(g, "metric_observation").Dict? ==> ObservationQuiet(p, Get(g, "metric_observation").entries, kind))
  }

  lemma QuietFields(p: Policy, o: Object, fields: set<string>, kind: string)
    requires FieldsQuiet(p, o, fields, kind)
    ensures SafeFields(p, o, fields, kind) == o
  {
  }

  /** The dictionary with its comparison settings named, if only as null. */
  function Named(o: Object): Object { o["comparison_config" := Get(o, "comparison_config")] }

  function NamedObservation(o: Object): Object {
    var contract := Get(o, "metric_contract");
    if contract.Dict? then o["metric_contract" := Dict(Named(contract.entries))] else o
  }

  function NamedGate(g: Object): Object {
    match Get(g, "metric_observation")
    case Dict(o) => Named(g)["metric_observation" := Dict(NamedObservation(o))]
    case _ => Named(g)
  }

  function Marked(g: Object): Object {
    if HoldsReference(Dict(g)) then g["durable_value_projection_status" := Str("reference_only")] else g
  }

  lemma QuietObservation(p: Policy, o: Object, kind: string)
    requires ObservationQuiet(p, o, kind)
    ensures SafeObservation(p, o, kind) == NamedObservation(o)
  {
    hide NeedsReference, Reference, SafeFields;
    var contract := Get(o, "metric_contract");
    if contract.Dict? {
      var k := KindOf(p, contract.entries, kind);
      var config := Get(contract.entries, "comparison_config");
      if config.Dict? { QuietFields(p, config.entries, ConfigFields(), k); }
      NotObserved();
      QuietFields(p, NamedObservation(o), ObservedFields(), k);
    } else {
      QuietFields(p, o, ObservedFields(), kind);
    }
  }

  lemma NotObserved()
    ensures "metric_contract" !in ObservedFields() && "comparison_config" !in GateFields()
    ensures "metric_observation" !in GateFields() && "comparison_config" !in {"metric_observation", "value_kind"}
    ensures "durable_value_projection_status" !in GateFields()
    ensures "durable_value_projection_status" !in {"comparison_config", "metric_observation", "value_kind"}
    ensures "value_kind" != "metric_observation" && "findings" !in {"comparison_config", "metric_observation", "metric_contract"}
  {
  }

  /** On a quiet gate the gate's rule only names and marks. */
  lemma QuietGate(p: Policy, g: Object)
    requires GateQuiet(p, g)
    ensures SafeGate(p, g) == Marked(NamedGate(g))
  {
    hide NeedsReference, Reference, SafeFields, SafeObservation, HoldsReference, ObservationQuiet;
    var kind := KindOf(p, g, "");
    QuietFields(p, g, GateFields(), kind);
    var config := Get(g, "comparison_config");
    if config.Dict? { QuietFields(p, config.entries, ConfigFields(), kind); }
    NotObserved();
    match Get(g, "metric_observation")
    case Dict(o) => QuietObservation(p, o, kind);
    case _ =>
  }

  // ---- what the gate's rule leaves alone -----------------------------------

  const CONFIG := "comparison_config"
  const OBSERVATION := "metric_observation"
  const CONTRACT := "metric_contract"
  const STATUS := "durable_value_projection_status"

  /** The projection's own keys are not among the sensitive ones. */
  predicate OwnKeysOpen(p: Policy) {
    !p.sensitive(CONFIG) && !p.sensitive(STATUS) && !p.sensitive("value_ref")
  }

  lemma KeysApart()
    ensures CONFIG !in {OBSERVATION, CONTRACT, STATUS, Gate, "findings", "value_kind"} + GateFields() + ObservedFields()
    ensures OBSERVATION !in {CONTRACT, STATUS, Gate, "findings", "value_kind"} + GateFields() + ObservedFields()
    ensures CONTRACT !in {STATUS, Gate, "findings", "value_kind"} + GateFields() + ObservedFields()
    ensures STATUS !in {Gate, "findings", "value_kind"} + GateFields()
    ensures "findings" !in GateFields() + ObservedFields() + ConfigFields() + {Gate, "value_ref"}
    ensures Gate !in GateFields() + ObservedFields() + ConfigFields() && !Locates(STATUS)
  {
    hide Locates;
    assert |CONFIG| == 17 && |OBSERVATION| == 18 && |CONTRACT| == 15 && |STATUS| == 31 && |Gate| == 19;
    StatusLocatesNothing();
  }

  lemma StatusLocatesNothing()
    ensures !Locates(STATUS)
  {
    assert !EndsWith(STATUS, "_ref") && !EndsWith(STATUS, "_refs") && !EndsWith(STATUS, "_error");
  }

  lemma RefersTo(v: Json, kind: string)
    ensures Reference(v, kind).Dict?
    ensures "value_ref" in Reference(v, kind).entries && Reference(v, kind).entries["value_ref"] == Sha(v)
    ensures HoldsReference(Reference(v, kind))
  {
  }

  /** No value is a reference to itself. */
  lemma NoSelfReference(v: Json, kind: string)
    ensures Reference(v, kind) != v
  {
    RefersTo(v, kind);
  }

  lemma SettledFields(p: Policy, o: Object, fields: set<string>, kind: string)
    ensures SafeFields(p, o, fields, kind) == o <==> FieldsQuiet(p, o, fields, kind)
  {
    hide Reference, NeedsReference;
    forall k | k in o ensures Reference(o[k], kind) != o[k] { NoSelfReference(o[k], kind); }
    var safe := SafeFields(p, o, fields, kind);
    if safe == o {
      forall k | k in o && k in fields ensures !NeedsReference(p, o[k], kind) { assert safe[k] == o[k]; }
    }
  }

  lemma SettledConfig(p: Policy, config: Json, kind: string)
    ensures SafeConfig(p, config, kind) == config <==> ConfigQuiet(p, config, kind)
  {
    hide FieldsQuiet, SafeFields;
    if config.Dict? { SettledFields(p, config.entries, ConfigFields(), kind); }
  }

  /** The kind an observation's values are read under. */
  function ObservedKind(p: Policy, o: Object, gateKind: string): string {
    var contract := Get(o, CONTRACT);
    if contract.Dict? then KindOf(p, contract.entries, gateKind) else gateKind
  }

  /** The rule on an observation, key by key. */
  lemma SafeObservationAt(p: Policy, o: Object, gateKind: string)
    ensures var s := SafeObservation(p, o, gateKind); var kind := ObservedKind(p, o, gateKind);
            var contract := Get(o, CONTRACT);
      && s.Keys == o.Keys
      && (forall k :: k in o && k !in ObservedFields() + {CONTRACT} ==> s[k] == o[k])
      && (forall k :: k in o && k in ObservedFields() ==>
            s[k] == if NeedsReference(p, o[k], kind) then Reference(o[k], kind) else o[k])
      && (CONTRACT in o ==>
            s[CONTRACT] ==
            if contract.Dict?
            then Dict(contract.entries[CONFIG := SafeConfig(p, Get(contract.entries, CONFIG), kind)]) else contract)
  {
    hide NeedsReference, Reference, SafeConfig, KindOf;
    KeysApart();
  }

  lemma SettledObservation(p: Policy, o: Object, gateKind: string)
    ensures SafeObservation(p, o, gateKind) == o <==>
            ObservationQuiet(p, o, gateKind) && NamedObservation(o) == o
  {
    hide NeedsReference, Reference, SafeFields, SafeObservation, SafeConfig, KindOf;
    KeysApart();
    var contract, kind := Get(o, CONTRACT), ObservedKind(p, o, gateKind);
    var s := SafeObservation(p, o, gateKind);
    if s == o {
      SafeObservationAt(p, o, gateKind);
      forall k | k in o && k in ObservedFields() ensures !NeedsReference(p, o[k], kind) { NoSelfReference(o[k], kind); }
      if contract.Dict? {
        var c := contract.entries;
        assert c[CONFIG := SafeConfig(p, Get(c, CONFIG), kind)] == c;
        SettledConfig(p, Get(c, CONFIG), kind);
      }
    }
    if ObservationQuiet(p, o, gateKind) { QuietObservation(p, o, gateKind); }
  }

  /** The stages of the gate's rule. */
  function Valued(p: Policy, g: Object): Object { SafeFields(p, g, GateFields(), KindOf(p, g, "")) }

  function Configured(p: Policy, g: Object): Object {
    Valued(p, g)[CONFIG := SafeConfig(p, Get(g, CONFIG), KindOf(p, g, ""))]
  }

  function Observed(p: Policy, g: Object): Object {
    match Get(g, OBSERVATION)
    case Dict(o) => Configured(p, g)[OBSERVATION := Dict(SafeObservation(p, o, KindOf(p, g, "")))]
    case _ => Configured(p, g)
  }

  lemma SafeGateStages(p: Policy, g: Object)
    ensures SafeGate(p, g) == Marked(Observed(p, g))
  {
    hide NeedsReference, Reference, SafeConfig, KindOf, SafeObservation, HoldsReference;
    KeysApart();
    assert Get(Valued(p, g), CONFIG) == Get(g, CONFIG);
    assert Get(Configured(p, g), OBSERVATION) == Get(g, OBSERVATION);
  }

  lemma ObservedAt(p: Policy, g: Object)
    ensures var m := Observed(p, g); var kind := KindOf(p, g, "");
      && m.Keys == g.Keys + {CONFIG}
      && (forall k :: k in g && k !in GateFields() + {CONFIG, OBSERVATION} ==> m[k] == g[k])
      && (forall k :: k in g && k in GateFields() ==>
            m[k] == if NeedsReference(p, g[k], kind) then Reference(g[k], kind) else g[k])
      && m[CONFIG] == SafeConfig(p, Get(g, CONFIG), kind)
      && (OBSERVATION in g ==>
            m[OBSERVATION] ==
            if g[OBSERVATION].Dict? then Dict(SafeObservation(p, g[OBSERVATION].entries, kind)) else g[OBSERVATION])
  {
    hide GateFields, NeedsReference, Reference, SafeConfig, KindOf, SafeObservation;
    KeysApart();
  }

  /** The rule on a gate, key by key. */
  lemma SafeGateAt(p: Policy, g: Object)
    ensures var m := SafeGate(p, g); var kind := KindOf(p, g, "");
      && g.Keys + {CONFIG} <= m.Keys <= g.Keys + {CONFIG, STATUS}
      && (forall k :: k in g && k !in GateFields() + {CONFIG, OBSERVATION, STATUS} ==> m[k] == g[k])
      && (forall k :: k in g && k in GateFields() ==>
            m[k] == if NeedsReference(p, g[k], kind) then Reference(g[k], kind) else g[k])
      && m[CONFIG] == SafeConfig(p, Get(g, CONFIG), kind)
      && (OBSERVATION in g ==>
            m[OBSERVATION] ==
            if g[OBSERVATION].Dict? then Dict(SafeObservation(p, g[OBSERVATION].entries, kind)) else g[OBSERVATION])
      && (STATUS in m ==> m[STATUS] == Str("reference_only") || (STATUS in g && m[STATUS] == g[STATUS]))
  {
    hide NeedsReference, Reference, SafeConfig, KindOf, SafeObservation, HoldsReference, SafeGate, Observed;
    KeysApart();
    SafeGateStages(p, g);
    ObservedAt(p, g);
  }

  /** The gate's rule leaves a gate alone exactly when no metric value would be
      replaced and the rule's own marks are there. */
  lemma {:induction false} SettledGate(p: Policy, g: Object)
    ensures SafeGate(p, g) == g <==> GateQuiet(p, g) && NamedGate(g) == g && Marked(g) == g
  {
    hide NeedsReference, Reference, SafeFields, SafeObservation, SafeConfig, KindOf, HoldsReference, SafeGate, ObservationQuiet,
      ConfigQuiet, NamedObservation;
    if SafeGate(p, g) == g {
      SafeGateAt(p, g);
      var kind := KindOf(p, g, "");
      forall k | k in g && k in GateFields() ensures !NeedsReference(p, g[k], kind) { NoSelfReference(g[k], kind); }
      SettledConfig(p, Get(g, CONFIG), kind);
      if Get(g, OBSERVATION).Dict? { SettledObservation(p, Get(g, OBSERVATION).entries, kind); }
      assert GateQuiet(p, g);
    }
    if GateQuiet(p, g) { QuietGate(p, g); }
  }

  // ---- fixed points --------------------------------------------------------

  lemma FixedDict(p: Policy, m: Object, parent: string)
    requires parent != Gate
    ensures Fixed(p, Dict(m), parent) <==> ChildrenFixed(p, m)
  {
  }

  lemma ShaStays(p: Policy, v: Json, k: string)
    ensures Project(p, Sha(v), k) == Sha(v)
  {
  }

  /** Projecting a reference never gives the value it refers to. */
  lemma {:induction false} ReferenceNotBack(p: Policy, v: Json, kind: string, f: string)
    requires OwnKeysOpen(p) && f != Gate
    ensures Project(p, Reference(v, kind), f) != v
  {
    hide Reference, Project, Kept;
    RefersTo(v, kind);
    KeysApart();
    var r := Reference(v, kind).entries;
    ProjectDict(p, r, f);
    KeptAt(p, r);
    ShaStays(p, v, "value_ref");
    if Project(p, Reference(v, kind), f) == v {
      assert false;
    }
  }

  /** If the rule gives a kept field back, the field was kept whole. */
  lemma FieldBack(p: Policy, m: Object, f: string, kind: string)
    requires OwnKeysOpen(p) && f != Gate && f != "findings" && f in Kept(p, m)
    requires var v := Kept(p, m)[f]; m[f] == if NeedsReference(p, v, kind) then Reference(v, kind) else v
    ensures Kept(p, m)[f] == m[f]
  {
    hide Project, Kept, Reference, NeedsReference;
    KeptAt(p, m);
    ReferenceNotBack(p, Kept(p, m)[f], kind, f);
  }

  lemma {:induction false} ConfigBack(p: Policy, config: Json, kind: string)
    requires OwnKeysOpen(p) && SafeConfig(p, Project(p, config, CONFIG), kind) == config
    ensures Project(p, config, CONFIG) == config
  {
    hide Project, Kept, Reference, NeedsReference;
    KeysApart();
    DictStays(p, config, CONFIG);
    if config.Dict? {
      var c := config.entries;
      ProjectDict(p, c, CONFIG);
      KeptAt(p, c);
      forall k | k in Kept(p, c) ensures Kept(p, c)[k] == c[k] {
        if k in ConfigFields() { FieldBack(p, c, k, kind); }
      }
    }
  }

  lemma DictStays(p: Policy, j: Json, parent: string)
    ensures Project(p, j, parent).Dict? <==> j.Dict?
    ensures Project(p, j, parent) == Null ==> j == Null || j.Str?
    ensures Project(p, j, parent).List? <==> j.List?
  {
  }

  lemma {:induction false} ContractBack(p: Policy, contract: Json, kind: string)
    requires OwnKeysOpen(p) && contract.Dict?
    requires var c := Project(p, contract, CONTRACT).entries;
             contract.entries == c[CONFIG := SafeConfig(p, Get(c, CONFIG), kind)]
    ensures Project(p, contract, CONTRACT) == contract
  {
    hide OwnKeysOpen, Project, Kept, SafeConfig;
    KeysApart();
    var m := contract.entries;
    ProjectDict(p, m, CONTRACT);
    var c := Kept(p, m);
    KeptAt(p, m);
    assert forall k :: k in c && k != CONFIG ==> c[k] == m[k];
    ConfigKept(p, m, kind);
  }

  /** The comparison settings of a dictionary, named and given back by the rule. */
  lemma {:induction false} ConfigKept(p: Policy, m: Object, kind: string)
    requires OwnKeysOpen(p) && CONFIG in m && m[CONFIG] == SafeConfig(p, Get(Kept(p, m), CONFIG), kind)
    ensures CONFIG in Kept(p, m) && Kept(p, m)[CONFIG] == m[CONFIG]
  {
    hide Project, Kept, SafeFields;
    KeysApart();
    KeptAt(p, m);
    DictStays(p, m[CONFIG], CONFIG);
    if CONFIG in Kept(p, m) { ConfigBack(p, m[CONFIG], kind); }
  }

  lemma {:induction false} ObservationBack(p: Policy, o: Object, gateKind: string)
    requires OwnKeysOpen(p) && SafeObservation(p, Kept(p, o), gateKind) == o
    ensures Kept(p, o) == o
  {
    hide Project, Kept, Reference, NeedsReference, SafeObservation, SafeConfig, KindOf;
    KeysApart();
    var k0, kind := Kept(p, o), ObservedKind(p, Kept(p, o), gateKind);
    SafeObservationAt(p, k0, gateKind);
    KeptAt(p, o);
    forall k | k in k0 ensures k0[k] == o[k] {
      if k in ObservedFields() {
        FieldBack(p, o, k, kind);
      } else if k == CONTRACT {
        DictStays(p, o[k], CONTRACT);
        if o[k].Dict? { ContractBack(p, o[k], kind); }
      }
    }
  }

  /** A gate is left alone exactly when its children are and the gate's rule does. */
  lemma {:induction false} GateFixedIff(p: Policy, m: Object)
    requires OwnKeysOpen(p)
    ensures Fixed(p, Dict(m), Gate) <==> ChildrenFixed(p, m) && SafeGate(p, m) == m
  {
    hide Project, Kept, SafeGate, ChildrenFixed;
    ProjectDict(p, m, Gate);
    KeptWholeIff(p, m);
    if SafeGate(p, Kept(p, m)) == m { GateBack(p, m); }
  }

  lemma {:induction false} GateBack(p: Policy, m: Object)
    requires OwnKeysOpen(p) && SafeGate(p, Kept(p, m)) == m
    ensures Kept(p, m) == m
  {
    hide Project, Kept, Reference, NeedsReference, SafeObservation, SafeConfig, KindOf, SafeGate, GateFields, OwnKeysOpen;
    var k0, kind := Kept(p, m), KindOf(p, Kept(p, m), "");
    SafeGateAt(p, k0);
    ConfigKept(p, m, kind);
    if STATUS in m { StatusKept(p, m); }
    assert k0.Keys <= m.Keys by { KeptAt(p, m); }
    forall k | k in m ensures k in k0 && k0[k] == m[k] { GateKeyBack(p, m, k, kind); }
  }

  lemma {:induction false} GateKeyBack(p: Policy, m: Object, k: string, kind: string)
    requires OwnKeysOpen(p) && k in m && (k in Kept(p, m) || k in {CONFIG, STATUS})
    requires CONFIG in Kept(p, m) && CONFIG in m && Kept(p, m)[CONFIG] == m[CONFIG]
    requires k == STATUS ==> STATUS in Kept(p, m) && (m[k] == Str("reference_only") ==> Kept(p, m)[k] == m[k])
    requires k == STATUS ==> m[k] == Str("reference_only") || m[k] == Kept(p, m)[k]
    requires k !in GateFields() + {CONFIG, OBSERVATION, STATUS} ==> m[k] == Kept(p, m)[k]
    requires k in GateFields() ==>
      m[k] == if NeedsReference(p, Kept(p, m)[k], kind) then Reference(Kept(p, m)[k], kind) else Kept(p, m)[k]
    requires k == OBSERVATION ==>
      var v := Kept(p, m)[k]; m[k] == if v.Dict? then Dict(SafeObservation(p, v.entries, kind)) else v
    ensures k in Kept(p, m) && Kept(p, m)[k] == m[k]
  {
    hide Project, Kept, Reference, NeedsReference, SafeObservation, GateFields, OwnKeysOpen;
    KeysApart();
    if k in GateFields() {
      FieldBack(p, m, k, kind);
    } else if k == OBSERVATION {
      ObservationChildBack(p, m, kind);
    }
  }

  lemma {:induction false} ObservationChildBack(p: Policy, m: Object, kind: string)
    requires OwnKeysOpen(p) && OBSERVATION in Kept(p, m) && OBSERVATION in m
    requires var v := Kept(p, m)[OBSERVATION]; m[OBSERVATION] == if v.Dict? then Dict(SafeObservation(p, v.entries, kind)) else v
    ensures Kept(p, m)[OBSERVATION] == m[OBSERVATION]
  {
    hide Project, Kept, SafeObservation;
    KeysApart();
    KeptAt(p, m);
    if m[OBSERVATION].Dict? {
      ProjectDict(p, m[OBSERVATION].entries, OBSERVATION);
      ObservationBack(p, m[OBSERVATION].entries, kind);
    }
  }

  lemma WordStays(p: Policy, t: string, k: string)
    requires !Locates(k)
    ensures Project(p, Str(t), k) == Str(t)
  {
  }

  lemma StatusKept(p: Policy, m: Object)
    requires OwnKeysOpen(p) && STATUS in m
    ensures m[STATUS] == Str("reference_only") ==> STATUS in Kept(p, m) && Kept(p, m)[STATUS] == m[STATUS]
  {
    hide Project, Kept, Locates;
    KeysApart();
    WordStays(p, "reference_only", STATUS);
    KeptAt(p, m);
  }

  // ---- which trees are fixed -----------------------------------------------

  /** A finding reduced to its severity and code. */
  predicate Terse(j: Json) {
    j.Dict? && forall k :: k in j.entries ==> k in {"severity", "code"} && j.entries[k] != Null
  }

  /** Nothing in the tree would be dropped or replaced: no sensitive key, no reduced
      list, no path under a locating key, no metric value in clear that must not be. */
  ghost predicate Clean(p: Policy, j: Json, parent: string)
    decreases j, 0
  {
    match j
    case Dict(m) =>
      && (forall k :: k in m ==> !p.sensitive(k) && ChildClean(p, k, m[k]))
      && (parent == Gate ==> GateQuiet(p, m) && NamedGate(m) == m && Marked(m) == m)
    case List(xs) => forall i :: 0 <= i < |xs| ==> xs[i] != Null && Clean(p, xs[i], parent)
    case Str(s) => !(p.pathLike(s) && Locates(parent))
    case _ => true
  }

  ghost predicate ChildClean(p: Policy, k: string, j: Json)
    decreases j, 1
  {
    if Listed(k, j) then forall i :: 0 <= i < |j.items| ==> Terse(j.items[i]) else Clean(p, j, k)
  }

  lemma FindingIff(o: Object)
    ensures Finding(o) == Dict(o) <==> Terse(Dict(o))
  {
    var f := Finding(o);
    if f == Dict(o) {
      forall k | k in o ensures k in {"severity", "code"} && o[k] != Null { assert k in f.entries; }
    }
    if Terse(Dict(o)) { assert f.entries == o; }
  }

  lemma {:induction false} FindingsIff(items: seq<Json>)
    ensures |Findings(items)| <= |items|
    ensures Findings(items) == items <==> forall i :: 0 <= i < |items| ==> Terse(items[i])
  {
    hide Finding, Terse;
    if items != [] {
      FindingsIff(items[1..]);
      TerseIsDict(items[0]);
      if items[0].Dict? {
        FindingIff(items[0].entries);
        assert Findings(items) == [Finding(items[0].entries)] + Findings(items[1..]);
        assert items == [items[0]] + items[1..];
        assert Findings(items)[1..] == Findings(items[1..]);
        assert forall i :: 0 <= i < |items| - 1 ==> items[1..][i] == items[i + 1];
      } else {
        assert Findings(items) == Findings(items[1..]);
      }
    }
  }

  lemma TerseIsDict(j: Json)
    ensures Terse(j) ==> j.Dict?
  {
  }

  lemma {:induction false} ProjectAllIff(p: Policy, xs: seq<Json>, parent: string)
    ensures |ProjectAll(p, xs, parent)| <= |xs|
    ensures ProjectAll(p, xs, parent) == xs <==> forall i :: 0 <= i < |xs| ==> xs[i] != Null && Fixed(p, xs[i], parent)
  {
    hide Project;
    if xs != [] {
      ProjectAllIff(p, xs[1..], parent);
      NullStays(p, parent);
      var head, rest := Project(p, xs[0], parent), ProjectAll(p, xs[1..], parent);
      assert xs == [xs[0]] + xs[1..];
      assert forall i :: 0 <= i < |xs| - 1 ==> xs[1..][i] == xs[i + 1];
      if head != Null {
        assert ([head] + rest)[1..] == rest;
      } else {
        assert [] + rest == rest;
      }
    }
  }

  lemma NullStays(p: Policy, parent: string)
    ensures Project(p, Null, parent) == Null
  {
  }

  lemma {:induction false} CleanDict(p: Policy, m: Object, parent: string)
    requires OwnKeysOpen(p) && forall k :: k in m ==> (ChildFixed(p, k, m[k]) <==> ChildClean(p, k, m[k]))
    ensures Fixed(p, Dict(m), parent) <==> Clean(p, Dict(m), parent)
  {
    hide Project, SafeGate, OwnKeysOpen, GateQuiet, NamedGate, Marked, ChildFixed, ChildClean;
    if parent == Gate {
      GateFixedIff(p, m);
      SettledGate(p, m);
    } else {
      FixedDict(p, m, parent);
    }
  }

  /** The projection leaves a tree alone exactly when it is clean. */
  lemma {:induction false} FixedIff(p: Policy, j: Json, parent: string)
    requires OwnKeysOpen(p)
    ensures Fixed(p, j, parent) <==> Clean(p, j, parent)
    decreases j, 0
  {
    match j
    case Dict(m) =>
      forall k | k in m ensures ChildFixed(p, k, m[k]) <==> ChildClean(p, k, m[k]) { ChildFixedIff(p, k, m[k]); }
      CleanDict(p, m, parent);
    case List(xs) => CleanList(p, xs, parent);
    case _ =>
  }

  lemma {:induction false} ChildFixedIff(p: Policy, k: string, j: Json)
    requires OwnKeysOpen(p)
    ensures ChildFixed(p, k, j) <==> ChildClean(p, k, j)
    decreases j, 1
  {
    hide Project, OwnKeysOpen, Clean, Terse, Findings;
    if Listed(k, j) { FindingsIff(j.items); } else { FixedIff(p, j, k); }
  }

  lemma {:induction false} CleanList(p: Policy, xs: seq<Json>, parent: string)
    requires OwnKeysOpen(p)
    ensures Fixed(p, List(xs), parent) <==> Clean(p, List(xs), parent)
    decreases xs
  {
    hide OwnKeysOpen;
    ProjectAllIff(p, xs, parent);
    forall i | 0 <= i < |xs| ensures Fixed(p, xs[i], parent) <==> Clean(p, xs[i], parent) { FixedIff(p, xs[i], parent); }
  }

  // ---- which trees are final after one projection --------------------------

  /** Every metric gate that survives in the tree is quiet. What a gate carries under
      the projection's own status key does not matter: it is overwritten if loud. */
  ghost predicate Quiet(p: Policy, j: Json, parent: string) {
    match j
    case Dict(m) =>
      && (forall k :: k in m && !p.sensitive(k) && !Listed(k, m[k]) && !(parent == Gate && k == STATUS) ==> Quiet(p, m[k], k))
      && (parent == Gate ==> GateQuiet(p, Kept(p, m)))
    case List(xs) => forall i :: 0 <= i < |xs| ==> Quiet(p, xs[i], parent)
    case _ => true
  }

  lemma HoldsChild(o: Object, k: string)
    requires k in o && HoldsReference(o[k])
    ensures HoldsReference(Dict(o))
  {
  }

  lemma HoldsIsTree(j: Json)
    ensures HoldsReference(j) ==> j.Dict? || j.List?
  {
  }

  lemma NeedsTree(p: Policy, j: Json, kind: string)
    requires j.Dict? || j.List?
    ensures NeedsReference(p, j, kind)
  {
  }

  /** Replacing fields by references loses none. */
  lemma {:induction false} SafeFieldsHold(p: Policy, o: Object, fields: set<string>, kind: string)
    requires HoldsReference(Dict(o))
    ensures HoldsReference(Dict(SafeFields(p, o, fields, kind)))
  {
    hide Reference, NeedsReference;
    var s := SafeFields(p, o, fields, kind);
    if !("value_ref" in o && "full_content_sha256" in o) {
      var k :| k in o && HoldsReference(o[k]);
      RefersTo(o[k], kind);
      HoldsChild(s, k);
    }
  }

  lemma {:induction false} UpdateHolds(o: Object, k: string, v: Json)
    requires HoldsReference(Dict(o)) && (k in o && HoldsReference(o[k]) ==> HoldsReference(v))
    ensures HoldsReference(Dict(o[k := v]))
  {
    if !("value_ref" in o && "full_content_sha256" in o) {
      var f :| f in o && HoldsReference(o[f]);
      HoldsChild(o[k := v], f);
    }
  }

  lemma {:induction false} SafeConfigHolds(p: Policy, config: Json, kind: string)
    requires HoldsReference(config)
    ensures HoldsReference(SafeConfig(p, config, kind))
  {
    hide SafeFields, HoldsReference;
    if config.Dict? { SafeFieldsHold(p, config.entries, ConfigFields(), kind); }
  }

  lemma {:induction false} SafeObservationHolds(p: Policy, o: Object, gateKind: string)
    requires HoldsReference(Dict(o))
    ensures HoldsReference(Dict(SafeObservation(p, o, gateKind)))
  {
    hide SafeFields, HoldsReference, SafeConfig, KindOf;
    var contract, kind := Get(o, CONTRACT), ObservedKind(p, o, gateKind);
    if contract.Dict? {
      var c := contract.entries;
      var config := SafeConfig(p, Get(c, CONFIG), kind);
      if CONFIG in c && HoldsReference(c[CONFIG]) { SafeConfigHolds(p, c[CONFIG], kind); }
      if HoldsReference(contract) { UpdateHolds(c, CONFIG, config); }
      UpdateHolds(o, CONTRACT, Dict(c[CONFIG := config]));
      SafeFieldsHold(p, o[CONTRACT := Dict(c[CONFIG := config])], ObservedFields(), kind);
    } else {
      SafeFieldsHold(p, o, ObservedFields(), gateKind);
    }
  }

  /** A reference below a gate stays, unless it stood under the status key. */
  lemma {:induction false} LoudChild(p: Policy, g: Object, k: string)
    requires k in g && k != STATUS && HoldsReference(g[k])
    ensures HoldsReference(Dict(SafeGate(p, g)))
  {
    hide SafeGate, HoldsReference, SafeConfig, KindOf, SafeObservation, Reference, NeedsReference;
    KeysApart();
    SafeGateAt(p, g);
    HoldsIsTree(g[k]);
    var kind := KindOf(p, g, "");
    if k in GateFields() {
      NeedsTree(p, g[k], kind);
      RefersTo(g[k], kind);
    } else if k == CONFIG {
      SafeConfigHolds(p, g[k], kind);
    } else if k == OBSERVATION && g[k].Dict? {
      SafeObservationHolds(p, g[k].entries, kind);
    }
    HoldsChild(SafeGate(p, g), k);
  }

  lemma {:induction false} LoudFields(p: Policy, o: Object, fields: set<string>, kind: string, kind': string)
    requires !FieldsQuiet(p, o, fields, kind)
    ensures var s := SafeFields(p, o, fields, kind); HoldsReference(Dict(s)) && !FieldsQuiet(p, s, fields, kind')
  {
    hide Reference, NeedsReference, HoldsReference;
    var f :| f in o && f in fields && NeedsReference(p, o[f], kind);
    var s := SafeFields(p, o, fields, kind);
    RefersTo(o[f], kind);
    NeedsTree(p, s[f], kind');
    HoldsChild(s, f);
  }

  lemma {:induction false} LoudConfig(p: Policy, config: Json, kind: string, kind': string)
    requires !ConfigQuiet(p, config, kind)
    ensures var s := SafeConfig(p, config, kind); HoldsReference(s) && !ConfigQuiet(p, s, kind')
  {
    hide FieldsQuiet, SafeFields, HoldsReference;
    LoudFields(p, config.entries, ConfigFields(), kind, kind');
  }

  lemma {:induction false} LoudObservation(p: Policy, o: Object, kind: string, kind': string)
    requires !ObservationQuiet(p, o, kind)
    ensures var s := SafeObservation(p, o, kind); HoldsReference(Dict(s)) && !ObservationQuiet(p, s, kind')
  {
    hide Reference, NeedsReference, HoldsReference, SafeConfig, KindOf, SafeObservation, ConfigQuiet;
    KeysApart();
    var s, k := SafeObservation(p, o, kind), ObservedKind(p, o, kind);
    var k' := ObservedKind(p, s, kind');
    SafeObservationAt(p, o, kind);
    if !FieldsQuiet(p, o, ObservedFields(), k) {
      var f :| f in o && f in ObservedFields() && NeedsReference(p, o[f], k);
      RefersTo(o[f], k);
      NeedsTree(p, s[f], k');
      HoldsChild(s, f);
    } else {
      var c := Get(o, CONTRACT).entries;
      LoudConfig(p, Get(c, CONFIG), k, k');
      HoldsChild(s[CONTRACT].entries, CONFIG);
      HoldsChild(s, CONTRACT);
    }
  }

  /** A gate whose values are replaced holds a reference, and stays loud. */
  lemma {:induction false} LoudGate(p: Policy, g: Object)
    requires !GateQuiet(p, g)
    ensures var m := SafeGate(p, g); HoldsReference(Dict(m)) && !GateQuiet(p, m)
  {
    hide Reference, NeedsReference, HoldsReference, SafeConfig, KindOf, SafeObservation, ConfigQuiet, ObservationQuiet, SafeGate;
    KeysApart();
    var m, kind := SafeGate(p, g), KindOf(p, g, "");
    var kind' := KindOf(p, m, "");
    SafeGateAt(p, g);
    if !FieldsQuiet(p, g, GateFields(), kind) {
      var f :| f in g && f in GateFields() && NeedsReference(p, g[f], kind);
      RefersTo(g[f], kind);
      NeedsTree(p, m[f], kind');
      HoldsChild(m, f);
    } else if !ConfigQuiet(p, Get(g, CONFIG), kind) {
      LoudConfig(p, Get(g, CONFIG), kind, kind');
      HoldsChild(m, CONFIG);
    } else {
      LoudObservation(p, g[OBSERVATION].entries, kind, kind');
      HoldsChild(m, OBSERVATION);
    }
  }

  /** A tree that is not quiet shows it: its projection holds a reference. */
  lemma {:induction false} LoudHolds(p: Policy, j: Json, parent: string)
    requires !Quiet(p, j, parent)
    ensures HoldsReference(Project(p, j, parent))
    decreases j
  {
    match j
    case Dict(m) =>
      hide Project, Kept, GateQuiet, SafeGate, HoldsReference;
      var kept := Kept(p, m);
      ProjectDict(p, m, parent);
      KeptAt(p, m);
      if parent == Gate && !GateQuiet(p, kept) {
        LoudGate(p, kept);
      } else {
        var k :| k in m && !p.sensitive(k) && !Listed(k, m[k]) && !(parent == Gate && k == STATUS) && !Quiet(p, m[k], k);
        LoudHolds(p, m[k], k);
        HoldsIsTree(Project(p, m[k], k));
        if parent == Gate { LoudChild(p, kept, k); } else { HoldsChild(kept, k); }
      }
    case List(xs) => LoudList(p, xs, parent);
  }

  lemma {:induction false} LoudList(p: Policy, xs: seq<Json>, parent: string)
    requires exists i :: 0 <= i < |xs| && !Quiet(p, xs[i], parent)
    ensures HoldsReference(List(ProjectAll(p, xs, parent)))
    decreases xs
  {
    hide Quiet, Project;
    var head, rest := Project(p, xs[0], parent), ProjectAll(p, xs[1..], parent);
    var all := ProjectAll(p, xs, parent);
    if !Quiet(p, xs[0], parent) {
      LoudHolds(p, xs[0], parent);
      HoldsIsTree(head);
      assert all[0] == head;
    } else {
      var i :| 0 <= i < |xs| && !Quiet(p, xs[i], parent);
      assert xs[1..][i - 1] == xs[i];
      LoudList(p, xs[1..], parent);
      var n :| 0 <= n < |rest| && HoldsReference(rest[n]);
      assert all[|all| - |rest| + n] == rest[n];
    }
  }

  // ---- naming and marking --------------------------------------------------

  /** A gate reads the same to the gate rule if its own fields are the same. */
  lemma {:induction false} QuietAfter(p: Policy, g: Object)
    requires GateQuiet(p, g)
    ensures GateQuiet(p, Marked(NamedGate(g)))
  {
    hide NeedsReference, HoldsReference;
    NotObserved();
    var m := Marked(NamedGate(g));
    assert forall k :: k in GateFields() + {"value_kind"} ==> (k in m <==> k in g) && Get(m, k) == Get(g, k);
    assert Get(m, "comparison_config") == Get(g, "comparison_config");
    if Get(g, "metric_observation").Dict? {
      QuietObservationAfter(p, Get(g, "metric_observation").entries, KindOf(p, g, ""));
    }
  }

  lemma QuietObservationAfter(p: Policy, o: Object, kind: string)
    requires ObservationQuiet(p, o, kind)
    ensures ObservationQuiet(p, NamedObservation(o), kind)
  {
  }

  lemma NamedOnce(g: Object)
    ensures NamedGate(Marked(NamedGate(g))) == Marked(NamedGate(g))
    ensures Marked(NamedGate(Marked(NamedGate(g)))) == Marked(NamedGate(g))
  {
    hide HoldsReference, NamedObservation;
    NotObserved();
    var named := NamedGate(g);
    var m := Marked(named);
    assert "comparison_config" in m && Named(m) == m;
    var observation := Get(g, "metric_observation");
    if observation.Dict? {
      NamedObservationOnce(observation.entries);
      assert Get(m, "metric_observation") == Dict(NamedObservation(observation.entries));
    } else {
      assert Get(m, "metric_observation") == observation;
    }
  }

  lemma NamedObservationOnce(o: Object)
    ensures NamedObservation(NamedObservation(o)) == NamedObservation(o)
  {
    var contract := Get(o, "metric_contract");
    if contract.Dict? {
      assert Named(Named(contract.entries)) == Named(contract.entries);
    }
  }

  /** Naming the settings of a dictionary neither makes nor breaks a fixed point. */
  lemma NamedFixed(p: Policy, o: Object)
    requires OwnKeysOpen(p)
    ensures ChildrenFixed(p, Named(o)) <==> ChildrenFixed(p, o)
  {
    hide Project, Findings;
    NullStays(p, CONFIG);
    KeysApart();
    if ChildrenFixed(p, Named(o)) {
      forall k | k in o ensures !p.sensitive(k) && ChildFixed(p, k, o[k]) { assert Named(o)[k] == o[k]; }
    }
  }

  lemma NamedContract(p: Policy, c: Object)
    requires OwnKeysOpen(p)
    ensures ChildFixed(p, CONTRACT, Dict(Named(c))) <==> ChildFixed(p, CONTRACT, Dict(c))
  {
    hide Project, Findings, OwnKeysOpen, Named, ChildrenFixed;
    KeysApart();
    FixedDict(p, c, CONTRACT);
    NamedFixed(p, c);
    FixedDict(p, Named(c), CONTRACT);
  }

  lemma {:induction false} NamedObservationFixed(p: Policy, o: Object)
    requires OwnKeysOpen(p)
    ensures ChildrenFixed(p, NamedObservation(o)) <==> ChildrenFixed(p, o)
  {
    hide OwnKeysOpen, Named, ChildFixed;
    var contract, named := Get(o, CONTRACT), NamedObservation(o);
    if contract.Dict? {
      NamedContract(p, contract.entries);
      assert named.Keys == o.Keys && forall k :: k in o && k != CONTRACT ==> named[k] == o[k];
    }
  }

  lemma NamedGateAt(g: Object)
    ensures var m := NamedGate(g); var observation := Get(g, OBSERVATION);
      && m.Keys == g.Keys + {CONFIG}
      && (forall k :: k in g && k != OBSERVATION ==> m[k] == g[k]) && (CONFIG !in g ==> m[CONFIG] == Null)
      && (OBSERVATION in g ==>
            m[OBSERVATION] == if observation.Dict? then Dict(NamedObservation(observation.entries)) else observation)
  {
    hide NamedObservation;
    KeysApart();
  }

  lemma {:induction false} NamedChild(p: Policy, g: Object, k: string)
    requires OwnKeysOpen(p) && k in g
    ensures k in NamedGate(g) && (ChildFixed(p, k, NamedGate(g)[k]) <==> ChildFixed(p, k, g[k]))
  {
    hide Project, Findings, NamedObservation, OwnKeysOpen, NamedGate;
    NamedGateAt(g);
    if k == OBSERVATION && g[k].Dict? {
      KeysApart();
      FixedDict(p, g[k].entries, OBSERVATION);
      NamedObservationFixed(p, g[k].entries);
      FixedDict(p, NamedObservation(g[k].entries), OBSERVATION);
    }
  }

  /** The children of a named and marked gate are fixed exactly when the gate's own
      are, whatever an overwritten status was. */
  lemma {:induction false} MarkedFixed(p: Policy, g: Object)
    requires OwnKeysOpen(p) && forall k :: k in g ==> !p.sensitive(k)
    requires STATUS in g && !HoldsReference(Dict(NamedGate(g))) ==> ChildFixed(p, STATUS, g[STATUS])
    ensures ChildrenFixed(p, Marked(NamedGate(g))) <==> forall k :: k in g && k != STATUS ==> ChildFixed(p, k, g[k])
  {
    hide Project, Findings, HoldsReference, NamedObservation, Locates, NamedGate, ChildFixed;
    var n := NamedGate(g);
    var m := Marked(n);
    NamedGateAt(g);
    SettledChildren(p);
    forall k | k in g ensures k in n && (ChildFixed(p, k, n[k]) <==> ChildFixed(p, k, g[k])) { NamedChild(p, g, k); }
    assert forall k :: k in n && k != STATUS ==> k in m && m[k] == n[k];
    assert forall k :: k in m ==> k in n || k == STATUS;
    if STATUS in m {
      assert m[STATUS] == Str("reference_only") || (STATUS in g && m[STATUS] == n[STATUS]);
    }
  }

  lemma SettledChildren(p: Policy)
    requires OwnKeysOpen(p)
    ensures ChildFixed(p, CONFIG, Null) && ChildFixed(p, STATUS, Str("reference_only"))
    ensures !p.sensitive(CONFIG) && !p.sensitive(STATUS) && CONFIG != STATUS
  {
    hide Project, Locates;
    KeysApart();
    NullStays(p, CONFIG);
    WordStays(p, "reference_only", STATUS);
  }

  // ---- projecting twice ----------------------------------------------------

  lemma {:induction false} FindingsTwice(items: seq<Json>)
    ensures Findings(Findings(items)) == Findings(items)
  {
    if items != [] {
      FindingsTwice(items[1..]);
      if items[0].Dict? {
        FindingTwice(items[0].entries);
        assert Findings(items) == [Finding(items[0].entries)] + Findings(items[1..]);
        assert Findings(items)[1..] == Findings(items[1..]);
      } else {
        assert [] + Findings(items[1..]) == Findings(items[1..]);
      }
    }
  }

  lemma FindingTwice(o: Object)
    ensures Finding(Finding(o).entries) == Finding(o)
  {
  }

  /** Projecting a projected tree changes nothing exactly when every metric gate that
      survives in it is quiet. */
  lemma {:induction false} ProjectTwiceIff(p: Policy, j: Json, parent: string)
    requires OwnKeysOpen(p)
    ensures Fixed(p, Project(p, j, parent), parent) <==> Quiet(p, j, parent)
    decreases j
  {
    match j
    case Dict(m) =>
      hide Project, Kept, GateQuiet, SafeGate, Findings, OwnKeysOpen, HoldsReference;
      var kept := Kept(p, m);
      KeptAt(p, m);
      forall k | k in kept
        ensures ChildFixed(p, k, kept[k]) <==> Listed(k, m[k]) || Quiet(p, m[k], k)
      {
        if Listed(k, m[k]) {
          FindingsTwice(m[k].items);
        } else {
          ProjectTwiceIff(p, m[k], k);
          DictStays(p, m[k], k);
        }
      }
      forall k | k in m && !p.sensitive(k) && k !in kept ensures Quiet(p, m[k], k) { DictStays(p, m[k], k); }
      ProjectDict(p, m, parent);
      if parent == Gate {
        GateTwice(p, m);
      } else {
        FixedDict(p, kept, parent);
      }
    case List(xs) => ProjectAllTwice(p, xs, parent);
    case _ =>
  }

  /** The gate case, its children settled. */
  lemma {:induction false} GateTwice(p: Policy, m: Object)
    requires OwnKeysOpen(p)
    requires STATUS in Kept(p, m) ==>
      (ChildFixed(p, STATUS, Kept(p, m)[STATUS]) <==> Listed(STATUS, m[STATUS]) || Quiet(p, m[STATUS], STATUS))
    ensures Fixed(p, Dict(SafeGate(p, Kept(p, m))), Gate) <==>
            && GateQuiet(p, Kept(p, m))
            && forall k :: k in Kept(p, m) && k != STATUS ==> ChildFixed(p, k, Kept(p, m)[k])
  {
    hide Project, Kept, GateQuiet, SafeGate, Findings, OwnKeysOpen, HoldsReference, NamedGate, ChildFixed, Marked;
    var g := Kept(p, m);
    var r := SafeGate(p, g);
    KeptAt(p, m);
    KeysApart();
    GateFixedIff(p, r);
    SettledGate(p, r);
    if GateQuiet(p, g) {
      QuietGate(p, g);
      QuietAfter(p, g);
      NamedOnce(g);
      if STATUS in g && !HoldsReference(Dict(NamedGate(g))) { StatusQuiet(p, m); }
      MarkedFixed(p, g);
    } else {
      LoudGate(p, g);
    }
  }

  /** A status that is not overwritten is quiet. */
  lemma {:induction false} StatusQuiet(p: Policy, m: Object)
    requires STATUS in Kept(p, m) && !HoldsReference(Dict(NamedGate(Kept(p, m))))
    ensures Quiet(p, m[STATUS], STATUS)
  {
    hide Project, Kept, HoldsReference;
    KeptAt(p, m);
    KeysApart();
    var g := Kept(p, m);
    if !Quiet(p, m[STATUS], STATUS) {
      LoudHolds(p, m[STATUS], STATUS);
      HoldsChild(NamedGate(g), STATUS);
    }
  }

  lemma ConsFixed(p: Policy, head: Json, rest: seq<Json>, parent: string)
    requires head != Null
    ensures ProjectAll(p, [head] + rest, parent) == [head] + rest <==>
            Fixed(p, head, parent) && ProjectAll(p, rest, parent) == rest
  {
    hide Project;
    ProjectAllIff(p, rest, parent);
    var again, more := Project(p, head, parent), ProjectAll(p, rest, parent);
    assert ([head] + rest)[1..] == rest;
    if again != Null {
      assert ([again] + more)[0] == again && ([again] + more)[1..] == more;
    } else {
      assert [] + more == more;
    }
  }

  ghost predicate AllQuiet(p: Policy, xs: seq<Json>, parent: string) {
    forall i :: 0 <= i < |xs| ==> Quiet(p, xs[i], parent)
  }

  lemma AllQuietCons(p: Policy, xs: seq<Json>, parent: string)
    requires xs != []
    ensures AllQuiet(p, xs, parent) <==> Quiet(p, xs[0], parent) && AllQuiet(p, xs[1..], parent)
  {
    hide Quiet;
    assert forall i :: 0 <= i < |xs| - 1 ==> xs[1..][i] == xs[i + 1];
  }

  lemma {:induction false} ProjectAllTwice(p: Policy, xs: seq<Json>, parent: string)
    requires OwnKeysOpen(p)
    ensures ProjectAll(p, ProjectAll(p, xs, parent), parent) == ProjectAll(p, xs, parent) <==> AllQuiet(p, xs, parent)
    decreases xs
  {
    hide Quiet, Project, OwnKeysOpen, AllQuiet;
    if xs == [] {
      assert AllQuiet(p, xs, parent) by { NothingLoud(p, xs, parent); }
    } else {
      ProjectTwiceIff(p, xs[0], parent);
      ProjectAllTwice(p, xs[1..], parent);
      AllQuietCons(p, xs, parent);
      var head, rest := Project(p, xs[0], parent), ProjectAll(p, xs[1..], parent);
      if head != Null {
        ConsFixed(p, head, rest, parent);
      } else {
        assert [] + rest == rest;
        NullQuiet(p, xs[0], parent);
      }
    }
  }

  lemma NothingLoud(p: Policy, xs: seq<Json>, parent: string)
    requires xs == []
    ensures AllQuiet(p, xs, parent)
  {
  }

  lemma NullQuiet(p: Policy, j: Json, parent: string)
    requires Project(p, j, parent) == Null
    ensures Quiet(p, j, parent)
  {
  }

  /** So a metric gate with settled children is left alone by a second projection
      exactly when none of its metric values is replaced by a reference. */
  lemma {:induction false} GateTwiceIff(p: Policy, g: Object)
    requires OwnKeysOpen(p) && ChildrenFixed(p, g)
    ensures Fixed(p, Dict(SafeGate(p, g)), Gate) <==> GateQuiet(p, g)
  {
    hide Project, SafeGate, GateQuiet, OwnKeysOpen, Kept, ChildFixed, Quiet;
    KeptWholeIff(p, g);
    if STATUS in g {
      assert ChildFixed(p, STATUS, g[STATUS]);
      FixedIsQuiet(p, g);
    }
    GateTwice(p, g);
  }

  lemma {:induction false} FixedIsQuiet(p: Policy, g: Object)
    requires OwnKeysOpen(p) && STATUS in g && ChildFixed(p, STATUS, g[STATUS])
    ensures Listed(STATUS, g[STATUS]) || Quiet(p, g[STATUS], STATUS)
  {
    hide Project, OwnKeysOpen, Quiet;
    ProjectTwiceIff(p, g[STATUS], STATUS);
  }
}
