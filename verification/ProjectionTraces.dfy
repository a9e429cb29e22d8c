/** The projection applied again and again: a value that ever comes back was never
    changed. */
module ProjectionTraces {
  import opened Json
  import opened DurableProjection
  import opened DurableIdempotence

  // ---- references only grow ------------------------------------------------

  /** How many references are wrapped around each other. */
  function RefDepth(j: Json): nat {
    if j.Dict? && "value_ref" in j.entries && j.entries["value_ref"].Sha? then 1 + RefDepth(j.entries["value_ref"].of) else 0
  }

  lemma DepthStays(p: Policy, j: Json, k: string)
    requires OwnKeysOpen(p) && k != Gate
    ensures RefDepth(Project(p, j, k)) == RefDepth(j)
  {
    hide Project, Kept;
    DictStays(p, j, k);
    if j.Dict? {
      var m, r := j.entries, "value_ref";
      ProjectDict(p, m, k);
      KeptAt(p, m);
      assert r != "findings" by { assert |r| == 9 && |"findings"| == 8; }
      if r in m { ShaOnly(p, m[r], r); }
    }
  }

  lemma ShaOnly(p: Policy, v: Json, k: string)
    ensures v.Sha? ==> Project(p, v, k) == v
    ensures Project(p, v, k).Sha? ==> v.Sha?
  {
  }

  lemma ReferenceDepth(v: Json, kind: string)
    ensures RefDepth(Reference(v, kind)) == 1 + RefDepth(v)
  {
    hide Reference;
    RefersTo(v, kind);
  }

  // ---- what becomes of a value ---------------------------------------------

  /** How a value is treated where it stands: projected; projected and replaced if it
      must be; or as comparison settings, contract, observation or mark of a gate. */
  datatype Role = Ordinary | Field | Settings | ContractOf | ObservationOf | Mark

  function FieldNext(p: Policy, k: string, a: Json, kind: string): Json {
    var v := Project(p, a, k);
    if NeedsReference(p, v, kind) then Reference(v, kind) else v
  }

  function SettingsNext(p: Policy, a: Json, kind: string): Json { SafeConfig(p, Project(p, a, CONFIG), kind) }

  function ContractNext(p: Policy, a: Json, kind: string): Json {
    var c := Project(p, a, CONTRACT);
    if c.Dict? then Dict(c.entries[CONFIG := SafeConfig(p, Get(c.entries, CONFIG), kind)]) else c
  }

  function ObservationNext(p: Policy, a: Json, kind: string): Json {
    var o := Project(p, a, OBSERVATION);
    if o.Dict? then Dict(SafeObservation(p, o.entries, kind)) else o
  }

  ghost predicate Next(p: Policy, k: string, role: Role, a: Json, b: Json) {
    match role
    case Ordinary => b == if Listed(k, a) then List(Findings(a.items)) else Project(p, a, k)
    case Field => exists kind :: b == FieldNext(p, k, a, kind)
    case Settings => exists kind :: b == SettingsNext(p, a, kind)
    case ContractOf => exists kind :: b == ContractNext(p, a, kind)
    case ObservationOf => exists kind :: b == ObservationNext(p, a, kind)
    case Mark => b == Project(p, a, k) || b == Str("reference_only")
  }

  /** The dictionaries in which a role's values stand. */
  datatype Place = Bare | InSettings | InContract | InObservation | InGate

  function RoleIn(place: Place, k: string): Role {
    match place
    case Bare => Ordinary
    case InSettings => if k in ConfigFields() then Field else Ordinary
    case InContract => if k == CONFIG then Settings else Ordinary
    case InObservation => if k == CONTRACT then ContractOf else if k in ObservedFields() then Field else Ordinary
    case InGate =>
      if k in GateFields() then Field
      else if k == CONFIG then Settings
      else if k == OBSERVATION then ObservationOf
      else if k == STATUS then Mark
      else Ordinary
  }

  lemma RolesInGate(k: string)
    ensures k == CONFIG ==> RoleIn(InGate, k) == Settings
    ensures k == STATUS ==> RoleIn(InGate, k) == Mark
    ensures k == OBSERVATION ==> RoleIn(InGate, k) == ObservationOf
    ensures k in GateFields() ==> RoleIn(InGate, k) == Field
    ensures k !in GateFields() + {CONFIG, OBSERVATION, STATUS} ==> RoleIn(InGate, k) == Ordinary
  {
    hide GateFields;
    KeysApart();
  }

  lemma RolesInObservation(k: string)
    ensures k == CONTRACT ==> RoleIn(InObservation, k) == ContractOf
    ensures k in ObservedFields() ==> RoleIn(InObservation, k) == Field
    ensures k !in ObservedFields() + {CONTRACT} ==> RoleIn(InObservation, k) == Ordinary
  {
    hide ObservedFields;
    KeysApart();
  }

  /** Keys that a place may add, and then keeps. */
  function Added(place: Place): set<string> {
    match place
    case InContract => {CONFIG}
    case InGate => {CONFIG, STATUS}
    case _ => {}
  }

  ghost predicate Step(p: Policy, place: Place, a: Object, b: Object) {
    && b.Keys <= a.Keys + Added(place)
    && (forall k :: k in a && k in Added(place) ==> k in b)
    && forall k :: k in a && k in b ==> Next(p, k, RoleIn(place, k), a[k], b[k])
  }

  // ---- traces --------------------------------------------------------------

  /** A value and what becomes of it, ending where it began. */
  ghost predicate Trace(p: Policy, k: string, role: Role, cs: seq<Json>) {
    && |cs| >= 2 && cs[|cs| - 1] == cs[0]
    && forall i :: 0 <= i < |cs| - 1 ==> Next(p, k, role, cs[i], cs[i + 1])
  }

  ghost predicate Course(p: Policy, place: Place, ms: seq<Object>) {
    && |ms| >= 2 && ms[|ms| - 1] == ms[0]
    && forall i :: 0 <= i < |ms| - 1 ==> Step(p, place, ms[i], ms[i + 1])
  }

  lemma {:induction false} Persists(ms: seq<Object>, k: string, i: nat, j: nat)
    requires i <= j < |ms| && k in ms[i] && forall n :: 0 <= n < |ms| - 1 && k in ms[n] ==> k in ms[n + 1]
    ensures k in ms[j]
    decreases j - i
  {
    if i < j { Persists(ms, k, i + 1, j); }
  }

  lemma {:induction false} Vanishes(ms: seq<Object>, k: string, i: nat, j: nat)
    requires i <= j < |ms| && k !in ms[i] && forall n :: 0 <= n < |ms| - 1 && k !in ms[n] ==> k !in ms[n + 1]
    ensures k !in ms[j]
    decreases j - i
  {
    if i < j { Vanishes(ms, k, i + 1, j); }
  }

  /** Along a closed course no key comes or goes. */
  lemma {:induction false} KeysConstant(p: Policy, place: Place, ms: seq<Object>, i: nat)
    requires Course(p, place, ms) && i < |ms|
    ensures ms[i].Keys == ms[0].Keys
  {
    hide Next;
    var n := |ms| - 1;
    forall k ensures k in ms[i] <==> k in ms[0] {
      if k in Added(place) {
        if k in ms[0] { Persists(ms, k, 0, i); }
        if k in ms[i] { Persists(ms, k, i, n); }
      } else {
        if k !in ms[0] { Vanishes(ms, k, 0, i); }
        if k !in ms[i] { Vanishes(ms, k, i, n); }
      }
    }
  }

  /** Numbers that never fall and end where they began never rose. */
  lemma {:induction false} NeverRises(ns: seq<nat>, i: nat, j: nat)
    requires i <= j < |ns| && forall n :: 0 <= n < |ns| - 1 ==> ns[n] <= ns[n + 1]
    ensures ns[i] <= ns[j]
    decreases j - i
  {
    if i < j { NeverRises(ns, i + 1, j); }
  }

  lemma FieldDepth(p: Policy, k: string, a: Json, kind: string)
    requires OwnKeysOpen(p) && k != Gate
    ensures RefDepth(a) <= RefDepth(FieldNext(p, k, a, kind))
    ensures RefDepth(FieldNext(p, k, a, kind)) == RefDepth(a) ==> FieldNext(p, k, a, kind) == Project(p, a, k)
  {
    hide Project, NeedsReference, Reference;
    DepthStays(p, a, k);
    ReferenceDepth(Project(p, a, k), kind);
  }

  /** A field that comes back was never replaced. */
  lemma {:induction false} FieldIsPlain(p: Policy, k: string, cs: seq<Json>)
    requires OwnKeysOpen(p) && k != Gate && Trace(p, k, Field, cs)
    ensures forall i :: 0 <= i < |cs| - 1 ==> cs[i + 1] == Project(p, cs[i], k)
  {
    hide Project, FieldNext, RefDepth;
    var ns := seq(|cs|, i requires 0 <= i < |cs| => RefDepth(cs[i]));
    forall i | 0 <= i < |cs| - 1
      ensures ns[i] <= ns[i + 1] && (ns[i + 1] == ns[i] ==> cs[i + 1] == Project(p, cs[i], k))
    {
      var kind :| cs[i + 1] == FieldNext(p, k, cs[i], kind);
      FieldDepth(p, k, cs[i], kind);
    }
    forall i | 0 <= i < |cs| - 1 ensures cs[i + 1] == Project(p, cs[i], k) {
      NeverRises(ns, 0, i);
      NeverRises(ns, i + 1, |ns| - 1);
    }
  }

  // ---- each stage of the projection is a step ------------------------------

  lemma ChildNext(p: Policy, m: Object, k: string)
    requires k in Kept(p, m)
    ensures k in m && Kept(p, m)[k] == if Listed(k, m[k]) then List(Findings(m[k].items)) else Project(p, m[k], k)
  {
    hide Project, Kept, Findings;
    KeptAt(p, m);
  }

  lemma KeptSteps(p: Policy, m: Object)
    ensures Step(p, Bare, m, Kept(p, m))
  {
    hide Project, Kept, Findings;
    KeptAt(p, m);
  }

  /** A key the projection does not read as findings reads the same in what is kept. */
  lemma KeptReads(p: Policy, m: Object, k: string)
    requires k != "findings" && !p.sensitive(k)
    ensures Get(Kept(p, m), k) == Project(p, Get(m, k), k)
  {
    hide Project, Kept, Findings;
    KeptAt(p, m);
    NullStays(p, k);
  }

  lemma FieldSteps(p: Policy, m: Object, k: string, kind: string)
    requires k in Kept(p, m) && k != "findings"
    ensures k in m && (if NeedsReference(p, Kept(p, m)[k], kind) then Reference(Kept(p, m)[k], kind) else Kept(p, m)[k])
                      == FieldNext(p, k, m[k], kind)
  {
    hide Project, Kept, Reference, NeedsReference;
    ChildNext(p, m, k);
  }

  lemma SettingsSteps(p: Policy, m: Object, kind: string)
    ensures Step(p, InSettings, m, SafeFields(p, Kept(p, m), ConfigFields(), kind))
  {
    hide Project, Kept, Reference, NeedsReference, Findings, FieldNext;
    var s := SafeFields(p, Kept(p, m), ConfigFields(), kind);
    KeptAt(p, m);
    KeysApart();
    forall k | k in m && k in s ensures Next(p, k, RoleIn(InSettings, k), m[k], s[k]) {
      ChildNext(p, m, k);
      if k in ConfigFields() { FieldSteps(p, m, k, kind); }
    }
  }

  lemma ContractSteps(p: Policy, m: Object, kind: string)
    requires OwnKeysOpen(p)
    ensures var c := Kept(p, m); Step(p, InContract, m, c[CONFIG := SafeConfig(p, Get(c, CONFIG), kind)])
  {
    hide Project, Kept, SafeConfig, Findings, SettingsNext, OwnKeysOpen, NeedsReference;
    var c := Kept(p, m);
    var s := c[CONFIG := SafeConfig(p, Get(c, CONFIG), kind)];
    KeptAt(p, m);
    ConfigOpen(p);
    assert CONFIG != "findings" by { KeysApart(); }
    KeptReads(p, m, CONFIG);
    forall k | k in m && k in s ensures Next(p, k, RoleIn(InContract, k), m[k], s[k]) {
      if k == CONFIG {
        assert s[k] == SettingsNext(p, m[k], kind) by { SettingsMeans(p, m[k], kind); }
      } else {
        ChildNext(p, m, k);
      }
    }
  }

  lemma SettingsMeans(p: Policy, a: Json, kind: string)
    ensures SettingsNext(p, a, kind) == SafeConfig(p, Project(p, a, CONFIG), kind)
  {
  }

  lemma {:induction false} ObservationKeySteps(p: Policy, m: Object, kind: string, k: string)
    requires OwnKeysOpen(p) && k in m && k in SafeObservation(p, Kept(p, m), kind)
    ensures Next(p, k, RoleIn(InObservation, k), m[k], SafeObservation(p, Kept(p, m), kind)[k])
  {
    hide Project, Kept, SafeConfig, Findings, SafeObservation, NeedsReference, Reference, KindOf, FieldNext, ContractNext, ObservedFields,
      OwnKeysOpen, RoleIn;
    var s, own := SafeObservation(p, Kept(p, m), kind), ObservedKind(p, Kept(p, m), kind);
    RolesInObservation(k);
    SafeObservationAt(p, Kept(p, m), kind);
    ChildNext(p, m, k);
    KeysApart();
    if k == CONTRACT {
      ContractMeans(p, m[k], own);
      assert s[k] == ContractNext(p, m[k], own);
    } else if k in ObservedFields() {
      FieldSteps(p, m, k, own);
      assert s[k] == FieldNext(p, k, m[k], own);
    }
  }

  lemma ObservationSteps(p: Policy, m: Object, kind: string)
    requires OwnKeysOpen(p)
    ensures Step(p, InObservation, m, SafeObservation(p, Kept(p, m), kind))
  {
    hide Project, Kept, Findings, SafeObservation, OwnKeysOpen, Next;
    SafeObservationAt(p, Kept(p, m), kind);
    KeptAt(p, m);
    var s := SafeObservation(p, Kept(p, m), kind);
    forall k | k in m && k in s ensures Next(p, k, RoleIn(InObservation, k), m[k], s[k]) { ObservationKeySteps(p, m, kind, k); }
  }

  lemma ContractMeans(p: Policy, a: Json, kind: string)
    ensures var c := Project(p, a, CONTRACT);
            ContractNext(p, a, kind) == if c.Dict? then Dict(c.entries[CONFIG := SafeConfig(p, Get(c.entries, CONFIG), kind)]) else c
  {
  }

  lemma {:induction false} GateFieldSteps(p: Policy, m: Object, k: string)
    requires k in m && k in Kept(p, m) && k in GateFields()
    ensures Next(p, k, Field, m[k], SafeGate(p, Kept(p, m))[k])
  {
    hide Project, Kept, SafeGate, NeedsReference, Reference, KindOf, FieldNext, GateFields, SafeConfig, SafeObservation;
    var kind := KindOf(p, Kept(p, m), "");
    KeysApart();
    SafeGateAt(p, Kept(p, m));
    FieldSteps(p, m, k, kind);
    assert SafeGate(p, Kept(p, m))[k] == FieldNext(p, k, m[k], kind);
  }

  lemma {:induction false} GateObservationSteps(p: Policy, m: Object)
    requires OBSERVATION in m && OBSERVATION in Kept(p, m)
    ensures OBSERVATION in SafeGate(p, Kept(p, m))
    ensures Next(p, OBSERVATION, ObservationOf, m[OBSERVATION], SafeGate(p, Kept(p, m))[OBSERVATION])
  {
    hide Project, Kept, SafeGate, NeedsReference, KindOf, GateFields, SafeConfig, SafeObservation, ObservationNext;
    var kind := KindOf(p, Kept(p, m), "");
    KeysApart();
    SafeGateAt(p, Kept(p, m));
    ChildNext(p, m, OBSERVATION);
    ObservationMeans(p, m[OBSERVATION], kind);
    assert SafeGate(p, Kept(p, m))[OBSERVATION] == ObservationNext(p, m[OBSERVATION], kind);
  }

  lemma {:induction false} GateSettingsSteps(p: Policy, m: Object)
    requires OwnKeysOpen(p) && CONFIG in m
    ensures CONFIG in SafeGate(p, Kept(p, m)) && Next(p, CONFIG, Settings, m[CONFIG], SafeGate(p, Kept(p, m))[CONFIG])
  {
    hide Project, Kept, SafeGate, NeedsReference, KindOf, GateFields, SafeConfig, SafeObservation, SettingsNext, OwnKeysOpen;
    var kind := KindOf(p, Kept(p, m), "");
    KeysApart();
    ConfigOpen(p);
    SafeGateAt(p, Kept(p, m));
    KeptReads(p, m, CONFIG);
    SettingsMeans(p, m[CONFIG], kind);
    assert SafeGate(p, Kept(p, m))[CONFIG] == SettingsNext(p, m[CONFIG], kind);
  }

  lemma {:induction false} GateKeySteps(p: Policy, m: Object, k: string)
    requires OwnKeysOpen(p) && k in m && k in SafeGate(p, Kept(p, m))
    ensures Next(p, k, RoleIn(InGate, k), m[k], SafeGate(p, Kept(p, m))[k])
  {
    hide Project, Kept, SafeGate, NeedsReference, KindOf, FieldNext, GateFields, SafeConfig, SafeObservation, ObservationNext, SettingsNext,
      OwnKeysOpen, RoleIn, Findings;
    RolesInGate(k);
    SafeGateAt(p, Kept(p, m));
    MarkStays(p, m);
    if k == CONFIG {
      GateSettingsSteps(p, m);
    } else {
      ChildNext(p, m, k);
      if k in GateFields() {
        GateFieldSteps(p, m, k);
      } else if k == OBSERVATION {
        GateObservationSteps(p, m);
      }
    }
  }

  lemma GateSteps(p: Policy, m: Object)
    requires OwnKeysOpen(p)
    ensures Step(p, InGate, m, SafeGate(p, Kept(p, m)))
  {
    hide Project, Kept, Findings, SafeGate, OwnKeysOpen, Next;
    SafeGateAt(p, Kept(p, m));
    KeptAt(p, m);
    MarkStays(p, m);
    var s := SafeGate(p, Kept(p, m));
    forall k | k in m && k in s ensures Next(p, k, RoleIn(InGate, k), m[k], s[k]) { GateKeySteps(p, m, k); }
  }

  lemma ConfigOpen(p: Policy)
    requires OwnKeysOpen(p)
    ensures !p.sensitive(CONFIG) && !p.sensitive(STATUS)
  {
  }

  lemma ObservationMeans(p: Policy, a: Json, kind: string)
    ensures var o := Project(p, a, OBSERVATION);
            ObservationNext(p, a, kind) == if o.Dict? then Dict(SafeObservation(p, o.entries, kind)) else o
  {
  }

  lemma MarkStays(p: Policy, m: Object)
    requires OwnKeysOpen(p)
    ensures STATUS in m ==> STATUS in Kept(p, m)
  {
    hide Kept, Locates;
    KeysApart();
    KeptAt(p, m);
    if STATUS in m { DictStays(p, m[STATUS], STATUS); }
  }

  // ---- what comes back never left ------------------------------------------

  /** Projecting alone, again and again. */
  ghost predicate Projecting(p: Policy, k: string, cs: seq<Json>) {
    && |cs| >= 2 && cs[|cs| - 1] == cs[0]
    && forall i :: 0 <= i < |cs| - 1 ==> cs[i + 1] == Project(p, cs[i], k)
  }

  ghost predicate AllDicts(cs: seq<Json>) { forall i :: 0 <= i < |cs| ==> cs[i].Dict? }

  function Entries(cs: seq<Json>): seq<Object>
    requires AllDicts(cs)
  {
    seq(|cs|, i requires 0 <= i < |cs| => cs[i].entries)
  }

  /** Being a dictionary, or a list, is kept along a trace. */
  lemma {:induction false} KindKept(p: Policy, k: string, role: Role, cs: seq<Json>, i: nat)
    requires OwnKeysOpen(p) && i < |cs| && forall n :: 0 <= n < |cs| - 1 ==> Next(p, k, role, cs[n], cs[n + 1])
    requires role in {Ordinary, Settings, ContractOf, ObservationOf}
    ensures cs[i].Dict? == cs[0].Dict?
    ensures role == Ordinary ==> cs[i].List? == cs[0].List?
  {
    hide Project, Findings, SafeConfig, SafeObservation;
    if i > 0 {
      KindKept(p, k, role, cs, i - 1);
      DictStays(p, cs[i - 1], k);
      DictStays(p, cs[i - 1], CONFIG);
      DictStays(p, cs[i - 1], CONTRACT);
      DictStays(p, cs[i - 1], OBSERVATION);
      SafeConfigKind(p, cs[i - 1]);
    }
  }

  lemma SafeConfigKind(p: Policy, a: Json)
    ensures forall kind :: SettingsNext(p, a, kind).Dict? <==> Project(p, a, CONFIG).Dict?
  {
    hide Project;
  }

  /** Along a closed course, the values under one key. */
  function Under(ms: seq<Object>, k: string): seq<Json> { seq(|ms|, i requires 0 <= i < |ms| => Get(ms[i], k)) }

  /** Findings, once reduced, stay. */
  lemma {:induction false} FindingsStay(p: Policy, k: string, cs: seq<Json>, i: nat)
    requires 1 <= i < |cs| && Listed(k, cs[0])
    requires forall n :: 0 <= n < |cs| - 1 ==> Next(p, k, Ordinary, cs[n], cs[n + 1])
    ensures cs[i] == cs[1] && Listed(k, cs[i])
  {
    hide Project, Findings;
    if i > 1 {
      FindingsStay(p, k, cs, i - 1);
      FindingsTwice(cs[0].items);
    }
  }

  lemma {:induction false} NullForever(p: Policy, k: string, cs: seq<Json>, i: nat)
    requires 1 <= i < |cs| && cs[1] == Null
    requires forall n :: 0 <= n < |cs| - 1 ==> cs[n + 1] == Project(p, cs[n], k)
    ensures cs[i] == Null
  {
    if i > 1 { NullForever(p, k, cs, i - 1); }
  }

  lemma {:induction false} MarkedForever(p: Policy, cs: seq<Json>, i: nat, j: nat)
    requires OwnKeysOpen(p) && i <= j < |cs| && cs[i] == Str("reference_only")
    requires forall n :: 0 <= n < |cs| - 1 ==> Next(p, STATUS, Mark, cs[n], cs[n + 1])
    ensures cs[j] == cs[i]
    decreases j - i
  {
    hide Project;
    if i < j {
      WordStays(p, "reference_only", STATUS);
      MarkedForever(p, cs, i + 1, j);
    }
  }

  /** The roles fit their keys. */
  predicate Fitting(k: string, role: Role) {
    match role
    case Ordinary => true
    case Field => k != Gate && k != "findings"
    case Settings => k == CONFIG
    case ContractOf => k == CONTRACT
    case ObservationOf => k == OBSERVATION
    case Mark => k == STATUS
  }

  lemma RolesFit(place: Place, k: string)
    ensures Fitting(k, RoleIn(place, k))
  {
    KeysApart();
  }

  /** A mark that comes back never changed. */
  lemma {:induction false} MarkConstant(p: Policy, cs: seq<Json>)
    requires OwnKeysOpen(p) && Trace(p, STATUS, Mark, cs)
    ensures cs[1] == cs[0] || Projecting(p, STATUS, cs)
  {
    hide Project;
    if !Projecting(p, STATUS, cs) {
      var i :| 0 <= i < |cs| - 1 && cs[i + 1] != Project(p, cs[i], STATUS);
      MarkedForever(p, cs, i + 1, |cs| - 1);
      MarkedForever(p, cs, 0, 1);
    }
  }

  lemma {:induction false} RoleConstant(p: Policy, k: string, role: Role, cs: seq<Json>)
    requires OwnKeysOpen(p) && Trace(p, k, role, cs) && Fitting(k, role)
    ensures cs[1] == cs[0]
    decreases cs[0], 2
  {
    hide Project, Findings, SafeConfig, SafeObservation, FieldNext, SettingsNext, ContractNext, ObservationNext, OwnKeysOpen;
    match role
    case Ordinary =>
      if Listed(k, cs[0]) {
        FindingsStay(p, k, cs, |cs| - 1);
      } else {
        forall i | 0 <= i < |cs| ensures !Listed(k, cs[i]) { KindKept(p, k, role, cs, i); }
        ProjectedConstant(p, k, cs);
      }
    case Field =>
      FieldIsPlain(p, k, cs);
      ProjectedConstant(p, k, cs);
    case Mark =>
      MarkConstant(p, cs);
      if cs[1] != cs[0] { ProjectedConstant(p, k, cs); }
    case _ =>
      if cs[0].Dict? {
        forall i | 0 <= i < |cs| ensures cs[i].Dict? { KindKept(p, k, role, cs, i); }
        DressedCourse(p, k, role, cs);
        CourseConstant(p, match role case Settings => InSettings case ContractOf => InContract case _ => InObservation, Entries(cs));
        assert Entries(cs)[1] == Entries(cs)[0];
      } else {
        UndressedCourse(p, k, role, cs);
        ProjectedConstant(p, k, cs);
      }
  }

  /** Settings, contract and observation, as dictionaries. */
  lemma {:induction false} DressedCourse(p: Policy, k: string, role: Role, cs: seq<Json>)
    requires OwnKeysOpen(p) && Trace(p, k, role, cs) && role in {Settings, ContractOf, ObservationOf} && AllDicts(cs)
    ensures Course(p, match role case Settings => InSettings case ContractOf => InContract case _ => InObservation, Entries(cs))
  {
    hide Project, SafeConfig, SafeObservation, Kept, Step, OwnKeysOpen;
    var place := match role case Settings => InSettings case ContractOf => InContract case _ => InObservation;
    forall i | 0 <= i < |cs| - 1 ensures Step(p, place, cs[i].entries, cs[i + 1].entries) {
      DressedStep(p, k, role, cs[i], cs[i + 1]);
    }
  }

  lemma {:induction false} DressedStep(p: Policy, k: string, role: Role, a: Json, b: Json)
    requires OwnKeysOpen(p) && Next(p, k, role, a, b) && role in {Settings, ContractOf, ObservationOf} && a.Dict? && b.Dict?
    ensures Step(p, match role case Settings => InSettings case ContractOf => InContract case _ => InObservation, a.entries, b.entries)
  {
    hide Project, SafeObservation, Kept, Step, OwnKeysOpen, SafeFields;
    KeysApart();
    match role
    case Settings =>
      var kind :| b == SettingsNext(p, a, kind);
      ProjectDict(p, a.entries, CONFIG);
      SettingsSteps(p, a.entries, kind);
    case ContractOf =>
      var kind :| b == ContractNext(p, a, kind);
      ProjectDict(p, a.entries, CONTRACT);
      ContractSteps(p, a.entries, kind);
    case ObservationOf =>
      var kind :| b == ObservationNext(p, a, kind);
      ProjectDict(p, a.entries, OBSERVATION);
      ObservationSteps(p, a.entries, kind);
  }

  lemma {:induction false} UndressedCourse(p: Policy, k: string, role: Role, cs: seq<Json>)
    requires OwnKeysOpen(p) && Trace(p, k, role, cs) && Fitting(k, role) && role in {Settings, ContractOf, ObservationOf} && !cs[0].Dict?
    ensures Projecting(p, k, cs)
  {
    hide Project, SafeFields, SafeObservation;
    forall i | 0 <= i < |cs| - 1 ensures cs[i + 1] == Project(p, cs[i], k) {
      KindKept(p, k, role, cs, i);
      DictStays(p, cs[i], k);
    }
  }

  lemma {:induction false} ProjectedConstant(p: Policy, k: string, cs: seq<Json>)
    requires OwnKeysOpen(p) && Projecting(p, k, cs)
    ensures cs[1] == cs[0]
    decreases cs[0], 1
  {
    match cs[0]
    case Dict(_) =>
      hide Project, OwnKeysOpen, Step, SafeGate, Kept;
      forall i | 0 <= i < |cs| ensures cs[i].Dict? { ProjectingKind(p, k, cs, i); }
      var place := if k == Gate then InGate else Bare;
      forall i | 0 <= i < |cs| - 1 ensures Step(p, place, cs[i].entries, cs[i + 1].entries) {
        ProjectDict(p, cs[i].entries, k);
        if k == Gate { GateSteps(p, cs[i].entries); } else { KeptSteps(p, cs[i].entries); }
      }
      CourseConstant(p, place, Entries(cs));
      assert Entries(cs)[1] == Entries(cs)[0];
    case List(_) => ListConstant(p, k, cs);
    case Str(_) => if cs[1] == Null { NullForever(p, k, cs, |cs| - 1); }
    case _ =>
  }

  lemma {:induction false} ProjectingKind(p: Policy, k: string, cs: seq<Json>, i: nat)
    requires i < |cs| && forall n :: 0 <= n < |cs| - 1 ==> cs[n + 1] == Project(p, cs[n], k)
    ensures cs[i].Dict? == cs[0].Dict? && cs[i].List? == cs[0].List?
  {
    hide Project;
    if i > 0 {
      ProjectingKind(p, k, cs, i - 1);
      DictStays(p, cs[i - 1], k);
    }
  }

  /** A dictionary that comes back never changed. */
  lemma {:induction false} CourseConstant(p: Policy, place: Place, ms: seq<Object>)
    requires OwnKeysOpen(p) && Course(p, place, ms)
    ensures ms[1] == ms[0]
    decreases Dict(ms[0]), 0
  {
    hide OwnKeysOpen, Next, RoleIn, Fitting;
    KeysConstant(p, place, ms, 1);
    forall k | k in ms[0] ensures ms[1][k] == ms[0][k] {
      var cs := Under(ms, k);
      forall i | 0 <= i < |cs| - 1 ensures Next(p, k, RoleIn(place, k), cs[i], cs[i + 1]) {
        KeysConstant(p, place, ms, i);
        KeysConstant(p, place, ms, i + 1);
      }
      RolesFit(place, k);
      assert cs[0] == ms[0][k] && cs[|cs| - 1] == cs[0];
      RoleConstant(p, k, RoleIn(place, k), cs);
      assert cs[1] == ms[1][k];
    }
  }

  // ---- lists ---------------------------------------------------------------

  lemma {:induction false} AllShortens(p: Policy, xs: seq<Json>, k: string)
    ensures |ProjectAll(p, xs, k)| <= |xs|
    ensures |ProjectAll(p, xs, k)| == |xs| ==> forall i :: 0 <= i < |xs| ==> ProjectAll(p, xs, k)[i] == Project(p, xs[i], k)
  {
    hide Project;
    if xs != [] {
      AllShortens(p, xs[1..], k);
      var head, rest := Project(p, xs[0], k), ProjectAll(p, xs[1..], k);
      if |ProjectAll(p, xs, k)| == |xs| {
        assert ProjectAll(p, xs, k) == [head] + rest;
        assert forall i :: 1 <= i < |xs| ==> xs[i] == xs[1..][i - 1];
      }
    }
  }

  lemma {:induction false} NeverGrows(ns: seq<nat>, i: nat, j: nat)
    requires i <= j < |ns| && forall n :: 0 <= n < |ns| - 1 ==> ns[n + 1] <= ns[n]
    ensures ns[j] <= ns[i]
    decreases j - i
  {
    if i < j { NeverGrows(ns, i + 1, j); }
  }

  /** The items of a list, one by one. */
  ghost predicate ItemStep(p: Policy, k: string, a: Json, b: Json) {
    && a.List? && b.List? && |a.items| == |b.items|
    && forall q :: 0 <= q < |a.items| ==> b.items[q] == Project(p, a.items[q], k)
  }

  /** Along a list that comes back nothing is dropped. */
  lemma {:induction false} ListSteps(p: Policy, k: string, cs: seq<Json>)
    requires Projecting(p, k, cs) && cs[0].List?
    ensures forall i :: 0 <= i < |cs| ==> cs[i].List? && |cs[i].items| == |cs[0].items|
    ensures forall i :: 0 <= i < |cs| - 1 ==> ItemStep(p, k, cs[i], cs[i + 1])
  {
    hide Project;
    forall i | 0 <= i < |cs| ensures cs[i].List? { ProjectingKind(p, k, cs, i); }
    var ns := seq(|cs|, i requires 0 <= i < |cs| && cs[i].List? => |cs[i].items|);
    forall i | 0 <= i < |cs| - 1 ensures cs[i + 1] == List(ProjectAll(p, cs[i].items, k)) && ns[i + 1] <= ns[i] {
      ListMeans(p, cs[i].items, k);
      AllShortens(p, cs[i].items, k);
    }
    forall i | 0 <= i < |cs| ensures |cs[i].items| == |cs[0].items| {
      NeverGrows(ns, 0, i);
      NeverGrows(ns, i, |cs| - 1);
      assert ns[i] == |cs[i].items| && ns[0] == |cs[0].items|;
    }
    forall i | 0 <= i < |cs| - 1 ensures ItemStep(p, k, cs[i], cs[i + 1]) {
      AllShortens(p, cs[i].items, k);
    }
  }

  lemma ListMeans(p: Policy, xs: seq<Json>, k: string)
    ensures Project(p, List(xs), k) == List(ProjectAll(p, xs, k))
  {
  }

  lemma {:induction false} ListConstant(p: Policy, k: string, cs: seq<Json>)
    requires OwnKeysOpen(p) && Projecting(p, k, cs) && cs[0].List?
    ensures cs[1] == cs[0]
    decreases cs[0], 0
  {
    hide Project, OwnKeysOpen;
    ListSteps(p, k, cs);
    forall q | 0 <= q < |cs[0].items| ensures cs[1].items[q] == cs[0].items[q] {
      var xs := seq(|cs|, i requires 0 <= i < |cs| => cs[i].items[q]);
      forall i | 0 <= i < |xs| - 1 ensures xs[i + 1] == Project(p, xs[i], k) {
        assert ItemStep(p, k, cs[i], cs[i + 1]);
      }
      assert xs[0] == cs[0].items[q];
      ProjectedConstant(p, k, xs);
    }
    assert cs[1].items == cs[0].items;
  }

  // ---- no cycles -----------------------------------------------------------

  function Repeated(p: Policy, j: Json, k: string, n: nat): Json {
    if n == 0 then j else Project(p, Repeated(p, j, k, n - 1), k)
  }

  /** However often it is projected, a value comes back only if the first projection
      already leaves it alone. */
  lemma {:induction false} NoCycles(p: Policy, j: Json, k: string, n: nat)
    requires OwnKeysOpen(p) && n > 0
    ensures Repeated(p, j, k, n) == j <==> Fixed(p, j, k)
  {
    hide Project, OwnKeysOpen;
    var cs := seq(n + 1, i requires 0 <= i <= n => Repeated(p, j, k, i));
    assert cs[0] == j && cs[1] == Project(p, j, k) by { Once(p, j, k); }
    forall i | 0 <= i < n ensures cs[i + 1] == Project(p, cs[i], k) {}
    if Repeated(p, j, k, n) == j { ProjectedConstant(p, k, cs); }
    if Fixed(p, j, k) { StaysPut(p, j, k, n); }
  }

  lemma Once(p: Policy, j: Json, k: string)
    ensures Repeated(p, j, k, 0) == j && Repeated(p, j, k, 1) == Project(p, j, k)
  {
  }

  lemma {:induction false} StaysPut(p: Policy, j: Json, k: string, n: nat)
    requires Fixed(p, j, k)
    ensures Repeated(p, j, k, n) == j
  {
    if n > 0 { StaysPut(p, j, k, n - 1); }
  }
}
