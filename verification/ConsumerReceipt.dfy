/** The consumer receipt check: hook I/O receipts, coverage of hooks and gates, and
    the link back to the hook-call log. */
module ConsumerReceipt {
  import opened Wrappers
  import opened Json
  import opened Text
  import opened InvocationLog

  /** A dictionary with exactly the receipt keys, or anything else. */
  datatype Receipt =
    | Receipt(index: Json, hook: Json, input: Json, output: Json, signature: Json, status: Json,
              returnValid: Json, required: Json, semantic: Json, consumed: Json)
    | Odd(j: Json)

  predicate FullSha(j: Json) {
    && j.Str? && |j.s| == 64
    && forall i :: 0 <= i < 64 ==> '0' <= j.s[i] <= '9' || 'a' <= j.s[i] <= 'f' || 'A' <= j.s[i] <= 'F'
  }

  /** The integer an index compares as; a boolean is one too. */
  function Position(j: Json): Option<int> {
    match j
    case Int(i) => Some(i)
    case Bool(b) => Some(if b then 1 else 0)
    case _ => None
  }

  predicate WellFormed(r: Receipt) {
    && r.Receipt? && Position(r.index).Some? && Position(r.index).value >= 0
    && FullSha(r.input) && FullSha(r.output) && FullSha(r.signature)
    && r.hook.Str? && Strip(r.hook.s) != ""
    && r.status in {Str("completed"), Str("failed"), Str("unavailable")}
    && r.returnValid.Bool? && r.required.Bool?
    && r.semantic in {Str("accepted"), Str("not_evaluated")} && r.consumed.Bool?
  }

  /** A completed, valid, accepted call of the hook whose value a decision used. */
  predicate Backs(r: Receipt, h: string) {
    && WellFormed(r) && r.hook == Str(h) && r.status == Str("completed") && r.returnValid == Bool(true)
    && r.semantic == Str("accepted") && r.consumed == Bool(true)
  }

  function At(r: Receipt): int { if r.Receipt? && Position(r.index).Some? then Position(r.index).value else -1 }

  function HookOf(r: Receipt): string { if r.Receipt? && r.hook.Str? then r.hook.s else "" }

  ghost predicate ValidHookIo(rs: seq<Receipt>) {
    && rs != [] && (forall i :: 0 <= i < |rs| ==> WellFormed(rs[i]))
    && forall i, j :: 0 <= i < j < |rs| ==> At(rs[i]) != At(rs[j])
  }

  function BackedHooks(rs: seq<Receipt>): set<string> {
    if rs == [] then {}
    else
      var r := rs[|rs| - 1];
      BackedHooks(rs[..|rs| - 1]) + if Backs(r, HookOf(r)) then {HookOf(r)} else {}
  }

  /** The same, as the loop sees it. */
  function Indices(rs: seq<Receipt>): set<int> {
    if rs == [] then {} else Indices(rs[..|rs| - 1]) + {At(rs[|rs| - 1])}
  }

  predicate Fine(rs: seq<Receipt>) {
    rs == [] || (Fine(rs[..|rs| - 1]) && WellFormed(rs[|rs| - 1]) && At(rs[|rs| - 1]) !in Indices(rs[..|rs| - 1]))
  }

  lemma {:induction false} IndicesIff(rs: seq<Receipt>, p: int)
    ensures p in Indices(rs) <==> exists i :: 0 <= i < |rs| && At(rs[i]) == p
  {
    hide At;
    if rs != [] {
      var n := |rs| - 1;
      IndicesIff(rs[..n], p);
      if i :| 0 <= i < |rs| && At(rs[i]) == p { assert i < n ==> At(rs[..n][i]) == p; }
      if i :| 0 <= i < n && At(rs[..n][i]) == p { assert At(rs[i]) == p; }
    }
  }

  lemma {:induction false} FineIff(rs: seq<Receipt>)
    ensures Fine(rs) && rs != [] <==> ValidHookIo(rs)
  {
    hide WellFormed, At, Indices;
    if rs != [] {
      var n := |rs| - 1;
      FineIff(rs[..n]);
      IndicesIff(rs[..n], At(rs[n]));
      assert forall i :: 0 <= i < n ==> rs[..n][i] == rs[i];
    }
  }

  /** Walk the receipts: shape, distinct indices, and the hooks they back. */
  method CheckHookIo(rs: seq<Receipt>) returns (valid: bool, hooks: set<string>)
    ensures valid == ValidHookIo(rs)
    ensures hooks == BackedHooks(rs)
  {
    hide WellFormed, ValidHookIo, At, HookOf;
    valid, hooks := rs != [], {};
    var indices: set<int> := {};
    for n := 0 to |rs|
      invariant hooks == BackedHooks(rs[..n]) && indices == Indices(rs[..n])
      invariant valid == (rs != [] && Fine(rs[..n]))
    {
      assert rs[..n + 1][..n] == rs[..n];
      if At(rs[n]) in indices { valid := false; }
      indices := indices + {At(rs[n])};
      if !WellFormed(rs[n]) {
        valid := false;
      } else if Backs(rs[n], HookOf(rs[n])) {
        hooks := hooks + {HookOf(rs[n])};
      }
    }
    assert rs[..|rs|] == rs;
    FineIff(rs);
  }

  lemma {:induction false} BackedIff(rs: seq<Receipt>, h: string)
    ensures h in BackedHooks(rs) <==> exists i :: 0 <= i < |rs| && Backs(rs[i], h)
  {
    if rs != [] {
      var n := |rs| - 1;
      BackedIff(rs[..n], h);
      assert forall i :: 0 <= i < n ==> rs[..n][i] == rs[i];
      if i :| 0 <= i < |rs| && Backs(rs[i], h) {
        assert i < n ==> Backs(rs[..n][i], h);
      }
      if i :| 0 <= i < n && Backs(rs[..n][i], h) {
        assert Backs(rs[i], h);
      }
    }
  }

  // ---- lists of identifiers ------------------------------------------------

  predicate Named(j: Json) { j.Str? && Strip(j.s) != "" }

  /** The names in a list, trimmed; what is not a name is skipped. */
  function Names(items: seq<Json>): seq<string> {
    if items == [] then []
    else
      var n := |items| - 1;
      Names(items[..n]) + if Named(items[n]) then [Strip(items[n].s)] else []
  }

  function Elements(names: seq<string>): set<string> { set i | 0 <= i < |names| :: names[i] }

  /** A list as read: its names, and whether nothing was skipped or repeated. */
  datatype Parsed = Parsed(names: seq<string>, valid: bool) {
    function Members(): set<string> { Elements(names) }
  }

  function ParseList(items: seq<Json>): Parsed {
    var names := Names(items);
    Parsed(names, |names| == |items| && |Elements(names)| == |names|)
  }

  function Declared(row: Object, field: string): Parsed {
    match Get(row, field) case List(items) => ParseList(items) case _ => Parsed([], false)
  }

  /** What a caller may expect; nothing at all is a valid expectation. */
  function Expectation(value: Json): (Option<Parsed>, bool) {
    match value
    case Null => (None, true)
    case List(items) => (Some(ParseList(items)), ParseList(items).valid)
    case _ => (Some(Parsed([], false)), false)
  }

  /** A list of names that stay distinct when trimmed. */
  ghost predicate NameList(j: Json) {
    && j.List? && (forall i :: 0 <= i < |j.items| ==> Named(j.items[i]))
    && forall i, k :: 0 <= i < k < |j.items| ==> Strip(j.items[i].s) != Strip(j.items[k].s)
  }

  ghost predicate Lists(j: Json, name: string) {
    j.List? && exists i :: 0 <= i < |j.items| && Named(j.items[i]) && Strip(j.items[i].s) == name
  }

  lemma {:induction false} NamesFacts(items: seq<Json>)
    ensures |Names(items)| <= |items|
    ensures |Names(items)| == |items| <==> forall i :: 0 <= i < |items| ==> Named(items[i])
    ensures |Names(items)| == |items| ==> forall i :: 0 <= i < |items| ==> Names(items)[i] == Strip(items[i].s)
    ensures forall name :: name in Names(items) <==> Lists(List(items), name)
  {
    hide Strip;
    if items != [] {
      var n := |items| - 1;
      NamesFacts(items[..n]);
      assert forall i :: 0 <= i < n ==> items[..n][i] == items[i];
      assert forall i :: 0 <= i < |items| ==> i == n || items[i] == items[..n][i];
      forall name ensures name in Names(items) <==> Lists(List(items), name) {
        assert Lists(List(items), name) <==>
               Lists(List(items[..n]), name) || (Named(items[n]) && Strip(items[n].s) == name) by {
          if Lists(List(items[..n]), name) {
            var i :| 0 <= i < n && Named(items[..n][i]) && Strip(items[..n][i].s) == name;
            assert Named(items[i]);
          }
        }
      }
    }
  }

  lemma ElementsCons(names: seq<string>)
    requires names != []
    ensures var n := |names| - 1; Elements(names) == Elements(names[..n]) + {names[n]}
  {
    var n := |names| - 1;
    forall x | x in Elements(names) ensures x in Elements(names[..n]) + {names[n]} {
      var i :| 0 <= i < |names| && names[i] == x;
      assert i < n ==> names[..n][i] == x;
    }
    forall x | x in Elements(names[..n]) ensures x in Elements(names) {
      var i :| 0 <= i < n && names[..n][i] == x;
      assert names[i] == x;
    }
  }

  /** As many elements as places, exactly without repetition. */
  lemma {:induction false} CountDistinct(names: seq<string>)
    ensures |Elements(names)| <= |names|
    ensures |Elements(names)| == |names| <==> forall i, k :: 0 <= i < k < |names| ==> names[i] != names[k]
  {
    if names != [] {
      var n := |names| - 1;
      CountDistinct(names[..n]);
      ElementsCons(names);
      assert forall i :: 0 <= i < n ==> names[..n][i] == names[i];
      if names[n] in Elements(names[..n]) {
        var i :| 0 <= i < n && names[..n][i] == names[n];
        assert names[i] == names[n];
      } else {
        assert forall i :: 0 <= i < n ==> names[i] in Elements(names[..n]);
      }
    }
  }

  /** Reading a list succeeds exactly on lists of distinct names. */
  lemma {:induction false} ParseListIff(items: seq<Json>)
    ensures ParseList(items).valid <==> NameList(List(items))
    ensures forall name :: name in ParseList(items).Members() <==> Lists(List(items), name)
  {
    hide Strip, Names, Elements;
    NamesFacts(items);
    CountDistinct(Names(items));
    assert forall name :: name in Elements(Names(items)) <==> name in Names(items) by { hide *; ElementsAre(Names(items)); }
  }

  lemma ElementsAre(names: seq<string>)
    ensures forall name :: name in Elements(names) <==> name in names
  {
  }

  // ---- the binding check ---------------------------------------------------

  /** The validator's own revision, and `str` and lower-casing. */
  datatype Validator = Validator(signature: string, show: Json -> string, lower: string -> string)

  /** What the caller expects of a receipt row; hook and gate lists are null when
      nothing is expected of them. */
  datatype Expected = Expected(
    task: Option<string>, adapterRevision: Option<string>, hook: Option<string>, consumerRevision: Option<string>,
    hooks: Json, gates: Json)

  datatype Outcome = Outcome(explicit: bool, status: string, mismatched: set<string>, excluded: set<string>)

  function CoverageFields(): set<string> {
    {"required_hook_ids", "required_gate_ids", "consumed_hook_ids", "consumed_gate_ids", "excluded_gate_ids"}
  }

  predicate Explicit(row: Object, e: Expected) { e.hooks != Null || e.gates != Null || !(row.Keys !! CoverageFields()) }

  /** An expected text, unless absent or empty, is the field's value. */
  predicate Meets(expected: Option<string>, row: Object, field: string) {
    expected.Some? && expected.value != "" ==> Get(row, field) == Str(expected.value)
  }

  /** Without an expected hook, a single expected name stands for it. */
  function ExpectedHook(e: Expected): Option<string> {
    var names := Expectation(e.hooks).0;
    if e.hook.None? && names.Some? && |names.value.names| == 1 then Some(names.value.names[0]) else e.hook
  }

  function Unless(fine: bool, field: string): set<string> { if fine then {} else {field} }

  function StatusOf(v: Validator, row: Object): string {
    var word := Get(row, "result_contract_status");
    v.lower(Strip(if Truthy(word) then v.show(word) else ""))
  }

  function ReadReceipt(j: Json): Receipt {
    if j.Dict? && j.entries.Keys == {"acceptance_required", "hook_id", "input_sha256", "invocation_index", "output_sha256",
      "return_contract_valid", "semantic_status", "signature_sha256", "status", "value_consumed_by_decision"} then
      var m := j.entries;
      Receipt(Get(m, "invocation_index"), Get(m, "hook_id"), Get(m, "input_sha256"), Get(m, "output_sha256"),
              Get(m, "signature_sha256"), Get(m, "status"), Get(m, "return_contract_valid"), Get(m, "acceptance_required"),
              Get(m, "semantic_status"), Get(m, "value_consumed_by_decision"))
    else Odd(j)
  }

  function HookIo(row: Object): seq<Receipt> {
    match Get(row, "hook_io_receipts")
    case List(items) => seq(|items|, i requires 0 <= i < |items| => ReadReceipt(items[i]))
    case _ => []
  }

  /** Task, adapter revision, hook, contract version, consumer revision and validator
      are the expected ones. */
  predicate Identified(v: Validator, row: Object, e: Expected) {
    && Meets(e.task, row, "task_id") && Meets(e.adapterRevision, row, "adapter_revision_sha256")
    && Meets(ExpectedHook(e), row, "hook_id") && Get(row, "consumer_contract_version") in {Int(2), Real(2.0)}
    && FullSha(Get(row, "consumer_revision_sha256")) && Meets(e.consumerRevision, row, "consumer_revision_sha256")
    && Get(row, "validator_signature_sha256") == Str(v.signature)
  }

  ghost predicate SameNames(j: Json, k: Json) { forall name :: Lists(j, name) <==> Lists(k, name) }

  /** What is required is what is expected, and every required hook was consumed and
      is backed by a call. */
  ghost predicate HooksCovered(row: Object, e: Expected) {
    && SameNames(Get(row, "required_hook_ids"), e.hooks) && SameNames(Get(row, "consumed_hook_ids"), e.hooks)
    && (ExpectedHook(e).Some? && ExpectedHook(e).value != "" ==> Lists(e.hooks, ExpectedHook(e).value))
    && ValidHookIo(HookIo(row))
    && forall h :: Lists(e.hooks, h) ==> exists i :: 0 <= i < |HookIo(row)| && Backs(HookIo(row)[i], h)
  }

  /** Each required gate is either consumed or excluded. */
  ghost predicate GatesCovered(row: Object, e: Expected) {
    && SameNames(Get(row, "required_gate_ids"), e.gates)
    && (forall g :: Lists(e.gates, g) ==> (Lists(Get(row, "consumed_gate_ids"), g) <==> !Lists(Get(row, "excluded_gate_ids"), g)))
    && forall g :: Lists(Get(row, "consumed_gate_ids"), g) || Lists(Get(row, "excluded_gate_ids"), g) ==> Lists(e.gates, g)
  }

  /** Every list is one of distinct names, and they cover what is expected. */
  ghost predicate Covered(row: Object, e: Expected) {
    && NameList(e.hooks) && NameList(e.gates) && (forall f :: f in CoverageFields() ==> NameList(Get(row, f)))
    && HooksCovered(row, e) && GatesCovered(row, e)
  }

  ghost predicate NothingExcluded(row: Object) { Get(row, "excluded_gate_ids") == List([]) }

  /** Whom the receipt is from and for. */
  function IdentityMismatches(v: Validator, row: Object, e: Expected): (r: set<string>)
    ensures r == {} <==> Identified(v, row, e)
  {
    var revision := Get(row, "consumer_revision_sha256");
    Unless(Meets(e.task, row, "task_id"), "task_id")
    + Unless(Meets(e.adapterRevision, row, "adapter_revision_sha256"), "adapter_revision_sha256")
    + Unless(Meets(ExpectedHook(e), row, "hook_id"), "hook_id")
    + Unless(Get(row, "consumer_contract_version") in {Int(2), Real(2.0)}, "consumer_contract_version")
    + Unless(FullSha(revision) && Meets(e.consumerRevision, row, "consumer_revision_sha256"), "consumer_revision_sha256")
    + Unless(Get(row, "validator_signature_sha256") == Str(v.signature), "validator_signature_sha256")
  }

  function ListMismatches(row: Object, e: Expected): (r: set<string>)
    ensures r == {} <==>
            Expectation(e.hooks).1 && Expectation(e.gates).1 && forall f :: f in CoverageFields() ==> Declared(row, f).valid
  {
    var unread := set f | f in CoverageFields() && !Declared(row, f).valid;
    assert unread == {} ==> forall f :: f in CoverageFields() ==> Declared(row, f).valid by {
      if f :| f in CoverageFields() && !Declared(row, f).valid { assert f in unread; }
    }
    Unless(Expectation(e.hooks).1, "expected_required_hook_ids") + Unless(Expectation(e.gates).1, "expected_required_gate_ids")
    + unread
  }

  /** The lists of a row as read, and the hooks its receipts back if they are valid. */
  datatype Reading = Reading(
    hooks: set<string>, consumed: set<string>, gates: set<string>, used: set<string>, excluded: set<string>,
    backed: Option<set<string>>)

  ghost predicate HooksBalanced(c: Reading, hooks: Option<set<string>>, hook: Option<string>) {
    && hooks == Some(c.hooks) && c.consumed == c.hooks && c.backed.Some? && c.hooks <= c.backed.value
    && (hook.Some? && hook.value != "" ==> hook.value in c.hooks)
  }

  ghost predicate GatesBalanced(c: Reading, gates: Option<set<string>>) {
    gates == Some(c.gates) && c.used !! c.excluded && c.used + c.excluded == c.gates
  }

  function HookMismatches(c: Reading, hooks: Option<set<string>>, hook: Option<string>): (r: set<string>)
    ensures r == {} <==> HooksBalanced(c, hooks, hook)
  {
    assert c.backed.Some? && c.consumed == c.hooks ==> (c.backed.value * c.hooks == c.consumed <==> c.hooks <= c.backed.value);
    (if c.backed.None? then {"hook_io_receipts"} else Unless(c.backed.value * c.hooks == c.consumed, "hook_io_consumption"))
    + (if hooks.None? then {"required_hook_ids_unbound"} else Unless(c.hooks == hooks.value, "required_hook_ids"))
    + Unless(hook.Some? && hook.value != "" && hooks.Some? ==> hook.value in hooks.value, "hook_id_not_required")
    + Unless(c.consumed == c.hooks, "consumed_hook_ids")
  }

  function GateMismatches(c: Reading, gates: Option<set<string>>): (r: set<string>)
    ensures r == {} <==> GatesBalanced(c, gates)
  {
    assert c.used * c.excluded == {} <==> c.used !! c.excluded by {
      if !(c.used !! c.excluded) {
        var g :| g in c.used && g in c.excluded;
        assert g in c.used * c.excluded;
      }
    }
    (if gates.None? then {"required_gate_ids_unbound"} else Unless(c.gates == gates.value, "required_gate_ids"))
    + Unless(c.used * c.excluded == {}, "gate_coverage_overlap") + Unless(c.used + c.excluded == c.gates, "gate_coverage")
  }

  function Wanted(value: Json): Option<set<string>> {
    var names := Expectation(value).0;
    if names.None? then None else Some(names.value.Members())
  }

  function Listed(row: Object, field: string): set<string> { Declared(row, field).Members() }

  function ReadRow(row: Object, backed: Option<set<string>>): Reading {
    Reading(Listed(row, "required_hook_ids"), Listed(row, "consumed_hook_ids"), Listed(row, "required_gate_ids"),
            Listed(row, "consumed_gate_ids"), Listed(row, "excluded_gate_ids"), backed)
  }

  lemma DeclaredIff(row: Object, f: string)
    ensures Declared(row, f).valid <==> NameList(Get(row, f))
    ensures forall name :: name in Listed(row, f) <==> Lists(Get(row, f), name)
  {
    hide ParseList, NameList;
    if Get(row, f).List? { ParseListIff(Get(row, f).items); } else { assert !NameList(Get(row, f)) by { NotAList(Get(row, f)); } }
  }

  lemma NotAList(j: Json)
    requires !j.List?
    ensures !NameList(j)
  {
  }

  lemma ExpectationIff(j: Json)
    ensures Expectation(j).1 <==> j == Null || NameList(j)
    ensures Wanted(j).None? <==> j == Null
    ensures Wanted(j).Some? ==> forall name :: name in Wanted(j).value <==> Lists(j, name)
  {
    hide ParseList, NameList;
    if j.List? { ParseListIff(j.items); } else { NotAList(j); }
  }

  ghost function BackedBy(row: Object): Option<set<string>> {
    if ValidHookIo(HookIo(row)) then Some(BackedHooks(HookIo(row))) else None
  }

  lemma {:induction false} HooksCoveredIff(row: Object, e: Expected)
    requires e.hooks != Null
    ensures HooksCovered(row, e) <==> HooksBalanced(ReadRow(row, BackedBy(row)), Wanted(e.hooks), ExpectedHook(e))
  {
    hide NameList, Lists, ValidHookIo, BackedHooks, Backs, ExpectedHook, HookIo, Listed, Wanted;
    var rs, r, c := HookIo(row), "required_hook_ids", "consumed_hook_ids";
    forall h ensures h in BackedHooks(rs) <==> exists i :: 0 <= i < |rs| && Backs(rs[i], h) { BackedIff(rs, h); }
    DeclaredIff(row, r);
    DeclaredIff(row, c);
    ExpectationIff(e.hooks);
    assert Listed(row, r) == Wanted(e.hooks).value <==> SameNames(Get(row, r), e.hooks);
    assert Listed(row, c) == Wanted(e.hooks).value <==> SameNames(Get(row, c), e.hooks);
  }

  lemma {:induction false} GatesCoveredIff(row: Object, e: Expected)
    requires e.gates != Null
    ensures GatesCovered(row, e) <==> GatesBalanced(ReadRow(row, BackedBy(row)), Wanted(e.gates))
  {
    hide NameList, Lists, BackedBy, Listed, Wanted;
    var r, c, x := "required_gate_ids", "consumed_gate_ids", "excluded_gate_ids";
    DeclaredIff(row, r);
    DeclaredIff(row, c);
    DeclaredIff(row, x);
    ExpectationIff(e.gates);
    assert Listed(row, r) == Wanted(e.gates).value <==> SameNames(Get(row, r), e.gates);
  }

  /** The lists balance, as read, exactly when they cover what is expected. */
  lemma {:induction false} CoveredIff(row: Object, e: Expected)
    ensures Covered(row, e) <==>
            && ListMismatches(row, e) == {}
            && HooksBalanced(ReadRow(row, BackedBy(row)), Wanted(e.hooks), ExpectedHook(e))
            && GatesBalanced(ReadRow(row, BackedBy(row)), Wanted(e.gates))
  {
    hide NameList, BackedBy, ExpectedHook, Wanted, Expectation, Declared, CoverageFields, HooksCovered, GatesCovered, ReadRow;
    forall f ensures Declared(row, f).valid <==> NameList(Get(row, f)) { DeclaredIff(row, f); }
    ExpectationIff(e.hooks);
    ExpectationIff(e.gates);
    NotAList(Null);
    if e.hooks != Null { HooksCoveredIff(row, e); }
    if e.gates != Null { GatesCoveredIff(row, e); }
  }

  lemma NothingExcludedIff(row: Object)
    requires NameList(Get(row, "excluded_gate_ids"))
    ensures NothingExcluded(row) <==> Listed(row, "excluded_gate_ids") == {}
  {
    hide Strip;
    DeclaredIff(row, "excluded_gate_ids");
    var items := Get(row, "excluded_gate_ids").items;
    if items == [] {
      assert forall name :: !Lists(List(items), name);
    } else {
      assert Strip(items[0].s) in Listed(row, "excluded_gate_ids");
    }
  }

  // ---- every mismatch by its name ------------------------------------------

  ghost predicate IdentityDiffers(v: Validator, row: Object, e: Expected, name: string) {
    || (name == "task_id" && !Meets(e.task, row, "task_id"))
    || (name == "adapter_revision_sha256" && !Meets(e.adapterRevision, row, "adapter_revision_sha256"))
    || (name == "hook_id" && !Meets(ExpectedHook(e), row, "hook_id"))
    || (name == "consumer_contract_version"
        && Get(row, "consumer_contract_version") != Int(2) && Get(row, "consumer_contract_version") != Real(2.0))
    || (name == "consumer_revision_sha256"
        && !(FullSha(Get(row, "consumer_revision_sha256")) && Meets(e.consumerRevision, row, "consumer_revision_sha256")))
    || (name == "validator_signature_sha256" && Get(row, "validator_signature_sha256") != Str(v.signature))
  }

  ghost predicate ListDiffers(row: Object, e: Expected, name: string) {
    || (name == "expected_required_hook_ids" && e.hooks != Null && !NameList(e.hooks))
    || (name == "expected_required_gate_ids" && e.gates != Null && !NameList(e.gates))
    || (name in CoverageFields() && !NameList(Get(row, name)))
  }

  ghost predicate HookBacked(row: Object, h: string) { exists i :: 0 <= i < |HookIo(row)| && Backs(HookIo(row)[i], h) }

  ghost predicate HooksDiffer(row: Object, e: Expected, name: string) {
    var required, consumed := Get(row, "required_hook_ids"), Get(row, "consumed_hook_ids");
    || (name == "hook_io_receipts" && !ValidHookIo(HookIo(row)))
    || (name == "hook_io_consumption" && ValidHookIo(HookIo(row))
        && exists h :: Lists(consumed, h) != (Lists(required, h) && HookBacked(row, h)))
    || (name == "required_hook_ids_unbound" && e.hooks == Null)
    || (name == "required_hook_ids" && e.hooks != Null && !SameNames(required, e.hooks))
    || (name == "hook_id_not_required" && e.hooks != Null && ExpectedHook(e).Some? && ExpectedHook(e).value != ""
        && !Lists(e.hooks, ExpectedHook(e).value))
    || (name == "consumed_hook_ids" && !SameNames(consumed, required))
  }

  ghost predicate GatesDiffer(row: Object, e: Expected, name: string) {
    var required, consumed, excluded := Get(row, "required_gate_ids"), Get(row, "consumed_gate_ids"), Get(row, "excluded_gate_ids");
    || (name == "required_gate_ids_unbound" && e.gates == Null)
    || (name == "required_gate_ids" && e.gates != Null && !SameNames(required, e.gates))
    || (name == "gate_coverage_overlap" && exists g :: Lists(consumed, g) && Lists(excluded, g))
    || (name == "gate_coverage" && exists g :: (Lists(consumed, g) || Lists(excluded, g)) != Lists(required, g))
  }

  /** What each mismatch means. */
  ghost predicate Differs(v: Validator, row: Object, e: Expected, name: string) {
    IdentityDiffers(v, row, e, name) || ListDiffers(row, e, name) || HooksDiffer(row, e, name) || GatesDiffer(row, e, name)
  }

  lemma IdentityDiffersIff(v: Validator, row: Object, e: Expected, name: string)
    ensures name in IdentityMismatches(v, row, e) <==> IdentityDiffers(v, row, e, name)
  {
    hide Meets, FullSha, ExpectedHook;
  }

  lemma ListDiffersIff(row: Object, e: Expected, name: string)
    ensures name in ListMismatches(row, e) <==> ListDiffers(row, e, name)
  {
    hide NameList, Declared, Expectation, CoverageFields;
    forall f ensures Declared(row, f).valid <==> NameList(Get(row, f)) { DeclaredIff(row, f); }
    ExpectationIff(e.hooks);
    ExpectationIff(e.gates);
  }

  lemma SetsDiffer(s: set<string>, t: set<string>)
    ensures s != t <==> exists x :: (x in s) != (x in t)
  {
    if forall x :: x in s <==> x in t { assert s == t; }
  }

  lemma {:induction false} HooksDifferIff(row: Object, e: Expected, name: string)
    ensures name in HookMismatches(ReadRow(row, BackedBy(row)), Wanted(e.hooks), ExpectedHook(e)) <==> HooksDiffer(row, e, name)
  {
    hide NameList, Lists, ValidHookIo, BackedHooks, HookBacked, ExpectedHook, HookIo, Listed, Wanted;
    var r, c := "required_hook_ids", "consumed_hook_ids";
    var backed := BackedHooks(HookIo(row));
    forall h ensures h in backed <==> HookBacked(row, h) { HookBackedIff(row, h); }
    DeclaredIff(row, r);
    DeclaredIff(row, c);
    ExpectationIff(e.hooks);
    SetsDiffer(backed * Listed(row, r), Listed(row, c));
    assert Listed(row, r) == Listed(row, c) <==> SameNames(Get(row, c), Get(row, r));
    assert Wanted(e.hooks).Some? ==> (Listed(row, r) == Wanted(e.hooks).value <==> SameNames(Get(row, r), e.hooks));
    assert (exists h :: Lists(Get(row, c), h) != (Lists(Get(row, r), h) && HookBacked(row, h)))
      <==> exists x :: (x in backed * Listed(row, r)) != (x in Listed(row, c));
  }

  lemma HookBackedIff(row: Object, h: string)
    ensures h in BackedHooks(HookIo(row)) <==> HookBacked(row, h)
  {
    hide Backs;
    BackedIff(HookIo(row), h);
  }

  lemma {:induction false} GatesDifferIff(row: Object, e: Expected, name: string)
    ensures name in GateMismatches(ReadRow(row, BackedBy(row)), Wanted(e.gates)) <==> GatesDiffer(row, e, name)
  {
    hide NameList, Lists, BackedBy, Listed, Wanted;
    var r, c, x := "required_gate_ids", "consumed_gate_ids", "excluded_gate_ids";
    DeclaredIff(row, r);
    DeclaredIff(row, c);
    DeclaredIff(row, x);
    ExpectationIff(e.gates);
    var used, out, all := Listed(row, c), Listed(row, x), Listed(row, r);
    SetsDiffer(used + out, all);
    assert Wanted(e.gates).Some? ==> (all == Wanted(e.gates).value <==> SameNames(Get(row, r), e.gates));
    assert used * out != {} <==> exists g :: g in used && g in out by {
      if g :| g in used && g in out { assert g in used * out; }
    }
    assert (exists g :: (Lists(Get(row, c), g) || Lists(Get(row, x), g)) != Lists(Get(row, r), g))
      <==> exists g :: (g in used + out) != (g in all);
  }

  /** The mismatches of a row, each exactly where it holds. */
  lemma {:induction false} MismatchesExactly(v: Validator, row: Object, e: Expected, name: string)
    ensures name in IdentityMismatches(v, row, e) + ListMismatches(row, e)
                    + HookMismatches(ReadRow(row, BackedBy(row)), Wanted(e.hooks), ExpectedHook(e))
                    + GateMismatches(ReadRow(row, BackedBy(row)), Wanted(e.gates)) <==>
            Differs(v, row, e, name)
  {
    hide IdentityMismatches, ListMismatches, HookMismatches, GateMismatches, ReadRow, BackedBy, Wanted, ExpectedHook, IdentityDiffers,
      ListDiffers, HooksDiffer, GatesDiffer;
    IdentityDiffersIff(v, row, e, name);
    ListDiffersIff(row, e, name);
    HooksDifferIff(row, e, name);
    GatesDifferIff(row, e, name);
  }

  /** A row must declare the status the check arrives at. */
  function Conclude(declared: string, mismatched: set<string>, excluded: set<string>): (o: Outcome)
    ensures o.explicit && o.excluded == excluded && o.status in {"conformant", "not_evaluated"}
    ensures o.status == "conformant" <==> mismatched == {} && excluded == {} && declared == "conformant"
    ensures o.status == "conformant" ==> o.mismatched == {}
    ensures o.status == "not_evaluated" && o.mismatched == {} <==>
            mismatched == {} && excluded != {} && declared == "not_evaluated"
    ensures forall name :: name in o.mismatched <==>
              name in mismatched
              || (name == "result_contract_status"
                  && declared != if mismatched == {} && excluded == {} then "conformant" else "not_evaluated")
  {
    var status := if mismatched == {} && excluded == {} then "conformant" else "not_evaluated";
    if declared == status then Outcome(true, status, mismatched, excluded)
    else Outcome(true, "not_evaluated", mismatched + {"result_contract_status"}, excluded)
  }

  /** Check a receipt row against what is expected: it is conformant exactly when it
      is identified, its lists cover what is expected, nothing is excluded, and it says
      so itself; a refusal without any mismatch is exactly an honest exclusion. */
  method ValidateBinding(v: Validator, row: Object, e: Expected) returns (o: Outcome)
    ensures o.explicit == Explicit(row, e) && (o.status == "legacy" <==> !Explicit(row, e))
    ensures o.status in {"legacy", "conformant", "not_evaluated"}
    ensures o.status == "conformant" <==>
            Identified(v, row, e) && Covered(row, e) && NothingExcluded(row) && StatusOf(v, row) == "conformant"
    ensures o.status == "conformant" ==> o.mismatched == {}
    ensures o.status == "not_evaluated" && o.mismatched == {} <==>
            Identified(v, row, e) && Covered(row, e) && !NothingExcluded(row) && StatusOf(v, row) == "not_evaluated"
    ensures o.explicit ==> o.excluded == Listed(row, "excluded_gate_ids") * Listed(row, "required_gate_ids")
    ensures o.explicit ==> forall name :: name in o.mismatched <==>
              Differs(v, row, e, name)
              || (name == "result_contract_status"
                  && StatusOf(v, row) != if (forall n :: !Differs(v, row, e, n)) && o.excluded == {} then "conformant" else "not_evaluated")
    ensures !o.explicit ==> o.excluded == {} && forall name :: name in o.mismatched <==>
              name in {"task_id", "adapter_revision_sha256", "hook_id"} && IdentityDiffers(v, row, e, name)
  {
    hide Identified, Covered, ValidHookIo, BackedHooks, StatusOf, HookIo, Listed, HooksBalanced, GatesBalanced, Meets, NothingExcluded, Conclude,
      IdentityMismatches, ListMismatches, HookMismatches, GateMismatches, Wanted, Explicit, ExpectedHook, Differs;
    if !Explicit(row, e) {
      CoveredIsExplicit(row, e);
      o := Outcome(false, "legacy", Unless(Meets(e.task, row, "task_id"), "task_id")
        + Unless(Meets(e.adapterRevision, row, "adapter_revision_sha256"), "adapter_revision_sha256")
        + Unless(Meets(ExpectedHook(e), row, "hook_id"), "hook_id"), {});
    } else {
      var valid, backed := CheckHookIo(HookIo(row));
      var c := ReadRow(row, if valid then Some(backed) else None);
      CoveredIff(row, e);
      var mismatched := IdentityMismatches(v, row, e) + ListMismatches(row, e)
                        + HookMismatches(c, Wanted(e.hooks), ExpectedHook(e)) + GateMismatches(c, Wanted(e.gates));
      var excluded := c.excluded * c.gates;
      assert mismatched == {} <==> Identified(v, row, e) && Covered(row, e);
      forall name ensures name in mismatched <==> Differs(v, row, e, name) { MismatchesExactly(v, row, e, name); }
      if mismatched == {} { ExcludedIff(row, e); }
      o := Conclude(StatusOf(v, row), mismatched, excluded);
    }
  }

  lemma CoveredIsExplicit(row: Object, e: Expected)
    requires !Explicit(row, e)
    ensures !Covered(row, e)
  {
  }

  lemma {:induction false} ExcludedIff(row: Object, e: Expected)
    requires Covered(row, e)
    ensures NothingExcluded(row) <==> Listed(row, "excluded_gate_ids") * Listed(row, "required_gate_ids") == {}
  {
    hide NameList, Lists, ValidHookIo, Backs, ExpectedHook, HookIo, Listed;
    var x, r := "excluded_gate_ids", "required_gate_ids";
    assert NameList(Get(row, x)) by { assert x in CoverageFields(); }
    NothingExcludedIff(row);
    DeclaredIff(row, x);
    DeclaredIff(row, r);
    assert Listed(row, x) <= Listed(row, r);
    assert Listed(row, x) * Listed(row, r) == Listed(row, x);
  }

  // ---- published logs ------------------------------------------------------

  function StatusWord(s: Status): string {
    match s
    case Completed => "completed"
    case Broken => "failed"
    case Unavailable => "unavailable"
  }

  function Publish(r: Row): Receipt {
    Receipt(Int(r.index), Str(r.hook), Str(r.input), Str(r.output), Str(r.signature), Str(StatusWord(r.status)),
            Bool(r.returnValid), Bool(r.required), Str(if r.accepted then "accepted" else "not_evaluated"), Bool(r.consumed))
  }

  function Published(rows: seq<Row>): seq<Receipt> {
    seq(|rows|, i requires 0 <= i < |rows| => Publish(rows[i]))
  }

  /** Every call names its hook and carries full digests. */
  ghost predicate Sane(ops: seq<Op>) {
    forall i :: 0 <= i < |ops| && ops[i].Made? ==> SaneCall(ops[i].call)
  }

  predicate SaneCall(c: Call) {
    Strip(c.hook) != "" && FullSha(Str(c.input)) && FullSha(Str(c.output)) && FullSha(Str(c.signature))
  }

  predicate SaneRow(r: Row) {
    Strip(r.hook) != "" && FullSha(Str(r.input)) && FullSha(Str(r.output)) && FullSha(Str(r.signature))
  }

  lemma {:induction false} SaneRows(ops: seq<Op>)
    requires Sane(ops)
    ensures forall i :: 0 <= i < |Log(ops)| ==> SaneRow(Log(ops)[i])
  {
    hide Judge, FullSha, Strip, Settled;
    if ops != [] {
      var front, op := Log(ops[..|ops| - 1]), ops[|ops| - 1];
      SaneRows(ops[..|ops| - 1]);
      if op.Judged? {
        JudgeFrame(front, op.hook, op.verdict);
        forall i | 0 <= i < |front| ensures SaneRow(Log(ops)[i]) {
          SettledDiffers(front[i], op.verdict);
        }
      }
    }
  }

  lemma PublishedRow(r: Row)
    requires SaneRow(r) && Consistent(r)
    ensures WellFormed(Publish(r)) && forall h :: Backs(Publish(r), h) <==> r.consumed && r.hook == h
  {
  }

  /** After any sane sequence of resets, calls and bindings, a non-empty log passes the
      receipt check, and backs exactly the hooks with a consumed call. */
  lemma {:induction false} LogPassesCheck(ops: seq<Op>)
    requires Sane(ops) && Log(ops) != []
    ensures ValidHookIo(Published(Log(ops)))
    ensures forall h :: h in BackedHooks(Published(Log(ops))) <==>
              exists i :: 0 <= i < |Log(ops)| && Log(ops)[i].hook == h && Log(ops)[i].consumed
  {
    hide Log, WellFormed, Sane, SaneRow, BackedHooks, Backs, Consistent;
    var rows := Log(ops);
    var rs := Published(rows);
    LogIsKept(ops);
    SaneRows(ops);
    forall i | 0 <= i < |rs| ensures WellFormed(rs[i]) && At(rs[i]) == i
      ensures forall h :: Backs(rs[i], h) <==> rows[i].consumed && rows[i].hook == h
    {
      PublishedRow(rows[i]);
    }
    forall h ensures h in BackedHooks(rs) <==> exists i :: 0 <= i < |rows| && rows[i].hook == h && rows[i].consumed {
      BackedIff(rs, h);
      if i :| 0 <= i < |rows| && rows[i].hook == h && rows[i].consumed {
        assert Backs(rs[i], h);
      }
    }
  }

  function PublishJson(r: Row): Json {
    Dict(map["invocation_index" := Int(r.index), "hook_id" := Str(r.hook), "input_sha256" := Str(r.input),
             "output_sha256" := Str(r.output), "signature_sha256" := Str(r.signature), "status" := Str(StatusWord(r.status)),
             "return_contract_valid" := Bool(r.returnValid), "acceptance_required" := Bool(r.required),
             "semantic_status" := Str(if r.accepted then "accepted" else "not_evaluated"),
             "value_consumed_by_decision" := Bool(r.consumed)])
  }

  lemma ReadsBack(r: Row)
    ensures ReadReceipt(PublishJson(r)) == Publish(r)
  {
    hide StatusWord;
  }

  lemma HookIoReadsBack(row: Object, rows: seq<Row>)
    requires Get(row, "hook_io_receipts") == List(seq(|rows|, i requires 0 <= i < |rows| => PublishJson(rows[i])))
    ensures HookIo(row) == Published(rows)
  {
    hide ReadReceipt, PublishJson, Publish;
    forall i | 0 <= i < |rows| ensures HookIo(row)[i] == Published(rows)[i] { ReadsBack(rows[i]); }
  }

  /** Some call of the hook was consumed by a decision. */
  ghost predicate Consumed(rows: seq<Row>, h: string) {
    exists i :: 0 <= i < |rows| && rows[i].hook == h && rows[i].consumed
  }

  /** On a row that publishes a sane, non-empty log, the hooks are covered exactly when
      both lists name the expected hooks and each of them has a consumed call in the log. */
  lemma {:induction false} LoggedHooksIff(ops: seq<Op>, row: Object, e: Expected)
    requires Sane(ops) && Log(ops) != []
    requires var rows := Log(ops);
             Get(row, "hook_io_receipts") == List(seq(|rows|, i requires 0 <= i < |rows| => PublishJson(rows[i])))
    ensures HooksCovered(row, e) <==>
            && SameNames(Get(row, "required_hook_ids"), e.hooks) && SameNames(Get(row, "consumed_hook_ids"), e.hooks)
            && (ExpectedHook(e).Some? && ExpectedHook(e).value != "" ==> Lists(e.hooks, ExpectedHook(e).value))
            && forall h :: Lists(e.hooks, h) ==> Consumed(Log(ops), h)
  {
    hide Log, Sane, BackedHooks, Backs, ValidHookIo, SameNames, ExpectedHook, Lists, HookIo, Published, PublishJson;
    HookIoReadsBack(row, Log(ops));
    LogPassesCheck(ops);
    var rs := HookIo(row);
    assert rs == Published(Log(ops));
    forall h
      ensures (exists i :: 0 <= i < |rs| && Backs(rs[i], h)) <==> Consumed(Log(ops), h)
    {
      BackedIff(rs, h);
    }
  }
}
