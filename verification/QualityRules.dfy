/** What the metric-key policy accepts and decides, stated on the adapter's own value. */
module QualityRules {
  import opened Wrappers
  import opened Text
  import opened Json
  import opened QualityPolicy

  // ---- identifiers ---------------------------------------------------------

  /** A text free of control characters whose trimmed form is neither empty nor long. */
  predicate Ident(j: Json) {
    j.Str? && (forall c :: c in j.s ==> ' ' <= c != '\U{7F}') && 0 < |Strip(j.s)| <= 256
  }

  /** Nothing, one identifier, or a list of identifiers. */
  predicate OnlyIdents(j: Json) {
    j == Null || Ident(j) || (j.List? && forall i :: 0 <= i < |j.items| ==> Ident(j.items[i]))
  }

  predicate Names(j: Json, id: string) { Ident(j) && Strip(j.s) == id }

  /** The identifier, trimmed, is one of those given. */
  predicate Gives(j: Json, id: string) {
    Names(j, id) || (j.List? && exists i :: 0 <= i < |j.items| && Names(j.items[i], id))
  }

  lemma IdentIff(j: Json)
    ensures Ident(j) <==> OpaqueId(j).Some?
    ensures Ident(j) ==> j.Str? && OpaqueId(j) == Some(Strip(j.s))
    ensures forall id :: Names(j, id) <==> OpaqueId(j) == Some(id)
  {
    if j.Str? {
      assert (exists i :: 0 <= i < |j.s| && Control(j.s[i])) <==> exists c :: c in j.s && Control(c) by {
        if i :| 0 <= i < |j.s| && Control(j.s[i]) { assert j.s[i] in j.s; }
      }
    }
  }

  lemma OnlyIdentsIff(j: Json)
    ensures ItemsValid(j, true) <==> OnlyIdents(j)
    ensures ItemsValid(j, false) <==> OnlyIdents(j) && j != Null
  {
    hide Ident, OpaqueId;
    forall x ensures (Ident(x) <==> OpaqueId(x).Some?) && (Ident(x) ==> x.Str?) { IdentIff(x); }
  }

  lemma {:induction false} IdsGive(items: seq<Json>, id: string)
    ensures id in Ids(items) <==> exists i :: 0 <= i < |items| && Names(items[i], id)
  {
    hide Names, OpaqueId;
    if items != [] {
      var n := |items| - 1;
      IdsGive(items[..n], id);
      IdentIff(items[n]);
      assert forall i :: 0 <= i < n ==> items[..n][i] == items[i];
      if i :| 0 <= i < |items| && Names(items[i], id) { assert i < n ==> Names(items[..n][i], id); }
      if i :| 0 <= i < n && Names(items[..n][i], id) { assert Names(items[i], id); }
    }
  }

  lemma ItemsGive(j: Json, id: string)
    ensures id in StringItems(j) <==> Gives(j, id)
  {
    hide Names, OpaqueId;
    forall x ensures Names(x, id) ==> x.Str? { IdentIff(x); }
    IdentIff(j);
    if j.List? { IdsGive(j.items, id); }
  }

  // ---- rows ----------------------------------------------------------------

  /** The fields with their second spellings. */
  function Required(o: Object): Json {
    if "required_body_class_ids" in o then o["required_body_class_ids"] else Get(o, "required_body_classes")
  }

  function Missing(o: Object): Json {
    if "missing_body_class_ids" in o then o["missing_body_class_ids"] else Get(o, "missing_body_classes")
  }

  predicate ListsSound(o: Object) { OnlyIdents(Required(o)) && OnlyIdents(Missing(o)) && OnlyIdents(Get(o, "evidence_ids")) }

  function Written(env: Env, o: Object): string {
    env.word(if Truthy(Get(o, "evaluation_status")) then Get(o, "evaluation_status")
             else if Truthy(Get(o, "status")) then Get(o, "status") else Str(""))
  }

  /** The row says this word, in writing, by its flag, or both. */
  predicate Says(env: Env, o: Object, word: string) {
    if Get(o, "applicable").Bool? then
      && word == (if Get(o, "applicable").b then "applicable" else "not_applicable")
      && (Written(env, o) == "" || Written(env, o) == word)
    else Written(env, o) == word
  }

  /** Nothing is missing: no identifier is given. */
  ghost predicate NothingMissing(o: Object) { forall id :: !Gives(Missing(o), id) }

  /** A row applies if it says so, with sound lists and nothing missing; it lacks evidence
      if it says so or applies but for missing classes; it is out of scope if it says so;
      anything else is no valid row. */
  ghost predicate RowIs(env: Env, o: Object, status: Status) {
    match status
    case Applicable => ListsSound(o) && Says(env, o, "applicable") && NothingMissing(o)
    case NotApplicable => ListsSound(o) && Says(env, o, "not_applicable")
    case InsufficientEvidence =>
      ListsSound(o) && (Says(env, o, "insufficient_evidence") || (Says(env, o, "applicable") && !NothingMissing(o)))
    case InvalidContract =>
      !ListsSound(o) || !(Says(env, o, "applicable") || Says(env, o, "not_applicable") || Says(env, o, "insufficient_evidence"))
  }

  lemma FieldsRead(o: Object)
    ensures Required(o) == Field(o, "required_body_class_ids", "required_body_classes")
    ensures Missing(o) == Field(o, "missing_body_class_ids", "missing_body_classes")
  {
  }

  lemma WordsApart()
    ensures "applicable" != "not_applicable" && "applicable" != "insufficient_evidence" && "applicable" != "invalid_contract"
    ensures "not_applicable" != "insufficient_evidence" && "not_applicable" != "invalid_contract"
    ensures "insufficient_evidence" != "invalid_contract" && "" != "applicable" && "" != "not_applicable"
  {
    assert |"applicable"| == 10 && |"not_applicable"| == 14 && |"insufficient_evidence"| == 21 && |"invalid_contract"| == 16;
  }

  lemma SaysIff(env: Env, o: Object)
    ensures forall word :: word in {"applicable", "not_applicable", "insufficient_evidence"} ==>
              (Says(env, o, word) <==> StatusWord(env, o) == word)
  {
    WordsApart();
    assert Written(env, o) == env.word(Either(Either(Get(o, "evaluation_status"), Get(o, "status")), Str("")));
  }

  lemma NothingMissingIff(o: Object)
    ensures NothingMissing(o) <==> StringItems(Missing(o)) == []
  {
    hide StringItems, Gives, Missing;
    var xs := StringItems(Missing(o));
    forall id ensures id in xs <==> Gives(Missing(o), id) { ItemsGive(Missing(o), id); }
    if xs != [] { assert xs[0] in xs; }
  }

  /** The status of a normalised row. */
  lemma {:induction false} RowStatusIff(env: Env, o: Object, status: Status)
    ensures NormalizeDict(env, o).status == status <==> RowIs(env, o, status)
  {
    hide StringItems, ItemsValid, OnlyIdents, Says, StatusWord, ReasonCode, Gives, NothingMissing, Required, Missing;
    WordsApart();
    SaysIff(env, o);
    NothingMissingIff(o);
    OnlyIdentsIff(Required(o));
    OnlyIdentsIff(Missing(o));
    OnlyIdentsIff(Get(o, "evidence_ids"));
    FieldsRead(o);
  }

  /** Letters, digits, dots, dashes and underscores, the first one no punctuation. */
  predicate Code(s: string) {
    && s != "" && (forall c :: c in s ==> AsciiLetterOrDigit(c) || c in "._-") && AsciiLetterOrDigit(s[0])
  }

  predicate AsciiLetterOrDigit(c: char) { 'a' <= c <= 'z' || 'A' <= c <= 'Z' || '0' <= c <= '9' }

  predicate Nothing(j: Json) { j == Null || (j.Str? && Strip(j.s) == "") }

  lemma CodeIff(s: string)
    ensures Code(s) <==> IsCode(s)
  {
    assert forall c :: CodeChar(c) <==> AsciiLetterOrDigit(c) || c in "._-" by {
      assert "._-"[0] == '.' && "._-"[1] == '_' && "._-"[2] == '-';
    }
    if Code(s) { assert forall i :: 0 <= i < |s| ==> s[i] in s; }
  }

  /** The rest of a normalised row: the identifiers given, in order, and the reason. */
  lemma {:induction false} RowContents(env: Env, o: Object)
    ensures var r := NormalizeDict(env, o);
      && r.required == StringItems(Required(o)) && r.missing == StringItems(Missing(o))
      && r.evidence == Some(StringItems(Get(o, "evidence_ids")))
      && r.reason == (var said := Get(o, "reason_code");
                      if Nothing(said) then (if ListsSound(o) then None else Some("applicability_opaque_id_malformed"))
                      else if Ident(said) && Code(Strip(said.s)) then Some(Strip(said.s))
                      else Some("applicability_reason_code_malformed"))
  {
    hide StringItems, ItemsValid, OnlyIdents, StatusWord, IsCode, Code, Ident, OpaqueId, Strip, Required, Missing;
    FieldsRead(o);
    OnlyIdentsIff(Required(o));
    OnlyIdentsIff(Missing(o));
    OnlyIdentsIff(Get(o, "evidence_ids"));
    IdentIff(Get(o, "reason_code"));
    if Ident(Get(o, "reason_code")) { IdentIsText(Get(o, "reason_code")); CodeIff(Strip(Get(o, "reason_code").s)); }
  }

  lemma IdentIsText(j: Json)
    requires Ident(j)
    ensures j.Str?
  {
  }

  // ---- policies ------------------------------------------------------------

  /** The first of these fields that is not null, or else the default. */
  ghost predicate FirstGiven(o: Object, names: seq<string>, default: Json, j: Json) {
    || ((forall i :: 0 <= i < |names| ==> Get(o, names[i]) == Null) && j == default)
    || exists i :: 0 <= i < |names| && Get(o, names[i]) != Null && j == Get(o, names[i])
         && forall k :: 0 <= k < i ==> Get(o, names[k]) == Null
  }

  lemma {:induction false} FirstOfIff(o: Object, names: seq<string>, default: Json)
    ensures FirstGiven(o, names, default, FirstOf(o, names, default))
  {
    if names != [] && Get(o, names[0]) == Null {
      var rest := names[1..];
      FirstOfIff(o, rest, default);
      assert forall i :: 0 < i < |names| ==> names[i] == rest[i - 1];
      assert forall i :: 0 <= i < |rest| ==> rest[i] == names[i + 1];
      var j := FirstOf(o, rest, default);
      if i :| 0 <= i < |rest| && Get(o, rest[i]) != Null && j == Get(o, rest[i]) && forall k :: 0 <= k < i ==> Get(o, rest[k]) == Null {
        assert Get(o, names[i + 1]) != Null && forall k :: 0 <= k < i + 1 ==> Get(o, names[k]) == Null;
      }
    }
  }

  /** Where keys and aliases are read from: the first spelling that is given. */
  lemma SourceExactly(o: Object)
    ensures FirstGiven(o, ["declared_keys", "keys", "quality_delta_keys", "metric_keys", "axes"], List([]), SourceOf(Dict(o)).keys)
    ensures FirstGiven(o, ["aliases", "quality_metric_aliases", "metric_aliases"], Dict(map[]), SourceOf(Dict(o)).aliases)
  {
    hide FirstOf, FirstGiven;
    FirstOfIff(o, ["declared_keys", "keys", "quality_delta_keys", "metric_keys", "axes"], List([]));
    FirstOfIff(o, ["aliases", "quality_metric_aliases", "metric_aliases"], Dict(map[]));
  }

  /** A row as a dictionary: a truth value or a word stands for a status. */
  function RowOf(j: Json): Option<Object> {
    match j
    case Bool(b) => Some(map["evaluation_status" := Str(if b then "applicable" else "not_applicable")])
    case Str(_) => Some(map["evaluation_status" := j])
    case Dict(o) => Some(o)
    case _ => None
  }

  ghost predicate RowSays(env: Env, j: Json, status: Status) {
    match RowOf(j) case Some(o) => RowIs(env, o, status) case None => status == InvalidContract
  }

  /** A mapping that only repeats what an unsupplied one means. */
  predicate LegacyOnly(env: Env, m: Json) {
    m == Null
    || (m.Dict? && forall k :: k in m.entries ==>
          && m.entries[k].Dict?
          && var row := m.entries[k].entries;
             && env.word(if Truthy(Get(row, "evaluation_status")) then row["evaluation_status"] else Str("")) == "applicable"
             && Get(row, "reason_code") == Str("legacy_declared_metric"))
  }

  predicate KeysAreIdents(m: Json) { m.Dict? ==> forall k :: k in m.entries ==> Ident(Str(k)) }

  /** The value announces that it supplies no applicability. */
  predicate Disclaims(s: Source) { s.suppliedFlag == Bool(false) }

  /** A value without contract errors: identifiers throughout, none of the known errors
      inherited, and no disclaimer over rows that say something. */
  ghost predicate Sound(env: Env, s: Source) {
    && s.keys != Null && OnlyIdents(s.keys)
    && s.aliases.Dict? && KeysAreIdents(s.aliases) && (forall k :: k in s.aliases.entries ==> OnlyIdents(s.aliases.entries[k]))
    && !Truthy(s.invalidFlag)
    && !Gives(s.errorCodes, "declared_metric_id_malformed") && !Gives(s.errorCodes, "metric_alias_contract_malformed")
    && !Gives(s.errorCodes, "metric_policy_contract_malformed")
    && (if Disclaims(s) then LegacyOnly(env, s.applicability) && LegacyOnly(env, s.alternate)
        else KeysAreIdents(s.applicability) && KeysAreIdents(s.alternate))
  }

  /** The mapping that counts. */
  function MappingOf(s: Source): Json {
    if Disclaims(s) then Null else if s.applicability != Null then s.applicability else s.alternate
  }

  predicate MappingsAgree(s: Source) { s.applicability != Null && s.alternate != Null ==> Same(s.applicability, s.alternate) }

  lemma KeysIdentIff(m: Json)
    ensures KeysAreIdents(m) <==> !BadMetricId(m)
  {
    hide Ident, OpaqueId;
    forall k: string ensures Ident(Str(k)) <==> OpaqueId(Str(k)).Some? { IdentIff(Str(k)); }
  }

  lemma AliasesIff(j: Json)
    ensures AliasesValid(j) <==> j.Dict? && KeysAreIdents(j) && forall k :: k in j.entries ==> OnlyIdents(j.entries[k])
  {
    hide Ident, OpaqueId, OnlyIdents, ItemsValid;
    forall k: string ensures Ident(Str(k)) <==> OpaqueId(Str(k)).Some? { IdentIff(Str(k)); }
    forall x ensures ItemsValid(x, true) <==> OnlyIdents(x) { OnlyIdentsIff(x); }
  }

  lemma LegacyIff(env: Env, m: Json)
    ensures LegacyOnly(env, m) <==> m == Null || LegacyProjection(env, m)
  {
  }

  lemma {:induction false} InheritsIff(j: Json)
    ensures Unique(KnownOnly(StringItems(j))) == [] <==>
      !Gives(j, "declared_metric_id_malformed") && !Gives(j, "metric_alias_contract_malformed")
      && !Gives(j, "metric_policy_contract_malformed")
  {
    hide StringItems, Gives, Unique, KnownOnly;
    var known := KnownOnly(StringItems(j));
    UniqueFacts(known);
    KnownOnlyFacts(StringItems(j));
    forall id ensures id in StringItems(j) <==> Gives(j, id) { ItemsGive(j, id); }
    if known != [] { assert known[0] in known; }
    assert Unique(known) != [] ==> Unique(known)[0] in known;
  }

  /** A value gives no contract error exactly if it is sound. */
  lemma {:induction false} SoundIff(env: Env, s: Source)
    ensures Errors(env, s) == [] <==> Sound(env, s)
  {
    hide StringItems, Gives, Unique, KnownOnly, ItemsValid, OnlyIdents, KeysAreIdents, BadMetricId, AliasesValid, LegacyOnly,
      LegacyProjection, Truthy;
    InheritsIff(s.errorCodes);
    OnlyIdentsIff(s.keys);
    AliasesIff(s.aliases);
    LegacyIff(env, s.applicability);
    LegacyIff(env, s.alternate);
    KeysIdentIff(s.applicability);
    KeysIdentIff(s.alternate);
    assert !BadMetricId(Null) by { NullIsNoMapping(); }
    var all := Unique(KnownOnly(StringItems(s.errorCodes)))
      + When(Truthy(s.invalidFlag) && Unique(KnownOnly(StringItems(s.errorCodes))) == [], POLICY_MALFORMED)
      + When(!ItemsValid(s.keys, false), KEYS_MALFORMED)
      + When(!AliasesValid(s.aliases), ALIASES_MALFORMED)
      + When(FlagConflict(env, s), POLICY_MALFORMED)
      + When(BadMetricId(Counting(env, s, s.applicability)), POLICY_MALFORMED)
      + When(BadMetricId(Counting(env, s, s.alternate)), POLICY_MALFORMED);
    UniqueFacts(all);
    assert Unique(all) == [] <==> all == [] by { if Unique(all) != [] { assert Unique(all)[0] in all; } }
  }

  /** The status a declared metric gets from a sound value. */
  lemma {:induction false} RowForIff(env: Env, s: Source, k: string, status: Status)
    requires Sound(env, s)
    ensures RowFor(env, s, k).status == status <==>
      if MappingOf(s) == Null then status == Applicable
      else if !MappingOf(s).Dict? || !MappingsAgree(s) then status == InvalidContract
      else RowSays(env, Get(MappingOf(s).entries, k), status)
  {
    hide Gives, OnlyIdents, KeysAreIdents, LegacyOnly, LegacyProjection, Truthy, NormalizeDict, RowIs, Same;
    LegacyIff(env, s.applicability);
    LegacyIff(env, s.alternate);
    forall o ensures NormalizeDict(env, o).status == status <==> RowIs(env, o, status) { RowStatusIff(env, o, status); }
  }

  /** The row a declared metric gets from a sound value: the legacy row without a mapping,
      its own where one undisputed mapping is given, and else an invalid one that says why. */
  lemma {:induction false} RowForExactly(env: Env, s: Source, k: string)
    requires Sound(env, s)
    ensures var r, m := RowFor(env, s, k), MappingOf(s);
      && (m == Null ==> r == Row(Applicable, Some("legacy_declared_metric"), [], [], None))
      && (m != Null && !MappingsAgree(s) ==> r.status == InvalidContract && r.reason == Some("applicability_mapping_conflict"))
      && (m != Null && MappingsAgree(s) && !m.Dict? ==> r.status == InvalidContract && r.reason == Some("applicability_mapping_malformed"))
      && (m.Dict? && MappingsAgree(s) ==>
            r == match RowOf(Get(m.entries, k))
                 case Some(o) => NormalizeDict(env, o)
                 case None => Row(InvalidContract, Some("applicability_row_malformed"), [], [], None))
  {
    hide Gives, OnlyIdents, KeysAreIdents, LegacyOnly, LegacyProjection, Truthy, NormalizeDict, Same;
    LegacyIff(env, s.applicability);
    LegacyIff(env, s.alternate);
  }

  /** Which metrics decide, in terms of the adapter's own value: the value is sound, the
      metric is declared, and either no applicability is supplied or one undisputed mapping
      has a valid row for every declared metric and an applicable one for this metric. */
  ghost predicate Decides(env: Env, s: Source, k: string) {
    && Sound(env, s) && Gives(s.keys, k)
    && (MappingOf(s) == Null
        || (MappingOf(s).Dict? && MappingsAgree(s)
            && RowSays(env, Get(MappingOf(s).entries, k), Applicable)
            && forall h :: Gives(s.keys, h) ==> !RowSays(env, Get(MappingOf(s).entries, h), InvalidContract)))
  }

  lemma {:induction false} DecidesExactly(env: Env, s: Source, k: string)
    ensures k in Normalize(env, s).decision <==> Decides(env, s, k)
  {
    hide Errors, RowFor, AliasesOf, WithStatus, Decision, Sound, Gives, RowSays, MappingOf, MappingsAgree, Unique, StringItems;
    DecidesIff(env, s, k);
    SoundIff(env, s);
    UniqueFacts(StringItems(s.keys));
    forall h ensures h in Keys(s) <==> Gives(s.keys, h) { ItemsGive(s.keys, h); }
    if Sound(env, s) {
      forall h
        ensures RowFor(env, s, h).status == Applicable <==>
          (MappingOf(s) == Null
           || (MappingOf(s).Dict? && MappingsAgree(s) && RowSays(env, Get(MappingOf(s).entries, h), Applicable)))
        ensures RowFor(env, s, h).status == InvalidContract <==>
          (MappingOf(s) != Null
           && (!MappingOf(s).Dict? || !MappingsAgree(s) || RowSays(env, Get(MappingOf(s).entries, h), InvalidContract)))
      {
        RowForIff(env, s, h, Applicable);
        RowForIff(env, s, h, InvalidContract);
      }
    }
  }

  /** A verdict that overrules: its status and reason. */
  function Verdict(c: Compatibility): Option<(Status, string)> {
    if c.policyError || c.basis == "adapter_hook_return_contract_invalid" || c.basis == "adapter_hook_identity_echo_invalid"
       || c.basis == "gate_artifact_compatibility_signature_incompatible" || c.basis == "hook_error"
    then Some((InvalidContract, "metric_policy_or_compatibility_invalid"))
    else if c.status == "incompatible" then Some((NotApplicable, "artifact_metric_incompatible"))
    else if c.status != "compatible" && c.basis != "mapping_not_supplied"
    then Some((InsufficientEvidence, "artifact_metric_compatibility_unresolved"))
    else None
  }

  lemma VerdictIff(c: Compatibility)
    ensures Verdict(c) == Projection(c)
  {
  }

  /** What a compatibility verdict makes of the policy: nothing, or every declared metric
      keeps its lists and gets the verdict's status and reason, and none decides. */
  lemma {:induction false} VerdictExactly(env: Env, s: Source, c: Compatibility)
    requires WordsStay(env)
    ensures var before := Normalize(env, s); var after := ApplyCompatibility(env, s, c);
      if Verdict(c).None? || before.declared == [] then after == before
      else
        && after.declared == before.declared && after.decision == [] && after.errors == [] && after.supplied
        && forall k :: k in after.declared ==>
             && k in before.applicability && k in after.applicability
             && var was := before.applicability[k];
                after.applicability[k] ==
                  Row(Verdict(c).value.0, Some(Verdict(c).value.1), was.required, was.missing,
                      if was.evidence.Some? then was.evidence else Some([]))
  {
    hide Normalize, NormalPolicy, WordsStay, IsCode, IsId, Projection, ApplyCompatibility, Verdict;
    VerdictIff(c);
    CompatibilityNeverAdds(env, s, c);
    if Projection(c).Some? && Normalize(env, s).declared != [] {
      NormalizedIsNormal(env, s);
      VerdictOverrules(env, s, c);
      DeclaredHaveRows(env, Normalize(env, s));
    }
  }
}
