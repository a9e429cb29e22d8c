/** The adapter's metric-key policy: its normalisation, and the projection of a
    gate-compatibility verdict onto it. */
module QualityPolicy {
  import opened Wrappers
  import opened Text
  import opened Json

  // ---- identifiers ---------------------------------------------------------

  predicate Control(c: char) { c as int < 32 || c as int == 127 }

  function OpaqueId(j: Json): Option<string> {
    if !j.Str? || (exists i :: 0 <= i < |j.s| && Control(j.s[i])) then None
    else if Strip(j.s) == "" || |Strip(j.s)| > 256 then None
    else Some(Strip(j.s))
  }

  /** A text that is its own opaque id. */
  predicate IsId(s: string) { OpaqueId(Str(s)) == Some(s) }

  predicate CodeStart(c: char) { '0' <= c <= '9' || 'A' <= c <= 'Z' || 'a' <= c <= 'z' }

  predicate CodeChar(c: char) { CodeStart(c) || c == '.' || c == '_' || c == '-' }

  predicate IsCode(s: string) { s != "" && CodeStart(s[0]) && forall i :: 0 <= i < |s| ==> CodeChar(s[i]) }

  function ReasonCode(j: Json, fallback: Option<string>): Option<string> {
    if j == Null || (j.Str? && Strip(j.s) == "") then fallback
    else if OpaqueId(j).None? || !IsCode(OpaqueId(j).value) then Some("applicability_reason_code_malformed")
    else OpaqueId(j)
  }

  function Ids(items: seq<Json>): seq<string> {
    if items == [] then []
    else
      var n := |items| - 1;
      Ids(items[..n]) + (if OpaqueId(items[n]).Some? then [OpaqueId(items[n]).value] else [])
  }

  function StringItems(j: Json): seq<string> {
    match j
    case Str(_) => if OpaqueId(j).Some? then [OpaqueId(j).value] else []
    case List(items) => Ids(items)
    case _ => []
  }

  /** Only identifiers, one or a list of them. */
  predicate ItemsValid(j: Json, absentAllowed: bool) {
    match j
    case Null => absentAllowed
    case Str(_) => OpaqueId(j).Some?
    case List(items) => forall i :: 0 <= i < |items| ==> OpaqueId(items[i]).Some?
    case _ => false
  }

  /** `list(dict.fromkeys(xs))`: first occurrences, in order. */
  function Unique(xs: seq<string>): seq<string> {
    if xs == [] then []
    else
      var front := Unique(xs[..|xs| - 1]);
      if xs[|xs| - 1] in front then front else front + [xs[|xs| - 1]]
  }

  function Texts(xs: seq<string>): Json { List(seq(|xs|, i requires 0 <= i < |xs| => Str(xs[i]))) }

  // ---- applicability rows --------------------------------------------------

  datatype Status = Applicable | NotApplicable | InsufficientEvidence | InvalidContract

  /** A normalised row; the evidence list may be missing. */
  datatype Row = Row(status: Status, reason: Option<string>, required: seq<string>, missing: seq<string>, evidence: Option<seq<string>>)

  /** `str` followed by trimming and lower-casing. */
  datatype Env = Env(word: Json -> string)

  function Word(s: Status): string {
    match s
    case Applicable => "applicable"
    case NotApplicable => "not_applicable"
    case InsufficientEvidence => "insufficient_evidence"
    case InvalidContract => "invalid_contract"
  }

  function Named(word: string): Option<Status> {
    if word == "applicable" then Some(Applicable)
    else if word == "not_applicable" then Some(NotApplicable)
    else if word == "insufficient_evidence" then Some(InsufficientEvidence)
    else if word == "invalid_contract" then Some(InvalidContract)
    else None
  }

  function Either(a: Json, b: Json): Json { if Truthy(a) then a else b }

  function Field(o: Object, name: string, other: string): Json { if name in o then o[name] else Get(o, other) }

  /** The status word, reconciled with the boolean spelling. */
  function StatusWord(env: Env, o: Object): string {
    var word := env.word(Either(Either(Get(o, "evaluation_status"), Get(o, "status")), Str("")));
    match Get(o, "applicable")
    case Bool(b) =>
      var from := if b then "applicable" else "not_applicable";
      if word == "" then from else if word != from then "invalid_contract" else word
    case _ => word
  }

  function NormalizeDict(env: Env, o: Object): Row {
    var required := Field(o, "required_body_class_ids", "required_body_classes");
    var missing := Field(o, "missing_body_class_ids", "missing_body_classes");
    var evidence := Get(o, "evidence_ids");
    var valid := ItemsValid(required, true) && ItemsValid(missing, true) && ItemsValid(evidence, true);
    var word := if valid then StatusWord(env, o) else "invalid_contract";
    var status := if word == "applicable" && StringItems(missing) != [] then Some(InsufficientEvidence) else Named(word);
    Row(if status.Some? then status.value else InvalidContract,
        ReasonCode(Get(o, "reason_code"), if valid then None else Some("applicability_opaque_id_malformed")),
        StringItems(required), StringItems(missing), Some(StringItems(evidence)))
  }

  function NormalizeRow(env: Env, j: Json, supplied: bool): Row {
    if !supplied then Row(Applicable, Some("legacy_declared_metric"), [], [], None)
    else
      match j
      case Bool(b) => NormalizeDict(env, map["evaluation_status" := Str(if b then "applicable" else "not_applicable")])
      case Str(_) => NormalizeDict(env, map["evaluation_status" := j])
      case Dict(o) => NormalizeDict(env, o)
      case _ => Row(InvalidContract, Some("applicability_row_malformed"), [], [], None)
  }

  function Reason(r: Option<string>): Json { if r.Some? then Str(r.value) else Null }

  /** A row as JSON again. */
  function RowDict(r: Row): Object {
    var o := map["evaluation_status" := Str(Word(r.status)), "reason_code" := Reason(r.reason),
                 "required_body_class_ids" := Texts(r.required), "missing_body_class_ids" := Texts(r.missing)];
    if r.evidence.Some? then o["evidence_ids" := Texts(r.evidence.value)] else o
  }

  function Filled(r: Row): Row { if r.evidence.None? then r.(evidence := Some([])) else r }

  ghost predicate AllIds(xs: seq<string>) { forall i :: 0 <= i < |xs| ==> IsId(xs[i]) }

  /** The rows normalisation produces. */
  ghost predicate NormalRow(r: Row) {
    && AllIds(r.required) && AllIds(r.missing) && (r.evidence.Some? ==> AllIds(r.evidence.value))
    && (r.reason.Some? ==> IsId(r.reason.value) && IsCode(r.reason.value))
    && (r.status == Applicable ==> r.missing == [])
  }

  /** The four status words are their own normal form, and nothing is the empty word. */
  ghost predicate WordsStay(env: Env) {
    && (forall s: Status :: env.word(Str(Word(s))) == Word(s))
    && env.word(Str("")) == ""
  }

  // ---- identifiers are normal ----------------------------------------------

  lemma {:induction false} StripLeftChars(s: string)
    ensures forall c :: c in StripLeft(s) ==> c in s
  {
    if s != "" && IsSpace(s[0]) {
      StripLeftChars(s[1..]);
      assert s == [s[0]] + s[1..];
    }
  }

  lemma {:induction false} StripRightChars(s: string)
    ensures forall c :: c in StripRight(s) ==> c in s
  {
    StripRightFacts(s);
  }

  lemma OpaqueIdTwice(j: Json)
    ensures OpaqueId(j).Some? ==> IsId(OpaqueId(j).value)
  {
    hide Strip, Control, IsSpace, Trimmed;
    if OpaqueId(j).Some? {
      var t := Strip(j.s);
      StripIsNormalForm(j.s);
      StripIsNormalForm(t);
      StripChars(j.s);
      forall i | 0 <= i < |t| ensures !Control(t[i]) {
        assert t[i] in t;
        var k :| 0 <= k < |j.s| && j.s[k] == t[i];
      }
    }
  }

  lemma StripChars(s: string)
    ensures forall c :: c in Strip(s) ==> c in s
  {
    StripLeftChars(s);
    StripRightChars(StripLeft(s));
  }

  lemma {:induction false} IdsAreIds(items: seq<Json>)
    ensures AllIds(Ids(items))
  {
    hide OpaqueId, IsId;
    if items != [] {
      IdsAreIds(items[..|items| - 1]);
      OpaqueIdTwice(items[|items| - 1]);
    }
  }

  lemma StringItemsAreIds(j: Json)
    ensures AllIds(StringItems(j))
  {
    hide OpaqueId, IsId;
    match j
    case Str(_) => OpaqueIdTwice(j);
    case List(items) => IdsAreIds(items);
    case _ =>
  }

  lemma {:induction false} TextsReadBack(xs: seq<string>)
    requires AllIds(xs)
    ensures StringItems(Texts(xs)) == xs && ItemsValid(Texts(xs), true) && ItemsValid(Texts(xs), false)
  {
    hide OpaqueId;
    if xs != [] {
      var n := |xs| - 1;
      TextsReadBack(xs[..n]);
      assert Texts(xs).items[..n] == Texts(xs[..n]).items;
      assert IsId(xs[n]);
    }
  }

  lemma {:induction false} ReasonIsNormal(j: Json, fallback: Option<string>)
    requires fallback.Some? ==> IsId(fallback.value) && IsCode(fallback.value)
    ensures var r := ReasonCode(j, fallback); r.Some? ==> IsId(r.value) && IsCode(r.value)
  {
    hide OpaqueId, IsId, IsCode, Strip;
    OpaqueIdTwice(j);
    CodeIsId("applicability_reason_code_malformed");
    assert IsCode("applicability_reason_code_malformed") by { MalformedIsCode(); }
  }

  lemma MalformedIsCode()
    ensures IsCode("applicability_reason_code_malformed")
  {
  }

  /** A short code is an identifier. */
  lemma CodeIsId(s: string)
    ensures IsCode(s) && |s| <= 256 ==> IsId(s)
  {
  }

  lemma ReasonReadsBack(r: Option<string>)
    requires r.Some? ==> IsId(r.value) && IsCode(r.value)
    ensures ReasonCode(Reason(r), None) == r
  {
  }

  // ---- rows are normal -----------------------------------------------------

  lemma NormalizedDictIsNormal(env: Env, o: Object)
    ensures NormalRow(NormalizeDict(env, o))
  {
    hide OpaqueId, IsId, IsCode, StringItems, ReasonCode, StatusWord, ItemsValid, AllIds;
    StringItemsAreIds(Field(o, "required_body_class_ids", "required_body_classes"));
    StringItemsAreIds(Field(o, "missing_body_class_ids", "missing_body_classes"));
    StringItemsAreIds(Get(o, "evidence_ids"));
    ReasonIsNormal(Get(o, "reason_code"), None);
    assert IsCode("applicability_opaque_id_malformed") by { OpaqueCode(); }
    CodeIsId("applicability_opaque_id_malformed");
    ReasonIsNormal(Get(o, "reason_code"), Some("applicability_opaque_id_malformed"));
  }

  lemma OpaqueCode()
    ensures IsCode("applicability_opaque_id_malformed")
  {
  }

  lemma LegacyCode()
    ensures IsCode("legacy_declared_metric")
  {
  }

  lemma RowCode()
    ensures IsCode("applicability_row_malformed")
  {
  }

  lemma ConflictCode()
    ensures IsCode("applicability_mapping_conflict")
  {
  }

  lemma MappingCode()
    ensures IsCode("applicability_mapping_malformed")
  {
  }

  lemma {:induction false} NormalizedRowIsNormal(env: Env, j: Json, supplied: bool)
    ensures NormalRow(NormalizeRow(env, j, supplied))
  {
    hide OpaqueId, IsId, IsCode, NormalizeDict;
    LegacyCode();
    RowCode();
    CodeIsId("legacy_declared_metric");
    CodeIsId("applicability_row_malformed");
    if supplied {
      match j
      case Bool(b) => NormalizedDictIsNormal(env, map["evaluation_status" := Str(if b then "applicable" else "not_applicable")]);
      case Str(_) => NormalizedDictIsNormal(env, map["evaluation_status" := j]);
      case Dict(o) => NormalizedDictIsNormal(env, o);
      case _ =>
    }
  }

  lemma RowDictReads(r: Row)
    ensures var o := RowDict(r);
      && Get(o, "evaluation_status") == Str(Word(r.status)) && Get(o, "reason_code") == Reason(r.reason)
      && "required_body_class_ids" in o && o["required_body_class_ids"] == Texts(r.required)
      && "missing_body_class_ids" in o && o["missing_body_class_ids"] == Texts(r.missing)
      && Get(o, "evidence_ids") == (if r.evidence.Some? then Texts(r.evidence.value) else Null)
      && "applicable" !in o
  {
  }

  lemma WordsNamed(s: Status)
    ensures Named(Word(s)) == Some(s) && Word(s) != "" && (Word(s) == "applicable" <==> s == Applicable)
  {
  }

  /** A normalised row, read again, is itself with its evidence list filled in. */
  lemma RowReadsBack(env: Env, r: Row)
    requires WordsStay(env) && NormalRow(r)
    ensures NormalizeRow(env, Dict(RowDict(r)), true) == Filled(r)
  {
    hide RowDict, OpaqueId, IsId, IsCode, StringItems, ItemsValid, ReasonCode, Texts, Named, Word, Strip;
    RowDictReads(r);
    TextsReadBack(r.required);
    TextsReadBack(r.missing);
    if r.evidence.Some? { TextsReadBack(r.evidence.value); }
    NothingListed();
    ReasonReadsBack(r.reason);
    WordsNamed(r.status);
    assert env.word(Str(Word(r.status))) == Word(r.status);
    assert StatusWord(env, RowDict(r)) == Word(r.status);
  }

  lemma NothingListed()
    ensures StringItems(Null) == [] && ItemsValid(Null, true)
  {
  }

  // ---- policies ------------------------------------------------------------

  /** The fields normalisation reads from an adapter's value. */
  datatype Source = Source(
    keys: Json, aliases: Json, applicability: Json, alternate: Json, suppliedFlag: Json, errorCodes: Json, invalidFlag: Json)

  function FirstOf(o: Object, names: seq<string>, default: Json): Json {
    if names == [] then default
    else if Get(o, names[0]) != Null then o[names[0]]
    else FirstOf(o, names[1..], default)
  }

  function SourceOf(value: Json): Source {
    match value
    case List(_) => Source(value, Dict(map[]), Null, Null, Null, Null, Null)
    case Dict(o) =>
      Source(FirstOf(o, ["declared_keys", "keys", "quality_delta_keys", "metric_keys", "axes"], List([])),
             FirstOf(o, ["aliases", "quality_metric_aliases", "metric_aliases"], Dict(map[])),
             Get(o, "applicability"), Get(o, "metric_applicability"), Get(o, "applicability_supplied"),
             Get(o, "policy_contract_error_codes"), Get(o, "policy_contract_invalid"))
    case _ => Source(List([]), Dict(map[]), Null, Null, Null, Null, Null)
  }

  /** A normalised policy; its status lists are derived below. */
  datatype Policy = Policy(
    declared: seq<string>, decision: seq<string>, aliases: map<string, seq<string>>,
    applicability: map<string, Row>, supplied: bool, errors: seq<string>)

  const KEYS_MALFORMED := "declared_metric_id_malformed"
  const ALIASES_MALFORMED := "metric_alias_contract_malformed"
  const POLICY_MALFORMED := "metric_policy_contract_malformed"

  predicate Known(code: string) { code in {KEYS_MALFORMED, ALIASES_MALFORMED, POLICY_MALFORMED} }

  predicate LegacyRow(env: Env, j: Json) {
    && j.Dict? && env.word(Either(Get(j.entries, "evaluation_status"), Str(""))) == "applicable"
    && Get(j.entries, "reason_code") == Str("legacy_declared_metric")
  }

  predicate LegacyProjection(env: Env, j: Json) {
    j.Dict? && forall k :: k in j.entries ==> LegacyRow(env, j.entries[k])
  }

  predicate FlagConflict(env: Env, s: Source) {
    && s.suppliedFlag == Bool(false)
    && ((s.applicability != Null && !LegacyProjection(env, s.applicability))
        || (s.alternate != Null && !LegacyProjection(env, s.alternate)))
  }

  /** The applicability mappings that count: none, if the value says so itself. */
  function Counting(env: Env, s: Source, j: Json): Json {
    if s.suppliedFlag == Bool(false) && !FlagConflict(env, s) then Null else j
  }

  function Keys(s: Source): seq<string> { Unique(StringItems(s.keys)) }

  predicate AliasesValid(j: Json) {
    j.Dict? && forall k :: k in j.entries ==> OpaqueId(Str(k)).Some? && ItemsValid(j.entries[k], true)
  }

  function AliasesOf(j: Json, key: string): seq<string> {
    Unique([key] + if j.Dict? then StringItems(Get(j.entries, key)) else [])
  }

  predicate BadMetricId(j: Json) { j.Dict? && exists k :: k in j.entries && OpaqueId(Str(k)).None? }

  function KnownOnly(codes: seq<string>): seq<string> {
    if codes == [] then []
    else
      var n := |codes| - 1;
      KnownOnly(codes[..n]) + if Known(codes[n]) then [codes[n]] else []
  }

  function When(wrong: bool, code: string): seq<string> { if wrong then [code] else [] }

  function Errors(env: Env, s: Source): seq<string> {
    var inherited := Unique(KnownOnly(StringItems(s.errorCodes)));
    Unique(
      inherited + When(Truthy(s.invalidFlag) && inherited == [], POLICY_MALFORMED)
      + When(!ItemsValid(s.keys, false), KEYS_MALFORMED)
      + When(!AliasesValid(s.aliases), ALIASES_MALFORMED)
      + When(FlagConflict(env, s), POLICY_MALFORMED)
      + When(BadMetricId(Counting(env, s, s.applicability)), POLICY_MALFORMED)
      + When(BadMetricId(Counting(env, s, s.alternate)), POLICY_MALFORMED))
  }

  function RowFor(env: Env, s: Source, key: string): Row {
    var raw, alternate := Counting(env, s, s.applicability), Counting(env, s, s.alternate);
    var conflict := raw != Null && alternate != Null && !Same(raw, alternate);
    var source := if raw != Null then raw else alternate;
    var row := NormalizeRow(env, if source.Dict? then Get(source.entries, key) else Null, source != Null);
    if conflict then row.(status := InvalidContract, reason := Some("applicability_mapping_conflict"))
    else if source != Null && !source.Dict? then
      row.(status := InvalidContract, reason := Some("applicability_mapping_malformed"))
    else row
  }

  predicate Supplied(env: Env, s: Source) {
    Counting(env, s, s.applicability) != Null || Counting(env, s, s.alternate) != Null
  }

  /** The declared keys with a status. */
  function WithStatus(keys: seq<string>, rows: map<string, Row>, status: Status): seq<string> {
    if keys == [] then []
    else
      var n := |keys| - 1;
      WithStatus(keys[..n], rows, status)
      + if keys[n] in rows && rows[keys[n]].status == status then [keys[n]] else []
  }

  /** Any contract error or invalid row leaves nothing to decide on. */
  function Decision(keys: seq<string>, rows: map<string, Row>, errors: seq<string>): seq<string> {
    if errors != [] || WithStatus(keys, rows, InvalidContract) != [] then [] else WithStatus(keys, rows, Applicable)
  }

  function Normalize(env: Env, s: Source): Policy {
    var keys := Keys(s);
    var rows := map k | k in keys :: RowFor(env, s, k);
    var errors := Errors(env, s);
    Policy(keys, Decision(keys, rows, errors), map k | k in keys :: AliasesOf(s.aliases, k), rows, Supplied(env, s), errors)
  }

  /** The two loops over the aliases: candidates for each declared key, and whether
      every entry is well formed. */
  method FillAliases(j: Json, keys: seq<string>) returns (aliases: map<string, seq<string>>, valid: bool)
    ensures aliases == map k | k in keys :: AliasesOf(j, k)
    ensures valid == AliasesValid(j)
  {
    hide AliasesOf, OpaqueId, ItemsValid;
    aliases, valid := map[], j.Dict?;
    for n := 0 to |keys|
      invariant aliases == map k | k in keys[..n] :: AliasesOf(j, k)
    {
      assert keys[..n + 1] == keys[..n] + [keys[n]];
      aliases := aliases[keys[n] := AliasesOf(j, keys[n])];
    }
    assert keys[..|keys|] == keys;
    if j.Dict? {
      var rest := j.entries.Keys;
      while rest != {}
        invariant rest <= j.entries.Keys
        invariant valid == forall k :: k in j.entries && k !in rest ==> OpaqueId(Str(k)).Some? && ItemsValid(j.entries[k], true)
      {
        var k :| k in rest;
        if OpaqueId(Str(k)).None? || !ItemsValid(j.entries[k], true) { valid := false; }
        rest := rest - {k};
      }
    }
  }

  /** What normalisation reads from a normalised policy. */
  function AsSource(p: Policy): Source {
    Source(Texts(p.declared), Dict(map k | k in p.aliases :: Texts(p.aliases[k])),
           Dict(map k | k in p.applicability :: Dict(RowDict(p.applicability[k]))), Null, Bool(p.supplied),
           Texts(p.errors), Bool(p.errors != []))
  }

  /** A normalised policy as JSON. */
  function PolicyDict(p: Policy): Object {
    var listed := s => Texts(WithStatus(p.declared, p.applicability, s));
    map["supplied" := Bool(p.declared != []), "keys" := Texts(p.decision),
        "not_applicable_fields" := listed(NotApplicable), "insufficient_evidence_fields" := listed(InsufficientEvidence),
        "invalid_contract_fields" := if p.errors != [] then Texts(p.declared) else listed(InvalidContract),
        "declared_keys" := AsSource(p).keys, "aliases" := AsSource(p).aliases,
        "applicability" := AsSource(p).applicability, "applicability_supplied" := AsSource(p).suppliedFlag,
        "policy_contract_invalid" := AsSource(p).invalidFlag, "policy_contract_error_codes" := AsSource(p).errorCodes]
  }

  lemma PolicyDictReads(p: Policy)
    ensures SourceOf(Dict(PolicyDict(p))) == AsSource(p)
  {
  }

  function FillAll(p: Policy): Policy {
    if p.supplied then p.(applicability := map k | k in p.applicability :: Filled(p.applicability[k])) else p
  }

  // ---- normal form ---------------------------------------------------------

  ghost predicate Distinct(xs: seq<string>) { forall i, j :: 0 <= i < j < |xs| ==> xs[i] != xs[j] }

  lemma {:induction false} UniqueFacts(xs: seq<string>)
    ensures Distinct(Unique(xs)) && forall x :: x in Unique(xs) <==> x in xs
    ensures xs != [] ==> Unique(xs) != [] && Unique(xs)[0] == xs[0]
  {
    if xs != [] {
      var n := |xs| - 1;
      UniqueFacts(xs[..n]);
      assert xs == xs[..n] + [xs[n]];
    }
  }

  lemma {:induction false} UniqueFixed(xs: seq<string>)
    requires Distinct(xs)
    ensures Unique(xs) == xs
  {
    if xs != [] {
      var n := |xs| - 1;
      UniqueFixed(xs[..n]);
      assert xs == xs[..n] + [xs[n]];
      assert xs[n] !in xs[..n];
    }
  }

  /** Repeating the head of a distinct list changes nothing. */
  lemma {:induction false} UniqueHead(xs: seq<string>)
    requires Distinct(xs) && xs != []
    ensures Unique([xs[0]] + xs) == xs
  {
    var n := |xs| - 1;
    var ys := [xs[0]] + xs;
    assert ys[..|ys| - 1] == [xs[0]] + xs[..n];
    if n == 0 {
      assert ys == [xs[0], xs[0]] && [xs[0]][..0] == [] && ys[..1] == [xs[0]];
      assert Unique([]) == [] && Unique([xs[0]]) == [xs[0]];
    } else {
      UniqueHead(xs[..n]);
      assert xs[..n][0] == xs[0];
      assert xs == xs[..n] + [xs[n]];
      assert xs[n] !in xs[..n];
    }
  }

  lemma {:induction false} KnownOnlyFacts(codes: seq<string>)
    ensures forall c :: c in KnownOnly(codes) <==> c in codes && Known(c)
    ensures (forall c :: c in codes ==> Known(c)) ==> KnownOnly(codes) == codes
  {
    hide Known;
    if codes != [] {
      var n := |codes| - 1;
      KnownOnlyFacts(codes[..n]);
      assert codes == codes[..n] + [codes[n]];
    }
  }

  /** The parts of a normalised policy. */
  ghost predicate NormalPolicy(env: Env, p: Policy) {
    && Distinct(p.declared) && AllIds(p.declared)
    && Distinct(p.errors) && AllIds(p.errors) && (forall c :: c in p.errors ==> Known(c))
    && (forall k :: k in p.aliases <==> k in p.declared) && (forall k :: k in p.applicability <==> k in p.declared)
    && (forall k :: k in p.aliases ==> NormalAliases(k, p.aliases[k]))
    && (forall k :: k in p.applicability ==> NormalRow(p.applicability[k]))
    && (!p.supplied ==> forall k :: k in p.applicability ==> p.applicability[k] == NormalizeRow(env, Null, false))
    && p.decision == Decision(p.declared, p.applicability, p.errors)
  }

  ghost predicate NormalAliases(key: string, xs: seq<string>) {
    Distinct(xs) && AllIds(xs) && xs != [] && xs[0] == key
  }

  lemma RowForIsNormal(env: Env, s: Source, key: string)
    ensures NormalRow(RowFor(env, s, key))
    ensures !Supplied(env, s) ==> RowFor(env, s, key) == NormalizeRow(env, Null, false)
  {
    hide IsId, IsCode, NormalizeRow, Counting, AllIds;
    var raw, alternate := Counting(env, s, s.applicability), Counting(env, s, s.alternate);
    var source := if raw != Null then raw else alternate;
    NormalizedRowIsNormal(env, if source.Dict? then Get(source.entries, key) else Null, source != Null);
    ConflictCode();
    MappingCode();
    CodeIsId("applicability_mapping_conflict");
    CodeIsId("applicability_mapping_malformed");
  }

  lemma ErrorsAreNormal(env: Env, s: Source)
    ensures Distinct(Errors(env, s)) && AllIds(Errors(env, s)) && forall c :: c in Errors(env, s) ==> Known(c)
  {
    hide Unique, KnownOnly, StringItems, ItemsValid, AliasesValid, FlagConflict, BadMetricId, IsId, Distinct;
    var inherited := Unique(KnownOnly(StringItems(s.errorCodes)));
    UniqueFacts(KnownOnly(StringItems(s.errorCodes)));
    KnownOnlyFacts(StringItems(s.errorCodes));
    var all := inherited + When(Truthy(s.invalidFlag) && inherited == [], POLICY_MALFORMED)
      + When(!ItemsValid(s.keys, false), KEYS_MALFORMED)
      + When(!AliasesValid(s.aliases), ALIASES_MALFORMED)
      + When(FlagConflict(env, s), POLICY_MALFORMED)
      + When(BadMetricId(Counting(env, s, s.applicability)), POLICY_MALFORMED)
      + When(BadMetricId(Counting(env, s, s.alternate)), POLICY_MALFORMED);
    UniqueFacts(all);
    forall c | c in Errors(env, s) ensures Known(c) && IsId(c) {
      KnownIsId(c);
    }
  }

  lemma {:induction false} KnownIsId(c: string)
    ensures Known(c) ==> IsId(c)
  {
    hide IsId, IsCode;
    KeysCode();
    AliasesCode();
    PolicyCode();
    CodeIsId(KEYS_MALFORMED);
    CodeIsId(ALIASES_MALFORMED);
    CodeIsId(POLICY_MALFORMED);
  }

  lemma KeysCode()
    ensures IsCode(KEYS_MALFORMED) && |KEYS_MALFORMED| <= 256
  {
  }

  lemma AliasesCode()
    ensures IsCode(ALIASES_MALFORMED) && |ALIASES_MALFORMED| <= 256
  {
  }

  lemma PolicyCode()
    ensures IsCode(POLICY_MALFORMED) && |POLICY_MALFORMED| <= 256
  {
  }

  lemma KeysAreNormal(s: Source)
    ensures Distinct(Keys(s)) && AllIds(Keys(s))
  {
    hide IsId, Unique, StringItems;
    UniqueFacts(StringItems(s.keys));
    StringItemsAreIds(s.keys);
    MembersAreIds(StringItems(s.keys), Keys(s));
  }

  lemma MembersAreIds(xs: seq<string>, ys: seq<string>)
    requires AllIds(xs) && forall y :: y in ys ==> y in xs
    ensures AllIds(ys)
  {
    hide IsId;
    forall i | 0 <= i < |ys| ensures IsId(ys[i]) {
      assert ys[i] in ys;
      var k :| 0 <= k < |xs| && xs[k] == ys[i];
    }
  }

  lemma AliasesAreNormal(j: Json, key: string)
    requires IsId(key)
    ensures NormalAliases(key, AliasesOf(j, key))
  {
    hide IsId, Unique, StringItems, Distinct;
    var items := if j.Dict? then StringItems(Get(j.entries, key)) else [];
    StringItemsAreIds(if j.Dict? then Get(j.entries, key) else Null);
    UniqueFacts([key] + items);
    assert AllIds([key] + items);
    MembersAreIds([key] + items, AliasesOf(j, key));
  }

  lemma NormalizedIsNormal(env: Env, s: Source)
    ensures NormalPolicy(env, Normalize(env, s))
  {
    hide IsId, Distinct, NormalRow, NormalAliases, Errors, Keys, AliasesOf, RowFor, Known, NormalizeRow, Decision,
      Supplied;
    KeysAreNormal(s);
    ErrorsAreNormal(env, s);
    forall k | k in Keys(s)
      ensures NormalAliases(k, AliasesOf(s.aliases, k)) && NormalRow(RowFor(env, s, k))
      ensures !Supplied(env, s) ==> RowFor(env, s, k) == NormalizeRow(env, Null, false)
    {
      assert IsId(k) by { MemberIsId(Keys(s), k); }
      AliasesAreNormal(s.aliases, k);
      RowForIsNormal(env, s, k);
    }
  }

  lemma MemberIsId(xs: seq<string>, x: string)
    requires AllIds(xs) && x in xs
    ensures IsId(x)
  {
  }

  // ---- reading a normalised policy again -----------------------------------

  lemma KeysReadBack(env: Env, p: Policy)
    requires NormalPolicy(env, p)
    ensures Keys(AsSource(p)) == p.declared && ItemsValid(AsSource(p).keys, false)
  {
    hide IsId, NormalRow, NormalAliases, Known, NormalizeRow, Decision, StringItems, Unique, RowDict, Texts;
    TextsReadBack(p.declared);
    UniqueFixed(p.declared);
  }

  lemma AliasReadsBack(key: string, xs: seq<string>)
    requires NormalAliases(key, xs)
    ensures Unique([key] + StringItems(Texts(xs))) == xs && ItemsValid(Texts(xs), true)
  {
    hide IsId, StringItems, Texts, Unique;
    TextsReadBack(xs);
    UniqueHead(xs);
  }

  lemma {:induction false} AliasesReadBack(env: Env, p: Policy)
    requires NormalPolicy(env, p)
    ensures AliasesValid(AsSource(p).aliases)
    ensures forall k :: k in p.declared ==> AliasesOf(AsSource(p).aliases, k) == p.aliases[k]
  {
    hide IsId, NormalRow, NormalAliases, Known, NormalizeRow, Decision, StringItems, Unique, RowDict, Texts, OpaqueId,
      ItemsValid;
    var j := AsSource(p).aliases;
    forall k | k in p.declared
      ensures k in j.entries && OpaqueId(Str(k)).Some? && ItemsValid(j.entries[k], true) && AliasesOf(j, k) == p.aliases[k]
    {
      MemberIsOpaque(p.declared, k);
      AliasReadsBack(k, p.aliases[k]);
    }
  }

  lemma MemberIsOpaque(xs: seq<string>, x: string)
    requires AllIds(xs) && x in xs
    ensures OpaqueId(Str(x)).Some?
  {
  }

  /** An unsupplied policy announces itself as legacy, a supplied one counts. */
  lemma {:induction false} ApplicabilityReadsBack(env: Env, p: Policy)
    requires WordsStay(env) && NormalPolicy(env, p)
    ensures var s := AsSource(p);
      && !FlagConflict(env, s) && Counting(env, s, Null) == Null
      && Counting(env, s, s.applicability) == (if p.supplied then s.applicability else Null)
      && !BadMetricId(s.applicability)
  {
    hide IsId, NormalRow, NormalAliases, Known, Decision, Texts, OpaqueId, Distinct, RowDict;
    var s := AsSource(p);
    forall k | k in p.declared ensures OpaqueId(Str(k)).Some? { MemberIsOpaque(p.declared, k); }
    if !p.supplied {
      var row := NormalizeRow(env, Null, false);
      RowDictReads(row);
      assert env.word(Str(Word(Applicable))) == Word(Applicable);
      assert LegacyRow(env, Dict(RowDict(row)));
      assert forall k :: k in s.applicability.entries ==> s.applicability.entries[k] == Dict(RowDict(row));
    }
  }

  lemma ErrorsReadBack(env: Env, p: Policy)
    requires WordsStay(env) && NormalPolicy(env, p)
    ensures Errors(env, AsSource(p)) == p.errors
  {
    hide NormalRow, NormalAliases, Known, Decision, Texts, AsSource, WordsStay, StringItems, Unique, KnownOnly, ItemsValid,
      AliasesValid, FlagConflict, BadMetricId, Counting, IsId;
    var s := AsSource(p);
    KeysReadBack(env, p);
    AliasesReadBack(env, p);
    ApplicabilityReadsBack(env, p);
    TextsReadBack(p.errors);
    KnownOnlyFacts(p.errors);
    UniqueFixed(p.errors);
    assert s.errorCodes == Texts(p.errors) && s.invalidFlag == Bool(p.errors != []) && s.alternate == Null by { SourceReads(p); }
    assert !BadMetricId(Null) by { NullIsNoMapping(); }
    assert p.errors + [] + [] + [] + [] + [] + [] == p.errors;
  }

  lemma SourceReads(p: Policy)
    ensures var s := AsSource(p); s.errorCodes == Texts(p.errors) && s.invalidFlag == Bool(p.errors != []) && s.alternate == Null
  {
  }

  lemma NullIsNoMapping()
    ensures !BadMetricId(Null)
  {
  }

  lemma {:induction false} RowsReadBack(env: Env, p: Policy, k: string)
    requires WordsStay(env) && NormalPolicy(env, p) && k in p.declared
    ensures RowFor(env, AsSource(p), k) == FillAll(p).applicability[k]
  {
    hide IsId, NormalRow, NormalAliases, Known, Decision, Texts, Distinct, RowDict, NormalizeRow, WordsStay, FlagConflict,
      Counting, BadMetricId, AllIds;
    ApplicabilityReadsBack(env, p);
    RowReadsBack(env, p.applicability[k]);
  }

  lemma {:induction false} SameStatuses(keys: seq<string>, a: map<string, Row>, b: map<string, Row>, status: Status)
    requires a.Keys == b.Keys && forall k :: k in a ==> a[k].status == b[k].status
    ensures WithStatus(keys, a, status) == WithStatus(keys, b, status)
  {
    if keys != [] {
      SameStatuses(keys[..|keys| - 1], a, b, status);
    }
  }

  lemma {:induction false} ReadsBack(env: Env, p: Policy)
    requires WordsStay(env) && NormalPolicy(env, p)
    ensures Normalize(env, AsSource(p)) == FillAll(p)
  {
    hide IsId, NormalRow, NormalAliases, Known, Texts, Distinct, RowDict, NormalizeRow, WordsStay, FlagConflict, Counting,
      BadMetricId, AllIds, RowFor, AliasesOf, Errors, Keys, WithStatus, AsSource, AliasesValid, ItemsValid;
    KeysReadBack(env, p);
    AliasesReadBack(env, p);
    ErrorsReadBack(env, p);
    ApplicabilityReadsBack(env, p);
    forall k | k in p.declared ensures RowFor(env, AsSource(p), k) == FillAll(p).applicability[k] {
      RowsReadBack(env, p, k);
    }
    var rows := FillAll(p).applicability;
    assert rows == map k | k in p.declared :: RowFor(env, AsSource(p), k);
    assert p.aliases == map k | k in p.declared :: AliasesOf(AsSource(p).aliases, k);
    SameStatuses(p.declared, p.applicability, rows, InvalidContract);
    SameStatuses(p.declared, p.applicability, rows, Applicable);
    SuppliedReadsBack(env, p);
  }

  lemma {:induction false} SuppliedReadsBack(env: Env, p: Policy)
    requires WordsStay(env) && NormalPolicy(env, p)
    ensures Supplied(env, AsSource(p)) == p.supplied
  {
    hide IsId, NormalRow, NormalAliases, Known, Texts, Distinct, RowDict, NormalizeRow, WordsStay, FlagConflict, Counting,
      BadMetricId, AllIds, NormalPolicy;
    ApplicabilityReadsBack(env, p);
  }

  /** Normalising a normalised policy changes nothing but a missing evidence list,
      which is read as empty. */
  lemma {:induction false} NormalizeTwice(env: Env, value: Json)
    requires WordsStay(env)
    ensures var once := Normalize(env, SourceOf(value));
            Normalize(env, SourceOf(Dict(PolicyDict(once)))) == FillAll(once)
  {
    hide Normalize, NormalPolicy, WordsStay, AsSource, FillAll, SourceOf, PolicyDict;
    var once := Normalize(env, SourceOf(value));
    NormalizedIsNormal(env, SourceOf(value));
    PolicyDictReads(once);
    ReadsBack(env, once);
  }

  // ---- decisions -----------------------------------------------------------

  lemma {:induction false} WithStatusIff(keys: seq<string>, rows: map<string, Row>, status: Status)
    ensures forall k :: k in WithStatus(keys, rows, status) <==> k in keys && k in rows && rows[k].status == status
  {
    if keys != [] {
      var n := |keys| - 1;
      WithStatusIff(keys[..n], rows, status);
      assert keys == keys[..n] + [keys[n]];
    }
  }

  /** A metric decides exactly when the whole policy is free of contract errors and of
      invalid rows, and its own row applies. */
  lemma {:induction false} DecidesIff(env: Env, s: Source, k: string)
    ensures var p := Normalize(env, s);
            k in p.decision <==>
              && p.errors == [] && (forall h :: h in p.declared ==> p.applicability[h].status != InvalidContract)
              && k in p.declared && p.applicability[k].status == Applicable
  {
    hide Errors, RowFor, AliasesOf, Keys, WithStatus;
    var p := Normalize(env, s);
    WithStatusIff(p.declared, p.applicability, InvalidContract);
    WithStatusIff(p.declared, p.applicability, Applicable);
    var invalid := WithStatus(p.declared, p.applicability, InvalidContract);
    if invalid != [] {
      assert invalid[0] in invalid;
    }
  }

  // ---- compatibility -------------------------------------------------------

  /** A gate-compatibility verdict, its words trimmed and lower-cased. */
  datatype Compatibility = Compatibility(status: string, basis: string, policyError: bool)

  predicate VerdictInvalid(c: Compatibility) {
    c.policyError || c.basis in {"adapter_hook_return_contract_invalid", "adapter_hook_identity_echo_invalid",
                                 "gate_artifact_compatibility_signature_incompatible", "hook_error"}
  }

  function Projection(c: Compatibility): Option<(Status, string)> {
    if VerdictInvalid(c) then Some((InvalidContract, "metric_policy_or_compatibility_invalid"))
    else if c.status == "incompatible" then Some((NotApplicable, "artifact_metric_incompatible"))
    else if c.status == "compatible" || c.basis == "mapping_not_supplied" then None
    else Some((InsufficientEvidence, "artifact_metric_compatibility_unresolved"))
  }

  function ApplyCompatibility(env: Env, s: Source, c: Compatibility): Policy {
    var p := Normalize(env, s);
    match Projection(c)
    case None => p
    case Some((status, reason)) =>
      if p.declared == [] then p
      else
        Normalize(env, VerdictSource(p, status, reason))
  }

  /** The policy handed back to normalisation with every row overruled. */
  function VerdictSource(p: Policy, status: Status, reason: string): Source {
    Source(Texts(p.declared), Dict(map k | k in p.aliases :: Texts(p.aliases[k])),
           Dict(map k | k in p.applicability ::
                  Dict(RowDict(p.applicability[k])["evaluation_status" := Str(Word(status))]["reason_code" := Str(reason)])),
           Null, Null, Null, Null)
  }

  /** A row under a verdict. */
  function Overruled(r: Row, status: Status, reason: string): Row { r.(status := status, reason := Some(reason)) }

  lemma OverruledDict(r: Row, status: Status, reason: string)
    ensures RowDict(r)["evaluation_status" := Str(Word(status))]["reason_code" := Str(reason)]
         == RowDict(Overruled(r, status, reason))
  {
  }

  /** The policy a verdict leads to, before it is normalised again. */
  function OverruledPolicy(p: Policy, status: Status, reason: string): Policy {
    var rows := map k | k in p.applicability :: Overruled(p.applicability[k], status, reason);
    p.(applicability := rows, supplied := true, errors := [], decision := Decision(p.declared, rows, []))
  }

  lemma OverruledIsNormal(env: Env, p: Policy, status: Status, reason: string)
    requires NormalPolicy(env, p) && status != Applicable && IsCode(reason) && IsId(reason)
    ensures NormalPolicy(env, OverruledPolicy(p, status, reason))
  {
  }

  /** Saying nothing about flags and errors reads the same as saying there are none. */
  lemma {:induction false} SilentSource(env: Env, p: Policy)
    requires p.supplied && p.errors == []
    ensures var s := AsSource(p);
            Normalize(env, s.(suppliedFlag := Null, errorCodes := Null, invalidFlag := Null)) == Normalize(env, s)
  {
    hide Unique, Ids, OpaqueId, RowDict, NormalizeRow, AliasesOf, ItemsValid, AliasesValid, BadMetricId, LegacyProjection,
      WithStatus, KnownOnly;
    var s := AsSource(p);
    assert s.errorCodes == List([]);
    var s' := s.(suppliedFlag := Null, errorCodes := Null, invalidFlag := Null);
    assert Keys(s') == Keys(s) && Errors(env, s') == Errors(env, s) by { NoIds(); }
    assert forall k :: RowFor(env, s', k) == RowFor(env, s, k);
    assert (map k | k in Keys(s) :: RowFor(env, s', k)) == map k | k in Keys(s) :: RowFor(env, s, k);
    assert Supplied(env, s') == Supplied(env, s);
  }

  lemma NoIds()
    ensures Ids([]) == []
  {
  }

  lemma {:induction false} NoneWithStatus(keys: seq<string>, rows: map<string, Row>, status: Status)
    requires forall k :: k in rows ==> rows[k].status != status
    ensures WithStatus(keys, rows, status) == []
  {
    if keys != [] {
      NoneWithStatus(keys[..|keys| - 1], rows, status);
    }
  }

  lemma {:induction false} VerdictCodes(c: Compatibility)
    requires Projection(c).Some?
    ensures Projection(c).value.0 != Applicable && IsCode(Projection(c).value.1) && IsId(Projection(c).value.1)
  {
    hide IsCode, IsId, VerdictInvalid;
    VerdictCodeInvalid();
    VerdictCodeIncompatible();
    VerdictCodeUnresolved();
    CodeIsId(Projection(c).value.1);
  }

  lemma VerdictCodeInvalid()
    ensures IsCode("metric_policy_or_compatibility_invalid")
  {
  }

  lemma VerdictCodeIncompatible()
    ensures IsCode("artifact_metric_incompatible")
  {
  }

  lemma VerdictCodeUnresolved()
    ensures IsCode("artifact_metric_compatibility_unresolved")
  {
  }

  /** Under a verdict every row keeps its lists and gets the verdict's status and reason. */
  lemma {:induction false} VerdictOverrules(env: Env, s: Source, c: Compatibility)
    requires WordsStay(env) && Projection(c).Some? && Normalize(env, s).declared != []
    ensures ApplyCompatibility(env, s, c)
         == FillAll(OverruledPolicy(Normalize(env, s), Projection(c).value.0, Projection(c).value.1))
  {
    hide Normalize, NormalPolicy, WordsStay, AsSource, VerdictSource, WithStatus, IsCode, IsId, Projection;
    var p := Normalize(env, s);
    var status, reason := Projection(c).value.0, Projection(c).value.1;
    NormalizedIsNormal(env, s);
    VerdictCodes(c);
    OverruledIsNormal(env, p, status, reason);
    var q := OverruledPolicy(p, status, reason);
    ReadsBack(env, q);
    SilentSource(env, q);
    VerdictSourceReads(p, status, reason);
  }

  /** A verdict other than compatible leaves no metric to decide on, whatever the
      policy; it also wipes out the policy's own contract errors. Any other verdict
      leaves the policy alone. So a verdict never adds a decision metric. */
  lemma {:induction false} CompatibilityNeverAdds(env: Env, s: Source, c: Compatibility)
    requires WordsStay(env)
    ensures var before := Normalize(env, s); var after := ApplyCompatibility(env, s, c);
            if Projection(c).None? || before.declared == [] then after == before
            else
              && after.declared == before.declared && after.aliases == before.aliases
              && after.decision == [] && after.errors == []
              && forall k :: k in after.declared ==>
                   k in after.applicability && after.applicability[k].status == Projection(c).value.0
  {
    hide Normalize, NormalPolicy, WordsStay, AsSource, VerdictSource, WithStatus, IsCode, IsId, Projection;
    var p := Normalize(env, s);
    if Projection(c).Some? && p.declared != [] {
      NormalizedIsNormal(env, s);
      VerdictCodes(c);
      VerdictOverrules(env, s, c);
      NoneWithStatus(p.declared, OverruledPolicy(p, Projection(c).value.0, Projection(c).value.1).applicability, Applicable);
      DeclaredHaveRows(env, p);
    }
  }

  lemma VerdictSourceReads(p: Policy, status: Status, reason: string)
    ensures VerdictSource(p, status, reason)
         == AsSource(OverruledPolicy(p, status, reason)).(suppliedFlag := Null, errorCodes := Null, invalidFlag := Null)
  {
    hide RowDict, Texts, Word, Decision;
    var q := OverruledPolicy(p, status, reason);
    forall k | k in p.applicability
      ensures RowDict(p.applicability[k])["evaluation_status" := Str(Word(status))]["reason_code" := Str(reason)]
           == RowDict(q.applicability[k])
    {
      OverruledDict(p.applicability[k], status, reason);
    }
    assert VerdictSource(p, status, reason).applicability == AsSource(q).applicability;
  }

  lemma DeclaredHaveRows(env: Env, p: Policy)
    requires NormalPolicy(env, p)
    ensures forall k :: k in p.declared ==> k in p.applicability
  {
  }
}
