/** The projection applied to records before they are stored or digested: drop
    keys and references that locate source material, and replace metric values
    that could carry content by digest references. */
module DurableProjection {
  import opened Json

  /** The text classifiers: which keys are sensitive, which strings look like a
      path, and which strings are plain enumeration labels; `str`, and trimming
      followed by lower-casing. */
  datatype Policy = Policy(
    sensitive: string -> bool, pathLike: string -> bool, plainLabel: string -> bool,
    show: Json -> string, fold: string -> string)

  predicate EndsWith(s: string, suffix: string) {
    |suffix| <= |s| && s[|s| - |suffix|..] == suffix
  }

  /** Keys under which a path-like string is dropped. */
  predicate Locates(key: string) {
    || EndsWith(key, "_ref") || EndsWith(key, "_refs") || EndsWith(key, "_error")
    || key in {"action", "error", "message", "orphans", "provenance_refs"}
  }

  function Finding(o: Object): Json {
    Dict(map k | k in {"severity", "code"} && Get(o, k) != Null :: Get(o, k))
  }

  function Findings(items: seq<Json>): seq<Json> {
    if items == [] then []
    else (if items[0].Dict? then [Finding(items[0].entries)] else []) + Findings(items[1..])
  }

  // ---- metric values -------------------------------------------------------

  predicate NeedsReference(p: Policy, v: Json, kind: string) {
    && v != Null
    && (kind in {"set", "vector"} || v.List? || v.Dict? || (v.Str? && !p.plainLabel(v.s)))
  }

  function Reference(v: Json, kind: string): Json {
    Dict(map[
      "contract_version" := Int(1),
      "value_ref" := Sha(v),
      "full_content_sha256" := Sha(v),
      "summary" := Dict(map[
        "summary_kind" := Str(if v.Dict? then "vector" else if v.List? then "collection"
                              else if v.Str? || v.Sha? then "enum" else "scalar"),
        "value_kind" := Str(if kind == "" then "unknown" else kind),
        "member_count" := Int(if v.Dict? then |v.entries| else if v.List? then |v.items| else 1)])])
  }

  function SafeFields(p: Policy, o: Object, fields: set<string>, kind: string): Object {
    map k | k in o ::
      if k in fields && NeedsReference(p, o[k], kind) then Reference(o[k], kind) else o[k]
  }

  function SafeConfig(p: Policy, config: Json, kind: string): Json {
    if config.Dict? then
      Dict(SafeFields(p, config.entries, {"ordered_values", "target_value", "vector_directions"}, kind))
    else config
  }

  function KindOf(p: Policy, o: Object, default: string): string {
    var kind := Get(o, "value_kind");
    p.fold(if Truthy(kind) then p.show(kind) else default)
  }

  function SafeObservation(p: Policy, o: Object, gateKind: string): Object {
    var contract := Get(o, "metric_contract");
    if contract.Dict? then
      var kind := KindOf(p, contract.entries, gateKind);
      var safe := contract.entries["comparison_config" :=
                    SafeConfig(p, Get(contract.entries, "comparison_config"), kind)];
      SafeFields(p, o["metric_contract" := Dict(safe)], {"observed_value", "high_water_value"}, kind)
    else
      SafeFields(p, o, {"observed_value", "high_water_value"}, gateKind)
  }

  predicate HoldsReference(v: Json) {
    match v
    case Dict(m) =>
      ("value_ref" in m && "full_content_sha256" in m) || exists k :: k in m && HoldsReference(m[k])
    case List(xs) => exists i :: 0 <= i < |xs| && HoldsReference(xs[i])
    case _ => false
  }

  function SafeGate(p: Policy, gate: Object): Object {
    var kind := KindOf(p, gate, "");
    var valued := SafeFields(p, gate,
      {"primary_metric_value", "previous_primary_metric_value", "primary_metric_high_water"}, kind);
    var configured := valued["comparison_config" := SafeConfig(p, Get(valued, "comparison_config"), kind)];
    var observed :=
      match Get(configured, "metric_observation")
      case Dict(o) => configured["metric_observation" := Dict(SafeObservation(p, o, kind))]
      case _ => configured;
    if HoldsReference(Dict(observed))
    then observed["durable_value_projection_status" := Str("reference_only")]
    else observed
  }

  // ---- the projection ------------------------------------------------------

  /** A child is kept unless projecting it erased it. */
  function Project(p: Policy, j: Json, parent: string): Json {
    match j
    case Dict(m) =>
      var kept := map k | k in m && !p.sensitive(k)
                       && (m[k] == Null || (k == "findings" && m[k].List?) || Project(p, m[k], k) != Null) ::
                    if k == "findings" && m[k].List? then List(Findings(m[k].items)) else Project(p, m[k], k);
      Dict(if parent == "primary_metric_gate" then SafeGate(p, kept) else kept)
    case List(xs) => List(ProjectAll(p, xs, parent))
    case Str(s) => if p.pathLike(s) && Locates(parent) then Null else j
    case _ => j
  }

  function ProjectAll(p: Policy, xs: seq<Json>, parent: string): seq<Json> {
    if xs == [] then []
    else
      var head := Project(p, xs[0], parent);
      (if head != Null then [head] else []) + ProjectAll(p, xs[1..], parent)
  }
}
