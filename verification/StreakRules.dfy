/** What one more row does to each of the four look-back streaks, read off its fields. */
module StreakRules {
  import opened Wrappers
  import opened Json
  import opened Text
  import opened Streaks

  /** The first value that is not empty; the last one if all are. */
  function FirstTrue(values: seq<Json>): Json
    requires values != []
  {
    if |values| == 1 || Truthy(values[0]) then values[0] else FirstTrue(values[1..])
  }

  /** A field of a nested gate, if the gate is there. */
  predicate Says(env: Env, row: Object, gate: string, field: string) {
    gate in row && row[gate].Dict? && env.flag(Get(row[gate].entries, field))
  }

  /** The row reports progress: of its own, in coverage or in substance. */
  predicate Progressed(env: Env, row: Object) {
    || env.flag(Get(row, "semantic_progress"))
    || Says(env, row, "coverage_quality_delta_gate", "quality_delta_pass")
    || Says(env, row, "substance_delta_gate", "substance_delta_pass")
  }

  /** The row belongs to the goal: its own scope key says so or, without one, its artifact
      family where the map is missing, its root family otherwise. */
  predicate OfGoal(env: Env, g: Goal, row: Object) {
    var own := if Truthy(Get(row, "cumulative_goal_distance_scope_key"))
               then Strip(env.show(Get(row, "cumulative_goal_distance_scope_key"))) else "";
    if g.mapMissing then
      if own != "" then own == "artifact_family:" + env.normal(Str(g.artifactFamily))
      else env.normal(FirstTrue([Get(row, "artifact_family"), Str(g.artifactFamily)])) == env.normal(Str(g.artifactFamily))
    else if own != "" then own == "root_family:" + env.normal(Str(g.rootFamily))
    else env.normal(FirstTrue([Get(row, "root_family_key"), Get(row, "blocker_root_family"), Str(g.rootFamily)]))
         == env.normal(Str(g.rootFamily))
  }

  /** A nested field of a row; nothing if the row has no such gate. */
  function Nested(row: Object, gate: string, field: string): Json {
    if gate in row && row[gate].Dict? && field in row[gate].entries then row[gate].entries[field] else Null
  }

  /** Part of the adapter's contract is unmet: as listed or, without a list, because the
      root map, the substance metrics or the quality vector is missing. */
  predicate Unmet(env: Env, row: Object) {
    match Get(row, "adapter_contract_unmet")
    case List(items) => exists i :: 0 <= i < |items| && items[i] != Null && Strip(env.show(items[i])) != ""
    case _ =>
      var status := Nested(row, "substance_delta_gate", "status");
      || env.flag(Get(row, "facet_root_map_missing"))
      || env.lower(if Truthy(status) then env.show(status) else "") == "missing"
      || !env.hasNumbers(Nested(row, "substance_delta_gate", "current_substance_vector"))
      || !Get(row, "quality_vector").Dict? || !env.hasNumbers(Get(row, "quality_vector"))
  }

  /** Whether the row is one the streak looks at, and whether it carries it on. */
  predicate Looks(env: Env, w: Watch, row: Object) {
    match w
    case GoalDistance(g) => OfGoal(env, g, row)
    case AdapterGap(family) => (if Truthy(Get(row, "artifact_family")) then env.show(Get(row, "artifact_family")) else "") == family
    case Detecting(root) => env.rootFamily(row) == root
    case Surface(key) => "failure_surface_count_key" in row && row["failure_surface_count_key"] == Str(key)
  }

  predicate Carries(env: Env, w: Watch, row: Object) {
    match w
    case GoalDistance(_) => !Progressed(env, row)
    case AdapterGap(_) => Unmet(env, row) && !Progressed(env, row)
    case Detecting(_) => env.flag(Get(row, "detection_only")) && !env.flag(Get(row, "semantic_progress"))
    case Surface(_) => env.flag(Get(row, "diagnostics_unavailable"))
  }

  lemma FirstOfTwo(a: Json, b: Json)
    ensures FirstTrue([a, b]) == if Truthy(a) then a else b
  {
    assert [a, b][1..] == [b];
  }

  lemma FirstOfThree(a: Json, b: Json, c: Json)
    ensures FirstTrue([a, b, c]) == if Truthy(a) then a else if Truthy(b) then b else c
  {
    assert [a, b, c][1..] == [b, c];
    FirstOfTwo(b, c);
  }

  lemma SamePrefix(p: string, a: string, b: string)
    ensures p + a == p + b <==> a == b
  {
    assert (p + a)[|p|..] == a && (p + b)[|p|..] == b;
  }

  lemma NothingStripped()
    ensures Strip("") == ""
  {
  }

  lemma {:induction false} GoalIff(env: Env, g: Goal, row: Object)
    ensures InGoalScope(env, g)(row) <==> OfGoal(env, g, row)
  {
    hide FirstTrue, Strip, Truthy;
    NothingStripped();
    FirstOfTwo(Get(row, "artifact_family"), Str(g.artifactFamily));
    FirstOfThree(Get(row, "root_family_key"), Get(row, "blocker_root_family"), Str(g.rootFamily));
    SamePrefix("artifact_family:", env.normal(FirstTrue([Get(row, "artifact_family"), Str(g.artifactFamily)])), env.normal(Str(g.artifactFamily)));
    SamePrefix("root_family:", env.normal(FirstTrue([Get(row, "root_family_key"), Get(row, "blocker_root_family"), Str(g.rootFamily)])),
               env.normal(Str(g.rootFamily)));
  }

  lemma ProgressIff(env: Env, row: Object)
    ensures VectorDeltaPassed(env, row) <==> Progressed(env, row)
  {
  }

  lemma UnmetIff(env: Env, row: Object)
    ensures ContractUnmet(env, row) <==> Unmet(env, row)
  {
    hide Strip, Truthy;
  }

  lemma {:induction false} WatchIff(env: Env, w: Watch, row: Object)
    ensures ScopeOf(env, w)(row) <==> Looks(env, w, row)
    ensures GoesOn(env, w)(row) <==> Carries(env, w, row)
  {
    hide InGoalScope, OfGoal, VectorDeltaPassed, Progressed, ContractUnmet, Unmet, Strip, Truthy;
    ProgressIff(env, row);
    UnmetIff(env, row);
    if w.GoalDistance? { GoalIff(env, w.goal, row); }
  }

  /** One more row leaves a streak alone if the streak does not look at it, adds one if it
      carries the streak on, and ends it otherwise. */
  lemma {:induction false} OneMoreRow(env: Env, w: Watch, rows: seq<Object>, row: Object)
    ensures var before, after := Run(ScopeOf(env, w), GoesOn(env, w), rows), Run(ScopeOf(env, w), GoesOn(env, w), rows + [row]);
            after == if !Looks(env, w, row) then before else if Carries(env, w, row) then before + 1 else 0
  {
    hide ScopeOf, GoesOn, Looks, Carries;
    WatchIff(env, w, row);
    assert (rows + [row])[..|rows|] == rows;
  }

  /** Where the current cycle goes on, it counts itself and what the history adds, row by
      row; where it does not, the streak is zero. */
  lemma {:induction false} CurrentCycleCounts(env: Env, w: Watch, rows: seq<Object>, row: Object)
    ensures StreakOf(env, w, false, rows) == 0 && StreakOf(env, w, true, []) == 1
    ensures StreakOf(env, w, true, rows + [row])
         == if !Looks(env, w, row) then StreakOf(env, w, true, rows) else if Carries(env, w, row) then StreakOf(env, w, true, rows) + 1 else 1
  {
    hide ScopeOf, GoesOn, Looks, Carries;
    OneMoreRow(env, w, rows, row);
  }

  /** The diagnostics streak follows its surface; without one it is the current cycle's
      alone. A limit is reached only while the streak goes on, and zero is no limit. */
  lemma {:induction false} SurfaceOrNothing(env: Env, key: Option<string>, on: bool, streak: nat, limit: Option<nat>, rows: seq<Object>)
    ensures key == None || key == Some("") ==> DiagnosticsStreak(env, key, true, rows) == 1 && DiagnosticsStreak(env, key, false, rows) == 0
    ensures key != None && key != Some("") ==> DiagnosticsStreak(env, key, on, rows) == StreakOf(env, Surface(key.value), on, rows)
    ensures Reaches(on, streak, limit) <==> on && exists n :: limit == Some(n) && 1 <= n <= streak
  {
    hide Run;
    if Reaches(on, streak, limit) { assert limit == Some(limit.value); }
  }
}
