/** The look-back streaks over the family-progress registry: four loops of one
    shape, and what registry compaction does to them. */
module Streaks {
  import opened Wrappers
  import opened Json
  import opened Text
  import opened Grouping
  import FamilyRegistry

  // ---- the loop ------------------------------------------------------------

  /** Walking back, rows out of scope are skipped, rows that continue the run are
      counted, and the first one that does not ends it. */
  function Run<T>(scope: T -> bool, goesOn: T -> bool, rows: seq<T>): nat {
    if rows == [] then 0
    else
      var n := |rows| - 1;
      if !scope(rows[n]) then Run(scope, goesOn, rows[..n])
      else if goesOn(rows[n]) then 1 + Run(scope, goesOn, rows[..n])
      else 0
  }

  method LookBack<T>(scope: T -> bool, goesOn: T -> bool, rows: seq<T>, start: nat) returns (streak: nat)
    ensures streak == start + Run(scope, goesOn, rows)
  {
    streak := start;
    assert rows[..|rows|] == rows;
    for n := |rows| downto 0
      invariant start + Run(scope, goesOn, rows) == streak + Run(scope, goesOn, rows[..n])
    {
      assert rows[..n + 1][..n] == rows[..n];
      if !scope(rows[n]) { continue; }
      if !goesOn(rows[n]) { return; }
      streak := streak + 1;
    }
  }

  // ---- the four streaks ----------------------------------------------------

  /** `bool_value`, `str`, `str.lower`, the root-family normaliser, the root family of
      a row, and whether a value holds a numeric vector. */
  datatype Env = Env(flag: Json -> bool, show: Json -> string, lower: string -> string, normal: Json -> string,
                     rootFamily: Object -> string, hasNumbers: Json -> bool)

  function Label(env: Env, j: Json): string { if Truthy(j) then env.show(j) else "" }

  function Inner(row: Object, gate: string, field: string): Json {
    if Get(row, gate).Dict? then Get(Get(row, gate).entries, field) else Null
  }

  predicate VectorDeltaPassed(env: Env, row: Object) {
    || env.flag(Get(row, "semantic_progress"))
    || (Get(row, "coverage_quality_delta_gate").Dict?
        && env.flag(Inner(row, "coverage_quality_delta_gate", "quality_delta_pass")))
    || (Get(row, "substance_delta_gate").Dict? && env.flag(Inner(row, "substance_delta_gate", "substance_delta_pass")))
  }

  function Either(a: Json, b: Json): Json { if Truthy(a) then a else b }

  /** What the cumulative goal-distance gate is asked about. */
  datatype Goal = Goal(artifactFamily: string, rootFamily: string, mapMissing: bool)

  function GoalScope(env: Env, g: Goal): string {
    if g.mapMissing then "artifact_family:" + env.normal(Str(g.artifactFamily))
    else "root_family:" + env.normal(Str(g.rootFamily))
  }

  function RowGoalScope(env: Env, row: Object, g: Goal): string {
    var existing := Strip(Label(env, Get(row, "cumulative_goal_distance_scope_key")));
    if existing != "" then existing
    else if g.mapMissing then "artifact_family:" + env.normal(Either(Get(row, "artifact_family"), Str(g.artifactFamily)))
    else
      "root_family:" +
      env.normal(Either(Get(row, "root_family_key"), Either(Get(row, "blocker_root_family"), Str(g.rootFamily))))
  }

  function InGoalScope(env: Env, g: Goal): Object -> bool { row => RowGoalScope(env, row, g) == GoalScope(env, g) }

  function Unimproved(env: Env): Object -> bool { row => !VectorDeltaPassed(env, row) }

  /** The cumulative stall: cycles of one goal scope without an improvement. */
  method CumulativeStall(env: Env, rows: seq<Object>, g: Goal, noDelta: bool, cap: Option<nat>)
    returns (streak: nat, stalled: bool)
    ensures streak == StreakOf(env, GoalDistance(g), noDelta, rows)
    ensures stalled == Reaches(noDelta, streak, cap)
  {
    if !noDelta { return 0, false; }
    streak := LookBack(InGoalScope(env, g), Unimproved(env), rows, 1);
    stalled := cap.Some? && cap.value > 0 && streak >= cap.value;
  }

  predicate ContractUnmet(env: Env, row: Object) {
    var listed := Get(row, "adapter_contract_unmet");
    if listed.List? then
      exists i :: 0 <= i < |listed.items| && listed.items[i] != Null && Strip(env.show(listed.items[i])) != ""
    else
      || env.flag(Get(row, "facet_root_map_missing"))
      || env.lower(Label(env, Inner(row, "substance_delta_gate", "status"))) == "missing"
      || !env.hasNumbers(Inner(row, "substance_delta_gate", "current_substance_vector"))
      || !(Get(row, "quality_vector").Dict? && env.hasNumbers(Get(row, "quality_vector")))
  }

  function OfArtifact(env: Env, family: string): Object -> bool { row => Label(env, Get(row, "artifact_family")) == family }

  function StillMissing(env: Env): Object -> bool { row => ContractUnmet(env, row) && !VectorDeltaPassed(env, row) }

  method AdapterMissing(env: Env, rows: seq<Object>, family: string, unmet: bool, noDelta: bool) returns (streak: nat)
    ensures streak == StreakOf(env, AdapterGap(family), unmet && noDelta, rows)
  {
    if !unmet || !noDelta { return 0; }
    streak := LookBack(OfArtifact(env, family), StillMissing(env), rows, 1);
  }

  function OfRoot(env: Env, root: string): Object -> bool { row => env.rootFamily(row) == root }

  function OnlyDetects(env: Env): Object -> bool {
    row => env.flag(Get(row, "detection_only")) && !env.flag(Get(row, "semantic_progress"))
  }

  method DetectionOnly(env: Env, rows: seq<Object>, root: string, detectionOnly: bool) returns (streak: nat)
    ensures streak == StreakOf(env, Detecting(root), detectionOnly, rows)
  {
    if !detectionOnly { return 0; }
    streak := LookBack(OfRoot(env, root), OnlyDetects(env), rows, 1);
  }

  function OfSurface(key: string): Object -> bool { row => Get(row, "failure_surface_count_key") == Str(key) }

  function Undiagnosed(env: Env): Object -> bool { row => env.flag(Get(row, "diagnostics_unavailable")) }

  method DiagnosticsUnavailable(env: Env, rows: seq<Object>, key: Option<string>, unavailable: bool, threshold: Option<nat>)
    returns (streak: nat, required: bool)
    ensures streak == DiagnosticsStreak(env, key, unavailable, rows)
    ensures required == Reaches(unavailable, streak, threshold)
  {
    streak := if unavailable then 1 else 0;
    if unavailable && key.Some? && key.value != "" {
      streak := LookBack(OfSurface(key.value), Undiagnosed(env), rows, 1);
    }
    required := unavailable && threshold.Some? && threshold.value > 0 && streak >= threshold.value;
  }

  /** The four streaks by what they watch. */
  datatype Watch = GoalDistance(goal: Goal) | AdapterGap(family: string) | Detecting(root: string) | Surface(key: string)

  function ScopeOf(env: Env, w: Watch): Object -> bool {
    match w
    case GoalDistance(g) => InGoalScope(env, g)
    case AdapterGap(family) => OfArtifact(env, family)
    case Detecting(root) => OfRoot(env, root)
    case Surface(key) => OfSurface(key)
  }

  function GoesOn(env: Env, w: Watch): Object -> bool {
    match w
    case GoalDistance(_) => Unimproved(env)
    case AdapterGap(_) => StillMissing(env)
    case Detecting(_) => OnlyDetects(env)
    case Surface(_) => Undiagnosed(env)
  }

  /** The streak with the current cycle, if that goes on too. */
  function StreakOf(env: Env, w: Watch, on: bool, rows: seq<Object>): nat {
    if on then 1 + Run(ScopeOf(env, w), GoesOn(env, w), rows) else 0
  }

  /** Without a surface to look for only the current cycle counts. */
  function DiagnosticsStreak(env: Env, key: Option<string>, unavailable: bool, rows: seq<Object>): nat {
    if key.Some? && key.value != "" then StreakOf(env, Surface(key.value), unavailable, rows)
    else if unavailable then 1 else 0
  }

  /** A limit of zero is none. */
  predicate Reaches(on: bool, streak: nat, limit: Option<nat>) {
    on && limit.Some? && limit.value > 0 && streak >= limit.value
  }

  // ---- a streak is a counter over its own scope ----------------------------

  function InScope<T>(scope: T -> bool, rows: seq<T>): seq<T> {
    if rows == [] then []
    else
      var n := |rows| - 1;
      if scope(rows[n]) then InScope(scope, rows[..n]) + [rows[n]] else InScope(scope, rows[..n])
  }

  /** Only the scope's own rows matter, and of those exactly the longest unbroken
      stretch at the end. */
  lemma {:induction false} RunIsLongestStretch<T>(scope: T -> bool, goesOn: T -> bool, rows: seq<T>)
    ensures var own := InScope(scope, rows); var k := Run(scope, goesOn, rows);
            && k <= |own| && (forall i :: |own| - k <= i < |own| ==> goesOn(own[i]))
            && (k < |own| ==> !goesOn(own[|own| - k - 1]))
  {
    if rows != [] {
      RunIsLongestStretch(scope, goesOn, rows[..|rows| - 1]);
    }
  }

  /** Histories that agree on the scope's rows give the same streak, however other
      rows are interleaved. */
  lemma OthersNeverMatter<T>(scope: T -> bool, goesOn: T -> bool, rows: seq<T>, rows': seq<T>)
    requires InScope(scope, rows) == InScope(scope, rows')
    ensures Run(scope, goesOn, rows) == Run(scope, goesOn, rows')
  {
    hide InScope, Run;
    RunIsLongestStretch(scope, goesOn, rows);
    RunIsLongestStretch(scope, goesOn, rows');
  }

  lemma {:induction false} InScopeConcat<T>(scope: T -> bool, xs: seq<T>, ys: seq<T>)
    ensures InScope(scope, xs + ys) == InScope(scope, xs) + InScope(scope, ys)
  {
    if ys == [] {
      assert xs + ys == xs;
    } else {
      var n := |ys| - 1;
      InScopeConcat(scope, xs, ys[..n]);
      assert (xs + ys)[..|xs + ys| - 1] == xs + ys[..n];
    }
  }

  // ---- compaction: the bound -----------------------------------------------

  /** The scope's rows of this history all belong to one family. */
  ghost predicate Within<T>(fam: T -> string, scope: T -> bool, rows: seq<T>, f: string) {
    forall i :: 0 <= i < |rows| && scope(rows[i]) ==> fam(rows[i]) == f
  }

  lemma {:induction false} InScopeBucket<T>(fam: T -> string, scope: T -> bool, rows: seq<T>, f: string)
    requires Within(fam, scope, rows, f)
    ensures InScope(scope, Bucket(fam, rows, f)) == InScope(scope, rows)
  {
    if rows != [] {
      var n := |rows| - 1;
      InScopeBucket(fam, scope, rows[..n], f);
      InScopeConcat(scope, Bucket(fam, rows[..n], f), [rows[n]]);
    }
  }

  function Min(a: nat, b: nat): nat { if a < b then a else b }

  lemma {:induction false} WholeScope<T>(scope: T -> bool, rows: seq<T>)
    requires forall i :: 0 <= i < |rows| ==> scope(rows[i])
    ensures InScope(scope, rows) == rows
  {
    if rows != [] {
      WholeScope(scope, rows[..|rows| - 1]);
      assert rows == rows[..|rows| - 1] + [rows[|rows| - 1]];
    }
  }

  lemma TailStreak<T>(scope: T -> bool, goesOn: T -> bool, rows: seq<T>, n: nat)
    requires n > 0 && forall i :: 0 <= i < |rows| ==> scope(rows[i])
    ensures Run(scope, goesOn, Tail(rows, n)) == Min(Run(scope, goesOn, rows), n)
  {
    hide Run, InScope;
    var t := Tail(rows, n);
    WholeScope(scope, rows);
    WholeScope(scope, t);
    RunIsLongestStretch(scope, goesOn, rows);
    RunIsLongestStretch(scope, goesOn, t);
    assert forall i :: 0 <= i < |t| ==> t[i] == rows[|rows| - |t| + i];
  }

  /** The streak of a one-family scope is the streak of that family's rows. */
  lemma BucketStreak<T>(fam: T -> string, scope: T -> bool, goesOn: T -> bool, rows: seq<T>, f: string)
    requires Within(fam, scope, rows, f)
    ensures Run(scope, goesOn, rows) == Run(scope, goesOn, Bucket(fam, rows, f))
  {
    hide Run, InScope, Bucket;
    InScopeBucket(fam, scope, rows, f);
    OthersNeverMatter(scope, goesOn, rows, Bucket(fam, rows, f));
  }

  /** Among the rows of this history the scope is exactly one family. */
  ghost predicate IsFamily(z: FamilyRegistry.Settings, scope: Object -> bool, rows: seq<Object>, f: string) {
    forall r :: r in rows ==> (scope(r) <==> FamilyRegistry.Fam(z)(r) == f)
  }

  /** The history with one row per attempt, as compaction regroups it. */
  function Attempts(z: FamilyRegistry.Settings, history: seq<Object>): seq<Object> {
    FamilyRegistry.Rows(FamilyRegistry.Dedup(z, history))
  }

  lemma {:induction false} ShelvedStreak(
    z: FamilyRegistry.Settings, scope: Object -> bool, goesOn: Object -> bool, rows: seq<Object>, f: string)
    requires z.maxRows > 0 && IsFamily(z, scope, rows, f)
    ensures Run(scope, goesOn, FamilyRegistry.Shelve(z, rows)) == Min(Run(scope, goesOn, rows), z.maxRows)
  {
    hide Run, FamilyRegistry.Shelve, FamilyRegistry.Fam, Bucket, Families, Tail;
    var fam, c := FamilyRegistry.Fam(z), FamilyRegistry.Shelve(z, rows);
    FromHistory(z, rows);
    forall i | 0 <= i < |c| ensures c[i] in rows { assert c[i] in c; }
    BucketStreak(fam, scope, goesOn, rows, f);
    BucketStreak(fam, scope, goesOn, c, f);
    FamilyRegistry.ShelveShape(z, rows, f);
    var b := Bucket(fam, rows, f);
    BucketMembers(fam, rows, f);
    forall i | 0 <= i < |b| ensures scope(b[i]) { assert b[i] in b; }
    TailStreak(scope, goesOn, b, z.maxRows);
  }

  lemma FromHistory(z: FamilyRegistry.Settings, rows: seq<Object>)
    requires z.maxRows >= 0
    ensures forall x :: x in FamilyRegistry.Shelve(z, rows) ==> x in rows
  {
    hide FamilyRegistry.Fam, FamilyRegistry.Last, Families, Group;
    FamilyRegistry.FromRows(z, rows, Families(FamilyRegistry.Fam(z), rows));
  }

  /** Where one of the four scopes is one family of the history, compaction cuts its
      streak off at the per-family bound and changes nothing else: a cap is met on the
      compacted registry exactly when it is met on the full one and does not exceed
      the bound plus one. */
  lemma BoundCapsStreak(z: FamilyRegistry.Settings, env: Env, w: Watch, history: seq<Object>, f: string, cap: nat)
    requires z.maxRows > 0 && IsFamily(z, ScopeOf(env, w), Attempts(z, history), f)
    ensures var full := Run(ScopeOf(env, w), GoesOn(env, w), Attempts(z, history));
            var compacted := Run(ScopeOf(env, w), GoesOn(env, w), FamilyRegistry.Compact(z, history));
      && compacted == Min(full, z.maxRows)
      && (1 + compacted >= cap <==> 1 + full >= cap && cap <= z.maxRows + 1)
  {
    hide Run, IsFamily, ScopeOf, GoesOn;
    ShelvedStreak(z, ScopeOf(env, w), GoesOn(env, w), Attempts(z, history), f);
  }

  lemma {:induction false} RepeatedRun<T>(scope: T -> bool, goesOn: T -> bool, row: T, n: nat)
    requires scope(row) && goesOn(row)
    ensures Run(scope, goesOn, seq(n, i => row)) == n
  {
    if n > 0 {
      RepeatedRun(scope, goesOn, row, n - 1);
      assert seq(n, i => row)[..n - 1] == seq(n - 1, i => row);
    }
  }

  /** So on one family a cap above the bound plus one is lost, though the full history
      can meet any: repeat a row that continues the streak and names no attempt. */
  lemma {:induction false} CapUnreachable(z: FamilyRegistry.Settings, env: Env, w: Watch, row: Object, cap: nat)
    requires z.maxRows > 0 && cap > z.maxRows + 1
    requires ScopeOf(env, w)(row) && GoesOn(env, w)(row) && FamilyRegistry.KeyOf(z, row) == ""
    ensures var history := seq(cap, i => row);
      && 1 + Run(ScopeOf(env, w), GoesOn(env, w), Attempts(z, history)) >= cap
      && 1 + Run(ScopeOf(env, w), GoesOn(env, w), FamilyRegistry.Compact(z, history)) < cap
  {
    hide Run, FamilyRegistry.KeyOf, ScopeOf, GoesOn, FamilyRegistry.Fam, FamilyRegistry.Dedup;
    var history := seq(cap, i => row);
    FamilyRegistry.DedupOfDistinct(z, history);
    assert Attempts(z, history) == history;
    RepeatedRun(ScopeOf(env, w), GoesOn(env, w), row, cap);
    BoundCapsStreak(z, env, w, history, FamilyRegistry.Fam(z)(row), cap);
  }

  /** The families that have rows in the scope. */
  function Spanned(fam: Object -> string, scope: Object -> bool, rows: seq<Object>, families: seq<string>): nat {
    if families == [] then 0
    else
      var n := |families| - 1;
      Spanned(fam, scope, rows, families[..n]) + if InScope(scope, Bucket(fam, rows, families[n])) == [] then 0 else 1
  }

  lemma TailBound(scope: Object -> bool, b: seq<Object>, n: int)
    requires n > 0
    ensures |InScope(scope, Tail(b, n))| <= if InScope(scope, b) == [] then 0 else n
  {
    hide InScope;
    var t := Tail(b, n);
    NoneInScope(scope, b);
    NoneInScope(scope, t);
    assert forall i :: 0 <= i < |t| ==> t[i] == b[|b| - |t| + i];
  }

  lemma {:induction false} GroupBound(
    z: FamilyRegistry.Settings, scope: Object -> bool, rows: seq<Object>, families: seq<string>)
    requires z.maxRows > 0
    ensures var fam := FamilyRegistry.Fam(z);
            |InScope(scope, Group(fam, FamilyRegistry.Last(z), rows, families))| <= Spanned(fam, scope, rows, families) * z.maxRows
  {
    hide InScope, Bucket, FamilyRegistry.Fam, Tail;
    if families == [] {
      NothingInScope(scope);
    } else {
      var n, fam := |families| - 1, FamilyRegistry.Fam(z);
      var b := Bucket(fam, rows, families[n]);
      GroupBound(z, scope, rows, families[..n]);
      TailBound(scope, b, z.maxRows);
      InScopeConcat(scope, Group(fam, FamilyRegistry.Last(z), rows, families[..n]), Tail(b, z.maxRows));
    }
  }

  /** In general a compacted registry holds no streak longer than the bound times the
      number of families its scope spans. */
  lemma {:induction false} SpanCapsStreak(
    z: FamilyRegistry.Settings, scope: Object -> bool, goesOn: Object -> bool, history: seq<Object>)
    requires z.maxRows > 0
    ensures var rows, fam := Attempts(z, history), FamilyRegistry.Fam(z);
            Run(scope, goesOn, FamilyRegistry.Compact(z, history)) <= Spanned(fam, scope, rows, Families(fam, rows)) * z.maxRows
  {
    hide Run, InScope, FamilyRegistry.Fam, FamilyRegistry.Last, Group, Families, Spanned, FamilyRegistry.Dedup, FamilyRegistry.Rows;
    var rows, fam := Attempts(z, history), FamilyRegistry.Fam(z);
    GroupBound(z, scope, rows, Families(fam, rows));
    RunIsLongestStretch(scope, goesOn, FamilyRegistry.Compact(z, history));
  }

  /** So many copies of each row, row by row. */
  function Copies(rs: seq<Object>, n: nat): seq<Object> {
    if rs == [] then [] else Copies(rs[..|rs| - 1], n) + seq(n, i => rs[|rs| - 1])
  }

  lemma {:induction false} CopiesFrom(rs: seq<Object>, n: nat)
    ensures |Copies(rs, n)| == |rs| * n && forall x :: x in Copies(rs, n) ==> x in rs
  {
    if rs != [] {
      var m := |rs| - 1;
      assert rs == rs[..m] + [rs[m]];
      CopiesFrom(rs[..m], n);
    }
  }

  ghost predicate Apart(fam: Object -> string, rs: seq<Object>) {
    forall i, j :: 0 <= i < j < |rs| ==> fam(rs[i]) != fam(rs[j])
  }

  /** Each family's copies stand together, at most n of them. */
  lemma {:induction false} CopiesShape(fam: Object -> string, rs: seq<Object>, n: nat, f: string)
    requires Apart(fam, rs)
    ensures Contiguous(fam, Copies(rs, n)) && |Bucket(fam, Copies(rs, n), f)| <= n
  {
    hide Contiguous, Bucket, Families;
    if rs == [] {
      NoCopies(fam, f);
    } else {
      var m := |rs| - 1;
      var front, part, g := Copies(rs[..m], n), seq(n, i => rs[m]), fam(rs[m]);
      CopiesShape(fam, rs[..m], n, f);
      CopiesFrom(rs[..m], n);
      forall x | x in front ensures fam(x) != g {
        var i :| 0 <= i < m && rs[..m][i] == x;
        assert rs[i] == x;
      }
      BucketConcat(fam, front, part, f);
      BucketUniform(fam, part, g);
      JoinContiguous(fam, front, part, g);
      if f == g { assert Bucket(fam, front, f) == [] by { NoneOf(fam, front, f); } }
    }
  }

  lemma NoneOf(fam: Object -> string, rows: seq<Object>, f: string)
    requires forall x :: x in rows ==> fam(x) != f
    ensures Bucket(fam, rows, f) == []
  {
    hide Bucket;
    FamiliesFacts(fam, rows);
    if Bucket(fam, rows, f) != [] { var i := Member(fam, rows, f); }
  }

  lemma NoCopies(fam: Object -> string, f: string)
    ensures Contiguous<Object>(fam, []) && Bucket<Object>(fam, [], f) == []
  {
  }

  lemma {:induction false} AllGoOn<T>(scope: T -> bool, goesOn: T -> bool, rows: seq<T>)
    requires forall x :: x in rows ==> scope(x) && goesOn(x)
    ensures Run(scope, goesOn, rows) == |rows|
  {
    if rows != [] {
      var n := |rows| - 1;
      assert rows == rows[..n] + [rows[n]];
      AllGoOn(scope, goesOn, rows[..n]);
    }
  }

  /** And that length is reached: fill each of the families with copies of one row. */
  lemma {:induction false} SpanIsReached(z: FamilyRegistry.Settings, env: Env, w: Watch, rs: seq<Object>)
    requires z.maxRows > 0
    requires forall i :: 0 <= i < |rs| ==> ScopeOf(env, w)(rs[i]) && GoesOn(env, w)(rs[i]) && FamilyRegistry.KeyOf(z, rs[i]) == ""
    requires Apart(FamilyRegistry.Fam(z), rs)
    ensures var history := Copies(rs, z.maxRows);
      && FamilyRegistry.Compact(z, history) == history
      && Run(ScopeOf(env, w), GoesOn(env, w), FamilyRegistry.Compact(z, history)) == |rs| * z.maxRows
  {
    hide Run, FamilyRegistry.KeyOf, ScopeOf, GoesOn, FamilyRegistry.Fam, FamilyRegistry.Dedup, Copies, Bucket, Families, Group, Contiguous;
    var history, fam := Copies(rs, z.maxRows), FamilyRegistry.Fam(z);
    CopiesShape(fam, rs, z.maxRows, "");
    CopiesFrom(rs, z.maxRows);
    forall i | 0 <= i < |history| ensures FamilyRegistry.KeyOf(z, history[i]) == "" { assert history[i] in history; }
    FamilyRegistry.DedupOfDistinct(z, history);
    assert Attempts(z, history) == history;
    forall f | f in Families(fam, history) ensures Tail(Bucket(fam, history, f), z.maxRows) == Bucket(fam, history, f) {
      CopiesShape(fam, rs, z.maxRows, f);
    }
    RegroupFixed(fam, FamilyRegistry.Last(z), history);
    AllGoOn(ScopeOf(env, w), GoesOn(env, w), history);
  }

  // ---- compaction: the order -----------------------------------------------

  /** Rows stand in the order of their families. */
  ghost predicate InOrder<T>(fam: T -> string, families: seq<string>, rows: seq<T>) {
    forall i, j :: 0 <= i < j < |rows| ==> Rank(families, fam(rows[i])) <= Rank(families, fam(rows[j]))
  }

  ghost predicate Among<T>(fam: T -> string, families: seq<string>, rows: seq<T>) {
    forall i :: 0 <= i < |rows| ==> fam(rows[i]) in families
  }

  lemma {:induction false} BucketScope<T>(fam: T -> string, scope: T -> bool, rows: seq<T>, f: string)
    ensures InScope(scope, Bucket(fam, rows, f)) == Bucket(fam, InScope(scope, rows), f)
  {
    if rows != [] {
      var n := |rows| - 1;
      BucketScope(fam, scope, rows[..n], f);
      InScopeConcat(scope, Bucket(fam, rows[..n], f), [rows[n]]);
      BucketConcat(fam, InScope(scope, rows[..n]), [rows[n]], f);
    }
  }

  /** Regrouping and picking the scope's rows can be done in either order. */
  lemma {:induction false} PlainScope<T>(fam: T -> string, scope: T -> bool, rows: seq<T>, families: seq<string>)
    ensures InScope(scope, Plain(fam, rows, families)) == Plain(fam, InScope(scope, rows), families)
  {
    hide Bucket, InScope;
    if families == [] {
      NothingInScope(scope);
    } else {
      var n := |families| - 1;
      PlainScope(fam, scope, rows, families[..n]);
      InScopeConcat(scope, Plain(fam, rows, families[..n]), Bucket(fam, rows, families[n]));
      BucketScope(fam, scope, rows, families[n]);
    }
  }

  lemma NothingInScope<T>(scope: T -> bool)
    ensures InScope(scope, []) == []
  {
  }

  /** Families without rows contribute nothing. */
  lemma {:induction false} PlainCut<T>(fam: T -> string, rows: seq<T>, families: seq<string>, k: nat)
    requires Unrepeated(families) && k <= |families| && Among(fam, families[..k], rows)
    ensures Plain(fam, rows, families) == Plain(fam, rows, families[..k])
    decreases |families|
  {
    hide Bucket;
    if k == |families| {
      assert families[..k] == families;
    } else {
      var n := |families| - 1;
      assert families[..n][..k] == families[..k];
      PlainCut(fam, rows, families[..n], k);
      NoRows(fam, rows, families, k, n);
    }
  }

  lemma NoRows<T>(fam: T -> string, rows: seq<T>, families: seq<string>, k: nat, n: nat)
    requires Unrepeated(families) && k <= n < |families| && Among(fam, families[..k], rows)
    ensures Bucket(fam, rows, families[n]) == []
  {
    hide Bucket;
    if Bucket(fam, rows, families[n]) != [] {
      var i := Member(fam, rows, families[n]);
      assert false;
    }
  }

  lemma PlainStep<T>(fam: T -> string, rows: seq<T>, families: seq<string>, k: nat)
    requires k < |families|
    ensures Plain(fam, rows, families[..k + 1]) == Plain(fam, rows, families[..k]) + Bucket(fam, rows, families[k])
  {
    hide Bucket;
    assert families[..k + 1][..k] == families[..k] && families[..k + 1][k] == families[k];
  }

  lemma OrderedFront<T>(fam: T -> string, families: seq<string>, rows: seq<T>)
    requires rows != [] && Among(fam, families, rows) && InOrder(fam, families, rows)
    ensures Among(fam, families, rows[..|rows| - 1]) && InOrder(fam, families, rows[..|rows| - 1])
    ensures fam(rows[|rows| - 1]) in families
  {
    hide Rank;
  }

  /** Rows in order are left in place. */
  lemma {:induction false} OrderedStays<T>(fam: T -> string, families: seq<string>, rows: seq<T>)
    requires Unrepeated(families) && Among(fam, families, rows) && InOrder(fam, families, rows)
    ensures Plain(fam, rows, families) == rows
  {
    hide Bucket, Unrepeated, Rank, Plain, Among, InOrder, Families;
    if rows == [] {
      assert Among(fam, families[..0], rows) by { NoneAmong(fam, families[..0], rows); }
      PlainCut(fam, rows, families, 0);
      PlainNothing(fam, rows);
    } else {
      var n := |rows| - 1;
      var front, r := rows[..n], rows[n];
      assert rows == front + [r];
      OrderedFront(fam, families, rows);
      OrderedStays(fam, families, front);
      var k :| 0 <= k < |families| && families[k] == fam(r);
      RankAt(families, k);
      UpTo(fam, families, rows, k);
      PlainCut(fam, rows, families, k + 1);
      PlainCut(fam, front, families, k + 1);
      PlainStep(fam, rows, families, k);
      PlainStep(fam, front, families, k);
      FreshFamily(families, k);
      PlainAppend(fam, front, r, families[..k]);
      AppendShape(fam, front, r);
    }
  }

  lemma NoneAmong<T>(fam: T -> string, families: seq<string>, rows: seq<T>)
    requires rows == []
    ensures Among(fam, families, rows)
  {
  }

  lemma PlainNothing<T>(fam: T -> string, rows: seq<T>)
    ensures Plain(fam, rows, []) == []
  {
  }

  lemma FreshFamily(families: seq<string>, k: nat)
    requires Unrepeated(families) && k < |families|
    ensures families[k] !in families[..k]
  {
  }

  lemma UpTo<T>(fam: T -> string, families: seq<string>, rows: seq<T>, k: nat)
    requires rows != [] && k < |families| && Unrepeated(families) && Among(fam, families, rows)
    requires Rank(families, fam(rows[|rows| - 1])) == k && InOrder(fam, families, rows)
    ensures Among(fam, families[..k + 1], rows) && Among(fam, families[..k + 1], rows[..|rows| - 1])
  {
    hide Rank, Unrepeated;
    forall i | 0 <= i < |rows| ensures fam(rows[i]) in families[..k + 1] {
      var m :| 0 <= m < |families| && families[m] == fam(rows[i]);
      RankAt(families, m);
      assert m <= k;
      assert families[..k + 1][m] == fam(rows[i]);
    }
  }

  /** What regrouping puts out is in order. */
  lemma {:induction false} PlainInOrder<T>(fam: T -> string, rows: seq<T>, families: seq<string>, k: nat)
    requires Unrepeated(families) && k <= |families|
    ensures var out := Plain(fam, rows, families[..k]);
            InOrder(fam, families, out) && forall i :: 0 <= i < |out| ==> Rank(families, fam(out[i])) < k
  {
    hide Bucket, Rank;
    if k > 0 {
      PlainInOrder(fam, rows, families, k - 1);
      assert families[..k][..k - 1] == families[..k - 1];
      BucketUniform(fam, rows, families[k - 1]);
      RankAt(families, k - 1);
    }
  }

  lemma {:induction false} SumPlain<T>(fam: T -> string, w: T -> nat, rows: seq<T>, families: seq<string>)
    ensures Sum(w, Plain(fam, rows, families)) == SumFamilies(fam, w, rows, families)
  {
    hide Bucket;
    if families != [] {
      var n := |families| - 1;
      SumPlain(fam, w, rows, families[..n]);
      SumConcat(w, Plain(fam, rows, families[..n]), Bucket(fam, rows, families[n]));
    }
  }

  lemma {:induction false} SumAll<T>(fam: T -> string, w: T -> nat, rows: seq<T>, families: seq<string>)
    requires Unrepeated(families) && Among(fam, families, rows)
    ensures SumFamilies(fam, w, rows, families) == Sum(w, rows)
  {
    hide Bucket, Unrepeated, SumFamilies;
    if rows == [] {
      SumNothing(fam, w, families);
    } else {
      var n := |rows| - 1;
      SumAll(fam, w, rows[..n], families);
      assert rows == rows[..n] + [rows[n]];
      SumFamiliesAppend(fam, w, rows[..n], rows[n], families);
    }
  }

  lemma {:induction false} SumNothing<T>(fam: T -> string, w: T -> nat, families: seq<string>)
    ensures SumFamilies(fam, w, [], families) == 0
  {
    if families != [] { SumNothing(fam, w, families[..|families| - 1]); }
  }

  lemma {:induction false} SumFlags<T>(w: T -> nat, rows: seq<T>)
    requires forall i :: 0 <= i < |rows| ==> w(rows[i]) <= 1
    ensures Sum(w, rows) <= |rows|
    ensures (forall i :: 0 <= i < |rows| ==> w(rows[i]) == 1) ==> Sum(w, rows) == |rows|
  {
    if rows != [] { SumFlags(w, rows[..|rows| - 1]); }
  }

  /** The last row out of order, and one before it that should come after. */
  lemma {:induction false} LastDescent<T>(fam: T -> string, families: seq<string>, rows: seq<T>) returns (i: nat, j: nat)
    requires !InOrder(fam, families, rows)
    ensures i < j < |rows| && Rank(families, fam(rows[i])) > Rank(families, fam(rows[j]))
    ensures forall k, m :: j < m < |rows| && 0 <= k < m ==> Rank(families, fam(rows[k])) <= Rank(families, fam(rows[m]))
    decreases |rows|
  {
    hide Rank;
    var n := |rows| - 1;
    if k :| 0 <= k < n && Rank(families, fam(rows[k])) > Rank(families, fam(rows[n])) {
      i, j := k, n;
    } else {
      i, j := LastDescent(fam, families, rows[..n]);
    }
  }

  /** How many rows belong to later families than x. */
  function After<T>(fam: T -> string, families: seq<string>, x: T): T -> nat {
    (r: T) => if Rank(families, fam(r)) > Rank(families, fam(x)) then 1 else 0
  }

  /** At least as many rows as follow the misplaced one, and one more. */
  lemma {:induction false} ManyAfter<T>(fam: T -> string, families: seq<string>, rows: seq<T>, i: nat, j: nat)
    requires i < j < |rows| && Rank(families, fam(rows[i])) > Rank(families, fam(rows[j]))
    requires forall k, m :: j < m < |rows| && 0 <= k < m ==> Rank(families, fam(rows[k])) <= Rank(families, fam(rows[m]))
    ensures Sum(After(fam, families, rows[j]), rows) >= |rows| - j
  {
    hide Rank, Sum;
    var w := After(fam, families, rows[j]);
    var s := rows[j + 1..];
    assert rows == rows[..j + 1] + s;
    SumConcat(w, rows[..j + 1], s);
    forall m | 0 <= m < |s| ensures w(s[m]) == 1 { assert s[m] == rows[j + 1 + m]; }
    SumFlags(w, s);
    SumZero(w, rows[..j + 1]);
    assert rows[..j + 1][i] == rows[i] && rows[i] in rows[..j + 1];
  }

  /** In an ordered list only the rows behind x can belong to later families. */
  lemma {:induction false} FewAfter<T>(fam: T -> string, families: seq<string>, rows: seq<T>, p: nat)
    requires InOrder(fam, families, rows) && p < |rows|
    ensures Sum(After(fam, families, rows[p]), rows) <= |rows| - 1 - p
  {
    hide Rank, Sum;
    var w := After(fam, families, rows[p]);
    assert rows == rows[..p + 1] + rows[p + 1..];
    SumConcat(w, rows[..p + 1], rows[p + 1..]);
    SumZero(w, rows[..p + 1]);
    forall x | x in rows[..p + 1] ensures w(x) == 0 {
      var k :| 0 <= k < p + 1 && rows[..p + 1][k] == x;
      assert rows[k] == x;
    }
    SumFlags(w, rows[p + 1..]);
  }

  /** If the scope's rows are out of order, the streak of "anything but the misplaced
      row" tells the two histories apart. */
  lemma {:induction false} DisorderShows<T>(fam: T -> string, scope: T -> bool, rows: seq<T>, families: seq<string>)
    returns (goesOn: T -> bool)
    requires Unrepeated(families) && Among(fam, families, InScope(scope, rows))
    requires !InOrder(fam, families, InScope(scope, rows))
    ensures Run(scope, goesOn, Plain(fam, rows, families)) != Run(scope, goesOn, rows)
  {
    hide Run, InScope, Plain, Rank, Unrepeated, SumFamilies, Sum;
    var own, out := InScope(scope, rows), Plain(fam, InScope(scope, rows), families);
    var i, j := LastDescent(fam, families, own);
    var x := own[j];
    goesOn := r => r != x;
    RunIsLongestStretch(scope, goesOn, rows);
    PlainScope(fam, scope, rows, families);
    RunIsLongestStretch(scope, goesOn, Plain(fam, rows, families));
    var k := Run(scope, goesOn, rows);
    ManyAfter(fam, families, own, i, j);
    StretchBound(own, x, j, k);
    SumPlain(fam, After(fam, families, x), own, families);
    SumAll(fam, After(fam, families, x), own, families);
    assert families[..|families|] == families;
    PlainInOrder(fam, own, families, |families|);
    PlainLength(fam, own, families);
    if Run(scope, goesOn, Plain(fam, rows, families)) == k {
      FewAfter(fam, families, out, |out| - 1 - k);
      assert false;
    }
  }

  lemma StretchBound<T>(own: seq<T>, x: T, j: nat, k: nat)
    requires j < |own| && own[j] == x && k <= |own| && forall i :: |own| - k <= i < |own| ==> own[i] != x
    ensures k <= |own| - 1 - j
  {
  }

  lemma {:induction false} PlainLength<T>(fam: T -> string, rows: seq<T>, families: seq<string>)
    requires Unrepeated(families) && Among(fam, families, rows)
    ensures |Plain(fam, rows, families)| == |rows|
  {
    hide Plain, Unrepeated, SumFamilies;
    var one := (r: T) => 1;
    SumPlain(fam, one, rows, families);
    SumAll(fam, one, rows, families);
    SumFlags(one, Plain(fam, rows, families));
    SumFlags(one, rows);
  }

  /** The per-family bound drops no row of the scope. */
  ghost predicate DropsOnlyOthers(z: FamilyRegistry.Settings, scope: Object -> bool, rows: seq<Object>) {
    forall f :: f in Families(FamilyRegistry.Fam(z), rows) ==> SparesScope(z, scope, Bucket(FamilyRegistry.Fam(z), rows, f))
  }

  /** What the bound cuts off the front of a family's rows is out of scope. */
  ghost predicate SparesScope(z: FamilyRegistry.Settings, scope: Object -> bool, b: seq<Object>) {
    forall i :: 0 <= i < |b| - |Tail(b, z.maxRows)| ==> !scope(b[i])
  }

  lemma {:induction false} NoneInScope<T>(scope: T -> bool, rows: seq<T>)
    ensures InScope(scope, rows) == [] <==> forall i :: 0 <= i < |rows| ==> !scope(rows[i])
    ensures |InScope(scope, rows)| <= |rows|
  {
    if rows != [] { NoneInScope(scope, rows[..|rows| - 1]); }
  }

  /** The bound keeps all of a family's rows in scope, or loses some of them. */
  lemma TailScope(z: FamilyRegistry.Settings, scope: Object -> bool, b: seq<Object>)
    ensures var own, kept := InScope(scope, b), InScope(scope, Tail(b, z.maxRows));
            if SparesScope(z, scope, b) then kept == own else |kept| < |own|
  {
    hide InScope;
    var t := Tail(b, z.maxRows);
    var m := |b| - |t|;
    assert b == b[..m] + t;
    InScopeConcat(scope, b[..m], t);
    NoneInScope(scope, b[..m]);
  }

  lemma {:induction false} GroupScope(
    z: FamilyRegistry.Settings, scope: Object -> bool, rows: seq<Object>, families: seq<string>)
    ensures var fam := FamilyRegistry.Fam(z);
            var own := InScope(scope, Plain(fam, rows, families));
            var kept := InScope(scope, Group(fam, FamilyRegistry.Last(z), rows, families));
            if forall f :: f in families ==> SparesScope(z, scope, Bucket(fam, rows, f)) then kept == own else |kept| < |own|
  {
    hide InScope, Bucket, FamilyRegistry.Fam, SparesScope, Tail;
    if families != [] {
      var n, fam := |families| - 1, FamilyRegistry.Fam(z);
      var b := Bucket(fam, rows, families[n]);
      assert families == families[..n] + [families[n]];
      GroupScope(z, scope, rows, families[..n]);
      TailScope(z, scope, b);
      InScopeConcat(scope, Plain(fam, rows, families[..n]), b);
      InScopeConcat(scope, Group(fam, FamilyRegistry.Last(z), rows, families[..n]), Tail(b, z.maxRows));
    }
  }

  lemma {:induction false} EndlessRun<T>(scope: T -> bool, rows: seq<T>)
    ensures Run(scope, r => true, rows) == |InScope(scope, rows)|
  {
    hide InScope, Run;
    RunIsLongestStretch(scope, r => true, rows);
  }

  /** Compaction keeps a scope's streak, whatever its rows say, exactly when the bound
      drops no row of the scope and the scope's rows already stand in the order in which
      their families first appear. */
  lemma {:induction false} CompactionKeepsStreakIff(z: FamilyRegistry.Settings, scope: Object -> bool, history: seq<Object>)
    ensures var rows := Attempts(z, history); var fam := FamilyRegistry.Fam(z);
            (forall goesOn :: Run(scope, goesOn, FamilyRegistry.Compact(z, history)) == Run(scope, goesOn, rows)) <==>
              DropsOnlyOthers(z, scope, rows) && InOrder(fam, Families(fam, rows), InScope(scope, rows))
  {
    hide Run, InScope, Plain, Group, Rank, Unrepeated, FamilyRegistry.Fam, FamilyRegistry.Last, Families, SparesScope, Bucket, InOrder,
      FamilyRegistry.Dedup, FamilyRegistry.Rows;
    var rows, fam, compacted := Attempts(z, history), FamilyRegistry.Fam(z), FamilyRegistry.Compact(z, history);
    var families := Families(fam, rows);
    assert compacted == Group(fam, FamilyRegistry.Last(z), rows, families);
    FamiliesFacts(fam, rows);
    ScopeAmong(fam, scope, rows);
    GroupScope(z, scope, rows, families);
    PlainScope(fam, scope, rows, families);
    if !DropsOnlyOthers(z, scope, rows) {
      EndlessRun(scope, compacted);
      EndlessRun(scope, rows);
      PlainLength(fam, InScope(scope, rows), families);
      assert Run(scope, r => true, compacted) != Run(scope, r => true, rows);
    } else if InOrder(fam, families, InScope(scope, rows)) {
      OrderedStays(fam, families, InScope(scope, rows));
      forall goesOn: Object -> bool ensures Run(scope, goesOn, compacted) == Run(scope, goesOn, rows) {
        OthersNeverMatter(scope, goesOn, compacted, rows);
      }
    } else {
      var goesOn := DisorderShows(fam, scope, rows, families);
      OthersNeverMatter(scope, goesOn, compacted, Plain(fam, rows, families));
    }
  }

  /** The bound cuts nothing off. */
  ghost predicate Untruncated(z: FamilyRegistry.Settings, rows: seq<Object>) {
    forall f :: Tail(Bucket(FamilyRegistry.Fam(z), rows, f), z.maxRows) == Bucket(FamilyRegistry.Fam(z), rows, f)
  }

  /** So where nothing is truncated, only the order decides. */
  lemma {:induction false} RegroupingKeepsStreakIff(z: FamilyRegistry.Settings, scope: Object -> bool, history: seq<Object>)
    requires Untruncated(z, Attempts(z, history))
    ensures var rows := Attempts(z, history); var fam := FamilyRegistry.Fam(z);
            (forall goesOn :: Run(scope, goesOn, FamilyRegistry.Compact(z, history)) == Run(scope, goesOn, rows)) <==>
              InOrder(fam, Families(fam, rows), InScope(scope, rows))
  {
    hide Run, InScope, InOrder, Attempts, FamilyRegistry.Compact, FamilyRegistry.Fam, Families, Bucket, Tail;
    CompactionKeepsStreakIff(z, scope, history);
  }

  lemma {:induction false} ScopeAmong<T>(fam: T -> string, scope: T -> bool, rows: seq<T>)
    ensures Among(fam, Families(fam, rows), InScope(scope, rows))
  {
    if rows != [] { ScopeAmong(fam, scope, rows[..|rows| - 1]); }
  }

  /** A scope that reaches across families can lose its streak to regrouping alone. */
  lemma RegroupingBreaksStreak(
    z: FamilyRegistry.Settings, scope: Object -> bool, goesOn: Object -> bool, a: Object, b: Object, c: Object)
    requires z.maxRows == 0 || z.maxRows >= 2
    requires FamilyRegistry.Fam(z)(a) == FamilyRegistry.Fam(z)(c) != FamilyRegistry.Fam(z)(b)
    requires scope(a) && scope(b) && scope(c) && goesOn(a) && !goesOn(b) && goesOn(c)
    ensures Run(scope, goesOn, [a, b, c]) == 1 && Run(scope, goesOn, FamilyRegistry.Shelve(z, [a, b, c])) == 0
  {
    hide FamilyRegistry.Shelve, FamilyRegistry.FamilyOf;
    FamilyRegistry.RegroupingReordersHistory(z, a, b, c);
    assert [a, b, c][..2] == [a, b];
  }
}
