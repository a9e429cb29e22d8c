/** Compaction of the root-cause ledger: replayed entries dropped, relabelled ones
    turned into corrections, equivalent hypotheses merged, families truncated. */
module RootCauseLedger {
  import opened Wrappers
  import opened Grouping

  /** A ledger row. Text fields read as `str(row.get(f) or "")`; the two counts are
      present when they read as numbers. */
  datatype Row = Row(
    attempt: string, cycle: string, firstCycle: string, previousCycle: string,
    family: string, rootKey: string, rootFamily: string, blockerRootFamily: string,
    hypothesis: string, targetSurface: string, blocker: string, delta: string,
    attempted: bool, changed: bool, correction: bool, correctionOf: string,
    attempts: Option<nat>, vacuous: Option<nat>)

  /** The label normalisers and the per-family bound. */
  datatype Settings = Settings(slug: string -> string, trim: string -> string, maxRows: int)

  /** Two rows with the same key state the same hypothesis. */
  datatype Key = Key(cause: string, surface: string, delta: string)

  function Surface(r: Row): string {
    if r.targetSurface != "" then r.targetSurface
    else if r.blocker != "" then r.blocker
    else if r.rootKey != "" then r.rootKey
    else if r.rootFamily != "" then r.rootFamily
    else if r.family != "" then r.family
    else "unknown_surface"
  }

  function KeyOf(z: Settings, r: Row): Key {
    Key(z.slug(r.hypothesis), z.trim(Surface(r)), z.trim(if r.delta == "" then "unknown_delta" else r.delta))
  }

  // ---- phase one: replays and corrections ----------------------------------

  predicate SamePair(z: Settings, x: Row, r: Row) {
    r.attempt != "" && x.attempt == r.attempt && KeyOf(z, x) == KeyOf(z, r)
  }

  predicate SameLabels(x: Row, r: Row) {
    x.family == r.family && x.rootKey == r.rootKey && x.rootFamily == r.rootFamily && x.hypothesis == r.hypothesis
  }

  /** A relabelled entry of a known attempt counts for nothing by itself. */
  function Zeroed(r: Row): Row {
    r.(correction := true, correctionOf := r.attempt, attempted := false, attempts := Some(0), vacuous := Some(0))
  }

  /** The newest admitted row for the same attempt and hypothesis. */
  function PriorOf(z: Settings, admitted: seq<Row>, r: Row): Option<Row> {
    if admitted == [] then None
    else
      var n := |admitted| - 1;
      if SamePair(z, admitted[n], r) then Some(admitted[n]) else PriorOf(z, admitted[..n], r)
  }

  function Admit(z: Settings, admitted: seq<Row>, r: Row): seq<Row> {
    match PriorOf(z, admitted, r)
    case None => admitted + [r]
    case Some(p) => if SameLabels(p, r) then admitted else admitted + [Zeroed(r)]
  }

  function Lineage(z: Settings, rows: seq<Row>): seq<Row> {
    if rows == [] then [] else Admit(z, Lineage(z, rows[..|rows| - 1]), rows[|rows| - 1])
  }

  // ---- phase two: merging inside a family ----------------------------------

  function Weight(count: Option<nat>, default: nat): nat {
    if count.Some? then count.value else default
  }

  function Increment(r: Row): nat {
    if r.attempted && !r.correction then 1 else 0
  }

  function VacuousIncrement(r: Row): nat {
    if r.changed then 0 else Increment(r)
  }

  function Fresh(r: Row): Row {
    r.(attempts := Some(Weight(r.attempts, Increment(r))), vacuous := Some(Weight(r.vacuous, VacuousIncrement(r))))
  }

  /** The newest row of a hypothesis takes over, inheriting counts and outcome. */
  function Merge(x: Row, r: Row): Row {
    r.(attempts := Some(Weight(x.attempts, 0) + Increment(r)),
       vacuous := Some(Weight(x.vacuous, 0) + VacuousIncrement(r)),
       changed := x.changed || r.changed,
       attempted := if r.correction then x.attempted else r.attempted,
       firstCycle := if x.firstCycle != "" then x.firstCycle else x.cycle,
       previousCycle := x.cycle)
  }

  function Merger(z: Settings, r: Row): Row -> Row {
    x => if KeyOf(z, x) == KeyOf(z, r) then Merge(x, r) else x
  }

  predicate Holds(z: Settings, xs: seq<Row>, k: Key) {
    exists i :: 0 <= i < |xs| && KeyOf(z, xs[i]) == k
  }

  function Absorb(z: Settings, xs: seq<Row>, r: Row): seq<Row> {
    if Holds(z, xs, KeyOf(z, r)) then Rewrite(Merger(z, r), xs) else xs + [Fresh(r)]
  }

  /** One entry per hypothesis, at the position where it first appeared. */
  function Fold(z: Settings, rows: seq<Row>): seq<Row> {
    if rows == [] then [] else Absorb(z, Fold(z, rows[..|rows| - 1]), rows[|rows| - 1])
  }

  function Fam(): Row -> string {
    (r: Row) => if r.family == "" then "unknown" else r.family
  }

  function Shrink(z: Settings): seq<Row> -> seq<Row> {
    xs => Tail(Fold(z, xs), z.maxRows)
  }

  function Shelve(z: Settings, rows: seq<Row>): seq<Row> {
    Regroup(Fam(), Shrink(z), rows)
  }

  function Compact(z: Settings, rows: seq<Row>): seq<Row> {
    Shelve(z, Lineage(z, rows))
  }

  // ---- folding -------------------------------------------------------------

  ghost predicate KeysDistinct(z: Settings, xs: seq<Row>) {
    forall i, j :: 0 <= i < j < |xs| ==> KeyOf(z, xs[i]) != KeyOf(z, xs[j])
  }

  ghost predicate AllCounted(xs: seq<Row>) {
    forall i :: 0 <= i < |xs| ==> xs[i].attempts.Some? && xs[i].vacuous.Some?
  }

  lemma MergeKeepsKey(z: Settings, x: Row, r: Row)
    ensures KeyOf(z, Merge(x, r)) == KeyOf(z, r) == KeyOf(z, Fresh(r)) == KeyOf(z, Zeroed(r))
    ensures Fam()(Merge(x, r)) == Fam()(r) == Fam()(Fresh(r)) == Fam()(Zeroed(r))
  {
  }

  /** A folded list has one counted entry per hypothesis. */
  lemma {:induction false} FoldFacts(z: Settings, rows: seq<Row>)
    ensures KeysDistinct(z, Fold(z, rows)) && AllCounted(Fold(z, rows))
    ensures rows != [] ==> Fold(z, rows) != []
  {
    hide KeyOf;
    if rows != [] {
      var n := |rows| - 1;
      FoldFacts(z, rows[..n]);
      forall x { MergeKeepsKey(z, x, rows[n]); }
      hide Merge, Fresh;
      AbsorbFacts(z, Fold(z, rows[..n]), rows[n]);
    }
  }

  lemma AbsorbFacts(z: Settings, xs: seq<Row>, r: Row)
    requires KeysDistinct(z, xs) && AllCounted(xs)
    ensures KeysDistinct(z, Absorb(z, xs, r)) && AllCounted(Absorb(z, xs, r)) && Absorb(z, xs, r) != []
  {
    hide KeyOf;
    MergeKeepsKey(z, r, r);
    if Holds(z, xs, KeyOf(z, r)) {
      forall i | 0 <= i < |xs| ensures KeyOf(z, Absorb(z, xs, r)[i]) == KeyOf(z, xs[i]) {
        MergeKeepsKey(z, xs[i], r);
      }
    }
  }

  lemma {:induction false} FoldFamily(z: Settings, rows: seq<Row>, f: string)
    requires Uniform(Fam(), rows, f)
    ensures Uniform(Fam(), Fold(z, rows), f)
  {
    hide KeyOf;
    if rows != [] {
      FoldFamily(z, rows[..|rows| - 1], f);
    }
  }

  /** Folding leaves alone what is already folded. */
  lemma {:induction false} FoldOfFolded(z: Settings, xs: seq<Row>)
    requires KeysDistinct(z, xs) && AllCounted(xs)
    ensures Fold(z, xs) == xs
  {
    hide KeyOf;
    if xs != [] {
      var n := |xs| - 1;
      FoldOfFolded(z, xs[..n]);
      assert xs == xs[..n] + [xs[n]];
    }
  }

  lemma {:induction false} ShrinkFacts(z: Settings)
    requires z.maxRows >= 0
    ensures Shrinks(Fam(), Shrink(z)) && Absorbs(Shrink(z))
  {
    hide KeyOf, Fam, Fold, Tail;
    forall xs: seq<Row>
      ensures xs != [] ==> Shrink(z)(xs) != []
      ensures Shrink(z)(Shrink(z)(xs)) == Shrink(z)(xs)
    {
      FoldFacts(z, xs);
      ShrinkOnce(z, xs);
    }
    forall xs: seq<Row>, f | Uniform(Fam(), xs, f) ensures Uniform(Fam(), Shrink(z)(xs), f) {
      FoldFamily(z, xs, f);
      TailFacts(Fold(z, xs), z.maxRows);
    }
  }

  lemma ShrinkOnce(z: Settings, xs: seq<Row>)
    requires z.maxRows >= 0
    ensures xs != [] ==> Tail(Fold(z, xs), z.maxRows) != []
    ensures Tail(Fold(z, Tail(Fold(z, xs), z.maxRows)), z.maxRows) == Tail(Fold(z, xs), z.maxRows)
    ensures KeysDistinct(z, Tail(Fold(z, xs), z.maxRows)) && AllCounted(Tail(Fold(z, xs), z.maxRows))
  {
    hide KeyOf, Fold;
    FoldFacts(z, xs);
    TailFacts(Fold(z, xs), z.maxRows);
    FoldOfFolded(z, Tail(Fold(z, xs), z.maxRows));
  }
}
