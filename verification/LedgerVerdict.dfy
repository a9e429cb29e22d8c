/** The exhaustion verdict over a root-cause ledger, and when compaction keeps it. */
module LedgerVerdict {
  import opened Wrappers
  import opened Grouping
  import opened RootCauseLedger
  import opened LedgerCompaction

  // ---- the verdict ---------------------------------------------------------

  datatype Query = Query(family: string, rootKey: string, rootFamily: string)

  predicate InScope(q: Query, r: Row) {
    || r.family == q.family
    || (q.rootKey != "" && r.rootKey == q.rootKey)
    || (q.rootFamily != "" && (if r.rootFamily != "" then r.rootFamily else r.blockerRootFamily) == q.rootFamily)
  }

  /** Attempts without effect; a row without a count stands for one. */
  function VacuousWeight(q: Query): Row -> nat {
    (r: Row) => if InScope(q, r) && r.attempted && !r.changed then Weight(r.vacuous, 1) else 0
  }

  function PositiveWeight(q: Query): Row -> nat {
    (r: Row) => if InScope(q, r) && r.attempted && r.changed then 1 else 0
  }

  function Vacuous(q: Query, rows: seq<Row>): nat {
    Sum(VacuousWeight(q), rows)
  }

  function Positive(q: Query, rows: seq<Row>): nat {
    Sum(PositiveWeight(q), rows)
  }

  /** The hypothesis budget is spent and nothing ever helped. */
  predicate Exhausted(q: Query, rows: seq<Row>, budget: Option<nat>) {
    budget.Some? && budget.value > 0 && Vacuous(q, rows) >= budget.value && Positive(q, rows) == 0
  }

  /** Vacuous attempts since the last one that helped. */
  function Streak(q: Query, rows: seq<Row>): nat {
    if rows == [] then 0
    else
      var n := |rows| - 1;
      if !InScope(q, rows[n]) || !rows[n].attempted then Streak(q, rows[..n])
      else if rows[n].changed then 0
      else Weight(rows[n].vacuous, 1) + Streak(q, rows[..n])
  }

  method ExhaustionState(q: Query, rows: seq<Row>, budget: Option<nat>)
    returns (exhausted: bool, vacuous: nat, positive: nat, streak: nat)
    ensures exhausted == Exhausted(q, rows, budget)
    ensures vacuous == Vacuous(q, rows) && positive == Positive(q, rows) && streak == Streak(q, rows)
  {
    vacuous, positive, streak := 0, 0, 0;
    for n := 0 to |rows|
      invariant vacuous == Vacuous(q, rows[..n]) && positive == Positive(q, rows[..n])
    {
      assert rows[..n + 1][..n] == rows[..n];
      if InScope(q, rows[n]) && rows[n].attempted {
        if rows[n].changed { positive := positive + 1; }
        else { vacuous := vacuous + Weight(rows[n].vacuous, 1); }
      }
    }
    assert rows[..|rows|] == rows;
    for n := |rows| downto 0
      invariant Streak(q, rows) == streak + Streak(q, rows[..n])
    {
      assert rows[..n + 1][..n] == rows[..n];
      if InScope(q, rows[n]) && rows[n].attempted {
        if rows[n].changed { break; }
        streak := streak + Weight(rows[n].vacuous, 1);
      }
    }
    exhausted := budget.Some? && budget.value > 0 && vacuous >= budget.value && positive == 0;
  }

  /** The budget up to which a ledger counts as exhausted. */
  function Reach(q: Query, rows: seq<Row>): nat {
    if Positive(q, rows) > 0 then 0 else Vacuous(q, rows)
  }

  ghost predicate SameVerdicts(q: Query, xs: seq<Row>, ys: seq<Row>) {
    forall budget :: Exhausted(q, xs, budget) == Exhausted(q, ys, budget)
  }

  lemma SameVerdictsIff(q: Query, xs: seq<Row>, ys: seq<Row>)
    ensures SameVerdicts(q, xs, ys) <==> Reach(q, xs) == Reach(q, ys)
  {
    hide Vacuous, Positive;
    if SameVerdicts(q, xs, ys) {
      assert Exhausted(q, xs, Some(Reach(q, xs))) == Exhausted(q, ys, Some(Reach(q, xs)));
      assert Exhausted(q, xs, Some(Reach(q, ys))) == Exhausted(q, ys, Some(Reach(q, ys)));
    }
  }

  // ---- counts are conserved ------------------------------------------------

  /** Rows as an evaluation first writes them: no counts, no corrections. */
  ghost predicate Raw(rows: seq<Row>) {
    forall i :: 0 <= i < |rows| ==> rows[i].attempts == None == rows[i].vacuous && !rows[i].correction
  }

  function KeyedAttempts(z: Settings, k: Key): Row -> nat {
    (r: Row) => if KeyOf(z, r) == k then Increment(r) else 0
  }

  function KeyedVacuous(z: Settings, k: Key): Row -> nat {
    (r: Row) => if KeyOf(z, r) == k then VacuousIncrement(r) else 0
  }

  /** Folding finds a home for every row. */
  lemma {:induction false} FoldHolds(z: Settings, rows: seq<Row>)
    ensures forall k :: Holds(z, Fold(z, rows), k) <==> Holds(z, rows, k)
  {
    hide KeyOf, Merge, Fresh;
    if rows != [] {
      var n := |rows| - 1;
      var xs, r := Fold(z, rows[..n]), rows[n];
      FoldHolds(z, rows[..n]);
      forall k ensures Holds(z, Absorb(z, xs, r), k) <==> Holds(z, xs, k) || k == KeyOf(z, r) {
        AbsorbHolds(z, xs, r, k);
      }
      forall k ensures Holds(z, rows, k) <==> Holds(z, rows[..n], k) || k == KeyOf(z, r) {
        HoldsFront(z, rows, k);
      }
    }
  }

  lemma HoldsFront(z: Settings, rows: seq<Row>, k: Key)
    requires rows != []
    ensures Holds(z, rows, k) <==> Holds(z, rows[..|rows| - 1], k) || k == KeyOf(z, rows[|rows| - 1])
  {
  }

  lemma AbsorbHolds(z: Settings, xs: seq<Row>, r: Row, k: Key)
    ensures Holds(z, Absorb(z, xs, r), k) <==> Holds(z, xs, k) || k == KeyOf(z, r)
  {
    hide KeyOf, Merge, Fresh;
    var ys := Absorb(z, xs, r);
    MergeKeepsKey(z, r, r);
    forall i | 0 <= i < |xs| ensures KeyOf(z, ys[i]) == KeyOf(z, xs[i]) {
      MergeKeepsKey(z, xs[i], r);
    }
    if Holds(z, xs, k) {
      var i :| 0 <= i < |xs| && KeyOf(z, xs[i]) == k;
      assert KeyOf(z, ys[i]) == k;
    }
    if !Holds(z, xs, KeyOf(z, r)) {
      assert KeyOf(z, ys[|xs|]) == KeyOf(z, r);
    }
  }

  lemma NoneKeyed(z: Settings, rows: seq<Row>, k: Key)
    requires !Holds(z, rows, k)
    ensures Sum(KeyedAttempts(z, k), rows) == 0 && Sum(KeyedVacuous(z, k), rows) == 0
  {
  }

  /** Each folded entry carries the number of attempts, and of vacuous attempts,
      among the rows of its hypothesis. */
  lemma {:induction false} FoldCounts(z: Settings, rows: seq<Row>, i: nat)
    requires Raw(rows) && i < |Fold(z, rows)|
    ensures var u := Fold(z, rows)[i];
            && u.attempts == Some(Sum(KeyedAttempts(z, KeyOf(z, u)), rows))
            && u.vacuous == Some(Sum(KeyedVacuous(z, KeyOf(z, u)), rows))
  {
    hide KeyOf, Increment, VacuousIncrement;
    var n := |rows| - 1;
    var xs, r := Fold(z, rows[..n]), rows[n];
    if i < |xs| {
      FoldCounts(z, rows[..n], i);
      MergeKeepsKey(z, xs[i], r);
    } else {
      MergeKeepsKey(z, r, r);
      FoldHolds(z, rows[..n]);
      NoneKeyed(z, rows[..n], KeyOf(z, r));
    }
  }

  /** Counts are conserved: a kept entry's counts are the numbers of attempts and
      of vacuous attempts among the ledger rows of its family and hypothesis. */
  lemma {:induction false} CountsConserved(z: Settings, rows: seq<Row>, u: Row)
    requires z.maxRows >= 0 && Raw(rows) && PairsDistinct(z, rows) && u in Compact(z, rows)
    ensures var b := Bucket(Fam(), rows, Fam()(u));
            && u.attempts == Some(Sum(KeyedAttempts(z, KeyOf(z, u)), b))
            && u.vacuous == Some(Sum(KeyedVacuous(z, KeyOf(z, u)), b))
  {
    hide KeyOf, Increment, VacuousIncrement, Shelve, Fold, Fam, Bucket, Lineage, PairsDistinct, KeyedAttempts,
      KeyedVacuous, Sum;
    LineageOfDistinct(z, rows);
    var f := Fam()(u);
    var b := Bucket(Fam(), rows, f);
    ShelveBucket(z, rows, f);
    BucketMembers(Fam(), Compact(z, rows), f);
    TailFacts(Fold(z, b), z.maxRows);
    RawBucket(rows, f);
    var i :| 0 <= i < |Fold(z, b)| && Fold(z, b)[i] == u;
    FoldCounts(z, b, i);
  }

  lemma {:induction false} RawBucket(rows: seq<Row>, f: string)
    requires Raw(rows)
    ensures Raw(Bucket(Fam(), rows, f))
  {
    hide Fam;
    if rows != [] {
      RawBucket(rows[..|rows| - 1], f);
    }
  }

  // ---- merging and the verdict ---------------------------------------------

  /** The ledger with equivalent hypotheses merged and nothing truncated. */
  function Merged(z: Settings, rows: seq<Row>): seq<Row> {
    Compact(z.(maxRows := 0), rows)
  }

  predicate SameGroup(z: Settings, x: Row, r: Row) {
    Fam()(x) == Fam()(r) && KeyOf(z, x) == KeyOf(z, r)
  }

  /** A query does not tell rows of one family and hypothesis apart. */
  ghost predicate ScopeByKey(z: Settings, q: Query, rows: seq<Row>) {
    forall i, j ::
      0 <= i < |rows| && 0 <= j < |rows| && SameGroup(z, rows[i], rows[j]) ==> InScope(q, rows[i]) == InScope(q, rows[j])
  }

  /** All vacuous attempts an entry has absorbed, whatever its flags now say. */
  function Absorbed(q: Query): Row -> nat {
    (u: Row) => if InScope(q, u) then Weight(u.vacuous, 0) else 0
  }

  lemma MergeScope(q: Query, x: Row, r: Row)
    ensures InScope(q, Merge(x, r)) == InScope(q, r) == InScope(q, Fresh(r))
  {
  }

  /** An entry stands in the scope its hypothesis's rows stand in. */
  lemma {:induction false} FoldScope(z: Settings, q: Query, rows: seq<Row>, f: string, i: nat)
    requires Uniform(Fam(), rows, f) && ScopeByKey(z, q, rows) && i < |Fold(z, rows)|
    ensures forall j :: 0 <= j < |rows| && KeyOf(z, rows[j]) == KeyOf(z, Fold(z, rows)[i]) ==>
              InScope(q, rows[j]) == InScope(q, Fold(z, rows)[i])
  {
    hide KeyOf, Fam, InScope, Merge, Fresh;
    var n := |rows| - 1;
    var xs, r := Fold(z, rows[..n]), rows[n];
    if i < |xs| {
      assert ScopeByKey(z, q, rows[..n]);
      FoldScope(z, q, rows[..n], f, i);
      MergeScope(q, xs[i], r);
      MergeKeepsKey(z, xs[i], r);
      assert forall j :: 0 <= j < n ==> rows[..n][j] == rows[j];
      FoldHolds(z, rows[..n]);
      assert Holds(z, xs, KeyOf(z, xs[i]));
    } else {
      MergeScope(q, r, r);
      MergeKeepsKey(z, r, r);
    }
  }

  /** Folding conserves the vacuous attempts in scope. */
  lemma {:induction false} FoldConserves(z: Settings, q: Query, rows: seq<Row>, f: string)
    requires Uniform(Fam(), rows, f) && ScopeByKey(z, q, rows) && Raw(rows)
    ensures Sum(Absorbed(q), Fold(z, rows)) == Sum(VacuousWeight(q), rows)
  {
    hide KeyOf, Fam, InScope, ScopeByKey;
    if rows != [] {
      var n := |rows| - 1;
      var xs, r := Fold(z, rows[..n]), rows[n];
      ScopeFront(z, q, rows);
      FoldConserves(z, q, rows[..n], f);
      if Holds(z, xs, KeyOf(z, r)) {
        var i :| 0 <= i < |xs| && KeyOf(z, xs[i]) == KeyOf(z, r);
        FoldFacts(z, rows[..n]);
        MergeScope(q, xs[i], r);
        EntryScope(z, q, rows, f, i);
        SumRewriteOne(Absorbed(q), Merger(z, r), xs, i);
      } else {
        MergeScope(q, r, r);
        SumConcat(Absorbed(q), xs, [Fresh(r)]);
        SumOne(Absorbed(q), Fresh(r));
      }
    }
  }

  lemma ScopeFront(z: Settings, q: Query, rows: seq<Row>)
    requires rows != [] && ScopeByKey(z, q, rows)
    ensures ScopeByKey(z, q, rows[..|rows| - 1])
  {
  }

  lemma EntryScope(z: Settings, q: Query, rows: seq<Row>, f: string, i: nat)
    requires rows != [] && Uniform(Fam(), rows, f) && ScopeByKey(z, q, rows)
    requires i < |Fold(z, rows[..|rows| - 1])|
    requires KeyOf(z, Fold(z, rows[..|rows| - 1])[i]) == KeyOf(z, rows[|rows| - 1])
    ensures InScope(q, Fold(z, rows[..|rows| - 1])[i]) == InScope(q, rows[|rows| - 1])
  {
    hide KeyOf, Fam, InScope, Fold;
    var n := |rows| - 1;
    ScopeFront(z, q, rows);
    FoldScope(z, q, rows[..n], f, i);
    FoldHolds(z, rows[..n]);
    var k := KeyOf(z, rows[n]);
    assert Holds(z, Fold(z, rows[..n]), k);
    var j :| 0 <= j < n && KeyOf(z, rows[..n][j]) == k;
    assert rows[..n][j] == rows[j];
  }

  /** Merging conserves the vacuous attempts in scope, over all families. */
  lemma {:induction false} MergedConserves(z: Settings, q: Query, rows: seq<Row>)
    requires Raw(rows) && PairsDistinct(z, rows) && ScopeByKey(z, q, rows)
    ensures Sum(Absorbed(q), Merged(z, rows)) == Vacuous(q, rows)
  {
    hide KeyOf, Fam, InScope, ScopeByKey, Fold, Bucket, Families, Lineage, Raw, PairsDistinct, Sum, Absorbed,
      VacuousWeight;
    var z0 := z.(maxRows := 0);
    SamePairs(z, rows);
    LineageOfDistinct(z0, rows);
    forall f | f in Families(Fam(), rows)
      ensures Sum(Absorbed(q), Shrink(z0)(Bucket(Fam(), rows, f))) == Sum(VacuousWeight(q), Bucket(Fam(), rows, f))
    {
      BucketUniform(Fam(), rows, f);
      RawBucket(rows, f);
      ScopeBucket(z, q, rows, f);
      SameFold(z, Bucket(Fam(), rows, f));
      TailFacts(Fold(z, Bucket(Fam(), rows, f)), 0);
      FoldConserves(z, q, Bucket(Fam(), rows, f), f);
    }
    SumGroup(Fam(), Shrink(z0), Absorbed(q), VacuousWeight(q), rows, Families(Fam(), rows));
    SumPartition(Fam(), VacuousWeight(q), rows);
  }

  /** The bound plays no part in keys, pairs or folding. */
  lemma SamePairs(z: Settings, rows: seq<Row>)
    requires PairsDistinct(z, rows)
    ensures PairsDistinct(z.(maxRows := 0), rows)
  {
  }

  lemma {:induction false} SameFold(z: Settings, rows: seq<Row>)
    ensures Fold(z.(maxRows := 0), rows) == Fold(z, rows)
  {
    assert forall r :: KeyOf(z.(maxRows := 0), r) == KeyOf(z, r);
    hide KeyOf;
    if rows != [] {
      SameFold(z, rows[..|rows| - 1]);
    }
  }

  lemma {:induction false} ScopeBucket(z: Settings, q: Query, rows: seq<Row>, f: string)
    requires ScopeByKey(z, q, rows)
    ensures ScopeByKey(z, q, Bucket(Fam(), rows, f))
  {
    hide KeyOf, Fam, InScope;
    BucketMembers(Fam(), rows, f);
    var b := Bucket(Fam(), rows, f);
    forall i, j | 0 <= i < |b| && 0 <= j < |b| && KeyOf(z, b[i]) == KeyOf(z, b[j])
      ensures InScope(q, b[i]) == InScope(q, b[j])
    {
      assert b[i] in b && b[j] in b;
      var i' :| 0 <= i' < |rows| && rows[i'] == b[i];
      var j' :| 0 <= j' < |rows| && rows[j'] == b[j];
    }
  }

  /** Every entry with absorbed vacuous attempts still says so: its newest row was
      attempted and its outcome has not changed. */
  ghost predicate Telling(q: Query, entries: seq<Row>) {
    forall u :: u in entries && InScope(q, u) && Weight(u.vacuous, 0) > 0 ==> u.attempted && !u.changed
  }

  lemma {:induction false} FoldPositive(z: Settings, q: Query, rows: seq<Row>, i: nat) returns (j: nat)
    requires Raw(rows) && i < |Fold(z, rows)|
    requires var u := Fold(z, rows)[i]; InScope(q, u) && u.attempted && Weight(u.vacuous, 0) == 0
    ensures j < |rows| && InScope(q, rows[j]) && rows[j].attempted && rows[j].changed
    decreases |rows|
  {
    hide KeyOf, InScope;
    var n := |rows| - 1;
    var xs, r := Fold(z, rows[..n]), rows[n];
    if i < |xs| && (!Holds(z, xs, KeyOf(z, r)) || KeyOf(z, xs[i]) != KeyOf(z, r)) {
      j := FoldPositive(z, q, rows[..n], i);
    } else {
      j := n;
      if i < |xs| { MergeScope(q, xs[i], r); } else { MergeScope(q, r, r); }
    }
  }

  lemma {:induction false} MergedBucket(z: Settings, rows: seq<Row>, f: string)
    requires PairsDistinct(z, rows)
    ensures Bucket(Fam(), Merged(z, rows), f) == Fold(z, Bucket(Fam(), rows, f))
  {
    hide KeyOf, Fam, Fold, Bucket, Lineage, PairsDistinct, Shelve;
    SamePairs(z, rows);
    LineageOfDistinct(z.(maxRows := 0), rows);
    ShelveBucket(z.(maxRows := 0), rows, f);
    SameFold(z, Bucket(Fam(), rows, f));
    TailFacts(Fold(z, Bucket(Fam(), rows, f)), 0);
  }

  /** Where an entry of the merged ledger sits in its family's fold. */
  lemma {:induction false} MergedEntry(z: Settings, rows: seq<Row>, u: Row) returns (b: seq<Row>, i: nat)
    requires PairsDistinct(z, rows) && u in Merged(z, rows)
    ensures b == Bucket(Fam(), rows, Fam()(u)) && i < |Fold(z, b)| && Fold(z, b)[i] == u
    ensures forall x :: x in b <==> x in rows && Fam()(x) == Fam()(u)
  {
    hide KeyOf, Fam, Fold, Bucket, Merged, PairsDistinct;
    b := Bucket(Fam(), rows, Fam()(u));
    MergedBucket(z, rows, Fam()(u));
    BucketMembers(Fam(), Merged(z, rows), Fam()(u));
    BucketMembers(Fam(), rows, Fam()(u));
    assert u in Fold(z, b);
    i :| 0 <= i < |Fold(z, b)| && Fold(z, b)[i] == u;
  }

  lemma {:induction false} PositiveFrom(z: Settings, q: Query, rows: seq<Row>, u: Row)
    requires Raw(rows) && PairsDistinct(z, rows) && u in Merged(z, rows)
    requires InScope(q, u) && u.attempted && Weight(u.vacuous, 0) == 0
    ensures Positive(q, rows) > 0
  {
    hide KeyOf, Fam, Fold, Merged, PairsDistinct, InScope;
    var b, i := MergedEntry(z, rows, u);
    RawBucket(rows, Fam()(u));
    var j := FoldPositive(z, q, b, i);
    assert b[j] in b;
    SumZero(PositiveWeight(q), rows);
    assert PositiveWeight(q)(b[j]) == 1;
  }

  lemma {:induction false} MergedCounted(z: Settings, rows: seq<Row>)
    ensures forall u :: u in Merged(z, rows) ==> u.attempts.Some? && u.vacuous.Some?
  {
    hide KeyOf, Fam, Fold, Shelve, Lineage, Sorted, Contiguous;
    ShelvedIsSettled(z.(maxRows := 0), Lineage(z.(maxRows := 0), rows));
  }

  /** The merged entries' vacuous total never exceeds the history's, and equals it
      exactly when the entries are telling. */
  lemma {:induction false} MergedVacuous(z: Settings, q: Query, rows: seq<Row>)
    requires Raw(rows) && PairsDistinct(z, rows) && ScopeByKey(z, q, rows)
    ensures Vacuous(q, Merged(z, rows)) <= Vacuous(q, rows)
    ensures Vacuous(q, Merged(z, rows)) == Vacuous(q, rows) <==> Telling(q, Merged(z, rows))
  {
    hide KeyOf, Fam, InScope, ScopeByKey, Merged, Sum;
    var us := Merged(z, rows);
    MergedConserves(z, q, rows);
    MergedCounted(z, rows);
    SumCompare(VacuousWeight(q), Absorbed(q), us);
  }

  /** The verdict read off the merged entries: it is kept, for every budget, exactly
      when a helpful attempt is still visible (or no vacuous one is), or — where
      nothing ever helped — every entry with vacuous attempts still says so. */
  lemma {:induction false} MergedReads(z: Settings, q: Query, rows: seq<Row>)
    requires Raw(rows) && PairsDistinct(z, rows) && ScopeByKey(z, q, rows)
    ensures SameVerdicts(q, Merged(z, rows), rows) <==>
            if Positive(q, rows) > 0 then Positive(q, Merged(z, rows)) > 0 || Vacuous(q, Merged(z, rows)) == 0
            else Telling(q, Merged(z, rows))
  {
    hide KeyOf, Fam, InScope, ScopeByKey, Merged, Sum, SameVerdicts, Raw, PairsDistinct, Vacuous;
    var us := Merged(z, rows);
    SameVerdictsIff(q, us, rows);
    MergedVacuous(z, q, rows);
    if Positive(q, rows) == 0 && Telling(q, us) && Positive(q, us) > 0 {
      SumZero(PositiveWeight(q), us);
      var u :| u in us && PositiveWeight(q)(u) > 0;
      PositiveFrom(z, q, rows, u);
      assert false;
    }
  }

  // ---- a condition on the history alone ------------------------------------

  /** Outcomes change only on attempted rows, and once a hypothesis has been
      attempted its later rows are attempted too. */
  ghost predicate Disciplined(z: Settings, rows: seq<Row>) {
    && (forall i :: 0 <= i < |rows| && rows[i].changed ==> rows[i].attempted)
    && forall i, j :: 0 <= i < j < |rows| && SameGroup(z, rows[i], rows[j]) && rows[i].attempted ==> rows[j].attempted
  }

  /** Entry by entry, what absorbing the newest row does. */
  lemma FoldAt(z: Settings, rows: seq<Row>, i: nat)
    requires rows != [] && i < |Fold(z, rows)|
    ensures var xs := Fold(z, rows[..|rows| - 1]); var r := rows[|rows| - 1];
            && i <= |xs|
            && (if i == |xs| then !Holds(z, xs, KeyOf(z, r)) && Fold(z, rows)[i] == Fresh(r)
                else Fold(z, rows)[i] == (if KeyOf(z, xs[i]) == KeyOf(z, r) then Merge(xs[i], r) else xs[i]))
  {
  }

  /** In a disciplined family the entry remembers every attempt and outcome. */
  lemma {:induction false} FoldRemembers(z: Settings, rows: seq<Row>, f: string, i: nat, j: nat)
    requires Uniform(Fam(), rows, f) && Raw(rows) && Disciplined(z, rows)
    requires i < |Fold(z, rows)| && j < |rows| && KeyOf(z, rows[j]) == KeyOf(z, Fold(z, rows)[i])
    ensures rows[j].attempted ==> Fold(z, rows)[i].attempted
    ensures rows[j].changed ==> Fold(z, rows)[i].changed
    decreases |rows|
  {
    hide KeyOf, Fam, Fold;
    var n := |rows| - 1;
    var xs, r := Fold(z, rows[..n]), rows[n];
    FoldAt(z, rows, i);
    if j < n {
      assert rows[..n][j] == rows[j];
      if i < |xs| {
        MergeKeepsKey(z, xs[i], r);
        FoldRemembers(z, rows[..n], f, i, j);
        assert KeyOf(z, rows[j]) == KeyOf(z, r) ==> SameGroup(z, rows[j], r);
      } else {
        MergeKeepsKey(z, r, r);
        FoldHolds(z, rows[..n]);
        assert Holds(z, rows[..n], KeyOf(z, rows[..n][j]));
      }
    }
  }

  /** What an entry reports has a row behind it. */
  lemma {:induction false} FoldOrigin(z: Settings, rows: seq<Row>, i: nat)
    requires Raw(rows) && i < |Fold(z, rows)|
    ensures var u := Fold(z, rows)[i];
            && (u.changed ==> exists j :: 0 <= j < |rows| && KeyOf(z, rows[j]) == KeyOf(z, u) && rows[j].changed)
            && (Weight(u.vacuous, 0) > 0 ==>
                  exists j :: 0 <= j < |rows| && KeyOf(z, rows[j]) == KeyOf(z, u) && rows[j].attempted)
  {
    hide KeyOf;
    var n := |rows| - 1;
    var xs, r := Fold(z, rows[..n]), rows[n];
    assert forall j :: 0 <= j < n ==> rows[..n][j] == rows[j];
    if i < |xs| {
      FoldOrigin(z, rows[..n], i);
      MergeKeepsKey(z, xs[i], r);
    } else {
      MergeKeepsKey(z, r, r);
    }
  }

  lemma {:induction false} BucketDisciplined(z: Settings, rows: seq<Row>, f: string)
    requires Disciplined(z, rows)
    ensures Disciplined(z, Bucket(Fam(), rows, f))
  {
    hide KeyOf, Fam;
    if rows != [] {
      var n := |rows| - 1;
      BucketDisciplined(z, rows[..n], f);
      BucketMembers(Fam(), rows[..n], f);
      var b := Bucket(Fam(), rows[..n], f);
      forall i | 0 <= i < |b| ensures exists j :: 0 <= j < n && rows[j] == b[i] {
        assert b[i] in b && b[i] in rows[..n];
        var j :| 0 <= j < |rows[..n]| && rows[..n][j] == b[i];
        assert rows[j] == b[i];
      }
    }
  }

  lemma {:induction false} EntryRemembers(z: Settings, rows: seq<Row>, r: Row) returns (u: Row)
    requires Raw(rows) && PairsDistinct(z, rows) && Disciplined(z, rows) && r in rows
    ensures u in Merged(z, rows) && SameGroup(z, u, r)
    ensures (r.attempted ==> u.attempted) && (r.changed ==> u.changed)
  {
    hide KeyOf, Fam, Fold, Merged, PairsDistinct, Disciplined, Bucket;
    var f := Fam()(r);
    var b := Bucket(Fam(), rows, f);
    BucketMembers(Fam(), rows, f);
    BucketUniform(Fam(), rows, f);
    BucketDisciplined(z, rows, f);
    RawBucket(rows, f);
    var j :| 0 <= j < |b| && b[j] == r;
    FoldHolds(z, b);
    assert Holds(z, b, KeyOf(z, r));
    var i :| 0 <= i < |Fold(z, b)| && KeyOf(z, Fold(z, b)[i]) == KeyOf(z, r);
    FoldRemembers(z, b, f, i, j);
    u := Fold(z, b)[i];
    MergedBucket(z, rows, f);
    BucketMembers(Fam(), Merged(z, rows), f);
    assert u in Bucket(Fam(), Merged(z, rows), f);
  }

  /** An entry's group has the rows the entry reports. */
  lemma {:induction false} EntryOrigin(z: Settings, q: Query, rows: seq<Row>, u: Row)
    requires Raw(rows) && PairsDistinct(z, rows) && ScopeByKey(z, q, rows) && u in Merged(z, rows)
    ensures u.changed ==> exists r :: r in rows && SameGroup(z, r, u) && r.changed && InScope(q, r) == InScope(q, u)
    ensures Weight(u.vacuous, 0) > 0 ==> exists r :: r in rows && SameGroup(z, r, u) && r.attempted
  {
    hide KeyOf, Fam, Fold, Merged, PairsDistinct, InScope, ScopeByKey;
    var b, i := MergedEntry(z, rows, u);
    var f := Fam()(u);
    RawBucket(rows, f);
    ScopeBucket(z, q, rows, f);
    BucketUniform(Fam(), rows, f);
    FoldOrigin(z, b, i);
    FoldScope(z, q, b, f, i);
    if u.changed {
      var j :| 0 <= j < |b| && KeyOf(z, b[j]) == KeyOf(z, u) && b[j].changed;
      assert b[j] in b;
      assert SameGroup(z, b[j], u);
    }
    if Weight(u.vacuous, 0) > 0 {
      var j :| 0 <= j < |b| && KeyOf(z, b[j]) == KeyOf(z, u) && b[j].attempted;
      assert b[j] in b;
      assert SameGroup(z, b[j], u);
    }
  }

  lemma {:induction false} ScopeOfEntry(z: Settings, q: Query, rows: seq<Row>, r: Row, u: Row)
    requires PairsDistinct(z, rows) && ScopeByKey(z, q, rows) && r in rows && u in Merged(z, rows) && SameGroup(z, u, r)
    ensures InScope(q, u) == InScope(q, r)
  {
    hide KeyOf, Fam, Fold, Merged, PairsDistinct, InScope, ScopeByKey;
    var b, i := MergedEntry(z, rows, u);
    ScopeBucket(z, q, rows, Fam()(u));
    BucketUniform(Fam(), rows, Fam()(u));
    FoldScope(z, q, b, Fam()(u), i);
    assert r in b;
    var j :| 0 <= j < |b| && b[j] == r;
  }

  /** On a disciplined history, merging equivalent hypotheses changes no
      exhaustion verdict at any budget. */
  lemma {:induction false} MergeKeepsVerdict(z: Settings, q: Query, rows: seq<Row>)
    requires Raw(rows) && PairsDistinct(z, rows) && ScopeByKey(z, q, rows) && Disciplined(z, rows)
    ensures SameVerdicts(q, Merged(z, rows), rows)
  {
    hide KeyOf, Fam, InScope, ScopeByKey, Merged, Sum, SameVerdicts, Raw, PairsDistinct, Vacuous, SameGroup;
    var us := Merged(z, rows);
    MergedReads(z, q, rows);
    SumZero(PositiveWeight(q), rows);
    SumZero(PositiveWeight(q), us);
    if Positive(q, rows) > 0 {
      var r :| r in rows && PositiveWeight(q)(r) > 0;
      var u := EntryRemembers(z, rows, r);
      ScopeOfEntry(z, q, rows, r, u);
      assert PositiveWeight(q)(u) == 1;
    } else {
      forall u | u in us && InScope(q, u) && Weight(u.vacuous, 0) > 0 ensures u.attempted && !u.changed {
        EntryTells(z, q, rows, u);
      }
    }
  }

  lemma {:induction false} EntryTells(z: Settings, q: Query, rows: seq<Row>, u: Row)
    requires Raw(rows) && PairsDistinct(z, rows) && ScopeByKey(z, q, rows) && Disciplined(z, rows)
    requires Positive(q, rows) == 0 && u in Merged(z, rows) && InScope(q, u) && Weight(u.vacuous, 0) > 0
    ensures u.attempted && !u.changed
  {
    hide KeyOf, Fam, InScope, ScopeByKey, Merged, Sum, Raw, PairsDistinct;
    EntryOrigin(z, q, rows, u);
    SumZero(PositiveWeight(q), rows);
    var r :| r in rows && SameGroup(z, r, u) && r.attempted;
    var u' := EntryRemembers(z, rows, r);
    OneEntryPerGroup(z, rows, u, u');
  }

  lemma {:induction false} OneEntryPerGroup(z: Settings, rows: seq<Row>, u: Row, v: Row)
    requires u in Merged(z, rows) && v in Merged(z, rows) && SameGroup(z, u, v)
    ensures u == v
  {
    hide KeyOf, Fam, Shelve, Lineage, Contiguous;
    assert forall r :: KeyOf(z.(maxRows := 0), r) == KeyOf(z, r) by { BoundFree(z); }
    ShelvedIsSettled(z.(maxRows := 0), Lineage(z.(maxRows := 0), rows));
  }

  lemma BoundFree(z: Settings)
    ensures forall r :: KeyOf(z.(maxRows := 0), r) == KeyOf(z, r)
  {
  }
}
