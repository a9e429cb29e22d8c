/** The per-family bound of the root-cause ledger: what it can cost, and the loops
    that compact the ledger. */
module LedgerTruncation {
  import opened Wrappers
  import opened Grouping
  import opened RootCauseLedger
  import opened LedgerCompaction
  import opened LedgerVerdict
  import opened LedgerHistory

  // ---- when the bound keeps the verdict ------------------------------------

  /** The entries the bound removes from a family. */
  function Head(z: Settings): seq<Row> -> seq<Row> {
    xs => Front(Fold(z, xs), z.maxRows)
  }

  function Front(xs: seq<Row>, n: int): seq<Row> {
    xs[..|xs| - |Tail(xs, n)|]
  }

  function Dropped(z: Settings, rows: seq<Row>): seq<Row> {
    var admitted := Lineage(z, rows);
    Group(Fam(), Head(z), admitted, Families(Fam(), admitted))
  }

  lemma {:induction false} SameLineage(z: Settings, rows: seq<Row>)
    ensures Lineage(z.(maxRows := 0), rows) == Lineage(z, rows)
  {
    if rows != [] {
      SameLineage(z, rows[..|rows| - 1]);
      SamePrior(z, Lineage(z, rows[..|rows| - 1]), rows[|rows| - 1]);
    }
  }

  lemma {:induction false} SamePrior(z: Settings, admitted: seq<Row>, r: Row)
    ensures PriorOf(z.(maxRows := 0), admitted, r) == PriorOf(z, admitted, r)
  {
    if admitted != [] {
      SamePrior(z, admitted[..|admitted| - 1], r);
    }
  }

  lemma SplitAtTail(xs: seq<Row>, n: int)
    requires n >= 0
    ensures xs == Tail(xs, 0) == Front(xs, n) + Tail(xs, n)
  {
  }

  lemma {:induction false} HeadAndTail(z: Settings, b: seq<Row>)
    requires z.maxRows >= 0
    ensures Shrink(z.(maxRows := 0))(b) == Head(z)(b) + Shrink(z)(b)
  {
    hide Fold, Tail, Front;
    SameFold(z, b);
    SplitAtTail(Fold(z, b), z.maxRows);
  }

  lemma {:induction false} SplitSum(z: Settings, w: Row -> nat, rows: seq<Row>)
    requires z.maxRows >= 0
    ensures Sum(w, Merged(z, rows)) == Sum(w, Dropped(z, rows)) + Sum(w, Compact(z, rows))
  {
    hide KeyOf, Fam, Fold, Tail, Sum, Bucket, Families, Lineage, Shrink, Head, Group;
    SameLineage(z, rows);
    var admitted := Lineage(z, rows);
    forall f | f in Families(Fam(), admitted)
      ensures Shrink(z.(maxRows := 0))(Bucket(Fam(), admitted, f))
           == Head(z)(Bucket(Fam(), admitted, f)) + Shrink(z)(Bucket(Fam(), admitted, f))
    {
      HeadAndTail(z, Bucket(Fam(), admitted, f));
    }
    SumGroupSplit(Fam(), Shrink(z.(maxRows := 0)), Head(z), Shrink(z), w, admitted, Families(Fam(), admitted));
  }

  /** The verdict read off kept and dropped entries. */
  lemma {:induction false} TruncatedReads(z: Settings, q: Query, rows: seq<Row>)
    requires z.maxRows >= 0
    ensures SameVerdicts(q, Compact(z, rows), Merged(z, rows)) <==>
            || Positive(q, Compact(z, rows)) > 0
            || (if Positive(q, Dropped(z, rows)) > 0 then Vacuous(q, Compact(z, rows)) == 0
                else Vacuous(q, Dropped(z, rows)) == 0)
  {
    hide Merged, Dropped, Compact, SameVerdicts, Sum, VacuousWeight, PositiveWeight;
    SameVerdictsIff(q, Compact(z, rows), Merged(z, rows));
    SplitSum(z, VacuousWeight(q), rows);
    SplitSum(z, PositiveWeight(q), rows);
  }

  lemma {:induction false} GroupIn(fam: Row -> string, shrink: seq<Row> -> seq<Row>, rows: seq<Row>, families: seq<string>, x: Row)
    ensures x in Group(fam, shrink, rows, families) <==>
            exists f :: f in families && x in shrink(Bucket(fam, rows, f))
  {
    hide Bucket;
    if families != [] {
      var n := |families| - 1;
      GroupIn(fam, shrink, rows, families[..n], x);
      assert families == families[..n] + [families[n]];
    }
  }

  /** A part of each family's fold, collected over the families. */
  lemma {:induction false} PartIn(z: Settings, part: seq<Row> -> seq<Row>, rows: seq<Row>, u: Row)
    requires forall b, x :: x in part(b) ==> x in Fold(z, b)
    ensures u in Group(Fam(), part, rows, Families(Fam(), rows)) <==> u in part(Bucket(Fam(), rows, Fam()(u)))
  {
    hide Fam, Fold, Bucket, Families, Group, KeyOf;
    GroupIn(Fam(), part, rows, Families(Fam(), rows), u);
    FamiliesFacts(Fam(), rows);
    forall f | u in part(Bucket(Fam(), rows, f)) ensures Fam()(u) == f && f in Families(Fam(), rows) {
      BucketUniform(Fam(), rows, f);
      FoldFamily(z, Bucket(Fam(), rows, f), f);
      var xs := Fold(z, Bucket(Fam(), rows, f));
      var i :| 0 <= i < |xs| && xs[i] == u;
      EmptyFold(z);
    }
  }

  lemma PartsOfFold(z: Settings)
    requires z.maxRows >= 0
    ensures forall b, x :: x in Shrink(z)(b) ==> x in Fold(z, b)
    ensures forall b, x :: x in Head(z)(b) ==> x in Fold(z, b)
  {
    hide Fold;
  }

  lemma TailOrFront(xs: seq<Row>, n: int, i: nat)
    requires n >= 0 && i < |xs| && forall j :: 0 <= j < |xs| && j != i ==> xs[j] != xs[i]
    ensures xs[i] in Tail(xs, n) <==> i >= |xs| - |Tail(xs, n)|
    ensures xs[i] in Front(xs, n) <==> i < |xs| - |Tail(xs, n)|
  {
    TailFacts(xs, n);
    var m := |xs| - |Tail(xs, n)|;
    if i >= m { assert xs[m..][i - m] == xs[i]; } else { assert xs[..m][i] == xs[i]; }
  }

  /** The bound keeps an entry exactly when fewer hypotheses of its family than the
      bound appear after its own; otherwise it drops it. */
  lemma {:induction false} BoundKeepsIff(z: Settings, rows: seq<Row>, u: Row)
    requires z.maxRows >= 0 && PairsDistinct(z, rows)
    ensures u in Merged(z, rows) ==> (u in Compact(z, rows) <==> Kept(z, rows, u))
    ensures u in Merged(z, rows) ==> (u in Dropped(z, rows) <==> !Kept(z, rows, u))
    ensures u in Compact(z, rows) || u in Dropped(z, rows) ==> u in Merged(z, rows)
  {
    hide KeyOf, Fam, Fold, Bucket, Families, Lineage, PairsDistinct, Group, Head, Kept, Shrink;
    LineageOfDistinct(z, rows);
    PartsOfFold(z);
    PartIn(z, Shrink(z), rows, u);
    PartIn(z, Head(z), rows, u);
    var b := Bucket(Fam(), rows, Fam()(u));
    MergedBucket(z, rows, Fam()(u));
    BucketMembers(Fam(), Merged(z, rows), Fam()(u));
    if u in Merged(z, rows) {
      var i :| 0 <= i < |Fold(z, b)| && Fold(z, b)[i] == u;
      KeptByPlace(z, rows, u, i);
      FoldFacts(z, b);
      PlaceUnique(z, Fold(z, b), i);
      TailOrFront(Fold(z, b), z.maxRows, i);
      HeadMeans(z, b);
    }
  }

  lemma PlaceUnique(z: Settings, xs: seq<Row>, i: nat)
    requires KeysDistinct(z, xs) && i < |xs|
    ensures forall j :: 0 <= j < |xs| && j != i ==> xs[j] != xs[i]
  {
    hide KeyOf;
  }

  lemma HeadMeans(z: Settings, b: seq<Row>)
    ensures Head(z)(b) == Front(Fold(z, b), z.maxRows) && Shrink(z)(b) == Tail(Fold(z, b), z.maxRows)
  {
  }

  /** Some group that helped is heard, or — if one helped unheard — no group that
      still fails is heard, or — if none helped — every group that still fails is. */
  ghost predicate TruncationSafe(z: Settings, q: Query, rows: seq<Row>) {
    || (exists j :: StillHelps(z, q, rows, j) && Kept(z, rows, rows[j]))
    || (if exists j :: StillHelps(z, q, rows, j)
        then forall j :: StillFails(z, q, rows, j) ==> !Kept(z, rows, rows[j])
        else forall j :: StillFails(z, q, rows, j) ==> Kept(z, rows, rows[j]))
  }

  lemma KeptByGroup(z: Settings, rows: seq<Row>, u: Row, r: Row)
    requires SameGroup(z, u, r)
    ensures Kept(z, rows, u) == Kept(z, rows, r)
  {
  }

  lemma {:induction false} HeardIff(z: Settings, rows: seq<Row>, j: int)
    requires z.maxRows >= 0 && PairsDistinct(z, rows) && Newest(z, rows, j)
    ensures (exists u :: u in Compact(z, rows) && SameGroup(z, u, rows[j])) <==> Kept(z, rows, rows[j])
    ensures (exists u :: u in Dropped(z, rows) && SameGroup(z, u, rows[j])) <==> !Kept(z, rows, rows[j])
  {
    hide KeyOf, Fam, Merged, PairsDistinct, Kept, Dropped, Compact, SameGroup;
    var u := GroupHasEntry(z, rows, rows[j]);
    BoundKeepsIff(z, rows, u);
    KeptByGroup(z, rows, u, rows[j]);
    forall v | (v in Compact(z, rows) || v in Dropped(z, rows)) && SameGroup(z, v, rows[j]) ensures v == u {
      BoundKeepsIff(z, rows, v);
      SameGroups(z, u, v, rows[j]);
      OneEntryPerGroup(z, rows, u, v);
    }
  }

  lemma SameGroups(z: Settings, u: Row, v: Row, r: Row)
    requires SameGroup(z, u, r) && SameGroup(z, v, r)
    ensures SameGroup(z, u, v)
  {
  }

  /** The bound keeps the exhaustion verdict at every budget exactly when the history
      is safe to truncate. */
  lemma {:induction false} TruncationVerdictIff(z: Settings, q: Query, rows: seq<Row>)
    requires z.maxRows >= 0 && Raw(rows) && PairsDistinct(z, rows)
    ensures SameVerdicts(q, Compact(z, rows), Merged(z, rows)) <==> TruncationSafe(z, q, rows)
  {
    hide KeyOf, Fam, Merged, PairsDistinct, Raw, Kept, Dropped, Compact, SameGroup, InScope, Newest, GroupChanged, Vacuous,
      Positive, SameVerdicts;
    TruncatedReads(z, q, rows);
    forall u ensures u in Compact(z, rows) || u in Dropped(z, rows) ==> u in Merged(z, rows) { BoundKeepsIff(z, rows, u); }
    PositiveIff(z, q, rows, Compact(z, rows));
    PositiveIff(z, q, rows, Dropped(z, rows));
    forall j | Newest(z, rows, j)
      ensures 0 <= j < |rows|
      ensures (exists u :: u in Compact(z, rows) && SameGroup(z, u, rows[j])) <==> Kept(z, rows, rows[j])
      ensures (exists u :: u in Dropped(z, rows) && SameGroup(z, u, rows[j])) <==> !Kept(z, rows, rows[j])
    {
      NewestInRows(z, rows, j);
      HeardIff(z, rows, j);
    }
  }

  /** On a disciplined history that is the only way compaction can change a verdict. */
  lemma {:induction false} CompactVerdictIff(z: Settings, q: Query, rows: seq<Row>)
    requires z.maxRows >= 0 && Raw(rows) && PairsDistinct(z, rows) && ScopeByKey(z, q, rows) && Disciplined(z, rows)
    ensures SameVerdicts(q, Compact(z, rows), rows) <==> TruncationSafe(z, q, rows)
  {
    hide Merged, PairsDistinct, Raw, ScopeByKey, Disciplined, Compact, TruncationSafe, Reach;
    MergeKeepsVerdict(z, q, rows);
    TruncationVerdictIff(z, q, rows);
    SameVerdictsIff(q, Merged(z, rows), rows);
    SameVerdictsIff(q, Compact(z, rows), Merged(z, rows));
    SameVerdictsIff(q, Compact(z, rows), rows);
  }

  // ---- what it costs otherwise ---------------------------------------------

  lemma GroupOne(fam: Row -> string, shrink: seq<Row> -> seq<Row>, rows: seq<Row>, f: string)
    ensures Group(fam, shrink, rows, [f]) == shrink(Bucket(fam, rows, f))
  {
  }

  lemma {:induction false} ShelveOneFamily(z: Settings, rows: seq<Row>, f: string)
    requires Uniform(Fam(), rows, f) && rows != []
    ensures Shelve(z, rows) == Tail(Fold(z, rows), z.maxRows)
  {
    hide Fam, Fold, Tail, Bucket;
    BucketUniform(Fam(), rows, f);
    FamiliesConcat(Fam(), [], rows, f);
    assert [] + rows == rows && Families(Fam(), []) + [f] == [f];
    GroupOne(Fam(), Shrink(z), rows, f);
  }

  lemma FoldTwo(z: Settings, a: Row, b: Row)
    requires KeyOf(z, a) != KeyOf(z, b)
    ensures Fold(z, [a, b]) == [Fresh(a), Fresh(b)]
  {
    hide KeyOf;
    MergeKeepsKey(z, a, a);
    hide Fresh, Merge;
    assert [a, b][..1] == [a] && [a][..0] == [];
    assert Fold(z, [a]) == [Fresh(a)];
  }

  /** The bound of one row per family loses a verdict: two vacuous attempts spend
      a budget of two, but the compacted ledger remembers only one of them. */
  lemma {:induction false} TruncationChangesVerdict(z: Settings, q: Query, a: Row, b: Row)
    requires z.maxRows == 1 && Raw([a, b]) && !SamePair(z, a, b)
    requires Fam()(a) == Fam()(b) && KeyOf(z, a) != KeyOf(z, b)
    requires InScope(q, a) && InScope(q, b) && a.attempted && b.attempted && !a.changed && !b.changed
    ensures Exhausted(q, [a, b], Some(2)) && !Exhausted(q, Compact(z, [a, b]), Some(2))
  {
    hide KeyOf, Fam, InScope, Shelve, Lineage, Fold;
    LineageOfDistinct(z, [a, b]);
    ShelveOneFamily(z, [a, b], Fam()(a));
    FoldTwo(z, a, b);
    MergeScope(q, b, b);
    assert [a, b][0] == a && [a, b][1] == b && [a] + [b] == [a, b];
    SumConcat(VacuousWeight(q), [a], [b]);
    SumConcat(PositiveWeight(q), [a], [b]);
    SumOne(VacuousWeight(q), a);
    SumOne(VacuousWeight(q), b);
    SumOne(PositiveWeight(q), a);
    SumOne(PositiveWeight(q), b);
    SumOne(VacuousWeight(q), Fresh(b));
    assert Compact(z, [a, b]) == [Fresh(b)];
  }

  /** Entries keep the position of their first row, so the bound can drop the
      hypothesis that was updated last. */
  lemma {:induction false} TruncationDropsNewest(z: Settings, a: Row, b: Row, c: Row)
    requires z.maxRows == 1 && PairsDistinct(z, [a, b, c]) && Fam()(a) == Fam()(b) == Fam()(c)
    requires KeyOf(z, a) == KeyOf(z, c) != KeyOf(z, b)
    ensures Compact(z, [a, b, c]) == [Fresh(b)]
  {
    hide KeyOf, Fam, Shelve, Lineage, PairsDistinct;
    LineageOfDistinct(z, [a, b, c]);
    ShelveOneFamily(z, [a, b, c], Fam()(a));
    FoldTwo(z, a, b);
    MergeKeepsKey(z, a, a);
    MergeKeepsKey(z, b, b);
    assert [a, b, c][..2] == [a, b];
    assert KeyOf(z, [Fresh(a), Fresh(b)][0]) == KeyOf(z, c);
    assert Fold(z, [a, b, c])[1] == Fresh(b);
  }

  /** Counts absorbed by a label correction are lost when the ledger is compacted
      again: the correction still shares its attempt with the row it corrects. */
  lemma {:induction false} RecompactionZeroesCounts(z: Settings, rows: seq<Row>, j: nat)
    requires z.maxRows >= 0 && j < |Compact(z, rows)| && Shadowed(z, Compact(z, rows), j)
    ensures j < |Compact(z, Compact(z, rows))|
    ensures Compact(z, Compact(z, rows))[j].attempts == Some(0) == Compact(z, Compact(z, rows))[j].vacuous
    ensures !Compact(z, Compact(z, rows))[j].attempted
  {
    hide Compact, Shadowed;
    CompactTwice(z, rows);
  }

  /** It settles there: a third compaction changes nothing more. */
  lemma {:induction false} CompactThrice(z: Settings, rows: seq<Row>)
    requires z.maxRows >= 0
    ensures var c := Compact(z, Compact(z, rows)); Compact(z, c) == c
  {
    hide Compact;
    var c := Compact(z, rows);
    CompactTwice(z, rows);
    CompactTwice(z, c);
    forall i, j | 0 <= i < |c| && 0 <= j < |c| ensures SamePair(z, Demoted(z, c)[i], Demoted(z, c)[j]) == SamePair(z, c[i], c[j]) {
      ZeroedPair(z, c[i], c[j]);
      ZeroedPair(z, c[i], Zeroed(c[j]));
    }
    hide KeyOf, SamePair;
    assert Demoted(z, Compact(z, c)) == Compact(z, c);
  }

  /** Where some entry helped, one that is not shadowed helped too, or no such entry
      failed; where none helped, no shadowed entry failed. */
  ghost predicate RecompactionSafe(z: Settings, q: Query, ledger: seq<Row>) {
    if Positive(q, ledger) > 0 then
      || (exists j :: 0 <= j < |ledger| && !Shadowed(z, ledger, j) && PositiveWeight(q)(ledger[j]) > 0)
      || forall j :: 0 <= j < |ledger| && !Shadowed(z, ledger, j) ==> VacuousWeight(q)(ledger[j]) == 0
    else
      forall j :: 0 <= j < |ledger| && Shadowed(z, ledger, j) ==> VacuousWeight(q)(ledger[j]) == 0
  }

  /** What a ledger still weighs once its shadowed entries are zeroed. */
  lemma {:induction false} DemotedWeighs(z: Settings, w: Row -> nat, ledger: seq<Row>)
    requires forall r :: w(Zeroed(r)) == 0
    ensures Sum(w, Demoted(z, ledger)) == 0 <==>
            forall j :: 0 <= j < |ledger| && !Shadowed(z, ledger, j) ==> w(ledger[j]) == 0
    ensures Sum(w, Demoted(z, ledger)) <= Sum(w, ledger)
    ensures Sum(w, Demoted(z, ledger)) == Sum(w, ledger) <==>
            forall j :: 0 <= j < |ledger| && Shadowed(z, ledger, j) ==> w(ledger[j]) == 0
  {
    hide Shadowed, Zeroed, Sum;
    var d := Demoted(z, ledger);
    SumZero(w, d);
    if forall j :: 0 <= j < |ledger| && !Shadowed(z, ledger, j) ==> w(ledger[j]) == 0 {
      forall x | x in d ensures w(x) == 0 {
        var j :| 0 <= j < |d| && d[j] == x;
      }
    } else {
      var j :| 0 <= j < |ledger| && !Shadowed(z, ledger, j) && w(ledger[j]) != 0;
      assert d[j] in d;
    }
    SumPointwise(w, d, ledger);
  }

  /** Compacting a compacted ledger once more keeps its verdict at every budget exactly
      when the ledger is safe to recompact. */
  lemma {:induction false} RecompactionVerdictIff(z: Settings, q: Query, rows: seq<Row>)
    requires z.maxRows >= 0
    ensures var c := Compact(z, rows);
            SameVerdicts(q, Compact(z, c), c) <==> RecompactionSafe(z, q, c)
  {
    hide Compact, Shadowed, Demoted, SameVerdicts, Sum, InScope;
    var c := Compact(z, rows);
    CompactTwice(z, rows);
    SameVerdictsIff(q, Demoted(z, c), c);
    DemotedWeighs(z, PositiveWeight(q), c);
    DemotedWeighs(z, VacuousWeight(q), c);
  }

  lemma FoldPair(z: Settings, b: Row, c: Row)
    requires KeyOf(z, b) == KeyOf(z, c)
    ensures Fold(z, [b, c]) == [Merge(Fresh(b), c)]
  {
    hide KeyOf;
    MergeKeepsKey(z, b, b);
    hide Fresh, Merge;
    assert [b, c][..1] == [b] && [b][..0] == [];
    assert Fold(z, [b]) == [Fresh(b)];
    assert KeyOf(z, [Fresh(b)][0]) == KeyOf(z, c);
    assert Holds(z, [Fresh(b)], KeyOf(z, c));
    assert Fold(z, [b, c]) == Rewrite(Merger(z, c), [Fresh(b)]);
  }

  lemma {:induction false} CorrectionAdmitted(z: Settings, a: Row, b: Row, c: Row)
    requires a.attempt == c.attempt != "" && b.attempt != a.attempt
    requires KeyOf(z, a) == KeyOf(z, c) && a.family != c.family
    ensures Lineage(z, [a, b, c]) == [a, b, Zeroed(c)]
  {
    hide KeyOf, Zeroed;
    assert [a, b, c][..2] == [a, b] && [a, b][..1] == [a] && [a][..0] == [];
    assert PriorOf(z, [], a) == None && PriorOf(z, [a], b) == None;
    assert Lineage(z, [a]) == [a];
    assert Lineage(z, [a, b]) == [a, b];
    assert PriorOf(z, [a, b], c) == Some(a);
  }

  /** One hypothesis, tried once in each of two families, the first attempt relabelled
      into the second: the compacted ledger counts both attempts and spends a budget
      of two; compacting it once more forgets one and no longer does. */
  lemma {:induction false} RecompactionLoses(z: Settings, q: Query, a: Row, b: Row, c: Row)
    requires z.maxRows >= 0 && Raw([a, b, c]) && a.attempt == c.attempt != "" && b.attempt != a.attempt
    requires KeyOf(z, a) == KeyOf(z, b) == KeyOf(z, c) && Fam()(a) != Fam()(b) == Fam()(c)
    requires a.attempted && b.attempted && !a.changed && !b.changed && !c.changed && InScope(q, a) && InScope(q, c)
    ensures var l := Compact(z, [a, b, c]);
      && |l| == 2 && Shadowed(z, l, 1) && l[1].attempts == Some(1) == l[1].vacuous
      && |Compact(z, l)| == 2 && Compact(z, l)[1].attempts == Some(0)
      && Exhausted(q, l, Some(2)) && !Exhausted(q, Compact(z, l), Some(2))
  {
    hide KeyOf, InScope, Lineage, Shelve, Fold, Shadowed, Demoted, SamePair, Exhausted, Sum, Fam, Vacuous, Positive;
    var u, v := Fresh(a), Merge(Fresh(b), Zeroed(c));
    assert [a, b, c][0] == a && [a, b, c][1] == b && [a, b, c][2] == c;
    assert a.family != c.family by { OtherFamily(a, c); }
    CorrectionAdmitted(z, a, b, c);
    MergeKeepsKey(z, c, c);
    TwoFamilies(z, a, b, Zeroed(c));
    CompactTwice(z, [a, b, c]);
    assert SamePair(z, u, v) by { MergeKeepsKey(z, Fresh(b), Zeroed(c)); MergeKeepsKey(z, a, a); Paired(z, u, v); }
    DemotedTwo(z, u, v);
    MergeScope(q, Fresh(b), Zeroed(c));
    MergeScope(q, a, a);
    ZeroedScope(q, c);
    TwoEntries(q, u, v);
    TwoEntries(q, u, Zeroed(v));
  }

  lemma OtherFamily(a: Row, c: Row)
    requires Fam()(a) != Fam()(c)
    ensures a.family != c.family
  {
  }

  lemma Paired(z: Settings, u: Row, v: Row)
    requires u.attempt == v.attempt != "" && KeyOf(z, u) == KeyOf(z, v)
    ensures SamePair(z, u, v)
  {
  }

  lemma TwoEntries(q: Query, u: Row, v: Row)
    requires InScope(q, u) && u.attempted && !u.changed && u.vacuous == Some(1)
    ensures InScope(q, v) && v.attempted && !v.changed && v.vacuous == Some(1) ==> Exhausted(q, [u, v], Some(2))
    ensures !v.attempted ==> !Exhausted(q, [u, v], Some(2))
  {
    hide InScope, Sum;
    assert [u] + [v] == [u, v];
    SumConcat(VacuousWeight(q), [u], [v]);
    SumConcat(PositiveWeight(q), [u], [v]);
    SumOne(VacuousWeight(q), u);
    SumOne(VacuousWeight(q), v);
    SumOne(PositiveWeight(q), u);
    SumOne(PositiveWeight(q), v);
  }

  lemma ZeroedScope(q: Query, r: Row)
    ensures InScope(q, Zeroed(r)) == InScope(q, r)
  {
  }

  lemma DemotedTwo(z: Settings, u: Row, v: Row)
    requires SamePair(z, u, v)
    ensures Shadowed(z, [u, v], 1) && Demoted(z, [u, v]) == [u, Zeroed(v)]
  {
    hide SamePair, Zeroed;
    assert SamePair(z, [u, v][0], [u, v][1]);
  }

  lemma {:induction false} TwoFamilies(z: Settings, a: Row, b: Row, c: Row)
    requires z.maxRows >= 0 && Fam()(a) != Fam()(b) == Fam()(c) && KeyOf(z, b) == KeyOf(z, c)
    ensures Shelve(z, [a, b, c]) == [Fresh(a), Merge(Fresh(b), c)]
  {
    hide KeyOf, Fam, Fold, Merge, Fresh, Families, Bucket;
    OneAndTwo(Fam(), a, b, c);
    var f, g := Fam()(a), Fam()(b);
    FoldPair(z, b, c);
    FoldOne(z, a);
    GroupOne(Fam(), Shrink(z), [a, b, c], f);
    assert [f, g][..1] == [f];
  }

  lemma OneAndTwo(fam: Row -> string, a: Row, b: Row, c: Row)
    requires fam(a) != fam(b) == fam(c)
    ensures Families(fam, [a, b, c]) == [fam(a), fam(b)]
    ensures Bucket(fam, [a, b, c], fam(a)) == [a] && Bucket(fam, [a, b, c], fam(b)) == [b, c]
  {
    hide Bucket, Families;
    EmptyBucket(fam, fam(a));
    EmptyBucket(fam, fam(b));
    AppendShape(fam, [], a);
    AppendShape(fam, [a], b);
    AppendShape(fam, [a, b], c);
    assert [] + [a] == [a] && [a] + [b] == [a, b] && [a, b] + [c] == [a, b, c];
  }

  lemma FoldOne(z: Settings, a: Row)
    ensures Fold(z, [a]) == [Fresh(a)]
  {
  }

  // ---- the loops -----------------------------------------------------------

  /** Drop replays, turn relabelled entries into corrections. */
  method AdmitAll(z: Settings, rows: seq<Row>) returns (admitted: seq<Row>)
    ensures admitted == Lineage(z, rows)
  {
    hide SamePair, SameLabels, Zeroed;
    admitted := [];
    for n := 0 to |rows|
      invariant admitted == Lineage(z, rows[..n])
    {
      assert rows[..n + 1][..n] == rows[..n];
      var prior := FindPrior(z, admitted, rows[n]);
      if prior.Some? {
        if SameLabels(prior.value, rows[n]) { continue; }
        admitted := admitted + [Zeroed(rows[n])];
      } else {
        admitted := admitted + [rows[n]];
      }
    }
    assert rows[..|rows|] == rows;
  }

  method FindPrior(z: Settings, admitted: seq<Row>, r: Row) returns (prior: Option<Row>)
    ensures prior == PriorOf(z, admitted, r)
  {
    hide SamePair;
    assert admitted[..|admitted|] == admitted;
    for n := |admitted| downto 0
      invariant PriorOf(z, admitted, r) == PriorOf(z, admitted[..n], r)
    {
      assert admitted[..n + 1][..n] == admitted[..n];
      if SamePair(z, admitted[n], r) { return Some(admitted[n]); }
    }
    return None;
  }

  /** Where a hypothesis's entry stands. */
  ghost predicate Indexes(z: Settings, index: map<Key, nat>, entries: seq<Row>) {
    && (forall k :: k in index ==> index[k] < |entries| && KeyOf(z, entries[index[k]]) == k)
    && forall i :: 0 <= i < |entries| ==> KeyOf(z, entries[i]) in index
  }

  /** Merge a family's rows into one entry per hypothesis. */
  method MergeFamily(z: Settings, rows: seq<Row>) returns (entries: seq<Row>)
    ensures entries == Fold(z, rows)
  {
    hide KeyOf, Merge, Fresh, Absorb, Indexes;
    entries := [];
    var index: map<Key, nat> := map[];
    IndexEmpty(z);
    for n := 0 to |rows|
      invariant entries == Fold(z, rows[..n]) && Indexes(z, index, entries)
    {
      assert rows[..n + 1][..n] == rows[..n];
      FoldFacts(z, rows[..n]);
      var r := rows[n];
      var k := KeyOf(z, r);
      AbsorbIndexed(z, entries, r, index);
      if k in index {
        IndexBound(z, index, entries, k);
        entries := entries[index[k] := Merge(entries[index[k]], r)];
      } else {
        index := index[k := |entries|];
        entries := entries + [Fresh(r)];
      }
    }
    assert rows[..|rows|] == rows;
  }

  lemma IndexEmpty(z: Settings)
    ensures Indexes(z, map[], [])
  {
  }

  lemma IndexBound(z: Settings, index: map<Key, nat>, entries: seq<Row>, k: Key)
    requires Indexes(z, index, entries) && k in index
    ensures index[k] < |entries|
  {
  }

  lemma AbsorbIndexed(z: Settings, xs: seq<Row>, r: Row, index: map<Key, nat>)
    requires KeysDistinct(z, xs) && Indexes(z, index, xs)
    ensures var k := KeyOf(z, r);
            if k in index then
              && index[k] < |xs| && Absorb(z, xs, r) == xs[index[k] := Merge(xs[index[k]], r)]
              && Indexes(z, index, Absorb(z, xs, r))
            else Absorb(z, xs, r) == xs + [Fresh(r)] && Indexes(z, index[k := |xs|], Absorb(z, xs, r))
  {
    hide KeyOf, Merge, Fresh;
    MergeKeepsKey(z, r, r);
    forall i | 0 <= i < |xs| ensures KeyOf(z, Merge(xs[i], r)) == KeyOf(z, r) {
      MergeKeepsKey(z, xs[i], r);
    }
  }

  /** One bucket per family, families in the order they first appeared. */
  method FillBuckets(admitted: seq<Row>) returns (order: seq<string>, buckets: map<string, seq<Row>>)
    ensures order == Families(Fam(), admitted)
    ensures forall f :: f in order ==> f in buckets && buckets[f] == Bucket(Fam(), admitted, f)
  {
    hide Fam;
    order, buckets := [], map[];
    for n := 0 to |admitted|
      invariant order == Families(Fam(), admitted[..n])
      invariant forall f :: f in buckets <==> f in order
      invariant forall f :: f in buckets ==> buckets[f] == Bucket(Fam(), admitted[..n], f)
    {
      assert admitted[..n + 1][..n] == admitted[..n];
      FamiliesFacts(Fam(), admitted[..n]);
      var f := Fam()(admitted[n]);
      if f !in buckets {
        order := order + [f];
        buckets := buckets[f := []];
      }
      buckets := buckets[f := buckets[f] + [admitted[n]]];
    }
    assert admitted[..|admitted|] == admitted;
  }

  /** Merge each bucket and emit the tails, family by family. */
  method CompactLedger(z: Settings, rows: seq<Row>) returns (compacted: seq<Row>)
    ensures compacted == Compact(z, rows)
  {
    hide KeyOf, Fam, Fold, Lineage, Bucket, Families, Tail;
    var admitted := AdmitAll(z, rows);
    var order, buckets := FillBuckets(admitted);
    compacted := [];
    for n := 0 to |order|
      invariant compacted == Group(Fam(), Shrink(z), admitted, order[..n])
    {
      assert order[..n + 1][..n] == order[..n];
      var entries := MergeFamily(z, buckets[order[n]]);
      compacted := compacted + Tail(entries, z.maxRows);
    }
    assert order[..|order|] == order;
  }
}
