/** What compacting the root-cause ledger keeps: distinct pairs and its own fixed
    points. */
module LedgerCompaction {
  import opened Wrappers
  import opened Grouping
  import opened RootCauseLedger

  // ---- attempts filed once -------------------------------------------------

  /** No two rows state the same hypothesis for the same attempt. */
  ghost predicate PairsDistinct(z: Settings, rows: seq<Row>) {
    forall i, j :: 0 <= i < j < |rows| ==> !SamePair(z, rows[i], rows[j])
  }

  lemma {:induction false} PriorFacts(z: Settings, admitted: seq<Row>, r: Row)
    ensures var p := PriorOf(z, admitted, r);
            && (p.Some? ==> p.value in admitted && SamePair(z, p.value, r))
            && (p.None? ==> forall x :: x in admitted ==> !SamePair(z, x, r))
  {
    hide SamePair;
    if admitted != [] {
      var n := |admitted| - 1;
      PriorFacts(z, admitted[..n], r);
      assert admitted == admitted[..n] + [admitted[n]];
    }
  }

  /** With every pair filed once, the first phase admits each row as it is. */
  lemma {:induction false} LineageOfDistinct(z: Settings, rows: seq<Row>)
    requires PairsDistinct(z, rows)
    ensures Lineage(z, rows) == rows
  {
    hide SamePair;
    if rows != [] {
      var n := |rows| - 1;
      LineageOfDistinct(z, rows[..n]);
      PriorFacts(z, rows[..n], rows[n]);
      assert rows == rows[..n] + [rows[n]];
    }
  }

  // ---- compacting twice ----------------------------------------------------

  /** Rows of one family state different hypotheses. */
  ghost predicate Sorted(z: Settings, rows: seq<Row>) {
    forall i, j :: 0 <= i < j < |rows| && Fam()(rows[i]) == Fam()(rows[j]) ==> KeyOf(z, rows[i]) != KeyOf(z, rows[j])
  }

  /** A later row that shares its pair with an earlier one. */
  ghost predicate Shadowed(z: Settings, rows: seq<Row>, j: nat)
    requires j < |rows|
  {
    exists i :: 0 <= i < j && SamePair(z, rows[i], rows[j])
  }

  ghost function Demoted(z: Settings, rows: seq<Row>): seq<Row> {
    seq(|rows|, j requires 0 <= j < |rows| => if Shadowed(z, rows, j) then Zeroed(rows[j]) else rows[j])
  }

  lemma ZeroedPair(z: Settings, x: Row, r: Row)
    ensures SamePair(z, Zeroed(x), r) == SamePair(z, x, r) && SameLabels(Zeroed(x), r) == SameLabels(x, r)
    ensures SamePair(z, x, r) && SameLabels(x, r) ==> Fam()(x) == Fam()(r) && KeyOf(z, x) == KeyOf(z, r)
  {
  }

  /** On a sorted list the first phase drops nothing and demotes the shadowed rows. */
  lemma {:induction false} LineageOfSorted(z: Settings, rows: seq<Row>)
    requires Sorted(z, rows)
    ensures Lineage(z, rows) == Demoted(z, rows)
  {
    hide SamePair, KeyOf, Fam, Zeroed, SameLabels, Shadowed, Demoted;
    if rows == [] {
      NothingDemoted(z);
    } else {
      var n := |rows| - 1;
      var front, r := rows[..n], rows[n];
      LineageOfSorted(z, front);
      DemotedFront(z, rows);
      PriorInDemoted(z, rows);
    }
  }

  lemma NothingDemoted(z: Settings)
    ensures Demoted(z, []) == []
  {
  }

  lemma DemotedFront(z: Settings, rows: seq<Row>)
    requires rows != []
    ensures var n := |rows| - 1;
            Demoted(z, rows) == Demoted(z, rows[..n]) + [if Shadowed(z, rows, n) then Zeroed(rows[n]) else rows[n]]
  {
  }

  /** The newest row finds a prior exactly when it is shadowed, and never under the
      same labels. */
  lemma PriorInDemoted(z: Settings, rows: seq<Row>)
    requires rows != [] && Sorted(z, rows)
    ensures var n := |rows| - 1; var p := PriorOf(z, Demoted(z, rows[..n]), rows[n]);
            && (p.Some? <==> Shadowed(z, rows, n)) && (p.Some? ==> !SameLabels(p.value, rows[n]))
  {
    hide SamePair, KeyOf, Fam, Zeroed, SameLabels, Sorted;
    var n := |rows| - 1;
    var admitted, r := Demoted(z, rows[..n]), rows[n];
    PriorFacts(z, admitted, r);
    forall i | 0 <= i < n
      ensures admitted[i] in admitted && SamePair(z, admitted[i], r) == SamePair(z, rows[i], r)
      ensures SamePair(z, rows[i], r) ==> !SameLabels(admitted[i], r)
    {
      ZeroedPair(z, rows[i], r);
      SortedPair(z, rows, i);
    }
  }

  lemma SortedPair(z: Settings, rows: seq<Row>, i: nat)
    requires i < |rows| - 1 && Sorted(z, rows)
    ensures Fam()(rows[i]) == Fam()(rows[|rows| - 1]) ==> KeyOf(z, rows[i]) != KeyOf(z, rows[|rows| - 1])
  {
  }

  lemma {:induction false} SortedByBuckets(z: Settings, rows: seq<Row>)
    requires forall f :: KeysDistinct(z, Bucket(Fam(), rows, f))
    ensures Sorted(z, rows)
  {
    hide KeyOf, Fam, KeysDistinct;
    if rows != [] {
      var n := |rows| - 1;
      var front, r := rows[..n], rows[n];
      assert rows == front + [r];
      AppendShape(Fam(), front, r);
      forall f ensures KeysDistinct(z, Bucket(Fam(), front, f)) {
        assert KeysDistinct(z, Bucket(Fam(), rows, f));
        DistinctFront(z, Bucket(Fam(), front, f), r);
      }
      SortedByBuckets(z, front);
      var b := Bucket(Fam(), front, Fam()(r));
      assert KeysDistinct(z, Bucket(Fam(), rows, Fam()(r)));
      DistinctFront(z, b, r);
      BucketMembers(Fam(), front, Fam()(r));
      forall i | 0 <= i < n && Fam()(rows[i]) == Fam()(r) ensures KeyOf(z, rows[i]) != KeyOf(z, r) {
        assert front[i] in b;
      }
    }
  }

  lemma DistinctFront(z: Settings, xs: seq<Row>, r: Row)
    ensures KeysDistinct(z, xs + [r]) ==>
            KeysDistinct(z, xs) && forall x :: x in xs ==> KeyOf(z, x) != KeyOf(z, r)
  {
    hide KeyOf;
    if KeysDistinct(z, xs + [r]) {
      assert forall i :: 0 <= i < |xs| ==> (xs + [r])[i] == xs[i];
      forall x | x in xs ensures KeyOf(z, x) != KeyOf(z, r) {
        var i :| 0 <= i < |xs| && xs[i] == x;
        assert (xs + [r])[i] == x && (xs + [r])[|xs|] == r;
      }
    }
  }

  lemma {:induction false} BucketsOfSorted(z: Settings, rows: seq<Row>, f: string)
    requires Sorted(z, rows) && AllCounted(rows)
    ensures KeysDistinct(z, Bucket(Fam(), rows, f)) && AllCounted(Bucket(Fam(), rows, f))
  {
    hide KeyOf, Fam;
    if rows != [] {
      var n := |rows| - 1;
      BucketsOfSorted(z, rows[..n], f);
      BucketMembers(Fam(), rows[..n], f);
      var front := Bucket(Fam(), rows[..n], f);
      forall i | 0 <= i < |front| && Fam()(rows[n]) == f ensures KeyOf(z, front[i]) != KeyOf(z, rows[n]) {
        assert front[i] in rows[..n];
      }
    }
  }

  /** The shape of a compacted ledger. */
  ghost predicate Settled(z: Settings, rows: seq<Row>) {
    && Sorted(z, rows) && AllCounted(rows) && Contiguous(Fam(), rows)
    && forall f :: Tail(Bucket(Fam(), rows, f), z.maxRows) == Bucket(Fam(), rows, f)
  }

  lemma {:induction false} ShelveBucket(z: Settings, rows: seq<Row>, f: string)
    requires z.maxRows >= 0
    ensures var b := Bucket(Fam(), Shelve(z, rows), f);
            && b == Tail(Fold(z, Bucket(Fam(), rows, f)), z.maxRows)
            && KeysDistinct(z, b) && AllCounted(b) && Tail(b, z.maxRows) == b
  {
    hide KeyOf, Fam, Fold, Bucket, Families, Regroup, KeysDistinct, AllCounted;
    ShrinkFacts(z);
    RegroupShape(Fam(), Shrink(z), rows, f);
    FamiliesFacts(Fam(), rows);
    EmptyFold(z);
    ShrinkOnce(z, Bucket(Fam(), rows, f));
    TailFacts(Fold(z, Bucket(Fam(), rows, f)), z.maxRows);
  }

  lemma EmptyFold(z: Settings)
    ensures Fold(z, []) == [] && Tail<Row>([], z.maxRows) == []
  {
  }

  lemma {:induction false} CountedByBuckets(rows: seq<Row>)
    requires forall f :: AllCounted(Bucket(Fam(), rows, f))
    ensures AllCounted(rows)
  {
    hide Fam, Bucket;
    forall i | 0 <= i < |rows| ensures rows[i].attempts.Some? && rows[i].vacuous.Some? {
      var b := Bucket(Fam(), rows, Fam()(rows[i]));
      BucketMembers(Fam(), rows, Fam()(rows[i]));
      assert rows[i] in b;
      assert AllCounted(b);
    }
  }

  lemma {:induction false} ShelvedIsSettled(z: Settings, rows: seq<Row>)
    requires z.maxRows >= 0
    ensures Settled(z, Shelve(z, rows))
  {
    hide KeyOf, Fam, Fold, Bucket, Families, KeysDistinct, AllCounted, Tail, Contiguous, Shelve, Sorted;
    var c := Shelve(z, rows);
    forall f ensures KeysDistinct(z, Bucket(Fam(), c, f)) && AllCounted(Bucket(Fam(), c, f))
             ensures Tail(Bucket(Fam(), c, f), z.maxRows) == Bucket(Fam(), c, f) {
      ShelveBucket(z, rows, f);
    }
    SortedByBuckets(z, c);
    CountedByBuckets(c);
    ShelveContiguous(z, rows);
  }

  lemma {:induction false} ShelveContiguous(z: Settings, rows: seq<Row>)
    requires z.maxRows >= 0
    ensures Contiguous(Fam(), Shelve(z, rows))
  {
    hide Fam, Fold, Bucket, Families, Contiguous;
    ShrinkFacts(z);
    FamiliesFacts(Fam(), rows);
    GroupContiguous(Fam(), Shrink(z), rows, Families(Fam(), rows));
  }

  /** A settled ledger is what its own merging and truncating produce. */
  lemma {:induction false} ShelveSettled(z: Settings, rows: seq<Row>)
    requires z.maxRows >= 0 && Settled(z, rows)
    ensures Shelve(z, rows) == rows
  {
    hide KeyOf, Fam, Fold, Bucket, Families, Tail, Contiguous, Sorted, AllCounted, KeysDistinct, Regroup;
    forall f | f in Families(Fam(), rows) ensures Shrink(z)(Bucket(Fam(), rows, f)) == Bucket(Fam(), rows, f) {
      BucketsOfSorted(z, rows, f);
      FoldOfFolded(z, Bucket(Fam(), rows, f));
    }
    RegroupFixed(Fam(), Shrink(z), rows);
  }

  lemma DemotedPointwise(z: Settings, rows: seq<Row>, j: nat)
    requires j < |rows|
    ensures Fam()(Demoted(z, rows)[j]) == Fam()(rows[j]) && KeyOf(z, Demoted(z, rows)[j]) == KeyOf(z, rows[j])
    ensures rows[j].attempts.Some? && rows[j].vacuous.Some? ==>
              Demoted(z, rows)[j].attempts.Some? && Demoted(z, rows)[j].vacuous.Some?
  {
  }

  lemma {:induction false} DemotedParallel(z: Settings, rows: seq<Row>)
    ensures Parallel(Fam(), Demoted(z, rows), rows)
    ensures Contiguous(Fam(), rows) ==> Contiguous(Fam(), Demoted(z, rows))
    ensures Sorted(z, rows) ==> Sorted(z, Demoted(z, rows))
    ensures AllCounted(rows) ==> AllCounted(Demoted(z, rows))
  {
    hide KeyOf, Fam, Demoted;
    DemotedLength(z, rows);
    var d := Demoted(z, rows);
    forall j | 0 <= j < |rows|
      ensures Fam()(d[j]) == Fam()(rows[j]) && KeyOf(z, d[j]) == KeyOf(z, rows[j])
      ensures rows[j].attempts.Some? && rows[j].vacuous.Some? ==> d[j].attempts.Some? && d[j].vacuous.Some?
    {
      DemotedPointwise(z, rows, j);
    }
  }

  lemma DemotedLength(z: Settings, rows: seq<Row>)
    ensures |Demoted(z, rows)| == |rows|
  {
  }

  lemma DemotedSettled(z: Settings, rows: seq<Row>)
    requires z.maxRows >= 0 && Settled(z, rows)
    ensures Settled(z, Demoted(z, rows))
  {
    hide KeyOf, Fam, Bucket, Contiguous, Sorted, AllCounted, Demoted, Families;
    DemotedParallel(z, rows);
    forall f ensures Tail(Bucket(Fam(), Demoted(z, rows), f), z.maxRows) == Bucket(Fam(), Demoted(z, rows), f) {
      ParallelShape(Fam(), Demoted(z, rows), rows, f);
      SameTail(Bucket(Fam(), rows, f), Bucket(Fam(), Demoted(z, rows), f), z.maxRows);
    }
  }

  lemma SameTail<T>(xs: seq<T>, ys: seq<T>, n: int)
    requires n >= 0 && |xs| == |ys| && Tail(xs, n) == xs
    ensures Tail(ys, n) == ys
  {
  }

  /** Compacting a compacted ledger demotes every row that shares its attempt and
      hypothesis with an earlier one, and does nothing else. */
  lemma {:induction false} CompactTwice(z: Settings, rows: seq<Row>)
    requires z.maxRows >= 0
    ensures Compact(z, Compact(z, rows)) == Demoted(z, Compact(z, rows))
  {
    hide KeyOf, Shelve, Lineage, Sorted, Demoted, Contiguous, Bucket;
    ShelvedIsSettled(z, Lineage(z, rows));
    LineageOfSorted(z, Compact(z, rows));
    DemotedSettled(z, Compact(z, rows));
    ShelveSettled(z, Demoted(z, Compact(z, rows)));
  }

  // ---- replays -------------------------------------------------------------

  /** An entry the ledger already holds under the same labels. */
  ghost predicate Replays(z: Settings, ledger: seq<Row>, e: Row) {
    exists i :: 0 <= i < |ledger| && SamePair(z, ledger[i], e) && SameLabels(ledger[i], e)
  }
}
