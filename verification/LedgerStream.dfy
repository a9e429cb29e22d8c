/** The root-cause ledger as the evaluator keeps it: compacted, extended by the
    entries of a cycle, and compacted again. */
module LedgerStream {
  import opened Wrappers
  import opened Grouping
  import opened RootCauseLedger
  import opened LedgerCompaction
  import opened LedgerVerdict
  import opened LedgerHistory
  import opened LedgerTruncation

  // ---- pairs stay distinct -------------------------------------------------

  /** Every shelved entry repeats the newest row of its group. */
  lemma {:induction false} ShelfEcho(z: Settings, rows: seq<Row>, u: Row) returns (m: nat)
    requires z.maxRows >= 0 && u in Shelve(z, rows)
    ensures Newest(z, rows, m) && Echoes(u, rows[m])
  {
    hide KeyOf, Fam, Fold, Shelve, Echoes, Bucket, Newest, KeysDistinct, AllCounted;
    var f := Fam()(u);
    var b := Bucket(Fam(), rows, f);
    ShelveBucket(z, rows, f);
    BucketMembers(Fam(), Shelve(z, rows), f);
    TailFacts(Fold(z, b), z.maxRows);
    var i :| 0 <= i < |Fold(z, b)| && Fold(z, b)[i] == u;
    var j := FoldNewest(z, b, i);
    EchoKey(z, u, b[j]);
    m := NewestPlace(z, rows, f, j);
  }

  lemma PairEcho(z: Settings, u: Row, v: Row, r: Row, s: Row)
    requires Echoes(u, r) && Echoes(v, s)
    ensures SamePair(z, u, v) == SamePair(z, r, s) == SamePair(z, u, s)
  {
  }

  lemma PairTurns(z: Settings, u: Row, v: Row)
    ensures SamePair(z, u, v) == SamePair(z, v, u)
  {
  }

  /** Filing rows whose pairs are distinct leaves the entries' pairs distinct. */
  lemma {:induction false} ShelfPairs(z: Settings, rows: seq<Row>)
    requires z.maxRows >= 0 && PairsDistinct(z, rows)
    ensures PairsDistinct(z, Shelve(z, rows))
  {
    hide KeyOf, Fam, Shelve, Echoes, SamePair, Contiguous;
    var c := Shelve(z, rows);
    ShelvedIsSettled(z, rows);
    forall i, j | 0 <= i < j < |c| ensures !SamePair(z, c[i], c[j]) {
      var k := ShelfEcho(z, rows, c[i]);
      var m := ShelfEcho(z, rows, c[j]);
      PairEcho(z, c[i], c[j], rows[k], rows[m]);
      PairTurns(z, rows[k], rows[m]);
      EchoKey(z, c[i], rows[k]);
      EchoKey(z, c[j], rows[m]);
    }
  }

  /** No attempt's hypothesis is ever relabelled: a repeated pair is a replay. */
  ghost predicate Consistent(z: Settings, rows: seq<Row>) {
    forall i, j :: 0 <= i < j < |rows| && SamePair(z, rows[i], rows[j]) ==> SameLabels(rows[i], rows[j])
  }

  /** Then the first phase only drops replays. */
  lemma {:induction false} AdmittedDistinct(z: Settings, rows: seq<Row>)
    requires Consistent(z, rows)
    ensures PairsDistinct(z, Lineage(z, rows)) && forall x :: x in Lineage(z, rows) ==> x in rows
  {
    hide SamePair, SameLabels, Zeroed;
    if rows != [] {
      var n := |rows| - 1;
      var a, r := Lineage(z, rows[..n]), rows[n];
      AdmittedDistinct(z, rows[..n]);
      PriorFacts(z, a, r);
      assert rows == rows[..n] + [r];
      var p := PriorOf(z, a, r);
      if p.Some? {
        assert p.value in rows[..n];
        var i :| 0 <= i < n && rows[..n][i] == p.value;
        assert rows[i] == p.value;
      }
    }
  }

  /** Compaction is stable exactly when each row that shares its pair with an earlier
      one already is a zeroed correction; in particular on every history in which no
      attempt's hypothesis is relabelled. */
  lemma {:induction false} CompactStableIff(z: Settings, rows: seq<Row>)
    requires z.maxRows >= 0
    ensures var c := Compact(z, rows);
            && (Compact(z, c) == c <==> forall j :: 0 <= j < |c| && Shadowed(z, c, j) ==> Zeroed(c[j]) == c[j])
            && (Consistent(z, rows) ==> PairsDistinct(z, c) && Compact(z, c) == c)
  {
    hide KeyOf, Compact, SamePair, Zeroed, Consistent;
    CompactTwice(z, rows);
    var c := Compact(z, rows);
    if forall j :: 0 <= j < |c| && Shadowed(z, c, j) ==> Zeroed(c[j]) == c[j] {
      assert Demoted(z, c) == c;
    } else {
      var j :| 0 <= j < |c| && Shadowed(z, c, j) && Zeroed(c[j]) != c[j];
      assert Demoted(z, c)[j] != c[j];
    }
    if Consistent(z, rows) { CompactPairs(z, rows); }
  }

  lemma CompactPairs(z: Settings, rows: seq<Row>)
    requires z.maxRows >= 0 && Consistent(z, rows)
    ensures PairsDistinct(z, Compact(z, rows))
  {
    AdmittedDistinct(z, rows);
    ShelfPairs(z, Lineage(z, rows));
  }

  // ---- appending to a shelf ------------------------------------------------

  /** The row's hypothesis is new to its family, or within the bound. */
  predicate Open(z: Settings, rows: seq<Row>, r: Row) {
    Listed(z, rows, Fam()(r), KeyOf(z, r)) ==> Kept(z, rows, r)
  }

  lemma AbsorbApart(z: Settings, d: seq<Row>, xs: seq<Row>, r: Row)
    requires !Holds(z, d, KeyOf(z, r))
    ensures Absorb(z, d + xs, r) == d + Absorb(z, xs, r)
  {
    hide KeyOf, Merge, Fresh;
    var ys := d + xs;
    assert forall i :: 0 <= i < |d| ==> ys[i] == d[i];
    assert forall i :: 0 <= i < |xs| ==> ys[|d| + i] == xs[i];
    if Holds(z, xs, KeyOf(z, r)) {
      var i :| 0 <= i < |xs| && KeyOf(z, xs[i]) == KeyOf(z, r);
      assert KeyOf(z, ys[|d| + i]) == KeyOf(z, r);
      assert Rewrite(Merger(z, r), d) == d;
      RewriteConcat(Merger(z, r), d, xs);
    } else {
      assert !Holds(z, ys, KeyOf(z, r));
    }
  }

  /** Entries no later row touches stay in front. */
  lemma {:induction false} FoldApart(z: Settings, xs: seq<Row>, d: seq<Row>, t: seq<Row>, ys: seq<Row>)
    requires Fold(z, xs) == d + t && forall i :: 0 <= i < |ys| ==> !Holds(z, d, KeyOf(z, ys[i]))
    ensures Fold(z, xs + ys) == d + Fold(z, t + ys)
    decreases |ys|
  {
    hide KeyOf, Fold, Absorb, Holds;
    if ys == [] {
      FoldFacts(z, xs);
      TailOfFold(z, d, t);
      FoldOfFolded(z, t);
      assert xs + ys == xs && t + ys == t;
    } else {
      var n := |ys| - 1;
      FoldApart(z, xs, d, t, ys[..n]);
      assert xs + ys == (xs + ys[..n]) + [ys[n]] && t + ys == (t + ys[..n]) + [ys[n]];
      FoldStep(z, xs + ys[..n], ys[n]);
      FoldStep(z, t + ys[..n], ys[n]);
      AbsorbApart(z, d, Fold(z, t + ys[..n]), ys[n]);
    }
  }

  lemma TailOfFold(z: Settings, d: seq<Row>, t: seq<Row>)
    requires KeysDistinct(z, d + t) && AllCounted(d + t)
    ensures KeysDistinct(z, t) && AllCounted(t)
  {
    hide KeyOf;
    assert forall i :: 0 <= i < |t| ==> (d + t)[|d| + i] == t[i];
  }

  lemma FoldGrows(z: Settings, t: seq<Row>, ys: seq<Row>)
    requires KeysDistinct(z, t) && AllCounted(t)
    ensures |Fold(z, t + ys)| >= |t|
    decreases |ys|
  {
    hide KeyOf, Fold;
    if ys == [] {
      assert t + ys == t;
      FoldOfFolded(z, t);
    } else {
      var n := |ys| - 1;
      FoldGrows(z, t, ys[..n]);
      assert t + ys == (t + ys[..n]) + [ys[n]];
      FoldStep(z, t + ys[..n], ys[n]);
    }
  }

  lemma TailPast<T>(d: seq<T>, xs: seq<T>, n: int)
    requires n >= 0 && (d == [] || (n > 0 && |xs| >= n))
    ensures Tail(d + xs, n) == Tail(xs, n)
  {
    if d == [] {
      assert d + xs == xs;
    } else {
      assert (d + xs)[|d + xs| - n..] == xs[|xs| - n..];
    }
  }

  /** Shrinking a family first and appending to it later gives the same, if no
      appended row belongs to a hypothesis the bound has dropped. */
  lemma {:induction false} ShrinkAppend(z: Settings, b: seq<Row>, ys: seq<Row>)
    requires z.maxRows >= 0
    requires forall i :: 0 <= i < |ys| ==> !Holds(z, Front(Fold(z, b), z.maxRows), KeyOf(z, ys[i]))
    ensures Tail(Fold(z, Tail(Fold(z, b), z.maxRows) + ys), z.maxRows) == Tail(Fold(z, b + ys), z.maxRows)
  {
    hide KeyOf, Fold, Holds;
    var d, t := Front(Fold(z, b), z.maxRows), Tail(Fold(z, b), z.maxRows);
    SplitAtTail(Fold(z, b), z.maxRows);
    FoldApart(z, b, d, t, ys);
    FoldFacts(z, b);
    TailOfFold(z, d, t);
    FoldGrows(z, t, ys);
    TailPast(d, Fold(z, t + ys), z.maxRows);
  }

  lemma {:induction false} DroppedIff(z: Settings, rows: seq<Row>, r: Row)
    requires z.maxRows >= 0
    ensures Holds(z, Front(Fold(z, Bucket(Fam(), rows, Fam()(r))), z.maxRows), KeyOf(z, r)) <==> !Open(z, rows, r)
    ensures Holds(z, Tail(Fold(z, Bucket(Fam(), rows, Fam()(r))), z.maxRows), KeyOf(z, r)) <==>
            Listed(z, rows, Fam()(r), KeyOf(z, r)) && Kept(z, rows, r)
  {
    hide KeyOf, Fam, Fold, Bucket, Kept, Listed, Tail;
    var f, k := Fam()(r), KeyOf(z, r);
    var b := Bucket(Fam(), rows, f);
    var xs := Fold(z, b);
    var m := |xs| - |Tail(xs, z.maxRows)|;
    TailFacts(xs, z.maxRows);
    ListedIff(z, rows, f, k);
    FoldFacts(z, b);
    BucketUniform(Fam(), rows, f);
    FoldFamily(z, b, f);
    if Holds(z, xs, k) {
      var i :| 0 <= i < |xs| && KeyOf(z, xs[i]) == k;
      KeptByPlace(z, rows, xs[i], i);
      KeptByGroup(z, rows, xs[i], r);
      assert i < m ==> xs[..m][i] == xs[i];
      assert i >= m ==> xs[m..][i - m] == xs[i];
    }
    if j :| 0 <= j < m && KeyOf(z, xs[..m][j]) == k { assert KeyOf(z, xs[j]) == k; }
    if j :| 0 <= j < |xs| - m && KeyOf(z, xs[m..][j]) == k { assert KeyOf(z, xs[m + j]) == k; }
  }

  lemma {:induction false} FamiliesTogether(xs: seq<Row>, ys: seq<Row>, zs: seq<Row>)
    requires Families(Fam(), xs) == Families(Fam(), ys)
    ensures Families(Fam(), xs + zs) == Families(Fam(), ys + zs)
    decreases |zs|
  {
    hide Fam, Families;
    if zs == [] {
      assert xs + zs == xs && ys + zs == ys;
    } else {
      var n := |zs| - 1;
      FamiliesTogether(xs, ys, zs[..n]);
      assert xs + zs == (xs + zs[..n]) + [zs[n]] && ys + zs == (ys + zs[..n]) + [zs[n]];
      AppendShape(Fam(), xs + zs[..n], zs[n]);
      AppendShape(Fam(), ys + zs[..n], zs[n]);
    }
  }

  /** Appending open rows to a shelf is appending them to what was shelved. */
  lemma {:induction false} ShelveAppend(z: Settings, a: seq<Row>, ys: seq<Row>)
    requires z.maxRows >= 0 && forall i :: 0 <= i < |ys| ==> Open(z, a, ys[i])
    ensures Shelve(z, Shelve(z, a) + ys) == Shelve(z, a + ys)
  {
    hide KeyOf, Fam, Fold, Bucket, Families, Open, Tail, Front, Shelve, Group;
    var c := Shelve(z, a);
    ShelfFamilies(z, a);
    FamiliesTogether(c, a, ys);
    forall f ensures Shrink(z)(Bucket(Fam(), c + ys, f)) == Shrink(z)(Bucket(Fam(), a + ys, f)) {
      ShelveBucket(z, a, f);
      BucketConcat(Fam(), c, ys, f);
      BucketConcat(Fam(), a, ys, f);
      var b, part := Bucket(Fam(), a, f), Bucket(Fam(), ys, f);
      BucketMembers(Fam(), ys, f);
      forall i | 0 <= i < |part| ensures !Holds(z, Front(Fold(z, b), z.maxRows), KeyOf(z, part[i])) {
        assert part[i] in part;
        var j :| 0 <= j < |ys| && ys[j] == part[i];
        DroppedIff(z, a, ys[j]);
      }
      ShrinkAppend(z, b, part);
      HeadMeans(z, Bucket(Fam(), c + ys, f));
      HeadMeans(z, Bucket(Fam(), a + ys, f));
    }
    ShelveMeans(z, c + ys);
    ShelveMeans(z, a + ys);
    GroupCongruence(Fam(), Shrink(z), c + ys, a + ys, Families(Fam(), a + ys));
  }

  lemma ShelveMeans(z: Settings, rows: seq<Row>)
    ensures Shelve(z, rows) == Group(Fam(), Shrink(z), rows, Families(Fam(), rows))
  {
  }

  lemma ShelfFamilies(z: Settings, a: seq<Row>)
    requires z.maxRows >= 0
    ensures Families(Fam(), Shelve(z, a)) == Families(Fam(), a)
  {
    hide Fam, Shrink, Families, Regroup;
    ShrinkFacts(z);
    RegroupShape(Fam(), Shrink(z), a, "");
  }

  /** The shelf lists a hypothesis exactly when it was listed and is kept. */
  lemma {:induction false} ShelfLists(z: Settings, rows: seq<Row>, r: Row)
    requires z.maxRows >= 0
    ensures Listed(z, Shelve(z, rows), Fam()(r), KeyOf(z, r)) <==>
            Listed(z, rows, Fam()(r), KeyOf(z, r)) && Kept(z, rows, r)
  {
    hide KeyOf, Fam, Fold, Bucket, Kept, Listed, Tail, Shelve;
    var f := Fam()(r);
    ShelveBucket(z, rows, f);
    ListedIff(z, Shelve(z, rows), f, KeyOf(z, r));
    FoldOfFolded(z, Bucket(Fam(), Shelve(z, rows), f));
    DroppedIff(z, rows, r);
  }

  lemma {:induction false} LastAppears(z: Settings, rows: seq<Row>, r: Row)
    requires !Listed(z, rows, Fam()(r), KeyOf(z, r))
    ensures Later(z, rows + [r], Fam()(r), KeyOf(z, r)) == {} && Listed(z, rows + [r], Fam()(r), KeyOf(z, r))
  {
    hide KeyOf, Fam;
    NothingLater(z, rows, Fam()(r), KeyOf(z, r));
    assert (rows + [r])[..|rows|] == rows && (rows + [r])[|rows|] == r;
  }

  /** A hypothesis that is new to the shelf is on it afterwards. */
  lemma {:induction false} NewIsShelved(z: Settings, rows: seq<Row>, r: Row)
    requires z.maxRows >= 0 && !Listed(z, rows, Fam()(r), KeyOf(z, r))
    ensures Listed(z, Shelve(z, rows + [r]), Fam()(r), KeyOf(z, r))
  {
    hide KeyOf, Fam, Listed, Shelve, Later;
    LastAppears(z, rows, r);
    ShelfLists(z, rows + [r], r);
  }

  // ---- replaying a cycle ---------------------------------------------------

  lemma {:induction false} LastOfGroup(z: Settings, h: seq<Row>, entries: seq<Row>, t: string, i: nat)
    requires PairsDistinct(z, h + entries) && i < |entries| && t != ""
    requires forall j :: 0 <= j < |entries| ==> entries[j].attempt == t
    ensures Newest(z, h + entries, |h| + i)
  {
    hide KeyOf, Fam;
    var rows := h + entries;
    forall k | |h| + i < k < |rows| ensures !SameGroup(z, rows[k], rows[|h| + i]) {
      assert !SamePair(z, rows[|h| + i], rows[k]);
      assert rows[k] == entries[k - |h|] && rows[|h| + i] == entries[i];
    }
  }

  /** The entries of a cycle whose hypotheses the bound has dropped. */
  function Unheard(z: Settings, rows: seq<Row>, entries: seq<Row>): seq<Row> {
    if entries == [] then []
    else
      var n := |entries| - 1;
      Unheard(z, rows, entries[..n]) + if Kept(z, rows, entries[n]) then [] else [entries[n]]
  }

  lemma {:induction false} UnheardFrom(z: Settings, rows: seq<Row>, entries: seq<Row>)
    ensures forall x :: x in Unheard(z, rows, entries) <==> x in entries && !Kept(z, rows, x)
  {
    hide Kept;
    if entries != [] {
      var n := |entries| - 1;
      UnheardFrom(z, rows, entries[..n]);
      assert entries == entries[..n] + [entries[n]];
    }
  }

  /** A kept entry of the last cycle is still there, under its own labels. */
  lemma {:induction false} KeptReplays(z: Settings, rows: seq<Row>, m: nat)
    requires z.maxRows >= 0 && PairsDistinct(z, rows) && Newest(z, rows, m) && rows[m].attempt != ""
    ensures Kept(z, rows, rows[m]) ==> Replays(z, Shelve(z, rows), rows[m])
    ensures !Kept(z, rows, rows[m]) ==> forall u :: u in Shelve(z, rows) ==> !SamePair(z, u, rows[m])
    ensures !Kept(z, rows, rows[m]) ==> !Listed(z, Shelve(z, rows), Fam()(rows[m]), KeyOf(z, rows[m]))
  {
    hide KeyOf, Fam, Shelve, Kept, Echoes, Newest, SameLabels;
    NewestInRows(z, rows, m);
    var r, c := rows[m], Shelve(z, rows);
    ShelfLists(z, rows, r);
    if Kept(z, rows, r) {
      assert Listed(z, rows, Fam()(r), KeyOf(z, r));
      var i :| 0 <= i < |c| && Fam()(c[i]) == Fam()(r) && KeyOf(z, c[i]) == KeyOf(z, r);
      var k := ShelfEcho(z, rows, c[i]);
      NewestInRows(z, rows, k);
      EchoKey(z, c[i], rows[k]);
      OneNewest(z, rows, k, m);
      EchoLabels(z, c[i], r);
    } else {
      forall u | u in c ensures !SamePair(z, u, r) {
        var k := ShelfEcho(z, rows, u);
        NewestInRows(z, rows, k);
        PairEchoOne(z, u, rows[k], r);
        EchoKey(z, u, rows[k]);
        if SamePair(z, u, r) { SameRow(z, rows, k, m); }
      }
    }
  }

  lemma EchoLabels(z: Settings, u: Row, r: Row)
    requires Echoes(u, r) && r.attempt != ""
    ensures SamePair(z, u, r) && SameLabels(u, r)
  {
  }

  lemma PairEchoOne(z: Settings, u: Row, r: Row, s: Row)
    requires Echoes(u, r)
    ensures SamePair(z, u, s) == SamePair(z, r, s)
  {
  }

  lemma SameRow(z: Settings, rows: seq<Row>, k: nat, m: nat)
    requires PairsDistinct(z, rows) && k < |rows| && m < |rows| && SamePair(z, rows[k], rows[m])
    ensures k == m
  {
  }

  lemma {:induction false} PairsFront(z: Settings, h: seq<Row>, entries: seq<Row>)
    requires PairsDistinct(z, h + entries)
    ensures forall i, j :: 0 <= i < j < |entries| ==> !SamePair(z, entries[i], entries[j])
  {
    hide SamePair;
    var rows := h + entries;
    forall i, j | 0 <= i < j < |entries| ensures !SamePair(z, entries[i], entries[j]) {
      assert rows[|h| + i] == entries[i] && rows[|h| + j] == entries[j];
    }
  }

  /** Replayed onto the compacted ledger, a cycle adds exactly its unheard entries. */
  lemma {:induction false} LineageOfCycle(z: Settings, h: seq<Row>, entries: seq<Row>, t: string, n: nat)
    requires z.maxRows >= 0 && PairsDistinct(z, h + entries) && t != "" && n <= |entries|
    requires forall j :: 0 <= j < |entries| ==> entries[j].attempt == t
    ensures var rows := h + entries; var u := Unheard(z, rows, entries[..n]);
            Lineage(z, Shelve(z, rows) + entries[..n]) == Shelve(z, rows) + u
  {
    hide KeyOf, Fam, Shelve, Kept, SamePair, SameLabels, Newest, Replays, PairsDistinct, Admit, Unheard;
    var rows := h + entries;
    var c := Shelve(z, rows);
    ShelfPairs(z, rows);
    if n == 0 {
      LineageOfDistinct(z, c);
      assert c + entries[..0] == c && Unheard(z, rows, entries[..0]) == [] by { NoneUnheard(z, rows, entries[..0]); }
    } else {
      LineageOfCycle(z, h, entries, t, n - 1);
      UnheardStep(z, rows, entries, n);
      AdmitEntry(z, h, entries, t, n);
      var e, front := entries[n - 1], entries[..n - 1];
      assert c + entries[..n] == (c + front) + [e];
      LineageStep(z, c + front, e);
      assert c + (Unheard(z, rows, front) + [e]) == (c + Unheard(z, rows, front)) + [e];
    }
  }

  lemma NoneUnheard(z: Settings, rows: seq<Row>, entries: seq<Row>)
    requires entries == []
    ensures Unheard(z, rows, entries) == []
  {
  }

  lemma UnheardStep(z: Settings, rows: seq<Row>, entries: seq<Row>, n: nat)
    requires 0 < n <= |entries|
    ensures Unheard(z, rows, entries[..n])
         == Unheard(z, rows, entries[..n - 1]) + if Kept(z, rows, entries[n - 1]) then [] else [entries[n - 1]]
  {
    assert entries[..n][..n - 1] == entries[..n - 1];
  }

  lemma LineageStep(z: Settings, xs: seq<Row>, r: Row)
    ensures Lineage(z, xs + [r]) == Admit(z, Lineage(z, xs), r)
  {
    assert (xs + [r])[..|xs|] == xs;
  }

  lemma {:induction false} AdmitEntry(z: Settings, h: seq<Row>, entries: seq<Row>, t: string, n: nat)
    requires z.maxRows >= 0 && PairsDistinct(z, h + entries) && t != "" && 0 < n <= |entries|
    requires forall j :: 0 <= j < |entries| ==> entries[j].attempt == t
    ensures var rows := h + entries; var u := Unheard(z, rows, entries[..n - 1]);
              Admit(z, Shelve(z, rows) + u, entries[n - 1])
              == Shelve(z, rows) + u + if Kept(z, rows, entries[n - 1]) then [] else [entries[n - 1]]
  {
    hide KeyOf, Fam, Shelve, Kept, SamePair, SameLabels, Newest, Replays, PairsDistinct, Admit, Unheard;
    var rows, e, front := h + entries, entries[n - 1], entries[..n - 1];
    ShelfPairs(z, rows);
    LastOfGroup(z, h, entries, t, n - 1);
    assert rows[|h| + n - 1] == e;
    KeptReplays(z, rows, |h| + n - 1);
    UnheardFrom(z, rows, front);
    PairsFront(z, h, entries);
    forall x | x in Unheard(z, rows, front) ensures !SamePair(z, x, e) {
      var i :| 0 <= i < n - 1 && front[i] == x;
      assert entries[i] == x;
    }
    AdmitBeside(z, Shelve(z, rows), Unheard(z, rows, front), e);
  }

  lemma {:induction false} AdmitBeside(z: Settings, c: seq<Row>, added: seq<Row>, e: Row)
    requires PairsDistinct(z, c) && forall x :: x in added ==> !SamePair(z, x, e)
    ensures Replays(z, c, e) ==> Admit(z, c + added, e) == c + added
    ensures (forall u :: u in c ==> !SamePair(z, u, e)) ==> Admit(z, c + added, e) == c + added + [e]
  {
    hide KeyOf, SameLabels;
    PriorFacts(z, c + added, e);
    if Replays(z, c, e) {
      var i :| 0 <= i < |c| && SamePair(z, c[i], e) && SameLabels(c[i], e);
      assert (c + added)[i] == c[i];
      var p := PriorOf(z, c + added, e).value;
      assert p in c;
      var j :| 0 <= j < |c| && c[j] == p;
      assert i == j;
    }
  }

  /** Re-appending the entries of the last cycle changes nothing exactly when the
      bound still holds the hypotheses of all of them; so always where nothing is
      truncated. */
  lemma {:induction false} ReplayIff(z: Settings, h: seq<Row>, entries: seq<Row>, t: string)
    requires z.maxRows >= 0 && PairsDistinct(z, h + entries) && t != ""
    requires forall j :: 0 <= j < |entries| ==> entries[j].attempt == t
    ensures var rows := h + entries;
            Compact(z, Compact(z, rows) + entries) == Compact(z, rows) <==>
              forall j :: 0 <= j < |entries| ==> Kept(z, rows, entries[j])
  {
    hide KeyOf, Fam, Shelve, Kept, PairsDistinct, Lineage, Settled, Unheard;
    var rows := h + entries;
    LineageOfDistinct(z, rows);
    var c := Shelve(z, rows);
    LineageOfCycle(z, h, entries, t, |entries|);
    assert entries[..|entries|] == entries;
    UnheardFrom(z, rows, entries);
    var u := Unheard(z, rows, entries);
    if u == [] {
      assert c + u == c;
      ShelvedIsSettled(z, rows);
      ShelveSettled(z, c);
      forall j | 0 <= j < |entries| ensures Kept(z, rows, entries[j]) { assert entries[j] in entries; }
    } else {
      assert u[0] in u;
      UnheardShows(z, h, entries, t);
    }
  }

  lemma {:induction false} UnheardShows(z: Settings, h: seq<Row>, entries: seq<Row>, t: string)
    requires z.maxRows >= 0 && PairsDistinct(z, h + entries) && t != ""
    requires forall j :: 0 <= j < |entries| ==> entries[j].attempt == t
    requires Unheard(z, h + entries, entries) != []
    ensures var c := Shelve(z, h + entries); Shelve(z, c + Unheard(z, h + entries, entries)) != c
  {
    hide KeyOf, Fam, Shelve, Kept, Newest, Replays, PairsDistinct, Unheard, Listed, SameGroup;
    var rows := h + entries;
    var c, u := Shelve(z, rows), Unheard(z, rows, entries);
    var n := |u| - 1;
    UnheardFrom(z, rows, entries);
    assert u[n] in u;
    var j :| 0 <= j < |entries| && entries[j] == u[n];
    LastOfGroup(z, h, entries, t, j);
    assert rows[|h| + j] == u[n];
    KeptReplays(z, rows, |h| + j);
    UnheardApart(z, h, entries, t, |entries|);
    assert entries[..|entries|] == entries;
    NotListed(z, c, u[..n], u[n]);
    NewIsShelved(z, c + u[..n], u[n]);
    assert c + u == (c + u[..n]) + [u[n]];
  }

  lemma NotListed(z: Settings, c: seq<Row>, xs: seq<Row>, e: Row)
    requires !Listed(z, c, Fam()(e), KeyOf(z, e)) && forall x :: x in xs ==> !SameGroup(z, x, e)
    ensures !Listed(z, c + xs, Fam()(e), KeyOf(z, e))
  {
    hide KeyOf, Fam;
    forall i | 0 <= i < |c + xs| ensures !(Fam()((c + xs)[i]) == Fam()(e) && KeyOf(z, (c + xs)[i]) == KeyOf(z, e)) {
      if i < |c| { assert (c + xs)[i] == c[i]; } else { assert (c + xs)[i] == xs[i - |c|] && xs[i - |c|] in xs; }
    }
  }

  lemma {:induction false} UnheardApart(z: Settings, h: seq<Row>, entries: seq<Row>, t: string, n: nat)
    requires PairsDistinct(z, h + entries) && t != "" && n <= |entries|
    requires forall j :: 0 <= j < |entries| ==> entries[j].attempt == t
    ensures var u := Unheard(z, h + entries, entries[..n]);
            forall i, j :: 0 <= i < j < |u| ==> !SameGroup(z, u[i], u[j])
  {
    hide KeyOf, Fam, Kept, Unheard;
    if n == 0 {
      NoneUnheard(z, h + entries, entries[..n]);
    } else {
      UnheardApart(z, h, entries, t, n - 1);
      UnheardFrom(z, h + entries, entries[..n - 1]);
      UnheardStep(z, h + entries, entries, n);
      PairsFront(z, h, entries);
      var u := Unheard(z, h + entries, entries[..n - 1]);
      forall i | 0 <= i < |u| ensures !SameGroup(z, u[i], entries[n - 1]) {
        assert u[i] in u;
        var k :| 0 <= k < n - 1 && entries[..n - 1][k] == u[i];
        assert entries[k] == u[i] && !SamePair(z, entries[k], entries[n - 1]);
      }
    }
  }

  // ---- one more row --------------------------------------------------------

  lemma LaterListed(z: Settings, rows: seq<Row>, r: Row)
    requires Listed(z, rows, Fam()(r), KeyOf(z, r))
    ensures Listed(z, rows + [r], Fam()(r), KeyOf(z, r)) && Kept(z, rows + [r], r) == Kept(z, rows, r)
  {
    hide KeyOf, Fam;
    assert (rows + [r])[..|rows|] == rows;
    var i :| 0 <= i < |rows| && Fam()(rows[i]) == Fam()(r) && KeyOf(z, rows[i]) == KeyOf(z, r);
    assert (rows + [r])[i] == rows[i];
  }

  /** A row appended to a shelf shows on it. */
  lemma {:induction false} AppendShows(z: Settings, a: seq<Row>, e: Row) returns (w: Row)
    requires z.maxRows >= 0
    ensures w in Shelve(z, Shelve(z, a) + [e]) && Echoes(w, e)
  {
    hide KeyOf, Fam, Shelve, Kept, Echoes, Newest, Settled;
    var c := Shelve(z, a);
    ShelvedIsSettled(z, a);
    ShelveSettled(z, c);
    ShelfLists(z, c, e);
    if Listed(z, c, Fam()(e), KeyOf(z, e)) {
      LaterListed(z, c, e);
      ShelfLists(z, c + [e], e);
    } else {
      NewIsShelved(z, c, e);
    }
    var s := Shelve(z, c + [e]);
    var i :| 0 <= i < |s| && Fam()(s[i]) == Fam()(e) && KeyOf(z, s[i]) == KeyOf(z, e);
    w := s[i];
    EchoesLast(z, c, e, w);
  }

  lemma {:induction false} EchoesLast(z: Settings, rows: seq<Row>, e: Row, w: Row)
    requires z.maxRows >= 0 && w in Shelve(z, rows + [e]) && SameGroup(z, w, e)
    ensures Echoes(w, e)
  {
    hide KeyOf, Fam, Shelve, Echoes;
    var m := ShelfEcho(z, rows + [e], w);
    EchoKey(z, w, (rows + [e])[m]);
    assert (rows + [e])[|rows|] == e;
  }

  /** Appending a row whose hypothesis the bound has dropped is not the same before
      and after shelving. */
  lemma {:induction false} ClosedDiffers(z: Settings, a: seq<Row>, e: Row)
    requires z.maxRows >= 0 && !Open(z, a, e)
    ensures Shelve(z, Shelve(z, a) + [e]) != Shelve(z, a + [e])
  {
    hide KeyOf, Fam, Shelve, Kept, Echoes;
    var w := AppendShows(z, a, e);
    EchoKey(z, w, e);
    LaterListed(z, a, e);
    ShelfLists(z, a + [e], e);
    var s := Shelve(z, Shelve(z, a) + [e]);
    var i :| 0 <= i < |s| && s[i] == w;
    assert Listed(z, s, Fam()(e), KeyOf(z, e));
  }

  lemma {:induction false} OpenIff(z: Settings, a: seq<Row>, e: Row)
    requires z.maxRows >= 0
    ensures Shelve(z, Shelve(z, a) + [e]) == Shelve(z, a + [e]) <==> Open(z, a, e)
  {
    hide KeyOf, Fam, Shelve, Open;
    if Open(z, a, e) { ShelveAppend(z, a, [e]); } else { ClosedDiffers(z, a, e); }
  }

  /** A row names this attempt and hypothesis. */
  ghost predicate Records(z: Settings, rows: seq<Row>, m: int, e: Row) {
    0 <= m < |rows| && SamePair(z, rows[m], e)
  }

  /** A recorded row still speaks for its hypothesis, within the bound. */
  ghost predicate Speaking(z: Settings, a: seq<Row>, m: int) {
    Newest(z, a, m) && Kept(z, a, a[m])
  }

  /** On a shelf of distinct pairs, a row finds its recorded pair exactly when that
      row still speaks, and under the same labels. */
  lemma {:induction false} ShelfRecords(z: Settings, a: seq<Row>, m: nat, e: Row)
    requires z.maxRows >= 0 && PairsDistinct(z, a) && Records(z, a, m, e)
    ensures var p := PriorOf(z, Shelve(z, a), e);
            && (p.Some? <==> Speaking(z, a, m)) && (p.Some? ==> SameLabels(p.value, e) == SameLabels(a[m], e))
  {
    hide KeyOf, Fam, Shelve, Kept, Echoes, Newest, SameLabels, PairsDistinct;
    var c := Shelve(z, a);
    PriorFacts(z, c, e);
    if Speaking(z, a, m) {
      KeptReplays(z, a, m);
      var i :| 0 <= i < |c| && SamePair(z, c[i], a[m]) && SameLabels(c[i], a[m]);
      assert c[i] in c && SamePair(z, c[i], e);
    }
    var p := PriorOf(z, c, e);
    if p.Some? {
      var k := ShelfEcho(z, a, p.value);
      NewestInRows(z, a, k);
      PairEchoOne(z, p.value, a[k], e);
      SamePairs3(z, a[k], a[m], e);
      SameRow(z, a, k, m);
      EchoSame(p.value, a[m], e);
      ShelfLists(z, a, a[m]);
      EchoKey(z, p.value, a[m]);
      var i :| 0 <= i < |c| && c[i] == p.value;
      assert Listed(z, c, Fam()(a[m]), KeyOf(z, a[m]));
    }
  }

  lemma SamePairs3(z: Settings, x: Row, y: Row, e: Row)
    requires SamePair(z, x, e) && SamePair(z, y, e)
    ensures SamePair(z, x, y)
  {
  }

  lemma EchoSame(u: Row, r: Row, e: Row)
    requires Echoes(u, r)
    ensures SameLabels(u, e) == SameLabels(r, e)
  {
  }

  /** What makes a new row welcome to the compacted ledger. A row of a known attempt
      must find its record still speaking; if it relabels it, or is new, its
      hypothesis must be new to the family or within the bound. */
  ghost predicate Welcome(z: Settings, h: seq<Row>, e: Row) {
    var a := Lineage(z, h);
    if m :| Records(z, a, m, e) then Speaking(z, a, m) && (SameLabels(a[m], e) || Open(z, a, e))
    else Open(z, a, e)
  }

  lemma ZeroedOpen(z: Settings, a: seq<Row>, e: Row)
    ensures Open(z, a, Zeroed(e)) == Open(z, a, e) && Zeroed(e).correction
    ensures KeyOf(z, Zeroed(e)) == KeyOf(z, e) && Fam()(Zeroed(e)) == Fam()(e)
  {
  }

  /** Compacting the compacted ledger and one more row gives what compacting the whole
      history gives exactly when the row is welcome. */
  lemma {:induction false} StreamStepIff(z: Settings, h: seq<Row>, e: Row)
    requires z.maxRows >= 0 && Consistent(z, h) && !e.correction
    ensures Compact(z, Compact(z, h) + [e]) == Compact(z, h + [e]) <==> Welcome(z, h, e)
  {
    hide KeyOf, Fam, Shelve, Kept, Consistent, PairsDistinct, SameLabels, Open, Speaking, Zeroed, SamePair, Settled;
    var a, c := Lineage(z, h), Compact(z, h);
    AdmittedDistinct(z, h);
    ShelfPairs(z, a);
    LineageOfDistinct(z, c);
    LineageStep(z, h, e);
    LineageStep(z, c, e);
    PriorFacts(z, a, e);
    ShelvedIsSettled(z, a);
    ShelveSettled(z, c);
    if m :| Records(z, a, m, e) {
      RecordedPrior(z, a, m, e);
      ShelfRecords(z, a, m, e);
      ZeroedOpen(z, a, e);
      OpenIff(z, a, Zeroed(e));
      if !Speaking(z, a, m) { ForgottenDiffers(z, a, m, e); }
    } else {
      forall x | x in a ensures !SamePair(z, x, e) {
        var i :| 0 <= i < |a| && a[i] == x;
        assert !Records(z, a, i, e);
      }
      UnrecordedPrior(z, a, e);
      OpenIff(z, a, e);
    }
  }

  lemma {:induction false} RecordedPrior(z: Settings, a: seq<Row>, m: nat, e: Row)
    requires PairsDistinct(z, a) && Records(z, a, m, e)
    ensures PriorOf(z, a, e) == Some(a[m])
    ensures forall k :: Records(z, a, k, e) ==> k == m
  {
    hide SamePair, PairsDistinct;
    PriorFacts(z, a, e);
    assert a[m] in a;
    var p := PriorOf(z, a, e).value;
    var k :| 0 <= k < |a| && a[k] == p;
    SamePairs3(z, a[k], a[m], e);
    SameRow(z, a, k, m);
    forall k | Records(z, a, k, e) ensures k == m {
      SamePairs3(z, a[k], a[m], e);
      SameRow(z, a, k, m);
    }
  }

  lemma {:induction false} UnrecordedPrior(z: Settings, a: seq<Row>, e: Row)
    requires z.maxRows >= 0 && forall x :: x in a ==> !SamePair(z, x, e)
    ensures PriorOf(z, a, e) == None == PriorOf(z, Shelve(z, a), e)
  {
    hide SamePair, Shelve, Echoes, Newest;
    PriorFacts(z, a, e);
    PriorFacts(z, Shelve(z, a), e);
    var p := PriorOf(z, Shelve(z, a), e);
    if p.Some? {
      var k := ShelfEcho(z, a, p.value);
      NewestInRows(z, a, k);
      PairEchoOne(z, p.value, a[k], e);
      assert false;
    }
  }

  /** A row whose record no longer speaks is counted again. */
  lemma {:induction false} ForgottenDiffers(z: Settings, a: seq<Row>, m: nat, e: Row)
    requires z.maxRows >= 0 && PairsDistinct(z, a) && Records(z, a, m, e) && !e.correction
    requires PriorOf(z, Shelve(z, a), e) == None
    ensures Shelve(z, Shelve(z, a) + [e]) != Shelve(z, a)
    ensures Shelve(z, Shelve(z, a) + [e]) != Shelve(z, a + [Zeroed(e)])
  {
    hide KeyOf, Fam, Shelve, Echoes, SamePair, Zeroed;
    var w := AppendShows(z, a, e);
    PriorFacts(z, Shelve(z, a), e);
    EchoPair(z, w, a[m], e);
    ZeroedOpen(z, a, e);
    EchoKey(z, w, e);
    if w in Shelve(z, a + [Zeroed(e)]) {
      EchoesLast(z, a, Zeroed(e), w);
      EchoCorrection(w, e);
      EchoCorrection(w, Zeroed(e));
      assert false;
    }
  }

  lemma EchoPair(z: Settings, w: Row, r: Row, e: Row)
    requires Echoes(w, e) && SamePair(z, r, e)
    ensures SamePair(z, w, e)
  {
  }

  lemma EchoCorrection(w: Row, r: Row)
    requires Echoes(w, r)
    ensures w.correction == r.correction
  {
  }

  // ---- whole runs ----------------------------------------------------------

  function Flat(cycles: seq<seq<Row>>): seq<Row> {
    if cycles == [] then [] else Flat(cycles[..|cycles| - 1]) + cycles[|cycles| - 1]
  }

  /** The ledger compacted after every single row. */
  function RowByRow(z: Settings, rows: seq<Row>): seq<Row> {
    if rows == [] then [] else Compact(z, RowByRow(z, rows[..|rows| - 1]) + [rows[|rows| - 1]])
  }

  ghost predicate AllWelcome(z: Settings, rows: seq<Row>) {
    rows != [] ==> AllWelcome(z, rows[..|rows| - 1]) && Welcome(z, rows[..|rows| - 1], rows[|rows| - 1])
  }

  /** After every row the streamed ledger is the compacted history. */
  ghost predicate AgreesThroughout(z: Settings, rows: seq<Row>) {
    rows != [] ==> AgreesThroughout(z, rows[..|rows| - 1]) && RowByRow(z, rows) == Compact(z, rows)
  }

  lemma ConsistentFront(z: Settings, rows: seq<Row>)
    requires Consistent(z, rows) && rows != []
    ensures Consistent(z, rows[..|rows| - 1])
  {
    hide SamePair, SameLabels;
    assert forall i :: 0 <= i < |rows| - 1 ==> rows[..|rows| - 1][i] == rows[i];
  }

  lemma NothingCompacts(z: Settings)
    ensures Compact(z, []) == []
  {
  }

  lemma AgreedSoFar(z: Settings, rows: seq<Row>)
    requires AgreesThroughout(z, rows)
    ensures RowByRow(z, rows) == Compact(z, rows)
  {
    if rows == [] { NothingCompacts(z); }
  }

  /** Over every history in which a repeated pair is a replay, compacting after each row
      agrees with compacting the whole history throughout exactly when every row is
      welcome. */
  lemma {:induction false} RowByRowIff(z: Settings, rows: seq<Row>)
    requires z.maxRows >= 0 && Consistent(z, rows) && forall i :: 0 <= i < |rows| ==> !rows[i].correction
    ensures AgreesThroughout(z, rows) <==> AllWelcome(z, rows)
    ensures AllWelcome(z, rows) ==> RowByRow(z, rows) == Compact(z, rows)
  {
    hide Compact, Welcome, Consistent;
    if rows == [] {
      NothingCompacts(z);
    } else {
      var n := |rows| - 1;
      assert rows == rows[..n] + [rows[n]];
      ConsistentFront(z, rows);
      RowByRowIff(z, rows[..n]);
      StreamStepIff(z, rows[..n], rows[n]);
      if AgreesThroughout(z, rows[..n]) { AgreedSoFar(z, rows[..n]); }
    }
  }

  /** The ledger after a run of cycles, compacted after each. */
  function Streamed(z: Settings, cycles: seq<seq<Row>>): seq<Row> {
    if cycles == [] then [] else Compact(z, Streamed(z, cycles[..|cycles| - 1]) + cycles[|cycles| - 1])
  }

  /** No cycle takes up a hypothesis the bound has already dropped. */
  ghost predicate Ongoing(z: Settings, cycles: seq<seq<Row>>) {
    cycles != [] ==>
      var n := |cycles| - 1;
      Ongoing(z, cycles[..n]) && forall i :: 0 <= i < |cycles[n]| ==> Open(z, Flat(cycles[..n]), cycles[n][i])
  }

  lemma PairsPrefix(z: Settings, xs: seq<Row>, ys: seq<Row>)
    requires PairsDistinct(z, xs + ys)
    ensures PairsDistinct(z, xs)
  {
    hide SamePair;
    assert forall i :: 0 <= i < |xs| ==> (xs + ys)[i] == xs[i];
  }

  /** The shelf of a history and rows of other pairs have distinct pairs together. */
  lemma {:induction false} ShelfBeside(z: Settings, xs: seq<Row>, ys: seq<Row>)
    requires z.maxRows >= 0 && PairsDistinct(z, xs + ys)
    ensures PairsDistinct(z, Shelve(z, xs) + ys)
  {
    hide SamePair, Shelve, Echoes, Newest;
    PairsPrefix(z, xs, ys);
    ShelfPairs(z, xs);
    PairsFront(z, xs, ys);
    var c := Shelve(z, xs);
    forall i, j | 0 <= i < |c| && 0 <= j < |ys| ensures !SamePair(z, c[i], ys[j]) {
      var k := ShelfEcho(z, xs, c[i]);
      NewestInRows(z, xs, k);
      PairEchoOne(z, c[i], xs[k], ys[j]);
      assert (xs + ys)[k] == xs[k] && (xs + ys)[|xs| + j] == ys[j];
    }
  }

  /** Over every such run, compacting after each cycle equals compacting once. */
  lemma {:induction false} StreamingEqualsBatch(z: Settings, cycles: seq<seq<Row>>)
    requires z.maxRows >= 0 && PairsDistinct(z, Flat(cycles)) && Ongoing(z, cycles)
    ensures Streamed(z, cycles) == Compact(z, Flat(cycles))
  {
    hide KeyOf, Fam, Shelve, PairsDistinct, Open, Lineage;
    LineageOfDistinct(z, Flat(cycles));
    if cycles == [] {
      EmptyShelf(z);
    } else {
      var n := |cycles| - 1;
      var h, es := Flat(cycles[..n]), cycles[n];
      PairsPrefix(z, h, es);
      StreamingEqualsBatch(z, cycles[..n]);
      LineageOfDistinct(z, h);
      ShelfBeside(z, h, es);
      LineageOfDistinct(z, Shelve(z, h) + es);
      ShelveAppend(z, h, es);
    }
  }

  lemma EmptyShelf(z: Settings)
    ensures Shelve(z, []) == []
  {
  }

  /** So on a disciplined run the streamed ledger gives every verdict of the full
      history exactly when the history is safe to truncate. */
  lemma {:induction false} StreamedVerdictIff(z: Settings, q: Query, cycles: seq<seq<Row>>)
    requires z.maxRows >= 0 && Ongoing(z, cycles)
    requires var rows := Flat(cycles);
             Raw(rows) && PairsDistinct(z, rows) && ScopeByKey(z, q, rows) && Disciplined(z, rows)
    ensures SameVerdicts(q, Streamed(z, cycles), Flat(cycles)) <==> TruncationSafe(z, q, Flat(cycles))
  {
    hide Raw, PairsDistinct, ScopeByKey, Disciplined, Streamed, Flat, SameVerdicts, TruncationSafe, Compact, Ongoing;
    StreamingEqualsBatch(z, cycles);
    CompactVerdictIff(z, q, Flat(cycles));
  }

  /** And without a bound it always does. */
  lemma {:induction false} StreamKeepsVerdict(z: Settings, q: Query, cycles: seq<seq<Row>>)
    requires z.maxRows == 0
    requires var rows := Flat(cycles);
             Raw(rows) && PairsDistinct(z, rows) && ScopeByKey(z, q, rows) && Disciplined(z, rows)
    ensures SameVerdicts(q, Streamed(z, cycles), Flat(cycles))
  {
    hide Raw, PairsDistinct, ScopeByKey, Disciplined, Streamed, SameVerdicts;
    UnboundedIsOngoing(z, cycles);
    StreamedVerdictIff(z, q, cycles);
  }

  lemma {:induction false} UnboundedIsOngoing(z: Settings, cycles: seq<seq<Row>>)
    requires z.maxRows == 0
    ensures Ongoing(z, cycles)
  {
    if cycles != [] { UnboundedIsOngoing(z, cycles[..|cycles| - 1]); }
  }
}
