/** The entries of the compacted root-cause ledger, field by field: which rows state the
    same hypothesis, what is admitted, and what an entry says of its rows. */
module LedgerEntries {
  import opened Wrappers
  import opened Grouping
  import opened RootCauseLedger
  import opened LedgerCompaction
  import opened LedgerVerdict

  // ---- the same hypothesis -------------------------------------------------

  function FirstFilled(texts: seq<string>, otherwise: string): string {
    if texts == [] then otherwise else if texts[0] != "" then texts[0] else FirstFilled(texts[1..], otherwise)
  }

  function Places(r: Row): seq<string> { [r.targetSurface, r.blocker, r.rootKey, r.rootFamily, r.family] }

  /** Same cause, same place and same kind of delta, as far as the normalisers tell. */
  predicate Alike(z: Settings, x: Row, y: Row) {
    && z.slug(x.hypothesis) == z.slug(y.hypothesis)
    && z.trim(FirstFilled(Places(x), "unknown_surface")) == z.trim(FirstFilled(Places(y), "unknown_surface"))
    && z.trim(FirstFilled([x.delta], "unknown_delta")) == z.trim(FirstFilled([y.delta], "unknown_delta"))
  }

  predicate Kin(x: Row, y: Row) { FirstFilled([x.family], "unknown") == FirstFilled([y.family], "unknown") }

  lemma OneText(t: string, otherwise: string)
    ensures FirstFilled([t], otherwise) == if t != "" then t else otherwise
  {
    assert [t][1..] == [];
  }

  lemma FilledCons(t: string, rest: seq<string>, otherwise: string)
    ensures FirstFilled([t] + rest, otherwise) == if t != "" then t else FirstFilled(rest, otherwise)
  {
    assert ([t] + rest)[1..] == rest;
  }

  lemma PlacesFirst(r: Row)
    ensures FirstFilled(Places(r), "unknown_surface") == Surface(r)
  {
    hide FirstFilled;
    var o := "unknown_surface";
    FilledCons(r.targetSurface, [r.blocker, r.rootKey, r.rootFamily, r.family], o);
    FilledCons(r.blocker, [r.rootKey, r.rootFamily, r.family], o);
    FilledCons(r.rootKey, [r.rootFamily, r.family], o);
    FilledCons(r.rootFamily, [r.family], o);
    OneText(r.family, o);
    assert Places(r) == [r.targetSurface] + [r.blocker, r.rootKey, r.rootFamily, r.family];
    assert [r.blocker, r.rootKey, r.rootFamily, r.family] == [r.blocker] + [r.rootKey, r.rootFamily, r.family];
    assert [r.rootKey, r.rootFamily, r.family] == [r.rootKey] + [r.rootFamily, r.family];
    assert [r.rootFamily, r.family] == [r.rootFamily] + [r.family];
  }

  /** Keys and families are equal exactly for rows that agree field by field. */
  lemma {:induction false} AlikeIff(z: Settings, x: Row, y: Row)
    ensures KeyOf(z, x) == KeyOf(z, y) <==> Alike(z, x, y)
    ensures Fam()(x) == Fam()(y) <==> Kin(x, y)
  {
    hide FirstFilled, Surface, Places;
    PlacesFirst(x);
    PlacesFirst(y);
    OneText(x.delta, "unknown_delta");
    OneText(y.delta, "unknown_delta");
    OneText(x.family, "unknown");
    OneText(y.family, "unknown");
  }

  // ---- what is admitted ----------------------------------------------------

  /** The row repeats an attempt at the same hypothesis. */
  predicate Repeats(z: Settings, x: Row, r: Row) { x.attempt == r.attempt != "" && Alike(z, x, r) }

  /** A row that repeats no admitted one is admitted as it is. */
  lemma {:induction false} NewAdmitted(z: Settings, h: seq<Row>, r: Row)
    requires forall i :: 0 <= i < |Lineage(z, h)| ==> !Repeats(z, Lineage(z, h)[i], r)
    ensures Lineage(z, h + [r]) == Lineage(z, h) + [r]
  {
    hide Alike, KeyOf;
    var a := Lineage(z, h);
    assert (h + [r])[..|h|] == h;
    PriorFacts(z, a, r);
    forall x | x in a ensures !SamePair(z, x, r) {
      var i :| 0 <= i < |a| && a[i] == x;
      AlikeIff(z, a[i], r);
    }
  }

  /** Otherwise the newest admitted row it repeats decides: with the same labels it is
      dropped, and else admitted as a correction that counts for nothing. */
  lemma {:induction false} RepeatAdmitted(z: Settings, h: seq<Row>, r: Row, m: nat)
    requires m < |Lineage(z, h)| && Repeats(z, Lineage(z, h)[m], r)
    requires forall i :: m < i < |Lineage(z, h)| ==> !Repeats(z, Lineage(z, h)[i], r)
    ensures var a := Lineage(z, h);
            var same := a[m].family == r.family && a[m].rootKey == r.rootKey && a[m].rootFamily == r.rootFamily
                        && a[m].hypothesis == r.hypothesis;
            Lineage(z, h + [r]) == if same then a else a + [r.(correction := true, correctionOf := r.attempt, attempted := false, attempts := Some(0), vacuous := Some(0))]
  {
    hide Alike, KeyOf;
    var a := Lineage(z, h);
    assert (h + [r])[..|h|] == h;
    forall i | 0 <= i < |a| ensures SamePair(z, a[i], r) <==> Repeats(z, a[i], r) { AlikeIff(z, a[i], r); }
    NewestPrior(z, a, r, m);
  }

  lemma {:induction false} NewestPrior(z: Settings, admitted: seq<Row>, r: Row, m: nat)
    requires m < |admitted| && SamePair(z, admitted[m], r)
    requires forall i :: m < i < |admitted| ==> !SamePair(z, admitted[i], r)
    ensures PriorOf(z, admitted, r) == Some(admitted[m])
  {
    hide SamePair;
    var n := |admitted| - 1;
    if m < n { NewestPrior(z, admitted[..n], r, m); }
  }

  // ---- what an entry says --------------------------------------------------

  /** The rows of the ledger that state an entry's hypothesis in its family, in order. */
  function RowsLike(z: Settings, rows: seq<Row>, u: Row): seq<Row> {
    if rows == [] then []
    else
      var n := |rows| - 1;
      RowsLike(z, rows[..n], u) + if Kin(rows[n], u) && Alike(z, rows[n], u) then [rows[n]] else []
  }

  function Tried(rows: seq<Row>): nat {
    if rows == [] then 0 else Tried(rows[..|rows| - 1]) + if rows[|rows| - 1].attempted then 1 else 0
  }

  /** Attempts that changed nothing. */
  function InVain(rows: seq<Row>): nat {
    if rows == [] then 0
    else InVain(rows[..|rows| - 1]) + if rows[|rows| - 1].attempted && !rows[|rows| - 1].changed then 1 else 0
  }

  predicate SomeChanged(rows: seq<Row>) { exists i :: 0 <= i < |rows| && rows[i].changed }

  function Cycles(rows: seq<Row>): seq<string> { seq(|rows|, i requires 0 <= i < |rows| => rows[i].cycle) }

  /** The newest row, with the counts of all, and with the cycles that came before. */
  function Summary(gs: seq<Row>): Row
    requires gs != []
  {
    var n := |gs| - 1;
    var base := gs[n].(attempts := Some(Tried(gs)), vacuous := Some(InVain(gs)), changed := SomeChanged(gs));
    if n == 0 then base
    else base.(firstCycle := FirstFilled([gs[0].firstCycle] + Cycles(gs[..n]), ""), previousCycle := gs[n - 1].cycle)
  }

  /** The rows of one key. */
  function Keyed(z: Settings, rows: seq<Row>, k: Key): seq<Row> {
    if rows == [] then []
    else
      var n := |rows| - 1;
      Keyed(z, rows[..n], k) + if KeyOf(z, rows[n]) == k then [rows[n]] else []
  }

  lemma {:induction false} FilledLonger(texts: seq<string>, t: string)
    ensures FirstFilled(texts + [t], "") == if FirstFilled(texts, "") != "" then FirstFilled(texts, "") else t
  {
    if texts == [] {
      assert texts + [t] == [t];
      OneText(t, "");
    } else {
      assert (texts + [t])[1..] == texts[1..] + [t];
      FilledLonger(texts[1..], t);
    }
  }

  lemma CyclesLonger(gs: seq<Row>, r: Row)
    ensures Cycles(gs + [r]) == Cycles(gs) + [r.cycle]
  {
  }

  lemma CyclesBefore(gs: seq<Row>, r: Row)
    requires gs != []
    ensures var n := |gs| - 1; var first := FirstFilled([gs[0].firstCycle] + Cycles(gs[..n]), "");
            FirstFilled([gs[0].firstCycle] + Cycles((gs + [r])[..|gs|]), "") == if first != "" then first else gs[n].cycle
  {
    hide FirstFilled;
    var n := |gs| - 1;
    assert (gs + [r])[..|gs|] == gs == gs[..n] + [gs[n]];
    CyclesLonger(gs[..n], gs[n]);
    FilledLonger([gs[0].firstCycle] + Cycles(gs[..n]), gs[n].cycle);
    assert [gs[0].firstCycle] + Cycles(gs) == [gs[0].firstCycle] + Cycles(gs[..n]) + [gs[n].cycle];
  }

  lemma ChangedLonger(gs: seq<Row>, r: Row)
    ensures SomeChanged(gs + [r]) == (SomeChanged(gs) || r.changed)
  {
    assert forall i :: 0 <= i < |gs| ==> (gs + [r])[i] == gs[i];
    assert (gs + [r])[|gs|] == r;
  }

  lemma CountsLonger(gs: seq<Row>, r: Row)
    ensures Tried(gs + [r]) == Tried(gs) + (if r.attempted then 1 else 0)
    ensures InVain(gs + [r]) == InVain(gs) + if r.attempted && !r.changed then 1 else 0
  {
    assert (gs + [r])[..|gs|] == gs;
  }

  /** Merging one more row extends the summary. */
  lemma {:induction false} SummaryMerges(gs: seq<Row>, r: Row)
    requires gs != [] && !r.correction
    ensures Merge(Summary(gs), r) == Summary(gs + [r])
  {
    hide FirstFilled, Cycles, SomeChanged, Tried, InVain;
    var n := |gs| - 1;
    ChangedLonger(gs, r);
    CountsLonger(gs, r);
    CyclesBefore(gs, r);
    assert (gs + [r])[|gs|] == r && (gs + [r])[|gs| - 1] == gs[n] && (gs + [r])[0] == gs[0];
    if n == 0 { NoCyclesYet(gs); }
  }

  lemma NoCyclesYet(gs: seq<Row>)
    requires |gs| == 1
    ensures FirstFilled([gs[0].firstCycle] + Cycles(gs[..0]), "") == gs[0].firstCycle
  {
    assert [gs[0].firstCycle] + Cycles(gs[..0]) == [gs[0].firstCycle];
    OneText(gs[0].firstCycle, "");
  }

  lemma SummaryStarts(r: Row)
    requires !r.correction && r.attempts == None == r.vacuous
    ensures Fresh(r) == Summary([r])
  {
    assert [r][..0] == [];
    assert SomeChanged([r]) == r.changed by { assert [r][0] == r; }
    assert Tried([]) == 0 == InVain([]);
  }

  lemma {:induction false} NoneOfKey(z: Settings, rows: seq<Row>, k: Key)
    requires !Holds(z, rows, k)
    ensures Keyed(z, rows, k) == []
  {
    hide KeyOf;
    if rows != [] {
      var n := |rows| - 1;
      HoldsFront(z, rows, k);
      NoneOfKey(z, rows[..n], k);
    }
  }

  /** Folding leaves one summary per hypothesis. */
  lemma {:induction false} FoldSummarizes(z: Settings, rows: seq<Row>, i: nat)
    requires Raw(rows) && i < |Fold(z, rows)|
    ensures var gs := Keyed(z, rows, KeyOf(z, Fold(z, rows)[i])); gs != [] && Fold(z, rows)[i] == Summary(gs)
    decreases |rows|
  {
    hide KeyOf, Fold, Summary, Merge, Fresh;
    assert rows != [] by { EmptyFold(z); }
    var n := |rows| - 1;
    var xs, r := Fold(z, rows[..n]), rows[n];
    FoldAt(z, rows, i);
    MergeKeepsKey(z, r, r);
    if i < |xs| {
      FoldSummarizes(z, rows[..n], i);
      MergeKeepsKey(z, xs[i], r);
      if KeyOf(z, xs[i]) == KeyOf(z, r) {
        assert !r.correction;
        SummaryMerges(Keyed(z, rows[..n], KeyOf(z, r)), r);
        assert Keyed(z, rows, KeyOf(z, r)) == Keyed(z, rows[..n], KeyOf(z, r)) + [r];
      } else {
        assert Keyed(z, rows, KeyOf(z, xs[i])) == Keyed(z, rows[..n], KeyOf(z, xs[i]));
      }
    } else {
      FoldHolds(z, rows[..n]);
      NoneOfKey(z, rows[..n], KeyOf(z, r));
      SummaryStarts(r);
      assert [] + [r] == [r];
    }
  }

  lemma {:induction false} LikeIsKeyed(z: Settings, rows: seq<Row>, u: Row)
    ensures RowsLike(z, rows, u) == Keyed(z, Bucket(Fam(), rows, Fam()(u)), KeyOf(z, u))
  {
    hide KeyOf, Fam, Alike, Kin;
    if rows != [] {
      var n := |rows| - 1;
      LikeIsKeyed(z, rows[..n], u);
      AlikeIff(z, rows[n], u);
      var b := Bucket(Fam(), rows[..n], Fam()(u));
      assert (b + [rows[n]])[..|b|] == b;
    }
  }

  /** No attempt at a hypothesis is written twice. */
  ghost predicate Unrepeating(z: Settings, rows: seq<Row>) {
    forall i, j :: 0 <= i < j < |rows| ==> !Repeats(z, rows[i], rows[j])
  }

  lemma UnrepeatingIsDistinct(z: Settings, rows: seq<Row>)
    requires Unrepeating(z, rows)
    ensures PairsDistinct(z, rows)
  {
    hide KeyOf, Alike;
    forall i, j | 0 <= i < j < |rows| ensures !SamePair(z, rows[i], rows[j]) { AlikeIff(z, rows[i], rows[j]); }
  }

  /** Each entry of the compacted ledger is the summary of the rows that state its
      hypothesis in its family. */
  lemma {:induction false} EntriesSummarize(z: Settings, rows: seq<Row>, u: Row)
    requires z.maxRows >= 0 && Raw(rows) && Unrepeating(z, rows) && u in Compact(z, rows)
    ensures var gs := RowsLike(z, rows, u); gs != [] && u == Summary(gs)
  {
    hide KeyOf, Shelve, Fold, Fam, Bucket, Lineage, PairsDistinct, Summary, RowsLike, Unrepeating;
    UnrepeatingIsDistinct(z, rows);
    LineageOfDistinct(z, rows);
    var f := Fam()(u);
    var b := Bucket(Fam(), rows, f);
    ShelveBucket(z, rows, f);
    BucketMembers(Fam(), Compact(z, rows), f);
    TailFacts(Fold(z, b), z.maxRows);
    RawBucket(rows, f);
    var i :| 0 <= i < |Fold(z, b)| && Fold(z, b)[i] == u;
    FoldSummarizes(z, b, i);
    LikeIsKeyed(z, rows, u);
  }

  lemma {:induction false} RowHasEntry(z: Settings, rows: seq<Row>, j: nat) returns (i: nat)
    requires z.maxRows == 0 && PairsDistinct(z, rows) && j < |rows|
    ensures i < |Compact(z, rows)| && SameGroup(z, Compact(z, rows)[i], rows[j])
  {
    hide KeyOf, Shelve, Fold, Fam, Bucket, Lineage, PairsDistinct;
    LineageOfDistinct(z, rows);
    var f := Fam()(rows[j]);
    var b, c := Bucket(Fam(), rows, f), Compact(z, rows);
    BucketMembers(Fam(), rows, f);
    var m :| 0 <= m < |b| && b[m] == rows[j];
    FoldHolds(z, b);
    assert Holds(z, b, KeyOf(z, rows[j]));
    var n :| 0 <= n < |Fold(z, b)| && KeyOf(z, Fold(z, b)[n]) == KeyOf(z, rows[j]);
    ShelveBucket(z, rows, f);
    TailFacts(Fold(z, b), 0);
    BucketMembers(Fam(), c, f);
    assert Fold(z, b)[n] in Bucket(Fam(), c, f);
    i :| 0 <= i < |c| && c[i] == Fold(z, b)[n];
  }

  /** An entry stands for a row: same family, same hypothesis. */
  predicate For(z: Settings, u: Row, r: Row) { Kin(u, r) && Alike(z, u, r) }

  /** And with nothing truncated every row has exactly one entry, which it shares exactly
      with the rows of its family that state the same hypothesis. */
  lemma {:induction false} EachRowItsEntry(z: Settings, rows: seq<Row>, j: nat) returns (i: nat)
    requires z.maxRows == 0 && Unrepeating(z, rows) && j < |rows|
    ensures i < |Compact(z, rows)|
    ensures forall k :: 0 <= k < |Compact(z, rows)| ==> (For(z, Compact(z, rows)[k], rows[j]) <==> k == i)
    ensures forall m :: 0 <= m < |rows| ==> (For(z, Compact(z, rows)[i], rows[m]) <==> For(z, rows[j], rows[m]))
  {
    hide KeyOf, Shelve, Fam, Lineage, Unrepeating, Kin, Alike, Sorted, PairsDistinct;
    UnrepeatingIsDistinct(z, rows);
    i := RowHasEntry(z, rows, j);
    var c := Compact(z, rows);
    LineageOfDistinct(z, rows);
    ShelvedIsSettled(z, rows);
    forall k | 0 <= k < |c| ensures For(z, c[k], rows[j]) <==> k == i {
      AlikeIff(z, c[k], rows[j]);
      if k != i && Fam()(c[k]) == Fam()(c[i]) { OnePlace(z, c, i, k); }
    }
    forall m | 0 <= m < |rows| ensures For(z, c[i], rows[m]) <==> For(z, rows[j], rows[m]) {
      AlikeIff(z, c[i], rows[m]);
      AlikeIff(z, rows[j], rows[m]);
    }
  }

  lemma OnePlace(z: Settings, rows: seq<Row>, i: nat, k: nat)
    requires Sorted(z, rows) && i < |rows| && k < |rows| && Fam()(rows[i]) == Fam()(rows[k]) && i != k
    ensures KeyOf(z, rows[i]) != KeyOf(z, rows[k])
  {
    hide KeyOf, Fam;
  }
}
