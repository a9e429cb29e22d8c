/** The compacted root-cause ledger read off its history: which row speaks for a
    hypothesis, what it will say, and whether the bound lets it be heard. */
module LedgerHistory {
  import opened Wrappers
  import opened Grouping
  import opened RootCauseLedger
  import opened LedgerCompaction
  import opened LedgerVerdict

  // ---- the row that speaks for its group -----------------------------------

  /** No later row of the family states the same hypothesis. */
  ghost predicate Newest(z: Settings, rows: seq<Row>, j: int) {
    0 <= j < |rows| && forall k :: j < k < |rows| ==> !SameGroup(z, rows[k], rows[j])
  }

  /** Some row of the group changed the outcome. */
  ghost predicate GroupChanged(z: Settings, rows: seq<Row>, r: Row) {
    exists i :: 0 <= i < |rows| && SameGroup(z, rows[i], r) && rows[i].changed
  }

  /** Some row of the group was an attempt without effect. */
  ghost predicate GroupTried(z: Settings, rows: seq<Row>, r: Row) {
    exists i :: 0 <= i < |rows| && SameGroup(z, rows[i], r) && rows[i].attempted && !rows[i].changed
  }

  /** An entry repeats its newest row, counts, outcome and cycles aside. */
  predicate Echoes(u: Row, r: Row) {
    u == r.(attempts := u.attempts, vacuous := u.vacuous, changed := u.changed, attempted := u.attempted,
            firstCycle := u.firstCycle, previousCycle := u.previousCycle)
  }

  lemma EchoFacts(z: Settings, q: Query, u: Row, r: Row)
    requires Echoes(u, r)
    ensures SameGroup(z, u, r) && InScope(q, u) == InScope(q, r) && u.attempt == r.attempt && SameLabels(u, r)
  {
  }

  lemma MergeEchoes(x: Row, r: Row)
    ensures Echoes(Merge(x, r), r) && Echoes(Fresh(r), r)
    ensures !r.correction ==> Merge(x, r).attempted == r.attempted == Fresh(r).attempted
  {
  }

  /** Each folded entry repeats the newest row of its hypothesis. */
  lemma {:induction false} FoldNewest(z: Settings, rows: seq<Row>, i: nat) returns (j: nat)
    requires i < |Fold(z, rows)|
    ensures j < |rows| && Echoes(Fold(z, rows)[i], rows[j])
    ensures forall k :: j < k < |rows| ==> KeyOf(z, rows[k]) != KeyOf(z, rows[j])
    ensures !rows[j].correction ==> Fold(z, rows)[i].attempted == rows[j].attempted
    decreases |rows|
  {
    hide KeyOf, Echoes, Fold;
    var n := |rows| - 1;
    assert rows != [] by { EmptyFold(z); }
    FoldAt(z, rows, i);
    var xs, r := Fold(z, rows[..n]), rows[n];
    if i < |xs| && KeyOf(z, xs[i]) != KeyOf(z, r) {
      j := FoldNewest(z, rows[..n], i);
      EchoKey(z, xs[i], rows[j]);
    } else {
      j := n;
      if i < |xs| { MergeEchoes(xs[i], r); } else { MergeEchoes(r, r); }
    }
  }

  lemma EchoKey(z: Settings, u: Row, r: Row)
    requires Echoes(u, r)
    ensures KeyOf(z, u) == KeyOf(z, r) && Fam()(u) == Fam()(r)
  {
  }

  /** A folded entry's outcome and vacuous count, row by row. */
  lemma {:induction false} FoldFlags(z: Settings, rows: seq<Row>, i: nat)
    requires Raw(rows) && i < |Fold(z, rows)|
    ensures var u := Fold(z, rows)[i];
            && (u.changed <==> exists j :: 0 <= j < |rows| && KeyOf(z, rows[j]) == KeyOf(z, u) && rows[j].changed)
            && (Weight(u.vacuous, 0) > 0 <==>
                  exists j :: 0 <= j < |rows| && KeyOf(z, rows[j]) == KeyOf(z, u) && rows[j].attempted && !rows[j].changed)
  {
    hide KeyOf, Fold, Sum;
    var u := Fold(z, rows)[i];
    FoldOutcome(z, rows, i);
    FoldCounts(z, rows, i);
    SumZero(KeyedVacuous(z, KeyOf(z, u)), rows);
    if j :| 0 <= j < |rows| && KeyOf(z, rows[j]) == KeyOf(z, u) && rows[j].attempted && !rows[j].changed {
      assert rows[j] in rows;
    }
    if Weight(u.vacuous, 0) > 0 {
      var x :| x in rows && KeyedVacuous(z, KeyOf(z, u))(x) != 0;
      var j :| 0 <= j < |rows| && rows[j] == x;
    }
  }

  lemma {:induction false} FoldOutcome(z: Settings, rows: seq<Row>, i: nat)
    requires i < |Fold(z, rows)|
    ensures var u := Fold(z, rows)[i];
            u.changed <==> exists j :: 0 <= j < |rows| && KeyOf(z, rows[j]) == KeyOf(z, u) && rows[j].changed
    decreases |rows|
  {
    hide KeyOf, Fold;
    var n := |rows| - 1;
    assert rows != [] by { EmptyFold(z); }
    FoldAt(z, rows, i);
    var xs, r, u := Fold(z, rows[..n]), rows[n], Fold(z, rows)[i];
    assert forall j :: 0 <= j < n ==> rows[..n][j] == rows[j];
    if i < |xs| {
      FoldOutcome(z, rows[..n], i);
      MergeKeepsKey(z, xs[i], r);
    } else {
      MergeKeepsKey(z, r, r);
      FoldHolds(z, rows[..n]);
      assert forall j :: 0 <= j < n && KeyOf(z, rows[j]) == KeyOf(z, r) ==> Holds(z, rows[..n], KeyOf(z, rows[..n][j]));
    }
  }

  // ---- from buckets to the history -----------------------------------------

  /** Where the j-th row of a family stands in the whole list. */
  lemma {:induction false} BucketPlace(rows: seq<Row>, f: string, j: nat) returns (i: nat)
    requires j < |Bucket(Fam(), rows, f)|
    ensures i < |rows| && rows[i] == Bucket(Fam(), rows, f)[j]
    ensures forall k :: i < k < |rows| && Fam()(rows[k]) == f ==> rows[k] in Bucket(Fam(), rows, f)[j + 1..]
    decreases |rows|
  {
    hide Fam;
    var n := |rows| - 1;
    var b := Bucket(Fam(), rows[..n], f);
    if j < |b| {
      i := BucketPlace(rows[..n], f, j);
      if Fam()(rows[n]) == f {
        assert (b + [rows[n]])[j + 1..] == b[j + 1..] + [rows[n]];
      }
    } else {
      i := n;
    }
  }

  lemma {:induction false} NewestPlace(z: Settings, rows: seq<Row>, f: string, j: nat) returns (m: nat)
    requires j < |Bucket(Fam(), rows, f)|
    requires var b := Bucket(Fam(), rows, f); forall k :: j < k < |b| ==> KeyOf(z, b[k]) != KeyOf(z, b[j])
    ensures Newest(z, rows, m) && rows[m] == Bucket(Fam(), rows, f)[j]
  {
    hide KeyOf, Fam, Bucket;
    var b := Bucket(Fam(), rows, f);
    BucketUniform(Fam(), rows, f);
    m := BucketPlace(rows, f, j);
    forall k | m < k < |rows| && Fam()(rows[k]) == f ensures KeyOf(z, rows[k]) != KeyOf(z, rows[m]) {
      var k' :| 0 <= k' < |b[j + 1..]| && b[j + 1..][k'] == rows[k];
      assert b[j + 1 + k'] == rows[k];
    }
  }

  /** What the merged ledger says about a hypothesis, read off the history. */
  ghost predicate Speaks(z: Settings, rows: seq<Row>, u: Row, j: int) {
    && Newest(z, rows, j) && Echoes(u, rows[j]) && u.attempted == rows[j].attempted
    && (u.changed <==> GroupChanged(z, rows, rows[j]))
    && (Weight(u.vacuous, 0) > 0 <==> GroupTried(z, rows, rows[j]))
  }

  /** Every entry speaks for a newest row. */
  lemma {:induction false} EntrySpeaks(z: Settings, rows: seq<Row>, u: Row) returns (j: nat)
    requires Raw(rows) && PairsDistinct(z, rows) && u in Merged(z, rows)
    ensures Speaks(z, rows, u, j)
  {
    hide KeyOf, Fam, Fold, Merged, PairsDistinct, Echoes, Bucket;
    var b, i := MergedEntry(z, rows, u);
    var f := Fam()(u);
    RawBucket(rows, f);
    var m := FoldNewest(z, b, i);
    EchoKey(z, u, b[m]);
    FoldFlags(z, b, i);
    j := NewestPlace(z, rows, f, m);
    GroupRows(z, rows, b, f, rows[j]);
  }

  /** A group's rows are those of its key in its family's bucket. */
  lemma GroupRows(z: Settings, rows: seq<Row>, b: seq<Row>, f: string, r: Row)
    requires b == Bucket(Fam(), rows, f) && Fam()(r) == f
    ensures GroupChanged(z, rows, r) <==> exists j :: 0 <= j < |b| && KeyOf(z, b[j]) == KeyOf(z, r) && b[j].changed
    ensures GroupTried(z, rows, r) <==>
            exists j :: 0 <= j < |b| && KeyOf(z, b[j]) == KeyOf(z, r) && b[j].attempted && !b[j].changed
  {
    hide KeyOf, Fam, Bucket;
    BucketMembers(Fam(), rows, f);
    forall x: Row | x in b ensures exists i :: 0 <= i < |rows| && rows[i] == x { assert x in rows; }
    forall i | 0 <= i < |rows| && SameGroup(z, rows[i], r) ensures rows[i] in b { assert rows[i] in rows; }
    forall j | 0 <= j < |b| ensures b[j] in b && Fam()(b[j]) == f { assert b[j] in b; }
  }

  lemma {:induction false} GroupHasEntry(z: Settings, rows: seq<Row>, r: Row) returns (u: Row)
    requires PairsDistinct(z, rows) && r in rows
    ensures u in Merged(z, rows) && SameGroup(z, u, r)
  {
    hide KeyOf, Fam, Fold, Merged, PairsDistinct, Bucket;
    var f := Fam()(r);
    var b := Bucket(Fam(), rows, f);
    BucketMembers(Fam(), rows, f);
    var j :| 0 <= j < |b| && b[j] == r;
    FoldHolds(z, b);
    assert Holds(z, b, KeyOf(z, r));
    var i :| 0 <= i < |Fold(z, b)| && KeyOf(z, Fold(z, b)[i]) == KeyOf(z, r);
    u := Fold(z, b)[i];
    MergedBucket(z, rows, f);
    BucketMembers(Fam(), Merged(z, rows), f);
    assert u in Bucket(Fam(), Merged(z, rows), f);
  }

  lemma OneNewest(z: Settings, rows: seq<Row>, i: int, j: int)
    requires Newest(z, rows, i) && Newest(z, rows, j) && SameGroup(z, rows[i], rows[j])
    ensures i == j
  {
  }

  /** Every newest row has its entry. */
  lemma {:induction false} NewestHasEntry(z: Settings, rows: seq<Row>, j: nat) returns (u: Row)
    requires Raw(rows) && PairsDistinct(z, rows) && Newest(z, rows, j)
    ensures u in Merged(z, rows) && Speaks(z, rows, u, j)
  {
    hide KeyOf, Fam, Merged, PairsDistinct, Raw, Echoes, Newest;
    NewestInRows(z, rows, j);
    u := GroupHasEntry(z, rows, rows[j]);
    var j' := EntrySpeaks(z, rows, u);
    NewestInRows(z, rows, j');
    EchoKey(z, u, rows[j']);
    OneNewest(z, rows, j, j');
  }

  lemma NewestInRows(z: Settings, rows: seq<Row>, j: int)
    requires Newest(z, rows, j)
    ensures 0 <= j < |rows| && rows[j] in rows
  {
  }

  // ---- when merging keeps the verdict --------------------------------------

  /** An attempt in scope that helped. */
  ghost predicate Helped(q: Query, rows: seq<Row>) {
    exists i :: 0 <= i < |rows| && InScope(q, rows[i]) && rows[i].attempted && rows[i].changed
  }

  /** The newest row of a group in scope was attempted, and the group helped. */
  ghost predicate StillHelps(z: Settings, q: Query, rows: seq<Row>, j: int) {
    Newest(z, rows, j) && InScope(q, rows[j]) && rows[j].attempted && GroupChanged(z, rows, rows[j])
  }

  /** The newest row of a group in scope was attempted, and the group never helped. */
  ghost predicate StillFails(z: Settings, q: Query, rows: seq<Row>, j: int) {
    Newest(z, rows, j) && InScope(q, rows[j]) && rows[j].attempted && !GroupChanged(z, rows, rows[j])
  }

  lemma {:induction false} PositiveIff(z: Settings, q: Query, rows: seq<Row>, entries: seq<Row>)
    requires Raw(rows) && PairsDistinct(z, rows) && forall u :: u in entries ==> u in Merged(z, rows)
    ensures Positive(q, entries) > 0 <==>
            exists j :: StillHelps(z, q, rows, j) && exists u :: u in entries && SameGroup(z, u, rows[j])
    ensures Vacuous(q, entries) > 0 <==>
            exists j :: StillFails(z, q, rows, j) && exists u :: u in entries && SameGroup(z, u, rows[j])
  {
    hide KeyOf, Fam, Merged, PairsDistinct, Raw, Echoes, Newest, InScope, Sum, GroupChanged, GroupTried, SameGroup;
    SumZero(PositiveWeight(q), entries);
    SumZero(VacuousWeight(q), entries);
    forall u | u in entries
      ensures exists j :: Newest(z, rows, j) && 0 <= j < |rows| && SameGroup(z, u, rows[j])
                && (PositiveWeight(q)(u) > 0 <==> StillHelps(z, q, rows, j))
                && (VacuousWeight(q)(u) > 0 <==> StillFails(z, q, rows, j))
    {
      var j := EntrySpeaks(z, rows, u);
      EntryWeights(z, q, rows, u, j);
    }
    forall j, u | Newest(z, rows, j) && 0 <= j < |rows| && u in entries && SameGroup(z, u, rows[j])
      ensures PositiveWeight(q)(u) > 0 <==> StillHelps(z, q, rows, j)
      ensures VacuousWeight(q)(u) > 0 <==> StillFails(z, q, rows, j)
    {
      var j' := EntrySpeaks(z, rows, u);
      EntryWeights(z, q, rows, u, j');
      SameEnds(z, rows, u, j, j');
    }
    if Positive(q, entries) > 0 {
      var u :| u in entries && PositiveWeight(q)(u) != 0;
    }
    if Vacuous(q, entries) > 0 {
      var u :| u in entries && VacuousWeight(q)(u) != 0;
    }
    forall j | StillHelps(z, q, rows, j) || StillFails(z, q, rows, j) ensures 0 <= j < |rows| {
      NewestInRows(z, rows, j);
    }
  }

  lemma SameEnds(z: Settings, rows: seq<Row>, u: Row, j: int, j': int)
    requires Newest(z, rows, j) && Newest(z, rows, j') && SameGroup(z, u, rows[j]) && SameGroup(z, u, rows[j'])
    ensures j == j'
  {
  }

  lemma EntryWeights(z: Settings, q: Query, rows: seq<Row>, u: Row, j: int)
    requires Raw(rows) && PairsDistinct(z, rows) && u in Merged(z, rows) && Speaks(z, rows, u, j)
    ensures 0 <= j < |rows| && SameGroup(z, u, rows[j])
    ensures PositiveWeight(q)(u) > 0 <==> StillHelps(z, q, rows, j)
    ensures VacuousWeight(q)(u) > 0 <==> StillFails(z, q, rows, j)
  {
    hide KeyOf, Fam, Merged, PairsDistinct, Echoes, InScope;
    EchoFacts(z, q, u, rows[j]);
    MergedCounted(z, rows);
    if u.attempted && !u.changed {
      assert SameGroup(z, rows[j], rows[j]);
      assert GroupTried(z, rows, rows[j]);
    }
  }

  /** Merging keeps the exhaustion verdict at every budget exactly when, where some
      attempt helped, a group that helped was attempted last time too (or no group
      was), and where none did, each group with a vacuous attempt was attempted last
      time and shows no change. */
  ghost predicate MergeSafe(z: Settings, q: Query, rows: seq<Row>) {
    if Helped(q, rows) then
      (exists j :: StillHelps(z, q, rows, j)) || forall j :: !StillFails(z, q, rows, j)
    else
      forall j :: Newest(z, rows, j) && InScope(q, rows[j]) && GroupTried(z, rows, rows[j]) ==> StillFails(z, q, rows, j)
  }

  lemma {:induction false} MergeVerdictIff(z: Settings, q: Query, rows: seq<Row>)
    requires Raw(rows) && PairsDistinct(z, rows) && ScopeByKey(z, q, rows)
    ensures SameVerdicts(q, Merged(z, rows), rows) <==> MergeSafe(z, q, rows)
  {
    hide KeyOf, Fam, Merged, PairsDistinct, Raw, InScope, Sum, SameVerdicts, ScopeByKey, Newest, GroupChanged, GroupTried,
      SameGroup, Vacuous;
    var us := Merged(z, rows);
    MergedReads(z, q, rows);
    HelpedIff(q, rows);
    PositiveIff(z, q, rows, us);
    forall j | Newest(z, rows, j) ensures 0 <= j < |rows| && exists u :: u in us && SameGroup(z, u, rows[j]) {
      NewestInRows(z, rows, j);
      var u := GroupHasEntry(z, rows, rows[j]);
    }
    TellingIff(z, q, rows);
  }

  lemma HelpedIff(q: Query, rows: seq<Row>)
    ensures Positive(q, rows) > 0 <==> Helped(q, rows)
  {
    hide InScope, Sum;
    SumZero(PositiveWeight(q), rows);
    if Positive(q, rows) > 0 {
      var x :| x in rows && PositiveWeight(q)(x) != 0;
      var i :| 0 <= i < |rows| && rows[i] == x;
    }
    if i :| 0 <= i < |rows| && InScope(q, rows[i]) && rows[i].attempted && rows[i].changed {
      assert rows[i] in rows;
    }
  }

  lemma {:induction false} TellingIff(z: Settings, q: Query, rows: seq<Row>)
    requires Raw(rows) && PairsDistinct(z, rows)
    ensures Telling(q, Merged(z, rows)) <==>
            forall j :: Newest(z, rows, j) && InScope(q, rows[j]) && GroupTried(z, rows, rows[j]) ==> StillFails(z, q, rows, j)
  {
    hide KeyOf, Fam, Merged, PairsDistinct, Raw, InScope, GroupChanged, GroupTried, SameGroup, Echoes, Newest;
    forall u | u in Merged(z, rows)
      ensures exists j :: Speaks(z, rows, u, j) && 0 <= j < |rows| && InScope(q, u) == InScope(q, rows[j])
    {
      var j := EntrySpeaks(z, rows, u);
      NewestInRows(z, rows, j);
      EchoFacts(z, q, u, rows[j]);
    }
    forall j | Newest(z, rows, j)
      ensures 0 <= j < |rows| && exists u :: u in Merged(z, rows) && Speaks(z, rows, u, j) && InScope(q, u) == InScope(q, rows[j])
    {
      NewestInRows(z, rows, j);
      var u := NewestHasEntry(z, rows, j);
      EchoFacts(z, q, u, rows[j]);
    }
  }

  // ---- what the bound keeps ------------------------------------------------

  predicate Listed(z: Settings, rows: seq<Row>, f: string, k: Key) {
    exists i :: 0 <= i < |rows| && Fam()(rows[i]) == f && KeyOf(z, rows[i]) == k
  }

  /** The other hypotheses of a family that first appear after a given one. */
  function Later(z: Settings, rows: seq<Row>, f: string, k: Key): set<Key> {
    if rows == [] then {}
    else
      var front, r := rows[..|rows| - 1], rows[|rows| - 1];
      Later(z, front, f, k)
      + if Fam()(r) == f && Listed(z, front, f, k) && !Listed(z, front, f, KeyOf(z, r)) then {KeyOf(z, r)} else {}
  }

  /** Fewer hypotheses of the row's family than the bound appear after its own. */
  predicate Kept(z: Settings, rows: seq<Row>, r: Row) {
    z.maxRows == 0 || |Later(z, rows, Fam()(r), KeyOf(z, r))| < z.maxRows
  }

  ghost function Keys(z: Settings, xs: seq<Row>): set<Key> {
    set i | 0 <= i < |xs| :: KeyOf(z, xs[i])
  }

  lemma {:induction false} KeyCount(z: Settings, xs: seq<Row>)
    requires KeysDistinct(z, xs)
    ensures |Keys(z, xs)| == |xs|
  {
    hide KeyOf;
    if xs == [] {
      assert Keys(z, xs) == {};
    } else {
      var n := |xs| - 1;
      KeyCount(z, xs[..n]);
      assert Keys(z, xs) == Keys(z, xs[..n]) + {KeyOf(z, xs[n])};
    }
  }

  lemma {:induction false} NothingLater(z: Settings, rows: seq<Row>, f: string, k: Key)
    requires !Listed(z, rows, f, k)
    ensures Later(z, rows, f, k) == {}
  {
    hide KeyOf, Fam;
    if rows != [] {
      var n := |rows| - 1;
      assert forall i :: 0 <= i < n ==> rows[..n][i] == rows[i];
      NothingLater(z, rows[..n], f, k);
    }
  }

  lemma ListedIff(z: Settings, rows: seq<Row>, f: string, k: Key)
    ensures Listed(z, rows, f, k) <==> Holds(z, Fold(z, Bucket(Fam(), rows, f)), k)
  {
    hide KeyOf, Fam, Fold, Bucket;
    var b := Bucket(Fam(), rows, f);
    FoldHolds(z, b);
    BucketMembers(Fam(), rows, f);
    if i :| 0 <= i < |rows| && Fam()(rows[i]) == f && KeyOf(z, rows[i]) == k {
      assert rows[i] in b;
      var j :| 0 <= j < |b| && b[j] == rows[i];
    }
    if j :| 0 <= j < |b| && KeyOf(z, b[j]) == k {
      assert b[j] in rows;
      var i :| 0 <= i < |rows| && rows[i] == b[j];
    }
  }

  /** The hypotheses that appear later are those that stand later in the fold. */
  lemma {:induction false} LaterIsRest(z: Settings, rows: seq<Row>, f: string, i: nat)
    requires i < |Fold(z, Bucket(Fam(), rows, f))|
    ensures var xs := Fold(z, Bucket(Fam(), rows, f));
            Later(z, rows, f, KeyOf(z, xs[i])) == Keys(z, xs[i + 1..])
    decreases |rows|
  {
    hide KeyOf, Fam, Bucket, Fold, Listed;
    assert rows != [] by { EmptyBucket(Fam(), f); EmptyFold(z); }
    var n := |rows| - 1;
    var front, r := rows[..n], rows[n];
    assert rows == front + [r];
    var xs := Fold(z, Bucket(Fam(), front, f));
    AppendShape(Fam(), front, r);
    if Fam()(r) != f {
      LaterIsRest(z, front, f, i);
    } else {
      FoldStep(z, Bucket(Fam(), front, f), r);
      ListedIff(z, front, f, KeyOf(z, r));
      if i < |xs| {
        LaterIsRest(z, front, f, i);
        AbsorbKeys(z, xs, r, i);
        ListedIff(z, front, f, KeyOf(z, xs[i]));
      } else {
        NothingLater(z, front, f, KeyOf(z, r));
        MergeKeepsKey(z, r, r);
      }
    }
  }

  lemma FoldStep(z: Settings, b: seq<Row>, r: Row)
    ensures Fold(z, b + [r]) == Absorb(z, Fold(z, b), r)
  {
    assert (b + [r])[..|b|] == b;
  }

  lemma AbsorbKeys(z: Settings, xs: seq<Row>, r: Row, i: nat)
    requires i < |xs|
    ensures var ys := Absorb(z, xs, r);
      && |ys| >= |xs| && KeyOf(z, ys[i]) == KeyOf(z, xs[i]) && Holds(z, xs, KeyOf(z, xs[i]))
      && Keys(z, ys[i + 1..]) == Keys(z, xs[i + 1..]) + if Holds(z, xs, KeyOf(z, r)) then {} else {KeyOf(z, r)}
  {
    hide KeyOf, Merge, Fresh;
    var ys := Absorb(z, xs, r);
    MergeKeepsKey(z, r, r);
    forall j | 0 <= j < |xs| ensures KeyOf(z, ys[j]) == KeyOf(z, xs[j]) { MergeKeepsKey(z, xs[j], r); }
    var us, vs := xs[i + 1..], ys[i + 1..];
    assert forall j :: 0 <= j < |us| ==> KeyOf(z, vs[j]) == KeyOf(z, us[j]);
    if Holds(z, xs, KeyOf(z, r)) {
      assert |vs| == |us|;
    } else {
      assert vs[|us|] == Fresh(r) && |vs| == |us| + 1;
    }
  }

  /** An entry's place in its fold decides whether the bound keeps it. */
  lemma {:induction false} KeptByPlace(z: Settings, rows: seq<Row>, u: Row, i: nat)
    requires z.maxRows >= 0 && i < |Fold(z, Bucket(Fam(), rows, Fam()(u)))|
    requires Fold(z, Bucket(Fam(), rows, Fam()(u)))[i] == u
    ensures var xs := Fold(z, Bucket(Fam(), rows, Fam()(u)));
            Kept(z, rows, u) <==> i >= |xs| - |Tail(xs, z.maxRows)|
  {
    hide KeyOf, Fam, Bucket, Fold, Later;
    var xs := Fold(z, Bucket(Fam(), rows, Fam()(u)));
    LaterIsRest(z, rows, Fam()(u), i);
    FoldFacts(z, Bucket(Fam(), rows, Fam()(u)));
    KeyCount(z, xs[i + 1..]);
  }
}
