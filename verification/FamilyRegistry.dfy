/** Compaction of the family-progress registry: one row per logical attempt,
    regrouped by family, with a bound on rows per family. */
module FamilyRegistry {
  import opened Json
  import opened Grouping

  /** `show` prints a value as `str` does, `whole` reads one as an integer, and
      `maxRows` is the per-family bound handed to the slice `[-maxRows:]`. */
  datatype Settings = Settings(show: Json -> string, whole: Json -> int, maxRows: int)

  /** `str(row.get(field) or "")`. */
  function Label(z: Settings, row: Object, field: string): string {
    if Truthy(Get(row, field)) then z.show(Get(row, field)) else ""
  }

  function FamilyOf(z: Settings, row: Object): string {
    if Truthy(Get(row, "family_key")) then z.show(Get(row, "family_key")) else "unknown"
  }

  predicate Fingerprinted(z: Settings, row: Object) {
    Label(z, row, "cycle_id") != "" && Label(z, row, "input_state_fingerprint") != ""
  }

  /** The logical attempt a row belongs to; empty when it names none. */
  function KeyOf(z: Settings, row: Object): string {
    if Fingerprinted(z, row) then
      "logical:" + Label(z, row, "cycle_id") + ":" + Label(z, row, "input_state_fingerprint")
    else if Label(z, row, "attempt_identity") != "" then "identity:" + Label(z, row, "attempt_identity")
    else ""
  }

  function Revision(z: Settings, row: Object): int {
    if z.whole(Get(row, "attempt_revision")) > 0 then z.whole(Get(row, "attempt_revision"))
    else if z.whole(Get(row, "attempt_revision_candidate")) > 0 then z.whole(Get(row, "attempt_revision_candidate"))
    else if Truthy(Get(row, "attempt_identity")) then 1 else 0
  }

  predicate Relabels(z: Settings, previous: Object, row: Object) {
    exists f :: f in {"family_key", "root_key", "root_family_key", "blocker_signature"}
             && Label(z, previous, f) != Label(z, row, f)
  }

  /** A later row of the same attempt overrides the earlier one field by field and
      records a correction when it changes a label. */
  function Correct(z: Settings, previous: Object, row: Object): Object {
    var merged := previous + row;
    if !Relabels(z, previous, row) then merged
    else
      var identity := if Truthy(Get(previous, "attempt_identity")) then Label(z, previous, "attempt_identity")
                      else Label(z, row, "attempt_identity");
      var defaults := map[
        "attempt_revision_candidate" := Int(Revision(z, previous) + 1),
        "supersedes_attempt_revision_candidate" := Int(Revision(z, previous)),
        "supersedes_attempt_identity_candidate" := Get(previous, "attempt_identity")];
      defaults + merged + map[
        "registry_label_correction" := Bool(true),
        "correction_of_attempt_identity" := Str(identity)]
  }

  // ---- specification -------------------------------------------------------

  /** A kept row under the key it was first filed with. */
  datatype Entry = Entry(key: string, row: Object)

  predicate Filed(es: seq<Entry>, key: string) {
    key != "" && exists i :: 0 <= i < |es| && es[i].key == key
  }

  function Amend(z: Settings, es: seq<Entry>, row: Object): seq<Entry> {
    seq(|es|, i requires 0 <= i < |es| =>
      if es[i].key == KeyOf(z, row) then Entry(es[i].key, Correct(z, es[i].row, row)) else es[i])
  }

  function Insert(z: Settings, es: seq<Entry>, row: Object): seq<Entry> {
    if Filed(es, KeyOf(z, row)) then Amend(z, es, row) else es + [Entry(KeyOf(z, row), row)]
  }

  function Dedup(z: Settings, rows: seq<Object>): seq<Entry> {
    if rows == [] then [] else Insert(z, Dedup(z, rows[..|rows| - 1]), rows[|rows| - 1])
  }

  function Rows(es: seq<Entry>): seq<Object> {
    seq(|es|, i requires 0 <= i < |es| => es[i].row)
  }

  function Fam(z: Settings): Object -> string {
    row => FamilyOf(z, row)
  }

  /** Keep the last `maxRows` rows of a group. */
  function Last(z: Settings): seq<Object> -> seq<Object> {
    xs => Tail(xs, z.maxRows)
  }

  /** Regroup by family, keeping each family's last rows. */
  function Shelve(z: Settings, rows: seq<Object>): seq<Object> {
    Regroup(Fam(z), Last(z), rows)
  }

  function Compact(z: Settings, rows: seq<Object>): seq<Object> {
    Shelve(z, Rows(Dedup(z, rows)))
  }

  lemma LastShrinks(z: Settings)
    requires z.maxRows >= 0
    ensures Shrinks(Fam(z), Last(z)) && Absorbs(Last(z)) && Last(z)([]) == []
    ensures forall xs, r :: Last(z)(Last(z)(xs) + [r]) == Last(z)(xs + [r])
  {
  }

  /** Shelving first and appending later loses nothing; shelving twice is once. */
  lemma ShelveAppend(z: Settings, rows: seq<Object>, r: Object)
    requires z.maxRows >= 0
    ensures Shelve(z, Shelve(z, rows) + [r]) == Shelve(z, rows + [r])
    ensures Shelve(z, Shelve(z, rows)) == Shelve(z, rows)
  {
    hide FamilyOf, Fam, Last, Regroup;
    LastShrinks(z);
    RegroupAppend(Fam(z), Last(z), rows, r);
    RegroupTwice(Fam(z), Last(z), rows);
  }

  lemma ShelveRewrite(z: Settings, m: Object -> Object, rows: seq<Object>)
    requires KeepsFamilies(Fam(z), m, rows)
    ensures Shelve(z, Rewrite(m, rows)) == Rewrite(m, Shelve(z, rows))
  {
    hide FamilyOf, Fam;
    LastCommutes(z, m);
    RewriteRegroup(Fam(z), Last(z), m, rows);
  }

  /** Per family, a shelved list holds exactly the tail of that family's rows. */
  lemma ShelveShape(z: Settings, rows: seq<Object>, f: string)
    requires z.maxRows >= 0
    ensures Bucket(Fam(z), Shelve(z, rows), f) == Tail(Bucket(Fam(z), rows, f), z.maxRows)
  {
    hide FamilyOf, Fam, Regroup, Bucket, Families;
    LastShrinks(z);
    RegroupShape(Fam(z), Last(z), rows, f);
    FamiliesFacts(Fam(z), rows);
  }

  // ---- amending ------------------------------------------------------------

  /** What the arrival of `r` does to an already kept row. */
  function Amender(z: Settings, r: Object): Object -> Object {
    x => if KeyOf(z, x) == KeyOf(z, r) then Correct(z, x, r) else x
  }

  lemma LastCommutes(z: Settings, m: Object -> Object)
    ensures forall xs :: Last(z)(Rewrite(m, xs)) == Rewrite(m, Last(z)(xs))
  {
  }

  // ---- keys stay distinct --------------------------------------------------

  ghost predicate KeysDistinct(z: Settings, rows: seq<Object>) {
    forall i, j :: 0 <= i < j < |rows| && KeyOf(z, rows[i]) == KeyOf(z, rows[j]) ==> KeyOf(z, rows[i]) == ""
  }

  lemma {:induction false} BucketDistinct(z: Settings, rows: seq<Object>, f: string)
    requires KeysDistinct(z, rows)
    ensures KeysDistinct(z, Bucket(Fam(z), rows, f))
  {
    hide FamilyOf, KeyOf;
    if rows != [] {
      var n := |rows| - 1;
      BucketDistinct(z, rows[..n], f);
      BucketMembers(Fam(z), rows[..n], f);
      var front := Bucket(Fam(z), rows[..n], f);
      forall i | 0 <= i < |front| && KeyOf(z, front[i]) == KeyOf(z, rows[n]) ensures KeyOf(z, front[i]) == "" {
        assert front[i] in rows[..n];
      }
    }
  }

  lemma TailDistinct(z: Settings, rows: seq<Object>)
    requires z.maxRows >= 0 && KeysDistinct(z, rows)
    ensures KeysDistinct(z, Last(z)(rows)) && forall x :: x in Last(z)(rows) ==> x in rows
  {
    hide KeyOf;
    TailFacts(rows, z.maxRows);
  }

  lemma JoinDistinct(z: Settings, xs: seq<Object>, ys: seq<Object>)
    requires KeysDistinct(z, xs) && KeysDistinct(z, ys)
    requires forall x, y :: x in xs && y in ys && KeyOf(z, x) == KeyOf(z, y) ==> KeyOf(z, x) == ""
    ensures KeysDistinct(z, xs + ys)
  {
    hide KeyOf;
    forall i, j | 0 <= i < j < |xs + ys| && KeyOf(z, (xs + ys)[i]) == KeyOf(z, (xs + ys)[j])
      ensures KeyOf(z, (xs + ys)[i]) == ""
    {
      if i < |xs| <= j { assert xs[i] in xs && ys[j - |xs|] in ys; }
    }
  }

  /** One key, one row: rows of different families differ in key. */
  lemma ApartInKey(z: Settings, rows: seq<Object>, x: Object, y: Object)
    requires KeysDistinct(z, rows) && x in rows && y in rows && x != y && KeyOf(z, x) == KeyOf(z, y)
    ensures KeyOf(z, x) == ""
  {
    hide KeyOf;
    var i :| 0 <= i < |rows| && rows[i] == x;
    var j :| 0 <= j < |rows| && rows[j] == y;
    assert i < j || j < i;
  }

  lemma {:induction false} GroupDistinct(z: Settings, rows: seq<Object>, families: seq<string>)
    requires z.maxRows >= 0 && KeysDistinct(z, rows) && Unrepeated(families)
    ensures KeysDistinct(z, Group(Fam(z), Last(z), rows, families))
  {
    hide FamilyOf, KeyOf, Bucket, KeysDistinct, Last, Fam, Unrepeated;
    if families == [] {
      assert KeysDistinct(z, []) by { NoneDistinct(z); }
    } else {
      var n := |families| - 1;
      var front, b := Group(Fam(z), Last(z), rows, families[..n]), Bucket(Fam(z), rows, families[n]);
      LastApart(families);
      GroupDistinct(z, rows, families[..n]);
      BucketDistinct(z, rows, families[n]);
      BucketMembers(Fam(z), rows, families[n]);
      FromRows(z, rows, families[..n]);
      TailDistinct(z, b);
      forall x, y | x in front && y in Last(z)(b) && KeyOf(z, x) == KeyOf(z, y) ensures KeyOf(z, x) == "" {
        ApartInKey(z, rows, x, y);
      }
      JoinDistinct(z, front, Last(z)(b));
    }
  }

  lemma NoneDistinct(z: Settings)
    ensures KeysDistinct(z, [])
  {
  }

  /** A group holds only rows of the list it groups, and of its own families. */
  lemma FromRows(z: Settings, rows: seq<Object>, families: seq<string>)
    requires z.maxRows >= 0
    ensures forall x :: x in Group(Fam(z), Last(z), rows, families) ==> x in rows && Fam(z)(x) in families
  {
    hide FamilyOf, Bucket, Fam;
    LastShrinks(z);
    GroupMembers(Fam(z), Last(z), rows, families);
    forall x | x in Group(Fam(z), Last(z), rows, families) ensures x in rows {
      var b := Bucket(Fam(z), rows, Fam(z)(x));
      TailFacts(b, z.maxRows);
      BucketMembers(Fam(z), rows, Fam(z)(x));
    }
  }

  // ---- deduplication -------------------------------------------------------

  ghost predicate DistinctlyFiled(es: seq<Entry>) {
    forall i, j :: 0 <= i < j < |es| && es[i].key == es[j].key ==> es[i].key == ""
  }

  /** Every kept row still carries the key it is filed under. */
  ghost predicate Steady(z: Settings, es: seq<Entry>) {
    forall i :: 0 <= i < |es| ==> KeyOf(z, es[i].row) == es[i].key
  }

  lemma {:induction false} DedupFilesOnce(z: Settings, rows: seq<Object>)
    ensures DistinctlyFiled(Dedup(z, rows))
  {
    hide KeyOf, Correct;
    if rows != [] {
      DedupFilesOnce(z, rows[..|rows| - 1]);
    }
  }

  function FileAll(z: Settings, rows: seq<Object>): seq<Entry> {
    seq(|rows|, i requires 0 <= i < |rows| => Entry(KeyOf(z, rows[i]), rows[i]))
  }

  /** Rows with distinct keys pass through deduplication untouched. */
  lemma {:induction false} DedupOfDistinct(z: Settings, rows: seq<Object>)
    requires KeysDistinct(z, rows)
    ensures Dedup(z, rows) == FileAll(z, rows)
  {
    hide KeyOf, Correct;
    if rows != [] {
      var n := |rows| - 1;
      DedupOfDistinct(z, rows[..n]);
      var es := FileAll(z, rows[..n]);
      assert !Filed(es, KeyOf(z, rows[n]));
      assert FileAll(z, rows) == es + [Entry(KeyOf(z, rows[n]), rows[n])];
    }
  }

  lemma SteadyRows(z: Settings, es: seq<Entry>)
    requires DistinctlyFiled(es) && Steady(z, es)
    ensures KeysDistinct(z, Rows(es)) && es == FileAll(z, Rows(es))
  {
  }

  /** What compaction leaves: one row per attempt, drawn from the deduplicated rows. */
  lemma CompactDistinct(z: Settings, rows: seq<Object>)
    requires z.maxRows >= 0 && Steady(z, Dedup(z, rows))
    ensures KeysDistinct(z, Compact(z, rows))
    ensures forall x :: x in Compact(z, rows) ==> x in Rows(Dedup(z, rows))
  {
    hide KeyOf, Correct, FamilyOf;
    DedupFilesOnce(z, rows);
    SteadyRows(z, Dedup(z, rows));
    FamiliesFacts(Fam(z), Rows(Dedup(z, rows)));
    GroupDistinct(z, Rows(Dedup(z, rows)), Families(Fam(z), Rows(Dedup(z, rows))));
    FromRows(z, Rows(Dedup(z, rows)), Families(Fam(z), Rows(Dedup(z, rows))));
  }

  // ---- streaming equals batch ----------------------------------------------

  ghost predicate Keeps(z: Settings, rows: seq<Object>, key: string) {
    exists i :: 0 <= i < |rows| && KeyOf(z, rows[i]) == key
  }

  /** Amending the kept row of its attempt leaves that row in its family. */
  ghost predicate Stays(z: Settings, rows: seq<Object>, r: Object) {
    KeyOf(z, r) != "" ==>
      forall x :: x in rows && KeyOf(z, x) == KeyOf(z, r) ==> FamilyOf(z, Correct(z, x, r)) == FamilyOf(z, x)
  }

  /** The new row names no attempt, a fresh one, or one whose row is still kept. */
  ghost predicate Welcome(z: Settings, history: seq<Object>, r: Object) {
    !Filed(Dedup(z, history), KeyOf(z, r)) || Keeps(z, Compact(z, history), KeyOf(z, r))
  }

  /** The batch side of one step. */
  lemma {:induction false} BatchStep(z: Settings, h: seq<Object>, r: Object)
    requires z.maxRows >= 0 && Steady(z, Dedup(z, h)) && Stays(z, Rows(Dedup(z, h)), r)
    ensures Compact(z, h + [r])
         == if Filed(Dedup(z, h), KeyOf(z, r)) then Rewrite(Amender(z, r), Compact(z, h))
            else Shelve(z, Rows(Dedup(z, h)) + [r])
  {
    hide KeyOf, Correct, FamilyOf, Shelve;
    var es := Dedup(z, h);
    assert (h + [r])[..|h|] == h;
    assert Dedup(z, h + [r]) == Insert(z, es, r);
    if Filed(es, KeyOf(z, r)) {
      assert Rows(Amend(z, es, r)) == Rewrite(Amender(z, r), Rows(es));
      ShelveRewrite(z, Amender(z, r), Rows(es));
    } else {
      assert Rows(es + [Entry(KeyOf(z, r), r)]) == Rows(es) + [r];
    }
  }

  /** The streaming side: compacting an already compacted history plus one row. */
  lemma {:induction false} StreamSide(z: Settings, h: seq<Object>, r: Object)
    requires z.maxRows >= 0 && Steady(z, Dedup(z, h)) && Stays(z, Rows(Dedup(z, h)), r)
    ensures var c := Compact(z, h);
            Compact(z, c + [r]) ==
              if KeyOf(z, r) != "" && Keeps(z, c, KeyOf(z, r)) then Rewrite(Amender(z, r), c) else Shelve(z, c + [r])
  {
    hide KeyOf, Correct, FamilyOf, Shelve, Compact;
    var c := Compact(z, h);
    CompactDistinct(z, h);
    DedupOfDistinct(z, c);
    CompactUnfold(z, h);
    ShelveAppend(z, Rows(Dedup(z, h)), r);
    BatchStepOn(z, c, r);
  }

  lemma CompactUnfold(z: Settings, h: seq<Object>)
    ensures Compact(z, h) == Shelve(z, Rows(Dedup(z, h)))
  {
  }

  lemma BatchStepOn(z: Settings, c: seq<Object>, r: Object)
    requires z.maxRows >= 0 && KeysDistinct(z, c) && Shelve(z, c) == c && Stays(z, c, r)
    ensures Compact(z, c + [r])
         == if KeyOf(z, r) != "" && Keeps(z, c, KeyOf(z, r)) then Rewrite(Amender(z, r), c) else Shelve(z, c + [r])
  {
    hide KeyOf, Correct, FamilyOf, Shelve;
    DedupOfDistinct(z, c);
    assert Rows(FileAll(z, c)) == c;
    BatchStep(z, c, r);
    assert Filed(FileAll(z, c), KeyOf(z, r)) <==> KeyOf(z, r) != "" && Keeps(z, c, KeyOf(z, r)) by {
      if i :| 0 <= i < |c| && KeyOf(z, c[i]) == KeyOf(z, r) {
        assert FileAll(z, c)[i].key == KeyOf(z, r);
      }
    }
  }

  /** As long as corrections stay in their family, compacting after an append gives what
      compacting the whole history gives exactly when the new row names no attempt, a
      fresh one, or one still kept. */
  lemma {:induction false} StayStepIff(z: Settings, h: seq<Object>, r: Object)
    requires z.maxRows >= 0 && Steady(z, Dedup(z, h)) && Stays(z, Rows(Dedup(z, h)), r)
    ensures Compact(z, Compact(z, h) + [r]) == Compact(z, h + [r]) <==> Welcome(z, h, r)
  {
    hide KeyOf, Correct, FamilyOf, Shelve, Compact, Stays, Steady, Dedup;
    var es, c, k := Dedup(z, h), Compact(z, h), KeyOf(z, r);
    BatchStep(z, h, r);
    StreamSide(z, h, r);
    CompactUnfold(z, h);
    ShelveAppend(z, Rows(es), r);
    if Filed(es, k) && !Keeps(z, c, k) {
      assert Rewrite(Amender(z, r), c) == c;
      AppendedRowSurvives(z, c, r);
      assert Shelve(z, c + [r]) != c;
    } else if !Filed(es, k) && k != "" && Keeps(z, c, k) {
      KeptWasFiled(z, h, k);
      assert false;
    }
  }

  lemma KeptWasFiled(z: Settings, h: seq<Object>, key: string)
    requires z.maxRows >= 0 && Steady(z, Dedup(z, h)) && key != "" && Keeps(z, Compact(z, h), key)
    ensures Filed(Dedup(z, h), key)
  {
    hide KeyOf, Correct, FamilyOf, Compact, Dedup;
    CompactDistinct(z, h);
    var i :| 0 <= i < |Compact(z, h)| && KeyOf(z, Compact(z, h)[i]) == key;
    assert Compact(z, h)[i] in Rows(Dedup(z, h));
  }

  lemma AppendedRowSurvives(z: Settings, c: seq<Object>, r: Object)
    requires z.maxRows >= 0
    ensures r in Shelve(z, c + [r])
  {
    hide KeyOf, FamilyOf, Shelve, Bucket, Families, Tail, Fam;
    var f := Fam(z)(r);
    ShelveShape(z, c + [r], f);
    AppendShape(Fam(z), c, r);
    TailAppend(Bucket(Fam(z), c, f), r, z.maxRows);
    BucketMembers(Fam(z), Shelve(z, c + [r]), f);
  }

  // ---- a normal form -------------------------------------------------------

  lemma {:induction false} DedupShortens(z: Settings, rows: seq<Object>)
    ensures |Dedup(z, rows)| <= |rows|
    ensures |Dedup(z, rows)| == |rows| ==> Dedup(z, rows) == FileAll(z, rows) && KeysDistinct(z, rows)
  {
    hide KeyOf, Correct;
    if rows != [] {
      var n := |rows| - 1;
      DedupShortens(z, rows[..n]);
      if |Dedup(z, rows)| == |rows| {
        var es := FileAll(z, rows[..n]);
        assert !Filed(es, KeyOf(z, rows[n]));
        assert FileAll(z, rows) == es + [Entry(KeyOf(z, rows[n]), rows[n])];
        assert forall i :: 0 <= i < n ==> es[i].key == KeyOf(z, rows[i]);
      }
    }
  }

  function Each(): Object -> nat { _ => 1 }

  lemma {:induction false} GroupShortens(z: Settings, rows: seq<Object>, families: seq<string>)
    ensures |Group(Fam(z), Last(z), rows, families)| <= SumFamilies(Fam(z), Each(), rows, families)
  {
    hide Fam, Bucket, Each, Sum;
    if families != [] {
      var n := |families| - 1;
      GroupShortens(z, rows, families[..n]);
      SumOnes(Bucket(Fam(z), rows, families[n]));
    }
  }

  lemma {:induction false} SumOnes(rows: seq<Object>)
    ensures Sum(Each(), rows) == |rows|
  {
    if rows != [] { SumOnes(rows[..|rows| - 1]); }
  }

  lemma ShelveShortens(z: Settings, rows: seq<Object>)
    ensures |Shelve(z, rows)| <= |rows|
  {
    hide Fam, Last, Families, Group, Sum, SumFamilies, Each;
    GroupShortens(z, rows, Families(Fam(z), rows));
    SumPartition(Fam(z), Each(), rows);
    SumOnes(rows);
  }

  /** Compacting a compacted registry changes nothing exactly when no two of its rows
      now carry the same key; they never do if every kept row still carries the key it
      was filed under. With a positive bound no family has more rows than the bound. */
  lemma {:induction false} CompactIsNormalForm(z: Settings, rows: seq<Object>, f: string)
    requires z.maxRows >= 0
    ensures Compact(z, Compact(z, rows)) == Compact(z, rows) <==> KeysDistinct(z, Compact(z, rows))
    ensures Steady(z, Dedup(z, rows)) ==> KeysDistinct(z, Compact(z, rows))
    ensures z.maxRows > 0 ==> |Bucket(Fam(z), Compact(z, rows), f)| <= z.maxRows
  {
    hide KeyOf, Correct, FamilyOf, Bucket, Dedup, Shelve, Steady, Fam;
    var d := Rows(Dedup(z, rows));
    var c := Compact(z, rows);
    if Steady(z, Dedup(z, rows)) { CompactDistinct(z, rows); }
    if KeysDistinct(z, c) {
      DedupOfDistinct(z, c);
      assert Rows(FileAll(z, c)) == c;
    }
    DedupShortens(z, c);
    ShelveShortens(z, Rows(Dedup(z, c)));
    ShelveAppend(z, d, map[]);
    ShelveShape(z, d, f);
    TailFacts(Bucket(Fam(z), d, f), z.maxRows);
  }

  // ---- corrections that move a row -----------------------------------------

  /** Exactly one row is rewritten out of its family. */
  lemma {:induction false} BucketLoses(fam: Object -> string, m: Object -> Object, rows: seq<Object>, i: nat)
    requires i < |rows| && fam(m(rows[i])) != fam(rows[i])
    requires forall j :: 0 <= j < |rows| && j != i ==> m(rows[j]) == rows[j]
    ensures |Bucket(fam, Rewrite(m, rows), fam(rows[i]))| == |Bucket(fam, rows, fam(rows[i]))| - 1
    decreases |rows|
  {
    var n := |rows| - 1;
    assert Rewrite(m, rows)[..n] == Rewrite(m, rows[..n]);
    if i == n {
      assert Rewrite(m, rows[..n]) == rows[..n];
    } else {
      BucketLoses(fam, m, rows[..n], i);
    }
  }

  /** The only row of an attempt is the one its correction rewrites. */
  lemma AmendsOne(z: Settings, rows: seq<Object>, r: Object, i: nat)
    requires KeysDistinct(z, rows) && i < |rows| && KeyOf(z, rows[i]) == KeyOf(z, r) != ""
    requires FamilyOf(z, Correct(z, rows[i], r)) != FamilyOf(z, rows[i])
    ensures var f := FamilyOf(z, rows[i]);
            |Bucket(Fam(z), Rewrite(Amender(z, r), rows), f)| == |Bucket(Fam(z), rows, f)| - 1
  {
    hide KeyOf, Correct, FamilyOf, Bucket;
    BucketLoses(Fam(z), Amender(z, r), rows, i);
  }

  lemma {:induction false} DedupRewrites(z: Settings, h: seq<Object>, r: Object)
    requires Steady(z, Dedup(z, h)) && Filed(Dedup(z, h), KeyOf(z, r))
    ensures Rows(Dedup(z, h + [r])) == Rewrite(Amender(z, r), Rows(Dedup(z, h)))
  {
    hide KeyOf, Correct;
    assert (h + [r])[..|h|] == h;
  }

  /** A correction that moves a kept row out of a family with more rows than the bound
      always breaks the step: the whole history brings a dropped row of that family back,
      the compacted one cannot. */
  lemma {:induction false} MoveRevivesDropped(z: Settings, h: seq<Object>, r: Object, x: Object)
    requires z.maxRows > 0 && Steady(z, Dedup(z, h)) && KeyOf(z, r) != ""
    requires x in Compact(z, h) && KeyOf(z, x) == KeyOf(z, r) && FamilyOf(z, Correct(z, x, r)) != FamilyOf(z, x)
    requires |Bucket(Fam(z), Rows(Dedup(z, h)), FamilyOf(z, x))| > z.maxRows
    ensures Compact(z, Compact(z, h) + [r]) != Compact(z, h + [r])
  {
    hide KeyOf, Correct, FamilyOf, Bucket, Dedup, Shelve, Compact, Fam, Amender, KeysDistinct, Steady;
    var es, c, f := Dedup(z, h), Compact(z, h), Fam(z)(x);
    var d := Rows(es);
    assert f == FamilyOf(z, x) by { FamIs(z, x); }
    CompactDistinct(z, h);
    DedupFilesOnce(z, h);
    SteadyRows(z, es);
    DedupOfDistinct(z, c);
    assert Rows(FileAll(z, c)) == c;
    var i :| 0 <= i < |d| && d[i] == x;
    var j :| 0 <= j < |c| && c[j] == x;
    assert FileAll(z, d)[i].key == KeyOf(z, r) && FileAll(z, c)[j].key == KeyOf(z, r);
    AmendsOne(z, d, r, i);
    AmendsOne(z, c, r, j);
    DedupRewrites(z, h, r);
    assert Steady(z, FileAll(z, c)) by { FiledSteady(z, c); }
    DedupRewrites(z, c, r);
    CompactUnfold(z, h);
    CompactUnfold(z, h + [r]);
    CompactUnfold(z, c + [r]);
    ShelveShape(z, d, f);
    ShelveShape(z, Rewrite(Amender(z, r), d), f);
    ShelveShape(z, Rewrite(Amender(z, r), c), f);
  }

  lemma FamIs(z: Settings, x: Object)
    ensures Fam(z)(x) == FamilyOf(z, x)
  {
  }

  lemma FiledSteady(z: Settings, rows: seq<Object>)
    ensures Steady(z, FileAll(z, rows))
  {
  }

  // ---- when keys are steady ------------------------------------------------

  /** An amended row keeps its key exactly when the key came from cycle and input
      fingerprint, or the merged row still lacks one of the two. */
  lemma KeySteadyIff(z: Settings, previous: Object, r: Object)
    requires KeyOf(z, r) != ""
    ensures KeyOf(z, Correct(z, previous, r)) == KeyOf(z, r) <==>
            (Fingerprinted(z, r) || !Fingerprinted(z, previous + r))
  {
    CorrectKeepsIdentity(z, previous, r, "cycle_id");
    CorrectKeepsIdentity(z, previous, r, "input_state_fingerprint");
    CorrectKeepsIdentity(z, previous, r, "attempt_identity");
    hide Correct;
    if !Fingerprinted(z, r) && Fingerprinted(z, previous + r) {
      assert KeyOf(z, Correct(z, previous, r))[0] == 'l';
      assert KeyOf(z, r)[0] == 'i';
    }
  }

  lemma CorrectKeepsIdentity(z: Settings, previous: Object, r: Object, f: string)
    requires f in {"cycle_id", "input_state_fingerprint", "attempt_identity"}
    ensures Get(Correct(z, previous, r), f) == Get(previous + r, f)
  {
    hide Correct, Get;
    assert |f| in {8, 23, 16};
    CorrectKeepsField(z, previous, r, f);
  }

  lemma CorrectKeepsField(z: Settings, previous: Object, r: Object, f: string)
    requires |f| < 25
    ensures Get(Correct(z, previous, r), f) == Get(previous + r, f)
  {
  }

  /** Regrouping by family reorders the registry: the newest row need not stay last. */
  lemma RegroupingReordersHistory(z: Settings, a: Object, b: Object, c: Object)
    requires z.maxRows == 0 || z.maxRows >= 2
    requires Fam(z)(a) == Fam(z)(c) != Fam(z)(b)
    ensures Shelve(z, [a, b, c]) == [a, c, b]
  {
    hide FamilyOf, Families, Bucket, Fam;
    var f, g := Fam(z)(a), Fam(z)(b);
    ThreeRows(Fam(z), a, b, c);
    assert [f, g][..1] == [f] && [f][..0] == [];
    assert Group(Fam(z), Last(z), [a, b, c], [f]) == [a, c];
  }

  lemma ThreeRows<T>(fam: T -> string, a: T, b: T, c: T)
    requires fam(a) == fam(c) != fam(b)
    ensures Families(fam, [a, b, c]) == [fam(a), fam(b)]
    ensures Bucket(fam, [a, b, c], fam(a)) == [a, c] && Bucket(fam, [a, b, c], fam(b)) == [b]
  {
    hide Bucket, Families;
    EmptyBucket(fam, fam(a));
    EmptyBucket(fam, fam(b));
    AppendShape(fam, [], a);
    AppendShape(fam, [a], b);
    AppendShape(fam, [a, b], c);
    assert [] + [a] == [a] && [a] + [b] == [a, b] && [a, b] + [c] == [a, b, c];
  }

  // ---- the loops -----------------------------------------------------------

  /** The index table points each key at the row filed under it. */
  ghost predicate Indexes(index: map<string, nat>, es: seq<Entry>) {
    && (forall k :: k in index ==> k != "" && index[k] < |es| && es[index[k]].key == k)
    && forall i :: 0 <= i < |es| && es[i].key != "" ==> es[i].key in index
  }

  lemma AmendOne(z: Settings, es: seq<Entry>, row: Object, i: nat)
    requires DistinctlyFiled(es) && i < |es| && es[i].key == KeyOf(z, row) != ""
    ensures Insert(z, es, row) == Amend(z, es, row)
    ensures Rows(Amend(z, es, row)) == Rows(es)[i := Correct(z, Rows(es)[i], row)]
    ensures forall index :: Indexes(index, es) ==> Indexes(index, Amend(z, es, row))
  {
  }

  lemma FileOne(z: Settings, es: seq<Entry>, row: Object, index: map<string, nat>)
    requires Indexes(index, es) && (KeyOf(z, row) == "" || KeyOf(z, row) !in index)
    ensures Insert(z, es, row) == es + [Entry(KeyOf(z, row), row)]
    ensures Rows(es + [Entry(KeyOf(z, row), row)]) == Rows(es) + [row]
    ensures Indexes(if KeyOf(z, row) == "" then index else index[KeyOf(z, row) := |es|], es + [Entry(KeyOf(z, row), row)])
  {
  }

  method Deduplicate(z: Settings, rows: seq<Object>) returns (kept: seq<Object>)
    ensures kept == Rows(Dedup(z, rows))
  {
    hide KeyOf, Correct, Amend, Insert, Indexes, Rows, DistinctlyFiled;
    kept := [];
    var index: map<string, nat> := map[];
    ghost var es: seq<Entry> := [];
    EmptyIndex();
    for n := 0 to |rows|
      invariant es == Dedup(z, rows[..n])
      invariant kept == Rows(es) && Indexes(index, es)
    {
      assert rows[..n + 1][..n] == rows[..n];
      var key := KeyOf(z, rows[n]);
      DedupFilesOnce(z, rows[..n]);
      if key != "" && key in index {
        var i := index[key];
        IndexHit(index, es, key);
        AmendOne(z, es, rows[n], i);
        kept := kept[i := Correct(z, kept[i], rows[n])];
        es := Amend(z, es, rows[n]);
      } else {
        FileOne(z, es, rows[n], index);
        RowCount(es);
        if key != "" { index := index[key := |kept|]; }
        kept := kept + [rows[n]];
        es := es + [Entry(key, rows[n])];
      }
    }
    assert rows[..|rows|] == rows;
  }

  lemma EmptyIndex()
    ensures Rows([]) == [] && Indexes(map[], [])
  {
  }

  lemma RowCount(es: seq<Entry>)
    ensures |Rows(es)| == |es|
  {
  }

  lemma IndexHit(index: map<string, nat>, es: seq<Entry>, key: string)
    requires Indexes(index, es) && key in index
    ensures index[key] < |es| == |Rows(es)| && es[index[key]].key == key
  {
  }

  /** Fill one bucket per family, then concatenate the bucket tails in the order
      the families first appeared. */
  method CompactRegistry(z: Settings, rows: seq<Object>) returns (compacted: seq<Object>)
    ensures compacted == Compact(z, rows)
  {
    hide KeyOf, Correct, FamilyOf, Dedup, Tail, Rows;
    var kept := Deduplicate(z, rows);
    var order: seq<string> := [];
    var buckets: map<string, seq<Object>> := map[];
    for n := 0 to |kept|
      invariant order == Families(Fam(z), kept[..n])
      invariant forall f :: f in buckets <==> f in order
      invariant forall f :: f in buckets ==> buckets[f] == Bucket(Fam(z), kept[..n], f)
    {
      assert kept[..n + 1][..n] == kept[..n];
      FamiliesFacts(Fam(z), kept[..n]);
      var f := FamilyOf(z, kept[n]);
      if f !in buckets {
        order := order + [f];
        buckets := buckets[f := []];
      }
      buckets := buckets[f := buckets[f] + [kept[n]]];
    }
    assert kept[..|kept|] == kept;
    compacted := [];
    for n := 0 to |order|
      invariant compacted == Group(Fam(z), Last(z), kept, order[..n])
    {
      assert order[..n + 1][..n] == order[..n];
      compacted := compacted + Tail(buckets[order[n]], z.maxRows);
    }
    assert order[..|order|] == order;
  }
}
