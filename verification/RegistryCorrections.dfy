/** The rows of the compacted registry, field by field: what is one attempt, what a
    correction records, and which rows a family keeps. */
module RegistryCorrections {
  import opened Json
  import opened Wrappers
  import opened Grouping
  import opened FamilyRegistry

  // ---- what a correction records -------------------------------------------

  /** The rows of an attempt laid over each other, later fields winning. */
  function Overlay(gs: seq<Object>): Object {
    if gs == [] then map[] else Overlay(gs[..|gs| - 1]) + gs[|gs| - 1]
  }

  function Labels(): set<string> { {"family_key", "root_key", "root_family_key", "blocker_signature"} }

  ghost predicate SameLabels(z: Settings, x: Object, y: Object) {
    forall f :: f in Labels() ==> Label(z, x, f) == Label(z, y, f)
  }

  /** The first row that changes a label, and the last. */
  ghost function FirstChange(z: Settings, gs: seq<Object>): Option<nat> {
    if |gs| <= 1 then None
    else
      var n := |gs| - 1;
      var before := FirstChange(z, gs[..n]);
      if before.Some? then before else if SameLabels(z, Overlay(gs[..n]), gs[n]) then None else Some(n)
  }

  ghost function LastChange(z: Settings, gs: seq<Object>): Option<nat> {
    if |gs| <= 1 then None
    else
      var n := |gs| - 1;
      if SameLabels(z, Overlay(gs[..n]), gs[n]) then LastChange(z, gs[..n]) else Some(n)
  }

  /** The revision a row states, or 1 for a row that at least names its attempt. */
  function StatedRevision(z: Settings, x: Object): int {
    var stated := z.whole(Get(x, "attempt_revision"));
    if stated > 0 then stated else if Truthy(Get(x, "attempt_identity")) then 1 else 0
  }

  /** The marks of a first correction, and those every correction sets. */
  function Superseding(revision: int, identity: Json): Object {
    map["attempt_revision_candidate" := Int(revision + 1), "supersedes_attempt_revision_candidate" := Int(revision),
        "supersedes_attempt_identity_candidate" := identity]
  }

  function Flags(identity: string): Object {
    map["registry_label_correction" := Bool(true), "correction_of_attempt_identity" := Str(identity)]
  }

  /** The row an attempt leaves: its rows laid over each other and, if a label changed,
      the marks of a correction. Those name the attempt as it stood before the last change,
      and supersede the revision that stood before the first. */
  ghost function Corrected(z: Settings, gs: seq<Object>): Object {
    var first, last := FirstChange(z, gs), LastChange(z, gs);
    if first.None? || last.None? || first.value >= |gs| || last.value >= |gs| then Overlay(gs)
    else
      var superseded, before := Overlay(gs[..first.value]), Overlay(gs[..last.value]);
      var named := if Truthy(Get(before, "attempt_identity")) then before else gs[last.value];
      Overlay(gs) + (Superseding(StatedRevision(z, superseded), Get(superseded, "attempt_identity"))
                     + Flags(Label(z, named, "attempt_identity")))
  }

  function Marks(): set<string> {
    {"registry_label_correction", "correction_of_attempt_identity", "attempt_revision_candidate",
     "supersedes_attempt_revision_candidate", "supersedes_attempt_identity_candidate"}
  }

  /** The rows state none of the correction fields, and nothing reads as no number. */
  ghost predicate Plain(z: Settings, rows: seq<Object>) {
    z.whole(Null) <= 0 && forall i :: 0 <= i < |rows| ==> rows[i].Keys !! Marks()
  }

  lemma MarksApart()
    ensures Labels() !! Marks() && "attempt_identity" !in Marks() && "attempt_revision" !in Marks()
  {
    LabelsShort();
    MarksLong();
    hide Labels, Marks;
  }

  lemma LabelsShort()
    ensures forall f :: f in Labels() ==> |f| <= 17
    ensures |"attempt_identity"| == 16 == |"attempt_revision"|
  {
  }

  lemma MarksLong()
    ensures forall m :: m in Marks() ==> |m| > 17
  {
  }

  lemma {:induction false} OverlayPlain(z: Settings, gs: seq<Object>)
    requires Plain(z, gs)
    ensures Overlay(gs).Keys !! Marks()
  {
    if gs != [] { OverlayPlain(z, gs[..|gs| - 1]); }
  }

  lemma {:induction false} ChangesPlaced(z: Settings, gs: seq<Object>)
    ensures FirstChange(z, gs).Some? <==> LastChange(z, gs).Some?
    ensures FirstChange(z, gs).Some? ==> 0 < FirstChange(z, gs).value <= LastChange(z, gs).value < |gs|
  {
    if |gs| > 1 { ChangesPlaced(z, gs[..|gs| - 1]); }
  }

  /** What compaction makes of an attempt's rows, one after the other. */
  function Corrections(z: Settings, gs: seq<Object>): Object
    requires gs != []
  {
    var n := |gs| - 1;
    if n == 0 then gs[0] else Correct(z, Corrections(z, gs[..n]), gs[n])
  }

  lemma RelabelsIff(z: Settings, x: Object, y: Object)
    ensures Relabels(z, x, y) <==> !SameLabels(z, x, y)
  {
  }

  lemma SameReading(z: Settings, x: Object, y: Object)
    requires forall f :: f in Labels() + {"attempt_identity"} ==> Get(x, f) == Get(y, f)
    ensures forall f :: f in Labels() + {"attempt_identity"} ==> Label(z, x, f) == Label(z, y, f)
    ensures forall r :: SameLabels(z, x, r) <==> SameLabels(z, y, r)
  {
  }

  /** Marks aside, the left row is the overlay. */
  lemma CorrectedReads(z: Settings, gs: seq<Object>)
    ensures forall f :: f in Labels() + {"attempt_identity", "attempt_revision"} ==> Get(Corrected(z, gs), f) == Get(Overlay(gs), f)
  {
    MarksApart();
    hide Overlay, Labels, StatedRevision;
  }

  lemma PlainRevision(z: Settings, x: Object)
    requires z.whole(Null) <= 0 && x.Keys !! Marks()
    ensures Revision(z, x) == StatedRevision(z, x)
  {
    assert "attempt_revision_candidate" !in x;
  }

  lemma {:induction false} CorrectionsExactly(z: Settings, gs: seq<Object>)
    requires gs != [] && Plain(z, gs)
    ensures Corrections(z, gs) == Corrected(z, gs)
    decreases |gs|
  {
    hide Overlay, StatedRevision, SameLabels, Correct, Plain;
    var n := |gs| - 1;
    if n == 0 {
      OneRow(z, gs);
    } else {
      PlainFront(z, gs);
      CorrectionsExactly(z, gs[..n]);
      NextCorrection(z, gs);
    }
  }

  lemma OneRow(z: Settings, gs: seq<Object>)
    requires |gs| == 1
    ensures Corrected(z, gs) == gs[0]
  {
    assert Overlay(gs[..0]) == map[];
  }

  lemma PlainFront(z: Settings, gs: seq<Object>)
    requires gs != [] && Plain(z, gs)
    ensures Plain(z, gs[..|gs| - 1]) && gs[|gs| - 1].Keys !! Marks() && z.whole(Null) <= 0
  {
  }

  lemma {:induction false} NextCorrection(z: Settings, gs: seq<Object>)
    requires |gs| > 1 && Plain(z, gs)
    ensures Correct(z, Corrected(z, gs[..|gs| - 1]), gs[|gs| - 1]) == Corrected(z, gs)
  {
    hide StatedRevision, SameLabels, Correct, Plain, Labels, Marks, Overlay, FirstChange, LastChange, Revision;
    var n := |gs| - 1;
    var front, r, x := gs[..n], gs[n], Corrected(z, gs[..n]);
    PlainFront(z, gs);
    OverlayPlain(z, front);
    CorrectedReads(z, front);
    SameReading(z, x, Overlay(front));
    RelabelsIff(z, x, r);
    ChangesPlaced(z, front);
    ChangesPlaced(z, gs);
    NextChange(z, gs);
    assert Overlay(gs) == Overlay(front) + r by { OverlayNext(gs); }
    if SameLabels(z, Overlay(front), r) {
      Uncorrected(z, x, r);
      Keeps(z, gs);
    } else {
      PlainRevision(z, Overlay(front));
      CorrectedHere(z, gs);
    }
  }

  lemma OverlayNext(gs: seq<Object>)
    requires gs != []
    ensures Overlay(gs) == Overlay(gs[..|gs| - 1]) + gs[|gs| - 1]
  {
  }

  lemma NextChange(z: Settings, gs: seq<Object>)
    requires |gs| > 1
    ensures var n := |gs| - 1; var same := SameLabels(z, Overlay(gs[..n]), gs[n]); var before := FirstChange(z, gs[..n]);
      && FirstChange(z, gs) == (if before.Some? then before else if same then None else Some(n))
      && LastChange(z, gs) == if same then LastChange(z, gs[..n]) else Some(n)
  {
    hide Overlay, SameLabels;
  }

  lemma Uncorrected(z: Settings, x: Object, r: Object)
    requires !Relabels(z, x, r)
    ensures Correct(z, x, r) == x + r
  {
  }

  lemma MarksKept(o: Object, m: Object, r: Object)
    requires r.Keys !! m.Keys
    ensures (o + m) + r == (o + r) + m
  {
  }

  /** A row that changes no label. */
  lemma {:induction false} Keeps(z: Settings, gs: seq<Object>)
    requires |gs| > 1 && Plain(z, gs) && SameLabels(z, Overlay(gs[..|gs| - 1]), gs[|gs| - 1])
    ensures Corrected(z, gs[..|gs| - 1]) + gs[|gs| - 1] == Corrected(z, gs)
  {
    hide StatedRevision, SameLabels, Plain, Overlay, FirstChange, LastChange, Label, Superseding, Flags, Marks;
    var n := |gs| - 1;
    var front, r := gs[..n], gs[n];
    PlainFront(z, gs);
    NextChange(z, gs);
    ChangesPlaced(z, front);
    OverlayNext(gs);
    if FirstChange(z, front).Some? {
      var p, q := FirstChange(z, front).value, LastChange(z, front).value;
      assert front[..p] == gs[..p] && front[..q] == gs[..q] && front[q] == gs[q];
      var superseded, before := Overlay(front[..p]), Overlay(front[..q]);
      var text := Label(z, if Truthy(Get(before, "attempt_identity")) then before else front[q], "attempt_identity");
      MarkKeys(StatedRevision(z, superseded), Get(superseded, "attempt_identity"), text);
      MarksKept(Overlay(front), Superseding(StatedRevision(z, superseded), Get(superseded, "attempt_identity")) + Flags(text), r);
    }
  }

  lemma CorrectUnfolds(z: Settings, x: Object, r: Object)
    requires Relabels(z, x, r)
    ensures Correct(z, x, r)
         == Superseding(Revision(z, x), Get(x, "attempt_identity")) + (x + r)
            + Flags(Label(z, if Truthy(Get(x, "attempt_identity")) then x else r, "attempt_identity"))
  {
    hide Revision, Label, Relabels;
  }

  lemma MarksFirst(o: Object, r: Object, s: Object, f: Object)
    requires o.Keys !! s.Keys && r.Keys !! s.Keys
    ensures s + (o + r) + f == (o + r) + (s + f)
  {
  }

  lemma MarksAgain(o: Object, m: Object, n: Object, r: Object, s: Object, f: Object)
    requires s.Keys == m.Keys && n.Keys == f.Keys && r.Keys !! m.Keys + n.Keys
    ensures s + ((o + (m + n)) + r) + f == (o + r) + (m + f)
  {
  }

  lemma MarkKeys(revision: int, identity: Json, text: string)
    ensures Superseding(revision, identity).Keys + Flags(text).Keys == Marks()
  {
  }

  lemma SameMarkKeys(revision: int, identity: Json, text: string, revision': int, identity': Json, text': string)
    ensures Superseding(revision, identity).Keys == Superseding(revision', identity').Keys && Flags(text).Keys == Flags(text').Keys
  {
  }

  /** A row that changes a label. */
  lemma {:induction false} CorrectedHere(z: Settings, gs: seq<Object>)
    requires |gs| > 1 && Plain(z, gs) && !SameLabels(z, Overlay(gs[..|gs| - 1]), gs[|gs| - 1])
    requires Relabels(z, Corrected(z, gs[..|gs| - 1]), gs[|gs| - 1])
    ensures Correct(z, Corrected(z, gs[..|gs| - 1]), gs[|gs| - 1]) == Corrected(z, gs)
  {
    hide StatedRevision, SameLabels, Plain, Overlay, FirstChange, LastChange, Relabels, Revision, Labels, Label, Correct, Superseding,
      Flags, Marks;
    var n := |gs| - 1;
    var front, r := gs[..n], gs[n];
    var x, o := Corrected(z, front), Overlay(front);
    PlainFront(z, gs);
    NextChange(z, gs);
    ChangesPlaced(z, front);
    ChangesPlaced(z, gs);
    OverlayNext(gs);
    IdentityReads(z, front);
    CorrectUnfolds(z, x, r);
    var who := Label(z, if Truthy(Get(o, "attempt_identity")) then o else r, "attempt_identity");
    var s := Superseding(Revision(z, x), Get(x, "attempt_identity"));
    MarkKeys(Revision(z, x), Get(x, "attempt_identity"), who);
    if FirstChange(z, front).Some? {
      var p, q := FirstChange(z, front).value, LastChange(z, front).value;
      assert front[..p] == gs[..p];
      var superseded, before := Overlay(front[..p]), Overlay(front[..q]);
      Again(o, r, StatedRevision(z, superseded), Get(superseded, "attempt_identity"),
            Label(z, if Truthy(Get(before, "attempt_identity")) then before else front[q], "attempt_identity"),
            Revision(z, x), Get(x, "attempt_identity"), who);
    } else {
      OverlayPlain(z, front);
      PlainRevision(z, o);
      assert o.Keys !! s.Keys && r.Keys !! s.Keys;
      MarksFirst(o, r, s, Flags(who));
    }
  }

  /** A later change keeps what was superseded and renews the flags. */
  lemma {:induction false} Again(o: Object, r: Object, revision: int, identity: Json, text: string, revision': int, identity': Json, who: string)
    requires r.Keys !! Marks()
    ensures Superseding(revision', identity') + ((o + (Superseding(revision, identity) + Flags(text))) + r) + Flags(who)
         == (o + r) + (Superseding(revision, identity) + Flags(who))
  {
    hide Superseding, Flags, Marks;
    SameMarkKeys(revision, identity, text, revision', identity', who);
    MarkKeys(revision, identity, text);
    MarksAgain(o, Superseding(revision, identity), Flags(text), r, Superseding(revision', identity'), Flags(who));
  }

  lemma IdentityReads(z: Settings, gs: seq<Object>)
    ensures Get(Corrected(z, gs), "attempt_identity") == Get(Overlay(gs), "attempt_identity")
    ensures Label(z, Corrected(z, gs), "attempt_identity") == Label(z, Overlay(gs), "attempt_identity")
  {
    CorrectedReads(z, gs);
    hide Overlay, StatedRevision;
  }

  // ---- which rows are one attempt ------------------------------------------

  /** The rows filed under a key, in order. */
  function RowsOf(z: Settings, rows: seq<Object>, key: string): seq<Object> {
    if rows == [] then []
    else
      var n := |rows| - 1;
      RowsOf(z, rows[..n], key) + if KeyOf(z, rows[n]) == key then [rows[n]] else []
  }

  /** Rows with keys are the same attempt exactly if they name the same cycle and input
      fingerprint or, where one of the two is missing, the same attempt. */
  lemma SameAttemptIff(z: Settings, x: Object, y: Object)
    requires ':' !in Label(z, x, "cycle_id") && ':' !in Label(z, y, "cycle_id")
    ensures KeyOf(z, x) == KeyOf(z, y) != "" <==>
            || (&& Label(z, x, "cycle_id") == Label(z, y, "cycle_id") != ""
                && Label(z, x, "input_state_fingerprint") == Label(z, y, "input_state_fingerprint") != "")
            || (&& (Label(z, x, "cycle_id") == "" || Label(z, x, "input_state_fingerprint") == "")
                && (Label(z, y, "cycle_id") == "" || Label(z, y, "input_state_fingerprint") == "")
                && Label(z, x, "attempt_identity") == Label(z, y, "attempt_identity") != "")
  {
    hide Label;
    var a, b := Label(z, x, "cycle_id"), Label(z, y, "cycle_id");
    var f, g := Label(z, x, "input_state_fingerprint"), Label(z, y, "input_state_fingerprint");
    var i, j := Label(z, x, "attempt_identity"), Label(z, y, "attempt_identity");
    assert "logical:"[0] != "identity:"[0];
    if a + ":" + f == b + ":" + g { SplitAtColon(a, f, b, g); }
    assert ("logical:" + a + ":" + f)[8..] == a + ":" + f && ("logical:" + b + ":" + g)[8..] == b + ":" + g;
    assert ("identity:" + i)[9..] == i && ("identity:" + j)[9..] == j;
    KeyShape(z, x);
    KeyShape(z, y);
    hide KeyOf;
  }

  lemma KeyShape(z: Settings, x: Object)
    ensures var c, f, i := Label(z, x, "cycle_id"), Label(z, x, "input_state_fingerprint"), Label(z, x, "attempt_identity");
            KeyOf(z, x) == if c != "" && f != "" then "logical:" + c + ":" + f else if i != "" then "identity:" + i else ""
  {
    hide Label;
  }

  lemma SplitAtColon(a: string, f: string, b: string, g: string)
    requires ':' !in a && ':' !in b && a + ":" + f == b + ":" + g
    ensures a == b && f == g
  {
    var s, t := a + ":" + f, b + ":" + g;
    assert s[|a|] == ':' && t[|b|] == ':';
    assert |a| == |b| by {
      assert forall i :: 0 <= i < |a| ==> s[i] == a[i] && a[i] != ':';
      assert forall i :: 0 <= i < |b| ==> t[i] == b[i] && b[i] != ':';
    }
    assert s[..|a|] == a && t[..|b|] == b && s[|a| + 1..] == f && t[|b| + 1..] == g;
  }

  /** Without that, two attempts can share a key. */
  lemma KeysCollide(z: Settings, x: Object, y: Object)
    requires Label(z, x, "cycle_id") == "a:b" && Label(z, x, "input_state_fingerprint") == "c"
    requires Label(z, y, "cycle_id") == "a" && Label(z, y, "input_state_fingerprint") == "b:c"
    ensures KeyOf(z, x) == KeyOf(z, y) != ""
  {
    hide Label;
    KeyShape(z, x);
    KeyShape(z, y);
    assert "a:b" + ":" + "c" == "a" + ":" + "b:c";
    assert "logical:" + "a:b" + ":" + "c" == "logical:" + ("a:b" + ":" + "c");
    assert "logical:" + "a" + ":" + "b:c" == "logical:" + ("a" + ":" + "b:c");
    hide KeyOf;
  }

  // ---- the deduplicated rows -----------------------------------------------

  lemma FiledNext(z: Settings, rows: seq<Object>, key: string)
    requires rows != [] && key != ""
    ensures var n := |rows| - 1; Filed(Dedup(z, rows), key) <==> Filed(Dedup(z, rows[..n]), key) || KeyOf(z, rows[n]) == key
  {
    hide KeyOf, Correct;
    var es, r := Dedup(z, rows[..|rows| - 1]), rows[|rows| - 1];
    if i :| 0 <= i < |es| && es[i].key == key { assert Dedup(z, rows)[i].key == key; }
    if KeyOf(z, r) == key && !Filed(es, key) { assert Dedup(z, rows)[|es|].key == key; }
  }

  lemma {:induction false} NoneFiled(z: Settings, rows: seq<Object>, key: string)
    requires key != "" && !Filed(Dedup(z, rows), key)
    ensures RowsOf(z, rows, key) == []
  {
    hide KeyOf, Filed, Dedup;
    if rows != [] {
      FiledNext(z, rows, key);
      NoneFiled(z, rows[..|rows| - 1], key);
    }
  }

  lemma DedupAt(z: Settings, rows: seq<Object>, i: nat)
    requires i < |Dedup(z, rows)|
    ensures rows != []
    ensures var n := |rows| - 1; var es, r := Dedup(z, rows[..n]), rows[n];
      && i <= |es|
      && (i == |es| ==> Dedup(z, rows)[i] == Entry(KeyOf(z, r), r) && !Filed(es, KeyOf(z, r)))
      && (i < |es| ==> Dedup(z, rows)[i]
                       == if es[i].key == KeyOf(z, r) != "" then Entry(es[i].key, Correct(z, es[i].row, r)) else es[i])
  {
    hide KeyOf, Correct;
    var n := |rows| - 1;
    var es, r := Dedup(z, rows[..n]), rows[n];
    if i < |es| && es[i].key == KeyOf(z, r) != "" { assert Filed(es, KeyOf(z, r)); }
  }

  lemma CorrectionsNext(z: Settings, gs: seq<Object>, r: Object)
    ensures Corrections(z, gs + [r]) == if gs == [] then r else Correct(z, Corrections(z, gs), r)
  {
    hide Correct;
    assert (gs + [r])[..|gs|] == gs;
  }

  /** Each filed row is what its attempt's rows leave; a row without a key is kept as it
      is. */
  lemma {:induction false} FiledExactly(z: Settings, rows: seq<Object>, i: nat)
    requires i < |Dedup(z, rows)|
    ensures var e := Dedup(z, rows)[i];
            if e.key == "" then e.row in rows && KeyOf(z, e.row) == ""
            else RowsOf(z, rows, e.key) != [] && e.row == Corrections(z, RowsOf(z, rows, e.key))
    decreases |rows|
  {
    hide KeyOf, Correct, Dedup, Corrections, Filed;
    DedupAt(z, rows, i);
    var n := |rows| - 1;
    assert rows == rows[..n] + [rows[n]];
    var es, r := Dedup(z, rows[..n]), rows[n];
    if i < |es| {
      FiledExactly(z, rows[..n], i);
      CorrectionsNext(z, RowsOf(z, rows[..n], es[i].key), r);
      assert RowsOf(z, rows[..n], es[i].key) + [] == RowsOf(z, rows[..n], es[i].key);
    } else {
      CorrectionsNext(z, [], r);
      if KeyOf(z, r) != "" { NoneFiled(z, rows[..n], KeyOf(z, r)); }
      assert [] + [r] == [r];
    }
  }

  lemma {:induction false} RowsOfPlain(z: Settings, rows: seq<Object>, key: string)
    requires Plain(z, rows)
    ensures Plain(z, RowsOf(z, rows, key))
  {
    hide KeyOf, Marks;
    if rows != [] { RowsOfPlain(z, rows[..|rows| - 1], key); }
  }

  /** Over every history whose rows state no correction of their own: each row of the
      compacted registry names no attempt and is kept as it was, or is what the rows of
      its attempt leave, laid over each other and marked if a label changed. */
  lemma {:induction false} KeptRowsExactly(z: Settings, rows: seq<Object>, x: Object)
    requires z.maxRows >= 0 && Plain(z, rows) && x in Compact(z, rows)
    ensures (x in rows && KeyOf(z, x) == "") || exists key :: key != "" && RowsOf(z, rows, key) != [] && x == Corrected(z, RowsOf(z, rows, key))
  {
    hide KeyOf, Correct, Corrected, Dedup, Families, Fam, Last, Group;
    var es := Dedup(z, rows);
    FromRows(z, Rows(es), Families(Fam(z), Rows(es)));
    var i :| 0 <= i < |es| && Rows(es)[i] == x;
    FiledExactly(z, rows, i);
    if es[i].key != "" {
      RowsOfPlain(z, rows, es[i].key);
      CorrectionsExactly(z, RowsOf(z, rows, es[i].key));
    }
  }

  /** In particular the marks are all there or none is; if they are, the candidate is the
      superseded revision's successor, and the superseded revision and identity are those
      the attempt had before. */
  lemma {:induction false} MarksExactly(z: Settings, gs: seq<Object>)
    requires gs != [] && Plain(z, gs)
    ensures var x := Corrected(z, gs); var p := FirstChange(z, gs);
            if forall i :: 0 < i < |gs| ==> SameLabels(z, Overlay(gs[..i]), gs[i]) then x.Keys !! Marks()
            else && Marks() <= x.Keys && p.Some? && 0 < p.value < |gs|
                 && var before := Overlay(gs[..p.value]);
                    && x["registry_label_correction"] == Bool(true)
                    && x["supersedes_attempt_revision_candidate"] == Int(StatedRevision(z, before))
                    && x["attempt_revision_candidate"] == Int(StatedRevision(z, before) + 1)
                    && x["supersedes_attempt_identity_candidate"] == Get(before, "attempt_identity")
  {
    hide Overlay, StatedRevision, SameLabels, Plain;
    ChangesPlaced(z, gs);
    OverlayPlain(z, gs);
    NoChange(z, gs);
    hide FirstChange, LastChange;
  }

  lemma {:induction false} NoChange(z: Settings, gs: seq<Object>)
    ensures FirstChange(z, gs).None? <==> forall i :: 0 < i < |gs| ==> SameLabels(z, Overlay(gs[..i]), gs[i])
  {
    hide SameLabels, Overlay;
    if |gs| > 1 {
      var n := |gs| - 1;
      NoChange(z, gs[..n]);
      forall i | 0 < i < n ensures gs[..n][..i] == gs[..i] && gs[..n][i] == gs[i] {}
    }
  }

  // ---- what a family keeps -------------------------------------------------

  /** The rows of one family label; a row without one is of the family "unknown". */
  function Labelled(z: Settings, rows: seq<Object>, f: string): seq<Object> {
    if rows == [] then []
    else
      var n, own := |rows| - 1, Get(rows[|rows| - 1], "family_key");
      Labelled(z, rows[..n], f) + if (if Truthy(own) then z.show(own) else "unknown") == f then [rows[n]] else []
  }

  lemma {:induction false} LabelledIsBucket(z: Settings, rows: seq<Object>, f: string)
    ensures Labelled(z, rows, f) == Bucket(Fam(z), rows, f)
  {
    if rows != [] { LabelledIsBucket(z, rows[..|rows| - 1], f); }
  }

  /** A family keeps the last of its attempts, in order, up to the bound, and all of them
      without one. */
  lemma {:induction false} FamilyKeepsLast(z: Settings, rows: seq<Object>, f: string)
    requires z.maxRows >= 0
    ensures var own, kept := Labelled(z, Rows(Dedup(z, rows)), f), Labelled(z, Compact(z, rows), f);
            kept == if z.maxRows == 0 || |own| <= z.maxRows then own else own[|own| - z.maxRows..]
  {
    hide FamilyOf, Dedup, Shelve, Bucket, Fam;
    LabelledIsBucket(z, Rows(Dedup(z, rows)), f);
    LabelledIsBucket(z, Compact(z, rows), f);
    ShelveShape(z, Rows(Dedup(z, rows)), f);
    CompactUnfold(z, rows);
  }
}
