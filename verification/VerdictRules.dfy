/** The exhaustion verdict, told row by row. */
module VerdictRules {
  import opened Wrappers
  import opened Grouping
  import opened RootCauseLedger
  import opened LedgerCompaction
  import opened LedgerVerdict
  import LedgerEntries

  /** The row is about the family, the root or the root family asked for; an empty root or
      root family asks for nothing. */
  predicate Concerns(q: Query, r: Row) {
    || r.family == q.family
    || (|q.rootKey| > 0 && r.rootKey == q.rootKey)
    || (|q.rootFamily| > 0 && LedgerEntries.FirstFilled([r.rootFamily, r.blockerRootFamily], "") == q.rootFamily)
  }

  predicate Failed(q: Query, r: Row) { Concerns(q, r) && r.attempted && !r.changed }

  predicate Helped(q: Query, r: Row) { Concerns(q, r) && r.attempted && r.changed }

  /** How many attempts a row stands for: its own count, or one. */
  function StandsFor(r: Row): nat {
    match r.vacuous case Some(n) => n case None => 1
  }

  lemma ConcernsIff(q: Query, r: Row)
    ensures Concerns(q, r) <==> InScope(q, r)
  {
    LedgerEntries.FilledCons(r.rootFamily, [r.blockerRootFamily], "");
    LedgerEntries.OneText(r.blockerRootFamily, "");
    assert [r.rootFamily, r.blockerRootFamily] == [r.rootFamily] + [r.blockerRootFamily];
  }

  /** One more row adds what it stands for to the failed attempts and to their streak, or
      ends the streak, or is not looked at; and the verdict is that the budget is met by
      failed attempts and nothing helped. */
  lemma {:induction false} OneMoreRow(q: Query, rows: seq<Row>, r: Row)
    ensures Vacuous(q, []) == 0 == Positive(q, []) && Streak(q, []) == 0
    ensures Vacuous(q, rows + [r]) == Vacuous(q, rows) + (if Failed(q, r) then StandsFor(r) else 0)
    ensures Positive(q, rows + [r]) == Positive(q, rows) + (if Helped(q, r) then 1 else 0)
    ensures Streak(q, rows + [r])
         == if Failed(q, r) then Streak(q, rows) + StandsFor(r) else if Helped(q, r) then 0 else Streak(q, rows)
  {
    hide InScope, Concerns;
    ConcernsIff(q, r);
    assert (rows + [r])[..|rows + [r]| - 1] == rows;
  }

  lemma {:induction false} NothingHelped(q: Query, rows: seq<Row>)
    ensures Positive(q, rows) == 0 <==> forall i :: 0 <= i < |rows| ==> !Helped(q, rows[i])
  {
    hide Helped, Failed;
    if rows != [] {
      var n := |rows| - 1;
      NothingHelped(q, rows[..n]);
      OneMoreRow(q, rows[..n], rows[n]);
      assert rows == rows[..n] + [rows[n]];
    }
  }

  /** A hypothesis is exhausted exactly if there is a budget, no attempt in scope helped, and
      the failed ones meet the budget. */
  lemma {:induction false} ExhaustedIff(q: Query, rows: seq<Row>, budget: Option<nat>)
    ensures Exhausted(q, rows, budget) <==>
      && budget != None && budget != Some(0) && Vacuous(q, rows) >= budget.value
      && forall i :: 0 <= i < |rows| ==> !(Concerns(q, rows[i]) && rows[i].attempted && rows[i].changed)
  {
    hide Vacuous, Positive, Concerns;
    NothingHelped(q, rows);
    assert forall i :: 0 <= i < |rows| ==> (Helped(q, rows[i]) <==> Concerns(q, rows[i]) && rows[i].attempted && rows[i].changed);
  }
}
