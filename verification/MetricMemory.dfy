/** What an evaluation remembers: which recorded rows can influence a reading,
    and what a change of basis carries over. */
module MetricMemory {
  import opened Json
  import opened Wrappers
  import opened MetricComparator
  import opened PrimaryMetric
  import opened MetricLineage
  import opened MetricStall

  // ---- non-interference ----------------------------------------------------

  /** The history with every row that does not count deleted. */
  function Counting(s: Settings, rows: seq<Row>): seq<Row> {
    if rows == [] then []
    else
      var n := |rows| - 1;
      if RowEligible(s, rows[n]) then Counting(s, rows[..n]) + [rows[n]] else Counting(s, rows[..n])
  }

  lemma CountingFront(s: Settings, rows: seq<Row>)
    requires rows != []
    ensures var n := |rows| - 1; var c, front := Counting(s, rows), Counting(s, rows[..n]);
            if RowEligible(s, rows[n]) then c != [] && c[..|c| - 1] == front && c[|c| - 1] == rows[n] else c == front
  {
  }

  lemma {:induction false} BaselinesIgnoreTheRest(s: Settings, rows: seq<Row>, c: Contract)
    requires ContractValid(c)
    ensures LatestBaseline(s, Counting(s, rows), c) == LatestBaseline(s, rows, c)
    ensures LatestOtherBasis(s, Counting(s, rows), c) == LatestOtherBasis(s, rows, c)
  {
    hide Eligible, NormalizeValue, KeyOf, ContractValid, Counting;
    if rows == [] {
      NothingCounts(s);
    } else {
      BaselinesIgnoreTheRest(s, rows[..|rows| - 1], c);
      CountingFront(s, rows);
    }
  }

  lemma {:induction false} ScopesIgnoreTheRest(s: Settings, rows: seq<Row>, key: ScopeKey)
    ensures LatestInScope(s, Counting(s, rows), key) == LatestInScope(s, rows, key)
    ensures Recount(s, Counting(s, rows), key) == Recount(s, rows, key)
  {
    hide Eligible, NormalizeValue, KeyOf, Counting;
    if rows == [] {
      NothingCounts(s);
    } else {
      ScopesIgnoreTheRest(s, rows[..|rows| - 1], key);
      CountingFront(s, rows);
    }
  }

  lemma NothingCounts(s: Settings)
    ensures Counting(s, []) == []
  {
  }

  /** An evaluation sees the history only through its look-backs. */
  lemma SameLookbacks(s: Settings, rows: seq<Row>, rows': seq<Row>, r: Reading)
    requires ReadingValid(r)
    requires LatestBaseline(s, rows, r.contract) == LatestBaseline(s, rows', r.contract)
    requires LatestBaseline(s, rows, r.contract).None? ==>
               LatestOtherBasis(s, rows, r.contract) == LatestOtherBasis(s, rows', r.contract)
    requires StreakOf(s, rows, r, Judge(s, rows, r)) == StreakOf(s, rows', r, Judge(s, rows, r))
    ensures Evaluate(s, rows, r) == Evaluate(s, rows', r)
  {
  }

  /** Deleting every row that does not count — attested-only, incompatible or with
      an unverified migration — changes no later result. */
  lemma {:induction false} NonInterference(s: Settings, rows: seq<Row>, r: Reading, compatibility: Object)
    requires ReadingValid(r)
    ensures Record(s, Counting(s, rows), r, compatibility) == Record(s, rows, r, compatibility)
  {
    hide LatestBaseline, LatestOtherBasis, Counting, LatestInScope, Recount, KeyOf, Judge, Evaluate, ContractValid,
      Normal;
    BaselinesIgnoreTheRest(s, rows, r.contract);
    ScopesIgnoreTheRest(s, rows, KeyOf(s, r.contract));
    SameLookbacks(s, rows, Counting(s, rows), r);
  }

  /** In a run whose keys separate its contracts, a single recorded row — or none —
      determines the result. */
  lemma {:induction false} OneRowSuffices(s: Settings, es: seq<Event>, r: Reading) returns (w: seq<Row>)
    requires RunValid(s, es) && ReadingValid(r) && KeySeparates(s, es, r.contract)
    ensures |w| <= 1 && Evaluate(s, w, r) == Evaluate(s, Run(s, es), r)
  {
    hide Run, RunValid, Lineage, Chain, KeySeparates, Evaluate, LatestInScope, Judge, RowBaseline, OtherBasis,
      Eligible, KeyOf, ContractValid, Normal, Recount;
    var rows := Run(s, es);
    var j := Judge(s, rows, r);
    JudgementShape(s, rows, r);
    ScopeIsLineage(s, es, r.contract);
    BaselineIsLineageEnd(s, rows, r.contract);
    if j.baseline.Some? {
      LineageIsChain(s, es, r.contract);
      ChainEndCounted(s, r.contract, Lineage(s, rows, r.contract));
      w := [Row(Some(j.baseline.value.gate), NoKey)];
      BaselineAlone(s, rows, r.contract);
      SameLookbacks(s, rows, w, r);
    } else if j.prior.Some? {
      w := [Row(j.prior, NoKey)];
      OtherBasisAlone(s, rows, r.contract);
      SameLookbacks(s, rows, w, r);
    } else {
      w := [];
      NothingInScope(s, KeyOf(s, r.contract));
      SameLookbacks(s, rows, w, r);
    }
  }

  lemma NothingInScope(s: Settings, key: ScopeKey)
    ensures LatestInScope(s, [], key) == None
  {
  }

  /** The baseline's row, alone, is found by both look-backs. */
  lemma {:induction false} BaselineAlone(s: Settings, rows: seq<Row>, c: Contract)
    requires ContractValid(c) && LatestBaseline(s, rows, c).Some?
    ensures var g := LatestBaseline(s, rows, c).value.gate; var w := [Row(Some(g), NoKey)];
            LatestBaseline(s, w, c) == LatestBaseline(s, rows, c) && LatestInScope(s, w, KeyOf(s, c)) == Some(g)
  {
    hide Eligible, NormalizeValue, ContractValid;
    var n := |rows| - 1;
    if RowBaseline(s, rows[n], c).None? {
      BaselineAlone(s, rows[..n], c);
    }
  }

  lemma {:induction false} OtherBasisAlone(s: Settings, rows: seq<Row>, c: Contract)
    requires ContractValid(c) && LatestOtherBasis(s, rows, c).Some?
    ensures var w := [Row(LatestOtherBasis(s, rows, c), NoKey)];
            LatestBaseline(s, w, c) == None && LatestOtherBasis(s, w, c) == LatestOtherBasis(s, rows, c)
  {
    hide Eligible, NormalizeValue, ContractValid;
    var n := |rows| - 1;
    if !OtherBasis(s, rows[n], c) {
      OtherBasisAlone(s, rows[..n], c);
    }
  }

  // ---- changing the basis --------------------------------------------------

  /** Moving to a basis with no row of its own never reports movement, carries the
      old basis's streak and stall flag over unchanged, and leaves a usable
      baseline only behind a receipt that binds this exact transition. */
  lemma {:induction false} MigrationCarriesStall(s: Settings, rows: seq<Row>, r: Reading, compatibility: Object)
    requires ReadingValid(r) && FoldsVerdict(s) && Allows(compatibility)
    requires LatestBaseline(s, rows, r.contract).None? && LatestOtherBasis(s, rows, r.contract).Some?
    ensures var prior := LatestOtherBasis(s, rows, r.contract).value; var g := Record(s, rows, r, compatibility);
            && prior.contract.basisId != r.contract.basisId
            && !g.moved && g.highWater == r.value
            && g.streak == (if Counted(prior) then prior.streak else Some(0)) && g.stalled == prior.stalled
            && (Eligible(s, g) ==> ReceiptAccepted(s, r, prior))
            && (ReceiptAccepted(s, r, prior) && BindingValid(s, Binding(r.artifactRef)) ==> Eligible(s, g))
  {
    hide Record, LatestBaseline, LatestOtherBasis, KeyOf, ContractValid, Normal, Eligible, BindingValid, Binding,
      ZeroStreak, InputSha, VerificationSha, Compare;
    RecordView(s, rows, r, compatibility);
    RecordedGateCountsIff(s, rows, r, compatibility);
    JudgementShape(s, rows, r);
    OtherBasisDiffers(s, rows, r.contract);
  }

  lemma {:induction false} OtherBasisDiffers(s: Settings, rows: seq<Row>, c: Contract)
    requires LatestOtherBasis(s, rows, c).Some?
    ensures LatestOtherBasis(s, rows, c).value.contract.basisId != c.basisId
  {
    hide Eligible;
    if !OtherBasis(s, rows[|rows| - 1], c) {
      OtherBasisDiffers(s, rows[..|rows| - 1], c);
    }
  }

  /** Rows outside a lineage, however many, are forgotten by it: coming back to an
      old basis resumes that basis's own streak and stall flag, whatever happened
      on the bases in between. */
  lemma {:induction false} DetourIsForgotten(s: Settings, rows: seq<Row>, detour: seq<Row>, r: Reading)
    requires ReadingValid(r) && LatestBaseline(s, rows, r.contract).Some?
    requires forall i :: 0 <= i < |detour| ==>
               RowBaseline(s, detour[i], r.contract).None? && !InScope(s, detour[i], KeyOf(s, r.contract))
    ensures LatestBaseline(s, rows + detour, r.contract) == LatestBaseline(s, rows, r.contract)
    ensures LatestInScope(s, rows + detour, KeyOf(s, r.contract)) == LatestInScope(s, rows, KeyOf(s, r.contract))
    ensures Recount(s, rows + detour, KeyOf(s, r.contract)) == Recount(s, rows, KeyOf(s, r.contract))
    ensures Evaluate(s, rows + detour, r) == Evaluate(s, rows, r)
    decreases |detour|
  {
    hide RowBaseline, InScope, KeyOf, Evaluate, Judge, ContractValid, Normal;
    if detour == [] {
      assert rows + detour == rows;
    } else {
      var n := |detour| - 1;
      DetourIsForgotten(s, rows, detour[..n], r);
      assert rows + detour == (rows + detour[..n]) + [detour[n]];
      assert (rows + detour)[..|rows + detour| - 1] == rows + detour[..n];
      DetourStreak(s, rows, rows + detour, r);
      SameLookbacks(s, rows, rows + detour, r);
    }
  }

  lemma DetourStreak(s: Settings, rows: seq<Row>, rows': seq<Row>, r: Reading)
    requires ReadingValid(r)
    requires LatestInScope(s, rows, KeyOf(s, r.contract)) == LatestInScope(s, rows', KeyOf(s, r.contract))
    requires Recount(s, rows, KeyOf(s, r.contract)) == Recount(s, rows', KeyOf(s, r.contract))
    ensures StreakOf(s, rows, r, Judge(s, rows, r)) == StreakOf(s, rows', r, Judge(s, rows, r))
  {
  }
}
