/** Gate by gate, exactly how a lineage grows: what moves, what is counted and what
    stalls. */
module MetricCounter {
  import opened Json
  import opened Wrappers
  import opened MetricComparator
  import opened PrimaryMetric
  import opened MetricLineage
  import opened MetricStall
  import DurableProjection

  // ---- one gate after another ----------------------------------------------

  /** What a gate must say after its predecessor: it moves exactly on an improvement, and
      takes over its value then; it counts on exactly when it was comparable and did not
      move. */
  ghost predicate Follows(s: Settings, c: Contract, prev: Gate, next: Gate)
    requires ContractValid(c)
  {
    && Normal(next.value, c) && Normal(prev.highWater, c) && prev.streak.Some?
    && var relation := Compare(next.value, prev.highWater, c, s.epsilon);
       && next.relation == Some(relation) && next.previous == prev.highWater
       && next.moved == (relation == Improved)
       && next.highWater == (if relation == Improved then next.value else prev.highWater)
       && next.streak == Some(match relation
                              case Improved => 0
                              case Incomparable => prev.streak.value
                              case _ => prev.streak.value + 1)
       && next.comparability == (if relation == Incomparable then NotComparable else Comparable)
       && next.evaluation == match relation case Improved => Passed case Incomparable => NotJudged case _ => Failed
  }

  ghost predicate InStep(s: Settings, c: Contract, gs: seq<Gate>)
    requires ContractValid(c)
  {
    |gs| > 1 ==> InStep(s, c, gs[..|gs| - 1]) && Follows(s, c, gs[|gs| - 2], gs[|gs| - 1])
  }

  /** The fields of a record that no verdict touches. */
  lemma RecordReads(s: Settings, rows: seq<Row>, r: Reading, compatibility: Object)
    requires ReadingValid(r)
    ensures var j := Judge(s, rows, r); var g := Record(s, rows, r, compatibility);
      && g.value == r.value && g.relation == j.relation && g.comparability == ComparabilityOf(j)
      && g.previous == (if j.baseline.Some? then j.baseline.value.value else Absent)
      && (Allows(compatibility) ==> g.evaluation == if j.moved then Passed else if j.comparable then Failed else NotJudged)
  {
    hide KeyOf, StreakOf, StalledOf, HighWaterOf, EffectiveLabel, Separation, ReasonOf, ComparabilityOf, CompatibilityStatus,
      CapValue, VerificationSha, DurableProjection.Project, StatusOf, DeclaredLabel, Binding, LatestBaseline, LatestOtherBasis, Judge;
  }

  /** The counter, seen from the judgement. */
  lemma {:induction false} CountsOn(s: Settings, rows: seq<Row>, r: Reading, prev: Gate)
    requires ReadingValid(r) && LatestBaseline(s, rows, r.contract) == Some(Baseline(prev.highWater, prev))
    requires LatestInScope(s, rows, KeyOf(s, r.contract)) == Some(prev) && Counted(prev)
    ensures var j := Judge(s, rows, r);
            StreakOf(s, rows, r, j) == if j.moved then 0 else if j.comparable then prev.streak.value + 1 else prev.streak.value
  {
    hide LatestBaseline, LatestOtherBasis, LatestInScope, Compare, Normal, ContractValid, Recount, Independent, ReceiptAccepted, KeyOf;
    JudgementShape(s, rows, r);
  }

  /** What the judgement of an independent reading says of its baseline. */
  lemma {:induction false} JudgesBaseline(s: Settings, rows: seq<Row>, r: Reading, prev: Gate)
    requires ReadingValid(r) && Independent(s, r) && LatestBaseline(s, rows, r.contract) == Some(Baseline(prev.highWater, prev))
    ensures var j := Judge(s, rows, r);
      && Normal(prev.highWater, r.contract)
      && var relation := Compare(r.value, prev.highWater, r.contract, s.epsilon);
         && j.relation == Some(relation) && j.moved == (relation == Improved) && j.comparable == (relation != Incomparable)
         && j.baseline == Some(Baseline(prev.highWater, prev))
         && ComparabilityOf(j) == (if relation == Incomparable then NotComparable else Comparable)
         && HighWaterOf(s, r, j) == if relation == Improved then r.value else prev.highWater
  {
    hide LatestBaseline, LatestOtherBasis, Compare, Normal, ContractValid, Independent, ReceiptAccepted;
    BaselineNormal(s, rows, r.contract);
  }

  /** A recorded gate that counts follows the gate the look-backs found. */
  lemma {:induction false} RecordFollows(s: Settings, rows: seq<Row>, r: Reading, compatibility: Object, prev: Gate)
    requires ReadingValid(r) && FoldsVerdict(s) && Eligible(s, Record(s, rows, r, compatibility))
    requires LatestBaseline(s, rows, r.contract) == Some(Baseline(prev.highWater, prev))
    requires LatestInScope(s, rows, KeyOf(s, r.contract)) == Some(prev) && Counted(prev)
    ensures Follows(s, r.contract, prev, Record(s, rows, r, compatibility))
  {
    hide Record, Eligible, LatestBaseline, LatestInScope, Compare, Normal, ContractValid, Independent, KeyOf, StalledOf, StreakOf,
      HighWaterOf, Judge, EffectiveLabel, Separation, CompatibilityStatus, ComparabilityOf, BindingValid, Binding;
    assert Independent(s, r) && Allows(compatibility) by { CountsOnlyIf(s, rows, r, compatibility); }
    RecordView(s, rows, r, compatibility);
    RecordReads(s, rows, r, compatibility);
    JudgesBaseline(s, rows, r, prev);
    CountsOn(s, rows, r, prev);
    hide Allows, StatusOf;
  }

  lemma {:induction false} CountsOnlyIf(s: Settings, rows: seq<Row>, r: Reading, compatibility: Object)
    requires ReadingValid(r) && FoldsVerdict(s) && Eligible(s, Record(s, rows, r, compatibility))
    ensures Independent(s, r) && Allows(compatibility)
  {
    hide Record, Eligible, Independent, Judge, BindingValid, Binding;
    RecordedGateCountsIff(s, rows, r, compatibility);
  }

  /** In every run whose keys separate its contracts, each gate of a lineage follows the
      one before. */
  lemma {:induction false} LineageIsCounted(s: Settings, es: seq<Event>, c: Contract)
    requires RunValid(s, es) && ContractValid(c) && KeySeparates(s, es, c)
    ensures InStep(s, c, Lineage(s, Run(s, es), c))
    decreases |es|
  {
    hide Append, Follows, RowBaseline, LatestBaseline, LatestInScope, KeyOf, Eligible, ContractValid, Normal, Lineage, Chain, RunValid,
      FoldsVerdict;
    if es == [] {
      EmptyLineage(s, c);
    } else {
      var n := |es| - 1;
      RunPrefix(s, es);
      assert KeySeparates(s, es[..n], c);
      var rows := Run(s, es[..n]);
      var row := Append(s, rows, es[n]);
      var gs := Lineage(s, rows, c);
      LineageIsCounted(s, es[..n], c);
      BaselineHasGate(s, row, c);
      LineageAppend(s, rows, row, c);
      if RowBaseline(s, row, c).Some? && gs != [] {
        NextFollows(s, es[..n], es[n], c);
        assert (gs + [row.gate.value])[..|gs|] == gs;
      }
    }
  }

  lemma {:induction false} NextFollows(s: Settings, es: seq<Event>, e: Event, c: Contract)
    requires RunValid(s, es) && EventValid(s, e) && FoldsVerdict(s) && ContractValid(c) && KeySeparates(s, es, c)
    requires RowBaseline(s, Append(s, Run(s, es), e), c).Some? && Lineage(s, Run(s, es), c) != []
    ensures var gs := Lineage(s, Run(s, es), c);
            && Append(s, Run(s, es), e).gate.Some? && Follows(s, c, gs[|gs| - 1], Append(s, Run(s, es), e).gate.value)
  {
    hide Record, LatestBaseline, LatestInScope, Lineage, KeyOf, Eligible, ContractValid, Normal, Run, RunValid, Follows, Chain,
      KeySeparates;
    var rows := Run(s, es);
    LineageGrows(s, rows, e, c);
    BaselineHasGate(s, Append(s, rows, e), c);
    ScopeIsLineage(s, es, c);
    BaselineIsLineageEnd(s, rows, c);
    LineageIsChain(s, es, c);
    var gs := Lineage(s, rows, c);
    ChainEndCounted(s, c, gs);
    RecordFollows(s, rows, e.reading, e.compatibility, gs[|gs| - 1]);
  }

  // ---- the first gate ------------------------------------------------------

  /** No reading of the run measures the same on another basis. */
  ghost predicate OneBasis(es: seq<Event>, c: Contract) {
    forall i :: 0 <= i < |es| && es[i].Observed? && es[i].reading.contract.(basisId := c.basisId) == c ==> es[i].reading.contract == c
  }

  lemma {:induction false} NoOtherBasis(s: Settings, es: seq<Event>, c: Contract)
    requires RunValid(s, es) && OneBasis(es, c)
    ensures LatestOtherBasis(s, Run(s, es), c) == None
    decreases |es|
  {
    hide Record, Eligible, ContractValid, Normal;
    if es != [] {
      var n := |es| - 1;
      NoOtherBasis(s, es[..n], c);
      var rows := Run(s, es[..n]);
      var row := Append(s, rows, es[n]);
      assert (rows + [row])[..|rows|] == rows;
      if es[n].Observed? { RecordView(s, rows, es[n].reading, es[n].compatibility); }
    }
  }

  /** A lineage that starts on the only basis starts counting at zero, unmoved and with
      its own value. */
  lemma {:induction false} FirstGate(s: Settings, es: seq<Event>, r: Reading, compatibility: Object)
    requires RunValid(s, es) && KeySeparates(s, es, r.contract) && OneBasis(es, r.contract) && ReadingValid(r)
    requires Lineage(s, Run(s, es), r.contract) == []
    ensures var g := Record(s, Run(s, es), r, compatibility);
      && g.streak == Some(0) && !g.moved && !g.stalled && g.highWater == r.value && g.comparability == NoBaseline
  {
    hide Record, Run, RunValid, LatestBaseline, LatestOtherBasis, LatestInScope, Lineage, KeyOf, ContractValid, Normal, KeySeparates,
      Compare, Recount, Independent;
    var rows := Run(s, es);
    NoOtherBasis(s, es, r.contract);
    ScopeIsLineage(s, es, r.contract);
    BaselineIsLineageEnd(s, rows, r.contract);
    RecordView(s, rows, r, compatibility);
    RecordReads(s, rows, r, compatibility);
    hide EffectiveLabel, Separation, CompatibilityStatus;
  }

  // ---- counting over the lineage -------------------------------------------

  /** The comparable gates since the last one that moved, or since the first. */
  ghost function Unmoved(gs: seq<Gate>): nat {
    if |gs| <= 1 || gs[|gs| - 1].moved then 0
    else Unmoved(gs[..|gs| - 1]) + if gs[|gs| - 1].comparability == Comparable then 1 else 0
  }

  /** What the first gate's counter still contributes: nothing once a gate has moved. */
  ghost function Brought(gs: seq<Gate>): int
    requires gs != []
  {
    if |gs| == 1 then (if gs[0].streak.Some? then gs[0].streak.value else 0)
    else if gs[|gs| - 1].moved then 0 else Brought(gs[..|gs| - 1])
  }

  lemma {:induction false} CounterCounts(s: Settings, c: Contract, gs: seq<Gate>)
    requires ContractValid(c) && gs != [] && InStep(s, c, gs) && gs[0].streak.Some?
    ensures gs[|gs| - 1].streak == Some(Brought(gs) + Unmoved(gs))
    decreases |gs|
  {
    hide Compare, Normal, ContractValid;
    if |gs| > 1 { CounterCounts(s, c, gs[..|gs| - 1]); }
  }

  /** The streak of a recorded gate is the number of comparable gates of its lineage
      since the last that moved, plus what its first gate brought along. */
  lemma {:induction false} StreakCounts(s: Settings, es: seq<Event>, c: Contract)
    requires RunValid(s, es) && ContractValid(c) && KeySeparates(s, es, c) && Lineage(s, Run(s, es), c) != []
    ensures var gs := Lineage(s, Run(s, es), c); gs[|gs| - 1].streak == Some(Brought(gs) + Unmoved(gs))
  {
    hide Run, RunValid, Lineage, KeySeparates, ContractValid, Normal, InStep, Brought, Unmoved;
    LineageIsCounted(s, es, c);
    LineageIsChain(s, es, c);
    FirstCounted(s, c, Lineage(s, Run(s, es), c));
    CounterCounts(s, c, Lineage(s, Run(s, es), c));
  }

  lemma {:induction false} FirstCounted(s: Settings, c: Contract, gs: seq<Gate>)
    requires ContractValid(c) && Chain(s, c, gs) && gs != []
    ensures gs[0].streak.Some? && gs[0].streak.value >= 0
    decreases |gs|
  {
    hide Compare, Normal, ContractValid;
    if |gs| > 1 { FirstCounted(s, c, gs[..|gs| - 1]); }
  }

  /** The last gates of a lineage were comparable but no better than the high-water. */
  ghost predicate StuckFor(s: Settings, c: Contract, gs: seq<Gate>, n: nat)
    requires ContractValid(c)
  {
    n < |gs| && forall i :: |gs| - n <= i < |gs| ==> StuckAt(s, c, gs, i)
  }

  ghost predicate StuckAt(s: Settings, c: Contract, gs: seq<Gate>, i: nat)
    requires ContractValid(c) && 0 < i < |gs|
  {
    && Normal(gs[i].value, c) && Normal(gs[i - 1].highWater, c)
    && Compare(gs[i].value, gs[i - 1].highWater, c, s.epsilon) in {Same, Adverse}
  }

  lemma {:induction false} StuckCounts(s: Settings, c: Contract, gs: seq<Gate>, n: nat)
    requires ContractValid(c) && InStep(s, c, gs) && StuckFor(s, c, gs, n)
    ensures Unmoved(gs) >= n
    decreases n
  {
    hide Compare, Normal, ContractValid;
    if n > 0 {
      var front := gs[..|gs| - 1];
      StuckFront(s, c, gs, n);
      StuckCounts(s, c, front, n - 1);
      assert StuckAt(s, c, gs, |gs| - 1);
    }
  }

  lemma StuckFront(s: Settings, c: Contract, gs: seq<Gate>, n: nat)
    requires ContractValid(c) && n > 0 && StuckFor(s, c, gs, n)
    ensures StuckFor(s, c, gs[..|gs| - 1], n - 1)
  {
    hide Compare, Normal, ContractValid, StuckAt;
    var front := gs[..|gs| - 1];
    forall i | |front| - (n - 1) <= i < |front| ensures StuckAt(s, c, front, i) {
      assert StuckAt(s, c, gs, i);
      SameThere(s, c, gs, i);
    }
  }

  lemma SameThere(s: Settings, c: Contract, gs: seq<Gate>, i: nat)
    requires ContractValid(c) && 0 < i < |gs| - 1 && StuckAt(s, c, gs, i)
    ensures StuckAt(s, c, gs[..|gs| - 1], i)
  {
    hide Compare, Normal, ContractValid;
  }

  lemma {:induction false} BroughtNonNegative(s: Settings, c: Contract, gs: seq<Gate>)
    requires ContractValid(c) && gs != [] && gs[0].streak.Some? && gs[0].streak.value >= 0
    ensures Brought(gs) >= 0
    decreases |gs|
  {
    if |gs| > 1 { BroughtNonNegative(s, c, gs[..|gs| - 1]); }
  }

  /** So as many readings as the cap, in a row and without movement, do stall. */
  lemma {:induction false} CapStalls(s: Settings, es: seq<Event>, c: Contract)
    requires RunValid(s, es) && CapDriven(es) && KeysSeparate(s, es) && ContractValid(c) && KeySeparates(s, es, c)
    requires CapValue(s).Some? && StuckFor(s, c, Lineage(s, Run(s, es), c), CapValue(s).value)
    ensures var gs := Lineage(s, Run(s, es), c); gs[|gs| - 1].stalled
  {
    hide Run, RunValid, Lineage, KeySeparates, KeysSeparate, CapDriven, ContractValid, Normal, InStep, Brought, Unmoved, AllAtCap, Chain,
      LatestBaseline;
    var gs := Lineage(s, Run(s, es), c);
    LineageIsCounted(s, es, c);
    LineageIsChain(s, es, c);
    FirstCounted(s, c, gs);
    BroughtNonNegative(s, c, gs);
    StreakCounts(s, es, c);
    StuckCounts(s, c, gs, CapValue(s).value);
    StalledExactlyAtCap(s, es);
    BaselineAtCap(s, Run(s, es), c);
    BaselineIsLineageEnd(s, Run(s, es), c);
  }
}
