/** The zero-movement streak and the stall flag over whole runs. */
module MetricStall {
  import opened Json
  import opened Wrappers
  import opened MetricComparator
  import opened PrimaryMetric
  import opened MetricLineage

  // ---- one contract per lineage key ----------------------------------------

  /** Lineage keys tell the run's contracts apart from `c`. */
  ghost predicate KeySeparates(s: Settings, es: seq<Event>, c: Contract) {
    forall i :: 0 <= i < |es| && es[i].Observed? && KeyOf(s, es[i].reading.contract) == KeyOf(s, c)
      ==> es[i].reading.contract == c
  }

  /** Only legacy scalar keys can clash, and only through the axis-name normaliser. */
  lemma KeyClash(s: Settings, c: Contract, d: Contract)
    requires ContractValid(c) && ContractValid(d)
    ensures KeyOf(s, c) == KeyOf(s, d) <==>
            || c == d
            || (&& LegacyScalar(c) && LegacyScalar(d)
                && s.axisName(c.metricId) == s.axisName(d.metricId)
                && c.(metricId := d.metricId, subjectId := d.subjectId) == d)
  {
  }

  /** A recorded gate that counts can serve its own contract as a baseline. */
  lemma {:induction false} RecordIsBaseline(s: Settings, rows: seq<Row>, r: Reading, compatibility: Object, goalScope: ScopeKey)
    requires ReadingValid(r) && FoldsVerdict(s) && Eligible(s, Record(s, rows, r, compatibility))
    ensures RowBaseline(s, Row(Some(Record(s, rows, r, compatibility)), goalScope), r.contract).Some?
  {
    hide Record, Eligible, LatestBaseline, LatestOtherBasis, Compare, Normal, ContractValid, ReceiptAccepted,
      Independent, KeyOf, NormalizeValue;
    RecordView(s, rows, r, compatibility);
    BaselineNormal(s, rows, r.contract);
    NormalizeIsNormalForm(Record(s, rows, r, compatibility).highWater, r.contract, s.number);
  }

  lemma {:induction false} AppendInScope(s: Settings, rows: seq<Row>, e: Event, c: Contract)
    requires EventValid(s, e) && FoldsVerdict(s) && ContractValid(c)
    requires e.Observed? && KeyOf(s, e.reading.contract) == KeyOf(s, c) ==> e.reading.contract == c
    ensures InScope(s, Append(s, rows, e), KeyOf(s, c)) <==> RowBaseline(s, Append(s, rows, e), c).Some?
  {
    hide Record, Eligible, NormalizeValue, ContractValid;
    if e.Observed? {
      RecordView(s, rows, e.reading, e.compatibility);
      if Eligible(s, Record(s, rows, e.reading, e.compatibility)) {
        RecordIsBaseline(s, rows, e.reading, e.compatibility, e.goalScope);
      }
    }
  }

  /** When keys separate contracts, the scope look-back and the baseline look-back
      find the same gate. */
  lemma {:induction false} ScopeIsLineage(s: Settings, es: seq<Event>, c: Contract)
    requires RunValid(s, es) && ContractValid(c) && KeySeparates(s, es, c)
    ensures LatestInScope(s, Run(s, es), KeyOf(s, c)) == LastOf(Lineage(s, Run(s, es), c))
    decreases |es|
  {
    hide Append, Lineage, RowBaseline, KeyOf, ContractValid, InScope, RunValid;
    if es == [] {
      EmptyLineage(s, c);
    } else {
      var n := |es| - 1;
      RunPrefix(s, es);
      var rows := Run(s, es[..n]);
      var row := Append(s, rows, es[n]);
      assert KeySeparates(s, es[..n], c);
      ScopeIsLineage(s, es[..n], c);
      AppendInScope(s, rows, es[n], c);
      BaselineHasGate(s, row, c);
      LineageAppend(s, rows, row, c);
      assert (rows + [row])[..|rows|] == rows;
    }
  }

  lemma RunPrefix(s: Settings, es: seq<Event>)
    requires RunValid(s, es) && es != []
    ensures RunValid(s, es[..|es| - 1]) && EventValid(s, es[|es| - 1]) && FoldsVerdict(s)
  {
  }

  // ---- stalled exactly at the cap ------------------------------------------

  /** The flag agrees with the counter. */
  predicate AtCap(s: Settings, g: Gate) {
    && g.streak.Some? && g.streak.value >= 0
    && (g.stalled <==> CapValue(s).Some? && g.streak.value >= CapValue(s).value)
  }

  ghost predicate AllAtCap(s: Settings, rows: seq<Row>) {
    forall i :: 0 <= i < |rows| && RowEligible(s, rows[i]) ==> AtCap(s, rows[i].gate.value)
  }

  lemma {:induction false} BaselineAtCap(s: Settings, rows: seq<Row>, c: Contract)
    requires ContractValid(c) && AllAtCap(s, rows)
    ensures LatestBaseline(s, rows, c).Some? ==> AtCap(s, LatestBaseline(s, rows, c).value.gate)
  {
    hide Eligible, ContractValid, NormalizeValue, KeyOf, AtCap;
    if rows != [] {
      var n := |rows| - 1;
      assert AllAtCap(s, rows[..n]);
      BaselineAtCap(s, rows[..n], c);
    }
  }

  lemma {:induction false} OtherBasisAtCap(s: Settings, rows: seq<Row>, c: Contract)
    requires AllAtCap(s, rows)
    ensures LatestOtherBasis(s, rows, c).Some? ==> AtCap(s, LatestOtherBasis(s, rows, c).value)
  {
    hide Eligible, AtCap;
    if rows != [] {
      var n := |rows| - 1;
      assert AllAtCap(s, rows[..n]);
      OtherBasisAtCap(s, rows[..n], c);
    }
  }

  /** How the parts of a judgement hang together. */
  lemma JudgementShape(s: Settings, rows: seq<Row>, r: Reading)
    requires ReadingValid(r)
    ensures var j := Judge(s, rows, r);
            && j.baseline == LatestBaseline(s, rows, r.contract)
            && (j.baseline.Some? ==> j.prior == Some(j.baseline.value.gate))
            && (j.baseline.None? ==> j.prior == LatestOtherBasis(s, rows, r.contract))
            && (j.comparable ==> j.baseline.Some?)
            && (j.moved ==> j.comparable && j.independent && j.relation == Some(Improved))
            && (j.migrating ==> j.baseline.None? && j.prior.Some? && !j.rawMoved)
            && j.independent == Independent(s, r)
  {
  }

  lemma {:induction false} RecordAtCap(s: Settings, rows: seq<Row>, r: Reading, compatibility: Object)
    requires ReadingValid(r) && AllAtCap(s, rows) && !r.adapterStalled && Allows(compatibility)
    requires LatestBaseline(s, rows, r.contract).None? ==> LatestInScope(s, rows, KeyOf(s, r.contract)).None?
    ensures AtCap(s, Record(s, rows, r, compatibility))
  {
    hide Record, Judge, LatestBaseline, LatestOtherBasis, LatestInScope, ContractValid, Normal, Independent, KeyOf,
      Recount, AllAtCap, HighWaterOf, EffectiveLabel, Separation;
    RecordView(s, rows, r, compatibility);
    BaselineAtCap(s, rows, r.contract);
    OtherBasisAtCap(s, rows, r.contract);
    JudgementShape(s, rows, r);
  }

  /** No adapter asserts a stall of its own. */
  ghost predicate CapDriven(es: seq<Event>) {
    forall i :: 0 <= i < |es| && es[i].Observed? ==> !es[i].reading.adapterStalled
  }

  /** Lineage keys tell all the run's contracts apart. */
  ghost predicate KeysSeparate(s: Settings, es: seq<Event>) {
    forall i :: 0 <= i < |es| && es[i].Observed? ==> KeySeparates(s, es, es[i].reading.contract)
  }

  lemma PrefixConditions(s: Settings, es: seq<Event>)
    requires es != [] && CapDriven(es) && KeysSeparate(s, es)
    ensures CapDriven(es[..|es| - 1]) && KeysSeparate(s, es[..|es| - 1])
    ensures var e := es[|es| - 1];
            e.Observed? ==> !e.reading.adapterStalled && KeySeparates(s, es[..|es| - 1], e.reading.contract)
  {
  }

  /** In every run driven by a fixed cap, a recorded gate with a compatible verdict
      is stalled exactly when its own zero-movement streak has reached the cap. */
  lemma {:induction false} StalledExactlyAtCap(s: Settings, es: seq<Event>)
    requires RunValid(s, es) && CapDriven(es) && KeysSeparate(s, es)
    ensures |Run(s, es)| == |es|
    ensures forall i :: 0 <= i < |es| && es[i].Observed? && Allows(es[i].compatibility) ==>
              Run(s, es)[i].gate.Some? && AtCap(s, Run(s, es)[i].gate.value)
    ensures AllAtCap(s, Run(s, es))
    decreases |es|
  {
    hide Append, KeysSeparate, CapDriven, RunValid, AtCap, Allows, RowEligible, EventValid, FoldsVerdict, KeySeparates;
    if es != [] {
      var n := |es| - 1;
      RunPrefix(s, es);
      PrefixConditions(s, es);
      StalledExactlyAtCap(s, es[..n]);
      NextAtCap(s, es[..n], es[n]);
    }
  }

  lemma {:induction false} NextAtCap(s: Settings, es: seq<Event>, e: Event)
    requires RunValid(s, es) && EventValid(s, e) && AllAtCap(s, Run(s, es))
    requires e.Observed? ==> !e.reading.adapterStalled && KeySeparates(s, es, e.reading.contract)
    ensures var row := Append(s, Run(s, es), e);
            && (e.Observed? && Allows(e.compatibility) ==> row.gate.Some? && AtCap(s, row.gate.value))
            && (RowEligible(s, row) ==> AtCap(s, row.gate.value))
  {
    hide Record, Run, RunValid, AllAtCap, AtCap, LatestBaseline, LatestInScope, Lineage, KeyOf, ObservationValid,
      KeySeparates;
    if e.Observed? {
      var r := e.reading;
      RecordView(s, Run(s, es), r, e.compatibility);
      ScopeIsLineage(s, es, r.contract);
      BaselineIsLineageEnd(s, Run(s, es), r.contract);
      if Allows(e.compatibility) {
        RecordAtCap(s, Run(s, es), r, e.compatibility);
      }
    }
  }

  // ---- the latch -----------------------------------------------------------

  /** Once the lineage is stalled, recording a further reading of it keeps it
      stalled unless the reading is independently verified movement. */
  lemma {:induction false} OnlyVerifiedMovementClears(s: Settings, es: seq<Event>, r: Reading, compatibility: Object)
    requires RunValid(s, es) && CapDriven(es) && KeysSeparate(s, es)
    requires ReadingValid(r) && !r.adapterStalled && KeySeparates(s, es, r.contract) && Allows(compatibility)
    requires var end := LastOf(Lineage(s, Run(s, es), r.contract)); end.Some? && end.value.stalled
    ensures var g := Record(s, Run(s, es), r, compatibility);
            g.stalled || (g.moved && Independent(s, r) && g.relation == Some(Improved) && g.streak == Some(0))
  {
    hide Record, Judge, Run, RunValid, LatestBaseline, LatestOtherBasis, LatestInScope, Lineage, KeyOf, Compare,
      ContractValid, Normal, KeySeparates, KeysSeparate, CapDriven, Independent, AllAtCap, Recount;
    var rows := Run(s, es);
    StalledExactlyAtCap(s, es);
    ScopeIsLineage(s, es, r.contract);
    BaselineIsLineageEnd(s, rows, r.contract);
    BaselineAtCap(s, rows, r.contract);
    RecordView(s, rows, r, compatibility);
    RecordRelation(s, rows, r, compatibility);
    JudgementShape(s, rows, r);
  }

  lemma RecordRelation(s: Settings, rows: seq<Row>, r: Reading, compatibility: Object)
    requires ReadingValid(r)
    ensures Record(s, rows, r, compatibility).relation == Judge(s, rows, r).relation
  {
  }
}
