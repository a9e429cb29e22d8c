/** Whole runs of the primary-metric gate. */
module MetricLineage {
  import opened Json
  import opened Wrappers
  import opened MetricComparator
  import opened PrimaryMetric
  import DurableProjection

  // ---- builder and validator agree -----------------------------------------

  /** What a caller can check before a reading is recorded: whether the recorded
      gate will count for later readings. */
  predicate WillCount(s: Settings, rows: seq<Row>, r: Reading, compatibility: Object)
    requires ReadingValid(r)
  {
    var j := Judge(s, rows, r);
    && Independent(s, r)
    && CompatibilityStatus(compatibility) == "compatible"
    && BindingValid(s, Binding(r.artifactRef))
    && (j.migrating ==> j.migrated)
  }

  /** Trim-and-lowercase leaves the verdict word alone. */
  predicate FoldsVerdict(s: Settings) {
    s.fold("compatible") == "compatible"
  }

  predicate Allows(compatibility: Object) {
    CompatibilityStatus(compatibility) == "compatible"
  }

  /** The recorded gate, read field by field. */
  lemma RecordView(s: Settings, rows: seq<Row>, r: Reading, compatibility: Object)
    requires ReadingValid(r)
    ensures var j := Judge(s, rows, r); var g := Record(s, rows, r, compatibility);
      && g.contract == r.contract && g.scopeKey == KeyOf(s, r.contract)
      && g.highWater == HighWaterOf(s, r, j) && g.highWaterSha == OfValue(r.contract, g.highWater)
      && g.streak == Some(StreakOf(s, rows, r, j))
      && g.moved == (j.moved && Allows(compatibility))
      && g.stalled == (StalledOf(s, r, j, StreakOf(s, rows, r, j)) && Allows(compatibility))
      && g.contributionAllowed == Allows(compatibility)
      && g.bindingExact && g.separation == Separation(s, r) && g.verification == r.separationGate
      && g.provenance == EffectiveLabel(s, r)
      && g.migrationObserved == j.migrating && g.migrationStatus == StatusOf(j)
      && g.compatibility == Some(compatibility)
  {
  }

  /** The observation sealed inside it. */
  lemma SealView(s: Settings, rows: seq<Row>, r: Reading, compatibility: Object)
    requires ReadingValid(r)
    ensures var j := Judge(s, rows, r); var g := Record(s, rows, r, compatibility);
      && g.observation.Some?
      && var o := g.observation.value;
      && o.contract == r.contract && o.value == r.value && o.binding == Binding(r.artifactRef)
      && o.migrationStatus == StatusOf(j) && o.receipt == g.receipt == (if j.migrated then r.receipt else None)
      && (j.migrating ==> j.prior.Some?)
      && o.priorObservation == (if j.migrating then Some(j.prior.value.observationSha) else None)
      && o.priorLineage == (if j.migrating then Some(j.prior.value.scopeKey) else None)
      && o.newLineage == (if j.migrating then Some(KeyOf(s, r.contract)) else None)
      && (Allows(compatibility) ==> ObservationSealed(s, g, o))
  {
    hide KeyOf, StreakOf, StalledOf, HighWaterOf, EffectiveLabel, Separation, ReasonOf, ComparabilityOf,
      CompatibilityStatus, CapValue, VerificationSha, DurableProjection.Project, StatusOf, DeclaredLabel, Binding,
      LatestBaseline, LatestOtherBasis, ReceiptAccepted, Independent, Compare;
  }

  /** Evaluating, binding and sealing a reading produces a gate that passes the
      observation check exactly when the evidence is independent, the verdict is
      "compatible", the artifact binding is valid and any basis change carries an
      accepted receipt. */
  lemma {:induction false} RecordedGateCountsIff(s: Settings, rows: seq<Row>, r: Reading, compatibility: Object)
    requires ReadingValid(r) && FoldsVerdict(s)
    ensures Eligible(s, Record(s, rows, r, compatibility)) <==> WillCount(s, rows, r, compatibility)
  {
    hide Record, ObservationSealed, BindingValid, VerificationSha, DurableProjection.Project, LatestBaseline,
      LatestOtherBasis, KeyOf, Binding, Compare, StreakOf, StalledOf, HighWaterOf;
    RecordView(s, rows, r, compatibility);
    SealView(s, rows, r, compatibility);
  }

  // ---- runs ----------------------------------------------------------------

  /** A cycle either records a reading or appends a row no metric builds on. */
  datatype Event =
    | Observed(reading: Reading, compatibility: Object, goalScope: ScopeKey)
    | Unrelated(row: Row)

  predicate EventValid(s: Settings, e: Event) {
    match e
    case Observed(r, _, _) => ReadingValid(r)
    case Unrelated(row) => !RowEligible(s, row)
  }

  ghost predicate RunValid(s: Settings, es: seq<Event>) {
    FoldsVerdict(s) && forall i :: 0 <= i < |es| ==> EventValid(s, es[i])
  }

  function Append(s: Settings, rows: seq<Row>, e: Event): Row
    requires EventValid(s, e)
  {
    match e
    case Observed(r, compatibility, goalScope) => Row(Some(Record(s, rows, r, compatibility)), goalScope)
    case Unrelated(row) => row
  }

  /** The registry after a sequence of cycles. */
  ghost function Run(s: Settings, es: seq<Event>): seq<Row>
    requires RunValid(s, es)
    decreases |es|
  {
    if es == [] then []
    else
      var n := |es| - 1;
      var rows := Run(s, es[..n]);
      rows + [Append(s, rows, es[n])]
  }

  /** The gates of a history that can serve a contract, oldest first. */
  ghost function Lineage(s: Settings, rows: seq<Row>, c: Contract): seq<Gate>
    requires ContractValid(c)
  {
    if rows == [] then []
    else
      var n := |rows| - 1;
      Lineage(s, rows[..n], c) + (if RowBaseline(s, rows[n], c).Some? then [rows[n].gate.value] else [])
  }

  /** A recorded high-water is usable only as recorded: the sealed digest pins the
      stored value to its own normal form. */
  lemma {:induction false} DigestPinsHighWater(s: Settings, row: Row, c: Contract)
    requires ContractValid(c) && RowBaseline(s, row, c).Some?
    ensures RowBaseline(s, row, c).value == Baseline(row.gate.value.highWater, row.gate.value)
    ensures Normal(row.gate.value.highWater, c)
  {
    hide BindingValid, VerificationSha, DurableProjection.Project, NormalizeValue, MigrationProven, MigrationAbsent,
      Normal;
    NormalizeIsNormalForm(row.gate.value.highWater, c, s.number);
  }

  lemma ChainEndCounted(s: Settings, c: Contract, gs: seq<Gate>)
    requires ContractValid(c) && Chain(s, c, gs) && gs != []
    ensures Counted(gs[|gs| - 1]) && Normal(gs[|gs| - 1].highWater, c)
  {
  }

  ghost function LastOf(gs: seq<Gate>): Option<Gate> {
    if gs == [] then None else Some(gs[|gs| - 1])
  }

  /** The look-back finds exactly the last gate of the lineage. */
  lemma {:induction false} BaselineIsLineageEnd(s: Settings, rows: seq<Row>, c: Contract)
    requires ContractValid(c)
    ensures var end := LastOf(Lineage(s, rows, c)); var b := LatestBaseline(s, rows, c);
            if end.None? then b.None? else b == Some(Baseline(end.value.highWater, end.value))
  {
    hide RowBaseline;
    if rows != [] {
      var n := |rows| - 1;
      BaselineIsLineageEnd(s, rows[..n], c);
      if RowBaseline(s, rows[n], c).Some? {
        DigestPinsHighWater(s, rows[n], c);
      }
    }
  }

  /** A gate that stores its own zero-movement counter. */
  predicate Counted(g: Gate) {
    Counter(g.streak).Some?
  }

  /** How a lineage grows: the high-water is replaced by an improvement, marked
      as moved, or kept. */
  ghost predicate Link(s: Settings, c: Contract, prev: Gate, next: Gate)
    requires ContractValid(c)
  {
    && Normal(prev.highWater, c) && Normal(next.highWater, c) && Counted(next)
    && if next.moved then Compare(next.highWater, prev.highWater, c, s.epsilon) == Improved
       else next.highWater == prev.highWater
  }

  ghost predicate Chain(s: Settings, c: Contract, gs: seq<Gate>)
    requires ContractValid(c)
  {
    if gs == [] then true
    else if |gs| == 1 then
      !gs[0].moved && Normal(gs[0].highWater, c) && gs[0].highWater == gs[0].value && Counted(gs[0])
    else Chain(s, c, gs[..|gs| - 1]) && Link(s, c, gs[|gs| - 2], gs[|gs| - 1])
  }

  /** What a recorded gate that counts says relative to its baseline. */
  lemma {:induction false} RecordLinks(s: Settings, rows: seq<Row>, r: Reading, compatibility: Object)
    requires ReadingValid(r) && FoldsVerdict(s) && Eligible(s, Record(s, rows, r, compatibility))
    ensures var g := Record(s, rows, r, compatibility); var end := LastOf(Lineage(s, rows, r.contract));
            && g.contract == r.contract && g.value == r.value
            && Counted(g)
            && if end.None? then !g.moved && g.highWater == r.value
               else Link(s, r.contract, end.value, g)
  {
    hide Record, Eligible, LatestBaseline, LatestOtherBasis, Compare, Normal, ContractValid, ReceiptAccepted,
      Independent, KeyOf, Lineage;
    RecordedGateCountsIff(s, rows, r, compatibility);
    RecordView(s, rows, r, compatibility);
    BaselineIsLineageEnd(s, rows, r.contract);
    BaselineNormal(s, rows, r.contract);
    RecordKeepsValue(s, rows, r, compatibility);
  }

  lemma RecordKeepsValue(s: Settings, rows: seq<Row>, r: Reading, compatibility: Object)
    requires ReadingValid(r)
    ensures Record(s, rows, r, compatibility).value == r.value
  {
  }

  /** In every run, the gates that can serve a contract form a chain of kept or
      improved high-waters. */
  lemma {:induction false} LineageIsChain(s: Settings, es: seq<Event>, c: Contract)
    requires RunValid(s, es) && ContractValid(c)
    ensures Chain(s, c, Lineage(s, Run(s, es), c))
    decreases |es|
  {
    hide Append, Chain, Link, RowBaseline, LatestBaseline, Eligible, ContractValid, Normal, Lineage;
    if es == [] {
      EmptyLineage(s, c);
    } else {
      var n := |es| - 1;
      var rows := Run(s, es[..n]);
      var row := Append(s, rows, es[n]);
      LineageIsChain(s, es[..n], c);
      BaselineHasGate(s, row, c);
      LineageAppend(s, rows, row, c);
      if RowBaseline(s, row, c).Some? {
        LineageGrows(s, rows, es[n], c);
        ChainAppend(s, c, Lineage(s, rows, c), row.gate.value);
      }
    }
  }

  lemma EmptyLineage(s: Settings, c: Contract)
    requires ContractValid(c)
    ensures Lineage(s, [], c) == [] && Chain(s, c, [])
  {
  }

  lemma ChainAppend(s: Settings, c: Contract, gs: seq<Gate>, g: Gate)
    requires ContractValid(c) && Chain(s, c, gs) && Normal(g.highWater, c) && Counted(g)
    requires if gs == [] then !g.moved && g.highWater == g.value else Link(s, c, gs[|gs| - 1], g)
    ensures Chain(s, c, gs + [g])
  {
  }

  lemma BaselineHasGate(s: Settings, row: Row, c: Contract)
    requires ContractValid(c)
    ensures RowBaseline(s, row, c).Some? ==> row.gate.Some? && RowEligible(s, row)
  {
  }

  lemma LineageAppend(s: Settings, rows: seq<Row>, row: Row, c: Contract)
    requires ContractValid(c)
    requires RowBaseline(s, row, c).Some? ==> row.gate.Some?
    ensures Lineage(s, rows + [row], c)
         == if RowBaseline(s, row, c).Some? then Lineage(s, rows, c) + [row.gate.value] else Lineage(s, rows, c)
  {
  }

  lemma {:induction false} LineageGrows(s: Settings, rows: seq<Row>, e: Event, c: Contract)
    requires EventValid(s, e) && FoldsVerdict(s) && ContractValid(c)
    requires RowBaseline(s, Append(s, rows, e), c).Some?
    ensures e.Observed? && e.reading.contract == c
    ensures var g := Append(s, rows, e).gate.value; var end := LastOf(Lineage(s, rows, c));
            && Normal(g.highWater, c) && Counted(g)
            && if end.None? then !g.moved && g.highWater == g.value else Link(s, c, end.value, g)
  {
    DigestPinsHighWater(s, Append(s, rows, e), c);
    if e.Observed? {
      RecordLinks(s, rows, e.reading, e.compatibility);
    }
  }
}
