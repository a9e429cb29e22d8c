/** The look-back loops over registry rows, each proved against its specification,
    and the scan for the best recorded high-water. */
module MetricRegistry {
  import opened Json
  import opened Wrappers
  import opened MetricComparator
  import opened MetricOrder
  import opened PrimaryMetric
  import opened MetricLineage
  import opened MetricStall
  import opened Text

  // ---- normaliser loops ----------------------------------------------------

  /** Fill a token table, refusing non-scalars and repeats. */
  method CollectSet(items: seq<Datum>) returns (result: Result<Datum>)
    ensures result == NormalizeSet(Listing(items))
  {
    var seen: set<Atom> := {};
    for i := 0 to |items|
      invariant SetOf(items, {}) == SetOf(items[i..], seen)
    {
      if !items[i].Single? { return Err("primary_metric_set_member_invalid"); }
      if items[i].a in seen { return Err("primary_metric_set_member_duplicate"); }
      seen := seen + {items[i].a};
    }
    return Ok(Members(seen));
  }

  /** Fill an axis table, refusing blank or repeated names and non-numbers. */
  method CollectAxes(pairs: seq<(string, Datum)>, number: string -> Result<real>) returns (result: Result<Datum>)
    ensures result == NormalizeVector(Mapping(pairs), number)
  {
    if pairs == [] { return Err("primary_metric_vector_value_missing_or_invalid"); }
    var axes: AxisMap := map[];
    for i := 0 to |pairs|
      invariant AxesOf(pairs, number, map[]) == AxesOf(pairs[i..], number, axes)
    {
      var key := Strip(pairs[i].0);
      StripIsNormalForm(pairs[i].0);
      assert pairs[i..][1..] == pairs[i + 1..];
      if key == "" || key in axes || pairs[i].1 in {Single(Flag(true)), Single(Flag(false))} {
        return Err("primary_metric_vector_axis_invalid");
      }
      match Numeric(pairs[i].1, number) {
        case Err(_) => return Err("primary_metric_vector_axis_non_numeric");
        case Ok(x) => axes := axes[key := x];
      }
    }
    return Ok(AxisValues(axes));
  }

  // ---- look-back loops -----------------------------------------------------

  method FindBaseline(s: Settings, rows: seq<Row>, c: Contract) returns (found: Option<Baseline>)
    requires ContractValid(c)
    ensures found == LatestBaseline(s, rows, c)
  {
    hide RowBaseline, ContractValid;
    assert rows[..|rows|] == rows;
    for n := |rows| downto 0
      invariant LatestBaseline(s, rows, c) == LatestBaseline(s, rows[..n], c)
    {
      assert rows[..n + 1][..n] == rows[..n];
      found := RowBaseline(s, rows[n], c);
      if found.Some? { return; }
    }
    return None;
  }

  method FindOtherBasis(s: Settings, rows: seq<Row>, c: Contract) returns (found: Option<Gate>)
    ensures found == LatestOtherBasis(s, rows, c)
  {
    hide Eligible;
    assert rows[..|rows|] == rows;
    for n := |rows| downto 0
      invariant LatestOtherBasis(s, rows, c) == LatestOtherBasis(s, rows[..n], c)
    {
      assert rows[..n + 1][..n] == rows[..n];
      if OtherBasis(s, rows[n], c) { return rows[n].gate; }
    }
    return None;
  }

  /** The zero-movement streak: the stored counter if the newest row in scope has
      one, otherwise a recount back to the last movement. */
  method ZeroMovementStreak(s: Settings, rows: seq<Row>, key: ScopeKey, moved: bool, comparable: bool)
    returns (streak: nat)
    ensures streak == ZeroStreak(s, rows, key, moved, comparable)
  {
    hide Eligible;
    if moved { return 0; }
    var prior: Option<nat> := None;
    assert rows[..|rows|] == rows;
    for n := |rows| downto 0
      invariant prior == None
      invariant LatestInScope(s, rows, key) == LatestInScope(s, rows[..n], key)
    {
      assert rows[..n + 1][..n] == rows[..n];
      if InScope(s, rows[n], key) {
        prior := Counter(rows[n].gate.value.streak);
        break;
      }
    }
    if !comparable { return if prior.Some? then prior.value else 0; }
    if prior.Some? { return prior.value + 1; }
    streak := 1;
    for n := |rows| downto 0
      invariant 1 + Recount(s, rows, key) == streak + Recount(s, rows[..n], key)
    {
      assert rows[..n + 1][..n] == rows[..n];
      if InScope(s, rows[n], key) {
        if rows[n].gate.value.moved || rows[n].gate.value.previous == Absent { break; }
        streak := streak + 1;
      }
    }
  }

  // ---- the best recorded high-water ----------------------------------------

  /** The numeric high-water a row contributes to the scan of a lineage. */
  function ScannedValue(s: Settings, row: Row, key: ScopeKey): Option<real> {
    if !RowEligible(s, row) || row.gate.value.scopeKey != key || !ContractValid(row.gate.value.contract) then None
    else
      match NormalizeValue(row.gate.value.highWater, row.gate.value.contract, s.number)
      case Ok(v) =>
        if row.gate.value.highWaterSha != OfValue(row.gate.value.contract, v) then None
        else (match v case Single(Decimal(x)) => Some(x) case Single(Whole(i)) => Some(i as real) case _ => None)
      case Err(_) => None
  }

  function Scan(s: Settings, rows: seq<Row>, key: ScopeKey): seq<real> {
    if rows == [] then []
    else
      var n := |rows| - 1;
      var x := ScannedValue(s, rows[n], key);
      Scan(s, rows[..n], key) + (if x.Some? then [x.value] else [])
  }

  ghost predicate IsBest(xs: seq<real>, x: real, higher: bool) {
    x in xs && forall y :: y in xs ==> Signed(y, higher) <= Signed(x, higher)
  }

  lemma BestOfOne(x: real, higher: bool)
    ensures IsBest([x], x, higher)
  {
  }

  lemma BestAppend(xs: seq<real>, best: real, x: real, higher: bool)
    requires IsBest(xs, best, higher)
    ensures Signed(x, higher) >= Signed(best, higher) ==> IsBest(xs + [x], x, higher)
    ensures Signed(x, higher) <= Signed(best, higher) ==> IsBest(xs + [x], best, higher)
  {
  }

  /** The extreme of all recorded high-waters of a lineage. */
  method RegistryHighWater(s: Settings, rows: seq<Row>, key: ScopeKey, higher: bool) returns (best: Option<real>)
    ensures best.None? <==> Scan(s, rows, key) == []
    ensures best.Some? ==> IsBest(Scan(s, rows, key), best.value, higher)
  {
    hide ScannedValue, IsBest;
    best := None;
    for n := 0 to |rows|
      invariant best.None? <==> Scan(s, rows[..n], key) == []
      invariant best.Some? ==> IsBest(Scan(s, rows[..n], key), best.value, higher)
    {
      assert rows[..n + 1][..n] == rows[..n];
      var x := ScannedValue(s, rows[n], key);
      if x.Some? {
        BestOfOne(x.value, higher);
        assert Scan(s, rows[..n], key) == [] ==> Scan(s, rows[..n + 1], key) == [x.value];
        if best.Some? { BestAppend(Scan(s, rows[..n], key), best.value, x.value, higher); }
      } else {
        assert Scan(s, rows[..n + 1], key) == Scan(s, rows[..n], key);
      }
      if x.Some? && (best.None? || Signed(x.value, higher) > Signed(best.value, higher)) {
        best := x;
      }
    }
    assert rows[..|rows|] == rows;
  }

  ghost function Numbers(gs: seq<Gate>): seq<real> {
    if gs == [] then []
    else
      var v := gs[|gs| - 1].highWater;
      Numbers(gs[..|gs| - 1]) + [if v.Single? && v.a.Decimal? then v.a.x else 0.0]
  }

  /** In a climbing chain the newest number is the best so far. */
  lemma {:induction false} ChainEndsBest(s: Settings, c: Contract, gs: seq<Gate>)
    requires ContractValid(c) && Numerical(c) && Chain(s, c, gs) && gs != [] && s.epsilon >= 0.0
    ensures Normal(gs[|gs| - 1].highWater, c)
    ensures IsBest(Numbers(gs), gs[|gs| - 1].highWater.a.x, c.semantics == HigherIsBetter)
    decreases |gs|
  {
    hide ContractValid, IsBest;
    var n := |gs| - 1;
    if n == 0 {
      assert Numbers(gs[..0]) == [];
      BestOfOne(gs[0].highWater.a.x, c.semantics == HigherIsBetter);
      assert Numbers(gs) == [gs[0].highWater.a.x];
    } else {
      ChainEndsBest(s, c, gs[..n]);
      BestAppend(Numbers(gs[..n]), gs[n - 1].highWater.a.x, gs[n].highWater.a.x, c.semantics == HigherIsBetter);
    }
  }

  lemma AppendScanned(s: Settings, rows: seq<Row>, e: Event, c: Contract)
    requires EventValid(s, e) && FoldsVerdict(s) && ContractValid(c) && Numerical(c)
    requires e.Observed? && KeyOf(s, e.reading.contract) == KeyOf(s, c) ==> e.reading.contract == c
    ensures var row := Append(s, rows, e);
            && (RowBaseline(s, row, c).Some? ==>
                  row.gate.Some? && row.gate.value.highWater.Single? && row.gate.value.highWater.a.Decimal?)
            && ScannedValue(s, row, KeyOf(s, c))
            == if RowBaseline(s, row, c).Some? then Some(row.gate.value.highWater.a.x) else None
  {
    hide Record, Eligible, NormalizeValue, KeyOf;
    var row := Append(s, rows, e);
    if RowBaseline(s, row, c).Some? {
      DigestPinsHighWater(s, row, c);
    }
    if e.Observed? {
      RecordView(s, rows, e.reading, e.compatibility);
      if Eligible(s, Record(s, rows, e.reading, e.compatibility)) {
        RecordIsBaseline(s, rows, e.reading, e.compatibility, e.goalScope);
      }
    }
  }

  lemma {:induction false} ScanIsLineage(s: Settings, es: seq<Event>, c: Contract)
    requires RunValid(s, es) && ContractValid(c) && Numerical(c) && KeySeparates(s, es, c)
    ensures Scan(s, Run(s, es), KeyOf(s, c)) == Numbers(Lineage(s, Run(s, es), c))
    decreases |es|
  {
    hide Append, Lineage, RowBaseline, KeyOf, ContractValid, Normal, ScannedValue, RunValid;
    if es == [] {
      EmptyLineage(s, c);
    } else {
      var n := |es| - 1;
      RunPrefix(s, es);
      var rows := Run(s, es[..n]);
      var row := Append(s, rows, es[n]);
      assert KeySeparates(s, es[..n], c);
      ScanIsLineage(s, es[..n], c);
      AppendScanned(s, rows, es[n], c);
      LineageAppend(s, rows, row, c);
      assert (rows + [row])[..|rows|] == rows;
      if RowBaseline(s, row, c).Some? {
        var gs := Lineage(s, rows, c);
        assert (gs + [row.gate.value])[..|gs|] == gs;
      }
    }
  }

  /** In every run, scanning the whole registry for the best high-water finds the
      one the newest row of the lineage already carries. */
  lemma {:induction false} ScanFindsNewest(s: Settings, es: seq<Event>, c: Contract)
    requires RunValid(s, es) && ContractValid(c) && Numerical(c) && KeySeparates(s, es, c) && s.epsilon >= 0.0
    requires LatestBaseline(s, Run(s, es), c).Some?
    ensures var b := LatestBaseline(s, Run(s, es), c).value;
            && Normal(b.value, c)
            && IsBest(Scan(s, Run(s, es), KeyOf(s, c)), b.value.a.x, c.semantics == HigherIsBetter)
  {
    hide Lineage, Run, RunValid, KeySeparates, Chain, Scan, LatestBaseline, IsBest, KeyOf;
    BaselineIsLineageEnd(s, Run(s, es), c);
    LineageIsChain(s, es, c);
    ScanIsLineage(s, es, c);
    ChainEndsBest(s, c, Lineage(s, Run(s, es), c));
  }

}
