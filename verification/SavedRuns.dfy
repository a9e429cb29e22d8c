/** Runs of the primary-metric gate whose rows are saved after every cycle: plain
    metrics do not notice, every other metric starts over each time. */
module SavedRuns {
  import opened Wrappers
  import opened Json
  import opened DurableProjection
  import opened MetricComparator
  import opened PrimaryMetric
  import opened MetricLineage
  import opened MetricMemory
  import opened DurableMetric
  import D = DurableIdempotence
  import S = StoredMetric

  /** A row as later cycles see it once it is saved: a gate that does not last no
      longer counts. */
  ghost function SavedRow(w: Writer, s: Settings, row: Row): Row {
    if row.gate.Some? && !Lasting(w, s.policy, row.gate.value) then row.(gate := None) else row
  }

  /** The registry after a sequence of cycles, saved after each. */
  ghost function SavedRun(w: Writer, s: Settings, es: seq<Event>): seq<Row>
    requires RunValid(s, es)
    decreases |es|
  {
    if es == [] then []
    else
      var n := |es| - 1;
      var rows := SavedRun(w, s, es[..n]);
      rows + [SavedRow(w, s, Append(s, rows, es[n]))]
  }

  /** What a row that counts after a save looks like. */
  ghost predicate Survivor(w: Writer, s: Settings, row: Row) {
    RowEligible(s, row) ==>
      && Lasting(w, s.policy, row.gate.value) && row.gate.value.scopeKey == KeyOf(s, row.gate.value.contract)
      && row.gate.value.observation.value.contract == row.gate.value.contract
      && row.gate.value.observation.value.highWater == row.gate.value.highWater
  }

  ghost predicate Survivors(w: Writer, s: Settings, rows: seq<Row>) {
    forall i :: 0 <= i < |rows| ==> Survivor(w, s, rows[i])
  }

  lemma {:induction false} AppendSurvives(w: Writer, s: Settings, rows: seq<Row>, e: Event)
    requires EventValid(s, e)
    ensures Survivor(w, s, SavedRow(w, s, Append(s, rows, e)))
  {
    hide Record, Lasting, Eligible, KeyOf, HighWaterOf, StreakOf, StalledOf, Judge, EffectiveLabel, Separation, VerificationSha, Project;
    if e.Observed? {
      RecordView(s, rows, e.reading, e.compatibility);
      RecordMirrors(s, rows, e.reading, e.compatibility);
    }
  }

  lemma {:induction false} SavedSurvive(w: Writer, s: Settings, es: seq<Event>)
    requires RunValid(s, es)
    ensures Survivors(w, s, SavedRun(w, s, es))
    decreases |es|
  {
    hide SavedRow, Append, Survivor;
    if es != [] {
      var n := |es| - 1;
      SavedSurvive(w, s, es[..n]);
      AppendSurvives(w, s, SavedRun(w, s, es[..n]), es[n]);
    }
  }

  // ---- saved rows as JSON --------------------------------------------------

  /** What else the writer puts into each gate and each row. */
  datatype Dress = Dress(extra: nat -> Object, rest: nat -> Object)

  /** The row that the n-th cycle appends. */
  function RowJson(w: Writer, d: Dress, n: nat, row: Row): Object {
    if row.gate.Some? then d.rest(n)[D.Gate := Dict(GateJson(w, d.extra(n), row.gate.value))] else d.rest(n) - {D.Gate}
  }

  function Saved(p: Policy, rows: seq<Object>): seq<Object> {
    seq(|rows|, i requires 0 <= i < |rows| => D.Kept(p, rows[i]))
  }

  /** The stored registry: every cycle appends its row and projects all rows. */
  ghost function Registry(w: Writer, d: Dress, s: Settings, es: seq<Event>): seq<Object>
    requires RunValid(s, es)
    decreases |es|
  {
    if es == [] then []
    else
      var n := |es| - 1;
      Saved(s.policy, Registry(w, d, s, es[..n]) + [RowJson(w, d, n, Append(s, SavedRun(w, s, es[..n]), es[n]))])
  }

  /** Whether later cycles build on a stored row. */
  predicate RowCounts(e: S.Reader, row: Object) {
    Get(row, D.Gate).Dict? && S.Counts(e, Get(row, D.Gate).entries)
  }

  /** Other rows hold no gate, and labels are no false friends. */
  predicate Tame(es: seq<Event>) {
    forall i :: 0 <= i < |es| ==>
      match es[i] case Observed(r, _, _) => Proper(r.declared) case Unrelated(row) => row.gate.None?
  }

  /** A stored row is the record the evaluator works with: it counts exactly if the
      record does, and then it carries the record's observation, what the gate repeats of
      it, lineage identifier and seal. */
  ghost predicate Mirrors(e: S.Reader, w: Writer, row: Object, record: Row) {
    && (RowCounts(e, row) <==> RowEligible(e.settings, record))
    && (RowEligible(e.settings, record) && record.gate.value.observation.Some? ==>
          var g := record.gate.value; var m := Get(row, D.Gate).entries;
          var o := ObservationJson(w, g.observation.value);
          && Get(m, D.OBSERVATION) == Dict(o) && S.Repeats(m, o)
          && Get(m, S.SCOPE) == ScopeJson(g.scopeKey) && Get(m, S.SEAL) == DigestJson(w, g.observationSha))
  }

  lemma {:induction false} RegistryLength(w: Writer, d: Dress, s: Settings, es: seq<Event>)
    requires RunValid(s, es)
    ensures |Registry(w, d, s, es)| == |es| == |SavedRun(w, s, es)|
    decreases |es|
  {
    hide Append, SavedRow, RowJson;
    if es != [] { RegistryLength(w, d, s, es[..|es| - 1]); }
  }

  /** The gate of a row that has been saved some times. */
  lemma {:induction false} GateSaved(p: Policy, row: Object)
    requires !p.sensitive(D.Gate)
    ensures Get(row, D.Gate).Dict? ==> Get(D.Kept(p, row), D.Gate) == Dict(S.Stored(p, Get(row, D.Gate).entries))
    ensures D.Gate !in row ==> D.Gate !in D.Kept(p, row)
  {
    hide D.Kept, S.Stored, Project;
    if Get(row, D.Gate).Dict? {
      S.RowStoresGate(p, row, Get(row, D.Gate).entries);
      D.ProjectDict(p, row, "");
      S.NoParent();
    }
    D.KeptAt(p, row);
  }

  /** The i-th row, as its cycle recorded it. */
  ghost function Recorded(w: Writer, s: Settings, es: seq<Event>, i: nat): Row
    requires RunValid(s, es) && i < |es|
  {
    Append(s, SavedRun(w, s, es[..i]), es[i])
  }

  lemma {:induction false} SavedLength(w: Writer, s: Settings, es: seq<Event>)
    requires RunValid(s, es)
    ensures |SavedRun(w, s, es)| == |es|
    decreases |es|
  {
    hide Append, SavedRow;
    if es != [] { SavedLength(w, s, es[..|es| - 1]); }
  }

  lemma SavedStep(w: Writer, s: Settings, es: seq<Event>, i: nat)
    requires RunValid(s, es) && i < |es|
    ensures var n := |es| - 1;
      && |SavedRun(w, s, es)| == |es| && |SavedRun(w, s, es[..n])| == n
      && SavedRun(w, s, es)[i] == if i < n then SavedRun(w, s, es[..n])[i] else SavedRow(w, s, Recorded(w, s, es, n))
  {
    hide Append, SavedRow;
    SavedLength(w, s, es);
    SavedLength(w, s, es[..|es| - 1]);
  }

  lemma RecordedEarlier(w: Writer, s: Settings, es: seq<Event>, i: nat)
    requires RunValid(s, es) && i < |es| - 1
    ensures Recorded(w, s, es[..|es| - 1], i) == Recorded(w, s, es, i)
  {
    hide Append, SavedRun;
    assert es[..|es| - 1][..i] == es[..i];
  }

  lemma {:induction false} RecordedAt(w: Writer, s: Settings, es: seq<Event>, i: nat)
    requires RunValid(s, es) && i < |es|
    ensures i < |SavedRun(w, s, es)| && SavedRun(w, s, es)[i] == SavedRow(w, s, Recorded(w, s, es, i))
    decreases |es|
  {
    hide Append, SavedRow, SavedRun, Recorded;
    SavedStep(w, s, es, i);
    if i < |es| - 1 {
      RecordedAt(w, s, es[..|es| - 1], i);
      RecordedEarlier(w, s, es, i);
    }
  }

  /** The last cycle saved every row once more. */
  lemma RegistryStep(w: Writer, d: Dress, s: Settings, es: seq<Event>, i: nat)
    requires RunValid(s, es) && i < |es|
    ensures var n := |es| - 1;
      && |Registry(w, d, s, es)| == |es| && |Registry(w, d, s, es[..n])| == n
      && Registry(w, d, s, es)[i]
         == D.Kept(s.policy, if i < n then Registry(w, d, s, es[..n])[i] else RowJson(w, d, n, Recorded(w, s, es, n)))
  {
    hide Append, SavedRow, RowJson, D.Kept, SavedRun;
    RegistryLength(w, d, s, es);
    RegistryLength(w, d, s, es[..|es| - 1]);
  }

  /** A gate after so many saves, or no gate. */
  ghost predicate Since(w: Writer, d: Dress, p: Policy, i: nat, record: Row, row: Object, n: nat) {
    if record.gate.Some? then Get(row, D.Gate) == Dict(S.StoredTimes(p, GateJson(w, d.extra(i), record.gate.value), n))
    else D.Gate !in row
  }

  lemma SinceNext(w: Writer, d: Dress, p: Policy, i: nat, record: Row, row: Object, n: nat)
    requires !p.sensitive(D.Gate) && Since(w, d, p, i, record, row, n)
    ensures Since(w, d, p, i, record, D.Kept(p, row), n + 1)
  {
    hide D.Kept, GateJson, S.Stored;
    GateSaved(p, row);
  }

  lemma SinceNow(w: Writer, d: Dress, p: Policy, i: nat, record: Row)
    ensures Since(w, d, p, i, record, RowJson(w, d, i, record), 0)
  {
    hide GateJson, S.Stored;
  }

  /** In the stored registry the i-th gate has been saved once by every cycle since. */
  lemma {:induction false} StoredSince(w: Writer, d: Dress, s: Settings, es: seq<Event>, i: nat)
    requires RunValid(s, es) && i < |es| && !s.policy.sensitive(D.Gate)
    ensures |Registry(w, d, s, es)| == |es|
    ensures Since(w, d, s.policy, i, Recorded(w, s, es, i), Registry(w, d, s, es)[i], |es| - i)
    decreases |es|
  {
    hide Registry, Recorded, Since, D.Kept, RowJson;
    var n := |es| - 1;
    RegistryStep(w, d, s, es, i);
    var record := Recorded(w, s, es, i);
    if i < n {
      StoredSince(w, d, s, es[..n], i);
      RecordedEarlier(w, s, es, i);
      SinceNext(w, d, s.policy, i, record, Registry(w, d, s, es[..n])[i], n - i);
    } else {
      SinceNow(w, d, s.policy, i, record);
      SinceNext(w, d, s.policy, i, record, RowJson(w, d, i, record), 0);
    }
  }

  /** One stored row against its record. */
  lemma {:induction false} StoredMirrors(
    e: S.Reader, w: Writer, extra: Object, rows: seq<Row>, r: Reading, compatibility: Object, scope: ScopeKey, row: Object, n: nat)
    requires ReadingValid(r) && Faithful(e, w) && Legible(e.Policy()) && Proper(r.declared) && FoldsVerdict(e.settings) && n > 0
    requires Get(row, D.Gate) == Dict(S.StoredTimes(e.Policy(), GateJson(w, extra, Record(e.settings, rows, r, compatibility)), n))
    ensures Mirrors(e, w, row, SavedRow(w, e.settings, Row(Some(Record(e.settings, rows, r, compatibility)), scope)))
  {
    hide Record, GateJson, ObservationJson, Eligible, Lasting, S.Counts, S.Durable, S.StoredTimes, S.KeysOpen, S.Sealed, Mirrored, Faithful,
      S.Repeats, ScopeJson, DigestJson;
    var g := Record(e.settings, rows, r, compatibility);
    var m := GateJson(w, extra, g);
    RecordMirrors(e.settings, rows, r, compatibility);
    WrittenIsSealed(w, e, extra, g);
    WrittenGate(w, extra, g);
    S.SavedCountsIff(e, m, n);
    WrittenCountsIff(w, e, extra, rows, r, compatibility);
    DurableIff(w, e, extra, rows, r, compatibility);
    if S.Durable(e.Policy(), m) { S.DurableForEver(e, m, n); }
  }

  /** Over every run, row by row, the stored registry is the registry the theorems below
      speak of. */
  lemma {:induction false} RegistryMirrorsRun(e: S.Reader, w: Writer, d: Dress, es: seq<Event>, i: nat)
    requires RunValid(e.settings, es) && Tame(es) && Faithful(e, w) && Legible(e.Policy()) && i < |es|
    ensures |Registry(w, d, e.settings, es)| == |es| == |SavedRun(w, e.settings, es)|
    ensures Mirrors(e, w, Registry(w, d, e.settings, es)[i], SavedRun(w, e.settings, es)[i])
  {
    hide Record, GateJson, Registry, SavedRun, Mirrors, Faithful, S.StoredTimes, SavedRow, ReadingValid, S.KeysOpen;
    var s := e.settings;
    RegistryLength(w, d, s, es);
    RecordedAt(w, s, es, i);
    StoredSince(w, d, s, es, i);
    match es[i]
    case Observed(r, compatibility, scope) =>
      StoredMirrors(e, w, d.extra(i), SavedRun(w, s, es[..i]), r, compatibility, scope, Registry(w, d, s, es)[i], |es| - i);
    case Unrelated(row) =>
      NothingMirrors(e, w, Registry(w, d, s, es)[i], row);
  }

  lemma NothingMirrors(e: S.Reader, w: Writer, row: Object, record: Row)
    requires D.Gate !in row && record.gate.None?
    ensures Mirrors(e, w, row, SavedRow(w, e.settings, record))
  {
  }

  // ---- metrics that are replaced -------------------------------------------

  lemma SurvivorIsPlain(w: Writer, s: Settings, row: Row)
    requires Survivor(w, s, row) && RowEligible(s, row)
    ensures PlainContract(s.policy, row.gate.value.contract) && PlainValue(s.policy, row.gate.value.highWater)
    ensures row.gate.value.scopeKey == KeyOf(s, row.gate.value.contract)
  {
    hide Eligible, PlainContract, PlainValue, CleanEvidence, D.Quiet, KeyOf;
  }

  /** A contract with settings other than a plain target keys its lineage by itself. */
  lemma ReplacedKey(s: Settings, c: Contract, c': Contract)
    requires !PlainContract(s.policy, c) && PlainContract(s.policy, c')
    ensures KeyOf(s, c') != KeyOf(s, c) && KeyOf(s, c') != NoKey && c'.(basisId := c.basisId) != c
  {
  }

  lemma {:induction false} NothingFound(w: Writer, s: Settings, rows: seq<Row>, c: Contract)
    requires Survivors(w, s, rows) && ContractValid(c) && !PlainContract(s.policy, c)
    ensures LatestBaseline(s, rows, c).None? && LatestOtherBasis(s, rows, c).None? && LatestInScope(s, rows, KeyOf(s, c)).None?
  {
    hide Survivor, Eligible, PlainContract, NormalizeValue, KeyOf, ContractValid;
    if rows != [] {
      var n := |rows| - 1;
      NothingFound(w, s, rows[..n], c);
      if RowEligible(s, rows[n]) {
        SurvivorIsPlain(w, s, rows[n]);
        ReplacedKey(s, c, rows[n].gate.value.contract);
      }
    }
  }

  /** A set, a vector, an ordered metric with ranks or one with an unplain target is
      evaluated in every cycle of a saved run as if there were no history. */
  lemma {:induction false} ReplacedStartsOver(w: Writer, s: Settings, es: seq<Event>, r: Reading)
    requires RunValid(s, es) && ReadingValid(r) && !PlainContract(s.policy, r.contract)
    ensures Evaluate(s, SavedRun(w, s, es), r) == Evaluate(s, [], r)
  {
    hide RunValid, SavedRun, Survivors, Evaluate, PlainContract, ContractValid, Normal, KeyOf, Recount;
    var rows := SavedRun(w, s, es);
    SavedSurvive(w, s, es);
    NothingFound(w, s, rows, r.contract);
    NothingInScope(s, KeyOf(s, r.contract));
    SameLookbacks(s, rows, [], r);
  }

  lemma FreshGate(s: Settings, r: Reading, compatibility: Object)
    requires ReadingValid(r)
    ensures var g := Record(s, [], r, compatibility);
      && g.comparability == NoBaseline && g.highWater == r.value && !g.moved && !g.stalled && g.streak == Some(0)
      && g.evaluation == NotJudged
  {
    hide Independent, EffectiveLabel, Separation, VerificationSha, Project, Binding, KeyOf, CompatibilityStatus, Normal, ContractValid;
    NothingInScope(s, KeyOf(s, r.contract));
  }

  /** So its high-water never moves, it is never judged, and no cap ever stalls it. */
  lemma {:induction false} ReplacedNeverMoves(w: Writer, s: Settings, es: seq<Event>, r: Reading, compatibility: Object)
    requires RunValid(s, es) && ReadingValid(r) && !PlainContract(s.policy, r.contract)
    ensures var g := Record(s, SavedRun(w, s, es), r, compatibility);
      && g.comparability == NoBaseline && g.highWater == r.value && !g.moved && !g.stalled && g.streak == Some(0)
      && g.evaluation == NotJudged
  {
    hide RunValid, SavedRun, Evaluate, PlainContract, ContractValid, Normal, Bind, Finalize;
    ReplacedStartsOver(w, s, es, r);
    FreshGate(s, r, compatibility);
  }

  // ---- metrics that stay ---------------------------------------------------

  /** What a caller can check of a reading before it is recorded. */
  ghost predicate Lasts(w: Writer, s: Settings, r: Reading, receipt: Option<Receipt>, compatibility: Object) {
    && PlainContract(s.policy, r.contract) && PlainValue(s.policy, r.value)
    && CleanEvidence(w, s.policy, Binding(r.artifactRef), receipt)
    && D.Quiet(s.policy, Dict(r.separationGate), "") && D.Quiet(s.policy, Dict(compatibility), "")
  }

  lemma {:induction false} BaselinePlain(w: Writer, s: Settings, rows: seq<Row>, c: Contract)
    requires Survivors(w, s, rows) && ContractValid(c) && LatestBaseline(s, rows, c).Some?
    ensures PlainValue(s.policy, LatestBaseline(s, rows, c).value.value)
  {
    hide Survivor, Eligible, PlainValue, NormalizeValue, KeyOf, ContractValid;
    var n := |rows| - 1;
    if RowBaseline(s, rows[n], c).Some? {
      DigestPinsHighWater(s, rows[n], c);
      SurvivorIsPlain(w, s, rows[n]);
    } else {
      BaselinePlain(w, s, rows[..n], c);
    }
  }

  /** On a saved history whether the next gate lasts is decided by its reading alone:
      the high-water it inherits is plain. */
  lemma {:induction false} RecordLastsIff(w: Writer, s: Settings, rows: seq<Row>, r: Reading, compatibility: Object)
    requires ReadingValid(r) && Survivors(w, s, rows)
    ensures Lasting(w, s.policy, Record(s, rows, r, compatibility)) <==>
            Lasts(w, s, r, if Judge(s, rows, r).migrated then r.receipt else None, compatibility)
  {
    hide Record, PlainContract, PlainValue, CleanEvidence, D.Quiet, KeyOf, StreakOf, StalledOf, EffectiveLabel, Separation, Binding,
      VerificationSha, Project, ContractValid, Normal, Survivors, Compare, Independent, LatestBaseline, LatestOtherBasis, StatusOf;
    RecordView(s, rows, r, compatibility);
    SealView(s, rows, r, compatibility);
    RecordMirrors(s, rows, r, compatibility);
    if LatestBaseline(s, rows, r.contract).Some? { BaselinePlain(w, s, rows, r.contract); }
  }

  ghost predicate AllLast(w: Writer, s: Settings, es: seq<Event>) {
    forall i :: 0 <= i < |es| && es[i].Observed? ==>
      Lasts(w, s, es[i].reading, es[i].reading.receipt, es[i].compatibility)
  }

  lemma LastsWithout(w: Writer, s: Settings, r: Reading, compatibility: Object)
    requires Lasts(w, s, r, r.receipt, compatibility)
    ensures Lasts(w, s, r, None, compatibility)
  {
  }

  lemma CountingSnoc(s: Settings, rows: seq<Row>, row: Row)
    ensures Counting(s, rows + [row]) == Counting(s, rows) + if RowEligible(s, row) then [row] else []
  {
    hide RowEligible;
    assert (rows + [row])[..|rows|] == rows;
  }

  /** The rows appended to a saved history and to the one in memory count alike. */
  lemma {:induction false} SameAppended(w: Writer, s: Settings, rows: seq<Row>, saved: seq<Row>, e: Event)
    requires EventValid(s, e) && Survivors(w, s, saved) && Counting(s, saved) == Counting(s, rows)
    requires e.Observed? ==> Lasts(w, s, e.reading, e.reading.receipt, e.compatibility)
    ensures var a, b := Append(s, rows, e), SavedRow(w, s, Append(s, saved, e));
            a == b || (!RowEligible(s, a) && !RowEligible(s, b))
  {
    hide Record, Counting, Lasting, Lasts, Survivors, Eligible, Judge, ReadingValid;
    if e.Observed? {
      NonInterference(s, rows, e.reading, e.compatibility);
      NonInterference(s, saved, e.reading, e.compatibility);
      LastsWithout(w, s, e.reading, e.compatibility);
      RecordLastsIff(w, s, saved, e.reading, e.compatibility);
    }
  }

  lemma {:induction false} SameRowsCount(w: Writer, s: Settings, es: seq<Event>)
    requires RunValid(s, es) && AllLast(w, s, es)
    ensures Counting(s, SavedRun(w, s, es)) == Counting(s, Run(s, es))
    decreases |es|
  {
    hide SavedRow, Append, Counting, RowEligible, Lasts, EventValid;
    if es != [] {
      var n := |es| - 1;
      var rows, saved := Run(s, es[..n]), SavedRun(w, s, es[..n]);
      SameRowsCount(w, s, es[..n]);
      SavedSurvive(w, s, es[..n]);
      SameAppended(w, s, rows, saved, es[n]);
      CountingSnoc(s, rows, Append(s, rows, es[n]));
      CountingSnoc(s, saved, SavedRow(w, s, Append(s, saved, es[n])));
    }
  }

  /** If every reading of a run lasts, saving after every cycle changes no result. */
  lemma {:induction false} SavingIsInvisible(w: Writer, s: Settings, es: seq<Event>, r: Reading, compatibility: Object)
    requires RunValid(s, es) && AllLast(w, s, es) && ReadingValid(r)
    ensures Record(s, SavedRun(w, s, es), r, compatibility) == Record(s, Run(s, es), r, compatibility)
  {
    hide RunValid, AllLast, SavedRun, Run, Counting, Record, ReadingValid;
    SameRowsCount(w, s, es);
    NonInterference(s, SavedRun(w, s, es), r, compatibility);
    NonInterference(s, Run(s, es), r, compatibility);
  }
}
