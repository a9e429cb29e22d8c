/** Typed metric values, their normal forms, and the comparison of a new
    observation with the recorded high-water. */
module MetricComparator {
  import opened Text
  import opened Wrappers

  /** A JSON scalar. Two scalars have the same canonical JSON token exactly when
      they are equal here: `1` and `1.0` print differently. */
  datatype Atom = Flag(b: bool) | Whole(i: int) | Decimal(x: real) | Words(s: string)

  /** A key-sorted dictionary of finite numbers whose keys need no trimming. */
  type AxisMap = m: map<string, real> | forall k :: k in m ==> k != "" && Trimmed(k)

  /** A metric value as supplied or as stored. `Members` stands for a
      duplicate-free scalar list in token order and `AxisValues` for a key-sorted
      numeric dictionary; every other list or dictionary is `Listing` or `Mapping`. */
  datatype Datum =
    | Absent
    | Single(a: Atom)
    | Listing(items: seq<Datum>)
    | Members(members: set<Atom>)
    | Mapping(pairs: seq<(string, Datum)>)
    | AxisValues(axes: AxisMap)

  datatype Kind = Scalar | Set | Vector | Ordered | Predicate

  datatype Semantics =
    HigherIsBetter | LowerIsBetter | EqualRequired | SetRelation | Pareto | PredicateOnly

  datatype Config =
    | NoConfig
    | Target(target: Atom)
    | Inclusion(supersetIsBetter: bool)
    | Directions(axes: seq<(string, bool)>)  // axis name, higher is better
    | Ranks(ranks: seq<Atom>)

  datatype Contract = Contract(
    metricId: string, basisId: string, dimensionId: string, subjectId: string,
    provenanceId: string, kind: Kind, semantics: Semantics, config: Config)

  predicate Distinct<T(==)>(s: seq<T>) {
    forall i, j :: 0 <= i < j < |s| ==> s[i] != s[j]
  }

  function AxisNames(axes: seq<(string, bool)>): set<string> {
    set i | 0 <= i < |axes| :: axes[i].0
  }

  predicate AxesValid(axes: seq<(string, bool)>) {
    && axes != []
    && (forall i, j :: 0 <= i < j < |axes| ==> axes[i].0 != axes[j].0)
    && forall i :: 0 <= i < |axes| ==> axes[i].0 != "" && Trimmed(axes[i].0)
  }

  /** What contract normalisation lets through: a supported kind/semantics pair
      together with the configuration that pair needs. */
  predicate ContractValid(c: Contract) {
    match c.semantics
    case EqualRequired => c.kind in {Scalar, Ordered} && c.config.Target?
    case SetRelation => c.kind == Set && c.config.Inclusion?
    case Pareto => c.kind == Vector && c.config.Directions? && AxesValid(c.config.axes)
    case PredicateOnly => c.kind == Predicate && c.config.NoConfig?
    case _ =>
      || (c.kind == Scalar && c.config.NoConfig?)
      || (c.kind == Ordered && c.config.Ranks? && c.config.ranks != [] && Distinct(c.config.ranks))
  }

  // ---- value normalisation -------------------------------------------------

  /** `float(value)`: booleans are refused, text goes through `number`. */
  function Numeric(v: Datum, number: string -> Result<real>): Result<real> {
    match v
    case Single(Whole(i)) => Ok(i as real)
    case Single(Decimal(x)) => Ok(x)
    case Single(Words(s)) => number(s)
    case _ => Err("non_numeric")
  }

  function SetOf(items: seq<Datum>, seen: set<Atom>): Result<set<Atom>> {
    if items == [] then Ok(seen)
    else if !items[0].Single? then Err("primary_metric_set_member_invalid")
    else if items[0].a in seen then Err("primary_metric_set_member_duplicate")
    else SetOf(items[1..], seen + {items[0].a})
  }

  function AxesOf(pairs: seq<(string, Datum)>, number: string -> Result<real>, acc: AxisMap): Result<AxisMap> {
    if pairs == [] then Ok(acc)
    else
      var key := Strip(pairs[0].0);
      if key == "" || key in acc || pairs[0].1 in {Single(Flag(true)), Single(Flag(false))} then
        Err("primary_metric_vector_axis_invalid")
      else
        match Numeric(pairs[0].1, number)
        case Err(_) => Err("primary_metric_vector_axis_non_numeric")
        case Ok(x) =>
          StripIsNormalForm(pairs[0].0);
          AxesOf(pairs[1..], number, acc[key := x])
  }

  function NormalizeSet(v: Datum): Result<Datum> {
    match v
    case Members(_) => Ok(v)
    case Listing(items) =>
      (match SetOf(items, {}) case Ok(s) => Ok(Members(s)) case Err(e) => Err(e))
    case _ => Err("primary_metric_set_value_missing_or_invalid")
  }

  function NormalizeVector(v: Datum, number: string -> Result<real>): Result<Datum> {
    match v
    case AxisValues(m) =>
      if m == map[] then Err("primary_metric_vector_value_missing_or_invalid") else Ok(v)
    case Mapping(pairs) =>
      if pairs == [] then Err("primary_metric_vector_value_missing_or_invalid")
      else (match AxesOf(pairs, number, map[]) case Ok(m) => Ok(AxisValues(m)) case Err(e) => Err(e))
    case _ => Err("primary_metric_vector_value_missing_or_invalid")
  }

  function NormalizeValue(v: Datum, c: Contract, number: string -> Result<real>): Result<Datum>
    requires ContractValid(c)
  {
    match c.kind
    case Scalar =>
      if c.semantics != EqualRequired then
        (match Numeric(v, number)
         case Ok(x) => Ok(Single(Decimal(x)))
         case Err(_) => Err("primary_metric_value_missing_or_non_numeric"))
      else if v.Single? then Ok(v) else Err("primary_metric_value_missing_or_invalid")
    case Set => NormalizeSet(v)
    case Vector =>
      (match NormalizeVector(v, number)
       case Ok(w) => if w.axes.Keys != AxisNames(c.config.axes) then Err("vector_axis_contract_mismatch") else Ok(w)
       case Err(e) => Err(e))
    case Ordered =>
      if !v.Single? then Err("primary_metric_value_missing_or_invalid")
      else if c.semantics != EqualRequired && v.a !in c.config.ranks then Err("ordered_value_outside_contract")
      else Ok(v)
    case Predicate =>
      if v.Single? && v.a.Flag? then Ok(v) else Err("predicate_value_missing_or_invalid")
  }

  /** The values that may be compared under a contract. */
  predicate Normal(v: Datum, c: Contract)
    requires ContractValid(c)
  {
    match c.kind
    case Scalar => v.Single? && (c.semantics != EqualRequired ==> v.a.Decimal?)
    case Set => v.Members?
    case Vector => v.AxisValues? && v.axes.Keys == AxisNames(c.config.axes)
    case Ordered => v.Single? && (c.semantics != EqualRequired ==> v.a in c.config.ranks)
    case Predicate => v.Single? && v.a.Flag?
  }

  /** Normalisation lands in the normal form, and the normal values are exactly
      its fixed points: re-reading a stored normal value changes nothing. */
  lemma NormalizeIsNormalForm(v: Datum, c: Contract, number: string -> Result<real>)
    requires ContractValid(c)
    ensures NormalizeValue(v, c, number).Ok? ==> Normal(NormalizeValue(v, c, number).value, c)
    ensures NormalizeValue(v, c, number) == Ok(v) <==> Normal(v, c)
  {
    if c.kind == Vector && Normal(v, c) {
      assert c.config.axes[0].0 in v.axes;
    }
  }

  /** All items are scalars, none of them seen before. */
  ghost predicate Fresh(items: seq<Datum>, seen: set<Atom>) {
    forall i :: 0 <= i < |items| ==> items[i].Single? && items[i].a !in seen
  }

  lemma FreshSplit(items: seq<Datum>, seen: set<Atom>)
    requires items != [] && items[0].Single? && items[0].a !in seen
    ensures Fresh(items, seen) && Distinct(items) <==>
            Fresh(items[1..], seen + {items[0].a}) && Distinct(items[1..])
  {
  }

  /** A listing is accepted as a set exactly when all its items are scalars and
      none repeats, and then the result holds precisely those scalars. */
  lemma {:induction false} SetOfMeaning(items: seq<Datum>, seen: set<Atom>)
    ensures SetOf(items, seen).Ok? <==> Fresh(items, seen) && Distinct(items)
    ensures SetOf(items, seen).Ok? ==>
            SetOf(items, seen).value == seen + (set i | 0 <= i < |items| :: items[i].a)
  {
    hide Distinct;
    if items == [] {
      assert Distinct(items) by { NothingRepeats(items); }
    } else if items[0].Single? && items[0].a !in seen {
      SetOfMeaning(items[1..], seen + {items[0].a});
      FreshSplit(items, seen);
      if SetOf(items, seen).Ok? {
        AtomsSplit(items);
      }
    }
  }

  lemma NothingRepeats(items: seq<Datum>)
    requires items == []
    ensures Distinct(items)
  {
  }

  lemma AtomsSplit(items: seq<Datum>)
    requires items != [] && forall i :: 0 <= i < |items| ==> items[i].Single?
    ensures (set i | 0 <= i < |items| :: items[i].a)
         == {items[0].a} + (set i | 0 <= i < |items[1..]| :: items[1..][i].a)
  {
  }

  // ---- comparison ----------------------------------------------------------

  datatype Relation = Improved | Adverse | Same | Incomparable

  /** One number against another: moves of at most `epsilon` do not count. */
  function Directional(current: real, previous: real, higher: bool, epsilon: real): Relation {
    var delta := if higher then current - previous else previous - current;
    if delta > epsilon then Improved else if delta < -epsilon then Adverse else Same
  }

  function Rank(a: Atom, ranks: seq<Atom>): nat
    requires a in ranks
    ensures Rank(a, ranks) < |ranks| && ranks[Rank(a, ranks)] == a
  {
    if ranks[0] == a then 0 else 1 + Rank(a, ranks[1..])
  }

  /** The better of two truth values is the true one. */
  function Reached(current: bool, previous: bool): Relation {
    if current && !previous then Improved else if previous && !current then Adverse else Same
  }

  function CompareSets(current: set<Atom>, previous: set<Atom>, supersetIsBetter: bool): Relation {
    var improves := if supersetIsBetter then current > previous else current < previous;
    var adverse := if supersetIsBetter then current < previous else current > previous;
    if improves then Improved else if adverse then Adverse
    else if current == previous then Same else Incomparable
  }

  function AxisRelation(cur: AxisMap, prev: AxisMap, axis: (string, bool), epsilon: real): Relation
    requires axis.0 in cur && axis.0 in prev
  {
    Directional(cur[axis.0], prev[axis.0], axis.1, epsilon)
  }

  predicate Covers(m: AxisMap, axes: seq<(string, bool)>) {
    forall i :: 0 <= i < |axes| ==> axes[i].0 in m
  }

  predicate SomeAxis(cur: AxisMap, prev: AxisMap, axes: seq<(string, bool)>, epsilon: real, r: Relation)
    requires Covers(cur, axes) && Covers(prev, axes)
  {
    exists i :: 0 <= i < |axes| && AxisRelation(cur, prev, axes[i], epsilon) == r
  }

  function ComparePareto(cur: AxisMap, prev: AxisMap, axes: seq<(string, bool)>, epsilon: real): Relation
    requires Covers(cur, axes) && Covers(prev, axes)
  {
    var up := SomeAxis(cur, prev, axes, epsilon, Improved);
    var down := SomeAxis(cur, prev, axes, epsilon, Adverse);
    if up && !down then Improved else if down && !up then Adverse
    else if !up && !down then Same else Incomparable
  }

  lemma NormalCovers(v: Datum, c: Contract)
    requires ContractValid(c) && c.kind == Vector && Normal(v, c)
    ensures Covers(v.axes, c.config.axes)
  {
  }

  function Compare(cur: Datum, prev: Datum, c: Contract, epsilon: real): Relation
    requires ContractValid(c) && Normal(cur, c) && Normal(prev, c)
  {
    if c.semantics == EqualRequired then
      Reached(cur.a == c.config.target, prev.a == c.config.target)
    else
      match c.kind
      case Scalar => Directional(cur.a.x, prev.a.x, c.semantics == HigherIsBetter, epsilon)
      case Ordered =>
        Directional(Rank(cur.a, c.config.ranks) as real, Rank(prev.a, c.config.ranks) as real,
                    c.semantics == HigherIsBetter, 0.0)
      case Predicate => Reached(cur.a.b, prev.a.b)
      case Set => CompareSets(cur.members, prev.members, c.config.supersetIsBetter)
      case Vector =>
        NormalCovers(cur, c);
        NormalCovers(prev, c);
        ComparePareto(cur.axes, prev.axes, c.config.axes, epsilon)
  }
}
