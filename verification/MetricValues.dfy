/** How metric values are read: what each kind of contract accepts, and as what. */
module MetricValues {
  import opened Wrappers
  import opened Text
  import opened MetricComparator

  /** A number, as such or as text; truth values are none. */
  predicate IsNumber(v: Datum, x: real, number: string -> Result<real>) {
    && v.Single?
    && match v.a
       case Flag(_) => false
       case Whole(i) => x == i as real
       case Decimal(y) => x == y
       case Words(s) => number(s) == Ok(x)
  }

  /** The axes of a dictionary: trimmed names, none blank or repeated, each with a number. */
  ghost predicate AxesRead(pairs: seq<(string, Datum)>, m: AxisMap, number: string -> Result<real>) {
    && (forall i :: 0 <= i < |pairs| ==>
          Strip(pairs[i].0) != "" && Strip(pairs[i].0) in m && IsNumber(pairs[i].1, m[Strip(pairs[i].0)], number))
    && (forall i, k :: 0 <= i < k < |pairs| ==> Strip(pairs[i].0) != Strip(pairs[k].0))
    && forall a :: a in m ==> exists i :: 0 <= i < |pairs| && Strip(pairs[i].0) == a
  }

  /** The value a contract reads `v` as. */
  ghost predicate ReadsAs(v: Datum, w: Datum, c: Contract, number: string -> Result<real>)
    requires ContractValid(c)
  {
    match c.kind
    case Scalar =>
      if c.semantics == EqualRequired then v.Single? && w == v
      else w.Single? && w.a.Decimal? && IsNumber(v, w.a.x, number)
    case Ordered => v.Single? && w == v && (c.semantics == EqualRequired || v.a in c.config.ranks)
    case Predicate => v in {Single(Flag(true)), Single(Flag(false))} && w == v
    case Set =>
      || (v.Members? && w == v)
      || (v.Listing? && (forall i :: 0 <= i < |v.items| ==> v.items[i].Single?) && Distinct(v.items)
          && w == Members(set i | 0 <= i < |v.items| :: v.items[i].a))
    case Vector =>
      && w.AxisValues? && w.axes.Keys == AxisNames(c.config.axes)
      && (w == v || (v.Mapping? && AxesRead(v.pairs, w.axes, number)))
  }

  lemma NumericIff(v: Datum, x: real, number: string -> Result<real>)
    ensures Numeric(v, number) == Ok(x) <==> IsNumber(v, x, number)
  {
  }

  /** What is read on top of axes already read. */
  ghost predicate Extends(pairs: seq<(string, Datum)>, acc: AxisMap, m: AxisMap, number: string -> Result<real>) {
    && (forall i :: 0 <= i < |pairs| ==>
          && Strip(pairs[i].0) != "" && Strip(pairs[i].0) !in acc
          && Strip(pairs[i].0) in m && IsNumber(pairs[i].1, m[Strip(pairs[i].0)], number))
    && (forall i, k :: 0 <= i < k < |pairs| ==> Strip(pairs[i].0) != Strip(pairs[k].0))
    && (forall a :: a in acc ==> a in m && m[a] == acc[a])
    && forall a :: a in m && a !in acc ==> exists i :: 0 <= i < |pairs| && Strip(pairs[i].0) == a
  }

  lemma NumberIsOne(v: Datum, x: real, y: real, number: string -> Result<real>)
    ensures IsNumber(v, x, number) && IsNumber(v, y, number) ==> x == y
  {
  }

  lemma {:induction false} ExtendsTail(pairs: seq<(string, Datum)>, acc: AxisMap, m: AxisMap, number: string -> Result<real>, x: real)
    requires pairs != [] && Strip(pairs[0].0) != "" && Strip(pairs[0].0) !in acc && IsNumber(pairs[0].1, x, number)
    requires Trimmed(Strip(pairs[0].0))
    requires Extends(pairs, acc, m, number)
    ensures Extends(pairs[1..], acc[Strip(pairs[0].0) := x], m, number)
  {
    hide Strip, Trimmed, IsNumber;
    var key, rest := Strip(pairs[0].0), pairs[1..];
    assert forall i :: 0 <= i < |rest| ==> rest[i] == pairs[i + 1];
    NumberIsOne(pairs[0].1, x, m[key], number);
    forall a | a in m && a !in acc[key := x] ensures exists i :: 0 <= i < |rest| && Strip(rest[i].0) == a {
      var i :| 0 <= i < |pairs| && Strip(pairs[i].0) == a;
      assert Strip(rest[i - 1].0) == a;
    }
  }

  lemma {:induction false} ExtendsHead(pairs: seq<(string, Datum)>, acc: AxisMap, m: AxisMap, number: string -> Result<real>, x: real)
    requires pairs != [] && Strip(pairs[0].0) != "" && Strip(pairs[0].0) !in acc && IsNumber(pairs[0].1, x, number)
    requires Trimmed(Strip(pairs[0].0))
    requires Extends(pairs[1..], acc[Strip(pairs[0].0) := x], m, number)
    ensures Extends(pairs, acc, m, number)
  {
    hide Strip, Trimmed, IsNumber;
    var key, rest := Strip(pairs[0].0), pairs[1..];
    var acc' := acc[key := x];
    assert key in acc' && m[key] == x;
    forall i | 0 <= i < |pairs|
      ensures Strip(pairs[i].0) != "" && Strip(pairs[i].0) !in acc && Strip(pairs[i].0) in m
      ensures IsNumber(pairs[i].1, m[Strip(pairs[i].0)], number) && (i > 0 ==> Strip(pairs[i].0) != key)
    {
      if i > 0 { assert pairs[i] == rest[i - 1]; }
    }
    forall i, k | 0 <= i < k < |pairs| ensures Strip(pairs[i].0) != Strip(pairs[k].0) {
      assert pairs[k] == rest[k - 1];
      if i > 0 { assert pairs[i] == rest[i - 1]; }
    }
    assert forall a :: a in acc ==> a in acc' && acc'[a] == acc[a];
    forall a | a in m && a !in acc ensures exists i :: 0 <= i < |pairs| && Strip(pairs[i].0) == a {
      if a != key {
        var i :| 0 <= i < |rest| && Strip(rest[i].0) == a;
        assert Strip(pairs[i + 1].0) == a;
      }
    }
  }

  lemma {:induction false} AxesOfIff(pairs: seq<(string, Datum)>, number: string -> Result<real>, acc: AxisMap, m: AxisMap)
    ensures AxesOf(pairs, number, acc) == Ok(m) <==> Extends(pairs, acc, m, number)
    decreases |pairs|
  {
    hide Strip, Trimmed, Numeric, IsNumber, Extends;
    if pairs == [] {
      NothingExtends(acc, m, number);
    } else {
      var key := Strip(pairs[0].0);
      forall x ensures Numeric(pairs[0].1, number) == Ok(x) <==> IsNumber(pairs[0].1, x, number) { NumericIff(pairs[0].1, x, number); }
      FlagIsNoNumber(pairs[0].1, number);
      if key == "" || key in acc || Numeric(pairs[0].1, number).Err? || pairs[0].1 in {Single(Flag(true)), Single(Flag(false))} {
        HeadRefused(pairs, acc, m, number);
      } else {
        var x := Numeric(pairs[0].1, number).value;
        StripIsNormalForm(pairs[0].0);
        AxesOfIff(pairs[1..], number, acc[key := x], m);
        if Extends(pairs, acc, m, number) { ExtendsTail(pairs, acc, m, number, x); }
        if Extends(pairs[1..], acc[key := x], m, number) { ExtendsHead(pairs, acc, m, number, x); }
      }
    }
  }

  lemma NothingExtends(acc: AxisMap, m: AxisMap, number: string -> Result<real>)
    ensures Extends([], acc, m, number) <==> acc == m
  {
    if Extends([], acc, m, number) { assert m.Keys == acc.Keys; }
  }

  lemma FlagIsNoNumber(v: Datum, number: string -> Result<real>)
    ensures v in {Single(Flag(true)), Single(Flag(false))} ==> forall x :: !IsNumber(v, x, number)
  {
  }

  lemma HeadRefused(pairs: seq<(string, Datum)>, acc: AxisMap, m: AxisMap, number: string -> Result<real>)
    requires pairs != []
    requires Strip(pairs[0].0) == "" || Strip(pairs[0].0) in acc || forall x :: !IsNumber(pairs[0].1, x, number)
    ensures !Extends(pairs, acc, m, number)
  {
  }

  lemma AxesReadIff(pairs: seq<(string, Datum)>, m: AxisMap, number: string -> Result<real>)
    ensures AxesRead(pairs, m, number) <==> Extends(pairs, map[], m, number)
  {
    hide Strip, IsNumber;
  }

  lemma AxesNamed(c: Contract, m: AxisMap)
    requires ContractValid(c) && c.kind == Vector && m.Keys == AxisNames(c.config.axes)
    ensures m != map[]
  {
    assert c.config.axes[0].0 in m;
  }

  lemma NothingRead(m: AxisMap, number: string -> Result<real>)
    ensures AxesRead([], m, number) ==> m == map[]
  {
  }

  lemma {:induction false} VectorReads(v: Datum, w: Datum, c: Contract, number: string -> Result<real>)
    requires ContractValid(c) && c.kind == Vector
    ensures NormalizeValue(v, c, number) == Ok(w) <==> ReadsAs(v, w, c, number)
  {
    hide AxesOf, AxesRead, AxisNames, Strip, Numeric, IsNumber, SetOf, Distinct, NormalizeSet;
    if w.AxisValues? && w.axes.Keys == AxisNames(c.config.axes) {
      AxesNamed(c, w.axes);
      NothingRead(w.axes, number);
      if v.Mapping? {
        AxesOfIff(v.pairs, number, map[], w.axes);
        AxesReadIff(v.pairs, w.axes, number);
      }
    }
  }

  lemma {:induction false} SetValueReads(v: Datum, w: Datum, c: Contract, number: string -> Result<real>)
    requires ContractValid(c) && c.kind == Set
    ensures NormalizeValue(v, c, number) == Ok(w) <==> ReadsAs(v, w, c, number)
  {
    hide ContractValid, SetOf, Distinct;
    if v.Listing? { SetReads(v.items); }
  }

  lemma {:induction false} AtomReads(v: Datum, w: Datum, c: Contract, number: string -> Result<real>)
    requires ContractValid(c) && c.kind != Vector && c.kind != Set
    ensures NormalizeValue(v, c, number) == Ok(w) <==> ReadsAs(v, w, c, number)
  {
    hide Numeric, IsNumber, AxesRead, SetOf, Distinct, AxisNames, NormalizeVector, NormalizeSet;
    if c.kind == Scalar && w.Single? && w.a.Decimal? { NumericIff(v, w.a.x, number); }
  }

  /** Normalisation accepts exactly the values a contract can read, and gives what it reads
      them as. */
  lemma {:induction false} NormalizeExactly(v: Datum, w: Datum, c: Contract, number: string -> Result<real>)
    requires ContractValid(c)
    ensures NormalizeValue(v, c, number) == Ok(w) <==> ReadsAs(v, w, c, number)
  {
    hide NormalizeValue, ReadsAs, ContractValid;
    if c.kind == Vector {
      VectorReads(v, w, c, number);
    } else if c.kind == Set {
      SetValueReads(v, w, c, number);
    } else {
      AtomReads(v, w, c, number);
    }
  }

  lemma SetReads(items: seq<Datum>)
    ensures SetOf(items, {}).Ok? <==> (forall i :: 0 <= i < |items| ==> items[i].Single?) && Distinct(items)
    ensures SetOf(items, {}).Ok? ==> SetOf(items, {}).value == set i | 0 <= i < |items| :: items[i].a
  {
    hide Distinct;
    SetOfMeaning(items, {});
  }

  // ---- what a valid contract rests on --------------------------------------

  /** The ranks of an ordered contract are places in its list, one each: distinct values
      never share a rank, and a listed value's rank is where it stands. */
  lemma {:induction false} RankIsPlace(c: Contract, i: nat, v: Atom)
    requires ContractValid(c) && c.kind == Ordered && c.semantics in {HigherIsBetter, LowerIsBetter}
    ensures c.config.Ranks? && c.config.ranks != []
    ensures i < |c.config.ranks| && v in c.config.ranks ==> (Rank(v, c.config.ranks) == i <==> c.config.ranks[i] == v)
  {
    hide Rank;
  }

  /** The axes of a vector contract are trimmed, not blank and each listed once, so that a
      value has one number for each. */
  lemma {:induction false} AxisIsPlace(c: Contract, i: nat, k: nat)
    requires ContractValid(c) && c.kind == Vector
    ensures c.config.Directions? && c.config.axes != []
    ensures i < |c.config.axes| ==> Strip(c.config.axes[i].0) == c.config.axes[i].0 != ""
    ensures i < |c.config.axes| && k < |c.config.axes| ==> (c.config.axes[i].0 == c.config.axes[k].0 <==> i == k)
  {
    hide Strip;
    if i < |c.config.axes| { StripIsNormalForm(c.config.axes[i].0); }
  }
}
