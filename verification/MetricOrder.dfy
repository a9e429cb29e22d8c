/** Order theory of the comparator: how far a run of improvements can go, and
    when it can come back to where it started. */
module MetricOrder {
  import opened Text
  import opened MetricComparator
  import opened ParetoOrder

  // ---- one step, both ways -------------------------------------------------

  lemma ParetoMirrors(a: AxisMap, b: AxisMap, axes: seq<(string, bool)>, epsilon: real)
    requires Covers(a, axes) && Covers(b, axes) && epsilon >= 0.0
    ensures SomeAxis(a, b, axes, epsilon, Improved) <==> SomeAxis(b, a, axes, epsilon, Adverse)
    ensures SomeAxis(a, b, axes, epsilon, Adverse) <==> SomeAxis(b, a, axes, epsilon, Improved)
  {
  }

  /** With a non-negative tolerance the comparison is a mirror: swapping the
      arguments swaps improvement with regression and keeps the rest. */
  lemma {:induction false} CompareMirrors(a: Datum, b: Datum, c: Contract, epsilon: real)
    requires ContractValid(c) && Normal(a, c) && Normal(b, c) && epsilon >= 0.0
    ensures Compare(a, b, c, epsilon) == Improved <==> Compare(b, a, c, epsilon) == Adverse
    ensures Compare(a, b, c, epsilon) == Same <==> Compare(b, a, c, epsilon) == Same
    ensures Compare(a, b, c, epsilon) == Incomparable <==> Compare(b, a, c, epsilon) == Incomparable
  {
    if c.kind == Vector {
      NormalCovers(a, c);
      NormalCovers(b, c);
      ParetoMirrors(a.axes, b.axes, c.config.axes, epsilon);
    }
  }

  /** A scalar reading can improve on itself exactly when the tolerance is negative. */
  lemma SelfImprovementIffNegative(v: Datum, c: Contract, epsilon: real)
    requires ContractValid(c) && c.kind == Scalar && c.semantics != EqualRequired && Normal(v, c)
    ensures Compare(v, v, c, epsilon) == Improved <==> epsilon < 0.0
  {
  }

  // ---- runs of high-waters -------------------------------------------------

  /** A high-water is kept or replaced by an improvement. */
  ghost predicate Step(prev: Datum, next: Datum, c: Contract, epsilon: real)
    requires ContractValid(c) && Normal(prev, c) && Normal(next, c)
  {
    next == prev || Compare(next, prev, c, epsilon) == Improved
  }

  /** Consecutive high-waters under one contract. */
  ghost predicate Climb(vs: seq<Datum>, c: Contract, epsilon: real) {
    && ContractValid(c)
    && vs != []
    && (forall i :: 0 <= i < |vs| ==> Normal(vs[i], c))
    && (|vs| > 1 ==>
          Climb(vs[..|vs| - 1], c, epsilon) && Step(vs[|vs| - 2], vs[|vs| - 1], c, epsilon))
  }

  /** How many of the steps were improvements. */
  ghost function Moves(vs: seq<Datum>, c: Contract, epsilon: real): nat
    requires Climb(vs, c, epsilon)
    decreases |vs|
  {
    if |vs| == 1 then 0
    else
      var n := |vs| - 1;
      Moves(vs[..n], c, epsilon) + (if Compare(vs[n], vs[n - 1], c, epsilon) == Improved then 1 else 0)
  }

  lemma {:induction false} ClimbAppend(vs: seq<Datum>, v: Datum, c: Contract, epsilon: real)
    requires Climb(vs, c, epsilon) && Normal(v, c) && Step(vs[|vs| - 1], v, c, epsilon)
    ensures Climb(vs + [v], c, epsilon)
    ensures Moves(vs + [v], c, epsilon)
         == Moves(vs, c, epsilon) + (if Compare(v, vs[|vs| - 1], c, epsilon) == Improved then 1 else 0)
  {
    assert (vs + [v])[..|vs|] == vs;
  }

  /** The direction-signed reading of one number. */
  function Signed(x: real, higher: bool): real {
    if higher then x else -x
  }

  predicate Numerical(c: Contract) {
    c.kind == Scalar && c.semantics != EqualRequired
  }

  /** A scalar improves exactly by gaining more than the tolerance in its direction,
      worsens exactly by losing more, and is never incomparable. */
  lemma ScalarComparesExactly(cur: Datum, prev: Datum, c: Contract, epsilon: real)
    requires ContractValid(c) && Numerical(c) && Normal(cur, c) && Normal(prev, c)
    ensures var x := Signed(cur.a.x, c.semantics == HigherIsBetter); var y := Signed(prev.a.x, c.semantics == HigherIsBetter);
      && (Compare(cur, prev, c, epsilon) == Improved <==> x > y + epsilon)
      && (Compare(cur, prev, c, epsilon) == Adverse <==> x < y - epsilon && x <= y + epsilon)
      && Compare(cur, prev, c, epsilon) != Incomparable
  {
  }

  /** k scalar moves gain more than k times the tolerance. */
  lemma {:induction false} ScalarGain(vs: seq<Datum>, c: Contract, epsilon: real)
    requires Climb(vs, c, epsilon) && Numerical(c) && epsilon >= 0.0
    ensures var gain := Signed(vs[|vs| - 1].a.x, c.semantics == HigherIsBetter)
                      - Signed(vs[0].a.x, c.semantics == HigherIsBetter);
            var k := Moves(vs, c, epsilon);
            if k == 0 then vs[|vs| - 1] == vs[0] else gain > Times(k, epsilon)
    decreases |vs|
  {
    if |vs| > 1 {
      var n := |vs| - 1;
      ScalarGain(vs[..n], c, epsilon);
    }
  }

  /** Kinds whose readings sit on an integer ladder. */
  predicate Laddered(c: Contract) {
    ContractValid(c) && !Numerical(c) && c.kind != Vector
  }

  /** The rung of a value: 0 or 1 for targets and predicates, the signed rank for
      ordered values, the signed cardinality for sets. */
  function Rung(v: Datum, c: Contract): int
    requires Laddered(c) && Normal(v, c)
  {
    if c.semantics == EqualRequired then (if v.a == c.config.target then 1 else 0)
    else
      match c.kind
      case Predicate => if v.a.b then 1 else 0
      case Ordered =>
        (if c.semantics == HigherIsBetter then 1 else -1) * Rank(v.a, c.config.ranks)
      case Set => if c.config.supersetIsBetter then |v.members| else -|v.members|
  }

  /** On a ladder that is no set, the comparison is that of the rungs, whatever the
      tolerance, and equal rungs mean equal standing. */
  lemma LadderComparesExactly(cur: Datum, prev: Datum, c: Contract, epsilon: real)
    requires Laddered(c) && c.kind != Set && Normal(cur, c) && Normal(prev, c)
    ensures Compare(cur, prev, c, epsilon) == Improved <==> Rung(cur, c) > Rung(prev, c)
    ensures Compare(cur, prev, c, epsilon) == Adverse <==> Rung(cur, c) < Rung(prev, c)
    ensures Compare(cur, prev, c, epsilon) == Same <==> Rung(cur, c) == Rung(prev, c)
    ensures c.kind == Ordered && c.semantics != EqualRequired ==> (Rung(cur, c) == Rung(prev, c) <==> cur == prev)
  {
  }

  /** Sets compare by strict inclusion in the configured direction. */
  lemma SetComparesExactly(cur: Datum, prev: Datum, c: Contract, epsilon: real)
    requires ContractValid(c) && c.kind == Set && Normal(cur, c) && Normal(prev, c)
    ensures var wide := if c.config.supersetIsBetter then cur.members else prev.members;
            var narrow := if c.config.supersetIsBetter then prev.members else cur.members;
      && (Compare(cur, prev, c, epsilon) == Improved <==> (forall a :: a in narrow ==> a in wide) && exists a :: a in wide && a !in narrow)
      && (Compare(cur, prev, c, epsilon) == Adverse <==> (forall a :: a in wide ==> a in narrow) && exists a :: a in narrow && a !in wide)
      && (Compare(cur, prev, c, epsilon) == Same <==> cur == prev)
  {
    assert cur.members != prev.members ==> exists a :: (a in cur.members && a !in prev.members) || (a in prev.members && a !in cur.members);
  }

  lemma ProperSubsetIsSmaller<T>(a: set<T>, b: set<T>)
    requires a < b
    ensures |a| < |b|
  {
    assert b == a + (b - a);
    assert b - a != {};
  }

  lemma ImprovementClimbsARung(cur: Datum, prev: Datum, c: Contract, epsilon: real)
    requires Laddered(c) && Normal(cur, c) && Normal(prev, c)
    requires Compare(cur, prev, c, epsilon) == Improved
    ensures Rung(cur, c) >= Rung(prev, c) + 1
  {
    if c.kind == Set {
      if c.config.supersetIsBetter {
        ProperSubsetIsSmaller(prev.members, cur.members);
      } else {
        ProperSubsetIsSmaller(cur.members, prev.members);
      }
    }
  }

  /** On a ladder every move takes at least one rung, so moves are bounded by the
      rungs gained: for sets, by the change in cardinality. */
  lemma {:induction false} LadderBoundsMoves(vs: seq<Datum>, c: Contract, epsilon: real)
    requires Climb(vs, c, epsilon) && Laddered(c)
    ensures Moves(vs, c, epsilon) <= Rung(vs[|vs| - 1], c) - Rung(vs[0], c)
    decreases |vs|
  {
    if |vs| > 1 {
      var n := |vs| - 1;
      LadderBoundsMoves(vs[..n], c, epsilon);
      if Compare(vs[n], vs[n - 1], c, epsilon) == Improved {
        ImprovementClimbsARung(vs[n], vs[n - 1], c, epsilon);
      }
    }
  }

  /** A predicate or target metric moves at most once in its whole life, an
      ordered one at most ranks - 1 times. */
  lemma FiniteLaddersRunOut(vs: seq<Datum>, c: Contract, epsilon: real)
    requires Climb(vs, c, epsilon) && Laddered(c)
    ensures c.kind == Predicate || c.semantics == EqualRequired ==> Moves(vs, c, epsilon) <= 1
    ensures c.kind == Ordered && c.semantics != EqualRequired ==>
              Moves(vs, c, epsilon) <= |c.config.ranks| - 1
  {
    LadderBoundsMoves(vs, c, epsilon);
  }

  // ---- vectors -------------------------------------------------------------

  /** A vector as a point whose coordinates all count upwards. */
  function Readings(m: AxisMap, axes: seq<(string, bool)>): Point
    requires Covers(m, axes)
  {
    seq(|axes|, i requires 0 <= i < |axes| => Signed(m[axes[i].0], axes[i].1))
  }

  function FromReadings(p: Point, axes: seq<(string, bool)>): AxisMap
    requires AxesValid(axes) && |p| == |axes|
  {
    map i | 0 <= i < |axes| :: axes[i].0 := Signed(p[i], axes[i].1)
  }

  lemma ReadingsRoundTrip(p: Point, axes: seq<(string, bool)>)
    requires AxesValid(axes) && |p| == |axes|
    ensures FromReadings(p, axes).Keys == AxisNames(axes) && Covers(FromReadings(p, axes), axes)
    ensures Readings(FromReadings(p, axes), axes) == p
  {
  }

  lemma ReadingsInjective(m: AxisMap, n: AxisMap, axes: seq<(string, bool)>)
    requires m.Keys == n.Keys == AxisNames(axes) && Covers(m, axes) && Covers(n, axes)
    requires Readings(m, axes) == Readings(n, axes)
    ensures m == n
  {
    forall k | k in m ensures m[k] == n[k] {
      assert k in AxisNames(axes);
      var i :| 0 <= i < |axes| && axes[i].0 == k;
      assert Readings(m, axes)[i] == Readings(n, axes)[i];
    }
  }

  /** The Pareto verdict is the tolerant order on signed readings. */
  lemma ParetoIsBetter(cur: AxisMap, prev: AxisMap, axes: seq<(string, bool)>, epsilon: real)
    requires Covers(cur, axes) && Covers(prev, axes) && epsilon >= 0.0
    ensures ComparePareto(cur, prev, axes, epsilon) == Improved
       <==> Better(Readings(cur, axes), Readings(prev, axes), epsilon)
  {
    var p, q := Readings(cur, axes), Readings(prev, axes);
    forall i | 0 <= i < |axes|
      ensures AxisRelation(cur, prev, axes[i], epsilon) == Improved <==> p[i] > q[i] + epsilon
      ensures AxisRelation(cur, prev, axes[i], epsilon) == Adverse <==> p[i] < q[i] - epsilon
    {
    }
  }

  lemma NearIsSame(cur: AxisMap, prev: AxisMap, axes: seq<(string, bool)>, epsilon: real)
    requires Covers(cur, axes) && Covers(prev, axes) && epsilon >= 0.0
    ensures ComparePareto(cur, prev, axes, epsilon) == Same <==>
              forall i :: 0 <= i < |axes| ==> -epsilon <= Readings(cur, axes)[i] - Readings(prev, axes)[i] <= epsilon
  {
    var p, q := Readings(cur, axes), Readings(prev, axes);
    forall i | 0 <= i < |axes|
      ensures AxisRelation(cur, prev, axes[i], epsilon) == Improved <==> p[i] > q[i] + epsilon
      ensures AxisRelation(cur, prev, axes[i], epsilon) == Adverse <==> p[i] < q[i] - epsilon
    {
    }
    if ComparePareto(cur, prev, axes, epsilon) == Same {
      forall i | 0 <= i < |axes| ensures -epsilon <= p[i] - q[i] <= epsilon {
        assert AxisRelation(cur, prev, axes[i], epsilon) !in {Improved, Adverse};
      }
    }
  }

  ghost function At(v: Datum, c: Contract): (p: Point)
    requires ContractValid(c) && c.kind == Vector && Normal(v, c)
    ensures |p| == |c.config.axes|
  {
    NormalCovers(v, c);
    Readings(v.axes, c.config.axes)
  }

  lemma CompareIsBetter(cur: Datum, prev: Datum, c: Contract, epsilon: real)
    requires ContractValid(c) && c.kind == Vector && Normal(cur, c) && Normal(prev, c) && epsilon >= 0.0
    ensures Compare(cur, prev, c, epsilon) == Improved <==> Better(At(cur, c), At(prev, c), epsilon)
    ensures Compare(cur, prev, c, epsilon) == Adverse <==> Better(At(prev, c), At(cur, c), epsilon)
    ensures Compare(cur, prev, c, epsilon) == Same <==>
              forall i :: 0 <= i < |c.config.axes| ==> -epsilon <= At(cur, c)[i] - At(prev, c)[i] <= epsilon
    ensures At(cur, c) == At(prev, c) <==> cur == prev
  {
    NormalCovers(cur, c);
    NormalCovers(prev, c);
    ParetoIsBetter(cur.axes, prev.axes, c.config.axes, epsilon);
    ParetoIsBetter(prev.axes, cur.axes, c.config.axes, epsilon);
    ParetoMirrors(cur.axes, prev.axes, c.config.axes, epsilon);
    NearIsSame(cur.axes, prev.axes, c.config.axes, epsilon);
    if At(cur, c) == At(prev, c) {
      ReadingsInjective(cur.axes, prev.axes, c.config.axes);
    }
  }

  /** Every run of vector high-waters is a run of points with the same moves ... */
  lemma {:induction false} ClimbToPath(vs: seq<Datum>, c: Contract, epsilon: real) returns (ps: seq<Point>)
    requires Climb(vs, c, epsilon) && c.kind == Vector && epsilon >= 0.0
    ensures Path(ps, epsilon) && ps[0] == At(vs[0], c) && ps[|ps| - 1] == At(vs[|vs| - 1], c)
    ensures Moves(vs, c, epsilon) == ParetoOrder.Moves(ps, epsilon)
    decreases |vs|
  {
    hide Compare, At, Normal, ContractValid;
    var n := |vs| - 1;
    if n == 0 {
      ps := [At(vs[0], c)];
    } else {
      var front := ClimbToPath(vs[..n], c, epsilon);
      CompareIsBetter(vs[n], vs[n - 1], c, epsilon);
      PathAppend(front, At(vs[n], c), epsilon);
      ps := front + [At(vs[n], c)];
    }
  }

  /** ... and every run of points in the contract's dimension comes from one. */
  lemma {:induction false} PathToClimb(ps: seq<Point>, c: Contract, epsilon: real) returns (vs: seq<Datum>)
    requires ContractValid(c) && c.kind == Vector && epsilon >= 0.0
    requires Path(ps, epsilon) && |ps[0]| == |c.config.axes|
    ensures Climb(vs, c, epsilon) && ps[0] == At(vs[0], c) && ps[|ps| - 1] == At(vs[|vs| - 1], c)
    ensures Moves(vs, c, epsilon) == ParetoOrder.Moves(ps, epsilon)
    decreases |ps|
  {
    hide Compare, At, Normal, ContractValid;
    var n := |ps| - 1;
    if n == 0 {
      vs := [Lift(ps[0], c)];
    } else {
      var front := PathToClimb(ps[..n], c, epsilon);
      var v := Lift(ps[n], c);
      CompareIsBetter(v, front[|front| - 1], c, epsilon);
      ClimbAppend(front, v, c, epsilon);
      vs := front + [v];
    }
  }

  ghost function Lift(p: Point, c: Contract): (v: Datum)
    requires ContractValid(c) && c.kind == Vector && |p| == |c.config.axes|
    ensures Normal(v, c) && At(v, c) == p
  {
    ReadingsRoundTrip(p, c.config.axes);
    AxisValues(FromReadings(p, c.config.axes))
  }

  /** After k vector moves no axis is more than k tolerances worse than at the
      start, so with a zero tolerance no axis is ever worse. */
  lemma {:induction false} VectorDriftBound(vs: seq<Datum>, c: Contract, epsilon: real, i: nat)
    requires Climb(vs, c, epsilon) && c.kind == Vector && epsilon >= 0.0 && i < |c.config.axes|
    ensures At(vs[|vs| - 1], c)[i] >= At(vs[0], c)[i] - Times(Moves(vs, c, epsilon), epsilon)
    ensures epsilon == 0.0 ==> At(vs[|vs| - 1], c)[i] >= At(vs[0], c)[i]
  {
    var ps := ClimbToPath(vs, c, epsilon);
    DriftBound(ps, epsilon, i);
    TimesZero(Moves(vs, c, epsilon));
  }

  ghost predicate Returns(vs: seq<Datum>, c: Contract, epsilon: real) {
    Climb(vs, c, epsilon) && Moves(vs, c, epsilon) > 0 && vs[|vs| - 1] == vs[0]
  }

  /** A run of vector moves can come back to its start exactly when the contract
      has at least three axes and the tolerance is positive. */
  lemma VectorReturnsIffThreeAxes(v: Datum, c: Contract, epsilon: real)
    requires ContractValid(c) && c.kind == Vector && Normal(v, c) && epsilon >= 0.0
    ensures (exists vs :: Returns(vs, c, epsilon) && vs[0] == v) <==> |c.config.axes| >= 3 && epsilon > 0.0
  {
    var p := At(v, c);
    LoopIffThree(p, epsilon);
    if |c.config.axes| >= 3 && epsilon > 0.0 {
      var ps :| Loop(ps, epsilon) && ps[0] == p;
      LoopLifts(ps, v, c, epsilon);
    } else {
      forall vs | Climb(vs, c, epsilon) && vs[0] == v ensures !Returns(vs, c, epsilon) {
        var ps := ClimbToPath(vs, c, epsilon);
        assert !Loop(ps, epsilon);
      }
    }
  }

  lemma LoopLifts(ps: seq<Point>, v: Datum, c: Contract, epsilon: real)
    requires ContractValid(c) && c.kind == Vector && Normal(v, c) && epsilon >= 0.0
    requires Loop(ps, epsilon) && ps[0] == At(v, c)
    ensures exists vs :: Returns(vs, c, epsilon) && vs[0] == v
  {
    var vs := PathToClimb(ps, c, epsilon);
    CompareIsBetter(vs[0], v, c, epsilon);
    CompareIsBetter(vs[|vs| - 1], v, c, epsilon);
    assert Returns(vs, c, epsilon) && vs[0] == v;
  }

  /** Three axes and a positive tolerance: three "improvements" in a row can leave
      every single axis strictly worse. */
  lemma {:induction false} ImprovementsCanWorsenEveryAxis(v: Datum, c: Contract, epsilon: real) returns (vs: seq<Datum>)
    requires ContractValid(c) && c.kind == Vector && Normal(v, c) && 3 <= |c.config.axes| && epsilon > 0.0
    ensures Climb(vs, c, epsilon) && vs[0] == v && Moves(vs, c, epsilon) == 3
    ensures forall i :: 0 <= i < |c.config.axes| ==> At(vs[|vs| - 1], c)[i] < At(v, c)[i]
  {
    var ps := MovesCanLowerEverything(At(v, c), epsilon);
    vs := PathToClimb(ps, c, epsilon);
    CompareIsBetter(vs[0], v, c, epsilon);
  }
}
