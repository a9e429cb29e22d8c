/** Movement over whole runs of the primary-metric gate. */
module MetricRuns {
  import opened Json
  import opened Wrappers
  import opened MetricComparator
  import opened MetricOrder
  import opened PrimaryMetric
  import opened MetricLineage
  import ParetoOrder

  // ---- movement ------------------------------------------------------------

  ghost function HighWaters(gs: seq<Gate>): seq<Datum> {
    seq(|gs|, i requires 0 <= i < |gs| => gs[i].highWater)
  }

  ghost function CountMoved(gs: seq<Gate>): nat {
    if gs == [] then 0 else CountMoved(gs[..|gs| - 1]) + (if gs[|gs| - 1].moved then 1 else 0)
  }

  lemma NoSelfImprovement(v: Datum, c: Contract, epsilon: real)
    requires ContractValid(c) && Normal(v, c) && epsilon >= 0.0
    ensures Compare(v, v, c, epsilon) != Improved
  {
  }

  /** The high-waters of a chain climb, one move per gate that reports movement. */
  lemma {:induction false} ChainClimbs(s: Settings, c: Contract, gs: seq<Gate>)
    requires ContractValid(c) && Chain(s, c, gs) && gs != [] && s.epsilon >= 0.0
    ensures Climb(HighWaters(gs), c, s.epsilon)
    ensures Moves(HighWaters(gs), c, s.epsilon) == CountMoved(gs)
    decreases |gs|
  {
    hide Compare, Normal, ContractValid;
    var n := |gs| - 1;
    if n == 0 {
      assert CountMoved(gs[..0]) == 0;
    } else {
      var front := gs[..n];
      ChainClimbs(s, c, front);
      NoSelfImprovement(gs[n].highWater, c, s.epsilon);
      ClimbAppend(HighWaters(front), gs[n].highWater, c, s.epsilon);
      assert HighWaters(gs) == HighWaters(front) + [gs[n].highWater];
    }
  }

  lemma {:induction false} RunClimbs(s: Settings, es: seq<Event>, c: Contract)
    requires RunValid(s, es) && ContractValid(c) && s.epsilon >= 0.0
    requires Lineage(s, Run(s, es), c) != []
    ensures var gs := Lineage(s, Run(s, es), c);
            Climb(HighWaters(gs), c, s.epsilon) && Moves(HighWaters(gs), c, s.epsilon) == CountMoved(gs)
  {
    hide Climb, Chain, Lineage, Run;
    LineageIsChain(s, es, c);
    ChainClimbs(s, c, Lineage(s, Run(s, es), c));
  }

  /** Over a whole run, k reported moves of a scalar metric gained more than k
      tolerances; without a move the high-water never changed. */
  lemma {:induction false} ScalarRunGain(s: Settings, es: seq<Event>, c: Contract)
    requires RunValid(s, es) && ContractValid(c) && Numerical(c) && s.epsilon >= 0.0
    requires Lineage(s, Run(s, es), c) != []
    ensures var vs := HighWaters(Lineage(s, Run(s, es), c)); var k := CountMoved(Lineage(s, Run(s, es), c));
            var up := c.semantics == HigherIsBetter; var end := vs[|vs| - 1];
            && Normal(vs[0], c) && Normal(end, c)
            && if k == 0 then end == vs[0]
               else Signed(end.a.x, up) - Signed(vs[0].a.x, up) > ParetoOrder.Times(k, s.epsilon)
  {
    hide Lineage, Run, CountMoved;
    RunClimbs(s, es, c);
    ScalarGain(HighWaters(Lineage(s, Run(s, es), c)), c, s.epsilon);
  }

  /** Over a whole run, a predicate or target metric reports at most one move, an
      ordered one at most ranks - 1, and a set at most its change in cardinality. */
  lemma {:induction false} LadderRunMoves(s: Settings, es: seq<Event>, c: Contract)
    requires RunValid(s, es) && Laddered(c) && s.epsilon >= 0.0
    requires Lineage(s, Run(s, es), c) != []
    ensures var vs := HighWaters(Lineage(s, Run(s, es), c)); var k := CountMoved(Lineage(s, Run(s, es), c));
            && Normal(vs[0], c) && Normal(vs[|vs| - 1], c)
            && k <= Rung(vs[|vs| - 1], c) - Rung(vs[0], c)
            && (c.kind == Predicate || c.semantics == EqualRequired ==> k <= 1)
            && (c.kind == Ordered && c.semantics != EqualRequired ==> k <= |c.config.ranks| - 1)
  {
    hide Lineage, Run, CountMoved, Rung;
    RunClimbs(s, es, c);
    LadderBoundsMoves(HighWaters(Lineage(s, Run(s, es), c)), c, s.epsilon);
    FiniteLaddersRunOut(HighWaters(Lineage(s, Run(s, es), c)), c, s.epsilon);
  }

  /** Over a whole run, k reported moves of a vector metric left no axis more than
      k tolerances worse than in the first recorded high-water. */
  lemma {:induction false} VectorRunDrift(s: Settings, es: seq<Event>, c: Contract, i: nat)
    requires RunValid(s, es) && ContractValid(c) && c.kind == Vector && i < |c.config.axes| && s.epsilon >= 0.0
    requires Lineage(s, Run(s, es), c) != []
    ensures var vs := HighWaters(Lineage(s, Run(s, es), c)); var k := CountMoved(Lineage(s, Run(s, es), c));
            && Normal(vs[0], c) && Normal(vs[|vs| - 1], c)
            && At(vs[|vs| - 1], c)[i] >= At(vs[0], c)[i] - ParetoOrder.Times(k, s.epsilon)
  {
    hide Lineage, Run, CountMoved, At;
    RunClimbs(s, es, c);
    VectorDriftBound(HighWaters(Lineage(s, Run(s, es), c)), c, s.epsilon, i);
  }
}
