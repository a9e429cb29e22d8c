/** Improvement with a tolerance, on points whose coordinates all count upwards.
    A step improves when some coordinate gains more than `epsilon` and none loses
    more than `epsilon`. */
module ParetoOrder {

  type Point = seq<real>

  ghost predicate Better(p: Point, q: Point, epsilon: real) {
    && |p| == |q|
    && (exists i :: 0 <= i < |p| && p[i] > q[i] + epsilon)
    && forall i :: 0 <= i < |p| ==> p[i] >= q[i] - epsilon
  }

  /** A non-empty run of points in which each is kept or bettered by the next. */
  ghost predicate Path(ps: seq<Point>, epsilon: real) {
    && ps != []
    && (|ps| > 1 ==>
          && Path(ps[..|ps| - 1], epsilon)
          && (ps[|ps| - 1] == ps[|ps| - 2] || Better(ps[|ps| - 1], ps[|ps| - 2], epsilon)))
  }

  ghost function Moves(ps: seq<Point>, epsilon: real): nat {
    if |ps| <= 1 then 0
    else Moves(ps[..|ps| - 1], epsilon) + (if Better(ps[|ps| - 1], ps[|ps| - 2], epsilon) then 1 else 0)
  }

  lemma PathAppend(ps: seq<Point>, p: Point, epsilon: real)
    requires Path(ps, epsilon) && (p == ps[|ps| - 1] || Better(p, ps[|ps| - 1], epsilon))
    ensures Path(ps + [p], epsilon)
    ensures Moves(ps + [p], epsilon)
         == Moves(ps, epsilon) + (if Better(p, ps[|ps| - 1], epsilon) then 1 else 0)
  {
  }

  /** x added k times. */
  ghost function Times(k: nat, x: real): real {
    if k == 0 then 0.0 else Times(k - 1, x) + x
  }

  lemma {:induction false} TimesIsProduct(k: nat, x: real)
    ensures Times(k, x) == k as real * x
  {
    if k > 0 {
      TimesIsProduct(k - 1, x);
      assert k as real * x == (k - 1) as real * x + x;
    }
  }

  lemma {:induction false} TimesZero(k: nat)
    ensures Times(k, 0.0) == 0.0
  {
    if k > 0 { TimesZero(k - 1); }
  }

  /** After k moves no coordinate is more than k tolerances below its start. */
  lemma {:induction false} DriftBound(ps: seq<Point>, epsilon: real, i: nat)
    requires Path(ps, epsilon) && epsilon >= 0.0 && i < |ps[0]|
    ensures |ps[|ps| - 1]| == |ps[0]|
    ensures ps[|ps| - 1][i] >= ps[0][i] - Times(Moves(ps, epsilon), epsilon)
    decreases |ps|
  {
    if |ps| > 1 {
      var front := ps[..|ps| - 1];
      DriftBound(front, epsilon, i);
    }
  }

  // ---- the coordinate sum --------------------------------------------------

  function Sum(p: Point): real {
    if p == [] then 0.0 else p[0] + Sum(p[1..])
  }

  lemma {:induction false} SumMonotone(p: Point, q: Point)
    requires |p| == |q| && forall i :: 0 <= i < |p| ==> p[i] >= q[i]
    ensures Sum(p) >= Sum(q)
    ensures (exists i :: 0 <= i < |p| && p[i] > q[i]) ==> Sum(p) > Sum(q)
  {
    if p != [] {
      SumMonotone(p[1..], q[1..]);
      if i :| 0 <= i < |p| && p[i] > q[i] {
        if i > 0 { assert p[1..][i - 1] > q[1..][i - 1]; }
      }
    }
  }

  lemma SumOfTwo(p: Point)
    requires |p| == 2
    ensures Sum(p) == p[0] + p[1]
  {
    assert Sum(p[1..]) == p[1] + Sum(p[1..][1..]);
  }

  /** The cases in which a move must raise the sum: no tolerance, or at most two
      coordinates for losses to hide in. */
  predicate Rigid(n: nat, epsilon: real) {
    n <= 2 || epsilon == 0.0
  }

  lemma MoveRaisesSum(p: Point, q: Point, epsilon: real)
    requires Better(p, q, epsilon) && epsilon >= 0.0 && Rigid(|q|, epsilon)
    ensures Sum(p) > Sum(q)
  {
    if epsilon == 0.0 {
      SumMonotone(p, q);
    } else if |p| == 1 {
      assert Sum(p) == p[0] && Sum(q) == q[0];
    } else {
      SumOfTwo(p);
      SumOfTwo(q);
    }
  }

  lemma {:induction false} SumGrows(ps: seq<Point>, epsilon: real)
    requires Path(ps, epsilon) && epsilon >= 0.0 && Rigid(|ps[0]|, epsilon)
    ensures |ps[|ps| - 1]| == |ps[0]|
    ensures if Moves(ps, epsilon) == 0 then ps[|ps| - 1] == ps[0] else Sum(ps[|ps| - 1]) > Sum(ps[0])
    decreases |ps|
  {
    if |ps| > 1 {
      var front := ps[..|ps| - 1];
      SumGrows(front, epsilon);
      if Better(ps[|ps| - 1], ps[|ps| - 2], epsilon) {
        MoveRaisesSum(ps[|ps| - 1], ps[|ps| - 2], epsilon);
      }
    }
  }

  // ---- three coordinates are enough to go round in a circle ----------------

  /** Coordinate `hot` gains `gain`; the other two of the first three lose `loss`
      and all later ones lose `rest`. */
  function Nudge(p: Point, hot: nat, gain: real, loss: real, rest: real): Point {
    seq(|p|, i requires 0 <= i < |p| => p[i] + (if i == hot then gain else if i < 3 then -loss else -rest))
  }

  lemma NudgeBetters(p: Point, hot: nat, gain: real, loss: real, rest: real)
    requires hot < 3 <= |p| && gain > loss >= rest >= 0.0
    ensures Better(Nudge(p, hot, gain, loss, rest), p, loss)
  {
    assert Nudge(p, hot, gain, loss, rest)[hot] > p[hot] + loss;
  }

  ghost function Spiral(p: Point, gain: real, loss: real, rest: real): seq<Point> {
    var p1 := Nudge(p, 0, gain, loss, rest);
    var p2 := Nudge(p1, 1, gain, loss, rest);
    [p, p1, p2, Nudge(p2, 2, gain, loss, rest)]
  }

  lemma SpiralIsPath(p: Point, gain: real, loss: real, rest: real)
    requires 3 <= |p| && gain > loss >= rest >= 0.0
    ensures Path(Spiral(p, gain, loss, rest), loss) && Moves(Spiral(p, gain, loss, rest), loss) == 3
  {
    var ps := Spiral(p, gain, loss, rest);
    NudgeBetters(ps[0], 0, gain, loss, rest);
    NudgeBetters(ps[1], 1, gain, loss, rest);
    NudgeBetters(ps[2], 2, gain, loss, rest);
    PathAppend([p], ps[1], loss);
    PathAppend([p] + [ps[1]], ps[2], loss);
    PathAppend([p] + [ps[1]] + [ps[2]], ps[3], loss);
    assert ps == [p] + [ps[1]] + [ps[2]] + [ps[3]];
  }

  /** A run that makes at least one move and ends where it began. */
  ghost predicate Loop(ps: seq<Point>, epsilon: real) {
    Path(ps, epsilon) && Moves(ps, epsilon) > 0 && ps[|ps| - 1] == ps[0]
  }

  /** Improvements can loop exactly when there are at least three coordinates and
      a positive tolerance. */
  lemma LoopIffThree(p: Point, epsilon: real)
    requires epsilon >= 0.0
    ensures (exists ps :: Loop(ps, epsilon) && ps[0] == p) <==> |p| >= 3 && epsilon > 0.0
  {
    if |p| >= 3 && epsilon > 0.0 {
      var ps := Spiral(p, 2.0 * epsilon, epsilon, 0.0);
      SpiralIsPath(p, 2.0 * epsilon, epsilon, 0.0);
      assert ps[3] == p;
      assert Loop(ps, epsilon) && ps[0] == p;
    } else {
      forall ps | Path(ps, epsilon) && ps[0] == p ensures !Loop(ps, epsilon) {
        SumGrows(ps, epsilon);
      }
    }
  }

  /** Three coordinates, a positive tolerance: three moves in a row can leave every
      coordinate strictly lower. */
  lemma MovesCanLowerEverything(p: Point, epsilon: real) returns (ps: seq<Point>)
    requires |p| >= 3 && epsilon > 0.0
    ensures Path(ps, epsilon) && Moves(ps, epsilon) == 3 && |ps| == 4 && ps[0] == p
    ensures |ps[3]| == |p| && forall i :: 0 <= i < |p| ==> ps[3][i] < p[i]
  {
    ps := Spiral(p, 1.5 * epsilon, epsilon, epsilon);
    SpiralIsPath(p, 1.5 * epsilon, epsilon, epsilon);
  }
}
