/** What each row of the hook-call log says, told from the calls and bindings alone. */
module InvocationRules {
  import opened Wrappers
  import opened InvocationLog

  /** The calls since the last reset. */
  function Calls(ops: seq<Op>): seq<Call> {
    if ops == [] then []
    else
      var front := Calls(ops[..|ops| - 1]);
      match ops[|ops| - 1]
      case Reset => []
      case Made(c) => front + [c]
      case Judged(_, _) => front
  }

  /** The row is about this call: what went in and out, and how the call ended. */
  predicate About(r: Row, c: Call) {
    && r.hook == c.hook && r.input == c.input && r.output == c.output && r.signature == c.signature
    && (r.status == Completed <==> c.callable && c.error == None)
    && (r.status == Broken <==> c.error.Some? && |c.error.value| > 0)
  }

  /** After any operations the log has one row per call since the last reset, in order. */
  lemma {:induction false} RowsAreCalls(ops: seq<Op>)
    ensures |Log(ops)| == |Calls(ops)|
    ensures forall i :: 0 <= i < |Log(ops)| ==> Log(ops)[i].index == i && About(Log(ops)[i], Calls(ops)[i])
  {
    hide Judge, Settled;
    if ops != [] {
      var n := |ops| - 1;
      RowsAreCalls(ops[..n]);
      LogIsKept(ops);
      if ops[n].Judged? {
        JudgeFrame(Log(ops[..n]), ops[n].hook, ops[n].verdict);
        forall i | 0 <= i < |Log(ops[..n])| { SettledDiffers(Log(ops[..n])[i], ops[n].verdict); }
      }
    }
  }

  /** Nothing has been said about the call. */
  predicate Silent(r: Row) { !r.returnValid && !r.required && !r.accepted && !r.consumed }

  /** The verdict has been entered: acceptance needs a completed call and a valid return,
      consumption needs acceptance. */
  predicate Entered(before: Row, after: Row, v: Verdict) {
    && after.index == before.index && after.hook == before.hook && after.input == before.input
    && after.output == before.output && after.signature == before.signature && after.status == before.status
    && after.bound && after.returnValid == v.returnValid && after.required == v.required
    && (after.accepted <==> before.status == Completed && v.returnValid && v.accepted)
    && (after.consumed <==> before.status == Completed && v.returnValid && v.accepted && v.consumed)
  }

  predicate Newest(rows: seq<Row>, hook: string, i: nat)
    requires i < |rows|
  {
    && rows[i].hook == hook && !rows[i].bound
    && forall k :: i < k < |rows| ==> rows[k].hook != hook || rows[k].bound
  }

  /** A binding enters its verdict in the newest open row of its hook and leaves every
      other row alone; open rows say nothing. */
  lemma {:induction false} BindingExactly(ops: seq<Op>, hook: string, v: Verdict)
    ensures var before, after := Log(ops), Log(ops + [Judged(hook, v)]);
      && |after| == |before|
      && forall i :: 0 <= i < |before| ==>
           && (Newest(before, hook, i) ==> Entered(before[i], after[i], v))
           && (!Newest(before, hook, i) ==> after[i] == before[i])
           && (!before[i].bound ==> Silent(before[i]))
  {
    hide Judge;
    var before := Log(ops);
    assert (ops + [Judged(hook, v)])[..|ops|] == ops;
    JudgeFrame(before, hook, v);
    LogIsKept(ops);
    forall i | 0 <= i < |before| && Newest(before, hook, i)
      ensures Judge(before, hook, v) == before[i := Settled(before[i], v)]
    {
      JudgeLatest(before, hook, v, i);
    }
  }
}
