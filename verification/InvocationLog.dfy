/** The hook-call log: calls are appended, verdicts are bound to the latest open
    call of a hook, and the log is published as hook I/O receipts. */
module InvocationLog {
  import opened Wrappers

  datatype Status = Completed | Broken | Unavailable

  datatype Row = Row(
    index: nat, hook: string, input: string, output: string, signature: string, status: Status,
    returnValid: bool, required: bool, accepted: bool, consumed: bool, bound: bool)

  /** One adapter call: what went in and out, whether the hook could be called, and
      its error. */
  datatype Call = Call(hook: string, input: string, output: string, signature: string, callable: bool, error: Option<string>)

  /** A consumer's verdict on a call. */
  datatype Verdict = Verdict(returnValid: bool, accepted: bool, consumed: bool, required: bool)

  datatype Op = Reset | Made(call: Call) | Judged(hook: string, verdict: Verdict)

  // ---- specification -------------------------------------------------------

  function Opened(index: nat, c: Call): Row {
    Row(index, c.hook, c.input, c.output, c.signature,
        if c.callable && c.error.None? then Completed
        else if c.error.Some? && c.error.value != "" then Broken
        else Unavailable,
        false, false, false, false, false)
  }

  function Settled(r: Row, v: Verdict): Row {
    var accepted := r.status == Completed && v.returnValid && v.accepted;
    r.(returnValid := v.returnValid, required := v.required, accepted := accepted,
       consumed := accepted && v.consumed, bound := true)
  }

  predicate Open(r: Row, hook: string) { r.hook == hook && !r.bound }

  function Judge(rows: seq<Row>, hook: string, v: Verdict): seq<Row> {
    if rows == [] then []
    else
      var n := |rows| - 1;
      if Open(rows[n], hook) then rows[..n] + [Settled(rows[n], v)] else Judge(rows[..n], hook, v) + [rows[n]]
  }

  function Apply(rows: seq<Row>, op: Op): seq<Row> {
    match op
    case Reset => []
    case Made(c) => rows + [Opened(|rows|, c)]
    case Judged(hook, v) => Judge(rows, hook, v)
  }

  function Log(ops: seq<Op>): seq<Row> {
    if ops == [] then [] else Apply(Log(ops[..|ops| - 1]), ops[|ops| - 1])
  }

  predicate HasOpen(rows: seq<Row>, hook: string) {
    exists i :: 0 <= i < |rows| && Open(rows[i], hook)
  }

  // ---- the log -------------------------------------------------------------

  class Receipts {
    var rows: seq<Row>

    constructor ()
      ensures rows == Log([])
    {
      rows := [];
    }

    method Clear()
      modifies this
      ensures rows == Apply(old(rows), Reset)
    {
      rows := [];
    }

    method Record(c: Call)
      modifies this
      ensures rows == Apply(old(rows), Made(c))
    {
      rows := rows + [Opened(|rows|, c)];
    }

    /** Bind the latest open call of the hook; false if there is none. */
    method Bind(hook: string, v: Verdict) returns (found: bool)
      modifies this
      ensures rows == Apply(old(rows), Judged(hook, v))
      ensures found == HasOpen(old(rows), hook)
    {
      hide Judge, Settled;
      for n := |rows| downto 0
        invariant rows == old(rows)
        invariant forall i :: n <= i < |rows| ==> !Open(rows[i], hook)
      {
        if Open(rows[n], hook) {
          JudgeLatest(rows, hook, v, n);
          rows := rows[n := Settled(rows[n], v)];
          return true;
        }
      }
      JudgeFrame(rows, hook, v);
      return false;
    }
  }

  /** The latest open call is the one that gets the verdict. */
  lemma {:induction false} JudgeLatest(rows: seq<Row>, hook: string, v: Verdict, n: nat)
    requires n < |rows| && Open(rows[n], hook) && forall i :: n < i < |rows| ==> !Open(rows[i], hook)
    ensures Judge(rows, hook, v) == rows[n := Settled(rows[n], v)]
    decreases |rows|
  {
    hide Settled;
    if n < |rows| - 1 {
      JudgeLatest(rows[..|rows| - 1], hook, v, n);
    }
  }

  // ---- what every log keeps ------------------------------------------------

  /** Consistent with the call it stands for. */
  predicate Consistent(r: Row) {
    && (r.accepted ==> r.bound && r.status == Completed && r.returnValid)
    && (r.consumed ==> r.accepted)
    && (!r.bound ==> !r.returnValid && !r.required)
  }

  ghost predicate Kept(rows: seq<Row>) {
    forall i :: 0 <= i < |rows| ==> rows[i].index == i && Consistent(rows[i])
  }

  /** What a verdict may touch. */
  predicate SameCall(a: Row, b: Row) {
    a.index == b.index && a.hook == b.hook && a.input == b.input && a.output == b.output
    && a.signature == b.signature && a.status == b.status
  }

  /** Binding changes one open row of the hook, the latest; everything else stays. */
  lemma {:induction false} JudgeFrame(rows: seq<Row>, hook: string, v: Verdict)
    ensures var after := Judge(rows, hook, v);
      && |after| == |rows|
      && (forall i :: 0 <= i < |rows| ==> after[i] == rows[i] || (Open(rows[i], hook) && after[i] == Settled(rows[i], v)))
      && (forall i, j :: 0 <= i < j < |rows| && Open(rows[j], hook) ==> after[i] == rows[i])
      && (after != rows <==> HasOpen(rows, hook))
  {
    hide Settled;
    if rows != [] {
      var n := |rows| - 1;
      JudgeFrame(rows[..n], hook, v);
      SettledDiffers(rows[n], v);
      assert rows == rows[..n] + [rows[n]];
      if HasOpen(rows[..n], hook) {
        var i :| 0 <= i < n && Open(rows[..n][i], hook);
        assert Open(rows[i], hook);
      }
    }
  }

  lemma SettledDiffers(r: Row, v: Verdict)
    ensures !r.bound ==> Settled(r, v) != r
    ensures SameCall(Settled(r, v), r) && Settled(r, v).bound && Consistent(Settled(r, v))
  {
  }

  /** After any sequence of resets, calls and bindings the indices are 0..n-1 and a
      consumed value was completed, valid and accepted. */
  lemma {:induction false} LogIsKept(ops: seq<Op>)
    ensures Kept(Log(ops))
  {
    hide Settled, Judge;
    if ops != [] {
      var front, op := Log(ops[..|ops| - 1]), ops[|ops| - 1];
      LogIsKept(ops[..|ops| - 1]);
      if op.Judged? {
        JudgeFrame(front, op.hook, op.verdict);
        forall i | 0 <= i < |front| ensures Log(ops)[i].index == i && Consistent(Log(ops)[i]) {
          SettledDiffers(front[i], op.verdict);
        }
      }
    }
  }

  /** Calls of a hook still waiting for a verdict, read off the operations alone. */
  function Depth(ops: seq<Op>, hook: string): nat {
    if ops == [] then 0
    else
      var d := Depth(ops[..|ops| - 1], hook);
      match ops[|ops| - 1]
      case Reset => 0
      case Made(c) => if c.hook == hook then d + 1 else d
      case Judged(h, _) => if h == hook && d > 0 then d - 1 else d
  }

  function OpenCount(rows: seq<Row>, hook: string): nat {
    if rows == [] then 0
    else OpenCount(rows[..|rows| - 1], hook) + if Open(rows[|rows| - 1], hook) then 1 else 0
  }

  lemma {:induction false} OpenCountIff(rows: seq<Row>, hook: string)
    ensures OpenCount(rows, hook) > 0 <==> HasOpen(rows, hook)
  {
    if rows != [] {
      var n := |rows| - 1;
      OpenCountIff(rows[..n], hook);
      if HasOpen(rows[..n], hook) {
        var i :| 0 <= i < n && Open(rows[..n][i], hook);
        assert Open(rows[i], hook);
      }
      if HasOpen(rows, hook) {
        var i :| 0 <= i < |rows| && Open(rows[i], hook);
        assert i < n ==> Open(rows[..n][i], hook);
      }
    }
  }

  lemma JudgeNothing(hook: string, v: Verdict)
    ensures Judge([], hook, v) == []
  {
  }

  lemma JudgeNewest(rows: seq<Row>, hook: string, v: Verdict)
    requires rows != []
    ensures var n := |rows| - 1; var after := Judge(rows, hook, v);
      && |after| == n + 1
      && after[..n] == (if Open(rows[n], hook) then rows[..n] else Judge(rows[..n], hook, v))
      && after[n] == (if Open(rows[n], hook) then Settled(rows[n], v) else rows[n])
  {
  }

  lemma {:induction false} JudgeCloses(rows: seq<Row>, hook: string, v: Verdict, other: string)
    ensures var before, after := OpenCount(rows, other), OpenCount(Judge(rows, hook, v), other);
            after == if other == hook && before > 0 then before - 1 else before
  {
    hide Settled, Judge;
    if rows == [] {
      JudgeNothing(hook, v);
    } else {
      var n := |rows| - 1;
      SettledDiffers(rows[n], v);
      JudgeCloses(rows[..n], hook, v, other);
      JudgeNewest(rows, hook, v);
    }
  }

  /** Per hook, calls and verdicts pair up like a stack: a binding finds a call exactly
      when more calls than successful bindings came since the last reset. */
  lemma {:induction false} OpenCallsAreStacked(ops: seq<Op>, hook: string)
    ensures OpenCount(Log(ops), hook) == Depth(ops, hook)
    ensures HasOpen(Log(ops), hook) <==> Depth(ops, hook) > 0
  {
    hide Judge, Opened;
    if ops != [] {
      var front, op := Log(ops[..|ops| - 1]), ops[|ops| - 1];
      OpenCallsAreStacked(ops[..|ops| - 1], hook);
      match op {
        case Reset =>
        case Made(c) =>
          OpenedIsOpen(|front|, c, hook);
          assert (front + [Opened(|front|, c)])[..|front|] == front;
        case Judged(h, v) => JudgeCloses(front, h, v, hook);
      }
    }
    OpenCountIff(Log(ops), hook);
  }

  lemma OpenedIsOpen(index: nat, c: Call, hook: string)
    ensures Open(Opened(index, c), hook) <==> c.hook == hook
  {
  }

  /** Until the next reset a row keeps its call for ever, and once bound it never
      changes again. */
  lemma {:induction false} BoundForEver(ops: seq<Op>, more: seq<Op>, i: nat)
    requires i < |Log(ops)| && forall k :: 0 <= k < |more| ==> !more[k].Reset?
    ensures i < |Log(ops + more)| && SameCall(Log(ops + more)[i], Log(ops)[i])
    ensures Log(ops)[i].bound ==> Log(ops + more)[i] == Log(ops)[i]
    decreases |more|
  {
    hide Judge, Settled, Opened;
    if more == [] {
      assert ops + more == ops;
    } else {
      var n := |more| - 1;
      BoundForEver(ops, more[..n], i);
      assert (ops + more)[..|ops + more| - 1] == ops + more[..n];
      var front := Log(ops + more[..n]);
      if more[n].Judged? {
        JudgeFrame(front, more[n].hook, more[n].verdict);
        SettledDiffers(front[i], more[n].verdict);
      }
    }
  }
}
