/** Reading a session source into counts, findings and a status (`parse`). */
module SessionParsing {
  import opened Wrappers
  import opened Json
  import opened SessionLines
  import opened SessionEvents

  const MAX_LINES: nat := 10_000

  /** What one line of the source turns out to be. */
  datatype Line =
    | BlankLine
    | Malformed
    | NotObject
    | Refused(seen: Option<Tool>, why: Rejection)
    | Recognized(tool: Tool, role: Role, stamp: Option<string>)

  function ReadLine(env: Env, line: string): Line {
    if Blank(line) then BlankLine
    else
      match env.read(line)
      case None => Malformed
      case Some(Dict(event)) =>
        (match Classify(env, event)
         case Rejected(seen, why) => Refused(seen, why)
         case Accepted(tool, role) => Recognized(tool, role, NormalizeTimestamp(env, Get(event, "timestamp"))))
      case Some(_) => NotObject
  }

  function ReadLines(env: Env, lines: seq<string>): seq<Line> {
    seq(|lines|, i requires 0 <= i < |lines| => ReadLine(env, lines[i]))
  }

  datatype Counts = Counts(
    total: nat, recognized: nat, unrecognized: nat, malformed: nat, blank: nat,
    user: nat, assistant: nat, codex: nat, claude: nat, missing: nat, raw: nat)

  datatype Code =
    | SourceTooLarge | SourceTooManyLines | InvalidUtf8
    | MalformedJsonl | BlankJsonlLine | NonObjectEvent | Refusal(why: Rejection)
    | MixedToolSchemas | DeclaredToolMismatch
    | MissingTimestamp | EmptyProjection | AmbiguousBinding

  /** The severity the findings table gives a code: block, or else warn. */
  predicate Blocks(code: Code) {
    code !in {BlankJsonlLine, MissingTimestamp, EmptyProjection, AmbiguousBinding}
  }

  datatype Status = Complete | Partial | Quarantined | Failed

  datatype Parsed = Parsed(
    conversation: bool, status: Status, counts: Counts, findings: seq<Code>,
    hashes: seq<string>, first: Option<string>, last: Option<string>)

  // ---- specification -------------------------------------------------------

  const NoCounts := Counts(0, 0, 0, 0, 0, 0, 0, 0, 0, 0, 0)

  function Tally(c: Counts, l: Line): Counts {
    match l
    case BlankLine => c.(blank := c.blank + 1)
    case Malformed => c.(malformed := c.malformed + 1)
    case NotObject => c.(unrecognized := c.unrecognized + 1)
    case Refused(_, why) =>
      c.(unrecognized := c.unrecognized + 1, raw := if why == RawOrToolEvent then c.raw + 1 else c.raw)
    case Recognized(tool, role, stamp) =>
      c.(recognized := c.recognized + 1,
         codex := if tool == Codex then c.codex + 1 else c.codex,
         claude := if tool == ClaudeCode then c.claude + 1 else c.claude,
         user := if role == User then c.user + 1 else c.user,
         assistant := if role == Assistant then c.assistant + 1 else c.assistant,
         missing := if stamp.None? then c.missing + 1 else c.missing)
  }

  function TallyAll(total: nat, ls: seq<Line>): Counts {
    if ls == [] then NoCounts.(total := total) else Tally(TallyAll(total, ls[..|ls| - 1]), ls[|ls| - 1])
  }

  /** The finding a line gives rise to. */
  function Note(l: Line): seq<Code> {
    match l
    case BlankLine => [BlankJsonlLine]
    case Malformed => [MalformedJsonl]
    case NotObject => [NonObjectEvent]
    case Refused(_, why) => [Refusal(why)]
    case Recognized(_, _, stamp) => if stamp.None? then [MissingTimestamp] else []
  }

  function Notes(ls: seq<Line>): seq<Code> {
    if ls == [] then [] else Notes(ls[..|ls| - 1]) + Note(ls[|ls| - 1])
  }

  function Seen(l: Line): set<Tool> {
    match l
    case Refused(Some(tool), _) => {tool}
    case Recognized(tool, _, _) => {tool}
    case _ => {}
  }

  function Tools(ls: seq<Line>): set<Tool> {
    if ls == [] then {} else Tools(ls[..|ls| - 1]) + Seen(ls[|ls| - 1])
  }

  function Stamps(ls: seq<Line>): seq<string> {
    if ls == [] then []
    else
      var l := ls[|ls| - 1];
      Stamps(ls[..|ls| - 1]) + (if l.Recognized? && l.stamp.Some? then [l.stamp.value] else [])
  }

  function ToolFindings(tools: set<Tool>, tool: Tool): seq<Code> {
    if |tools| > 1 then [MixedToolSchemas]
    else if tools != {} && tool !in tools then [DeclaredToolMismatch]
    else []
  }

  /** The first occurrence of each code. */
  function Unique(codes: seq<Code>): seq<Code> {
    if codes == [] then []
    else
      var front := Unique(codes[..|codes| - 1]);
      if codes[|codes| - 1] in front then front else front + [codes[|codes| - 1]]
  }

  /** Python's order on texts. */
  predicate AtMost(a: string, b: string) {
    a == "" || (b != "" && (a[0] < b[0] || (a[0] == b[0] && AtMost(a[1..], b[1..]))))
  }

  /** The ends of the sorted timestamps. */
  function Least(ts: seq<string>): Option<string> {
    if ts == [] then None
    else
      var m := Least(ts[..|ts| - 1]);
      if m.Some? && AtMost(m.value, ts[|ts| - 1]) then m else Some(ts[|ts| - 1])
  }

  function Greatest(ts: seq<string>): Option<string> {
    if ts == [] then None
    else
      var m := Greatest(ts[..|ts| - 1]);
      if m.Some? && AtMost(ts[|ts| - 1], m.value) then m else Some(ts[|ts| - 1])
  }

  function Unread(code: Code, total: nat, hashes: seq<string>): Parsed {
    Parsed(false, Failed, NoCounts.(total := total), [code], hashes, None, None)
  }

  predicate Quarantining(l: Line) {
    l.Malformed? || l.NotObject? || l.Refused?
  }

  predicate Incomplete(l: Line) {
    l.BlankLine? || (l.Recognized? && l.stamp.None?)
  }

  function StatusOf(ls: seq<Line>, tool: Tool): Status {
    if (exists i :: 0 <= i < |ls| && Quarantining(ls[i])) || ToolFindings(Tools(ls), tool) != [] then Quarantined
    else if (exists i :: 0 <= i < |ls| && Incomplete(ls[i])) || TallyAll(0, ls).recognized == 0 then Partial
    else Complete
  }

  function FindingsOf(ls: seq<Line>, tool: Tool): seq<Code> {
    Unique(Notes(ls) + ToolFindings(Tools(ls), tool)
           + if TallyAll(0, ls).recognized == 0 then [EmptyProjection] else [])
  }

  function Summary(ls: seq<Line>, tool: Tool, hashes: seq<string>): Parsed {
    var counts := TallyAll(|ls|, ls);
    Parsed(counts.recognized > 0, StatusOf(ls, tool), counts, FindingsOf(ls, tool), hashes,
           Least(Stamps(ls)), Greatest(Stamps(ls)))
  }

  function Hashes(env: Env, lines: seq<seq<byte>>): seq<string> {
    seq(|lines|, i requires 0 <= i < |lines| => env.digest(lines[i]))
  }

  function Parse(env: Env, data: Option<seq<byte>>, tool: Tool): Parsed {
    if data.None? then Unread(SourceTooLarge, 0, [])
    else
      var byteLines := Lines(ByteBreaks(), data.value);
      if |byteLines| > MAX_LINES then Unread(SourceTooManyLines, |byteLines|, [])
      else
        match env.decode(data.value)
        case None => Unread(InvalidUtf8, |byteLines|, Hashes(env, byteLines))
        case Some(text) => Summary(ReadLines(env, Lines(TextBreaks(), text)), tool, Hashes(env, byteLines))
  }

  // ---- the loop ------------------------------------------------------------

  method Dedupe(items: seq<Code>) returns (result: seq<Code>)
    ensures result == Unique(items)
  {
    result := [];
    var seen: set<Code> := {};
    for n := 0 to |items|
      invariant result == Unique(items[..n]) && forall c :: c in seen <==> c in result
    {
      assert items[..n + 1][..n] == items[..n];
      if items[n] !in seen {
        result := result + [items[n]];
        seen := seen + {items[n]};
      }
    }
    assert items[..|items|] == items;
  }

  predicate Somewhere(p: Line -> bool, ls: seq<Line>) {
    ls != [] && (p(ls[|ls| - 1]) || Somewhere(p, ls[..|ls| - 1]))
  }

  lemma {:induction false} SomewhereIff(p: Line -> bool, ls: seq<Line>)
    ensures Somewhere(p, ls) <==> exists i :: 0 <= i < |ls| && p(ls[i])
  {
    if ls != [] {
      var n := |ls| - 1;
      SomewhereIff(p, ls[..n]);
      assert forall i :: 0 <= i < n ==> ls[..n][i] == ls[i];
      if i :| 0 <= i < |ls| && p(ls[i]) {
        assert i < n ==> p(ls[..n][i]);
      }
    }
  }

  /** What the walk over the lines accumulates. */
  datatype Progress = Progress(
    counts: Counts, findings: seq<Code>, tools: set<Tool>, times: seq<string>, quarantine: bool, partial: bool)

  function ProgressOf(total: nat, ls: seq<Line>): Progress {
    Progress(TallyAll(total, ls), Notes(ls), Tools(ls), Stamps(ls), Somewhere(Quarantining, ls), Somewhere(Incomplete, ls))
  }

  /** One turn of the loop. */
  method Advance(l: Line, before: Progress) returns (s: Progress)
    ensures s.counts == Tally(before.counts, l) && s.findings == before.findings + Note(l)
    ensures s.tools == before.tools + Seen(l)
    ensures s.times == before.times + (if l.Recognized? && l.stamp.Some? then [l.stamp.value] else [])
    ensures s.quarantine == (Quarantining(l) || before.quarantine) && s.partial == (Incomplete(l) || before.partial)
  {
    var counts, findings, tools, times := before.counts, before.findings, before.tools, before.times;
    var quarantine, partial := before.quarantine, before.partial;
    match l {
    case BlankLine =>
      counts := counts.(blank := counts.blank + 1);
      findings, partial := findings + [BlankJsonlLine], true;
    case Malformed =>
      counts := counts.(malformed := counts.malformed + 1);
      findings, quarantine := findings + [MalformedJsonl], true;
    case NotObject =>
      counts := counts.(unrecognized := counts.unrecognized + 1);
      findings, quarantine := findings + [NonObjectEvent], true;
    case Refused(seen, why) =>
      if seen.Some? { tools := tools + {seen.value}; }
      counts := counts.(unrecognized := counts.unrecognized + 1);
      if why == RawOrToolEvent { counts := counts.(raw := counts.raw + 1); }
      findings, quarantine := findings + [Refusal(why)], true;
    case Recognized(tool, role, stamp) =>
      tools := tools + {tool};
      counts := counts.(recognized := counts.recognized + 1);
      if tool == Codex { counts := counts.(codex := counts.codex + 1); }
      else { counts := counts.(claude := counts.claude + 1); }
      if role == User { counts := counts.(user := counts.user + 1); }
      else { counts := counts.(assistant := counts.assistant + 1); }
      if stamp.None? {
        counts := counts.(missing := counts.missing + 1);
        findings, partial := findings + [MissingTimestamp], true;
      } else {
        times := times + [stamp.value];
      }
    }
    s := Progress(counts, findings, tools, times, quarantine, partial);
  }

  /** Walk the lines once. */
  method Walk(env: Env, lines: seq<string>) returns (s: Progress)
    ensures s == ProgressOf(|lines|, ReadLines(env, lines))
  {
    hide ReadLine, Tally, Note, Seen, Quarantining, Incomplete;
    ghost var ls := ReadLines(env, lines);
    s := Progress(NoCounts.(total := |lines|), [], {}, [], false, false);
    for n := 0 to |lines|
      invariant s == ProgressOf(|lines|, ls[..n])
    {
      assert ls[..n + 1][..n] == ls[..n];
      s := Advance(ReadLine(env, lines[n]), s);
    }
    assert ls[..|lines|] == ls;
  }

  method ParseSource(env: Env, data: Option<seq<byte>>, tool: Tool) returns (p: Parsed)
    ensures p == Parse(env, data, tool)
  {
    hide ReadLine, Lines, Unique, Notes, Tools, Stamps, TallyAll;
    if data.None? { return Unread(SourceTooLarge, 0, []); }
    var byteLines := Lines(ByteBreaks(), data.value);
    if |byteLines| > MAX_LINES { return Unread(SourceTooManyLines, |byteLines|, []); }
    var hashes := Hashes(env, byteLines);
    var text := env.decode(data.value);
    if text.None? { return Unread(InvalidUtf8, |byteLines|, hashes); }
    var lines := Lines(TextBreaks(), text.value);
    var walked := Walk(env, lines);
    var counts, findings, tools := walked.counts, walked.findings, walked.tools;
    var quarantine, partial := walked.quarantine, walked.partial;
    TotalAside(|lines|, ReadLines(env, lines));
    SomewhereIff(Quarantining, ReadLines(env, lines));
    SomewhereIff(Incomplete, ReadLines(env, lines));
    if |tools| > 1 {
      findings, quarantine := findings + [MixedToolSchemas], true;
    } else if tools != {} && tool !in tools {
      findings, quarantine := findings + [DeclaredToolMismatch], true;
    } else {
      assert findings + [] == findings;
    }
    if counts.recognized == 0 {
      findings, partial := findings + [EmptyProjection], true;
    } else {
      assert findings + [] == findings;
    }
    findings := Dedupe(findings);
    p := Parsed(counts.recognized > 0, if quarantine then Quarantined else if partial then Partial else Complete,
                counts, findings, hashes, Least(walked.times), Greatest(walked.times));
  }

  /** The line total is carried along untouched. */
  lemma {:induction false} TotalAside(total: nat, ls: seq<Line>)
    ensures TallyAll(total, ls) == TallyAll(0, ls).(total := total)
  {
    if ls != [] {
      TotalAside(total, ls[..|ls| - 1]);
    }
  }

  // ---- what the summary means ----------------------------------------------

  function Count(p: Line -> bool, ls: seq<Line>): nat {
    if ls == [] then 0 else Count(p, ls[..|ls| - 1]) + if p(ls[|ls| - 1]) then 1 else 0
  }

  /** Every count is the number of lines of its sort. */
  lemma {:induction false} TallyMeaning(total: nat, ls: seq<Line>)
    ensures var c := TallyAll(total, ls);
      && c.total == total
      && c.blank == Count((l: Line) => l.BlankLine?, ls)
      && c.malformed == Count((l: Line) => l.Malformed?, ls)
      && c.unrecognized == Count((l: Line) => l.NotObject? || l.Refused?, ls)
      && c.raw == Count((l: Line) => l.Refused? && l.why == RawOrToolEvent, ls)
      && c.recognized == Count((l: Line) => l.Recognized?, ls)
      && c.codex == Count((l: Line) => l.Recognized? && l.tool == Codex, ls)
      && c.claude == Count((l: Line) => l.Recognized? && l.tool == ClaudeCode, ls)
      && c.user == Count((l: Line) => l.Recognized? && l.role == User, ls)
      && c.assistant == Count((l: Line) => l.Recognized? && l.role == Assistant, ls)
      && c.missing == Count((l: Line) => l.Recognized? && l.stamp.None?, ls)
  {
    if ls != [] {
      TallyMeaning(total, ls[..|ls| - 1]);
    }
  }

  lemma {:induction false} TallyBalances(total: nat, ls: seq<Line>)
    ensures var c := TallyAll(total, ls);
      && |ls| == c.blank + c.malformed + c.unrecognized + c.recognized
      && c.recognized == c.codex + c.claude == c.user + c.assistant == c.missing + |Stamps(ls)|
      && c.raw <= c.unrecognized
  {
    if ls != [] {
      TallyBalances(total, ls[..|ls| - 1]);
    }
  }

  /** On every source that could be read, the lines are accounted for: each is
      blank, malformed, unrecognised or recognised, and the recognised ones split
      by tool, by role, and into timed and untimed. */
  lemma {:induction false} Accounting(env: Env, data: Option<seq<byte>>, tool: Tool)
    ensures var p := Parse(env, data, tool); var c := p.counts;
      p.status != Failed ==>
        && data.Some? && env.decode(data.value).Some?
        && var ls := ReadLines(env, Lines(TextBreaks(), env.decode(data.value).value));
        && c.total == |ls| == c.blank + c.malformed + c.unrecognized + c.recognized
        && c.recognized == c.codex + c.claude == c.user + c.assistant == c.missing + |Stamps(ls)|
        && c.raw <= c.unrecognized && p.conversation == (c.recognized > 0)
  {
    hide Lines, ReadLine, StatusOf, FindingsOf, Stamps;
    if Parse(env, data, tool).status != Failed {
      var ls := ReadLines(env, Lines(TextBreaks(), env.decode(data.value).value));
      TallyBalances(|ls|, ls);
      TallyMeaning(|ls|, ls);
    }
  }

  lemma {:induction false} UniqueFacts(codes: seq<Code>)
    ensures forall i, j :: 0 <= i < j < |Unique(codes)| ==> Unique(codes)[i] != Unique(codes)[j]
    ensures forall c :: c in Unique(codes) <==> c in codes
  {
    if codes != [] {
      UniqueFacts(codes[..|codes| - 1]);
      assert codes == codes[..|codes| - 1] + [codes[|codes| - 1]];
    }
  }

  lemma {:induction false} NotesFacts(ls: seq<Line>)
    ensures forall c :: c in Notes(ls) <==> exists i :: 0 <= i < |ls| && c in Note(ls[i])
  {
    hide Note;
    if ls != [] {
      var n := |ls| - 1;
      NotesFacts(ls[..n]);
      assert ls == ls[..n] + [ls[n]];
      assert forall i :: 0 <= i < n ==> ls[..n][i] == ls[i];
    }
  }

  /** A summary is quarantined exactly when some finding blocks, and complete exactly
      when there are no findings at all. */
  lemma SummaryBySeverity(ls: seq<Line>, tool: Tool)
    ensures StatusOf(ls, tool) == Quarantined <==> exists c :: c in FindingsOf(ls, tool) && Blocks(c)
    ensures StatusOf(ls, tool) == Complete <==> FindingsOf(ls, tool) == []
    ensures StatusOf(ls, tool) != Failed
  {
    hide Unique, Notes, Tools, TallyAll, Quarantining, Incomplete;
    var noted := Notes(ls) + ToolFindings(Tools(ls), tool)
                 + if TallyAll(0, ls).recognized == 0 then [EmptyProjection] else [];
    UniqueFacts(noted);
    assert FindingsOf(ls, tool) == [] <==> noted == [] by {
      if noted != [] { assert noted[0] in noted; }
      if FindingsOf(ls, tool) != [] { assert FindingsOf(ls, tool)[0] in FindingsOf(ls, tool); }
    }
    NotesFacts(ls);
    NotedStatus(ls);
    if c :| c in noted && Blocks(c) {
      assert c in Notes(ls) || c in ToolFindings(Tools(ls), tool);
    }
    if ToolFindings(Tools(ls), tool) != [] {
      assert ToolFindings(Tools(ls), tool)[0] in noted;
    }
  }

  /** Line by line: the blocking notes quarantine, the others leave a gap. */
  lemma {:induction false} NotedStatus(ls: seq<Line>)
    ensures (exists i :: 0 <= i < |ls| && Quarantining(ls[i])) <==> exists c :: c in Notes(ls) && Blocks(c)
    ensures (exists i :: 0 <= i < |ls| && (Quarantining(ls[i]) || Incomplete(ls[i]))) <==> Notes(ls) != []
  {
    hide Notes;
    NotesFacts(ls);
    forall i | 0 <= i < |ls| && Quarantining(ls[i]) ensures exists c :: c in Notes(ls) && Blocks(c) {
      assert Note(ls[i])[0] in Note(ls[i]) && Blocks(Note(ls[i])[0]);
    }
    forall i | 0 <= i < |ls| && Incomplete(ls[i]) ensures Notes(ls) != [] {
      assert Note(ls[i])[0] in Note(ls[i]);
      assert Note(ls[i])[0] in Notes(ls);
    }
    if Notes(ls) != [] {
      assert Notes(ls)[0] in Notes(ls);
    }
  }

  /** The status of every parse can be read off its findings: complete means none,
      failed or quarantined means one that blocks. */
  lemma StatusBySeverity(env: Env, data: Option<seq<byte>>, tool: Tool)
    ensures var p := Parse(env, data, tool);
      && (p.status == Complete <==> p.findings == [])
      && (p.status in {Failed, Quarantined} <==> exists c :: c in p.findings && Blocks(c))
  {
    hide Lines, ReadLines, StatusOf, FindingsOf;
    var p := Parse(env, data, tool);
    if p.status == Failed && |p.findings| == 1 && p.findings == [p.findings[0]] {
      assert p.findings[0] in p.findings;
    }
    if data.Some? && env.decode(data.value).Some? {
      SummaryBySeverity(ReadLines(env, Lines(TextBreaks(), env.decode(data.value).value)), tool);
    }
  }

  lemma {:induction false} ToolsFacts(ls: seq<Line>)
    ensures forall t :: t in Tools(ls) <==> exists i :: 0 <= i < |ls| && t in Seen(ls[i])
  {
    hide Seen;
    if ls != [] {
      var n := |ls| - 1;
      ToolsFacts(ls[..n]);
      assert ls == ls[..n] + [ls[n]];
      assert forall i :: 0 <= i < n ==> ls[..n][i] == ls[i];
    }
  }

  lemma {:induction false} SomeRecognized(ls: seq<Line>)
    ensures TallyAll(0, ls).recognized > 0 <==> exists i :: 0 <= i < |ls| && ls[i].Recognized?
  {
    if ls != [] {
      var n := |ls| - 1;
      SomeRecognized(ls[..n]);
      assert ls == ls[..n] + [ls[n]];
      assert forall i :: 0 <= i < n ==> ls[..n][i] == ls[i];
    }
  }

  /** Complete means exactly: there are lines, and each is a timed event of the
      declared tool. */
  lemma CompleteIff(ls: seq<Line>, tool: Tool)
    ensures StatusOf(ls, tool) == Complete <==>
            ls != [] && forall i :: 0 <= i < |ls| ==> ls[i].Recognized? && ls[i].tool == tool && ls[i].stamp.Some?
  {
    hide Tools, TallyAll;
    ToolsFacts(ls);
    SomeRecognized(ls);
    if ls != [] && forall i :: 0 <= i < |ls| ==> ls[i].Recognized? && ls[i].tool == tool && ls[i].stamp.Some? {
      assert ls[0].Recognized? && tool in Seen(ls[0]);
      assert Tools(ls) == {tool};
    }
    if StatusOf(ls, tool) == Complete {
      forall i | 0 <= i < |ls| ensures ls[i].Recognized? && ls[i].tool == tool && ls[i].stamp.Some? {
        assert !Quarantining(ls[i]) && !Incomplete(ls[i]);
        assert ls[i].tool in Seen(ls[i]);
        OneTool(Tools(ls), tool, ls[i].tool);
      }
    }
  }

  lemma OneTool(tools: set<Tool>, tool: Tool, t: Tool)
    requires ToolFindings(tools, tool) == [] && t in tools
    ensures t == tool
  {
    if t != tool {
      assert {t, tool} <= tools;
      assert |{t, tool}| == 2;
      Smaller({t, tool}, tools);
    }
  }

  lemma Smaller(a: set<Tool>, b: set<Tool>)
    requires a <= b
    ensures |a| <= |b|
  {
    assert b == a + (b - a) && a !! (b - a);
  }

  // ---- the timestamp bounds ------------------------------------------------

  lemma {:induction false} AtMostTotal(a: string, b: string)
    ensures AtMost(a, b) || AtMost(b, a)
    ensures AtMost(a, b) && AtMost(b, a) ==> a == b
  {
    if a != "" && b != "" && a[0] == b[0] {
      AtMostTotal(a[1..], b[1..]);
      assert a == [a[0]] + a[1..] && b == [b[0]] + b[1..];
    }
  }

  lemma {:induction false} AtMostTransitive(a: string, b: string, c: string)
    requires AtMost(a, b) && AtMost(b, c)
    ensures AtMost(a, c)
  {
    if a != "" && a[0] == b[0] == c[0] {
      AtMostTransitive(a[1..], b[1..], c[1..]);
    }
  }

  /** The reported bounds are observed stamps that enclose all others. */
  lemma {:induction false} BoundsEnclose(ts: seq<string>)
    ensures ts == [] <==> Least(ts).None?
    ensures ts == [] <==> Greatest(ts).None?
    ensures ts != [] ==> Least(ts).value in ts && Greatest(ts).value in ts
    ensures forall t :: t in ts ==> AtMost(Least(ts).value, t) && AtMost(t, Greatest(ts).value)
  {
    if ts != [] {
      var n := |ts| - 1;
      BoundsEnclose(ts[..n]);
      assert ts == ts[..n] + [ts[n]];
      forall t | t in ts ensures AtMost(Least(ts).value, t) && AtMost(t, Greatest(ts).value) {
        AtMostTotal(ts[n], ts[n]);
        if n > 0 {
          AtMostTotal(Least(ts[..n]).value, ts[n]);
          AtMostTotal(Greatest(ts[..n]).value, ts[n]);
          if t in ts[..n] {
            if Least(ts).value == ts[n] { AtMostTransitive(ts[n], Least(ts[..n]).value, t); }
            if Greatest(ts).value == ts[n] { AtMostTransitive(t, Greatest(ts[..n]).value, ts[n]); }
          }
        }
      }
    }
  }
}
