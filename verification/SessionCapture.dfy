/** The capture hook's projection of a transcript (`normalize_projection`), and the
    agreement between what it writes and what the auditor reads. */
module SessionCapture {
  import opened Wrappers
  import opened Text
  import opened Json
  import opened SessionLines
  import opened SessionEvents
  import opened SessionParsing

  // ---- the projection ------------------------------------------------------

  function ReadEvent(env: Env, line: string): Result<Object> {
    if Blank(line) then Err("transcript contains a blank JSONL line")
    else
      match env.read(line)
      case None => Err("transcript contains malformed JSONL")
      case Some(Dict(event)) =>
        if SchemaSupported(event) then Ok(event) else Err("transcript declares an unsupported schema version")
      case Some(_) => Err("transcript contains a non-object JSONL event")
  }

  function ReadEvents(env: Env, lines: seq<string>): Result<seq<Object>> {
    if lines == [] then Ok([])
    else
      match ReadEvents(env, lines[..|lines| - 1])
      case Err(e) => Err(e)
      case Ok(front) =>
        (match ReadEvent(env, lines[|lines| - 1])
         case Err(e) => Err(e)
         case Ok(event) => Ok(front + [event]))
  }

  function Transcript(env: Env, data: seq<byte>): Result<seq<Object>> {
    match env.decode(data)
    case None => Err("transcript is not strict UTF-8")
    case Some(text) =>
      var lines := Lines(TextBreaks(), text);
      if |lines| > MAX_LINES then Err("transcript exceeds the bounded JSONL line count")
      else if lines == [] then Err("transcript contains no JSONL events")
      else ReadEvents(env, lines)
  }

  /** The events of one form that capture keeps. */
  function Picks(env: Env, form: Form, events: seq<Object>): seq<Captured> {
    if events == [] then []
    else
      var front := Picks(env, form, events[..|events| - 1]);
      var c := Capture(env, form, events[|events| - 1]);
      if c.Some? then front + [c.value] else front
  }

  /** Codex response items serve only where there are no event messages. */
  function FormFor(env: Env, tool: Tool, events: seq<Object>): Form {
    if tool == ClaudeCode then ClaudeMessage
    else if Picks(env, EventMessage, events) != [] then EventMessage
    else ResponseItem
  }

  /** All that capture keeps of a transcript. */
  function Kept(env: Env, tool: Tool, events: seq<Object>): seq<Captured> {
    Picks(env, FormFor(env, tool, events), events)
  }

  function Printed(env: Env, cs: seq<Captured>): seq<string> {
    seq(|cs|, i requires 0 <= i < |cs| => env.show(Dict(Render(cs[i]))))
  }

  function Written(env: Env, cs: seq<Captured>): seq<byte> {
    Encode(Terminated(Printed(env, cs)))
  }

  function NormalizeProjection(env: Env, data: seq<byte>, tool: Tool): Result<seq<byte>> {
    match Transcript(env, data)
    case Err(e) => Err(e)
    case Ok(events) =>
      var cs := Kept(env, tool, events);
      if cs == [] then Err("transcript contains no supported conversation events") else Ok(Written(env, cs))
  }

  method ParseTranscript(env: Env, data: seq<byte>) returns (r: Result<seq<Object>>)
    ensures r == Transcript(env, data)
  {
    hide Lines, ReadEvent;
    var text := env.decode(data);
    if text.None? { return Err("transcript is not strict UTF-8"); }
    var lines := Lines(TextBreaks(), text.value);
    if |lines| > MAX_LINES { return Err("transcript exceeds the bounded JSONL line count"); }
    if lines == [] { return Err("transcript contains no JSONL events"); }
    var events: seq<Object> := [];
    for n := 0 to |lines|
      invariant ReadEvents(env, lines[..n]) == Ok(events)
    {
      assert lines[..n + 1][..n] == lines[..n];
      var event := ReadEvent(env, lines[n]);
      if event.Err? {
        FirstError(env, lines, n + 1);
        return Err(event.reason);
      }
      events := events + [event.value];
    }
    assert lines[..|lines|] == lines;
    return Ok(events);
  }

  /** An error in a prefix is the error of the whole. */
  lemma {:induction false} FirstError(env: Env, lines: seq<string>, n: nat)
    requires n <= |lines| && ReadEvents(env, lines[..n]).Err?
    ensures ReadEvents(env, lines) == ReadEvents(env, lines[..n])
    decreases |lines|
  {
    hide ReadEvent;
    if n == |lines| {
      assert lines[..n] == lines;
    } else {
      var front := lines[..|lines| - 1];
      assert front[..n] == lines[..n];
      FirstError(env, front, n);
    }
  }

  // ---- facts about the libraries -------------------------------------------

  /** The only line separators JSON printing leaves unescaped. */
  predicate RawSeparator(c: char) {
    c as int in {0x85, 0x2028, 0x2029}
  }

  predicate Clean(text: string) {
    forall i :: 0 <= i < |text| ==> !RawSeparator(text[i])
  }

  /** Decoding undoes encoding; stamps are idempotent and plain; a printed event
      starts with a brace, reads back, is no JSON text when cut short, and holds a
      line separator exactly where its own text or stamp does. */
  ghost predicate Lawful(env: Env) {
    && (forall t :: env.decode(Encode(t)) == Some(t))
    && StampsOnce(env) && (forall s, t :: env.stamp(s) == Some(t) ==> Clean(t))
    && (forall c: Captured :: PrintsWell(env, c))
  }

  ghost predicate PrintsWell(env: Env, c: Captured) {
    var line := env.show(Dict(Render(c)));
    && 0 < |line| && line[0] == '{' && env.read(line) == Some(Dict(Render(c)))
    && (forall k :: 0 < k < |line| ==> env.read(line[..k]) == None)
    && (forall i :: 0 <= i < |line| && EndsTextLine(line[i]) ==> RawSeparator(line[i]))
    && (Clean(line) <==> Clean(c.text) && (c.stamp.Some? ==> Clean(c.stamp.value)))
  }

  // ---- reading back what was written ---------------------------------------

  /** Captured events of one form, tidy. */
  ghost predicate Batch(env: Env, form: Form, cs: seq<Captured>) {
    forall i :: 0 <= i < |cs| ==> cs[i].form == form && Tidy(env, cs[i])
  }

  ghost predicate AllClean(cs: seq<Captured>) {
    forall i :: 0 <= i < |cs| ==> Clean(cs[i].text)
  }

  lemma NarrowLines(env: Env, form: Form, cs: seq<Captured>)
    requires Lawful(env) && Batch(env, form, cs)
    ensures |Lines(ByteBreaks(), Written(env, cs))| == |cs|
    ensures AllClean(cs) ==> Lines(TextBreaks(), Terminated(Printed(env, cs))) == Printed(env, cs)
  {
    hide Lines, Render, Encode, Terminated, Clean, Tidy, PrintsWell;
    var ts := Printed(env, cs);
    ByteLines(Terminated(ts));
    forall i | 0 <= i < |ts|
      ensures Unbroken(NarrowBreaks(), ts[i]) && (Clean(cs[i].text) ==> Unbroken(TextBreaks(), ts[i]))
    {
      PrintedBreaks(env, cs[i]);
    }
    TerminatedLines(NarrowBreaks(), ts);
    if AllClean(cs) {
      TerminatedLines(TextBreaks(), ts);
    }
  }

  lemma PrintedBreaks(env: Env, c: Captured)
    requires Lawful(env) && Tidy(env, c)
    ensures var line := env.show(Dict(Render(c)));
            Unbroken(NarrowBreaks(), line) && (Clean(c.text) <==> Unbroken(TextBreaks(), line))
  {
    hide Render, Trimmed, BlockedUserText;
    assert PrintsWell(env, c);
    var line := env.show(Dict(Render(c)));
    assert forall i :: 0 <= i < |line| ==> !EndsNarrowLine(line[i]);
    assert forall i :: 0 <= i < |line| ==> (EndsTextLine(line[i]) <==> RawSeparator(line[i]));
  }

  /** Each written event is read as what was captured. */
  lemma WrittenLine(env: Env, form: Form, c: Captured)
    requires Lawful(env) && c.form == form && Tidy(env, c)
    ensures var line := env.show(Dict(Render(c)));
            && ReadLine(env, line) == Recognized(ToolOf(form), c.role, c.stamp)
            && ReadEvent(env, line) == Ok(Render(c))
  {
    hide Render, Classify, Tidy, Capture, SchemaSupported;
    assert PrintsWell(env, c);
    BraceIsNoBlank(env.show(Dict(Render(c))));
    TidyAgrees(env, c);
    RenderStamp(env, c);
  }

  lemma BraceIsNoBlank(line: string)
    requires line != "" && line[0] == '{'
    ensures !Blank(line)
  {
    StripRightFacts(line);
    if StripRight(line) == "" {
      BraceStays(line);
    }
  }

  lemma {:induction false} BraceStays(line: string)
    requires line != "" && line[0] == '{'
    ensures StripRight(line) != ""
  {
    if |line| > 1 { BraceStays(line[..|line| - 1]); }
  }

  lemma {:induction false} TidyAgrees(env: Env, c: Captured)
    requires Tidy(env, c)
    ensures Classify(env, Render(c)) == Accepted(ToolOf(c.form), c.role) && SchemaSupported(Render(c))
    ensures Capture(env, c.form, Render(c)) == Some(c)
  {
    hide Classify, Render, Tidy, SchemaSupported;
    RenderSchema(c);
    match c.form
    case EventMessage => EventMessageAgrees(env, c);
    case ResponseItem => ResponseItemAgrees(env, c);
    case ClaudeMessage => ClaudeMessageAgrees(env, c);
  }

  lemma RenderSchema(c: Captured)
    ensures SchemaSupported(Render(c))
  {
  }

  function Readings(cs: seq<Captured>): seq<Line> {
    seq(|cs|, i requires 0 <= i < |cs| => Recognized(ToolOf(cs[i].form), cs[i].role, cs[i].stamp))
  }

  /** A separator inside a captured text cuts its line, and the first piece is no
      JSON text. */
  lemma SplitEvent(env: Env, form: Form, cs: seq<Captured>) returns (i: nat)
    requires Lawful(env) && Batch(env, form, cs) && !AllClean(cs)
    ensures var lines := Lines(TextBreaks(), Terminated(Printed(env, cs)));
            i < |lines| && ReadLine(env, lines[i]) == Malformed && ReadEvent(env, lines[i]).Err?
  {
    hide Lines, Render, Terminated, Tidy;
    var j := FirstUnclean(cs);
    var ts := Printed(env, cs);
    forall h | 0 <= h <= j ensures PrintsWell(env, cs[h]) && (Clean(cs[h].text) <==> Unbroken(TextBreaks(), ts[h])) {
      PrintedBreaks(env, cs[h]);
    }
    var p := FirstBreak(ts[j]);
    CutLine(ts, j, p);
    var piece := ts[j][..p];
    assert p > 0;
    BraceIsNoBlank(piece);
    var lines := Lines(TextBreaks(), Terminated(ts));
    i :| 0 <= i < |lines| && lines[i] == piece;
  }

  lemma {:induction false} FirstUnclean(cs: seq<Captured>) returns (j: nat)
    requires !AllClean(cs)
    ensures j < |cs| && !Clean(cs[j].text) && forall i :: 0 <= i < j ==> Clean(cs[i].text)
    decreases |cs|
  {
    hide Clean;
    var n := |cs| - 1;
    if AllClean(cs[..n]) {
      j := n;
      assert forall i :: 0 <= i < n ==> cs[..n][i] == cs[i];
    } else {
      j := FirstUnclean(cs[..n]);
      assert forall i :: 0 <= i <= j ==> cs[..n][i] == cs[i];
    }
  }

  lemma {:induction false} FirstBreak(t: string) returns (p: nat)
    requires !Unbroken(TextBreaks(), t) && Unbroken(NarrowBreaks(), t)
    ensures p < |t| && Exotic(t[p]) && Unbroken(TextBreaks(), t[..p])
    decreases |t|
  {
    var n := |t| - 1;
    if Unbroken(TextBreaks(), t[..n]) {
      p := n;
      assert t == t[..n] + [t[n]];
    } else {
      p := FirstBreak(t[..n]);
      assert t[..n][..p] == t[..p];
    }
  }

  // ---- the auditor accepts every clean projection --------------------------

  lemma WrittenReadings(env: Env, form: Form, cs: seq<Captured>)
    requires Lawful(env) && Batch(env, form, cs) && AllClean(cs)
    ensures ReadLines(env, Lines(TextBreaks(), Terminated(Printed(env, cs)))) == Readings(cs)
  {
    hide Lines, Render, ReadLine, Lawful, Tidy, Terminated;
    NarrowLines(env, form, cs);
    forall i | 0 <= i < |cs| ensures ReadLine(env, Printed(env, cs)[i]) == Readings(cs)[i] {
      WrittenLine(env, form, cs[i]);
    }
  }

  /** What the auditor makes of a batch that capture wrote. It is quarantined exactly
      when some captured text holds one of the three raw separators, never failed,
      and complete exactly when it is clean and every event has its time. */
  lemma BatchIsAccepted(env: Env, form: Form, cs: seq<Captured>)
    requires Lawful(env) && Batch(env, form, cs) && 0 < |cs| <= MAX_LINES
    ensures var p := Parse(env, Some(Written(env, cs)), ToolOf(form));
      && (p.status == Quarantined <==> !AllClean(cs)) && p.status != Failed
      && (p.status == Complete <==> AllClean(cs) && forall i :: 0 <= i < |cs| ==> cs[i].stamp.Some?)
      && |p.hashes| == |cs| && (AllClean(cs) ==> p.counts.recognized == p.counts.total == |cs|)
  {
    hide Lines, Encode, Render, ReadLine, Tidy, Terminated, StatusOf, FindingsOf, TallyAll;
    var text := Terminated(Printed(env, cs));
    var lines := Lines(TextBreaks(), text);
    assert env.decode(Encode(text)) == Some(text);
    NarrowLines(env, form, cs);
    var ls := ReadLines(env, lines);
    StatusRange(ls, ToolOf(form));
    if AllClean(cs) {
      WrittenReadings(env, form, cs);
      CleanStatus(form, cs);
    } else {
      var i := SplitEvent(env, form, cs);
      assert ls[i] == Malformed;
      MalformedQuarantines(ls, ToolOf(form), i);
    }
  }

  lemma StatusRange(ls: seq<Line>, tool: Tool)
    ensures StatusOf(ls, tool) != Failed
  {
  }

  lemma MalformedQuarantines(ls: seq<Line>, tool: Tool, i: nat)
    requires i < |ls| && ls[i] == Malformed
    ensures StatusOf(ls, tool) == Quarantined
  {
  }

  lemma {:induction false} CleanStatus(form: Form, cs: seq<Captured>)
    requires cs != [] && forall i :: 0 <= i < |cs| ==> cs[i].form == form
    ensures var s := StatusOf(Readings(cs), ToolOf(form));
            s != Quarantined && (s == Complete <==> forall i :: 0 <= i < |cs| ==> cs[i].stamp.Some?)
    ensures TallyAll(|cs|, Readings(cs)).recognized == TallyAll(|cs|, Readings(cs)).total == |cs|
  {
    hide Tools, TallyAll;
    var ls, tool := Readings(cs), ToolOf(form);
    CompleteIff(ls, tool);
    assert forall i :: 0 <= i < |cs| ==> ls[i].Recognized? && ls[i].tool == tool && ls[i].stamp == cs[i].stamp;
    ToolsFacts(ls);
    assert tool in Seen(ls[0]);
    assert Tools(ls) == {tool};
    AllRecognized(|cs|, ls);
  }

  lemma {:induction false} AllRecognized(total: nat, ls: seq<Line>)
    requires forall i :: 0 <= i < |ls| ==> ls[i].Recognized?
    ensures TallyAll(total, ls).recognized == |ls| && TallyAll(total, ls).total == total
  {
    if ls != [] {
      AllRecognized(total, ls[..|ls| - 1]);
    }
  }

  // ---- whole transcripts ---------------------------------------------------

  lemma {:induction false} EventCount(env: Env, lines: seq<string>)
    ensures ReadEvents(env, lines).Ok? ==> |ReadEvents(env, lines).value| == |lines|
  {
    hide ReadEvent;
    if lines != [] {
      EventCount(env, lines[..|lines| - 1]);
    }
  }

  lemma {:induction false} PicksAreTidy(env: Env, form: Form, events: seq<Object>)
    requires StampsOnce(env)
    ensures Batch(env, form, Picks(env, form, events)) && |Picks(env, form, events)| <= |events|
  {
    hide Capture, Tidy;
    if events != [] {
      PicksAreTidy(env, form, events[..|events| - 1]);
      CaptureIsTidy(env, form, events[|events| - 1]);
    }
  }

  /** A successful capture keeps a bounded batch of the tool's events. */
  lemma KeptIsBatch(env: Env, data: seq<byte>, tool: Tool) returns (form: Form)
    requires Lawful(env) && NormalizeProjection(env, data, tool).Ok?
    ensures Transcript(env, data).Ok? && ToolOf(form) == tool
    ensures var cs := Kept(env, tool, Transcript(env, data).value);
            && NormalizeProjection(env, data, tool).value == Written(env, cs)
            && Batch(env, form, cs) && 0 < |cs| <= MAX_LINES
  {
    hide Lines, Written, Batch, Picks;
    var events := Transcript(env, data).value;
    form := FormFor(env, tool, events);
    PicksAreTidy(env, form, events);
    EventCount(env, Lines(TextBreaks(), env.decode(data).value));
  }

  /** Everything capture writes is accepted by the auditor: for every transcript it
      can project, the written source is never failed, is quarantined exactly when
      a kept text holds NEL, LS or PS, and is otherwise complete exactly when every
      kept event carries a timestamp. */
  lemma CaptureIsAccepted(env: Env, data: seq<byte>, tool: Tool)
    requires Lawful(env) && NormalizeProjection(env, data, tool).Ok?
    ensures Transcript(env, data).Ok?
    ensures var cs := Kept(env, tool, Transcript(env, data).value);
            var p := Parse(env, Some(NormalizeProjection(env, data, tool).value), tool);
      && (p.status == Quarantined <==> !AllClean(cs)) && p.status != Failed
      && (p.status == Complete <==> AllClean(cs) && forall i :: 0 <= i < |cs| ==> cs[i].stamp.Some?)
      && (AllClean(cs) ==> p.counts.recognized == p.counts.total == |cs|)
  {
    hide Written, Parse, NormalizeProjection, AllClean, Lawful, Batch, Transcript, Kept;
    var form := KeptIsBatch(env, data, tool);
    BatchIsAccepted(env, form, Kept(env, tool, Transcript(env, data).value));
  }

  // ---- capturing a projection ----------------------------------------------

  function Renders(cs: seq<Captured>): seq<Object> {
    seq(|cs|, i requires 0 <= i < |cs| => Render(cs[i]))
  }

  lemma {:induction false} EventsOfWritten(env: Env, form: Form, cs: seq<Captured>)
    requires Lawful(env) && Batch(env, form, cs)
    ensures ReadEvents(env, Printed(env, cs)) == Ok(Renders(cs))
  {
    hide Render, ReadEvent, Tidy, Lawful;
    assert Renders([]) == [];
    if cs != [] {
      var n := |cs| - 1;
      EventsOfWritten(env, form, cs[..n]);
      WrittenLine(env, form, cs[n]);
      assert Printed(env, cs)[..n] == Printed(env, cs[..n]);
      assert Renders(cs) == Renders(cs[..n]) + [Render(cs[n])];
    }
  }

  lemma {:induction false} PicksOfWritten(env: Env, form: Form, cs: seq<Captured>)
    requires Batch(env, form, cs)
    ensures Picks(env, form, Renders(cs)) == cs
  {
    hide Render, Tidy, Capture;
    if cs != [] {
      var n := |cs| - 1;
      PicksOfWritten(env, form, cs[..n]);
      TidyAgrees(env, cs[n]);
      assert Renders(cs)[..n] == Renders(cs[..n]);
      assert cs == cs[..n] + [cs[n]];
    }
  }

  /** A rendered response item is no event message. */
  lemma NotAnEventMessage(env: Env, c: Captured)
    requires c.form == ResponseItem
    ensures Capture(env, EventMessage, Render(c)) == None
  {
  }

  lemma {:induction false} NoEventMessages(env: Env, cs: seq<Captured>)
    requires forall i :: 0 <= i < |cs| ==> cs[i].form == ResponseItem
    ensures Picks(env, EventMessage, Renders(cs)) == []
  {
    hide Render, Capture;
    if cs != [] {
      var n := |cs| - 1;
      NoEventMessages(env, cs[..n]);
      NotAnEventMessage(env, cs[n]);
      assert Renders(cs)[..n] == Renders(cs[..n]);
    }
  }

  lemma BatchTwice(env: Env, form: Form, cs: seq<Captured>)
    requires Lawful(env) && Batch(env, form, cs) && 0 < |cs| <= MAX_LINES
    ensures var again := NormalizeProjection(env, Written(env, cs), ToolOf(form));
            if AllClean(cs) then again == Ok(Written(env, cs)) else again.Err?
  {
    hide Lines, Encode, Render, ReadEvent, Tidy, Terminated, Picks, ReadEvents;
    var text := Terminated(Printed(env, cs));
    assert env.decode(Encode(text)) == Some(text);
    if AllClean(cs) {
      NarrowLines(env, form, cs);
      EventsOfWritten(env, form, cs);
      PicksOfWritten(env, form, cs);
      if form == ResponseItem { NoEventMessages(env, cs); }
    } else {
      var i := SplitEvent(env, form, cs);
      BadLine(env, Lines(TextBreaks(), text), i);
    }
  }

  /** Capturing a projection gives the very same bytes again, exactly when no kept
      text holds a raw separator; otherwise the projection is refused. */
  lemma {:induction false} CaptureTwice(env: Env, data: seq<byte>, tool: Tool)
    requires Lawful(env) && NormalizeProjection(env, data, tool).Ok?
    ensures Transcript(env, data).Ok?
    ensures var out := NormalizeProjection(env, data, tool).value;
            var again := NormalizeProjection(env, out, tool);
            if AllClean(Kept(env, tool, Transcript(env, data).value)) then again == Ok(out) else again.Err?
  {
    hide Written, NormalizeProjection, AllClean, Lawful, Batch, Transcript, Kept;
    var form := KeptIsBatch(env, data, tool);
    BatchTwice(env, form, Kept(env, tool, Transcript(env, data).value));
  }

  lemma BadLine(env: Env, lines: seq<string>, i: nat)
    requires i < |lines| && ReadEvent(env, lines[i]).Err?
    ensures ReadEvents(env, lines).Err?
  {
  }
}
