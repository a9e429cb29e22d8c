/** What a packet says of its source, line by line. */
module SessionReport {
  import opened Wrappers
  import opened Text
  import opened Json
  import opened SessionLines
  import opened SessionEvents
  import opened SessionParsing
  import opened SessionPackets
  import opened PacketComplaints
  import opened SessionAcceptance

  // ---- lines ---------------------------------------------------------------

  /** The line is a conversation event of this tool and role. */
  predicate Voices(env: Env, line: string, tool: Tool, role: Role) {
    Strip(line) != "" && env.read(line).Some? && env.read(line).value.Dict? && Speaking(env, env.read(line).value.entries, tool, role)
  }

  predicate Voiced(env: Env, line: string, tool: Tool) { Voices(env, line, tool, User) || Voices(env, line, tool, Assistant) }

  /** The timestamp of a line that is an event. */
  function TimeOf(env: Env, line: string): Option<string> {
    match env.read(line)
    case Some(Dict(event)) => NormalizeTimestamp(env, Get(event, "timestamp"))
    case _ => None
  }

  lemma {:induction false} LineIs(env: Env, line: string)
    ensures var l := ReadLine(env, line);
      && (l.BlankLine? <==> Strip(line) == "")
      && (l.Malformed? <==> Strip(line) != "" && env.read(line) == None)
      && (l.NotObject? <==> Strip(line) != "" && env.read(line).Some? && !env.read(line).value.Dict?)
      && (forall tool, role :: l.Recognized? && l.tool == tool && l.role == role <==> Voices(env, line, tool, role))
      && (l.Recognized? ==> l.stamp == TimeOf(env, line))
  {
    hide Classify, Strip, Speaking, NormalizeTimestamp;
    if env.read(line).Some? && env.read(line).value.Dict? {
      var event := env.read(line).value.entries;
      forall tool, role ensures Classify(env, event) == Accepted(tool, role) <==> Speaking(env, event, tool, role) {
        AcceptedIff(env, event, tool, role);
      }
    }
  }

  /** How many lines there are of a sort. */
  function Number(p: string -> bool, lines: seq<string>): nat {
    if lines == [] then 0 else Number(p, lines[..|lines| - 1]) + if p(lines[|lines| - 1]) then 1 else 0
  }

  /** The sorts of lines that the figures count. */
  function BlankLines(): string -> bool { line => Strip(line) == "" }

  function BrokenLines(env: Env): string -> bool { line => Strip(line) != "" && env.read(line) == None }

  function EventsOf(env: Env, tool: Tool): string -> bool { line => Voiced(env, line, tool) }

  function Events(env: Env): string -> bool { line => Voiced(env, line, Codex) || Voiced(env, line, ClaudeCode) }

  function EventsBy(env: Env, role: Role): string -> bool { line => Voices(env, line, Codex, role) || Voices(env, line, ClaudeCode, role) }

  function OtherLines(env: Env): string -> bool {
    line => Strip(line) != "" && env.read(line).Some? && !Voiced(env, line, Codex) && !Voiced(env, line, ClaudeCode)
  }

  function TimelessEvents(env: Env): string -> bool { line => Events(env)(line) && TimeOf(env, line).None? }

  lemma {:induction false} FiguresCount(env: Env, total: nat, lines: seq<string>)
    ensures var c := TallyAll(total, ReadLines(env, lines));
      && c.total == total && c.blank == Number(BlankLines(), lines) && c.malformed == Number(BrokenLines(env), lines)
      && c.unrecognized == Number(OtherLines(env), lines) && c.recognized == Number(Events(env), lines)
      && c.codex == Number(EventsOf(env, Codex), lines) && c.claude == Number(EventsOf(env, ClaudeCode), lines)
      && c.user == Number(EventsBy(env, User), lines) && c.assistant == Number(EventsBy(env, Assistant), lines)
      && c.missing == Number(TimelessEvents(env), lines)
  {
    hide ReadLine, Voices, TimeOf, Strip;
    if lines != [] {
      var n := |lines| - 1;
      FiguresCount(env, total, lines[..n]);
      assert ReadLines(env, lines)[..n] == ReadLines(env, lines[..n]) && ReadLines(env, lines)[n] == ReadLine(env, lines[n]);
      LineIs(env, lines[n]);
    }
  }

  // ---- status --------------------------------------------------------------

  /** Quarantined means: some line that is not blank is no conversation event of the
      declared tool. Otherwise complete means that there are lines, none blank, all
      timed. */
  lemma {:induction false} StatusExactly(env: Env, lines: seq<string>, tool: Tool)
    ensures var s := StatusOf(ReadLines(env, lines), tool);
            var foreign := exists i :: 0 <= i < |lines| && Strip(lines[i]) != "" && !Voiced(env, lines[i], tool);
            var gap := lines == [] || exists i :: 0 <= i < |lines| && (Strip(lines[i]) == "" || TimeOf(env, lines[i]).None?);
            s == if foreign then Quarantined else if gap then Partial else Complete
  {
    hide Strip, ReadLine, Tools, TallyAll, TimeOf, Voices, ToolFindings;
    var ls := ReadLines(env, lines);
    forall i | 0 <= i < |lines| ensures Foreign(ls[i], tool) <==> Strip(lines[i]) != "" && !Voiced(env, lines[i], tool)
      ensures (ls[i].BlankLine? <==> Strip(lines[i]) == "") && (ls[i].Recognized? ==> ls[i].stamp == TimeOf(env, lines[i]))
    {
      LineIs(env, lines[i]);
      assert ls[i] == ReadLine(env, lines[i]);
    }
    QuarantinedIff(ls, tool);
    CompleteIff(ls, tool);
    assert StatusOf(ls, tool) != Failed;
    assert (exists i :: 0 <= i < |ls| && Foreign(ls[i], tool))
        <==> exists i :: 0 <= i < |lines| && Strip(lines[i]) != "" && !Voiced(env, lines[i], tool);
    if !(exists i :: 0 <= i < |ls| && Foreign(ls[i], tool)) {
      forall i | 0 <= i < |ls| ensures ls[i].BlankLine? || (ls[i].Recognized? && ls[i].tool == tool) { assert !Foreign(ls[i], tool); }
    }
  }

  predicate Foreign(l: Line, tool: Tool) { !l.BlankLine? && !(l.Recognized? && l.tool == tool) }

  lemma {:induction false} QuarantinedIff(ls: seq<Line>, tool: Tool)
    ensures StatusOf(ls, tool) == Quarantined <==> exists i :: 0 <= i < |ls| && Foreign(ls[i], tool)
  {
    hide Tools, TallyAll;
    ToolsFacts(ls);
    if i :| 0 <= i < |ls| && Foreign(ls[i], tool) {
      if ls[i].Recognized? {
        assert ls[i].tool in Seen(ls[i]);
        if ToolFindings(Tools(ls), tool) == [] { OneTool(Tools(ls), tool, ls[i].tool); }
      } else {
        assert Quarantining(ls[i]);
      }
    } else {
      forall i | 0 <= i < |ls| ensures !Quarantining(ls[i]) && Seen(ls[i]) <= {tool} { assert !Foreign(ls[i], tool); }
      assert Tools(ls) <= {tool};
      AtMostOne(Tools(ls), tool);
    }
  }

  lemma AtMostOne(tools: set<Tool>, tool: Tool)
    requires tools <= {tool}
    ensures ToolFindings(tools, tool) == []
  {
    Smaller(tools, {tool});
    assert tools != {} ==> tool in tools by { if t :| t in tools { assert t == tool; } }
  }

  // ---- the packet ----------------------------------------------------------

  /** A source that can be read. */
  predicate Readable(env: Env, data: seq<byte>) {
    |data| <= 10485760 && |Lines(ByteBreaks(), data)| <= 10000 && env.decode(data).Some?
  }

  function LinesOf(env: Env, data: seq<byte>): seq<string>
    requires Readable(env, data)
  {
    Lines(TextBreaks(), env.decode(data).value)
  }

  /** Header, binding and evidence: source, digests, and the bytes' lines one by one. */
  lemma PacketNames(repo: Repo, path: string, tool: Tool, session: string, bound: BindingField)
    requires path in repo.files && Readable(repo.env, repo.files[path])
    ensures var p := Assemble(repo, path, tool, session, bound); var data := repo.files[path];
            var byteLines := Lines(ByteBreaks(), data);
      && p.source == SourceRef(Str(path), Str(repo.env.digest(data)), Int(|data|))
      && p.tool == Str(if tool == Codex then "codex" else "claude-code") && p.sessionId == Str(session) && p.binding == bound
      && p.evidence.Paths? && |p.evidence.values| == 1 + |byteLines| && p.evidence.values[0] == Str(path)
      && forall i :: 0 <= i < |byteLines| ==> p.evidence.values[i + 1] == Str("sha256:" + repo.env.digest(byteLines[i]))
  {
    hide Lines, ReadLines, Summary, AuditId, ItemsOf, FiguresOf, StatusName, Unique;
    SummaryHashes(repo.env, repo.files[path], tool);
  }

  lemma SummaryHashes(env: Env, data: seq<byte>, tool: Tool)
    requires Readable(env, data)
    ensures Parse(env, Some(data), tool) == Summary(ReadLines(env, LinesOf(env, data)), tool, Hashes(env, Lines(ByteBreaks(), data)))
    ensures Parse(env, Some(data), tool).hashes == Hashes(env, Lines(ByteBreaks(), data))
  {
    hide Lines, ReadLines, StatusOf, FindingsOf, TallyAll, Stamps;
  }

  /** Status, mode and use: consumable means complete and bound. */
  lemma {:induction false} PacketStatus(repo: Repo, path: string, tool: Tool, session: string, bound: BindingField)
    requires path in repo.files && Readable(repo.env, repo.files[path])
    ensures var p := Assemble(repo, path, tool, session, bound); var lines := LinesOf(repo.env, repo.files[path]);
            var foreign := exists i :: 0 <= i < |lines| && Strip(lines[i]) != "" && !Voiced(repo.env, lines[i], tool);
            var gap := lines == [] || exists i :: 0 <= i < |lines| && (Strip(lines[i]) == "" || TimeOf(repo.env, lines[i]).None?);
      && p.captureStatus == Str(if foreign then "quarantined" else if gap then "partial" else "complete")
      && p.consumable == Bool(!foreign && !gap && bound.Bound?)
      && p.repairClass == Str(if foreign || gap then "proposal_only" else "none")
  {
    hide Lines, ReadLines, StatusOf, FindingsOf, TallyAll, Stamps, Strip, Voiced, TimeOf, Unique, AuditId, ItemsOf, FiguresOf, EvidenceOf;
    SummaryHashes(repo.env, repo.files[path], tool);
    StatusExactly(repo.env, LinesOf(repo.env, repo.files[path]), tool);
  }

  /** What of the packet is read from the lines. */
  lemma PacketReads(repo: Repo, path: string, tool: Tool, session: string, bound: BindingField)
    requires path in repo.files && Readable(repo.env, repo.files[path])
    ensures var p := Assemble(repo, path, tool, session, bound);
            var ls := ReadLines(repo.env, LinesOf(repo.env, repo.files[path]));
      && p.eventCounts == FiguresOf(TallyAll(|ls|, ls)) && p.bounds == Between(Stamp(Least(Stamps(ls))), Stamp(Greatest(Stamps(ls))))
  {
    hide Lines, ReadLines, StatusOf, FindingsOf, TallyAll, Stamps, Unique, AuditId, ItemsOf, FiguresOf, EvidenceOf, Least, Greatest;
    SummaryHashes(repo.env, repo.files[path], tool);
  }

  /** Each figure is a number of lines. */
  lemma {:induction false} PacketFigures(repo: Repo, path: string, tool: Tool, session: string, bound: BindingField)
    requires path in repo.files && Readable(repo.env, repo.files[path])
    ensures var p := Assemble(repo, path, tool, session, bound); var env := repo.env;
            var lines := LinesOf(env, repo.files[path]); var c := p.eventCounts;
      && c.Figures? && c.total == Int(|lines|)
      && c.blank == Int(Number(BlankLines(), lines)) && c.malformed == Int(Number(BrokenLines(env), lines))
      && c.unrecognized == Int(Number(OtherLines(env), lines)) && c.recognized == Int(Number(Events(env), lines))
      && c.codex == Int(Number(EventsOf(env, Codex), lines)) && c.claude == Int(Number(EventsOf(env, ClaudeCode), lines))
      && c.user == Int(Number(EventsBy(env, User), lines)) && c.assistant == Int(Number(EventsBy(env, Assistant), lines))
      && c.missing == Int(Number(TimelessEvents(env), lines))
  {
    hide Assemble, LinesOf, ReadLine, TallyAll, Number, Readable;
    var env, lines := repo.env, LinesOf(repo.env, repo.files[path]);
    PacketReads(repo, path, tool, session, bound);
    FiguresCount(env, |lines|, lines);
  }

  /** The line is a timed conversation event. */
  predicate TimedAt(env: Env, line: string, t: string) {
    (Voiced(env, line, Codex) || Voiced(env, line, ClaudeCode)) && TimeOf(env, line) == Some(t)
  }

  /** Some line is an event of this time. */
  predicate TimeIn(env: Env, lines: seq<string>, t: string) { exists i :: 0 <= i < |lines| && TimedAt(env, lines[i], t) }

  lemma {:induction false} StampsAre(env: Env, lines: seq<string>, t: string)
    ensures t in Stamps(ReadLines(env, lines)) <==> TimeIn(env, lines, t)
  {
    hide ReadLine, Voices, TimeOf;
    if lines != [] {
      var n := |lines| - 1;
      StampsAre(env, lines[..n], t);
      LineIs(env, lines[n]);
      assert ReadLines(env, lines)[..n] == ReadLines(env, lines[..n]) && ReadLines(env, lines)[n] == ReadLine(env, lines[n]);
      assert forall i :: 0 <= i < n ==> lines[..n][i] == lines[i];
      assert (t in Stamps(ReadLines(env, lines))) <==> t in Stamps(ReadLines(env, lines[..n])) || TimedAt(env, lines[n], t);
    }
  }

  /** The bounds are times of the source that enclose all its others, the earlier first;
      without a timed event both are null. */
  lemma {:induction false} PacketBounds(repo: Repo, path: string, tool: Tool, session: string, bound: BindingField)
    requires path in repo.files && Readable(repo.env, repo.files[path])
    ensures var p := Assemble(repo, path, tool, session, bound); var lines := LinesOf(repo.env, repo.files[path]); var b := p.bounds;
      && b.Between?
      && (b == Between(Null, Null) || (b.first.Str? && b.last.Str? && AtMost(b.first.s, b.last.s)))
      && (b.first.Str? ==> TimeIn(repo.env, lines, b.first.s)) && (b.last.Str? ==> TimeIn(repo.env, lines, b.last.s))
      && forall t :: TimeIn(repo.env, lines, t) ==> b.first.Str? && b.last.Str? && AtMost(b.first.s, t) && AtMost(t, b.last.s)
  {
    hide Assemble, ReadLines, Stamps, TimeIn, Least, Greatest, Readable, LinesOf, AtMost;
    var lines := LinesOf(repo.env, repo.files[path]);
    PacketReads(repo, path, tool, session, bound);
    var ts := Stamps(ReadLines(repo.env, lines));
    BoundsEnclose(ts);
    forall t ensures t in ts <==> TimeIn(repo.env, lines, t) { StampsAre(repo.env, lines, t); }
    if ts != [] { assert Least(ts).value in ts && Greatest(ts).value in ts; }
  }

  // ---- findings ------------------------------------------------------------

  /** Some line shows the tool, whether its event is accepted or refused. */
  predicate Shows(ls: seq<Line>, tool: Tool) {
    exists i :: 0 <= i < |ls| && ((ls[i].Recognized? && ls[i].tool == tool) || (ls[i].Refused? && ls[i].seen == Some(tool)))
  }

  /** What each finding means. */
  predicate Found(ls: seq<Line>, tool: Tool, code: Code) {
    match code
    case BlankJsonlLine => exists i :: 0 <= i < |ls| && ls[i].BlankLine?
    case MalformedJsonl => exists i :: 0 <= i < |ls| && ls[i].Malformed?
    case NonObjectEvent => exists i :: 0 <= i < |ls| && ls[i].NotObject?
    case Refusal(why) => exists i :: 0 <= i < |ls| && ls[i].Refused? && ls[i].why == why
    case MissingTimestamp => exists i :: 0 <= i < |ls| && ls[i].Recognized? && ls[i].stamp.None?
    case EmptyProjection => !(exists i :: 0 <= i < |ls| && ls[i].Recognized?)
    case MixedToolSchemas => Shows(ls, Codex) && Shows(ls, ClaudeCode)
    case DeclaredToolMismatch => !Shows(ls, tool) && (Shows(ls, Codex) || Shows(ls, ClaudeCode))
    case _ => false
  }

  lemma {:induction false} NotedIff(ls: seq<Line>, tool: Tool, code: Code)
    ensures code in Notes(ls) <==> code !in {EmptyProjection, MixedToolSchemas, DeclaredToolMismatch} && Found(ls, tool, code)
  {
    hide Notes;
    NotesFacts(ls);
    if i :| 0 <= i < |ls| && code in Note(ls[i]) { assert ls[i] == ls[i]; }
  }

  lemma {:induction false} ToolsIff(ls: seq<Line>, tool: Tool, code: Code)
    requires code in {MixedToolSchemas, DeclaredToolMismatch}
    ensures code in ToolFindings(Tools(ls), tool) <==> Found(ls, tool, code)
  {
    hide Tools;
    ToolsFacts(ls);
    forall t ensures t in Tools(ls) <==> Shows(ls, t) {
      if i :| 0 <= i < |ls| && t in Seen(ls[i]) { assert ls[i] == ls[i]; }
      if Shows(ls, t) {
        var i :| 0 <= i < |ls| && ((ls[i].Recognized? && ls[i].tool == t) || (ls[i].Refused? && ls[i].seen == Some(t)));
        assert t in Seen(ls[i]);
      }
    }
    HowMany(Tools(ls));
  }

  lemma HowMany(tools: set<Tool>)
    ensures |tools| > 1 <==> Codex in tools && ClaudeCode in tools
    ensures tools != {} <==> Codex in tools || ClaudeCode in tools
  {
    assert forall t: Tool :: t in tools ==> t == Codex || t == ClaudeCode;
    if Codex in tools && ClaudeCode in tools {
      assert {Codex, ClaudeCode} <= tools;
      Smaller({Codex, ClaudeCode}, tools);
    } else if Codex in tools {
      assert tools == {Codex};
    } else if ClaudeCode in tools {
      assert tools == {ClaudeCode};
    } else {
      assert tools == {};
    }
  }

  /** Each finding is reported exactly if the source shows it. */
  lemma {:induction false} FindingsExactly(ls: seq<Line>, tool: Tool, code: Code)
    ensures code in FindingsOf(ls, tool) <==> Found(ls, tool, code)
  {
    hide Unique, Notes, Tools, TallyAll, Shows;
    UniqueFacts(Notes(ls) + ToolFindings(Tools(ls), tool) + if TallyAll(0, ls).recognized == 0 then [EmptyProjection] else []);
    NotedIff(ls, tool, code);
    SomeRecognized(ls);
    if code in {MixedToolSchemas, DeclaredToolMismatch} { ToolsIff(ls, tool, code); }
    assert code in ToolFindings(Tools(ls), tool) ==> code in {MixedToolSchemas, DeclaredToolMismatch};
  }

  function CodesFor(ls: seq<Line>, tool: Tool, bound: BindingField): seq<Code> {
    Unique(FindingsOf(ls, tool) + if bound == Ambiguous then [AmbiguousBinding] else [])
  }

  lemma PacketCodes(repo: Repo, path: string, tool: Tool, session: string, bound: BindingField)
    requires path in repo.files && Readable(repo.env, repo.files[path])
    ensures var ls := ReadLines(repo.env, LinesOf(repo.env, repo.files[path]));
            Assemble(repo, path, tool, session, bound).findings == Items(ItemsOf(CodesFor(ls, tool, bound)))
  {
    hide Lines, ReadLines, StatusOf, FindingsOf, TallyAll, Stamps, AuditId, FiguresOf, EvidenceOf, Unique, ItemsOf;
    SummaryHashes(repo.env, repo.files[path], tool);
    var ls := ReadLines(repo.env, LinesOf(repo.env, repo.files[path]));
    assert FindingsOf(ls, tool) + [] == FindingsOf(ls, tool);
  }

  lemma {:induction false} CodesExactly(ls: seq<Line>, tool: Tool, bound: BindingField, code: Code)
    ensures code in CodesFor(ls, tool, bound) <==> if code == AmbiguousBinding then bound == Ambiguous else Found(ls, tool, code)
  {
    hide FindingsOf, Unique, Found;
    UniqueFacts(FindingsOf(ls, tool) + if bound == Ambiguous then [AmbiguousBinding] else []);
    FindingsExactly(ls, tool, code);
    NeverAmbiguous(ls, tool);
  }

  /** The packet lists each finding of its source once, and the ambiguous binding. */
  lemma {:induction false} PacketFindings(repo: Repo, path: string, tool: Tool, session: string, bound: BindingField, code: Code)
    requires path in repo.files && Readable(repo.env, repo.files[path])
    ensures var p := Assemble(repo, path, tool, session, bound); var ls := ReadLines(repo.env, LinesOf(repo.env, repo.files[path]));
      && p.findings.Items?
      && (forall i, j :: 0 <= i < j < |p.findings.items| ==> p.findings.items[i] != p.findings.items[j])
      && ((exists i :: 0 <= i < |p.findings.items| && p.findings.items[i].Finding? && p.findings.items[i].code == code) <==>
            (if code == AmbiguousBinding then bound == Ambiguous else Found(ls, tool, code)))
  {
    hide Assemble, LinesOf, ReadLines, FindingsOf, Unique, Found, Message, Severity, EvidenceClass, CodesFor, Readable;
    var ls := ReadLines(repo.env, LinesOf(repo.env, repo.files[path]));
    PacketCodes(repo, path, tool, session, bound);
    CodesExactly(ls, tool, bound, code);
    var codes := CodesFor(ls, tool, bound);
    var items := ItemsOf(codes);
    forall i, j | 0 <= i < j < |codes| ensures codes[i] != codes[j] { OnceEach(ls, tool, bound); }
    assert forall i :: 0 <= i < |codes| ==> items[i].Finding? && items[i].code == codes[i];
    if code in codes {
      var i :| 0 <= i < |codes| && codes[i] == code;
      assert items[i].code == code;
    }
  }

  lemma OnceEach(ls: seq<Line>, tool: Tool, bound: BindingField)
    ensures forall i, j :: 0 <= i < j < |CodesFor(ls, tool, bound)| ==> CodesFor(ls, tool, bound)[i] != CodesFor(ls, tool, bound)[j]
  {
    hide FindingsOf, Unique;
    UniqueFacts(FindingsOf(ls, tool) + if bound == Ambiguous then [AmbiguousBinding] else []);
  }

  lemma NeverAmbiguous(ls: seq<Line>, tool: Tool)
    ensures !Found(ls, tool, AmbiguousBinding)
  {
  }

  // ---- building ------------------------------------------------------------

  predicate Fit(name: Option<string>) { name.Some? ==> Identifier(Str(name.value)) }

  /** When a packet is built, and under which name and binding: a cycle and a task bind it,
      one of the two makes it ambiguous, none leaves it unbound. */
  lemma {:induction false} BuildExactly(
    repo: Repo, path: string, tool: Tool, session: Option<string>, cycle: Option<string>, task: Option<string>)
    requires path in repo.files
    ensures match BuildPacket(repo, path, tool, session, cycle, task)
            case Err(why) =>
              why == (if !Fit(session) then "session-id must be a path-safe identifier"
                      else if !Fit(cycle) then "cycle_id must be a path-safe identifier"
                      else "task_id must be a path-safe identifier")
              && !(Fit(session) && Fit(cycle) && Fit(task))
            case Ok(p) =>
              && Fit(session) && Fit(cycle) && Fit(task)
              && (cycle.Some? && task.Some? ==> p.binding == Bound(Str(cycle.value), Str(task.value)))
              && (cycle.Some? != task.Some? ==> p.binding == Ambiguous) && (cycle.None? && task.None? ==> p.binding == Unbound)
              && (session.Some? ==> p.sessionId == Str(session.value))
              && (session.None? ==>
                    var d := repo.env.digest(Encode(path)); p.sessionId == Str("session-" + if |d| > 24 then d[..24] else d))
  {
    hide Identifier, SafeId, Encode, Assemble;
    if Fit(session) && MakeBinding(cycle, task).Ok? {
      NamedSo(repo, path, tool, if session.Some? then session.value else "session-" + Take(repo.env.digest(Encode(path)), 24),
              MakeBinding(cycle, task).value);
    }
    if session.Some? { IdentifierIff(Str(session.value)); }
    if cycle.Some? { IdentifierIff(Str(cycle.value)); }
    if task.Some? { IdentifierIff(Str(task.value)); }
  }

  lemma NamedSo(repo: Repo, path: string, tool: Tool, session: string, bound: BindingField)
    requires path in repo.files
    ensures Assemble(repo, path, tool, session, bound).sessionId == Str(session) && Assemble(repo, path, tool, session, bound).binding == bound
  {
    hide Parse, Unique, AuditId, ItemsOf, FiguresOf, EvidenceOf;
  }

  /** The one finding of a source that cannot be read. */
  function Trouble(env: Env, data: seq<byte>): Code
    requires !Readable(env, data)
  {
    if |data| > 10485760 then SourceTooLarge
    else if |Lines(ByteBreaks(), data)| > 10000 then SourceTooManyLines
    else InvalidUtf8
  }

  /** A source that cannot be read gives a failed packet of unknown mode with that one
      finding, no figures but the total, no bounds, and line digests only if it was cut
      into lines. */
  lemma {:induction false} PacketUnread(repo: Repo, path: string, tool: Tool, session: string, bound: BindingField)
    requires path in repo.files && !Readable(repo.env, repo.files[path])
    ensures var p := Assemble(repo, path, tool, session, bound); var data := repo.files[path]; var why := Trouble(repo.env, data);
            var lines := if why == SourceTooLarge then 0 else |Lines(ByteBreaks(), data)|;
      && p.captureStatus == Str("failed") && p.captureMode == Str("unknown") && p.consumable == Bool(false)
      && p.repairClass == Str("proposal_only") && p.bounds == Between(Null, Null)
      && p.eventCounts == Figures(Int(lines), Int(0), Int(0), Int(0), Int(0), Int(0), Int(0), Int(0), Int(0), Int(0), Int(0))
      && p.findings.Items? && |p.findings.items| == (if bound == Ambiguous then 2 else 1)
      && p.findings.items[0] == ItemOf(why) && (bound == Ambiguous ==> p.findings.items[1] == ItemOf(AmbiguousBinding))
      && p.evidence.Paths? && |p.evidence.values| == 1 + (if why == InvalidUtf8 then lines else 0)
      && forall i :: 1 <= i < |p.evidence.values| ==> p.evidence.values[i] == Str("sha256:" + repo.env.digest(Lines(ByteBreaks(), data)[i - 1]))
  {
    hide Lines, AuditId, ItemOf, ReadLines, Summary, Unique;
    var why := Trouble(repo.env, repo.files[path]);
    assert Unique([why]) == [why] by { OnlyOne(why); }
    assert Unique([why] + [AmbiguousBinding]) == [why, AmbiguousBinding] by { OnlyTwo(why, AmbiguousBinding); }
  }

  lemma OnlyOne(code: Code)
    ensures Unique([code]) == [code]
  {
    assert [code][..0] == [];
  }

  lemma OnlyTwo(a: Code, b: Code)
    requires a != b
    ensures Unique([a] + [b]) == [a, b]
  {
    OnlyOne(a);
    assert ([a] + [b])[..1] == [a] && ([a] + [b])[1] == b;
  }

  // ---- the findings table --------------------------------------------------

  /** A finding blocks unless it is about a blank line or about something that is missing;
      its evidence is absence in the latter case. */
  lemma FindingWeighs(code: Code)
    ensures var item := ItemOf(code); var missing := code == MissingTimestamp || code == EmptyProjection || code == AmbiguousBinding;
      && item.code == code && item.resolved == Bool(false)
      && item.severity == (if missing || code == BlankJsonlLine then Str("warn") else Str("block"))
      && item.evidenceClass == (if missing then Str("absence_unknown") else Str("transcript_observation"))
  {
    hide Message;
  }

  function Length(code: Code): nat {
    match code
    case SourceTooLarge => 43
    case SourceTooManyLines => 44
    case InvalidUtf8 => 27
    case MalformedJsonl => 32
    case BlankJsonlLine => 32
    case NonObjectEvent => 31
    case Refusal(UnsupportedSchema) => 48
    case Refusal(RawOrToolEvent) => 55
    case Refusal(UnrecognizedEvent) => 58
    case MixedToolSchemas => 48
    case DeclaredToolMismatch => 49
    case MissingTimestamp => 54
    case EmptyProjection => 45
    case AmbiguousBinding => 49
  }

  lemma MessageLength(code: Code)
    ensures |Message(code)| == Length(code)
  {
  }

  /** The messages of equal length differ in their last letter. */
  lemma EqualLengths()
    ensures Message(MalformedJsonl) != Message(BlankJsonlLine)
    ensures Message(Refusal(UnsupportedSchema)) != Message(MixedToolSchemas)
    ensures Message(DeclaredToolMismatch) != Message(AmbiguousBinding)
  {
    assert Message(MalformedJsonl)[30] == 'N' && Message(BlankJsonlLine)[30] == 'd';
    assert Message(Refusal(UnsupportedSchema))[46] == 'n' && Message(MixedToolSchemas)[46] == 'd';
    assert Message(DeclaredToolMismatch)[47] == 'l' && Message(AmbiguousBinding)[47] == 'r';
  }

  /** No two findings share a message. */
  lemma {:induction false} MessagesTellApart(a: Code, b: Code)
    ensures Message(a) == Message(b) <==> a == b
  {
    hide Message;
    MessageLength(a);
    MessageLength(b);
    EqualLengths();
  }
}
