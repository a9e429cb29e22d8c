/** Packets and their sources: a fresh packet validates unless text and bytes
    disagree about lines, and a packet that validates is the one its source gives. */
module SessionValidation {
  import opened Wrappers
  import opened Json
  import opened SessionLines
  import opened SessionEvents
  import opened SessionParsing
  import opened SessionCapture
  import opened SessionPackets

  /** Canonical paths lead to themselves, digests are 64 hex digits, and normal
      timestamps stay as they are. */
  ghost predicate Sound(repo: Repo) {
    && LocatesFiles(repo)
    && (forall q :: q in repo.files ==> repo.locate(q) == Some(q))
    && (forall q :: q in repo.files ==> q != "" && repo.posix(q) == q && repo.local(q))
    && (forall b :: HexText(repo.env.digest(b), 64))
    && StampsOnce(repo.env)
  }

  // ---- what parsing hands to the packet ------------------------------------

  /** Where both cuts are made, they give equally many lines. */
  predicate LinesAgree(env: Env, data: seq<byte>) {
    |data| <= MAX_BYTES && |Lines(ByteBreaks(), data)| <= MAX_LINES && env.decode(data).Some? ==>
      |Lines(TextBreaks(), env.decode(data).value)| == |Lines(ByteBreaks(), data)|
  }

  predicate TooBig(codes: seq<Code>) { SourceTooLarge in codes || SourceTooManyLines in codes }

  lemma SummaryNotTooBig(ls: seq<Line>, tool: Tool)
    ensures !TooBig(FindingsOf(ls, tool))
  {
    hide Unique, Notes, Tools, TallyAll;
    UniqueFacts(Notes(ls) + ToolFindings(Tools(ls), tool)
                + if TallyAll(0, ls).recognized == 0 then [EmptyProjection] else []);
    NotesFacts(ls);
  }

  /** The hashes answer to the line count exactly when the cuts agree. */
  lemma {:induction false} ParsedHashes(repo: Repo, data: seq<byte>, tool: Tool)
    requires Sound(repo)
    ensures var p := Parse(repo.env, Snapshot(data), tool);
      && (forall i :: 0 <= i < |p.hashes| ==> HexText(p.hashes[i], 64))
      && (TooBig(p.findings) ==> p.status == Failed && p.hashes == [] && LinesAgree(repo.env, data))
      && (!TooBig(p.findings) ==> (|p.hashes| == p.counts.total <==> LinesAgree(repo.env, data)))
  {
    hide Lines, ReadLine, StatusOf, FindingsOf, TallyAll, HexText, Stamps;
    if |data| <= MAX_BYTES && |Lines(ByteBreaks(), data)| <= MAX_LINES && repo.env.decode(data).Some? {
      var ls := ReadLines(repo.env, Lines(TextBreaks(), repo.env.decode(data).value));
      SummaryNotTooBig(ls, tool);
      TotalAside(|ls|, ls);
    }
  }

  lemma {:induction false} StampsAreNormal(env: Env, lines: seq<string>)
    requires StampsOnce(env)
    ensures forall t :: t in Stamps(ReadLines(env, lines)) ==> NormalStamp(env, Str(t))
  {
    hide Classify;
    if lines != [] {
      var n := |lines| - 1;
      StampsAreNormal(env, lines[..n]);
      assert ReadLines(env, lines)[..n] == ReadLines(env, lines[..n]);
    }
  }

  lemma {:induction false} ParsedBounds(repo: Repo, data: seq<byte>, tool: Tool)
    requires Sound(repo)
    ensures var p := Parse(repo.env, Snapshot(data), tool);
            BoundsWellFormed(repo.env, Between(Stamp(p.first), Stamp(p.last)))
  {
    hide Lines, ReadLines, StatusOf, FindingsOf, TallyAll, Stamps, Least, Greatest, NormalizeTimestamp;
    if |data| <= MAX_BYTES && |Lines(ByteBreaks(), data)| <= MAX_LINES && repo.env.decode(data).Some? {
      var lines := Lines(TextBreaks(), repo.env.decode(data).value);
      StampsAreNormal(repo.env, lines);
      BoundsEnclose(Stamps(ReadLines(repo.env, lines)));
    }
  }

  // ---- a fresh packet ------------------------------------------------------

  lemma AssembledHeader(repo: Repo, path: string, tool: Tool, session: string, bound: BindingField)
    requires path in repo.files
    ensures var p := Assemble(repo, path, tool, session, bound);
            var parsed := Parse(repo.env, Snapshot(repo.files[path]), tool);
      && p.formatVersion == Int(1) && p.artifactKind == Str("session_governance_audit")
      && p.parserVersion == Str("session-audit/1") && p.tool == Str(ToolName(tool)) && p.sessionId == Str(session)
      && p.notGoalTruth == Bool(true) == p.notValidationEvidence && p.integrityStatus == Str("source_hash_only")
      && p.captureMode == Str(if parsed.conversation then "conversation_projection" else "unknown")
      && p.captureStatus == Str(StatusName(parsed.status))
      && p.source == SourceRef(Str(path), Str(repo.env.digest(repo.files[path])), Int(|repo.files[path]|))
      && p.auditId == Str(AuditId(repo, p.(auditId := Null)))
  {
  }

  lemma {:induction false} FreshHeader(repo: Repo, path: string, tool: Tool, session: string, bound: BindingField)
    requires Sound(repo) && path in repo.files && SafeId(session)
    ensures HeaderErrors(repo, Assemble(repo, path, tool, session, bound)) == []
  {
    hide Assemble, Parse, HexText, SafeId, AuditId, ToolName, ToolNamed, AuditIdText, StampsOnce;
    var p := Assemble(repo, path, tool, session, bound);
    AssembledHeader(repo, path, tool, session, bound);
    AuditIdShape(repo, p.(auditId := Null));
    ToolNames(tool);
  }

  lemma AuditIdShape(repo: Repo, p: Packet)
    requires Sound(repo)
    ensures AuditIdText(AuditId(repo, p)) && AuditId(repo, p) == AuditId(repo, p.(auditId := Null))
  {
  }

  lemma FreshBinding(repo: Repo, path: string, tool: Tool, session: string, bound: BindingField)
    requires path in repo.files && (bound.Bound? || bound == Ambiguous || bound == Unbound)
    requires bound.Bound? ==> bound.cycle.Str? && SafeId(bound.cycle.s) && bound.task.Str? && SafeId(bound.task.s)
    ensures BindingErrors(Assemble(repo, path, tool, session, bound)) == []
  {
    hide Parse, Unique, SafeId, ItemsOf, FiguresOf, EvidenceOf, AuditId, StatusName;
    StatusNames(Parse(repo.env, Snapshot(repo.files[path]), tool).status);
    assert |"bound"| == 5 && |"ambiguous"| == 9 && |"unbound"| == 7;
  }

  lemma StatusNames(s: Status)
    ensures (StatusName(s) == "complete" <==> s == Complete) && (StatusName(s) == "failed" <==> s == Failed)
  {
  }

  lemma {:induction false} FreshItems(codes: seq<Code>)
    ensures AllItemErrors(ItemsOf(codes)) == []
  {
    hide Message, Severity, EvidenceClass;
    if codes != [] {
      FreshItems(codes[..|codes| - 1]);
      assert ItemsOf(codes)[..|codes| - 1] == ItemsOf(codes[..|codes| - 1]);
    }
  }

  function CodesOf(parsed: Parsed, bound: BindingField): seq<Code> {
    if bound == Ambiguous then Unique(parsed.findings + [AmbiguousBinding]) else Unique(parsed.findings)
  }

  lemma FreshOversized(parsed: Parsed, bound: BindingField)
    ensures Oversized(ItemsOf(CodesOf(parsed, bound))) <==> TooBig(parsed.findings)
  {
    hide Unique, Message, Severity, EvidenceClass;
    UniqueFacts(parsed.findings + [AmbiguousBinding]);
    UniqueFacts(parsed.findings);
    var codes := CodesOf(parsed, bound);
    var items := ItemsOf(codes);
    assert forall i :: 0 <= i < |codes| ==> items[i].Finding? && items[i].code == codes[i];
    if TooBig(parsed.findings) {
      var c :| c in {SourceTooLarge, SourceTooManyLines} && c in codes;
      var i :| 0 <= i < |codes| && codes[i] == c;
      assert items[i].code == c;
    }
    if Oversized(items) {
      var i :| 0 <= i < |items| && items[i].Finding? && items[i].code in {SourceTooLarge, SourceTooManyLines};
      assert codes[i] in codes;
    }
  }

  lemma FreshEvidence(repo: Repo, path: string, hashes: seq<string>)
    requires Sound(repo) && path in repo.files && forall i :: 0 <= i < |hashes| ==> HexText(hashes[i], 64)
    ensures var e := EvidenceOf(path, hashes);
      && |e| == |hashes| + 1 && e[0] == Str(path)
      && (forall i :: 0 <= i < |e| ==> e[i].Str? && e[i].s != "") && forall i :: 0 < i < |e| ==> HashPath(e[i])
  {
  }

  /** Of all the checks on a fresh packet's observations only the count of event
      hashes can fail, and it fails exactly when the two cuts disagree. */
  lemma {:induction false} FreshObservations(repo: Repo, path: string, tool: Tool, session: string, bound: BindingField)
    requires Sound(repo) && path in repo.files
    ensures ObservationErrors(repo, Assemble(repo, path, tool, session, bound))
         == When(!LinesAgree(repo.env, repo.files[path]), "event-hash count is inconsistent")
  {
    hide Parse, Unique, ItemsOf, AuditId, EvidenceOf, HashPath, BoundsWellFormed, LinesAgree, TooBig, Oversized,
      AllItemErrors, HexText, StampsOnce;
    var data := repo.files[path];
    var parsed := Parse(repo.env, Snapshot(data), tool);
    var p := Assemble(repo, path, tool, session, bound);
    ParsedHashes(repo, data, tool);
    ParsedBounds(repo, data, tool);
    FreshItems(CodesOf(parsed, bound));
    FreshOversized(parsed, bound);
    FreshEvidence(repo, path, parsed.hashes);
    StatusNames(parsed.status);
    AuditIdShape(repo, p);
  }

  /** A binding as the builder makes it. */
  predicate Made(bound: BindingField) {
    match bound
    case Bound(cycle, task) => cycle.Str? && SafeId(cycle.s) && task.Str? && SafeId(task.s)
    case Ambiguous => true
    case Unbound => true
    case OtherBinding(_) => false
  }

  /** The validator's reconstruction of the binding arguments gives the binding back;
      an ambiguous one through a stand-in cycle. */
  lemma MadeAgain(bound: BindingField)
    requires Made(bound)
    ensures MakeBinding(CycleOf(bound), TaskOf(bound)) == Ok(bound)
    ensures BindingStatus(bound) in {Some("bound"), Some("ambiguous"), Some("unbound")}
  {
  }

  lemma ToolNames(tool: Tool)
    ensures ToolNamed(Str(ToolName(tool))) == Some(tool)
  {
  }

  lemma {:induction false} FreshSource(repo: Repo, path: string, tool: Tool, session: string, bound: BindingField)
    requires Sound(repo) && path in repo.files && SafeId(session) && Made(bound)
    ensures SourceErrors(repo, Assemble(repo, path, tool, session, bound)) == []
  {
    hide Parse, Unique, ItemsOf, FiguresOf, EvidenceOf, AuditId, SafeId, MakeBinding, CycleOf, TaskOf, BindingStatus,
      HexText, StampsOnce, Level, ToolName, ToolNamed, Made;
    ToolNames(tool);
    MadeAgain(bound);
  }

  lemma SessionName(repo: Repo, path: string)
    requires Sound(repo)
    ensures SafeId("session-" + Take(repo.env.digest(Encode(path)), 24))
  {
  }

  /** A packet just built from a source gets no complaint from the validator if the
      text and the bytes agree about lines; otherwise it gets exactly one. */
  lemma {:induction false} FreshPacketValidatesIff(
    repo: Repo, path: string, tool: Tool, session: Option<string>, cycle: Option<string>, task: Option<string>)
    requires Sound(repo) && path in repo.files
    ensures var p := BuildPacket(repo, path, tool, session, cycle, task);
            p.Ok? ==>
              Validate(repo, p.value) == When(!LinesAgree(repo.env, repo.files[path]), "event-hash count is inconsistent")
  {
    hide Sound, SafeId, Assemble, HeaderErrors, BindingErrors, ObservationErrors, SourceErrors, LinesAgree;
    var built := BuildPacket(repo, path, tool, session, cycle, task);
    if built.Ok? {
      var bound := MakeBinding(cycle, task).value;
      SessionName(repo, path);
      var name := if session.Some? then session.value else "session-" + Take(repo.env.digest(Encode(path)), 24);
      FreshHeader(repo, path, tool, name, bound);
      FreshBinding(repo, path, tool, name, bound);
      FreshObservations(repo, path, tool, name, bound);
      FreshSource(repo, path, tool, name, bound);
    }
  }

  /** For a readable source that means: no exotic separator before the last
      character. */
  lemma LinesAgreeIff(env: Env, t: string)
    requires env.decode(Encode(t)) == Some(t)
    requires |Encode(t)| <= MAX_BYTES && |Lines(ByteBreaks(), Encode(t))| <= MAX_LINES
    ensures LinesAgree(env, Encode(t)) <==> forall i :: 0 <= i < |t| - 1 ==> !Exotic(t[i])
  {
    hide Lines, Encode, Exotic;
    LineCountsAgreeIff(t);
  }

  // ---- a packet that validates ---------------------------------------------

  /** A packet says where it comes from, in well-formed words. */
  predicate Claims(repo: Repo, p: Packet) {
    && p.source.SourceRef? && p.source.path.Str? && p.source.path.s in repo.files
    && ToolNamed(p.tool).Some? && p.sessionId.Str? && SafeId(p.sessionId.s) && Made(p.binding)
  }

  /** The packet that source, tool, session and binding give when built afresh. */
  function Rebuilt(repo: Repo, p: Packet): Packet
    requires Claims(repo, p)
  {
    Assemble(repo, p.source.path.s, ToolNamed(p.tool).value, p.sessionId.s, p.binding)
  }

  /** How a packet may spell its version: Python takes all three for 1. */
  predicate One(j: Json) { j in {Int(1), Real(1.0), Bool(true)} }

  /** Truth values are truth values and counts are integers, the version aside. */
  predicate Strict(p: Packet) {
    && p.consumable.Bool? && p.notGoalTruth.Bool? && p.notValidationEvidence.Bool? && p.autoRepairAllowed.Bool?
    && p.source.SourceRef? && p.source.size.Int? && p.findings.Items? && StrictCounts(p.eventCounts)
    && forall i :: 0 <= i < |p.findings.items| ==> p.findings.items[i].Finding? && p.findings.items[i].resolved.Bool?
  }

  predicate StrictCounts(c: CountsField) {
    && c.Figures? && c.total.Int? && c.recognized.Int? && c.unrecognized.Int? && c.malformed.Int? && c.blank.Int?
    && c.user.Int? && c.assistant.Int? && c.codex.Int? && c.claude.Int? && c.missing.Int? && c.raw.Int?
  }

  lemma SameItems(xs: seq<Item>, ys: seq<Item>)
    requires |xs| == |ys| && forall i :: 0 <= i < |xs| ==> LevelItem(xs[i]) == LevelItem(ys[i])
    requires forall i :: 0 <= i < |xs| ==>
               xs[i].Finding? && xs[i].resolved.Bool? && ys[i].Finding? && ys[i].resolved.Bool?
    ensures xs == ys
  {
    assert forall i :: 0 <= i < |xs| ==> xs[i] == ys[i];
  }

  /** Packets that compare equal in Python and use strict types differ at most in
      how they spell the version. */
  lemma LevelTells(e: Packet, p: Packet)
    requires Strict(e) && Strict(p) && Level(e) == Level(p)
    ensures p == e.(formatVersion := p.formatVersion)
  {
    hide LevelItem;
    var xs, ys := e.findings.items, p.findings.items;
    assert |Level(e).findings.items| == |xs| && |Level(p).findings.items| == |ys|;
    forall i | 0 <= i < |xs| ensures LevelItem(xs[i]) == LevelItem(ys[i]) {
      assert Level(e).findings.items[i] == LevelItem(xs[i]) && Level(p).findings.items[i] == LevelItem(ys[i]);
    }
    SameItems(xs, ys);
  }

  lemma BuiltIsStrict(repo: Repo, path: string, tool: Tool, session: string, bound: BindingField)
    requires path in repo.files
    ensures var e := Assemble(repo, path, tool, session, bound); Strict(e) && e.auditId == Str(AuditId(repo, e))
  {
  }

  lemma {:induction false} ItemsAreStrict(items: seq<Item>)
    requires AllItemErrors(items) == []
    ensures forall i :: 0 <= i < |items| ==> items[i].Finding? && items[i].resolved.Bool?
  {
    hide Severity, EvidenceClass, Message;
    if items != [] {
      ItemsAreStrict(items[..|items| - 1]);
      assert items == items[..|items| - 1] + [items[|items| - 1]];
    }
  }

  /** What the validator checks without the source leaves only the version open. */
  lemma {:induction false} CheckedIsStrict(repo: Repo, p: Packet)
    requires HeaderErrors(repo, p) == [] == BindingErrors(p) && ObservationErrors(repo, p) == []
    ensures Strict(p) && One(p.formatVersion) && p.auditId == Str(AuditId(repo, p)) && Made(p.binding)
    ensures SourceWellFormed(p.source) && repo.posix(p.source.path.s) == p.source.path.s
    ensures ToolNamed(p.tool).Some? && p.sessionId.Str? && SafeId(p.sessionId.s)
  {
    hide BoundsWellFormed, EvidenceWellFormed, AuditId, ToolNamed, SafeId, AuditIdText, ExpectedHashes, AllItemErrors,
      HexText;
    ItemsAreStrict(p.findings.items);
  }

  lemma LevelKeepsId(p: Packet)
    ensures Level(p).auditId == p.auditId
  {
  }

  lemma RespelledLevel(e: Packet, v: Json)
    requires One(v) && e.formatVersion == Int(1)
    ensures Level(e.(formatVersion := v)) == Level(e)
  {
  }

  lemma {:induction false} SourceAgrees(repo: Repo, p: Packet)
    requires Sound(repo) && SourceErrors(repo, p) == [] && SourceWellFormed(p.source) && Made(p.binding)
    requires repo.posix(p.source.path.s) == p.source.path.s
    requires ToolNamed(p.tool).Some? && p.sessionId.Str? && SafeId(p.sessionId.s)
    ensures Claims(repo, p) && Level(Rebuilt(repo, p)) == Level(p)
  {
    hide Assemble, SafeId, Level, ToolNamed, HexText, StampsOnce, MakeBinding, CycleOf, TaskOf, BindingStatus, Made;
    MadeAgain(p.binding);
  }

  lemma RespelledHeader(repo: Repo, e: Packet, v: Json)
    requires One(v) && e.formatVersion == Int(1)
    ensures HeaderErrors(repo, e.(formatVersion := v)) == HeaderErrors(repo, e)
  {
    hide SafeId, ToolNamed, AuditIdText, SourceWellFormed, When;
  }

  lemma RespelledBinding(e: Packet, v: Json)
    ensures BindingErrors(e.(formatVersion := v)) == BindingErrors(e)
  {
    hide SafeId, BindingStatus, When;
  }

  lemma RespelledObservations(repo: Repo, e: Packet, v: Json)
    requires e.auditId == Str(AuditId(repo, e))
    ensures var p := e.(formatVersion := v);
            ObservationErrors(repo, p) == [] <==> ObservationErrors(repo, e) == [] && AuditId(repo, p) == AuditId(repo, e)
  {
    hide AuditId, AllItemErrors, HashPath, Oversized, CountsWellFormed, BoundsWellFormed, SourceWellFormed, Number;
    assert EvidenceWellFormed(repo, e.(formatVersion := v)) == EvidenceWellFormed(repo, e);
    assert ExpectedHashes(e.(formatVersion := v)) == ExpectedHashes(e);
    hide EvidenceWellFormed, ExpectedHashes;
  }

  lemma RespelledSource(repo: Repo, e: Packet, v: Json)
    requires LocatesFiles(repo) && One(v) && e.formatVersion == Int(1)
    ensures SourceErrors(repo, e.(formatVersion := v)) == SourceErrors(repo, e)
  {
    hide Level, SafeId, ToolNamed, BuildPacket, CycleOf, TaskOf, BindingStatus, SourceWellFormed;
    RespelledLevel(e, v);
  }

  lemma {:induction false} Respelled(repo: Repo, e: Packet, v: Json)
    requires LocatesFiles(repo) && One(v) && e.formatVersion == Int(1) && e.auditId == Str(AuditId(repo, e))
    ensures var p := e.(formatVersion := v);
            Validate(repo, p) == [] <==> Validate(repo, e) == [] && AuditId(repo, p) == AuditId(repo, e)
  {
    hide HeaderErrors, BindingErrors, ObservationErrors, SourceErrors, AuditId, One;
    RespelledHeader(repo, e, v);
    RespelledBinding(e, v);
    RespelledObservations(repo, e, v);
    RespelledSource(repo, e, v);
  }

  /** Exactly which packets validate: those their own source, tool, session and
      binding give when built afresh, from a source whose text and bytes agree about
      lines; only the version may be spelled otherwise, and only where that does not
      show in the audit id. */
  lemma {:induction false} ValidatesIff(repo: Repo, p: Packet)
    requires Sound(repo)
    ensures Validate(repo, p) == [] <==>
            && Claims(repo, p) && LinesAgree(repo.env, repo.files[p.source.path.s])
            && One(p.formatVersion) && p == Rebuilt(repo, p).(formatVersion := p.formatVersion)
            && AuditId(repo, p) == AuditId(repo, Rebuilt(repo, p))
  {
    hide Sound, Assemble, HeaderErrors, BindingErrors, ObservationErrors, SourceErrors, SafeId, Level, AuditId, ToolNamed,
      Made, LinesAgree, Strict, One;
    Located(repo);
    if Validate(repo, p) == [] {
      CheckedIsStrict(repo, p);
      SourceAgrees(repo, p);
    }
    if Claims(repo, p) {
      var e := Rebuilt(repo, p);
      var path, tool := p.source.path.s, ToolNamed(p.tool).value;
      RebuiltValidates(repo, p);
      BuiltIsStrict(repo, path, tool, p.sessionId.s, p.binding);
      AssembledHeader(repo, path, tool, p.sessionId.s, p.binding);
      if One(p.formatVersion) { Respelled(repo, e, p.formatVersion); }
      if Validate(repo, p) == [] {
        LevelTells(e, p);
        LevelKeepsId(e);
        LevelKeepsId(p);
      }
    }
  }

  lemma Located(repo: Repo)
    requires Sound(repo)
    ensures LocatesFiles(repo)
  {
  }

  lemma {:induction false} RebuiltValidates(repo: Repo, p: Packet)
    requires Sound(repo) && Claims(repo, p)
    ensures Validate(repo, Rebuilt(repo, p))
         == When(!LinesAgree(repo.env, repo.files[p.source.path.s]), "event-hash count is inconsistent")
  {
    hide Sound, SafeId, Assemble, HeaderErrors, BindingErrors, ObservationErrors, SourceErrors, LinesAgree, ToolNamed;
    var path, tool := p.source.path.s, ToolNamed(p.tool).value;
    FreshHeader(repo, path, tool, p.sessionId.s, p.binding);
    FreshBinding(repo, path, tool, p.sessionId.s, p.binding);
    FreshObservations(repo, path, tool, p.sessionId.s, p.binding);
    FreshSource(repo, path, tool, p.sessionId.s, p.binding);
  }

  /** A packet that validates is what `BuildPacket` gives for its own source exactly
      when it writes its version as the integer 1; any other spelling is a second
      body with the same audit id. */
  lemma {:induction false} ValidatedIsRebuild(repo: Repo, p: Packet)
    requires Sound(repo) && Validate(repo, p) == []
    ensures Claims(repo, p)
    ensures var built := BuildPacket(repo, p.source.path.s, ToolNamed(p.tool).value, Some(p.sessionId.s),
                                     CycleOf(p.binding), TaskOf(p.binding));
      && built.Ok? && Level(built.value) == Level(p)
      && (built == Ok(p) <==> p.formatVersion == Int(1))
      && (built != Ok(p) ==> p.(auditId := Null) != built.value.(auditId := Null) && AuditId(repo, p) == AuditId(repo, built.value))
  {
    hide Sound, Assemble, Validate, SafeId, Level, AuditId, ToolNamed, Made, LinesAgree, MakeBinding, CycleOf, TaskOf;
    ValidatesIff(repo, p);
    MadeAgain(p.binding);
    assert SafeId(p.sessionId.s);
    AssembledHeader(repo, p.source.path.s, ToolNamed(p.tool).value, p.sessionId.s, p.binding);
    RespelledLevel(Rebuilt(repo, p), p.formatVersion);
  }

  function Zeros(): string { seq(64, i => '0') }

  /** A repository with one empty file and a digest that tells nothing apart. */
  function BlindRepo(): Repo {
    Repo(Env(s => s, s => None, j => "", s => None, b => None, b => Zeros()), map["a" := []], s => s, s => true,
         s => if s == "a" then Some("a") else None, p => [])
  }

  lemma BlindIsSound()
    ensures Sound(BlindRepo())
  {
  }

  /** Neither case is empty: in a repository whose digest collides, the fresh packet
      and its twin with version 1.0 both validate. */
  lemma TwinsValidate() returns (p: Packet, twin: Packet)
    ensures Sound(BlindRepo()) && Validate(BlindRepo(), p) == [] == Validate(BlindRepo(), twin)
    ensures p.formatVersion == Int(1) && twin == p.(formatVersion := Real(1.0))
  {
    hide Assemble, Validate, Parse;
    BlindIsSound();
    var repo := BlindRepo();
    p := Assemble(repo, "a", Codex, "s", Unbound);
    AssembledHeader(repo, "a", Codex, "s", Unbound);
    AssembledBinding(repo, "a", Codex, "s", Unbound);
    ToolNames(Codex);
    ValidatesIff(repo, p);
    twin := p.(formatVersion := Real(1.0));
    ValidatesIff(repo, twin);
  }

  lemma AssembledBinding(repo: Repo, path: string, tool: Tool, session: string, bound: BindingField)
    requires path in repo.files
    ensures Assemble(repo, path, tool, session, bound).binding == bound
  {
  }

  /** A readable source whose every line is a timed event of one tool. */
  predicate AllTimedEvents(env: Env, data: seq<byte>, tool: Tool) {
    && |data| <= MAX_BYTES && env.decode(data).Some?
    && var ls := ReadLines(env, Lines(TextBreaks(), env.decode(data).value));
    && ls != [] && forall i :: 0 <= i < |ls| ==> ls[i].Recognized? && ls[i].tool == tool && ls[i].stamp.Some?
  }

  /** A validated consumable packet certifies its source: every line of it is a timed
      event of the declared tool, and cycle and task are bound. */
  lemma {:induction false} ConsumableCertifies(repo: Repo, p: Packet)
    requires Sound(repo) && Validate(repo, p) == [] && p.consumable == Bool(true)
    ensures p.source.SourceRef? && p.source.path.Str? && p.source.path.s in repo.files && p.binding.Bound?
    ensures ToolNamed(p.tool).Some? && AllTimedEvents(repo.env, repo.files[p.source.path.s], ToolNamed(p.tool).value)
  {
    hide Validate, Sound, Lines, ReadLine, StatusOf, FindingsOf, TallyAll, Stamps, ToolNamed, SafeId, Unique, ItemsOf,
      FiguresOf, EvidenceOf, AuditId, Made, LinesAgree;
    ValidatesIff(repo, p);
    var data := repo.files[p.source.path.s];
    var tool := ToolNamed(p.tool).value;
    assert Parse(repo.env, Snapshot(data), tool).status == Complete;
    CompleteIff(ReadLines(repo.env, Lines(TextBreaks(), repo.env.decode(data).value)), tool);
  }

  // ---- the whole pipeline --------------------------------------------------

  /** From capture to consumption: a projection of at most the inspected size, bound
      to a cycle and a task, gives a packet that is consumable exactly when the kept
      texts are free of raw separators and every kept event has its time; and then
      the packet validates. */
  lemma {:induction false} CapturedIsConsumable(
    repo: Repo, transcript: seq<byte>, tool: Tool, path: string, session: Option<string>, cycle: string, task: string)
    requires Sound(repo) && Lawful(repo.env) && path in repo.files
    requires NormalizeProjection(repo.env, transcript, tool) == Ok(repo.files[path]) && |repo.files[path]| <= MAX_BYTES
    requires SafeId(cycle) && SafeId(task) && (session.Some? ==> SafeId(session.value))
    ensures var built := BuildPacket(repo, path, tool, session, Some(cycle), Some(task));
            var kept := Transcript(repo.env, transcript);
      && built.Ok? && kept.Ok?
      && var cs := Kept(repo.env, tool, kept.value);
      && (built.value.consumable == Bool(true) <==>
            AllClean(cs) && forall i :: 0 <= i < |cs| ==> cs[i].stamp.Some?)
      && (built.value.consumable == Bool(true) ==> Validate(repo, built.value) == [])
  {
    hide Sound, Lawful, Lines, Parse, Kept, AllClean, Transcript, NormalizeProjection, SafeId, Validate, Unique, ItemsOf,
      FiguresOf, EvidenceOf, AuditId, LinesAgree;
    CaptureIsAccepted(repo.env, transcript, tool);
    FreshPacketValidatesIff(repo, path, tool, session, Some(cycle), Some(task));
    if AllClean(Kept(repo.env, tool, Transcript(repo.env, transcript).value)) {
      CleanLinesAgree(repo.env, transcript, tool);
    }
  }

  lemma CleanLinesAgree(env: Env, transcript: seq<byte>, tool: Tool)
    requires Lawful(env) && NormalizeProjection(env, transcript, tool).Ok? && Transcript(env, transcript).Ok?
    requires AllClean(Kept(env, tool, Transcript(env, transcript).value))
    ensures LinesAgree(env, NormalizeProjection(env, transcript, tool).value)
  {
    hide Lines, Encode, Terminated, Printed, AllClean, Kept, Transcript, NormalizeProjection, Batch;
    var form := KeptIsBatch(env, transcript, tool);
    var cs := Kept(env, tool, Transcript(env, transcript).value);
    NarrowLines(env, form, cs);
    assert env.decode(Encode(Terminated(Printed(env, cs)))) == Some(Terminated(Printed(env, cs)));
    PrintedLength(env, cs);
  }

  lemma PrintedLength(env: Env, cs: seq<Captured>)
    ensures |Printed(env, cs)| == |cs|
  {
  }
}
