/** Every complaint of the packet validator, by what it complains about. */
module PacketComplaints {
  import opened Wrappers
  import opened Json
  import opened SessionEvents
  import opened SessionParsing
  import opened SessionPackets

  // ---- identifiers and digests ---------------------------------------------

  predicate LetterOrDigit(c: char) { 'A' <= c <= 'Z' || 'a' <= c <= 'z' || '0' <= c <= '9' }

  predicate Identifier(j: Json) {
    && j.Str? && 1 <= |j.s| <= 128 && LetterOrDigit(j.s[0])
    && forall c :: c in j.s ==> LetterOrDigit(c) || c == '.' || c == '_' || c == '-'
  }

  predicate HexOf(s: string, n: nat) { |s| == n && forall c :: c in s ==> '0' <= c <= '9' || 'a' <= c <= 'f' }

  predicate AuditName(j: Json) { j.Str? && |j.s| == 38 && j.s[..6] == "audit-" && HexOf(j.s[6..], 32) }

  lemma HexIff(s: string, n: nat)
    ensures HexOf(s, n) <==> HexText(s, n)
  {
    if HexOf(s, n) { assert forall i :: 0 <= i < n ==> s[i] in s; }
  }

  lemma IdentifierIff(j: Json)
    ensures Identifier(j) <==> j.Str? && SafeId(j.s)
  {
    if Identifier(j) { assert forall i :: 0 <= i < |j.s| ==> j.s[i] in j.s; }
  }

  lemma AuditNameIff(j: Json)
    ensures AuditName(j) <==> j.Str? && AuditIdText(j.s)
  {
    hide HexOf, HexText;
    if j.Str? && |j.s| == 38 { HexIff(j.s[6..], 32); }
  }

  // ---- header --------------------------------------------------------------

  predicate SourceStated(f: SourceField) {
    f.SourceRef? && f.path.Str? && f.sha.Str? && HexOf(f.sha.s, 64) && f.size.Int? && f.size.i >= 0
  }

  predicate OneOf(j: Json, words: seq<string>) { j.Str? && j.s in words }

  /** Identity, version, tool and source of the packet. */
  predicate NameFault(p: Packet, fault: string) {
    || (fault == "packet version or kind is invalid"
        && ((p.formatVersion != Int(1) && p.formatVersion != Real(1.0) && p.formatVersion != Bool(true))
            || p.artifactKind != Str("session_governance_audit")))
    || (fault == "parser version is invalid" && p.parserVersion != Str("session-audit/1"))
    || (fault == "tool is invalid" && p.tool != Str("codex") && p.tool != Str("claude-code"))
    || (fault == "audit-id is invalid" && !AuditName(p.auditId))
    || (fault == "session-id is invalid" && !Identifier(p.sessionId))
  }

  /** What the packet claims to be. */
  predicate ClaimFault(p: Packet, fault: string) {
    || (fault == "packet must remain non-goal-truth" && p.notGoalTruth != Bool(true))
    || (fault == "packet must remain non-validation-evidence" && p.notValidationEvidence != Bool(true))
    || (fault == "capture mode is invalid" && !OneOf(p.captureMode, ["conversation_projection", "structured_telemetry", "unknown"]))
    || (fault == "capture status is invalid" && !OneOf(p.captureStatus, ["complete", "partial", "quarantined", "failed"]))
    || (fault == "inspector packets require source-hash-only integrity" && p.integrityStatus != Str("source_hash_only"))
  }

  predicate PathFault(repo: Repo, p: Packet, fault: string) {
    || (fault == "source schema is invalid" && !SourceStated(p.source))
    || (fault == "source path is not canonical repository-relative" && SourceStated(p.source)
        && !(repo.local(p.source.path.s) && repo.posix(p.source.path.s) == p.source.path.s))
  }

  lemma SourceIff(f: SourceField)
    ensures SourceStated(f) <==> SourceWellFormed(f)
  {
    hide HexOf, HexText;
    if f.SourceRef? && f.sha.Str? { HexIff(f.sha.s, 64); }
  }

  /** Complaints in a row, each under its condition. */
  lemma FiveInOrder(a: bool, b: bool, c: bool, d: bool, e: bool, v: string, w: string, x: string, y: string, z: string, fault: string)
    ensures fault in When(a, v) + When(b, w) + When(c, x) + When(d, y) + When(e, z) <==>
      (a && fault == v) || (b && fault == w) || (c && fault == x) || (d && fault == y) || (e && fault == z)
  {
  }

  lemma {:induction false} NameExactly(p: Packet, fault: string)
    ensures fault in NameErrors(p) <==> NameFault(p, fault)
  {
    hide Identifier, SafeId, AuditName, AuditIdText, When;
    IdentifierIff(p.sessionId);
    AuditNameIff(p.auditId);
    FiveInOrder(
      p.formatVersion !in {Int(1), Real(1.0), Bool(true)} || p.artifactKind != Str("session_governance_audit"),
      p.parserVersion != Str("session-audit/1"), ToolNamed(p.tool).None?, !p.auditId.Str? || !AuditIdText(p.auditId.s),
      !p.sessionId.Str? || !SafeId(p.sessionId.s),
      "packet version or kind is invalid", "parser version is invalid", "tool is invalid", "audit-id is invalid",
      "session-id is invalid", fault);
  }

  lemma {:induction false} ClaimExactly(p: Packet, fault: string)
    ensures fault in ClaimErrors(p) <==> ClaimFault(p, fault)
  {
    hide When;
    FiveInOrder(
      p.notGoalTruth != Bool(true), p.notValidationEvidence != Bool(true),
      p.captureMode !in {Str("conversation_projection"), Str("structured_telemetry"), Str("unknown")},
      p.captureStatus !in {Str("complete"), Str("partial"), Str("quarantined"), Str("failed")},
      p.integrityStatus != Str("source_hash_only"),
      "packet must remain non-goal-truth", "packet must remain non-validation-evidence", "capture mode is invalid",
      "capture status is invalid", "inspector packets require source-hash-only integrity", fault);
  }

  lemma PathExactly(repo: Repo, p: Packet, fault: string)
    ensures fault in PathErrors(repo, p) <==> PathFault(repo, p, fault)
  {
    hide SourceStated, SourceWellFormed;
    SourceIff(p.source);
    SourceHasPath(p.source);
  }

  lemma SourceHasPath(f: SourceField)
    ensures SourceWellFormed(f) ==> f.SourceRef? && f.path.Str? && f.sha.Str? && f.size.Int?
  {
  }

  // ---- binding -------------------------------------------------------------

  /** The word under `status`, whatever else the binding holds. */
  function StatusWord(b: BindingField): Json {
    match b
    case Bound(_, _) => Str("bound")
    case Ambiguous => Str("ambiguous")
    case Unbound => Str("unbound")
    case OtherBinding(j) => if j.Dict? then Get(j.entries, "status") else Null
  }

  predicate BindingFault(b: BindingField, fault: string) {
    || (fault == "binding schema is invalid" && b.OtherBinding? && !(b.j.Dict? && "status" in b.j.entries))
    || (fault == "bound identifiers are invalid" && b.Bound? && !(Identifier(b.cycle) && Identifier(b.task)))
    || (b.OtherBinding? && b.j.Dict? && "status" in b.j.entries
        && ((fault == "bound packet requires cycle and task identifiers" && StatusWord(b) == Str("bound"))
            || (fault == "non-bound packet cannot claim identifiers" && OneOf(StatusWord(b), ["ambiguous", "unbound"]))
            || (fault == "binding status is invalid" && !OneOf(StatusWord(b), ["bound", "ambiguous", "unbound"]))))
  }

  predicate UseFault(p: Packet, fault: string) {
    var complete := p.captureStatus == Str("complete");
    || (fault == "consumable state is inconsistent"
        && p.consumable != (if complete && StatusWord(p.binding) == Str("bound") then Bool(true) else Bool(false)))
    || (fault == "repair class is inconsistent" && p.repairClass != (if complete then Str("none") else Str("proposal_only")))
    || (fault == "auto repair exceeds derived metadata" && p.autoRepairAllowed != Bool(false))
  }

  lemma StatusIff(b: BindingField)
    ensures forall word :: BindingStatus(b) == Some(word) <==> StatusWord(b) == Str(word)
  {
  }

  lemma {:induction false} BindingExactly(b: BindingField, fault: string)
    ensures fault in IdentifierErrors(b) <==> BindingFault(b, fault)
  {
    hide Identifier, SafeId;
    StatusIff(b);
    if b.Bound? { IdentifierIff(b.cycle); IdentifierIff(b.task); }
    assert |"bound"| == 5 && |"ambiguous"| == 9 && |"unbound"| == 7;
  }

  lemma {:induction false} UseExactly(p: Packet, fault: string)
    ensures fault in BindingErrors(p) <==> BindingFault(p.binding, fault) || UseFault(p, fault)
  {
    hide IdentifierErrors, BindingFault, BindingStatus, StatusWord;
    StatusIff(p.binding);
    BindingExactly(p.binding, fault);
  }

  // ---- observations --------------------------------------------------------

  predicate Figure(j: Json) { j.Int? && j.i >= 0 }

  predicate CountsStated(c: CountsField) {
    && c.Figures?
    && Figure(c.total) && Figure(c.recognized) && Figure(c.unrecognized) && Figure(c.malformed) && Figure(c.blank) && Figure(c.user)
    && Figure(c.assistant) && Figure(c.codex) && Figure(c.claude) && Figure(c.missing) && Figure(c.raw)
  }

  /** Both ends or neither, each a normal timestamp. */
  predicate EndsStated(env: Env, b: BoundsField) {
    && b.Between?
    && ((b.first == Null && b.last == Null)
        || (b.first.Str? && b.last.Str? && b.first.s != "" && b.last.s != ""
            && env.stamp(b.first.s) == Some(b.first.s) && env.stamp(b.last.s) == Some(b.last.s)))
  }

  predicate HashStated(j: Json) { j.Str? && |j.s| == 71 && j.s[..7] == "sha256:" && HexOf(j.s[7..], 64) }

  /** The source's path first, then digests of lines. */
  predicate EvidenceStated(repo: Repo, p: Packet) {
    && p.evidence.Paths? && |p.evidence.values| > 0
    && p.evidence.values[0].Str? && p.evidence.values[0].s != ""
    && (SourceStated(p.source) ==> p.evidence.values[0].s == repo.posix(p.source.path.s))
    && forall i :: 1 <= i < |p.evidence.values| ==> HashStated(p.evidence.values[i])
  }

  /** The packet itself says that its source was too large to read. */
  predicate NothingRead(p: Packet) {
    && p.captureStatus == Str("failed") && p.findings.Items?
    && exists i :: 0 <= i < |p.findings.items| && p.findings.items[i].Finding?
         && (p.findings.items[i].code == SourceTooLarge || p.findings.items[i].code == SourceTooManyLines)
  }

  /** The number of lines the counts claim. */
  function Claimed(p: Packet): Json {
    match p.eventCounts
    case Figures(total, _, _, _, _, _, _, _, _, _, _) => total
    case OtherFigures(Dict(m)) => Get(m, "total_lines")
    case OtherFigures(_) => Null
  }

  /** As many line digests as lines, where the packet claims a whole number of lines. */
  predicate HashesAddUp(p: Packet) {
    p.evidence.Paths? ==>
      var n := |p.evidence.values| - 1;
      if NothingRead(p) then n == 0
      else match Claimed(p) case Int(i) => n == i case Bool(b) => n == (if b then 1 else 0) case _ => true
  }

  predicate ItemFault(item: Item, fault: string) {
    || (fault == "finding schema is invalid" && item.Strange?)
    || (fault == "finding content is invalid" && item.Finding?
        && (item.severity != Str(Severity(item.code)) || item.evidenceClass != Str(EvidenceClass(item.code))
            || item.message != Str(Message(item.code)) || !item.resolved.Bool?))
  }

  predicate ObservationFault(repo: Repo, p: Packet, fault: string) {
    || (fault == "event counts are invalid" && !CountsStated(p.eventCounts))
    || (fault == "timestamp bounds are invalid" && !EndsStated(repo.env, p.bounds))
    || (fault == "findings are invalid" && !p.findings.Items?)
    || (p.findings.Items? && exists i :: 0 <= i < |p.findings.items| && ItemFault(p.findings.items[i], fault))
    || (fault == "evidence paths or event hashes are invalid" && !EvidenceStated(repo, p))
    || (fault == "event-hash count is inconsistent" && !HashesAddUp(p))
    || (fault == "audit-id does not match packet content" && p.auditId != Str(AuditId(repo, p)))
  }

  lemma CountsIff(c: CountsField)
    ensures CountsStated(c) <==> CountsWellFormed(c)
  {
  }

  lemma EndsIff(env: Env, b: BoundsField)
    ensures EndsStated(env, b) <==> BoundsWellFormed(env, b)
  {
  }

  lemma {:induction false} EvidenceIff(repo: Repo, p: Packet)
    ensures EvidenceStated(repo, p) <==> EvidenceWellFormed(repo, p)
  {
    hide HexOf, HexText, SourceStated, SourceWellFormed;
    SourceIff(p.source);
    SourceHasPath(p.source);
    forall j ensures HashStated(j) <==> HashPath(j) { HashIff(j); }
    hide HashStated, HashPath;
    if p.evidence.Paths? {
      forall i | 0 <= i < |p.evidence.values| && HashPath(p.evidence.values[i]) { HashIsText(p.evidence.values[i]); }
    }
  }

  lemma HashIsText(j: Json)
    requires HashPath(j)
    ensures j.Str? && j.s != ""
  {
  }

  lemma HashIff(j: Json)
    ensures HashStated(j) <==> HashPath(j)
  {
    hide HexOf;
    if j.Str? && |j.s| > 7 { HexIff(j.s[7..], 64); }
  }

  lemma HashesIff(p: Packet)
    ensures HashesAddUp(p) <==>
      !((ExpectedHashes(p).Int? || ExpectedHashes(p).Bool?) && p.evidence.Paths?
        && Int(|p.evidence.values| - 1) != Number(ExpectedHashes(p)))
  {
    if p.findings.Items? {
      var items := p.findings.items;
      forall i | 0 <= i < |items| && items[i].Finding?
        ensures items[i].code in {SourceTooLarge, SourceTooManyLines} <==> items[i].code == SourceTooLarge || items[i].code == SourceTooManyLines
      {}
    }
  }

  lemma {:induction false} ItemsExactly(items: seq<Item>, fault: string)
    ensures fault in AllItemErrors(items) <==> exists i :: 0 <= i < |items| && ItemFault(items[i], fault)
  {
    hide ItemErrors, ItemFault;
    if items != [] {
      var n := |items| - 1;
      ItemsExactly(items[..n], fault);
      ItemExactly(items[n], fault);
      assert forall i :: 0 <= i < n ==> items[..n][i] == items[i];
      if i :| 0 <= i < |items| && ItemFault(items[i], fault) { assert i < n ==> ItemFault(items[..n][i], fault); }
      if i :| 0 <= i < n && ItemFault(items[..n][i], fault) { assert ItemFault(items[i], fault); }
    }
  }

  lemma ItemExactly(item: Item, fault: string)
    ensures fault in ItemErrors(item) <==> ItemFault(item, fault)
  {
    hide Message, Severity, EvidenceClass;
  }

  lemma {:induction false} ObservationExactly(repo: Repo, p: Packet, fault: string)
    ensures fault in ObservationErrors(repo, p) <==> ObservationFault(repo, p, fault)
  {
    hide CountsStated, CountsWellFormed, EndsStated, BoundsWellFormed, EvidenceStated, EvidenceWellFormed, HashesAddUp, ExpectedHashes,
      ItemFault, AllItemErrors, AuditId, Number;
    CountsIff(p.eventCounts);
    EndsIff(repo.env, p.bounds);
    EvidenceIff(repo, p);
    HashesIff(p);
    if p.findings.Items? { ItemsExactly(p.findings.items, fault); }
  }

  // ---- all of them ---------------------------------------------------------

  /** The three complaints that come from reading the source again: it cannot be read, it
      is not the one described, or the packet is not the one it gives. */
  predicate SourceFault(repo: Repo, p: Packet, fault: string)
    requires LocatesFiles(repo)
  {
    && SourceStated(p.source)
    && match repo.locate(p.source.path.s)
       case None => fault == "source verification failed"
       case Some(path) =>
         var data := repo.files[path];
         if path != repo.posix(p.source.path.s) || p.source.sha.s != repo.env.digest(data) || p.source.size.i != |data|
         then fault == "source snapshot does not match packet"
         else
           && OneOf(p.tool, ["codex", "claude-code"]) && Identifier(p.sessionId)
           && OneOf(StatusWord(p.binding), ["bound", "ambiguous", "unbound"])
           && match BuildPacket(repo, path, if p.tool == Str("codex") then Codex else ClaudeCode, Some(p.sessionId.s),
                                CycleOf(p.binding), TaskOf(p.binding))
              case Err(_) => fault == "source verification failed"
              case Ok(rebuilt) => fault == "packet does not match deterministic source projection" && Level(rebuilt) != Level(p)
  }

  lemma {:induction false} SourceExactly(repo: Repo, p: Packet, fault: string)
    requires LocatesFiles(repo)
    ensures fault in SourceErrors(repo, p) <==> SourceFault(repo, p, fault)
  {
    hide SourceStated, SourceWellFormed, Identifier, SafeId, BuildPacket, Level, BindingStatus, StatusWord, CycleOf, TaskOf;
    SourceIff(p.source);
    IdentifierIff(p.sessionId);
    StatusIff(p.binding);
    SourceHasPath(p.source);
  }

  /** What each complaint about a packet means. */
  predicate Complains(repo: Repo, p: Packet, fault: string)
    requires LocatesFiles(repo)
  {
    || NameFault(p, fault) || ClaimFault(p, fault) || PathFault(repo, p, fault) || BindingFault(p.binding, fault) || UseFault(p, fault)
    || ObservationFault(repo, p, fault) || SourceFault(repo, p, fault)
  }

  /** A packet gets exactly the complaints that hold of it. */
  lemma {:induction false} ComplaintsExactly(repo: Repo, p: Packet, fault: string)
    requires LocatesFiles(repo)
    ensures fault in Validate(repo, p) <==> Complains(repo, p, fault)
  {
    hide NameErrors, ClaimErrors, PathErrors, BindingErrors, ObservationErrors, SourceErrors, NameFault, ClaimFault, PathFault,
      BindingFault, UseFault, ObservationFault, SourceFault, LocatesFiles;
    NameExactly(p, fault);
    ClaimExactly(p, fault);
    PathExactly(repo, p, fault);
    UseExactly(p, fault);
    ObservationExactly(repo, p, fault);
    SourceExactly(repo, p, fault);
  }
}
