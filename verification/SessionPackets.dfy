/** Audit packets: building one from a session source, and validating one against
    the source it names. */
module SessionPackets {
  import opened Wrappers
  import opened Json
  import opened SessionLines
  import opened SessionEvents
  import opened SessionParsing

  const MAX_BYTES: nat := 10 * 1024 * 1024

  // ---- packets -------------------------------------------------------------

  /** A dictionary with exactly the packet's keys; the structured fields tell the
      expected shape from any other value. */
  datatype Packet = Packet(
    formatVersion: Json, artifactKind: Json, parserVersion: Json, auditId: Json, tool: Json, sessionId: Json,
    source: SourceField, captureMode: Json, captureStatus: Json, integrityStatus: Json, binding: BindingField,
    consumable: Json, notGoalTruth: Json, notValidationEvidence: Json, repairClass: Json,
    autoRepairAllowed: Json, findings: FindingsField, eventCounts: CountsField, bounds: BoundsField,
    evidence: EvidenceField)

  datatype SourceField = SourceRef(path: Json, sha: Json, size: Json) | OtherSource(j: Json)

  datatype BindingField = Bound(cycle: Json, task: Json) | Ambiguous | Unbound | OtherBinding(j: Json)

  /** A finding with exactly its five keys and a known code, or anything else. */
  datatype Item = Finding(code: Code, severity: Json, evidenceClass: Json, message: Json, resolved: Json) | Strange(j: Json)

  datatype FindingsField = Items(items: seq<Item>) | OtherFindings(j: Json)

  datatype CountsField =
    | Figures(total: Json, recognized: Json, unrecognized: Json, malformed: Json, blank: Json, user: Json,
              assistant: Json, codex: Json, claude: Json, missing: Json, raw: Json)
    | OtherFigures(j: Json)

  datatype BoundsField = Between(first: Json, last: Json) | OtherBounds(j: Json)

  datatype EvidenceField = Paths(values: seq<Json>) | OtherEvidence(j: Json)

  /** The repository: its regular files by canonical path, how a path text is
      written canonically, and where it leads. `canon` is a packet body as canonical
      JSON bytes. */
  datatype Repo = Repo(
    env: Env, files: map<string, seq<byte>>, posix: string -> string, local: string -> bool,
    locate: string -> Option<string>, canon: Packet -> seq<byte>)

  predicate Hex(c: char) { '0' <= c <= '9' || 'a' <= c <= 'f' }

  predicate HexText(s: string, n: nat) { |s| == n && forall i :: 0 <= i < n ==> Hex(s[i]) }

  predicate Alphanumeric(c: char) { 'A' <= c <= 'Z' || 'a' <= c <= 'z' || '0' <= c <= '9' }

  predicate SafeId(s: string) {
    && 1 <= |s| <= 128 && Alphanumeric(s[0])
    && forall i :: 0 <= i < |s| ==> Alphanumeric(s[i]) || s[i] == '.' || s[i] == '_' || s[i] == '-'
  }

  predicate AuditIdText(s: string) { |s| == 38 && s[..6] == "audit-" && HexText(s[6..], 32) }

  function Take(s: string, n: nat): string { if n < |s| then s[..n] else s }

  function AuditId(repo: Repo, p: Packet): string {
    "audit-" + Take(repo.env.digest(repo.canon(p.(auditId := Null))), 32)
  }

  function ToolName(tool: Tool): string { if tool == Codex then "codex" else "claude-code" }

  function ToolNamed(j: Json): Option<Tool> {
    if j == Str("codex") then Some(Codex) else if j == Str("claude-code") then Some(ClaudeCode) else None
  }

  function StatusName(s: Status): string {
    match s
    case Complete => "complete"
    case Partial => "partial"
    case Quarantined => "quarantined"
    case Failed => "failed"
  }

  /** The findings table. */
  function Severity(code: Code): string { if Blocks(code) then "block" else "warn" }

  function EvidenceClass(code: Code): string {
    if code in {MissingTimestamp, EmptyProjection, AmbiguousBinding} then "absence_unknown"
    else "transcript_observation"
  }

  function Message(code: Code): string {
    match code
    case SourceTooLarge => "Source exceeds the bounded inspection size."
    case SourceTooManyLines => "Source exceeds the bounded JSONL line count."
    case InvalidUtf8 => "Source is not strict UTF-8."
    case MalformedJsonl => "A source line is not valid JSON."
    case BlankJsonlLine => "A blank JSONL line was observed."
    case NonObjectEvent => "A JSONL event is not an object."
    case Refusal(UnsupportedSchema) => "An event declares an unsupported schema version."
    case Refusal(RawOrToolEvent) => "A raw, tool, reasoning, or metadata event was observed."
    case Refusal(UnrecognizedEvent) => "An event is outside the conversation projection allowlist."
    case MixedToolSchemas => "Events from multiple tool schemas were observed."
    case DeclaredToolMismatch => "Recognized events do not match the declared tool."
    case MissingTimestamp => "A recognized event has no valid timestamp observation."
    case EmptyProjection => "No supported conversation event was observed."
    case AmbiguousBinding => "Cycle and task binding must be supplied together."
  }

  // ---- building ------------------------------------------------------------

  /** The bytes of a source, unless it is over the limit. */
  function Snapshot(data: seq<byte>): Option<seq<byte>> {
    if |data| <= MAX_BYTES then Some(data) else None
  }

  function MakeBinding(cycle: Option<string>, task: Option<string>): Result<BindingField> {
    if cycle.Some? && !SafeId(cycle.value) then Err("cycle_id must be a path-safe identifier")
    else if task.Some? && !SafeId(task.value) then Err("task_id must be a path-safe identifier")
    else if cycle.Some? && task.Some? then Ok(Bound(Str(cycle.value), Str(task.value)))
    else if cycle.Some? || task.Some? then Ok(Ambiguous)
    else Ok(Unbound)
  }

  function ItemOf(code: Code): Item {
    Finding(code, Str(Severity(code)), Str(EvidenceClass(code)), Str(Message(code)), Bool(false))
  }

  function ItemsOf(codes: seq<Code>): seq<Item> {
    seq(|codes|, i requires 0 <= i < |codes| => ItemOf(codes[i]))
  }

  function FiguresOf(c: Counts): CountsField {
    Figures(Int(c.total), Int(c.recognized), Int(c.unrecognized), Int(c.malformed), Int(c.blank), Int(c.user),
            Int(c.assistant), Int(c.codex), Int(c.claude), Int(c.missing), Int(c.raw))
  }

  function Stamp(s: Option<string>): Json { if s.Some? then Str(s.value) else Null }

  function EvidenceOf(path: string, hashes: seq<string>): seq<Json> {
    [Str(path)] + seq(|hashes|, i requires 0 <= i < |hashes| => Str("sha256:" + hashes[i]))
  }

  function Assemble(repo: Repo, path: string, tool: Tool, session: string, bound: BindingField): Packet
    requires path in repo.files
  {
    var data := repo.files[path];
    var parsed := Parse(repo.env, Snapshot(data), tool);
    var codes := if bound == Ambiguous then Unique(parsed.findings + [AmbiguousBinding]) else Unique(parsed.findings);
    var body := Packet(
      Int(1), Str("session_governance_audit"), Str("session-audit/1"), Null, Str(ToolName(tool)), Str(session),
      SourceRef(Str(path), Str(repo.env.digest(data)), Int(|data|)),
      Str(if parsed.conversation then "conversation_projection" else "unknown"),
      Str(StatusName(parsed.status)), Str("source_hash_only"), bound,
      Bool(parsed.status == Complete && bound.Bound?), Bool(true), Bool(true),
      Str(if parsed.status == Complete then "none" else "proposal_only"), Bool(false),
      Items(ItemsOf(codes)), FiguresOf(parsed.counts), Between(Stamp(parsed.first), Stamp(parsed.last)),
      Paths(EvidenceOf(path, parsed.hashes)));
    body.(auditId := Str(AuditId(repo, body)))
  }

  function BuildPacket(
    repo: Repo, path: string, tool: Tool, session: Option<string>, cycle: Option<string>, task: Option<string>)
    : Result<Packet>
    requires path in repo.files
  {
    if session.Some? && !SafeId(session.value) then Err("session-id must be a path-safe identifier")
    else
      match MakeBinding(cycle, task)
      case Err(e) => Err(e)
      case Ok(bound) =>
        var name := if session.Some? then session.value
                    else "session-" + Take(repo.env.digest(Encode(path)), 24);
        Ok(Assemble(repo, path, tool, name, bound))
  }

  // ---- validating ----------------------------------------------------------

  function When(wrong: bool, complaint: string): seq<string> { if wrong then [complaint] else [] }

  predicate SourceWellFormed(s: SourceField) {
    s.SourceRef? && s.path.Str? && s.sha.Str? && HexText(s.sha.s, 64) && s.size.Int? && s.size.i >= 0
  }

  function NameErrors(p: Packet): seq<string> {
    When(p.formatVersion !in {Int(1), Real(1.0), Bool(true)} || p.artifactKind != Str("session_governance_audit"),
         "packet version or kind is invalid")
    + When(p.parserVersion != Str("session-audit/1"), "parser version is invalid")
    + When(ToolNamed(p.tool).None?, "tool is invalid")
    + When(!p.auditId.Str? || !AuditIdText(p.auditId.s), "audit-id is invalid")
    + When(!p.sessionId.Str? || !SafeId(p.sessionId.s), "session-id is invalid")
  }

  function ClaimErrors(p: Packet): seq<string> {
    When(p.notGoalTruth != Bool(true), "packet must remain non-goal-truth")
    + When(p.notValidationEvidence != Bool(true), "packet must remain non-validation-evidence")
    + When(p.captureMode !in {Str("conversation_projection"), Str("structured_telemetry"), Str("unknown")},
           "capture mode is invalid")
    + When(p.captureStatus !in {Str("complete"), Str("partial"), Str("quarantined"), Str("failed")},
           "capture status is invalid")
    + When(p.integrityStatus != Str("source_hash_only"), "inspector packets require source-hash-only integrity")
  }

  function PathErrors(repo: Repo, p: Packet): seq<string> {
    if !SourceWellFormed(p.source) then ["source schema is invalid"]
    else When(!repo.local(p.source.path.s) || repo.posix(p.source.path.s) != p.source.path.s,
              "source path is not canonical repository-relative")
  }

  function HeaderErrors(repo: Repo, p: Packet): seq<string> {
    NameErrors(p) + ClaimErrors(p) + PathErrors(repo, p)
  }

  function BindingStatus(b: BindingField): Option<string> {
    match b
    case Bound(_, _) => Some("bound")
    case Ambiguous => Some("ambiguous")
    case Unbound => Some("unbound")
    case OtherBinding(j) => if j.Dict? && Get(j.entries, "status").Str? then Some(Get(j.entries, "status").s) else None
  }

  function IdentifierErrors(b: BindingField): seq<string> {
    match b
    case Bound(cycle, task) =>
      When(!cycle.Str? || !SafeId(cycle.s) || !task.Str? || !SafeId(task.s), "bound identifiers are invalid")
    case Ambiguous => []
    case Unbound => []
    case OtherBinding(j) =>
      if !j.Dict? || "status" !in j.entries then ["binding schema is invalid"]
      else if BindingStatus(b) == Some("bound") then ["bound packet requires cycle and task identifiers"]
      else if BindingStatus(b) in {Some("ambiguous"), Some("unbound")} then ["non-bound packet cannot claim identifiers"]
      else ["binding status is invalid"]
  }

  function BindingErrors(p: Packet): seq<string> {
    var complete := p.captureStatus == Str("complete");
    IdentifierErrors(p.binding)
    + When(p.consumable != Bool(complete && BindingStatus(p.binding) == Some("bound")), "consumable state is inconsistent")
    + When(p.repairClass != Str(if complete then "none" else "proposal_only"), "repair class is inconsistent")
    + When(p.autoRepairAllowed != Bool(false), "auto repair exceeds derived metadata")
  }

  predicate Natural(j: Json) { j.Int? && j.i >= 0 }

  predicate CountsWellFormed(c: CountsField) {
    && c.Figures?
    && Natural(c.total) && Natural(c.recognized) && Natural(c.unrecognized) && Natural(c.malformed)
    && Natural(c.blank) && Natural(c.user) && Natural(c.assistant) && Natural(c.codex) && Natural(c.claude)
    && Natural(c.missing) && Natural(c.raw)
  }

  predicate NormalStamp(env: Env, j: Json) {
    j == Null || (j.Str? && NormalizeTimestamp(env, j) == Some(j.s))
  }

  predicate BoundsWellFormed(env: Env, b: BoundsField) {
    b.Between? && NormalStamp(env, b.first) && NormalStamp(env, b.last) && (b.first == Null <==> b.last == Null)
  }

  function ItemErrors(item: Item): seq<string> {
    if item.Strange? then ["finding schema is invalid"]
    else When(item.severity != Str(Severity(item.code)) || item.evidenceClass != Str(EvidenceClass(item.code))
              || item.message != Str(Message(item.code)) || !item.resolved.Bool?, "finding content is invalid")
  }

  function AllItemErrors(items: seq<Item>): seq<string> {
    if items == [] then [] else AllItemErrors(items[..|items| - 1]) + ItemErrors(items[|items| - 1])
  }

  predicate HashPath(j: Json) {
    j.Str? && |j.s| > 7 && j.s[..7] == "sha256:" && HexText(j.s[7..], 64)
  }

  predicate EvidenceWellFormed(repo: Repo, p: Packet) {
    && p.evidence.Paths? && p.evidence.values != []
    && (forall i :: 0 <= i < |p.evidence.values| ==> p.evidence.values[i].Str? && p.evidence.values[i].s != "")
    && (SourceWellFormed(p.source) ==> p.evidence.values[0] == Str(repo.posix(p.source.path.s)))
    && forall i :: 0 < i < |p.evidence.values| ==> HashPath(p.evidence.values[i])
  }

  predicate Oversized(items: seq<Item>) {
    exists i :: 0 <= i < |items| && items[i].Finding? && items[i].code in {SourceTooLarge, SourceTooManyLines}
  }

  /** How many event hashes the counts call for. */
  function ExpectedHashes(p: Packet): Json {
    if p.captureStatus == Str("failed") && p.findings.Items? && Oversized(p.findings.items) then Int(0)
    else
      match p.eventCounts
      case Figures(total, _, _, _, _, _, _, _, _, _, _) => total
      case OtherFigures(j) => if j.Dict? then Get(j.entries, "total_lines") else Null
  }

  function ObservationErrors(repo: Repo, p: Packet): seq<string> {
    When(!CountsWellFormed(p.eventCounts), "event counts are invalid")
    + When(!BoundsWellFormed(repo.env, p.bounds), "timestamp bounds are invalid")
    + (if p.findings.Items? then AllItemErrors(p.findings.items) else ["findings are invalid"])
    + When(!EvidenceWellFormed(repo, p), "evidence paths or event hashes are invalid")
    + When((ExpectedHashes(p).Int? || ExpectedHashes(p).Bool?) && p.evidence.Paths?
           && Int(|p.evidence.values| - 1) != Number(ExpectedHashes(p)), "event-hash count is inconsistent")
    + When(p.auditId != Str(AuditId(repo, p)), "audit-id does not match packet content")
  }

  method ValidateFindings(items: seq<Item>) returns (errors: seq<string>)
    ensures errors == AllItemErrors(items)
  {
    errors := [];
    for n := 0 to |items|
      invariant errors == AllItemErrors(items[..n])
    {
      assert items[..n + 1][..n] == items[..n];
      if items[n].Strange? {
        errors := errors + ["finding schema is invalid"];
        continue;
      }
      var code := items[n].code;
      if items[n].severity != Str(Severity(code)) || items[n].evidenceClass != Str(EvidenceClass(code))
         || items[n].message != Str(Message(code)) || !items[n].resolved.Bool?
      {
        errors := errors + ["finding content is invalid"];
      }
    }
    assert items[..|items|] == items;
  }

  // ---- comparing with the source -------------------------------------------

  /** Python compares booleans and whole floats as integers. */
  function Number(j: Json): Json {
    match j
    case Bool(b) => Int(if b then 1 else 0)
    case Real(x) => if x.Floor as real == x then Int(x.Floor) else j
    case _ => j
  }

  function LevelItem(item: Item): Item {
    if item.Finding? then item.(resolved := Number(item.resolved)) else item
  }

  function Level(p: Packet): Packet {
    p.(formatVersion := Number(p.formatVersion), consumable := Number(p.consumable),
       notGoalTruth := Number(p.notGoalTruth), notValidationEvidence := Number(p.notValidationEvidence),
       autoRepairAllowed := Number(p.autoRepairAllowed),
       source := if p.source.SourceRef? then p.source.(size := Number(p.source.size)) else p.source,
       findings := if p.findings.Items?
                   then Items(seq(|p.findings.items|, i requires 0 <= i < |p.findings.items| => LevelItem(p.findings.items[i])))
                   else p.findings,
       eventCounts := match p.eventCounts
         case Figures(a, b, c, d, e, f, g, h, i, j, k) =>
           Figures(Number(a), Number(b), Number(c), Number(d), Number(e), Number(f),
                   Number(g), Number(h), Number(i), Number(j), Number(k))
         case OtherFigures(_) => p.eventCounts)
  }

  function Word(j: Json): Option<string> { if j.Str? then Some(j.s) else None }

  function CycleOf(b: BindingField): Option<string> {
    match b
    case Bound(cycle, _) => Word(cycle)
    case Ambiguous => Some("ambiguous-binding")
    case Unbound => None
    case OtherBinding(j) =>
      if BindingStatus(b) == Some("bound") then Word(Get(j.entries, "cycle_id"))
      else if BindingStatus(b) == Some("ambiguous") then Some("ambiguous-binding")
      else None
  }

  function TaskOf(b: BindingField): Option<string> {
    match b
    case Bound(_, task) => Word(task)
    case OtherBinding(j) => if BindingStatus(b) == Some("bound") then Word(Get(j.entries, "task_id")) else None
    case _ => None
  }

  /** Read the source again and rebuild the packet from it. */
  function SourceErrors(repo: Repo, p: Packet): seq<string>
    requires LocatesFiles(repo)
  {
    if !SourceWellFormed(p.source) then []
    else
      match repo.locate(p.source.path.s)
      case None => ["source verification failed"]
      case Some(path) =>
        var data := repo.files[path];
        if path != repo.posix(p.source.path.s) || p.source.sha.s != repo.env.digest(data) || p.source.size.i != |data| then
          ["source snapshot does not match packet"]
        else if ToolNamed(p.tool).Some? && p.sessionId.Str? && SafeId(p.sessionId.s)
                && BindingStatus(p.binding) in {Some("bound"), Some("ambiguous"), Some("unbound")} then
          (match BuildPacket(repo, path, ToolNamed(p.tool).value, Some(p.sessionId.s), CycleOf(p.binding), TaskOf(p.binding))
           case Err(_) => ["source verification failed"]
           case Ok(expected) =>
             When(Level(expected) != Level(p), "packet does not match deterministic source projection"))
        else []
  }

  ghost predicate LocatesFiles(repo: Repo) {
    forall t, q :: repo.locate(t) == Some(q) ==> q in repo.files
  }

  function Validate(repo: Repo, p: Packet): seq<string>
    requires LocatesFiles(repo)
  {
    HeaderErrors(repo, p) + BindingErrors(p) + ObservationErrors(repo, p) + SourceErrors(repo, p)
  }
}
