/** Session events: what the auditor recognises (`classify`) and what the capture
    hook writes, over arbitrary JSON objects. */
module SessionEvents {
  import opened Wrappers
  import opened Text
  import opened Json
  import opened SessionLines

  /** Library functions: `str.lower`, ISO timestamps brought to UTC, compact JSON
      printing, strict JSON reading (no repeated keys), strict UTF-8 decoding, and
      the SHA-256 hex digest. */
  datatype Env = Env(
    lower: string -> string, stamp: string -> Option<string>,
    show: Json -> string, read: string -> Option<Json>,
    decode: seq<byte> -> Option<string>, digest: seq<byte> -> string)

  datatype Tool = Codex | ClaudeCode
  datatype Role = User | Assistant
  datatype Rejection = UnsupportedSchema | RawOrToolEvent | UnrecognizedEvent
  datatype Verdict = Accepted(tool: Tool, role: Role) | Rejected(seen: Option<Tool>, why: Rejection)

  function RoleName(role: Role): string {
    if role == User then "user" else "assistant"
  }

  function RoleNamed(j: Json): Option<Role> {
    if j == Str("user") then Some(User) else if j == Str("assistant") then Some(Assistant) else None
  }

  function NormalizeTimestamp(env: Env, j: Json): Option<string> {
    if j.Str? && j.s != "" then env.stamp(j.s) else None
  }

  // ---- the auditor ---------------------------------------------------------

  function CodexKeys(): set<string> { {"timestamp", "type", "payload", "schema_version"} }

  function UserPayloadKeys(): set<string> { {"type", "message", "images", "local_images", "text_elements"} }

  function AgentPayloadKeys(): set<string> { {"type", "message", "phase", "memory_citation"} }

  function ResponseKeys(): set<string> { {"type", "role", "content", "phase", "id", "status"} }

  function ForbiddenKeys(): set<string> {
    {"raw", "tool_call", "tool_calls", "tool_result", "tool_results",
     "reasoning", "thinking", "system", "instructions"}
  }

  function ClaudeKeys(): set<string> {
    {"parentUuid", "isSidechain", "userType", "cwd", "sessionId",
     "version", "gitBranch", "type", "message", "uuid", "timestamp",
     "isMeta", "isVisibleInTranscript", "requestId", "agentId",
     "schema_version"}
  }

  function MessageKeys(): set<string> {
    {"role", "content", "model", "id", "type", "stop_reason",
     "stop_sequence", "usage", "context_management"}
  }

  function MetadataKinds(): set<string> {
    {"session_meta", "turn_context", "reasoning", "system", "progress", "file-history-snapshot", "queue-operation"}
  }

  function ClaudeMetadata(): set<string> {
    {"system", "progress", "file-history-snapshot", "queue-operation"}
  }

  predicate Opens(env: Env, text: string, prefix: string) {
    prefix <= env.lower(StripLeft(text))
  }

  /** The instruction wrappers each event form refuses in user text. */
  predicate EventWrapper(env: Env, text: string) {
    || Opens(env, text, "<permissions") || Opens(env, text, "<environment_context")
    || Opens(env, text, "<user_instructions") || Opens(env, text, "<skill") || Opens(env, text, "<developer")
  }

  predicate ResponseWrapper(env: Env, text: string) {
    EventWrapper(env, text) || Opens(env, text, "<system")
  }

  predicate ClaudeWrapper(env: Env, text: string) {
    Opens(env, text, "<system") || Opens(env, text, "<permissions") || Opens(env, text, "<environment_context")
  }

  predicate Blank(text: string) {
    Strip(text) == ""
  }

  /** `schema_version` is absent or the number or text one; a boolean is neither. */
  predicate SchemaSupported(event: Object) {
    "schema_version" in event ==> event["schema_version"] in {Int(1), Real(1.0), Str("1")}
  }

  predicate TextBlock(j: Json, allowed: set<string>) {
    && j.Dict? && j.entries.Keys == {"type", "text"}
    && j.entries["type"].Str? && j.entries["type"].s in allowed && j.entries["text"].Str?
  }

  /** The non-blank texts of a list made of text blocks only. */
  function BlockTexts(items: seq<Json>, allowed: set<string>): Option<seq<string>> {
    if items == [] then Some([])
    else
      var n := |items| - 1;
      var front := BlockTexts(items[..n], allowed);
      if front.None? || !TextBlock(items[n], allowed) then None
      else if Blank(items[n].entries["text"].s) then front
      else Some(front.value + [items[n].entries["text"].s])
  }

  function JoinLines(parts: seq<string>): string {
    if parts == [] then ""
    else if |parts| == 1 then parts[0]
    else JoinLines(parts[..|parts| - 1]) + "\n" + parts[|parts| - 1]
  }

  function ProjectedText(content: Json, allowed: set<string>): Option<string> {
    match content
    case Str(s) => if Blank(s) then None else Some(s)
    case List(items) =>
      var parts := BlockTexts(items, allowed);
      if parts.None? || parts.value == [] then None else Some(JoinLines(parts.value))
    case _ => None
  }

  function ClassifyEventMessage(env: Env, event: Object): Verdict {
    var raw := Rejected(Some(Codex), RawOrToolEvent);
    var payload := Get(event, "payload");
    if !(event.Keys <= CodexKeys()) then raw
    else if !payload.Dict? then Rejected(Some(Codex), UnrecognizedEvent)
    else
      var body := payload.entries;
      var kind := Get(body, "type");
      if ForbiddenKeys() * event.Keys != {} || ForbiddenKeys() * body.Keys != {} then raw
      else if kind !in {Str("user_message"), Str("agent_message")} then raw
      else if !(body.Keys <= (if kind == Str("user_message") then UserPayloadKeys() else AgentPayloadKeys())) then raw
      else
        var message := Get(body, "message");
        if !message.Str? || Blank(message.s) then raw
        else if kind == Str("user_message") && EventWrapper(env, message.s) then raw
        else Accepted(Codex, if kind == Str("user_message") then User else Assistant)
  }

  function ClassifyResponseItem(env: Env, event: Object): Verdict {
    var raw := Rejected(Some(Codex), RawOrToolEvent);
    var payload := Get(event, "payload");
    if !(event.Keys <= CodexKeys()) || !payload.Dict? then raw
    else
      var role := RoleNamed(Get(payload.entries, "role"));
      if role.None? || !(payload.entries.Keys <= ResponseKeys()) then raw
      else
        var text := ProjectedText(Get(payload.entries, "content"), {"input_text", "output_text", "text"});
        if text.None? || (role.value == User && ResponseWrapper(env, text.value)) then raw
        else Accepted(Codex, role.value)
  }

  function ClassifyClaude(env: Env, event: Object, role: Role): Verdict {
    var raw := Rejected(Some(ClaudeCode), RawOrToolEvent);
    var message := Get(event, "message");
    if !(event.Keys <= ClaudeKeys()) || Get(event, "isMeta") == Bool(true) then raw
    else if !message.Dict? || !(message.entries.Keys <= MessageKeys()) then raw
    else if RoleNamed(Get(message.entries, "role")) != Some(role) then raw
    else
      var text := ProjectedText(Get(message.entries, "content"), {"text"});
      if text.None? || (role == User && ClaudeWrapper(env, text.value)) then raw
      else Accepted(ClaudeCode, role)
  }

  function Classify(env: Env, event: Object): Verdict {
    var kind := Get(event, "type");
    if !SchemaSupported(event) then Rejected(None, UnsupportedSchema)
    else if kind == Str("event_msg") then ClassifyEventMessage(env, event)
    else if kind == Str("response_item") then ClassifyResponseItem(env, event)
    else if RoleNamed(kind).Some? then ClassifyClaude(env, event, RoleNamed(kind).value)
    else if kind.Str? && kind.s in MetadataKinds() then
      Rejected(Some(if kind.s in ClaudeMetadata() then ClaudeCode else Codex), RawOrToolEvent)
    else Rejected(None, UnrecognizedEvent)
  }

  // ---- the capture hook ----------------------------------------------------

  datatype Form = EventMessage | ResponseItem | ClaudeMessage

  /** What capture keeps of one event. */
  datatype Captured = Captured(form: Form, role: Role, text: string, stamp: Option<string>)

  function ToolOf(form: Form): Tool {
    if form == ClaudeMessage then ClaudeCode else Codex
  }

  function Envelope(kind: string, slot: string, body: Object, stamp: Option<string>): Object {
    var event := map["schema_version" := Int(1), "type" := Str(kind), slot := Dict(body)];
    if stamp.Some? then event["timestamp" := Str(stamp.value)] else event
  }

  function Block(kind: string, text: string): Json {
    Dict(map["type" := Str(kind), "text" := Str(text)])
  }

  function Body(c: Captured): Object {
    match c.form
    case EventMessage =>
      map["type" := Str(if c.role == User then "user_message" else "agent_message"), "message" := Str(c.text)]
    case ResponseItem =>
      map["type" := Str("message"), "role" := Str(RoleName(c.role)),
          "content" := List([Block(if c.role == User then "input_text" else "output_text", c.text)])]
    case ClaudeMessage =>
      map["role" := Str(RoleName(c.role)), "content" := List([Block("text", c.text)])]
  }

  /** The event as it is written out. */
  function Render(c: Captured): Object {
    match c.form
    case EventMessage => Envelope("event_msg", "payload", Body(c), c.stamp)
    case ResponseItem => Envelope("response_item", "payload", Body(c), c.stamp)
    case ClaudeMessage => Envelope(RoleName(c.role), "message", Body(c), c.stamp)
  }

  predicate SpokenBlock(j: Json, allowed: set<string>) {
    && j.Dict? && Get(j.entries, "type").Str? && Get(j.entries, "type").s in allowed
    && Get(j.entries, "text").Str? && !Blank(Get(j.entries, "text").s)
  }

  /** The trimmed texts of the blocks that carry text; other blocks are skipped. */
  function SpokenTexts(items: seq<Json>, allowed: set<string>): seq<string> {
    if items == [] then []
    else
      var n := |items| - 1;
      var front := SpokenTexts(items[..n], allowed);
      if SpokenBlock(items[n], allowed) then front + [Strip(Get(items[n].entries, "text").s)] else front
  }

  function ConversationText(content: Json, allowed: set<string>): Option<string> {
    match content
    case Str(s) => if Blank(s) then None else Some(Strip(s))
    case List(items) =>
      var parts := SpokenTexts(items, allowed);
      if parts == [] then None else Some(JoinLines(parts))
    case _ => None
  }

  predicate BlockedUserText(env: Env, role: Role, text: string) {
    role == User && ResponseWrapper(env, text)
  }

  function Keep(env: Env, event: Object, form: Form, role: Role, text: string): Option<Captured> {
    if BlockedUserText(env, role, text) then None
    else Some(Captured(form, role, text, NormalizeTimestamp(env, Get(event, "timestamp"))))
  }

  function CodexEventMessage(env: Env, event: Object): Option<Captured> {
    var payload := Get(event, "payload");
    if Get(event, "type") != Str("event_msg") || !(event.Keys <= CodexKeys()) || !payload.Dict? then None
    else
      var kind := Get(payload.entries, "type");
      var message := Get(payload.entries, "message");
      if kind !in {Str("user_message"), Str("agent_message")} then None
      else if !(payload.entries.Keys <=
                  (if kind == Str("user_message") then UserPayloadKeys() else AgentPayloadKeys())) then None
      else if !message.Str? || Blank(message.s) then None
      else
        Keep(env, event, EventMessage, if kind == Str("user_message") then User else Assistant, Strip(message.s))
  }

  function CodexResponseMessage(env: Env, event: Object): Option<Captured> {
    var payload := Get(event, "payload");
    if Get(event, "type") != Str("response_item") || !(event.Keys <= CodexKeys()) || !payload.Dict? then None
    else
      var role := RoleNamed(Get(payload.entries, "role"));
      if role.None? || !(payload.entries.Keys <= ResponseKeys()) then None
      else
        var text := ConversationText(Get(payload.entries, "content"), {"input_text", "output_text", "text"});
        if text.None? then None else Keep(env, event, ResponseItem, role.value, text.value)
  }

  function ClaudeEvent(env: Env, event: Object): Option<Captured> {
    var role := RoleNamed(Get(event, "type"));
    var message := Get(event, "message");
    if role.None? || !(event.Keys <= ClaudeKeys()) || Get(event, "isMeta") == Bool(true) then None
    else if !message.Dict? || !(message.entries.Keys <= MessageKeys()) then None
    else if RoleNamed(Get(message.entries, "role")) != role then None
    else
      var text := ConversationText(Get(message.entries, "content"), {"text"});
      if text.None? then None else Keep(env, event, ClaudeMessage, role.value, text.value)
  }

  function Capture(env: Env, form: Form, event: Object): Option<Captured> {
    match form
    case EventMessage => CodexEventMessage(env, event)
    case ResponseItem => CodexResponseMessage(env, event)
    case ClaudeMessage => ClaudeEvent(env, event)
  }

  // ---- what capture writes, the auditor accepts ----------------------------

  /** Normalising a timestamp twice changes nothing more. */
  ghost predicate StampsOnce(env: Env) {
    forall s, t :: env.stamp(s) == Some(t) ==> t != "" && env.stamp(t) == Some(t)
  }

  /** The captured events: trimmed, non-blank, unblocked text and a normal stamp. */
  ghost predicate Tidy(env: Env, c: Captured) {
    && c.text != "" && Trimmed(c.text) && !BlockedUserText(env, c.role, c.text)
    && (c.stamp.Some? ==> c.stamp.value != "" && env.stamp(c.stamp.value) == c.stamp)
  }

  lemma {:induction false} JoinTrimmed(parts: seq<string>)
    requires parts != [] && forall i :: 0 <= i < |parts| ==> parts[i] != "" && Trimmed(parts[i])
    ensures JoinLines(parts) != "" && Trimmed(JoinLines(parts))
  {
    hide IsSpace;
    if |parts| > 1 {
      JoinTrimmed(parts[..|parts| - 1]);
    }
  }

  lemma {:induction false} SpokenTrimmed(items: seq<Json>, allowed: set<string>)
    ensures forall i :: 0 <= i < |SpokenTexts(items, allowed)| ==>
              SpokenTexts(items, allowed)[i] != "" && Trimmed(SpokenTexts(items, allowed)[i])
  {
    hide Strip, Trimmed;
    if items != [] {
      var n := |items| - 1;
      SpokenTrimmed(items[..n], allowed);
      StripIsNormalForm(if SpokenBlock(items[n], allowed) then Get(items[n].entries, "text").s else "");
    }
  }

  lemma ConversationTrimmed(content: Json, allowed: set<string>)
    ensures var t := ConversationText(content, allowed); t.Some? ==> t.value != "" && Trimmed(t.value)
  {
    hide Strip, Trimmed, SpokenTexts, JoinLines;
    match content
    case Str(s) => StripIsNormalForm(s);
    case List(items) =>
      SpokenTrimmed(items, allowed);
      if SpokenTexts(items, allowed) != [] { JoinTrimmed(SpokenTexts(items, allowed)); }
    case _ =>
  }

  lemma CaptureIsTidy(env: Env, form: Form, event: Object)
    requires StampsOnce(env)
    ensures var c := Capture(env, form, event); c.Some? ==> c.value.form == form && Tidy(env, c.value)
  {
    hide Strip, Trimmed, BlockedUserText, CodexKeys, UserPayloadKeys, AgentPayloadKeys, ResponseKeys, ClaudeKeys,
      MessageKeys, ConversationText;
    match form
    case EventMessage =>
      var payload := Get(event, "payload");
      if payload.Dict? && Get(payload.entries, "message").Str? { StripIsNormalForm(Get(payload.entries, "message").s); }
    case ResponseItem =>
      var payload := Get(event, "payload");
      if payload.Dict? {
        ConversationTrimmed(Get(payload.entries, "content"), {"input_text", "output_text", "text"});
      }
    case ClaudeMessage =>
      var message := Get(event, "message");
      if message.Dict? { ConversationTrimmed(Get(message.entries, "content"), {"text"}); }
  }

  lemma EnvelopeReads(kind: string, slot: string, body: Object, stamp: Option<string>)
    requires slot in {"payload", "message"}
    ensures var e := Envelope(kind, slot, body, stamp);
            && SchemaSupported(e) && Get(e, "type") == Str(kind) && Get(e, slot) == Dict(body)
            && Get(e, "timestamp") == (if stamp.Some? then Str(stamp.value) else Null)
            && e.Keys <= {"timestamp", "type", slot, "schema_version"} && "isMeta" !in e
  {
  }

  lemma OneBlock(kind: string, text: string, allowed: set<string>)
    requires text != "" && Trimmed(text) && kind in allowed
    ensures ProjectedText(List([Block(kind, text)]), allowed) == Some(text)
    ensures ConversationText(List([Block(kind, text)]), allowed) == Some(text)
  {
    hide Strip, Trimmed;
    StripIsNormalForm(text);
    var items := [Block(kind, text)];
    assert items[..0] == [];
    assert BlockTexts([], allowed) == Some([]) && SpokenTexts([], allowed) == [];
    assert Get(items[0].entries, "type") == Str(kind) && Get(items[0].entries, "text") == Str(text);
    assert items[0].entries.Keys == {"type", "text"};
    assert [] + [text] == [text];
    assert BlockTexts(items, allowed) == Some([text]);
    assert SpokenTexts(items, allowed) == [text];
  }

  lemma BodyReads(c: Captured)
    ensures var b := Body(c);
            match c.form
            case EventMessage =>
              && b.Keys == {"type", "message"} && Get(b, "message") == Str(c.text)
              && Get(b, "type") == Str(if c.role == User then "user_message" else "agent_message")
            case ResponseItem =>
              && b.Keys == {"type", "role", "content"} && RoleNamed(Get(b, "role")) == Some(c.role)
              && Get(b, "content") == List([Block(if c.role == User then "input_text" else "output_text", c.text)])
            case ClaudeMessage =>
              && b.Keys == {"role", "content"} && RoleNamed(Get(b, "role")) == Some(c.role)
              && Get(b, "content") == List([Block("text", c.text)])
  {
  }

  lemma EventMessageAgrees(env: Env, c: Captured)
    requires Tidy(env, c) && c.form == EventMessage
    ensures Classify(env, Render(c)) == Accepted(Codex, c.role) && Capture(env, EventMessage, Render(c)) == Some(c)
  {
    hide Strip, StripLeft, Trimmed, Opens, Body, Envelope, RoleNamed;
    StripIsNormalForm(c.text);
    BodyReads(c);
    EnvelopeReads("event_msg", "payload", Body(c), c.stamp);
    PlainKeys();
  }

  lemma PlainKeys()
    ensures ForbiddenKeys() * {"timestamp", "type", "payload", "schema_version"} == {}
    ensures ForbiddenKeys() * {"type", "message"} == {}
  {
  }

  lemma ResponseItemAgrees(env: Env, c: Captured)
    requires Tidy(env, c) && c.form == ResponseItem
    ensures Classify(env, Render(c)) == Accepted(Codex, c.role) && Capture(env, ResponseItem, Render(c)) == Some(c)
  {
    hide Strip, StripLeft, Trimmed, Opens, Body, Envelope, RoleNamed, Block, ProjectedText, ConversationText;
    StripIsNormalForm(c.text);
    BodyReads(c);
    EnvelopeReads("response_item", "payload", Body(c), c.stamp);
    OneBlock(if c.role == User then "input_text" else "output_text", c.text, {"input_text", "output_text", "text"});
    assert "response_item"[0] == 'r' && "event_msg"[0] == 'e';
  }

  lemma ClaudeMessageAgrees(env: Env, c: Captured)
    requires Tidy(env, c) && c.form == ClaudeMessage
    ensures Classify(env, Render(c)) == Accepted(ClaudeCode, c.role) && Capture(env, ClaudeMessage, Render(c)) == Some(c)
  {
    hide Strip, StripLeft, Trimmed, Opens, Body, Envelope, Block, ProjectedText, ConversationText;
    StripIsNormalForm(c.text);
    BodyReads(c);
    EnvelopeReads(RoleName(c.role), "message", Body(c), c.stamp);
    OneBlock("text", c.text, {"text"});
    assert |"user"| == 4 && |"assistant"| == 9 && |"event_msg"| == 9 && |"response_item"| == 13;
    assert "event_msg"[0] == 'e' && "assistant"[0] == 'a';
  }

  /** Every event that capture keeps is accepted by the auditor, as the same tool
      and role, and capturing what was written keeps exactly the same again. */
  lemma {:induction false} CapturedIsAccepted(env: Env, form: Form, event: Object)
    requires StampsOnce(env)
    ensures var c := Capture(env, form, event);
            c.Some? ==>
              && Classify(env, Render(c.value)) == Accepted(ToolOf(form), c.value.role)
              && Capture(env, form, Render(c.value)) == c
  {
    hide Capture, Classify, Render, Tidy;
    CaptureIsTidy(env, form, event);
    var c := Capture(env, form, event);
    if c.Some? {
      match form
      case EventMessage => EventMessageAgrees(env, c.value);
      case ResponseItem => ResponseItemAgrees(env, c.value);
      case ClaudeMessage => ClaudeMessageAgrees(env, c.value);
    }
  }

  lemma RenderStamp(env: Env, c: Captured)
    requires Tidy(env, c)
    ensures NormalizeTimestamp(env, Get(Render(c), "timestamp")) == c.stamp
  {
  }
}
