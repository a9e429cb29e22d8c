/** Exactly which events the auditor accepts, and that capture would have kept them. */
module SessionAcceptance {
  import opened Wrappers
  import opened Text
  import opened Json
  import opened SessionLines
  import opened SessionEvents

  // ---- what a conversation event is ----------------------------------------

  predicate OnlyKeys(o: Object, keys: seq<string>) { forall k :: k in o ==> k in keys }

  /** A block with a kind and a text and nothing else. */
  predicate PureBlock(j: Json, kinds: seq<string>) {
    && j.Dict? && "type" in j.entries && "text" in j.entries && OnlyKeys(j.entries, ["type", "text"])
    && j.entries["type"].Str? && j.entries["type"].s in kinds && j.entries["text"].Str?
  }

  /** Text, or pure text blocks, that says something. */
  predicate Speaks(content: Json, kinds: seq<string>) {
    match content
    case Str(s) => !Blank(s)
    case List(items) =>
      && (forall i :: 0 <= i < |items| ==> PureBlock(items[i], kinds))
      && exists i :: 0 <= i < |items| && PureBlock(items[i], kinds) && !Blank(items[i].entries["text"].s)
    case _ => false
  }

  predicate Begins(env: Env, text: string, openings: seq<string>) {
    exists i :: 0 <= i < |openings| && openings[i] <= env.lower(StripLeft(text))
  }

  const INSTRUCTIONS: seq<string> := ["<permissions", "<environment_context", "<user_instructions", "<skill", "<developer"]

  predicate EventSpeaks(env: Env, event: Object, role: Role) {
    && Get(event, "type") == Str("event_msg") && Get(event, "payload").Dict?
    && OnlyKeys(event, ["timestamp", "type", "payload", "schema_version"])
    && var body := Get(event, "payload").entries;
       && Get(body, "message").Str? && !Blank(Get(body, "message").s)
       && if role == User then
            && Get(body, "type") == Str("user_message")
            && OnlyKeys(body, ["type", "message", "images", "local_images", "text_elements"])
            && !Begins(env, Get(body, "message").s, INSTRUCTIONS)
          else Get(body, "type") == Str("agent_message") && OnlyKeys(body, ["type", "message", "phase", "memory_citation"])
  }

  predicate ResponseSpeaks(env: Env, event: Object, role: Role) {
    && Get(event, "type") == Str("response_item") && Get(event, "payload").Dict?
    && OnlyKeys(event, ["timestamp", "type", "payload", "schema_version"])
    && var body, kinds := Get(event, "payload").entries, ["input_text", "output_text", "text"];
       && OnlyKeys(body, ["type", "role", "content", "phase", "id", "status"])
       && Get(body, "role") == Str(if role == User then "user" else "assistant") && Speaks(Get(body, "content"), kinds)
       && (role == User ==> !Begins(env, Spoken(Get(body, "content"), kinds), INSTRUCTIONS + ["<system"]))
  }

  predicate ClaudeSpeaks(env: Env, event: Object, role: Role) {
    var name := if role == User then "user" else "assistant";
    && Get(event, "type") == Str(name) && Get(event, "isMeta") != Bool(true) && Get(event, "message").Dict?
    && OnlyKeys(event, ["parentUuid", "isSidechain", "userType", "cwd", "sessionId", "version", "gitBranch", "type", "message",
                        "uuid", "timestamp", "isMeta", "isVisibleInTranscript", "requestId", "agentId", "schema_version"])
    && var message := Get(event, "message").entries;
       && OnlyKeys(message, ["role", "content", "model", "id", "type", "stop_reason", "stop_sequence", "usage", "context_management"])
       && Get(message, "role") == Str(name) && Speaks(Get(message, "content"), ["text"])
       && (role == User ==>
             !Begins(env, Spoken(Get(message, "content"), ["text"]), ["<system", "<permissions", "<environment_context"]))
  }

  /** What the auditor reads of text or blocks: the texts that say something, a line
      each. */
  function Spoken(content: Json, kinds: seq<string>): string {
    match content
    case Str(s) => s
    case List(items) => InLines(Texts(items, kinds))
    case _ => ""
  }

  function InLines(texts: seq<string>): string {
    if texts == [] then "" else if |texts| == 1 then texts[0] else texts[0] + "\n" + InLines(texts[1..])
  }

  lemma {:induction false} JoinedInLines(texts: seq<string>)
    ensures JoinLines(texts) == InLines(texts)
    decreases |texts|
  {
    var n := |texts| - 1;
    if n > 0 {
      JoinedInLines(texts[..n]);
      InLinesEnd(texts[..n], texts[n]);
      assert texts == texts[..n] + [texts[n]];
    }
  }

  lemma {:induction false} InLinesEnd(texts: seq<string>, t: string)
    requires texts != []
    ensures InLines(texts + [t]) == InLines(texts) + "\n" + t
  {
    assert (texts + [t])[1..] == texts[1..] + [t] && (texts + [t])[0] == texts[0];
    if |texts| > 1 {
      InLinesEnd(texts[1..], t);
      assert texts[0] + "\n" + (InLines(texts[1..]) + "\n" + t) == texts[0] + "\n" + InLines(texts[1..]) + "\n" + t;
    }
  }

  function Texts(items: seq<Json>, kinds: seq<string>): seq<string> {
    if items == [] then []
    else
      var n := |items| - 1;
      Texts(items[..n], kinds) +
      if PureBlock(items[n], kinds) && !Blank(items[n].entries["text"].s) then [items[n].entries["text"].s] else []
  }

  predicate Speaking(env: Env, event: Object, tool: Tool, role: Role) {
    && ("schema_version" !in event || event["schema_version"] == Int(1) || event["schema_version"] == Real(1.0)
        || event["schema_version"] == Str("1"))
    && match tool
       case Codex => EventSpeaks(env, event, role) || ResponseSpeaks(env, event, role)
       case ClaudeCode => ClaudeSpeaks(env, event, role)
  }

  // ---- the auditor accepts nothing else ------------------------------------

  lemma CodexKeysAre()
    ensures forall k :: k in CodexKeys() <==> k in ["timestamp", "type", "payload", "schema_version"]
  {
  }

  lemma PayloadKeysAre()
    ensures forall k :: k in UserPayloadKeys() <==> k in ["type", "message", "images", "local_images", "text_elements"]
    ensures forall k :: k in AgentPayloadKeys() <==> k in ["type", "message", "phase", "memory_citation"]
    ensures forall k :: k in ResponseKeys() <==> k in ["type", "role", "content", "phase", "id", "status"]
  {
  }

  lemma ClaudeKeysAre()
    ensures forall k :: k in ClaudeKeys() <==>
              k in ["parentUuid", "isSidechain", "userType", "cwd", "sessionId", "version", "gitBranch", "type", "message",
                    "uuid", "timestamp", "isMeta", "isVisibleInTranscript", "requestId", "agentId", "schema_version"]
  {
  }

  lemma MessageKeysAre()
    ensures forall k :: k in MessageKeys() <==>
              k in ["role", "content", "model", "id", "type", "stop_reason", "stop_sequence", "usage", "context_management"]
  {
  }

  lemma NoneForbidden()
    ensures ForbiddenKeys() !! CodexKeys()
    ensures ForbiddenKeys() !! UserPayloadKeys() + AgentPayloadKeys()
  {
    ForbiddenApart();
  }

  lemma ForbiddenApart()
    ensures forall k :: k in ForbiddenKeys() ==> k !in CodexKeys()
    ensures forall k :: k in ForbiddenKeys() ==> k !in UserPayloadKeys() && k !in AgentPayloadKeys()
  {
  }

  lemma WrappersAre(env: Env, text: string)
    ensures EventWrapper(env, text) <==> Begins(env, text, INSTRUCTIONS)
    ensures ResponseWrapper(env, text) <==> Begins(env, text, INSTRUCTIONS + ["<system"])
    ensures ClaudeWrapper(env, text) <==> Begins(env, text, ["<system", "<permissions", "<environment_context"])
  {
    hide StripLeft;
    var six, three := INSTRUCTIONS + ["<system"], ["<system", "<permissions", "<environment_context"];
    assert INSTRUCTIONS[0] == "<permissions" && INSTRUCTIONS[1] == "<environment_context" && INSTRUCTIONS[2] == "<user_instructions"
        && INSTRUCTIONS[3] == "<skill" && INSTRUCTIONS[4] == "<developer" && |INSTRUCTIONS| == 5;
    assert six[..5] == INSTRUCTIONS && six[5] == "<system" && |six| == 6;
    assert forall i :: 0 <= i < 5 ==> six[i] == INSTRUCTIONS[i];
    assert three[0] == "<system" && three[1] == "<permissions" && three[2] == "<environment_context";
  }

  lemma PureIff(j: Json, kinds: seq<string>, allowed: set<string>)
    requires forall t :: t in kinds <==> t in allowed
    ensures PureBlock(j, kinds) <==> TextBlock(j, allowed)
  {
    if j.Dict? && "type" in j.entries && "text" in j.entries {
      assert OnlyKeys(j.entries, ["type", "text"]) <==> j.entries.Keys == {"type", "text"};
    }
  }

  lemma {:induction false} BlocksIff(items: seq<Json>, kinds: seq<string>, allowed: set<string>)
    requires forall t :: t in kinds <==> t in allowed
    ensures BlockTexts(items, allowed).Some? <==> forall i :: 0 <= i < |items| ==> PureBlock(items[i], kinds)
    ensures BlockTexts(items, allowed).Some? ==> BlockTexts(items, allowed).value == Texts(items, kinds)
    ensures Texts(items, kinds) != [] <==> exists i :: 0 <= i < |items| && PureBlock(items[i], kinds) && !Blank(items[i].entries["text"].s)
  {
    hide PureBlock, TextBlock, Blank;
    if items != [] {
      var n := |items| - 1;
      BlocksIff(items[..n], kinds, allowed);
      PureIff(items[n], kinds, allowed);
      assert forall i :: 0 <= i < n ==> items[..n][i] == items[i];
      if TextBlock(items[n], allowed) { BlockParts(items[n], kinds); }
      assert items == items[..n] + [items[n]];
    }
  }

  lemma BlockParts(j: Json, kinds: seq<string>)
    requires PureBlock(j, kinds)
    ensures j.Dict? && "text" in j.entries && j.entries["text"].Str?
  {
  }

  lemma {:induction false} ProjectedIff(content: Json, kinds: seq<string>, allowed: set<string>)
    requires forall t :: t in kinds <==> t in allowed
    ensures ProjectedText(content, allowed).Some? <==> Speaks(content, kinds)
    ensures ProjectedText(content, allowed).Some? ==> ProjectedText(content, allowed).value == Spoken(content, kinds)
  {
    hide PureBlock, TextBlock, Blank, BlockTexts, Texts, JoinLines;
    if content.List? {
      BlocksIff(content.items, kinds, allowed);
      JoinedInLines(Texts(content.items, kinds));
    }
  }

  lemma {:induction false} EventIff(env: Env, event: Object, role: Role)
    requires Get(event, "type") == Str("event_msg")
    ensures ClassifyEventMessage(env, event) == Accepted(Codex, role) <==> EventSpeaks(env, event, role)
  {
    hide Blank, Opens, EventWrapper, Begins, CodexKeys, UserPayloadKeys, AgentPayloadKeys, ForbiddenKeys, INSTRUCTIONS;
    CodexKeysAre();
    PayloadKeysAre();
    NoneForbidden();
    assert "user_message"[0] != "agent_message"[0];
    forall text ensures EventWrapper(env, text) <==> Begins(env, text, INSTRUCTIONS) { WrappersAre(env, text); }
  }

  lemma {:induction false} ResponseIff(env: Env, event: Object, role: Role)
    requires Get(event, "type") == Str("response_item")
    ensures ClassifyResponseItem(env, event) == Accepted(Codex, role) <==> ResponseSpeaks(env, event, role)
  {
    hide Blank, Opens, ResponseWrapper, Begins, CodexKeys, ResponseKeys, INSTRUCTIONS, ProjectedText, Speaks, Spoken;
    CodexKeysAre();
    PayloadKeysAre();
    assert "user"[0] != "assistant"[0];
    forall text ensures ResponseWrapper(env, text) <==> Begins(env, text, INSTRUCTIONS + ["<system"]) { WrappersAre(env, text); }
    var payload := Get(event, "payload");
    if payload.Dict? {
      ProjectedIff(Get(payload.entries, "content"), ["input_text", "output_text", "text"], {"input_text", "output_text", "text"});
    }
  }

  lemma {:induction false} ClaudeIff(env: Env, event: Object, role: Role, own: Role)
    requires Get(event, "type") == Str(RoleName(own))
    ensures ClassifyClaude(env, event, own) == Accepted(ClaudeCode, role) <==> role == own && ClaudeSpeaks(env, event, role)
  {
    hide Blank, Opens, ClaudeWrapper, Begins, ClaudeKeys, MessageKeys, ProjectedText, Speaks, Spoken;
    ClaudeKeysAre();
    MessageKeysAre();
    assert "user"[0] != "assistant"[0];
    forall text ensures ClaudeWrapper(env, text) <==> Begins(env, text, ["<system", "<permissions", "<environment_context"]) {
      WrappersAre(env, text);
    }
    var message := Get(event, "message");
    if message.Dict? { ProjectedIff(Get(message.entries, "content"), ["text"], {"text"}); }
  }

  /** The auditor accepts an event exactly if it is a conversation event of the tool and
      role: no foreign key, no meta event, nothing but text, no instruction wrapper in a
      user's mouth. */
  lemma {:induction false} AcceptedIff(env: Env, event: Object, tool: Tool, role: Role)
    ensures Classify(env, event) == Accepted(tool, role) <==> Speaking(env, event, tool, role)
  {
    hide ClassifyEventMessage, ClassifyResponseItem, ClassifyClaude, EventSpeaks, ResponseSpeaks, ClaudeSpeaks, MetadataKinds;
    var kind := Get(event, "type");
    KindsApart();
    KindsNeeded(env, event, role);
    SameTool(env, event);
    if kind == Str("event_msg") { EventIff(env, event, role); }
    if kind == Str("response_item") { ResponseIff(env, event, role); }
    if RoleNamed(kind).Some? { ClaudeIff(env, event, role, RoleNamed(kind).value); }
  }

  lemma KindsApart()
    ensures "event_msg" !in {"response_item", "user", "assistant"} && "response_item" !in {"user", "assistant"} && "user" != "assistant"
  {
    assert "event_msg"[0] == 'e' && "response_item"[0] == 'r' && "user"[0] == 'u' && "assistant"[0] == 'a';
  }

  lemma KindsNeeded(env: Env, event: Object, role: Role)
    ensures EventSpeaks(env, event, role) ==> Get(event, "type") == Str("event_msg")
    ensures ResponseSpeaks(env, event, role) ==> Get(event, "type") == Str("response_item")
    ensures ClaudeSpeaks(env, event, role) ==> Get(event, "type") == Str(RoleName(role))
  {
    hide Blank, Begins, Speaks, OnlyKeys, Spoken;
  }

  lemma SameTool(env: Env, event: Object)
    ensures ClassifyEventMessage(env, event).Accepted? ==> ClassifyEventMessage(env, event).tool == Codex
    ensures ClassifyResponseItem(env, event).Accepted? ==> ClassifyResponseItem(env, event).tool == Codex
    ensures forall role :: ClassifyClaude(env, event, role).Accepted? ==> ClassifyClaude(env, event, role).tool == ClaudeCode
  {
    hide Blank, EventWrapper, ResponseWrapper, ClaudeWrapper, ProjectedText, ForbiddenKeys, CodexKeys, ClaudeKeys, MessageKeys,
      UserPayloadKeys, AgentPayloadKeys, ResponseKeys;
  }

  /** Why the auditor refuses an event, and which tool it takes it for: events of an
      unsupported schema and of no known kind come from no tool, and a Codex event without
      a payload is unrecognised; everything else refused is raw. */
  lemma {:induction false} RefusedExactly(env: Env, event: Object)
    requires Classify(env, event).Rejected?
    ensures var v, kind := Classify(env, event), Get(event, "type");
            var codex := kind in {Str("event_msg"), Str("response_item"), Str("session_meta"), Str("turn_context"), Str("reasoning")};
            var claude := kind in {Str("user"), Str("assistant"), Str("system"), Str("progress"), Str("file-history-snapshot"),
                                   Str("queue-operation")};
            var supported := "schema_version" !in event || event["schema_version"] in {Int(1), Real(1.0), Str("1")};
      && (v.why == UnsupportedSchema <==> !supported)
      && (v.why == UnrecognizedEvent <==>
            supported && ((!codex && !claude)
                          || (kind == Str("event_msg") && !Get(event, "payload").Dict?
                              && OnlyKeys(event, ["timestamp", "type", "payload", "schema_version"]))))
      && v.seen == if !supported then None else if codex then Some(Codex) else if claude then Some(ClaudeCode) else None
  {
    hide Blank, EventWrapper, ResponseWrapper, ClaudeWrapper, ProjectedText, ForbiddenKeys, CodexKeys, ClaudeKeys, MessageKeys,
      UserPayloadKeys, AgentPayloadKeys, ResponseKeys;
    KindsApart();
    CodexKeysAre();
    MetadataApart();
  }

  lemma MetadataApart()
    ensures forall k :: k in MetadataKinds() ==> k !in {"event_msg", "response_item", "user", "assistant"}
    ensures forall k :: k in MetadataKinds() <==>
              k in {"session_meta", "turn_context", "reasoning"} || k in ClaudeMetadata()
    ensures forall k :: k in ClaudeMetadata() <==> k in {"system", "progress", "file-history-snapshot", "queue-operation"}
    ensures forall k :: k in ClaudeMetadata() ==> k !in {"session_meta", "turn_context", "reasoning"}
  {
  }

  // ---- capture would have kept it ------------------------------------------

  /** The text capture reads from an event. */
  function CapturedText(event: Object, form: Form): Option<string> {
    match form
    case EventMessage =>
      var payload := Get(event, "payload");
      if payload.Dict? && Get(payload.entries, "message").Str? then Some(Strip(Get(payload.entries, "message").s)) else None
    case ResponseItem =>
      var payload := Get(event, "payload");
      if payload.Dict? then ConversationText(Get(payload.entries, "content"), {"input_text", "output_text", "text"}) else None
    case ClaudeMessage =>
      var message := Get(event, "message");
      if message.Dict? then ConversationText(Get(message.entries, "content"), {"text"}) else None
  }

  lemma {:induction false} PureIsSpoken(items: seq<Json>, allowed: set<string>)
    requires BlockTexts(items, allowed).Some? && BlockTexts(items, allowed).value != []
    ensures SpokenTexts(items, allowed) != []
  {
    hide Strip;
    if items != [] {
      var n := |items| - 1;
      if BlockTexts(items[..n], allowed).value != [] { PureIsSpoken(items[..n], allowed); }
    }
  }

  lemma SpeechIsHeard(content: Json, allowed: set<string>)
    requires ProjectedText(content, allowed).Some?
    ensures ConversationText(content, allowed).Some?
  {
    hide Strip, BlockTexts, SpokenTexts, JoinLines;
    if content.List? { PureIsSpoken(content.items, allowed); }
  }

  /** Whatever the auditor accepts, capture keeps, as the same tool and role, unless it is
      a user's text that opens an instruction wrapper. */
  lemma {:induction false} AcceptedIsCaptured(env: Env, event: Object, tool: Tool, role: Role) returns (form: Form)
    requires Classify(env, event) == Accepted(tool, role)
    ensures ToolOf(form) == tool && CapturedText(event, form).Some?
    ensures var text := CapturedText(event, form).value;
            if role == User && Begins(env, text, INSTRUCTIONS + ["<system"]) then Capture(env, form, event) == None
            else Capture(env, form, event) == Some(Captured(form, role, text, NormalizeTimestamp(env, Get(event, "timestamp"))))
  {
    hide Strip, Blank, Opens, Begins, INSTRUCTIONS, CodexKeys, UserPayloadKeys, AgentPayloadKeys, ResponseKeys, ClaudeKeys, MessageKeys,
      ProjectedText, ConversationText, ForbiddenKeys, EventWrapper, ClaudeWrapper, ResponseWrapper, MetadataKinds, NormalizeTimestamp;
    KindsApart();
    var kind := Get(event, "type");
    form := if kind == Str("event_msg") then EventMessage else if kind == Str("response_item") then ResponseItem else ClaudeMessage;
    if form == ResponseItem {
      SpeechIsHeard(Get(Get(event, "payload").entries, "content"), {"input_text", "output_text", "text"});
    }
    if form == ClaudeMessage { SpeechIsHeard(Get(Get(event, "message").entries, "content"), {"text"}); }
    WrappersAre(env, CapturedText(event, form).value);
  }
}
