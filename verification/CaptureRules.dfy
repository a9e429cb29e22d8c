/** Exactly which events capture keeps, what it writes for them, and which transcripts it
    refuses. */
module CaptureRules {
  import opened Wrappers
  import opened Text
  import opened Json
  import opened SessionLines
  import opened SessionEvents
  import opened SessionAcceptance
  import opened SessionCapture

  // ---- what an event tells -------------------------------------------------

  /** A block of one of the kinds that says something; it may hold other things. */
  predicate VocalBlock(j: Json, kinds: seq<string>) {
    && j.Dict? && "type" in j.entries && "text" in j.entries
    && j.entries["type"].Str? && j.entries["type"].s in kinds
    && j.entries["text"].Str? && Strip(j.entries["text"].s) != ""
  }

  /** What the vocal blocks say, trimmed, in order. */
  function Voices(items: seq<Json>, kinds: seq<string>): seq<string> {
    if items == [] then []
    else
      var n := |items| - 1;
      Voices(items[..n], kinds) + if VocalBlock(items[n], kinds) then [Strip(items[n].entries["text"].s)] else []
  }

  predicate SaysText(content: Json, kinds: seq<string>, text: string) {
    match content
    case Str(s) => text == Strip(s) && text != ""
    case List(items) => Voices(items, kinds) != [] && text == InLines(Voices(items, kinds))
    case _ => false
  }

  predicate EventTells(event: Object, role: Role, text: string) {
    && Get(event, "type") == Str("event_msg") && OnlyKeys(event, ["timestamp", "type", "payload", "schema_version"])
    && Get(event, "payload").Dict?
    && var body := Get(event, "payload").entries;
       && Get(body, "message").Str? && text == Strip(Get(body, "message").s) && text != ""
       && if role == User then
            Get(body, "type") == Str("user_message") && OnlyKeys(body, ["type", "message", "images", "local_images", "text_elements"])
          else Get(body, "type") == Str("agent_message") && OnlyKeys(body, ["type", "message", "phase", "memory_citation"])
  }

  predicate ResponseTells(event: Object, role: Role, text: string) {
    && Get(event, "type") == Str("response_item") && OnlyKeys(event, ["timestamp", "type", "payload", "schema_version"])
    && Get(event, "payload").Dict?
    && var body := Get(event, "payload").entries;
       && OnlyKeys(body, ["type", "role", "content", "phase", "id", "status"])
       && Get(body, "role") == Str(if role == User then "user" else "assistant")
       && SaysText(Get(body, "content"), ["input_text", "output_text", "text"], text)
  }

  predicate ClaudeTells(event: Object, role: Role, text: string) {
    var name := if role == User then "user" else "assistant";
    && Get(event, "type") == Str(name) && Get(event, "isMeta") != Bool(true) && Get(event, "message").Dict?
    && OnlyKeys(event, ["parentUuid", "isSidechain", "userType", "cwd", "sessionId", "version", "gitBranch", "type", "message",
                        "uuid", "timestamp", "isMeta", "isVisibleInTranscript", "requestId", "agentId", "schema_version"])
    && var message := Get(event, "message").entries;
       && OnlyKeys(message, ["role", "content", "model", "id", "type", "stop_reason", "stop_sequence", "usage", "context_management"])
       && Get(message, "role") == Str(name) && SaysText(Get(message, "content"), ["text"], text)
  }

  predicate Tells(event: Object, form: Form, role: Role, text: string) {
    match form
    case EventMessage => EventTells(event, role, text)
    case ResponseItem => ResponseTells(event, role, text)
    case ClaudeMessage => ClaudeTells(event, role, text)
  }

  /** The event's time, if it states one. */
  predicate Timed(env: Env, event: Object, stamp: Option<string>) {
    stamp == if Get(event, "timestamp").Str? && |Get(event, "timestamp").s| > 0 then env.stamp(Get(event, "timestamp").s) else None
  }

  /** What capture keeps of an event in this form. */
  predicate KeptAs(env: Env, event: Object, c: Captured) {
    && Tells(event, c.form, c.role, c.text) && Timed(env, event, c.stamp)
    && (c.role == User ==> !Begins(env, c.text, INSTRUCTIONS + ["<system"]))
  }

  lemma {:induction false} VoicesIff(items: seq<Json>, kinds: seq<string>, allowed: set<string>)
    requires forall t :: t in kinds <==> t in allowed
    ensures SpokenTexts(items, allowed) == Voices(items, kinds)
  {
    hide Strip, Blank;
    if items != [] {
      var n := |items| - 1;
      VoicesIff(items[..n], kinds, allowed);
      VocalIff(items[n], kinds, allowed);
    }
  }

  lemma VocalIff(j: Json, kinds: seq<string>, allowed: set<string>)
    requires forall t :: t in kinds <==> t in allowed
    ensures SpokenBlock(j, allowed) <==> VocalBlock(j, kinds)
    ensures VocalBlock(j, kinds) ==> j.Dict? && "text" in j.entries && Get(j.entries, "text") == j.entries["text"]
  {
  }

  lemma {:induction false} SaysIff(content: Json, kinds: seq<string>, allowed: set<string>, text: string)
    requires forall t :: t in kinds <==> t in allowed
    ensures ConversationText(content, allowed) == Some(text) <==> SaysText(content, kinds, text)
  {
    hide Strip, Voices, SpokenTexts, JoinLines;
    if content.List? {
      VoicesIff(content.items, kinds, allowed);
      JoinedInLines(Voices(content.items, kinds));
    }
  }

  lemma BlockedIff(env: Env, role: Role, text: string)
    ensures BlockedUserText(env, role, text) <==> role == User && Begins(env, text, INSTRUCTIONS + ["<system"])
  {
    hide Begins, ResponseWrapper;
    WrappersAre(env, text);
  }

  lemma {:induction false} EventKept(env: Env, event: Object, c: Captured)
    ensures CodexEventMessage(env, event) == Some(c) <==> c.form == EventMessage && KeptAs(env, event, c)
  {
    hide Strip, BlockedUserText, Begins, CodexKeys, UserPayloadKeys, AgentPayloadKeys, INSTRUCTIONS, ResponseTells, ClaudeTells;
    CodexKeysAre();
    PayloadKeysAre();
    assert "user_message"[0] != "agent_message"[0];
    BlockedIff(env, c.role, c.text);
  }

  lemma {:induction false} ResponseKept(env: Env, event: Object, c: Captured)
    ensures CodexResponseMessage(env, event) == Some(c) <==> c.form == ResponseItem && KeptAs(env, event, c)
  {
    hide Strip, BlockedUserText, Begins, CodexKeys, ResponseKeys, INSTRUCTIONS, EventTells, ClaudeTells, ConversationText, SaysText;
    CodexKeysAre();
    PayloadKeysAre();
    assert "user"[0] != "assistant"[0];
    BlockedIff(env, c.role, c.text);
    var payload := Get(event, "payload");
    if payload.Dict? {
      SaysIff(Get(payload.entries, "content"), ["input_text", "output_text", "text"], {"input_text", "output_text", "text"}, c.text);
    }
  }

  lemma {:induction false} ClaudeKept(env: Env, event: Object, c: Captured)
    ensures ClaudeEvent(env, event) == Some(c) <==> c.form == ClaudeMessage && KeptAs(env, event, c)
  {
    hide Strip, BlockedUserText, Begins, ClaudeKeys, MessageKeys, INSTRUCTIONS, EventTells, ResponseTells, ConversationText, SaysText;
    ClaudeKeysAre();
    MessageKeysAre();
    assert "user"[0] != "assistant"[0];
    BlockedIff(env, c.role, c.text);
    var message := Get(event, "message");
    if message.Dict? { SaysIff(Get(message.entries, "content"), ["text"], {"text"}, c.text); }
  }

  /** Capture keeps an event in a form exactly if the event tells a text in that form that
      opens no instruction wrapper in a user's mouth; it keeps that text and the time. */
  lemma {:induction false} CapturedIff(env: Env, form: Form, event: Object, c: Captured)
    ensures Capture(env, form, event) == Some(c) <==> c.form == form && KeptAs(env, event, c)
  {
    hide CodexEventMessage, CodexResponseMessage, ClaudeEvent, KeptAs;
    match form
    case EventMessage => EventKept(env, event, c);
    case ResponseItem => ResponseKept(env, event, c);
    case ClaudeMessage => ClaudeKept(env, event, c);
  }

  // ---- transcripts ---------------------------------------------------------

  lemma {:induction false} PicksAre(env: Env, form: Form, events: seq<Object>)
    ensures forall c :: c in Picks(env, form, events) <==>
              c.form == form && exists i :: 0 <= i < |events| && KeptAs(env, events[i], c)
  {
    hide Capture, KeptAs;
    if events != [] {
      var n := |events| - 1;
      PicksAre(env, form, events[..n]);
      assert forall i :: 0 <= i < n ==> events[..n][i] == events[i];
      forall c ensures Capture(env, form, events[n]) == Some(c) <==> c.form == form && KeptAs(env, events[n], c) {
        CapturedIff(env, form, events[n], c);
      }
      forall c
        ensures (exists i :: 0 <= i < |events| && KeptAs(env, events[i], c)) <==>
                (exists i :: 0 <= i < n && KeptAs(env, events[..n][i], c)) || KeptAs(env, events[n], c)
      {
        if i :| 0 <= i < |events| && KeptAs(env, events[i], c) { assert i < n ==> KeptAs(env, events[..n][i], c); }
        if i :| 0 <= i < n && KeptAs(env, events[..n][i], c) { assert KeptAs(env, events[i], c); }
      }
    }
  }

  /** Of a transcript capture keeps all events of the tool's form; for Codex these are the
      event messages, and the response items only if there are none. */
  lemma {:induction false} KeptExactly(env: Env, tool: Tool, events: seq<Object>, c: Captured)
    ensures c in Kept(env, tool, events) <==>
      && (exists i :: 0 <= i < |events| && KeptAs(env, events[i], c))
      && (tool == ClaudeCode <==> c.form == ClaudeMessage)
      && (c.form == ResponseItem ==>
            forall d: Captured, i :: d.form == EventMessage && 0 <= i < |events| ==> !KeptAs(env, events[i], d))
  {
    hide Capture, KeptAs, Picks;
    PicksAre(env, FormFor(env, tool, events), events);
    PicksAre(env, EventMessage, events);
    var messages := Picks(env, EventMessage, events);
    if messages != [] { assert messages[0] in messages; }
  }

  /** The line cannot be captured, and why. */
  predicate Refuses(env: Env, line: string, why: string) {
    if Strip(line) == "" then why == "transcript contains a blank JSONL line"
    else if env.read(line) == None then why == "transcript contains malformed JSONL"
    else if !env.read(line).value.Dict? then why == "transcript contains a non-object JSONL event"
    else !Supported(env.read(line).value.entries) && why == "transcript declares an unsupported schema version"
  }

  /** No schema version, or version one. */
  predicate Supported(event: Object) {
    || "schema_version" !in event || event["schema_version"] == Int(1) || event["schema_version"] == Real(1.0)
    || event["schema_version"] == Str("1")
  }

  /** The line reads as this event. */
  predicate ReadsAs(env: Env, line: string, event: Object) {
    Strip(line) != "" && env.read(line) == Some(Dict(event)) && Supported(event)
  }

  lemma LineIff(env: Env, line: string)
    ensures forall why :: ReadEvent(env, line) == Err(why) <==> Refuses(env, line, why)
    ensures forall event :: ReadEvent(env, line) == Ok(event) <==> ReadsAs(env, line, event)
  {
    hide Strip;
    forall event ensures Supported(event) <==> SchemaSupported(event) {}
    hide Supported, SchemaSupported;
    assert forall why :: ReadEvent(env, line) == Err(why) <==> Refuses(env, line, why);
    if ReadEvent(env, line).Err? { assert Refuses(env, line, ReadEvent(env, line).reason); }
  }

  /** The first line that cannot be captured decides. */
  lemma {:induction false} EventsIff(env: Env, lines: seq<string>)
    ensures match ReadEvents(env, lines)
            case Ok(events) => |events| == |lines| && forall i :: 0 <= i < |lines| ==> ReadsAs(env, lines[i], events[i])
            case Err(why) =>
              exists n :: 0 <= n < |lines| && Refuses(env, lines[n], why)
                && forall i :: 0 <= i < n ==> forall other :: !Refuses(env, lines[i], other)
  {
    hide ReadEvent, ReadsAs, Refuses;
    if lines != [] {
      var n := |lines| - 1;
      EventsIff(env, lines[..n]);
      LineIff(env, lines[n]);
      assert forall i :: 0 <= i < n ==> lines[..n][i] == lines[i];
      match ReadEvents(env, lines[..n]) {
        case Ok(front) =>
          forall i, other | 0 <= i < n ensures !Refuses(env, lines[i], other) {
            assert ReadsAs(env, lines[..n][i], front[i]);
            ReadIsNotRefused(env, lines[i], front[i], other);
          }
        case Err(_) =>
      }
    }
  }

  lemma ReadIsNotRefused(env: Env, line: string, event: Object, why: string)
    ensures ReadsAs(env, line, event) ==> !Refuses(env, line, why)
  {
  }

  /** Which transcripts are read: strict UTF-8 of one to ten thousand lines, each an object
      of a supported schema; otherwise the first trouble is reported. */
  lemma {:induction false} TranscriptExactly(env: Env, data: seq<byte>)
    ensures var text := env.decode(data);
      match Transcript(env, data)
      case Ok(events) =>
        && text.Some? && var lines := Lines(TextBreaks(), text.value);
           && 1 <= |lines| <= 10000 && |events| == |lines|
           && forall i :: 0 <= i < |lines| ==> ReadsAs(env, lines[i], events[i])
      case Err(why) =>
        if text.None? then why == "transcript is not strict UTF-8"
        else
          var lines := Lines(TextBreaks(), text.value);
          if |lines| > 10000 then why == "transcript exceeds the bounded JSONL line count"
          else if |lines| == 0 then why == "transcript contains no JSONL events"
          else exists n :: 0 <= n < |lines| && Refuses(env, lines[n], why)
                 && forall i :: 0 <= i < n ==> forall other :: !Refuses(env, lines[i], other)
  {
    hide ReadEvents, ReadsAs, Refuses, Lines;
    if env.decode(data).Some? { EventsIff(env, Lines(TextBreaks(), env.decode(data).value)); }
  }

  // ---- what is written -----------------------------------------------------

  /** One block with a kind and the text. */
  predicate IsBlock(j: Json, kind: string, text: string) {
    j.Dict? && OnlyKeys(j.entries, ["type", "text"]) && Get(j.entries, "type") == Str(kind) && Get(j.entries, "text") == Str(text)
  }

  predicate IsBlockList(j: Json, kind: string, text: string) { j.List? && |j.items| == 1 && IsBlock(j.items[0], kind, text) }

  /** The event as written: schema version one, the form's own shape around role and text,
      and the time if there is one. */
  predicate WrittenAs(o: Object, c: Captured) {
    && Get(o, "schema_version") == Int(1)
    && (c.stamp.None? ==> "timestamp" !in o) && (c.stamp.Some? ==> Get(o, "timestamp") == Str(c.stamp.value))
    && match c.form
       case EventMessage =>
         && Get(o, "type") == Str("event_msg") && OnlyKeys(o, ["schema_version", "type", "timestamp", "payload"])
         && Get(o, "payload").Dict?
         && var body := Get(o, "payload").entries;
            && OnlyKeys(body, ["type", "message"]) && Get(body, "message") == Str(c.text)
            && Get(body, "type") == (match c.role case User => Str("user_message") case Assistant => Str("agent_message"))
       case ResponseItem =>
         && Get(o, "type") == Str("response_item") && OnlyKeys(o, ["schema_version", "type", "timestamp", "payload"])
         && Get(o, "payload").Dict?
         && var body := Get(o, "payload").entries;
            && OnlyKeys(body, ["type", "role", "content"]) && Get(body, "type") == Str("message")
            && Get(body, "role") == (match c.role case User => Str("user") case Assistant => Str("assistant"))
            && IsBlockList(Get(body, "content"), match c.role case User => "input_text" case Assistant => "output_text", c.text)
       case ClaudeMessage =>
         && Get(o, "type") == (match c.role case User => Str("user") case Assistant => Str("assistant"))
         && OnlyKeys(o, ["schema_version", "type", "timestamp", "message"]) && Get(o, "message").Dict?
         && var message := Get(o, "message").entries;
            && OnlyKeys(message, ["role", "content"]) && Get(message, "role") == Get(o, "type")
            && IsBlockList(Get(message, "content"), "text", c.text)
  }

  lemma RenderedAs(c: Captured)
    ensures WrittenAs(Render(c), c)
  {
  }
}
