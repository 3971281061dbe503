/**
 * Mapping Anthropic's stream events to parts (packages/provider-claude/src/sse.ts), as a
 * function of the parser's state and one event.
 */
module ClaudeSse {
  import opened Util
  import opened JsText
  import AntmlSalvage

  // ---- events ----

  datatype Usage = Usage(input: Option<int>, output: Option<int>, cachedInput: Option<int>)

  datatype Message = Message(id: string, model: string, usage: Option<Usage>, cacheCreation: Option<int>)

  /** A content block being started; id is empty when the server gives none. */
  datatype Content = TextContent | ThinkingContent | ToolContent(id: string, name: string) | OtherContent

  datatype Delta = TextPiece(text: string) | ThinkingPiece(text: string) | SignaturePiece(text: string)
                 | JsonPiece(text: string) | OtherPiece

  datatype Event = MessageStart(message: Option<Message>) | BlockStart(index: int, content: Content)
                 | BlockDelta(index: int, delta: Delta) | BlockStop(index: int)
                 | MessageDelta(outputTokens: Option<Option<int>>, stopReason: string) | MessageStop
                 | Ping | Failure(error: string) | Unknown

  // ---- parts ----

  datatype Id = Block(n: nat) | Salvage(n: nat) | Server(id: string)

  datatype Input = Json(text: string) | Parameters(params: map<string, string>)

  datatype Reason = Stop | Length | ToolCalls | ContentFilter | Other

  datatype Part = StreamStart | Raw(event: Event) | Metadata(messageId: string, model: string)
                | TextStart(id: Id) | TextDelta(id: Id, delta: string) | TextEnd(id: Id)
                | ReasoningStart(id: Id) | ReasoningDelta(id: Id, delta: string) | ReasoningEnd(id: Id, signature: Option<string>)
                | ToolInputStart(id: Id, toolName: string) | ToolInputDelta(id: Id, delta: string) | ToolInputEnd(id: Id)
                | ToolCall(id: Id, toolName: string, input: Input)
                | Finish(reason: Reason, raw: Option<string>, usage: Usage, cacheCreation: Option<int>)
                | Error(error: string) | Truncated(text: nat, reasoning: nat, toolUse: nat, lastStop: Option<string>)

  // ---- state ----

  datatype Active = TextBlock(id: Id, text: string) | ThinkingBlock(id: Id, signature: string)
                  | ToolBlock(id: Id, toolName: string, input: string)

  datatype State = State(active: map<int, Active>, blockCounter: nat, usage: Usage, cacheCreation: Option<int>,
                         lastStopReason: Option<string>, sawMessageStop: bool, salvagedToolUse: bool,
                         producedText: nat, producedReasoning: nat, producedToolUse: nat)

  const INITIAL := State(map[], 0, Usage(None, None, None), None, None, false, false, 0, 0, 0)

  const TOOL_PREFIX := "mcp__"

  function StripToolPrefix(name: string): string {
    if StartsWith(name, TOOL_PREFIX) then name[|TOOL_PREFIX|..] else name
  }

  function MapFinishReason(reason: Option<string>): Reason {
    if reason.None? then Other
    else if reason.value in {"end_turn", "stop", "stop_sequence", "pause_turn"} then Stop
    else if reason.value in {"max_tokens", "model_context_window_exceeded"} then Length
    else if reason.value == "tool_use" then ToolCalls
    else if reason.value in {"refusal", "content_filter"} then ContentFilter
    else Other
  }

  // ---- one event ----

  function Started(s: State, index: int, content: Content): (State, seq<Part>) {
    var id := Block(s.blockCounter);
    var s1 := s.(blockCounter := s.blockCounter + 1);
    match content
    case TextContent =>
      (s1.(active := s.active[index := TextBlock(id, "")], producedText := s.producedText + 1), [TextStart(id)])
    case ThinkingContent =>
      (s1.(active := s.active[index := ThinkingBlock(id, "")], producedReasoning := s.producedReasoning + 1), [ReasoningStart(id)])
    case ToolContent(given, name) =>
      var toolId := if given == "" then id else Server(given);
      var toolName := StripToolPrefix(name);
      (s1.(active := s.active[index := ToolBlock(toolId, toolName, "")], producedToolUse := s.producedToolUse + 1),
       [ToolInputStart(toolId, toolName)])
    case OtherContent => (s1, [])
  }

  /** A delta is taken by its own kind, whatever the kind of its block. */
  function Grown(s: State, index: int, delta: Delta): (State, seq<Part>) {
    if index !in s.active then (s, [])
    else
      var b := s.active[index];
      match delta
      case TextPiece(text) =>
        ((if b.TextBlock? then s.(active := s.active[index := b.(text := b.text + text)]) else s), [TextDelta(b.id, text)])
      case ThinkingPiece(text) => (s, [ReasoningDelta(b.id, text)])
      case SignaturePiece(text) =>
        ((if b.ThinkingBlock? then s.(active := s.active[index := b.(signature := b.signature + text)]) else s), [])
      case JsonPiece(text) =>
        ((if b.ToolBlock? then s.(active := s.active[index := b.(input := b.input + text)]) else s), [ToolInputDelta(b.id, text)])
      case OtherPiece => (s, [])
  }

  function SalvagedParts(calls: seq<AntmlSalvage.Call>, counter: nat): seq<Part> {
    if calls == [] then []
    else
      var id := Salvage(counter);
      var toolName := StripToolPrefix(calls[0].name);
      [ToolInputStart(id, toolName), ToolInputEnd(id), ToolCall(id, toolName, Parameters(calls[0].input))]
      + SalvagedParts(calls[1..], counter + 1)
  }

  function AfterSalvage(s: State, calls: nat): State {
    s.(blockCounter := s.blockCounter + calls, producedToolUse := s.producedToolUse + calls,
       salvagedToolUse := s.salvagedToolUse || calls > 0)
  }

  function Stopped(s: State, index: int): (State, seq<Part>) {
    if index !in s.active then (s, [])
    else
      var b := s.active[index];
      var s1 := s.(active := s.active - {index});
      match b
      case TextBlock(id, text) =>
        (AfterSalvage(s1, |AntmlSalvage.Calls(text)|), [TextEnd(id)] + SalvagedParts(AntmlSalvage.Calls(text), s.blockCounter))
      case ThinkingBlock(id, signature) =>
        (s1, [ReasoningEnd(id, if signature == "" then None else Some(signature))])
      case ToolBlock(id, toolName, input) =>
        (s1, [ToolInputEnd(id), ToolCall(id, toolName, Json(if input == "" then "{}" else input))])
  }

  /** dispatchEvent */
  function Dispatch(s: State, e: Event): (State, seq<Part>) {
    match e
    case MessageStart(message) =>
      if message.None? then (s, [])
      else
        var m := message.value;
        var s1 := if m.usage.None? then s
                  else s.(usage := s.usage.(input := m.usage.value.input, cachedInput := m.usage.value.cachedInput),
                          cacheCreation := m.cacheCreation);
        (s1, [Metadata(m.id, m.model)])
    case BlockStart(index, content) => Started(s, index, content)
    case BlockDelta(index, delta) => Grown(s, index, delta)
    case BlockStop(index) => Stopped(s, index)
    case MessageDelta(outputTokens, stopReason) =>
      var s1 := if outputTokens.None? then s else s.(usage := s.usage.(output := outputTokens.value));
      (if stopReason == "" then s1 else s1.(lastStopReason := Some(stopReason)), [])
    case MessageStop =>
      var reason := if s.salvagedToolUse then ToolCalls else MapFinishReason(s.lastStopReason);
      (s.(sawMessageStop := true), [Finish(reason, s.lastStopReason, s.usage, s.cacheCreation)])
    case Ping => (s, [])
    case Failure(error) => (s, [Error(error)])
    case Unknown => (s, [])
  }

  // ---- sequences of events and lines ----

  function After(events: seq<Event>): State {
    if events == [] then INITIAL else Dispatch(After(events[..|events| - 1]), events[|events| - 1]).0
  }

  /** The parts of the events, each after its raw event. */
  function Parts(events: seq<Event>): seq<Part> {
    if events == [] then []
    else
      var before, e := events[..|events| - 1], events[|events| - 1];
      Parts(before) + ([Raw(e)] + Dispatch(After(before), e).1)
  }

  const DATA := "data: "

  /** The event of a line, if it carries one; `parse` stands for JSON.parse. */
  function LineEvent(line: string, parse: string -> Option<Event>): Option<Event> {
    var trimmed := Trim(line);
    if StartsWith(trimmed, DATA) then parse(trimmed[|DATA|..]) else None
  }

  function Events(lines: seq<string>, parse: string -> Option<Event>): seq<Event> {
    if lines == [] then []
    else
      var e := LineEvent(lines[|lines| - 1], parse);
      Events(lines[..|lines| - 1], parse) + (if e.Some? then [e.value] else [])
  }

  function Ending(s: State): seq<Part> {
    if s.sawMessageStop then []
    else [Truncated(s.producedText, s.producedReasoning, s.producedToolUse, s.lastStopReason)]
  }

  /** The whole output for a stream of these events. */
  function Output(events: seq<Event>): seq<Part> {
    [StreamStart] + Parts(events) + Ending(After(events))
  }

  lemma {:induction false} EventsOfAppend(a: seq<string>, b: seq<string>, parse: string -> Option<Event>)
    ensures Events(a + b, parse) == Events(a, parse) + Events(b, parse)
    decreases |b|
  {
    if b == [] {
      assert a + b == a;
    } else {
      assert (a + b)[..|a + b| - 1] == a + b[..|b| - 1];
      EventsOfAppend(a, b[..|b| - 1], parse);
    }
  }

  lemma {:induction false} StopSeenExactly(events: seq<Event>)
    ensures After(events).sawMessageStop <==> MessageStop in events
    decreases |events|
  {
    if events != [] {
      StopSeenExactly(events[..|events| - 1]);
      assert events == events[..|events| - 1] + [events[|events| - 1]];
    }
  }

  lemma DispatchNeverTruncates(s: State, e: Event)
    ensures forall p :: p in Dispatch(s, e).1 ==> !p.Truncated?
  {
    if e.BlockStop? && e.index in s.active && s.active[e.index].TextBlock? {
      SalvageNeverTruncates(AntmlSalvage.Calls(s.active[e.index].text), s.blockCounter);
    }
  }

  lemma {:induction false} SalvageNeverTruncates(calls: seq<AntmlSalvage.Call>, counter: nat)
    ensures forall p :: p in SalvagedParts(calls, counter) ==> !p.Truncated?
    decreases |calls|
  {
    if calls != [] {
      SalvageNeverTruncates(calls[1..], counter + 1);
    }
  }

  lemma {:induction false} PartsNeverTruncate(events: seq<Event>)
    ensures forall p :: p in Parts(events) ==> !p.Truncated?
    decreases |events|
  {
    if events != [] {
      var before, e := events[..|events| - 1], events[|events| - 1];
      PartsNeverTruncate(before);
      DispatchNeverTruncates(After(before), e);
    }
  }

  /** The truncation error is given, last, exactly when message_stop never came. */
  lemma TruncationReportedExactly(events: seq<Event>)
    ensures (exists p :: p in Output(events) && p.Truncated?) <==> MessageStop !in events
    ensures MessageStop !in events ==> Output(events)[|Output(events)| - 1].Truncated?
  {
    StopSeenExactly(events);
    PartsNeverTruncate(events);
    if MessageStop !in events {
      var last := Output(events)[|Output(events)| - 1];
      assert last in Output(events) && last == Ending(After(events))[0];
    }
  }
}
