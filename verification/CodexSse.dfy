/**
 * The stateful mapping of Responses API events to stream parts
 * (packages/provider-codex/src/sse.ts): mapEvent, the flush at the end of the event
 * stream, and the finish part. Text and reasoning parts are named by the counter in
 * their id (`text_3` is 3); tool parts by their call id.
 */
module CodexSse {
  import opened Util
  import opened Decimal
  import opened EmptyTurnClassifier

  datatype Kind = Message | FunctionCall | OtherKind

  datatype OutItem = OutItem(kind: Kind, id: Option<string>, name: Option<string>,
                             callId: Option<string>, arguments: Option<string>)

  datatype Usage = Usage(inputTokens: int, outputTokens: int, cachedTokens: Option<int>, reasoningTokens: Option<int>)

  datatype FinishReason = Stop | Length | ToolCalls | ErrorReason | Other | Unknown

  datatype Event =
    | Created(responseId: Option<string>)
    | ItemAdded(item: OutItem, index: nat)
    | OutputTextDelta(delta: string)
    | OutputTextDone
    | ArgumentsDelta(index: nat, callId: Option<string>, delta: string)
    | ArgumentsDone(index: nat, callId: Option<string>, arguments: Option<string>)
    | ReasoningTextDelta(delta: string)
    | ReasoningTextDone
    | ItemDone(item: OutItem)
    | Incomplete(responseId: Option<string>, usage: Option<Usage>, reason: Option<string>)
    | Completed(responseId: Option<string>, usage: Option<Usage>, status: Option<string>)
    | Failed(message: string)
    | ErrorEvent(message: string)
    | OtherEvent

  datatype Part =
    | TextStart(n: nat)
    | TextDelta(n: nat, delta: string)
    | TextEnd(n: nat)
    | ReasoningStart(n: nat)
    | ReasoningDelta(n: nat, delta: string)
    | ReasoningEnd(n: nat)
    | ToolInputStart(id: string, name: string)
    | ToolInputDelta(id: string, delta: string)
    | ToolInputEnd(id: string)
    | ToolCall(id: string, name: string, input: string)
    | ErrorPart(message: string)
    | Finish(reason: FinishReason, usage: Option<Usage>, responseId: Option<string>, emptyTurn: Option<Classification>)

  datatype Tracked = TrackedItem(kind: Kind, id: string, name: Option<string>, callId: Option<string>)

  // `reasoningOpen` stands for the key -1000 - reasoningIdCounter in outputItems.
  datatype State = State(
    responseId: Option<string>,
    outputItems: map<nat, Tracked>,
    reasoningOpen: bool,
    textIdCounter: nat,
    toolIdCounter: nat,
    reasoningIdCounter: nat,
    usage: Option<Usage>,
    finishReason: Option<FinishReason>,
    hasFunctionCall: bool,
    openTextId: Option<nat>,
    toolArgBuffer: seq<(nat, string)>,
    emittedToolCalls: set<string>,
    emittedTextDeltas: nat)

  const START := State(None, map[], false, 0, 0, 0, None, None, false, None, [], {}, 0)

  function MapFinishReason(status: Option<string>): FinishReason {
    if status == Some("completed") || status == Some("cancelled") then Stop
    else if status == Some("failed") then ErrorReason
    else if status == Some("incomplete") then Length
    else Other
  }

  // ---- the argument buffer: an insertion-ordered map ----

  function BufferGet(b: seq<(nat, string)>, i: nat): Option<string> {
    if b == [] then None else if b[0].0 == i then Some(b[0].1) else BufferGet(b[1..], i)
  }

  function BufferSet(b: seq<(nat, string)>, i: nat, s: string): seq<(nat, string)> {
    if b == [] then [(i, s)]
    else if b[0].0 == i then [(i, s)] + b[1..]
    else [b[0]] + BufferSet(b[1..], i, s)
  }

  function BufferDelete(b: seq<(nat, string)>, i: nat): seq<(nat, string)> {
    if b == [] then []
    else if b[0].0 == i then b[1..]
    else [b[0]] + BufferDelete(b[1..], i)
  }

  // ---- mapEvent ----

  function NameOf(name: Option<string>): string {
    name.GetOr("unknown")
  }

  function TruthyId(id: Option<string>, was: Option<string>): Option<string> {
    if id.Some? && id.value != "" then id else was
  }

  // The call id an arguments event belongs to.
  function CallOf(s: State, index: nat, callId: Option<string>): string {
    if index in s.outputItems && s.outputItems[index].callId.Some? then s.outputItems[index].callId.value
    else callId.GetOr("tool_" + Print(index))
  }

  // Arguments already complete in the added event.
  predicate CompleteArguments(arguments: Option<string>) {
    arguments.Some? && arguments.value != "" && arguments.value != "{}"
  }

  function AddItem(s: State, item: OutItem, index: nat): (State, seq<Part>) {
    var s := s.(outputItems := s.outputItems[index :=
      TrackedItem(item.kind, item.id.GetOr("item_" + Print(index)), item.name, item.callId)]);
    match item.kind
    case Message =>
      (s.(openTextId := Some(s.textIdCounter), textIdCounter := s.textIdCounter + 1), [TextStart(s.textIdCounter)])
    case FunctionCall =>
      var id := item.callId.GetOr("tool_" + Print(s.toolIdCounter));
      var s := s.(hasFunctionCall := true,
                  toolIdCounter := if item.callId.Some? then s.toolIdCounter else s.toolIdCounter + 1);
      if CompleteArguments(item.arguments) then
        (s.(emittedToolCalls := s.emittedToolCalls + {id}),
         [ToolInputStart(id, NameOf(item.name)), ToolInputDelta(id, item.arguments.value),
          ToolInputEnd(id), ToolCall(id, NameOf(item.name), item.arguments.value)])
      else (s, [ToolInputStart(id, NameOf(item.name))])
    case OtherKind => (s, [])
  }

  function FinishArguments(s: State, index: nat, callId: Option<string>, arguments: Option<string>): (State, seq<Part>) {
    var id := CallOf(s, index, callId);
    var name := if index in s.outputItems then NameOf(s.outputItems[index].name) else "unknown";
    var buffer := BufferDelete(s.toolArgBuffer, index);
    if id in s.emittedToolCalls then (s.(toolArgBuffer := buffer), [ToolInputEnd(id)])
    else
      var input := arguments.GetOr(BufferGet(s.toolArgBuffer, index).GetOr("{}"));
      (s.(toolArgBuffer := buffer, hasFunctionCall := true, emittedToolCalls := s.emittedToolCalls + {id}),
       [ToolInputEnd(id), ToolCall(id, name, input)])
  }

  function FinishItem(s: State, item: OutItem): (State, seq<Part>) {
    if item.kind == FunctionCall && item.callId.Some? && item.callId.value != "" then
      var id := item.callId.value;
      if id in s.emittedToolCalls then (s.(hasFunctionCall := true), [])
      else
        (s.(hasFunctionCall := true, emittedToolCalls := s.emittedToolCalls + {id}),
         [ToolInputEnd(id), ToolCall(id, NameOf(item.name), item.arguments.GetOr("{}"))])
    else (s, [])
  }

  function MapEvent(s: State, e: Event): (State, seq<Part>) {
    match e
    case Created(id) => (s.(responseId := TruthyId(id, s.responseId)), [])
    case ItemAdded(item, index) => AddItem(s, item, index)
    case OutputTextDelta(delta) =>
      if s.openTextId.None? then
        (s.(openTextId := Some(s.textIdCounter), textIdCounter := s.textIdCounter + 1,
            emittedTextDeltas := s.emittedTextDeltas + 1),
         [TextStart(s.textIdCounter), TextDelta(s.textIdCounter, delta)])
      else (s.(emittedTextDeltas := s.emittedTextDeltas + 1), [TextDelta(s.openTextId.value, delta)])
    case OutputTextDone =>
      if s.openTextId.Some? then (s.(openTextId := None), [TextEnd(s.openTextId.value)]) else (s, [])
    case ArgumentsDelta(index, callId, delta) =>
      (s.(toolArgBuffer := BufferSet(s.toolArgBuffer, index, BufferGet(s.toolArgBuffer, index).GetOr("") + delta)),
       [ToolInputDelta(CallOf(s, index, callId), delta)])
    case ArgumentsDone(index, callId, arguments) => FinishArguments(s, index, callId, arguments)
    case ReasoningTextDelta(delta) =>
      if s.reasoningOpen then (s, [ReasoningDelta(s.reasoningIdCounter, delta)])
      else (s.(reasoningOpen := true),
            [ReasoningStart(s.reasoningIdCounter), ReasoningDelta(s.reasoningIdCounter, delta)])
    case ReasoningTextDone =>
      (s.(reasoningOpen := false, reasoningIdCounter := s.reasoningIdCounter + 1),
       if s.reasoningOpen then [ReasoningEnd(s.reasoningIdCounter)] else [])
    case ItemDone(item) => FinishItem(s, item)
    case Incomplete(id, usage, reason) =>
      (s.(responseId := TruthyId(id, s.responseId), usage := if usage.Some? then usage else s.usage,
          finishReason := Some(if reason == Some("max_output_tokens") then Length else Other)), [])
    case Completed(id, usage, status) =>
      (s.(responseId := TruthyId(id, s.responseId), usage := if usage.Some? then usage else s.usage,
          finishReason := Some(MapFinishReason(status))), [])
    case Failed(message) => (s.(finishReason := Some(ErrorReason)), [ErrorPart(message)])
    case ErrorEvent(message) => (s.(finishReason := Some(ErrorReason)), [ErrorPart(message)])
    case OtherEvent => (s, [])
  }

  /** The state and the parts after any prefix of the event stream. */
  function After(evs: seq<Event>): State {
    if evs == [] then START else MapEvent(After(evs[..|evs| - 1]), evs[|evs| - 1]).0
  }

  function Parts(evs: seq<Event>): seq<Part> {
    if evs == [] then []
    else Parts(evs[..|evs| - 1]) + MapEvent(After(evs[..|evs| - 1]), evs[|evs| - 1]).1
  }

  // ---- the flush ----

  // The flush rebuilds a call at `index` when it is a named function call not yet delivered.
  predicate Rebuilds(s: State, index: nat) {
    && index in s.outputItems && s.outputItems[index].kind == FunctionCall
    && s.outputItems[index].callId.Some? && s.outputItems[index].callId.value != ""
    && s.outputItems[index].callId.value !in s.emittedToolCalls
  }

  /** Tool calls cut off by truncation, rebuilt from the argument buffer in order. */
  function FlushCalls(s: State, buffer: seq<(nat, string)>): (State, seq<Part>)
    decreases |buffer|
  {
    if buffer == [] then (s, [])
    else
      var (index, buffered) := buffer[0];
      if Rebuilds(s, index) then
        var id := s.outputItems[index].callId.value;
        var s' := s.(hasFunctionCall := true, emittedToolCalls := s.emittedToolCalls + {id});
        var (s2, rest) := FlushCalls(s', buffer[1..]);
        (s2, [ToolInputEnd(id),
              ToolCall(id, NameOf(s.outputItems[index].name), if buffered != "" then buffered else "{}")] + rest)
      else FlushCalls(s, buffer[1..])
  }

  function FlushText(s: State): seq<Part> {
    if s.openTextId.Some? then [TextEnd(s.openTextId.value)] else []
  }

  function Flushed(s: State): State {
    FlushCalls(s, s.toolArgBuffer).0.(openTextId := None, toolArgBuffer := [])
  }

  function ChooseFinishReason(s: State): FinishReason {
    if s.finishReason == Some(Stop) && s.hasFunctionCall then ToolCalls
    else if s.finishReason.Some? then s.finishReason.value
    else if s.hasFunctionCall || s.emittedToolCalls != {} then ToolCalls
    else if s.emittedTextDeltas > 0 then Stop
    else Unknown
  }

  predicate EffectivelyEmpty(s: State) {
    s.emittedTextDeltas == 0 && s.emittedToolCalls == {}
  }

  /** What the caller supplies for the empty-turn hook. */
  datatype Hook = NoHook | Hook(shape: RequestShape, retryAttempted: bool, transport: Option<Snapshot>)

  function FallbackSnapshot(s: State, shape: RequestShape, retryAttempted: bool): Snapshot {
    var terminal :=
      if s.finishReason == Some(Stop) then Some(ResponseCompleted)
      else if s.finishReason == Some(Length) then Some(ResponseIncomplete)
      else if s.finishReason == Some(ErrorReason) then Some(ResponseFailed)
      else None;
    Snapshot(if s.finishReason.Some? then 1 else 0, s.finishReason.Some?, terminal, shape, retryAttempted)
  }

  function ClassifyTurn(s: State, hook: Hook): Option<Classification> {
    if EffectivelyEmpty(s) && hook.Hook? then
      var seen := if hook.transport.Some? then hook.transport.value
                  else FallbackSnapshot(s, hook.shape, hook.retryAttempted);
      Some(Classify(seen.(shape := hook.shape, retryAttempted := hook.retryAttempted)))
    else None
  }

  function AdjustReason(reason: FinishReason, c: Option<Classification>): FinishReason {
    if c.None? then reason
    else match c.value.cause
      case ServerEmptyOutputWithReasoning => Other
      case ServerIncomplete => if reason == Unknown then Other else reason
      case ServerFailed => if reason == Unknown then ErrorReason else reason
      case _ => reason
  }

  function FinishPart(s: State, hook: Hook): Part {
    var c := ClassifyTurn(s, hook);
    Finish(AdjustReason(ChooseFinishReason(s), c), s.usage, s.responseId, c)
  }

  /** Everything mapResponseStream emits when the event stream ends without an error. */
  function Output(evs: seq<Event>, hook: Hook): seq<Part> {
    var s := After(evs);
    Parts(evs) + FlushText(s) + FlushCalls(s, s.toolArgBuffer).1 + [FinishPart(Flushed(s), hook)]
  }
}
