/**
 * mapResponseStream as it runs: a state object updated per event, and a loop that reads
 * events until the stream ends or fails (packages/provider-codex/src/sse.ts).
 */
module CodexStream {
  import opened Util
  import opened Decimal
  import opened EmptyTurnClassifier
  import opened CodexSse

  class StreamMapper {
    var responseId: Option<string>
    var outputItems: map<nat, Tracked>
    var reasoningOpen: bool
    var textIdCounter: nat
    var toolIdCounter: nat
    var reasoningIdCounter: nat
    var usage: Option<Usage>
    var finishReason: Option<FinishReason>
    var hasFunctionCall: bool
    var openTextId: Option<nat>
    var toolArgBuffer: seq<(nat, string)>
    var emittedToolCalls: set<string>
    var emittedTextDeltas: nat

    function Abs(): State
      reads this
    {
      State(responseId, outputItems, reasoningOpen, textIdCounter, toolIdCounter, reasoningIdCounter, usage,
            finishReason, hasFunctionCall, openTextId, toolArgBuffer, emittedToolCalls, emittedTextDeltas)
    }

    constructor ()
      ensures Abs() == START
    {
      responseId, usage, finishReason, openTextId := None, None, None, None;
      outputItems, reasoningOpen, hasFunctionCall := map[], false, false;
      textIdCounter, toolIdCounter, reasoningIdCounter, emittedTextDeltas := 0, 0, 0, 0;
      toolArgBuffer, emittedToolCalls := [], {};
    }

    method AddItem(item: OutItem, index: nat) returns (parts: seq<Part>)
      modifies this
      ensures (Abs(), parts) == CodexSse.AddItem(old(Abs()), item, index)
    {
      parts := [];
      outputItems := outputItems[index :=
        TrackedItem(item.kind, item.id.GetOr("item_" + Print(index)), item.name, item.callId)];
      if item.kind == Message {
        openTextId := Some(textIdCounter);
        parts := [TextStart(textIdCounter)];
        textIdCounter := textIdCounter + 1;
      } else if item.kind == FunctionCall {
        hasFunctionCall := true;
        var id: string;
        if item.callId.Some? {
          id := item.callId.value;
        } else {
          id := "tool_" + Print(toolIdCounter);
          toolIdCounter := toolIdCounter + 1;
        }
        parts := [ToolInputStart(id, NameOf(item.name))];
        if CompleteArguments(item.arguments) {
          parts := [ToolInputStart(id, NameOf(item.name)), ToolInputDelta(id, item.arguments.value),
                    ToolInputEnd(id), ToolCall(id, NameOf(item.name), item.arguments.value)];
          emittedToolCalls := emittedToolCalls + {id};
        }
      }
    }

    method FinishArguments(index: nat, callId: Option<string>, arguments: Option<string>) returns (parts: seq<Part>)
      modifies this
      ensures (Abs(), parts) == CodexSse.FinishArguments(old(Abs()), index, callId, arguments)
    {
      var tracked := index in outputItems;
      var id := if tracked && outputItems[index].callId.Some? then outputItems[index].callId.value
                else callId.GetOr("tool_" + Print(index));
      parts := [ToolInputEnd(id)];
      if id !in emittedToolCalls {
        var finalArgs := arguments.GetOr(BufferGet(toolArgBuffer, index).GetOr("{}"));
        hasFunctionCall := true;
        parts := [ToolInputEnd(id),
                  ToolCall(id, if tracked then NameOf(outputItems[index].name) else "unknown", finalArgs)];
        emittedToolCalls := emittedToolCalls + {id};
      }
      toolArgBuffer := BufferDelete(toolArgBuffer, index);
    }

    method FinishItem(item: OutItem) returns (parts: seq<Part>)
      modifies this
      ensures (Abs(), parts) == CodexSse.FinishItem(old(Abs()), item)
    {
      parts := [];
      if item.kind == FunctionCall && item.callId.Some? && item.callId.value != "" {
        hasFunctionCall := true;
        var id := item.callId.value;
        if id in emittedToolCalls {
          return;
        }
        parts := [ToolInputEnd(id), ToolCall(id, NameOf(item.name), item.arguments.GetOr("{}"))];
        emittedToolCalls := emittedToolCalls + {id};
      }
    }

    method EndResponse(id: Option<string>, reported: Option<Usage>, reason: FinishReason)
      modifies this
      ensures Abs() == old(Abs()).(
                       responseId := TruthyId(id, old(responseId)),
                       usage := if reported.Some? then reported else old(usage),
                       finishReason := Some(reason))
    {
      responseId := TruthyId(id, responseId);
      if reported.Some? {
        usage := reported;
      }
      finishReason := Some(reason);
    }

    /** The output_text.delta case. */
    method GrowText(delta: string) returns (parts: seq<Part>)
      modifies this
      ensures (Abs(), parts) == CodexSse.MapEvent(old(Abs()), OutputTextDelta(delta))
    {
      parts := [];
      if openTextId.None? {
        openTextId := Some(textIdCounter);
        parts := [TextStart(textIdCounter)];
        textIdCounter := textIdCounter + 1;
      }
      var delta' := TextDelta(openTextId.value, delta);
      parts := parts + [delta'];
      assert parts == [delta'] || parts == [parts[0], delta'];
      emittedTextDeltas := emittedTextDeltas + 1;
    }

    method MapEvent(e: Event) returns (parts: seq<Part>)
      modifies this
      ensures (Abs(), parts) == CodexSse.MapEvent(old(Abs()), e)
    {
      parts := [];
      match e
      case Created(id) =>
        responseId := TruthyId(id, responseId);
      case ItemAdded(item, index) =>
        parts := AddItem(item, index);
      case OutputTextDelta(delta) =>
        parts := GrowText(delta);
      case OutputTextDone =>
        if openTextId.Some? {
          parts := [TextEnd(openTextId.value)];
          openTextId := None;
        }
      case ArgumentsDelta(index, callId, delta) =>
        parts := [ToolInputDelta(CallOf(Abs(), index, callId), delta)];
        toolArgBuffer := BufferSet(toolArgBuffer, index, BufferGet(toolArgBuffer, index).GetOr("") + delta);
      case ArgumentsDone(index, callId, arguments) =>
        parts := FinishArguments(index, callId, arguments);
      case ReasoningTextDelta(delta) =>
        if !reasoningOpen {
          reasoningOpen := true;
          parts := [ReasoningStart(reasoningIdCounter)];
        }
        var delta' := ReasoningDelta(reasoningIdCounter, delta);
        parts := parts + [delta'];
        assert parts == [delta'] || parts == [parts[0], delta'];
      case ReasoningTextDone =>
        if reasoningOpen {
          parts := [ReasoningEnd(reasoningIdCounter)];
          reasoningOpen := false;
        }
        reasoningIdCounter := reasoningIdCounter + 1;
      case ItemDone(item) =>
        parts := FinishItem(item);
      case Incomplete(id, reported, reason) =>
        EndResponse(id, reported, if reason == Some("max_output_tokens") then Length else Other);
      case Completed(id, reported, status) =>
        EndResponse(id, reported, MapFinishReason(status));
      case Failed(message) =>
        parts := [ErrorPart(message)];
        finishReason := Some(ErrorReason);
      case ErrorEvent(message) =>
        parts := [ErrorPart(message)];
        finishReason := Some(ErrorReason);
      case OtherEvent =>
    }

    /** The flush of calls left in the argument buffer when the stream ended. */
    method FlushCalls() returns (parts: seq<Part>)
      modifies this
      ensures (Abs(), parts) == CodexSse.FlushCalls(old(Abs()), old(toolArgBuffer))
    {
      parts := [];
      var i := 0;
      assert toolArgBuffer[0..] == toolArgBuffer;
      assert [] + CodexSse.FlushCalls(Abs(), toolArgBuffer).1 == CodexSse.FlushCalls(Abs(), toolArgBuffer).1;
      while i < |toolArgBuffer|
        invariant 0 <= i <= |toolArgBuffer| && toolArgBuffer == old(toolArgBuffer)
        invariant var (s, rest) := CodexSse.FlushCalls(Abs(), toolArgBuffer[i..]);
                  CodexSse.FlushCalls(old(Abs()), old(toolArgBuffer)) == (s, parts + rest)
      {
        var (index, buffered) := toolArgBuffer[i];
        ghost var before, done := Abs(), parts;
        assert toolArgBuffer[i..][1..] == toolArgBuffer[i + 1..];
        if Rebuilds(Abs(), index) {
          var id := outputItems[index].callId.value;
          hasFunctionCall := true;
          parts := parts + [ToolInputEnd(id),
                            ToolCall(id, NameOf(outputItems[index].name), if buffered != "" then buffered else "{}")];
          emittedToolCalls := emittedToolCalls + {id};
          ghost var rest := CodexSse.FlushCalls(Abs(), toolArgBuffer[i + 1..]).1;
          ghost var first := parts[|done|..];
          assert CodexSse.FlushCalls(before, toolArgBuffer[i..]).1 == first + rest;
          assert done + (first + rest) == parts + rest;
        }
        i := i + 1;
      }
      assert parts + [] == parts;
    }

    /** Read events until the stream ends, or fails with `failed`. */
    method MapResponseStream(evs: seq<Event>, failed: bool, hook: Hook) returns (out: seq<Part>)
      requires Abs() == START
      modifies this
      ensures out == if failed then Parts(evs) else Output(evs, hook)
    {
      out := [];
      for i := 0 to |evs|
        invariant Abs() == After(evs[..i]) && out == Parts(evs[..i])
      {
        var parts := MapEvent(evs[i]);
        out := out + parts;
        assert evs[..i + 1][..i] == evs[..i];
      }
      assert evs[..|evs|] == evs;
      if !failed {
        out := Flush(evs, out, hook);
      }
    }

    /** The flush at the end of a stream that did not fail. */
    method Flush(ghost evs: seq<Event>, parts: seq<Part>, hook: Hook) returns (out: seq<Part>)
      requires Abs() == After(evs) && parts == Parts(evs)
      modifies this
      ensures out == Output(evs, hook)
    {
      out := parts;
      ghost var s := Abs();
      if openTextId.Some? {
        out := out + [TextEnd(openTextId.value)];
      }
      openTextId := None;
      var calls := FlushCalls();
      FlushIgnoresText(s);
      out := out + calls;
      toolArgBuffer := [];
      out := out + [FinishPart(Abs(), hook)];
    }
  }

  // The flush of calls neither reads nor writes the open text part.
  lemma {:induction false} FlushIgnoresText'(s: State, buffer: seq<(nat, string)>)
    ensures var (t, ps) := CodexSse.FlushCalls(s, buffer);
            CodexSse.FlushCalls(s.(openTextId := None), buffer) == (t.(openTextId := None), ps)
    decreases |buffer|
  {
    if buffer != [] {
      FlushIgnoresText'(s, buffer[1..]);
      if Rebuilds(s, buffer[0].0) {
        var id := s.outputItems[buffer[0].0].callId.value;
        FlushIgnoresText'(s.(hasFunctionCall := true, emittedToolCalls := s.emittedToolCalls + {id}), buffer[1..]);
      }
    }
  }

  lemma FlushIgnoresText(s: State)
    ensures var (t, ps) := CodexSse.FlushCalls(s, s.toolArgBuffer);
            && CodexSse.FlushCalls(s.(openTextId := None), s.toolArgBuffer) == (t.(openTextId := None), ps)
            && t.(openTextId := None).(toolArgBuffer := []) == Flushed(s)
  {
    FlushIgnoresText'(s, s.toolArgBuffer);
  }
}
