/** The Anthropic stream parser as it runs: its closure's variables, and the reading loop. */
module ClaudeStream {
  import opened Util
  import opened JsText
  import opened ClaudeSse
  import AntmlSalvage

  class AnthropicParser {
    var remainder: string
    var activeBlocks: map<int, Active>
    var blockCounter: nat
    var usage: Usage
    var cacheCreationTokens: Option<int>
    var lastStopReason: Option<string>
    var sawMessageStop: bool
    var salvagedToolUse: bool
    var producedText: nat
    var producedReasoning: nat
    var producedToolUse: nat
    var queue: seq<Part>

    ghost function Abs(): State
      reads this
    {
      State(activeBlocks, blockCounter, usage, cacheCreationTokens, lastStopReason, sawMessageStop, salvagedToolUse,
            producedText, producedReasoning, producedToolUse)
    }

    constructor ()
      ensures Abs() == INITIAL && remainder == "" && queue == []
    {
      remainder, activeBlocks, blockCounter := "", map[], 0;
      usage := Usage(None, None, None);
      cacheCreationTokens, lastStopReason := None, None;
      sawMessageStop, salvagedToolUse := false, false;
      producedText, producedReasoning, producedToolUse := 0, 0, 0;
      queue := [];
    }

    method StartBlock(index: int, content: Content)
      modifies this
      ensures Abs() == Started(old(Abs()), index, content).0
      ensures queue == old(queue) + Started(old(Abs()), index, content).1 && remainder == old(remainder)
    {
      var id := Block(blockCounter);
      blockCounter := blockCounter + 1;
      match content {
        case TextContent =>
          producedText := producedText + 1;
          activeBlocks := activeBlocks[index := TextBlock(id, "")];
          queue := queue + [TextStart(id)];
        case ThinkingContent =>
          producedReasoning := producedReasoning + 1;
          activeBlocks := activeBlocks[index := ThinkingBlock(id, "")];
          queue := queue + [ReasoningStart(id)];
        case ToolContent(given, name) =>
          producedToolUse := producedToolUse + 1;
          var toolId := if given == "" then id else Server(given);
          var toolName := StripToolPrefix(name);
          activeBlocks := activeBlocks[index := ToolBlock(toolId, toolName, "")];
          queue := queue + [ToolInputStart(toolId, toolName)];
        case OtherContent =>
      }
    }

    method GrowBlock(index: int, delta: Delta)
      modifies this
      ensures Abs() == Grown(old(Abs()), index, delta).0
      ensures queue == old(queue) + Grown(old(Abs()), index, delta).1 && remainder == old(remainder)
    {
      if index !in activeBlocks {
        return;
      }
      var info := activeBlocks[index];
      match delta {
        case TextPiece(text) =>
          if info.TextBlock? {
            activeBlocks := activeBlocks[index := info.(text := info.text + text)];
          }
          queue := queue + [TextDelta(info.id, text)];
        case ThinkingPiece(text) =>
          queue := queue + [ReasoningDelta(info.id, text)];
        case SignaturePiece(text) =>
          if info.ThinkingBlock? {
            activeBlocks := activeBlocks[index := info.(signature := info.signature + text)];
          }
        case JsonPiece(text) =>
          if info.ToolBlock? {
            activeBlocks := activeBlocks[index := info.(input := info.input + text)];
          }
          queue := queue + [ToolInputDelta(info.id, text)];
        case OtherPiece =>
      }
    }

    /** One call written in a text block that has ended. */
    method EmitCall(call: AntmlSalvage.Call)
      modifies this`blockCounter, this`producedToolUse, this`salvagedToolUse, this`queue
      ensures Abs() == AfterSalvage(old(Abs()), 1)
      ensures queue == old(queue) + SalvagedParts([call], old(blockCounter))
    {
      var id := Salvage(blockCounter);
      blockCounter := blockCounter + 1;
      var toolName := StripToolPrefix(call.name);
      producedToolUse := producedToolUse + 1;
      salvagedToolUse := true;
      queue := queue + [ToolInputStart(id, toolName), ToolInputEnd(id), ToolCall(id, toolName, Parameters(call.input))];
      assert [call][1..] == [];
    }

    /** All of them. */
    method EmitCalls(calls: seq<AntmlSalvage.Call>)
      modifies this`blockCounter, this`producedToolUse, this`salvagedToolUse, this`queue
      ensures Abs() == AfterSalvage(old(Abs()), |calls|)
      ensures queue == old(queue) + SalvagedParts(calls, old(blockCounter))
    {
      for i := 0 to |calls|
        invariant Abs() == AfterSalvage(old(Abs()), i)
        invariant queue == old(queue) + SalvagedParts(calls[..i], old(blockCounter))
      {
        SalvagedOneMore(calls, i, old(blockCounter));
        EmitCall(calls[i]);
        Regroup(old(queue), SalvagedParts(calls[..i], old(blockCounter)), SalvagedParts([calls[i]], old(blockCounter) + i));
      }
      assert calls[..|calls|] == calls;
    }

    method StopBlock(index: int)
      modifies this
      ensures Abs() == Stopped(old(Abs()), index).0
      ensures queue == old(queue) + Stopped(old(Abs()), index).1 && remainder == old(remainder)
    {
      if index !in activeBlocks {
        return;
      }
      var info := activeBlocks[index];
      activeBlocks := activeBlocks - {index};
      match info {
        case TextBlock(id, text) =>
          queue := queue + [TextEnd(id)];
          var calls := AntmlSalvage.SalvageAntmlInvokes(text);
          Regroup(old(queue), [TextEnd(id)], SalvagedParts(calls, blockCounter));
          EmitCalls(calls);
        case ThinkingBlock(id, signature) =>
          queue := queue + [ReasoningEnd(id, if signature == "" then None else Some(signature))];
        case ToolBlock(id, toolName, input) =>
          queue := queue + [ToolInputEnd(id), ToolCall(id, toolName, Json(if |input| > 0 then input else "{}"))];
      }
    }

    method StartMessage(message: Option<Message>)
      modifies this`usage, this`cacheCreationTokens, this`queue
      ensures Abs() == Dispatch(old(Abs()), MessageStart(message)).0
      ensures queue == old(queue) + Dispatch(old(Abs()), MessageStart(message)).1
    {
      if message.Some? {
        var m := message.value;
        queue := queue + [Metadata(m.id, m.model)];
        if m.usage.Some? {
          usage := usage.(input := m.usage.value.input, cachedInput := m.usage.value.cachedInput);
          cacheCreationTokens := m.cacheCreation;
        }
      }
    }

    method DispatchEvent(e: Event)
      modifies this
      ensures Abs() == Dispatch(old(Abs()), e).0
      ensures queue == old(queue) + Dispatch(old(Abs()), e).1 && remainder == old(remainder)
    {
      match e {
        case MessageStart(message) => StartMessage(message);
        case BlockStart(index, content) => StartBlock(index, content);
        case BlockDelta(index, delta) => GrowBlock(index, delta);
        case BlockStop(index) => StopBlock(index);
        case MessageDelta(outputTokens, stopReason) =>
          if outputTokens.Some? {
            usage := usage.(output := outputTokens.value);
          }
          if stopReason != "" {
            lastStopReason := Some(stopReason);
          }
        case MessageStop =>
          sawMessageStop := true;
          var mapped := if salvagedToolUse then ToolCalls else MapFinishReason(lastStopReason);
          queue := queue + [Finish(mapped, lastStopReason, usage, cacheCreationTokens)];
        case Ping =>
        case Failure(error) => queue := queue + [Error(error)];
        case Unknown =>
      }
    }

    /** One event, after its raw form; `past` is what came before. */
    method Take(ghost past: seq<Event>, e: Event)
      requires Abs() == After(past) && queue == [StreamStart] + Parts(past)
      modifies this
      ensures Abs() == After(past + [e]) && queue == [StreamStart] + Parts(past + [e]) && remainder == old(remainder)
    {
      assert (past + [e])[..|past|] == past;
      var raw := [Raw(e)];
      Regroup([StreamStart], Parts(past), raw + Dispatch(After(past), e).1);
      Regroup([StreamStart] + Parts(past), raw, Dispatch(After(past), e).1);
      queue := queue + raw;
      DispatchEvent(e);
    }

    /** processLines */
    method ProcessLines(ghost past: seq<Event>, lines: seq<string>, parse: string -> Option<Event>)
      requires Abs() == After(past) && queue == [StreamStart] + Parts(past)
      modifies this
      ensures Abs() == After(past + Events(lines, parse)) && queue == [StreamStart] + Parts(past + Events(lines, parse))
      ensures remainder == old(remainder)
    {
      assert past + [] == past;
      for i := 0 to |lines|
        invariant Abs() == After(past + Events(lines[..i], parse)) && queue == [StreamStart] + Parts(past + Events(lines[..i], parse))
        invariant remainder == old(remainder)
      {
        assert lines[..i + 1][..i] == lines[..i];
        var e := LineEvent(lines[i], parse);
        if e.Some? {
          Regroup(past, Events(lines[..i], parse), [e.value]);
          Take(past + Events(lines[..i], parse), e.value);
        } else {
          assert Events(lines[..i], parse) + [] == Events(lines[..i], parse);
        }
      }
      assert lines[..|lines|] == lines;
    }

    /** One chunk: its complete lines, with what was left over before them; `past` is what came before. */
    method ReadChunk(ghost past: seq<Event>, chunk: string, parse: string -> Option<Event>) returns (ghost now: seq<Event>)
      requires Abs() == After(past) && queue == [StreamStart] + Parts(past)
      modifies this
      ensures Abs() == After(now) && queue == [StreamStart] + Parts(now)
      ensures var joined := old(remainder) + chunk;
              var n := LastNewline(joined);
              && now == (if n == -1 then past else past + Events(Split(joined[..n + 1]), parse))
              && remainder == if n == -1 then joined else joined[n + 1..]
    {
      var joined := remainder + chunk;
      var lastNewline := LastNewline(joined);
      if lastNewline == -1 {
        remainder := joined;
        now := past;
        return;
      }
      var lines := Split(joined[..lastNewline + 1]);
      remainder := joined[lastNewline + 1..];
      ProcessLines(past, lines, parse);
      now := past + Events(lines, parse);
    }

    /** Exactly the complete lines of the text have been taken. */
    ghost predicate Current(text: string, parse: string -> Option<Event>)
      reads this
    {
      var events := Events(Complete(text), parse);
      Abs() == After(events) && queue == [StreamStart] + Parts(events) && remainder == Rest(text)
    }

    method NextChunk(ghost text: string, chunk: string, parse: string -> Option<Event>)
      requires Current(text, parse)
      modifies this
      ensures Current(text + chunk, parse)
    {
      ChunkLines(text, chunk, parse);
      ghost var now := ReadChunk(Events(Complete(text), parse), chunk, parse);
    }

    /**
     * parseAnthropicSSE: however the text is cut into chunks, the parts are those of all its
     * lines, the last one too when no newline ends it.
     */
    method Parse(chunks: seq<string>, parse: string -> Option<Event>) returns (parts: seq<Part>)
      requires Abs() == INITIAL && remainder == "" && queue == []
      modifies this
      ensures parts == Output(Events(Split(Joined(chunks)), parse))
    {
      queue := queue + [StreamStart];
      assert Current("", parse);
      for i := 0 to |chunks|
        invariant Current(Joined(chunks[..i]), parse)
      {
        assert chunks[..i + 1][..i] == chunks[..i];
        NextChunk(Joined(chunks[..i]), chunks[i], parse);
      }
      assert chunks[..|chunks|] == chunks;
      FinishReading(Joined(chunks), parse);
      parts := queue;
    }

    /** The end of the text. */
    method FinishReading(ghost text: string, parse: string -> Option<Event>)
      requires Current(text, parse)
      modifies this
      ensures queue == Output(Events(Split(text), parse))
    {
      EventsOfAppend(Complete(text), [Rest(text)], parse);
      if Trim(remainder) != "" {
        RestIsOneLine(text);
        ProcessLines(Events(Complete(text), parse), Split(remainder), parse);
        remainder := "";
      } else {
        BlankLineGivesNothing(Rest(text), parse);
        assert Events(Complete(text), parse) + [] == Events(Complete(text), parse);
      }
      if !sawMessageStop {
        queue := queue + [Truncated(producedText, producedReasoning, producedToolUse, lastStopReason)];
      }
    }
  }

  lemma BlankLineGivesNothing(line: string, parse: string -> Option<Event>)
    requires Trim(line) == ""
    ensures Events([line], parse) == []
  {
    assert [line][..0] == [];
  }

  // A text ended by a newline splits into its lines and an empty one.
  lemma SplitEndsEmpty(text: string, parse: string -> Option<Event>)
    requires Rest(text) == ""
    ensures Events(Split(text), parse) == Events(Complete(text), parse)
  {
    EventsOfAppend(Complete(text), [""], parse);
    BlankLineGivesNothing("", parse);
    assert Events(Complete(text), parse) + [] == Events(Complete(text), parse);
  }

  // What a chunk adds to the lines and leaves over.
  lemma ChunkLines(text: string, chunk: string, parse: string -> Option<Event>)
    ensures var joined := Rest(text) + chunk;
            var n := LastNewline(joined);
            && (n == -1 ==> Complete(text + chunk) == Complete(text) && Rest(text + chunk) == joined)
            && (n >= 0 ==> Events(Complete(text + chunk), parse) == Events(Complete(text), parse) + Events(Split(joined[..n + 1]), parse)
                           && Rest(text + chunk) == joined[n + 1..])
  {
    var joined := Rest(text) + chunk;
    var n := LastNewline(joined);
    if n == -1 {
      ChunkWithoutNewline(text, chunk, joined);
    } else {
      ChunkWithNewline(text, chunk, joined, joined[..n + 1], joined[n + 1..], parse);
    }
  }

  lemma ChunkWithoutNewline(text: string, chunk: string, joined: string)
    requires joined == Rest(text) + chunk && LastNewline(joined) == -1
    ensures Complete(text + chunk) == Complete(text) && Rest(text + chunk) == joined
  {
    LinesOfAppend(text, chunk);
    LastNewlineSplits(joined);
    AppendNothing(Complete(text));
  }

  lemma ChunkWithNewline(text: string, chunk: string, joined: string, head: string, tail: string, parse: string -> Option<Event>)
    requires joined == Rest(text) + chunk && LastNewline(joined) >= 0
    requires head == joined[..LastNewline(joined) + 1] && tail == joined[LastNewline(joined) + 1..]
    ensures Events(Complete(text + chunk), parse) == Events(Complete(text), parse) + Events(Split(head), parse)
    ensures Rest(text + chunk) == tail
  {
    LinesOfAppend(text, chunk);
    LastNewlineSplits(joined);
    JoinedLines(Complete(text), Complete(joined), head, parse);
  }

  lemma AppendNothing(lines: seq<string>)
    ensures lines + [] == lines
  {
  }

  lemma JoinedLines(before: seq<string>, lines: seq<string>, text: string, parse: string -> Option<Event>)
    requires lines == Complete(text) && Rest(text) == ""
    ensures Events(before + lines, parse) == Events(before, parse) + Events(Split(text), parse)
  {
    EventsOfAppend(before, lines, parse);
    SplitEndsEmpty(text, parse);
  }

  lemma {:induction false} SalvagedOneMore(calls: seq<AntmlSalvage.Call>, i: nat, counter: nat)
    requires i < |calls|
    ensures SalvagedParts(calls[..i + 1], counter) == SalvagedParts(calls[..i], counter) + SalvagedParts([calls[i]], counter + i)
    decreases i
  {
    if i == 0 {
      assert calls[..1] == [calls[0]] && calls[..0] == [];
    } else {
      SalvagedOneMore(calls[1..], i - 1, counter + 1);
      assert calls[..i + 1][1..] == calls[1..][..i] && calls[..i][1..] == calls[1..][..i - 1];
    }
  }

  lemma RestIsOneLine(text: string)
    ensures Split(Rest(text)) == [Rest(text)]
  {
    RestHasNoNewline(text);
    NoNewlineIsRest(Rest(text));
  }
}
