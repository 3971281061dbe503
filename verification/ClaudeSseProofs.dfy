/** The parts made from Anthropic's events are well formed, wherever the stream is cut. */
module ClaudeSseProofs {
  import opened Util
  import opened ClaudeSse
  import AntmlSalvage

  // ---- a reader of parts ----

  datatype Shape = TextShape | ReasoningShape | ToolShape(toolName: string, input: string)

  /** What was ended last, when its call must follow at once. */
  datatype Ended = Nothing | Tool(id: Id, toolName: string, input: string)

  datatype Reader = Reader(open: map<Id, Shape>, seen: set<Id>, ended: Ended)

  const EMPTY := Reader(map[], {}, Nothing)

  predicate IsOpen(r: Reader, id: Id, shape: Shape) {
    id in r.open && r.open[id] == shape
  }

  predicate IsOpenTool(r: Reader, id: Id) {
    id in r.open && r.open[id].ToolShape?
  }

  /** The input a call must have: its deltas joined, or what was salvaged from text. */
  predicate IsInput(input: Input, id: Id, deltas: string) {
    if id.Salvage? then input.Parameters? else input == Json(if deltas == "" then "{}" else deltas)
  }

  /** Whether a part may come now. */
  predicate Accepts(r: Reader, p: Part) {
    if p.ToolCall? then r.ended.Tool? && r.ended.id == p.id && r.ended.toolName == p.toolName && IsInput(p.input, p.id, r.ended.input)
    else
      r.ended.Nothing? &&
      match p
      case TextStart(id) => id !in r.seen
      case ReasoningStart(id) => id !in r.seen
      case ToolInputStart(id, _) => id !in r.seen
      case TextDelta(id, _) => IsOpen(r, id, TextShape)
      case TextEnd(id) => IsOpen(r, id, TextShape)
      case ReasoningDelta(id, _) => IsOpen(r, id, ReasoningShape)
      case ReasoningEnd(id, _) => IsOpen(r, id, ReasoningShape)
      case ToolInputDelta(id, _) => IsOpenTool(r, id)
      case ToolInputEnd(id) => IsOpenTool(r, id)
      case _ => true
  }

  function Begin(r: Reader, id: Id, shape: Shape): Reader {
    r.(open := r.open[id := shape], seen := r.seen + {id})
  }

  function Next(r: Reader, p: Part): Reader
    requires Accepts(r, p)
  {
    match p
    case TextStart(id) => Begin(r, id, TextShape)
    case ReasoningStart(id) => Begin(r, id, ReasoningShape)
    case ToolInputStart(id, toolName) => Begin(r, id, ToolShape(toolName, ""))
    case TextEnd(id) => r.(open := r.open - {id})
    case ReasoningEnd(id, _) => r.(open := r.open - {id})
    case ToolInputDelta(id, delta) => r.(open := r.open[id := r.open[id].(input := r.open[id].input + delta)])
    case ToolInputEnd(id) => r.(open := r.open - {id}, ended := Tool(id, r.open[id].toolName, r.open[id].input))
    case ToolCall(_, _, _) => r.(ended := Nothing)
    case _ => r
  }

  /** The reader after a sequence of parts, unless one may not come. */
  function Read(r: Reader, parts: seq<Part>): Option<Reader>
    decreases |parts|
  {
    if parts == [] then Some(r)
    else if Accepts(r, parts[0]) then Read(Next(r, parts[0]), parts[1..])
    else None
  }

  lemma {:induction false} ReadAppend(r: Reader, a: seq<Part>, b: seq<Part>)
    ensures Read(r, a).None? ==> Read(r, a + b).None?
    ensures Read(r, a).Some? ==> Read(r, a + b) == Read(Read(r, a).value, b)
    decreases |a|
  {
    if a == [] {
      assert a + b == b;
    } else {
      assert (a + b)[1..] == a[1..] + b;
      if Accepts(r, a[0]) {
        ReadAppend(Next(r, a[0]), a[1..], b);
      }
    }
  }

  lemma ReadOne(r: Reader, p: Part)
    requires Accepts(r, p)
    ensures Read(r, [p]) == Some(Next(r, p))
  {
    assert [p][1..] == [];
  }

  // ---- what the server keeps to ----

  function GivenIds(events: seq<Event>): set<string> {
    if events == [] then {}
    else
      var e := events[|events| - 1];
      GivenIds(events[..|events| - 1]) + (if e.BlockStart? && e.content.ToolContent? then {e.content.id} else {})
  }

  predicate Suits(b: Active, d: Delta) {
    match d
    case TextPiece(_) => b.TextBlock?
    case ThinkingPiece(_) => b.ThinkingBlock?
    case SignaturePiece(_) => b.ThinkingBlock?
    case JsonPiece(_) => b.ToolBlock?
    case OtherPiece => true
  }

  /** A tool's id is new, and a delta is of its block's kind. */
  predicate IsProper(s: State, given: set<string>, e: Event) {
    match e
    case BlockStart(_, ToolContent(id, _)) => id == "" || id !in given
    case BlockDelta(index, delta) => index in s.active ==> Suits(s.active[index], delta)
    case _ => true
  }

  predicate KeepsProtocol(events: seq<Event>) {
    events == []
    || (KeepsProtocol(events[..|events| - 1])
        && IsProper(After(events[..|events| - 1]), GivenIds(events[..|events| - 1]), events[|events| - 1]))
  }

  // ---- the reader follows the parser ----

  function ShapeOf(b: Active): Shape {
    match b
    case TextBlock(_, _) => TextShape
    case ThinkingBlock(_, _) => ReasoningShape
    case ToolBlock(_, toolName, input) => ToolShape(toolName, input)
  }

  /** An id taken before the counter reached n, or given by the server. */
  predicate IsTaken(id: Id, n: nat, given: set<string>) {
    match id
    case Block(k) => k < n
    case Salvage(k) => k < n
    case Server(given') => given' in given
  }

  ghost predicate Follows(s: State, r: Reader, given: set<string>) {
    && r.ended.Nothing?
    && (forall i :: i in s.active ==> IsOpen(r, s.active[i].id, ShapeOf(s.active[i])) && !s.active[i].id.Salvage?)
    && (forall i, j :: i in s.active && j in s.active && s.active[i].id == s.active[j].id ==> i == j)
    && (forall id :: id in r.open ==> id in r.seen)
    && (forall id :: id in r.seen ==> IsTaken(id, s.blockCounter, given))
  }

  // Starting a block.
  lemma NewBlockFollows(s: State, s1: State, r: Reader, given: set<string>, given1: set<string>, index: int, b: Active)
    requires Follows(s, r, given) && given <= given1 && b.id !in r.seen && !b.id.Salvage? && IsTaken(b.id, s1.blockCounter, given1)
    requires s1.active == s.active[index := b] && s1.blockCounter == s.blockCounter + 1
    ensures Follows(s1, Begin(r, b.id, ShapeOf(b)), given1)
  {
    assert forall i :: i in s.active ==> s.active[i].id in r.seen;
  }

  lemma StartFollows(s: State, r: Reader, given: set<string>, index: int, content: Content)
    requires Follows(s, r, given) && IsProper(s, given, BlockStart(index, content))
    ensures var (s1, parts) := Started(s, index, content);
            var given1 := given + if content.ToolContent? then {content.id} else {};
            Read(r, parts).Some? && Follows(s1, Read(r, parts).value, given1)
  {
    var (s1, parts) := Started(s, index, content);
    var given1 := given + if content.ToolContent? then {content.id} else {};
    if !content.OtherContent? {
      NewBlockFollows(s, s1, r, given, given1, index, s1.active[index]);
      ReadOne(r, parts[0]);
    }
  }

  // A delta.
  lemma DeltaFollows(s: State, r: Reader, given: set<string>, index: int, delta: Delta)
    requires Follows(s, r, given) && IsProper(s, given, BlockDelta(index, delta))
    ensures var (s1, parts) := Grown(s, index, delta);
            Read(r, parts).Some? && Follows(s1, Read(r, parts).value, given)
  {
    var (s1, parts) := Grown(s, index, delta);
    if parts != [] {
      assert Accepts(r, parts[0]);
      ReadOne(r, parts[0]);
    }
  }

  lemma IdTaken(s: State, r: Reader, given: set<string>)
    requires Follows(s, r, given)
    ensures Id.Salvage(s.blockCounter) !in r.seen
    ensures Follows(AfterSalvage(s, 1), r.(seen := r.seen + {Id.Salvage(s.blockCounter)}), given)
  {
  }

  function CallParts(id: Id, call: AntmlSalvage.Call): seq<Part> {
    [ToolInputStart(id, StripToolPrefix(call.name)), ToolInputEnd(id),
     ToolCall(id, StripToolPrefix(call.name), Parameters(call.input))]
  }

  /** Read by this reader, the parts lead to one that follows the state. */
  ghost predicate Leads(s: State, r: Reader, parts: seq<Part>, given: set<string>) {
    Read(r, parts).Some? && Follows(s, Read(r, parts).value, given)
  }

  lemma OneSalvagedLeads(s: State, v: State, r: Reader, given: set<string>, call: AntmlSalvage.Call, rest: seq<Part>)
    requires Follows(s, r, given) && Leads(v, r.(seen := r.seen + {Id.Salvage(s.blockCounter)}), rest, given)
    ensures Leads(v, r, CallParts(Id.Salvage(s.blockCounter), call) + rest, given)
  {
    var id := Id.Salvage(s.blockCounter);
    IdTaken(s, r, given);
    OneSalvaged(r, id, StripToolPrefix(call.name), call.input);
    ReadAppend(r, CallParts(id, call), rest);
  }

  lemma SalvagedTwice(s: State, n: nat)
    ensures AfterSalvage(AfterSalvage(s, 1), n) == AfterSalvage(s, n + 1)
  {
  }

  // Calls recovered from text.
  lemma {:induction false} SalvageFollows(s: State, r: Reader, given: set<string>, calls: seq<AntmlSalvage.Call>)
    requires Follows(s, r, given)
    ensures Leads(AfterSalvage(s, |calls|), r, SalvagedParts(calls, s.blockCounter), given)
    decreases |calls|
  {
    if calls != [] {
      var rest := SalvagedParts(calls[1..], s.blockCounter + 1);
      IdTaken(s, r, given);
      SalvageFollows(AfterSalvage(s, 1), r.(seen := r.seen + {Id.Salvage(s.blockCounter)}), given, calls[1..]);
      SalvagedTwice(s, |calls| - 1);
      OneSalvagedLeads(s, AfterSalvage(s, |calls|), r, given, calls[0], rest);
      assert SalvagedParts(calls, s.blockCounter) == CallParts(Id.Salvage(s.blockCounter), calls[0]) + rest;
    }
  }

  lemma OneSalvaged(r: Reader, id: Id, toolName: string, params: map<string, string>)
    requires r.ended.Nothing? && id !in r.seen && id.Salvage? && forall k :: k in r.open ==> k in r.seen
    ensures Read(r, [ToolInputStart(id, toolName), ToolInputEnd(id), ToolCall(id, toolName, Parameters(params))])
            == Some(r.(seen := r.seen + {id}))
  {
    var parts := [ToolInputStart(id, toolName), ToolInputEnd(id), ToolCall(id, toolName, Parameters(params))];
    var r1 := Begin(r, id, ToolShape(toolName, ""));
    var r2 := r1.(open := r1.open - {id}, ended := Tool(id, toolName, ""));
    assert r1.open - {id} == r.open;
    assert parts[1..] == [ToolInputEnd(id), ToolCall(id, toolName, Parameters(params))];
    assert parts[1..][1..] == [ToolCall(id, toolName, Parameters(params))];
    ReadOne(r2, parts[2]);
  }

  // Stopping a block.
  lemma StopFollows(s: State, r: Reader, given: set<string>, index: int)
    requires Follows(s, r, given)
    ensures var (s1, parts) := Stopped(s, index);
            Read(r, parts).Some? && Follows(s1, Read(r, parts).value, given)
  {
    if index in s.active {
      var b := s.active[index];
      var s1 := s.(active := s.active - {index});
      var r1 := r.(open := r.open - {b.id});
      assert Follows(s1, r1, given);
      match b {
        case TextBlock(id, text) =>
          var calls := AntmlSalvage.Calls(text);
          ReadOne(r, TextEnd(id));
          SalvageFollows(s1, r1, given, calls);
          ReadAppend(r, [TextEnd(id)], SalvagedParts(calls, s.blockCounter));
        case ThinkingBlock(id, signature) =>
          ReadOne(r, ReasoningEnd(id, if signature == "" then None else Some(signature)));
        case ToolBlock(id, toolName, input) =>
          var call := ToolCall(id, toolName, Json(if input == "" then "{}" else input));
          var r2 := r1.(ended := Tool(id, toolName, input));
          ReadOne(r, ToolInputEnd(id));
          ReadOne(r2, call);
          ReadAppend(r, [ToolInputEnd(id)], [call]);
          assert [ToolInputEnd(id)] + [call] == [ToolInputEnd(id), call];
      }
    }
  }

  lemma EventFollows(s: State, r: Reader, given: set<string>, e: Event)
    requires Follows(s, r, given) && IsProper(s, given, e)
    ensures var (s1, parts) := Dispatch(s, e);
            var given1 := given + if e.BlockStart? && e.content.ToolContent? then {e.content.id} else {};
            Read(r, parts).Some? && Follows(s1, Read(r, parts).value, given1)
  {
    match e
    case BlockStart(index, content) => StartFollows(s, r, given, index, content);
    case BlockDelta(index, delta) => DeltaFollows(s, r, given, index, delta); assert given + {} == given;
    case BlockStop(index) => StopFollows(s, r, given, index); assert given + {} == given;
    case MessageStart(message) =>
      assert given + {} == given;
      if message.Some? {
        ReadOne(r, Metadata(message.value.id, message.value.model));
      }
    case MessageStop => ReadOne(r, FinishPart(s)); assert given + {} == given;
    case Failure(error) => ReadOne(r, Error(error)); assert given + {} == given;
    case _ => assert given + {} == given;
  }

  lemma {:induction false} PartsFollow(events: seq<Event>)
    requires KeepsProtocol(events)
    ensures Read(EMPTY, Parts(events)).Some? && Follows(After(events), Read(EMPTY, Parts(events)).value, GivenIds(events))
    decreases |events|
  {
    if events != [] {
      var before, e := events[..|events| - 1], events[|events| - 1];
      PartsFollow(before);
      var r := Read(EMPTY, Parts(before)).value;
      var parts := Dispatch(After(before), e).1;
      EventFollows(After(before), r, GivenIds(before), e);
      ReadOne(r, Raw(e));
      ReadAppend(r, [Raw(e)], parts);
      ReadAppend(EMPTY, Parts(before), [Raw(e)] + parts);
    }
  }

  /**
   * Whatever the events, cut anywhere, as long as tool ids are new and deltas are of their
   * block's kind: a part names only what is open, no id starts twice, and each tool call
   * comes straight after the end of its input, once, with the joined deltas or the salvaged
   * parameters.
   */
  lemma OutputIsWellFormed(events: seq<Event>)
    requires KeepsProtocol(events)
    ensures Read(EMPTY, Output(events)).Some?
  {
    PartsFollow(events);
    var r := Read(EMPTY, Parts(events)).value;
    ReadOne(EMPTY, StreamStart);
    ReadAppend(EMPTY, [StreamStart], Parts(events));
    ReadAppend(EMPTY, [StreamStart] + Parts(events), Ending(After(events)));
    if Ending(After(events)) != [] {
      ReadOne(r, Ending(After(events))[0]);
    }
  }

  // ---- how it finishes ----

  /** Some text block, when it stopped, held a written call. */
  predicate Salvages(events: seq<Event>) {
    events != [] && (Salvages(events[..|events| - 1]) || SalvagesAt(After(events[..|events| - 1]), events[|events| - 1]))
  }

  predicate SalvagesAt(s: State, e: Event) {
    e.BlockStop? && e.index in s.active && s.active[e.index].TextBlock? && AntmlSalvage.Calls(s.active[e.index].text) != []
  }

  function LastReason(events: seq<Event>): Option<string> {
    if events == [] then None
    else
      var e := events[|events| - 1];
      if e.MessageDelta? && e.stopReason != "" then Some(e.stopReason) else LastReason(events[..|events| - 1])
  }

  lemma StartKeepsFinish(s: State, index: int, content: Content)
    ensures var s1 := Started(s, index, content).0; s1.lastStopReason == s.lastStopReason && s1.salvagedToolUse == s.salvagedToolUse
  {
  }

  lemma DeltaKeepsFinish(s: State, index: int, delta: Delta)
    ensures var s1 := Grown(s, index, delta).0; s1.lastStopReason == s.lastStopReason && s1.salvagedToolUse == s.salvagedToolUse
  {
  }

  lemma StopKeepsReason(s: State, index: int)
    ensures var s1 := Stopped(s, index).0;
            s1.lastStopReason == s.lastStopReason && (s1.salvagedToolUse <==> s.salvagedToolUse || SalvagesAt(s, BlockStop(index)))
  {
  }

  lemma NextFinishFacts(s: State, e: Event)
    ensures Dispatch(s, e).0.lastStopReason == if e.MessageDelta? && e.stopReason != "" then Some(e.stopReason) else s.lastStopReason
    ensures Dispatch(s, e).0.salvagedToolUse <==> s.salvagedToolUse || SalvagesAt(s, e)
  {
    match e
    case BlockStart(index, content) => StartKeepsFinish(s, index, content);
    case BlockDelta(index, delta) => DeltaKeepsFinish(s, index, delta);
    case BlockStop(index) => StopKeepsReason(s, index);
    case _ =>
  }

  lemma {:induction false} FinishFacts(events: seq<Event>)
    ensures After(events).lastStopReason == LastReason(events)
    ensures After(events).salvagedToolUse <==> Salvages(events)
    decreases |events|
  {
    if events != [] {
      FinishFacts(events[..|events| - 1]);
      NextFinishFacts(After(events[..|events| - 1]), events[|events| - 1]);
    }
  }

  function FinishPart(s: State): Part {
    Finish(if s.salvagedToolUse then ToolCalls else MapFinishReason(s.lastStopReason), s.lastStopReason, s.usage, s.cacheCreation)
  }

  lemma StopFinishes(s: State)
    ensures Dispatch(s, MessageStop).1 == [FinishPart(s)]
  {
  }

  /**
   * message_stop finishes with tool-calls when some text block held a written call, and
   * otherwise with the last stop reason the server gave.
   */
  lemma FinishReasonIs(events: seq<Event>)
    ensures Dispatch(After(events), MessageStop).1 ==
            [Finish(if Salvages(events) then ToolCalls else MapFinishReason(LastReason(events)), LastReason(events),
                    After(events).usage, After(events).cacheCreation)]
  {
    FinishFacts(events);
    StopFinishes(After(events));
  }
}
