/**
 * What holds of the part stream for every event sequence cut anywhere: parts are properly
 * opened and closed, and every function call that made progress is delivered once.
 */
module CodexSseProofs {
  import opened Util
  import opened Decimal
  import opened EmptyTurnClassifier
  import opened CodexSse

  // ---- reading a part stream ----

  /** The text part that is open after `out`: the last one started, unless it was ended. */
  function OpenText(out: seq<Part>): Option<nat> {
    if out == [] then None
    else match out[|out| - 1]
      case TextStart(n) => Some(n)
      case TextEnd(_) => None
      case _ => OpenText(out[..|out| - 1])
  }

  function OpenReasoning(out: seq<Part>): Option<nat> {
    if out == [] then None
    else match out[|out| - 1]
      case ReasoningStart(n) => Some(n)
      case ReasoningEnd(_) => None
      case _ => OpenReasoning(out[..|out| - 1])
  }

  /** What a part may be, given everything before it. */
  ghost predicate Proper(before: seq<Part>, p: Part) {
    match p
    case TextStart(n) => p !in before
    case TextDelta(n, _) => OpenText(before) == Some(n)
    case TextEnd(n) => OpenText(before) == Some(n)
    case ReasoningStart(n) => p !in before && OpenReasoning(before) == None
    case ReasoningDelta(n, _) => OpenReasoning(before) == Some(n)
    case ReasoningEnd(n) => OpenReasoning(before) == Some(n)
    case _ => true
  }

  ghost predicate WellFormed(out: seq<Part>) {
    && (forall i :: 0 <= i < |out| ==> Proper(out[..i], out[i]))
    && (forall i :: 0 <= i < |out| - 1 ==> !out[i].Finish?)
  }

  ghost predicate NoFinish(out: seq<Part>) {
    forall p :: p in out ==> !p.Finish?
  }

  predicate IsToolPart(p: Part) {
    p.ToolInputStart? || p.ToolInputDelta? || p.ToolInputEnd? || p.ToolCall? || p.ErrorPart?
  }

  lemma PushPart(out: seq<Part>, p: Part)
    requires WellFormed(out) && NoFinish(out) && Proper(out, p)
    ensures WellFormed(out + [p])
    ensures !p.Finish? ==> NoFinish(out + [p])
    ensures OpenText(out + [p]) == match p case TextStart(n) => Some(n) case TextEnd(_) => None case _ => OpenText(out)
    ensures OpenReasoning(out + [p]) ==
            match p case ReasoningStart(n) => Some(n) case ReasoningEnd(_) => None case _ => OpenReasoning(out)
  {
    var all := out + [p];
    assert all[..|all| - 1] == out;
    forall i | 0 <= i < |all|
      ensures Proper(all[..i], all[i])
    {
      assert all[..i] == out[..i];
    }
  }

  lemma {:induction false} PushToolParts(out: seq<Part>, ps: seq<Part>)
    requires WellFormed(out) && NoFinish(out) && forall p :: p in ps ==> IsToolPart(p)
    ensures WellFormed(out + ps) && NoFinish(out + ps)
    ensures OpenText(out + ps) == OpenText(out) && OpenReasoning(out + ps) == OpenReasoning(out)
    decreases |ps|
  {
    if ps == [] {
      assert out + ps == out;
    } else {
      assert ps[0] in ps && forall p :: p in ps[1..] ==> p in ps;
      PushPart(out, ps[0]);
      PushToolParts(out + [ps[0]], ps[1..]);
      assert (out + [ps[0]]) + ps[1..] == out + ps;
    }
  }

  // ---- the mapper's state describes what it has emitted ----

  ghost predicate InStep(s: State, out: seq<Part>) {
    && WellFormed(out) && NoFinish(out)
    && OpenText(out) == s.openTextId
    && OpenReasoning(out) == (if s.reasoningOpen then Some(s.reasoningIdCounter) else None)
    && (forall n: nat :: TextStart(n) in out ==> n < s.textIdCounter)
    && (forall n: nat :: ReasoningStart(n) in out ==>
          n < s.reasoningIdCounter || (s.reasoningOpen && n == s.reasoningIdCounter))
  }

  // The part the mapper may emit next, and what it must remember of it.
  predicate Allowed(s: State, p: Part) {
    match p
    case TextStart(n) => n == s.textIdCounter
    case TextDelta(n, _) => s.openTextId == Some(n)
    case TextEnd(n) => s.openTextId == Some(n)
    case ReasoningStart(n) => n == s.reasoningIdCounter && !s.reasoningOpen
    case ReasoningDelta(n, _) => n == s.reasoningIdCounter && s.reasoningOpen
    case ReasoningEnd(n) => n == s.reasoningIdCounter && s.reasoningOpen
    case Finish(_, _, _, _) => false
    case _ => true
  }

  function Noted(s: State, p: Part): State {
    match p
    case TextStart(n) => s.(openTextId := Some(n), textIdCounter := s.textIdCounter + 1)
    case TextEnd(_) => s.(openTextId := None)
    case ReasoningStart(_) => s.(reasoningOpen := true)
    case ReasoningEnd(_) => s.(reasoningOpen := false, reasoningIdCounter := s.reasoningIdCounter + 1)
    case _ => s
  }

  predicate SameCounters(s: State, t: State) {
    && s.openTextId == t.openTextId && s.textIdCounter == t.textIdCounter
    && s.reasoningOpen == t.reasoningOpen && s.reasoningIdCounter == t.reasoningIdCounter
  }

  lemma PushInStep(s: State, out: seq<Part>, p: Part)
    requires InStep(s, out) && Allowed(s, p)
    ensures InStep(Noted(s, p), out + [p])
  {
    PushPart(out, p);
    assert forall q :: q in out + [p] <==> q in out || q == p;
  }

  lemma PushTwoInStep(s: State, out: seq<Part>, p: Part, q: Part)
    requires InStep(s, out) && Allowed(s, p) && Allowed(Noted(s, p), q)
    ensures InStep(Noted(Noted(s, p), q), out + [p, q])
  {
    var one := out + [p];
    assert one + [q] == out + [p, q];
    PushInStep(s, out, p);
    PushInStep(Noted(s, p), one, q);
  }

  predicate NamesParts(e: Event) {
    e.OutputTextDelta? || e.OutputTextDone? || e.ReasoningTextDelta? || e.ReasoningTextDone?
    || (e.ItemAdded? && e.item.kind == Message)
  }

  lemma NamingEventInStep(s: State, e: Event, out: seq<Part>)
    requires InStep(s, out) && NamesParts(e)
    ensures InStep(MapEvent(s, e).0, out + MapEvent(s, e).1)
  {
    var (s', ps) := MapEvent(s, e);
    assert out + [] == out;
    if |ps| == 2 {
      PushTwoInStep(s, out, ps[0], ps[1]);
      assert SameCounters(s', Noted(Noted(s, ps[0]), ps[1])) && ps == [ps[0], ps[1]];
    } else if |ps| == 1 {
      PushInStep(s, out, ps[0]);
      assert SameCounters(s', Noted(s, ps[0])) && ps == [ps[0]];
    }
  }

  lemma OtherEventsEmitToolParts(s: State, e: Event)
    requires !NamesParts(e)
    ensures SameCounters(MapEvent(s, e).0, s)
    ensures forall p :: p in MapEvent(s, e).1 ==> IsToolPart(p)
  {
  }

  lemma EventInStep(s: State, e: Event, out: seq<Part>)
    requires InStep(s, out)
    ensures InStep(MapEvent(s, e).0, out + MapEvent(s, e).1)
  {
    if NamesParts(e) {
      NamingEventInStep(s, e, out);
    } else {
      OtherEventsEmitToolParts(s, e);
      PushToolParts(out, MapEvent(s, e).1);
    }
  }

  lemma {:induction false} PrefixInStep(evs: seq<Event>)
    ensures InStep(After(evs), Parts(evs))
  {
    if evs != [] {
      var front := evs[..|evs| - 1];
      PrefixInStep(front);
      EventInStep(After(front), evs[|evs| - 1], Parts(front));
    }
  }

  lemma {:induction false} FlushedAreToolParts(s: State, buffer: seq<(nat, string)>)
    ensures forall p :: p in FlushCalls(s, buffer).1 ==> IsToolPart(p)
    decreases |buffer|
  {
    if buffer != [] {
      var (index, buffered) := buffer[0];
      FlushedAreToolParts(s, buffer[1..]);
      if index in s.outputItems && s.outputItems[index].callId.Some? {
        var id := s.outputItems[index].callId.value;
        FlushedAreToolParts(s.(hasFunctionCall := true, emittedToolCalls := s.emittedToolCalls + {id}), buffer[1..]);
      }
    }
  }

  /**
   * Cut anywhere, the output is well formed: text ids never repeat, deltas and ends name the
   * open part, a reasoning end follows its start, the text part open last is ended, and the
   * one finish part comes last. (Which parts are ended at all is in CodexPartIds.dfy.)
   */
  lemma OutputIsWellFormed(evs: seq<Event>, hook: Hook)
    ensures var out := Output(evs, hook);
            && WellFormed(out) && |out| > 0 && out[|out| - 1].Finish? && OpenText(out) == None
  {
    var s := After(evs);
    var out := Parts(evs);
    PrefixInStep(evs);
    var closed := out + FlushText(s);
    if s.openTextId.Some? {
      PushPart(out, TextEnd(s.openTextId.value));
    } else {
      assert closed == out;
    }
    var calls := FlushCalls(s, s.toolArgBuffer).1;
    FlushedAreToolParts(s, s.toolArgBuffer);
    PushToolParts(closed, calls);
    PushPart(closed + calls, FinishPart(Flushed(s), hook));
  }

  // ---- tool calls ----

  /** The inputs with which call `c` was delivered. */
  function Delivered(out: seq<Part>, c: string): seq<string> {
    if out == [] then []
    else Delivered(out[..|out| - 1], c) +
         (if out[|out| - 1].ToolCall? && out[|out| - 1].id == c then [out[|out| - 1].input] else [])
  }

  lemma DeliveredSnoc(a: seq<Part>, p: Part, c: string)
    ensures Delivered(a + [p], c) == Delivered(a, c) + (if p.ToolCall? && p.id == c then [p.input] else [])
  {
    assert (a + [p])[..|a|] == a;
  }

  lemma {:induction false} DeliveredAppend(a: seq<Part>, b: seq<Part>, c: string)
    ensures Delivered(a + b, c) == Delivered(a, c) + Delivered(b, c)
    decreases |b|
  {
    if b == [] {
      assert a + b == a;
    } else {
      var front, last := b[..|b| - 1], b[|b| - 1];
      DeliveredAppend(a, front, c);
      DeliveredSnoc(a + front, last, c);
      assert a + b == (a + front) + [last];
    }
  }

  lemma DeliveredNone(ps: seq<Part>, c: string)
    requires forall p :: p in ps ==> !(p.ToolCall? && p.id == c)
    ensures Delivered(ps, c) == []
  {
  }

  lemma DeliveredShort(ps: seq<Part>, c: string)
    requires |ps| <= 4 && forall i :: 0 <= i < |ps| - 1 ==> !ps[i].ToolCall?
    ensures Delivered(ps, c) == if ps != [] && ps[|ps| - 1].ToolCall? && ps[|ps| - 1].id == c then [ps[|ps| - 1].input] else []
  {
    if ps != [] {
      DeliveredNone(ps[..|ps| - 1], c);
    }
  }

  // The only event that re-delivers a call: it is added, complete, when it was delivered already.
  predicate Redelivers(s: State, e: Event, c: string) {
    && e.ItemAdded? && e.item.kind == FunctionCall && CompleteArguments(e.item.arguments)
    && c == e.item.callId.GetOr("tool_" + Print(s.toolIdCounter)) && c in s.emittedToolCalls
  }

  lemma EventDelivers(s: State, e: Event, c: string)
    ensures var (s', ps) := MapEvent(s, e);
            && |Delivered(ps, c)| <= 1
            && (c in s'.emittedToolCalls <==> c in s.emittedToolCalls || Delivered(ps, c) != [])
            && (Delivered(ps, c) != [] && c in s.emittedToolCalls <==> Redelivers(s, e, c))
  {
    DeliveredShort(MapEvent(s, e).1, c);
  }

  lemma {:induction false} EmittedAreDelivered(evs: seq<Event>, c: string)
    ensures c in After(evs).emittedToolCalls <==> Delivered(Parts(evs), c) != []
  {
    if evs != [] {
      var front := evs[..|evs| - 1];
      EmittedAreDelivered(front, c);
      EventDelivers(After(front), evs[|evs| - 1], c);
      DeliveredAppend(Parts(front), MapEvent(After(front), evs[|evs| - 1]).1, c);
    }
  }

  lemma {:induction false} FlushDelivers(s: State, buffer: seq<(nat, string)>, c: string)
    ensures |Delivered(FlushCalls(s, buffer).1, c)| <= 1
    ensures c in s.emittedToolCalls ==> Delivered(FlushCalls(s, buffer).1, c) == []
    decreases |buffer|
  {
    if buffer != [] {
      FlushDelivers(s, buffer[1..], c);
      var index := buffer[0].0;
      if Rebuilds(s, index) {
        var id := s.outputItems[index].callId.value;
        var s' := s.(hasFunctionCall := true, emittedToolCalls := s.emittedToolCalls + {id});
        var rest := FlushCalls(s', buffer[1..]).1;
        var first := FlushCalls(s, buffer).1[..2];
        FlushDelivers(s', buffer[1..], c);
        assert FlushCalls(s, buffer).1 == first + rest;
        DeliveredShort(first, c);
        DeliveredAppend(first, rest, c);
      }
    }
  }

  lemma AppendUndelivering(a: seq<Part>, t: seq<Part>, c: string)
    requires |t| <= 1 && (t != [] ==> !t[0].ToolCall?)
    ensures Delivered(a + t, c) == Delivered(a, c)
  {
    DeliveredAppend(a, t, c);
    DeliveredShort(t, c);
  }

  lemma OutputDelivers(evs: seq<Event>, hook: Hook, c: string)
    ensures Delivered(Output(evs, hook), c) ==
            Delivered(Parts(evs), c) + Delivered(FlushCalls(After(evs), After(evs).toolArgBuffer).1, c)
  {
    var s := After(evs);
    var at := Parts(evs) + FlushText(s);
    var atb := at + FlushCalls(s, s.toolArgBuffer).1;
    AppendUndelivering(Parts(evs), FlushText(s), c);
    DeliveredAppend(at, FlushCalls(s, s.toolArgBuffer).1, c);
    AppendUndelivering(atb, [FinishPart(Flushed(s), hook)], c);
  }

  /** The call is not added again, complete, after its delivery. */
  predicate NoRedelivery(evs: seq<Event>, c: string) {
    evs == [] || (NoRedelivery(evs[..|evs| - 1], c) && !Redelivers(After(evs[..|evs| - 1]), evs[|evs| - 1], c))
  }

  /** Before the stream ends, a call is delivered at most once exactly when it is not added again after its delivery. */
  lemma {:induction false} DeliveredAtMostOnce(evs: seq<Event>, c: string)
    ensures |Delivered(Parts(evs), c)| <= 1 <==> NoRedelivery(evs, c)
  {
    if evs != [] {
      var front, e := evs[..|evs| - 1], evs[|evs| - 1];
      DeliveredAtMostOnce(front, c);
      EmittedAreDelivered(front, c);
      EventDelivers(After(front), e, c);
      DeliveredAppend(Parts(front), MapEvent(After(front), e).1, c);
    }
  }

  /** Cut anywhere, a call is delivered at most once exactly when it is not added again, complete, after its delivery. */
  lemma DeliveredOnceExactly(evs: seq<Event>, hook: Hook, c: string)
    ensures |Delivered(Output(evs, hook), c)| <= 1 <==> NoRedelivery(evs, c)
  {
    OutputDelivers(evs, hook, c);
    DeliveredAtMostOnce(evs, c);
    EmittedAreDelivered(evs, c);
    FlushDelivers(After(evs), After(evs).toolArgBuffer, c);
  }

  const COMPLETE_CALL := OutItem(FunctionCall, None, Some("f"), Some("c"), Some("[1]"))

  /** The same complete call added at two indices is delivered twice. */
  lemma AddedTwiceDeliveredTwice(hook: Hook)
    ensures !NoRedelivery([ItemAdded(COMPLETE_CALL, 0), ItemAdded(COMPLETE_CALL, 1)], "c")
    ensures |Delivered(Output([ItemAdded(COMPLETE_CALL, 0), ItemAdded(COMPLETE_CALL, 1)], hook), "c")| > 1
  {
    var evs := [ItemAdded(COMPLETE_CALL, 0), ItemAdded(COMPLETE_CALL, 1)];
    var front := evs[..1];
    assert front == [evs[0]] && front[..0] == [] && After(front) == MapEvent(START, evs[0]).0;
    assert CompleteArguments(COMPLETE_CALL.arguments) by { assert "[1]"[0] != "{}"[0]; }
    assert Redelivers(After(front), evs[1], "c");
    DeliveredOnceExactly(evs, hook, "c");
  }

  // ---- truncation recovery ----

  /** The items added so far, by output index: read off the events alone. */
  function Added(evs: seq<Event>): map<nat, OutItem> {
    if evs == [] then map[]
    else
      var before := Added(evs[..|evs| - 1]);
      var e := evs[|evs| - 1];
      if e.ItemAdded? then before[e.index := e.item] else before
  }

  predicate IsCall(added: map<nat, OutItem>, index: nat) {
    index in added && added[index].kind == FunctionCall && added[index].callId.Some?
  }

  /** Indices and call ids are added once, and a call is added before its other events. */
  predicate Follows(added: map<nat, OutItem>, e: Event) {
    match e
    case ItemAdded(item, index) =>
      && index !in added
      && (item.kind == FunctionCall ==>
            && item.callId.Some? && item.callId.value != ""
            && forall i :: i in added && IsCall(added, i) ==> added[i].callId != item.callId)
    case ArgumentsDelta(index, _, _) => IsCall(added, index)
    case ArgumentsDone(index, _, _) => IsCall(added, index)
    case ItemDone(item) =>
      item.kind == FunctionCall && item.callId.Some? && item.callId.value != "" ==>
        exists i :: i in added && IsCall(added, i) && added[i].callId == item.callId
    case _ => true
  }

  predicate Protocol(evs: seq<Event>) {
    evs == [] || (Protocol(evs[..|evs| - 1]) && Follows(Added(evs[..|evs| - 1]), evs[|evs| - 1]))
  }

  /** What the events say about one call: its deltas so far, and its input once that is final. */
  datatype Progress = Progress(seen: bool, text: string, final: Option<string>)

  function Advance(p: Progress, e: Event, index: nat, call: string): Progress {
    if p.final.Some? then p
    else match e
      case ItemAdded(item, i) =>
        if i == index && CompleteArguments(item.arguments) then p.(final := item.arguments) else p
      case ArgumentsDelta(i, _, delta) => if i == index then p.(seen := true, text := p.text + delta) else p
      case ArgumentsDone(i, _, arguments) =>
        if i == index then p.(final := Some(arguments.GetOr(if p.seen then p.text else "{}"))) else p
      case ItemDone(item) =>
        if item.kind == FunctionCall && item.callId == Some(call)
        then p.(final := Some(item.arguments.GetOr("{}"))) else p
      case _ => p
  }

  function ProgressOf(evs: seq<Event>, index: nat, call: string): Progress {
    if evs == [] then Progress(false, "", None)
    else Advance(ProgressOf(evs[..|evs| - 1], index, call), evs[|evs| - 1], index, call)
  }

  /** The input with which the call must be delivered, if it must be. */
  function Due(p: Progress): seq<string> {
    if p.final.Some? then [p.final.value]
    else if p.seen then [if p.text != "" then p.text else "{}"]
    else []
  }

  // ---- the buffer as a map ----

  lemma {:induction false} BufferSetGet(b: seq<(nat, string)>, i: nat, s: string, j: nat)
    ensures BufferGet(BufferSet(b, i, s), j) == if j == i then Some(s) else BufferGet(b, j)
    decreases |b|
  {
    if b != [] && b[0].0 != i {
      BufferSetGet(b[1..], i, s, j);
      assert BufferSet(b, i, s)[1..] == BufferSet(b[1..], i, s);
    }
  }

  lemma {:induction false} BufferDeleteGet(b: seq<(nat, string)>, i: nat, j: nat)
    requires i != j
    ensures BufferGet(BufferDelete(b, i), j) == BufferGet(b, j)
    decreases |b|
  {
    if b != [] && b[0].0 != i {
      BufferDeleteGet(b[1..], i, j);
      assert BufferDelete(b, i)[1..] == BufferDelete(b[1..], i);
    }
  }

  // ---- the mapper keeps up with the progress of each call ----

  /** outputItems and the events agree on what was added. */
  ghost predicate Tracks(s: State, added: map<nat, OutItem>) {
    && s.outputItems.Keys == added.Keys
    && forall i :: i in added ==> s.outputItems[i].kind == added[i].kind && s.outputItems[i].callId == added[i].callId
  }

  ghost predicate CallsWellAdded(added: map<nat, OutItem>) {
    && (forall i :: i in added && added[i].kind == FunctionCall ==> IsCall(added, i) && added[i].callId.value != "")
    && (forall i, j :: IsCall(added, i) && IsCall(added, j) && added[i].callId == added[j].callId ==> i == j)
  }

  function AddedWith(added: map<nat, OutItem>, e: Event): map<nat, OutItem> {
    if e.ItemAdded? then added[e.index := e.item] else added
  }

  lemma OnlyAddsAreTracked(s: State, e: Event)
    requires !e.ItemAdded?
    ensures MapEvent(s, e).0.outputItems == s.outputItems
  {
  }

  lemma EventTracks(s: State, e: Event, added: map<nat, OutItem>)
    requires Tracks(s, added)
    ensures Tracks(MapEvent(s, e).0, AddedWith(added, e))
  {
    if !e.ItemAdded? {
      OnlyAddsAreTracked(s, e);
    }
  }

  lemma EventWellAdds(e: Event, added: map<nat, OutItem>)
    requires CallsWellAdded(added) && Follows(added, e)
    ensures CallsWellAdded(AddedWith(added, e))
  {
    var after := AddedWith(added, e);
    if e.ItemAdded? {
      assert forall i :: i in added ==> after[i] == added[i] && (IsCall(after, i) <==> IsCall(added, i));
    }
  }

  lemma {:induction false} AddedAreTracked(evs: seq<Event>)
    requires Protocol(evs)
    ensures Tracks(After(evs), Added(evs)) && CallsWellAdded(Added(evs))
  {
    if evs != [] {
      var front, e := evs[..|evs| - 1], evs[|evs| - 1];
      AddedAreTracked(front);
      EventTracks(After(front), e, Added(front));
      EventWellAdds(e, Added(front));
      assert Added(evs) == AddedWith(Added(front), e);
    }
  }

  /** `index` and `call` name the same function call, added already or still to come. */
  predicate SameCall(added: map<nat, OutItem>, index: nat, call: string) {
    && call != ""
    && (index in added ==> IsCall(added, index))
    && forall i :: i in added && IsCall(added, i) ==> (i == index <==> added[i].callId == Some(call))
  }

  lemma SameCallBefore(added: map<nat, OutItem>, e: Event, index: nat, call: string)
    requires Follows(added, e) && SameCall(AddedWith(added, e), index, call)
    ensures SameCall(added, index, call)
  {
    var after := AddedWith(added, e);
    assert forall i :: i in added ==> i in after && after[i] == added[i] && (IsCall(after, i) <==> IsCall(added, i));
  }

  ghost predicate Kept(s: State, out: seq<Part>, added: map<nat, OutItem>, p: Progress, index: nat, call: string) {
    && Delivered(out, call) == (if p.final.Some? then [p.final.value] else [])
    && (call in s.emittedToolCalls <==> p.final.Some?)
    && (p.final.None? ==> BufferGet(s.toolArgBuffer, index) == if p.seen then Some(p.text) else None)
    && (index !in added ==> p == Progress(false, "", None))
    && (p.seen || p.text == "")
  }

  // What one event delivers for the call, and what it does to the buffered arguments.
  ghost predicate Advances(s: State, e: Event, p: Progress, index: nat, call: string) {
    var (s', ps) := MapEvent(s, e);
    var p' := Advance(p, e, index, call);
    && Delivered(ps, call) == (if p.final.None? && p'.final.Some? then [p'.final.value] else [])
    && (call in s'.emittedToolCalls <==> p'.final.Some?)
    && (p'.final.None? ==> BufferGet(s'.toolArgBuffer, index) == if p'.seen then Some(p'.text) else None)
  }

  ghost predicate CanAdvance(s: State, added: map<nat, OutItem>, p: Progress, index: nat, call: string) {
    && (call in s.emittedToolCalls <==> p.final.Some?)
    && (p.final.None? ==> BufferGet(s.toolArgBuffer, index) == if p.seen then Some(p.text) else None)
    && (index !in added ==> p == Progress(false, "", None))
    && (p.seen || p.text == "")
  }

  lemma AddAdvances(s: State, e: Event, added: map<nat, OutItem>, p: Progress, index: nat, call: string)
    requires e.ItemAdded? && Follows(added, e) && CanAdvance(s, added, p, index, call)
    requires SameCall(AddedWith(added, e), index, call)
    ensures Advances(s, e, p, index, call)
  {
    var after := AddedWith(added, e);
    var (s', ps) := MapEvent(s, e);
    DeliveredShort(ps, call);
    assert s'.toolArgBuffer == s.toolArgBuffer;
    if e.item.kind == FunctionCall {
      assert IsCall(after, e.index);
      assert (e.index == index) <==> e.item.callId == Some(call);
      if CompleteArguments(e.item.arguments) {
        assert s'.emittedToolCalls == s.emittedToolCalls + {e.item.callId.value};
      } else {
        assert s'.emittedToolCalls == s.emittedToolCalls;
      }
    } else {
      assert e.index != index;
      assert s'.emittedToolCalls == s.emittedToolCalls;
    }
  }

  lemma ArgumentsAdvance(s: State, e: Event, added: map<nat, OutItem>, p: Progress, index: nat, call: string)
    requires e.ArgumentsDelta? || e.ArgumentsDone?
    requires Tracks(s, added) && Follows(added, e) && CanAdvance(s, added, p, index, call)
    requires SameCall(added, index, call)
    ensures Advances(s, e, p, index, call)
  {
    DeliveredShort(MapEvent(s, e).1, call);
    if e.ArgumentsDelta? {
      BufferSetGet(s.toolArgBuffer, e.index, BufferGet(s.toolArgBuffer, e.index).GetOr("") + e.delta, index);
    } else if e.index != index {
      BufferDeleteGet(s.toolArgBuffer, e.index, index);
    }
  }

  // Events that concern no call.
  predicate IsNoCallEvent(e: Event) {
    !e.ItemAdded? && !e.ArgumentsDelta? && !e.ArgumentsDone? && !e.ItemDone?
  }

  lemma NoCallEventKeeps(s: State, e: Event)
    requires IsNoCallEvent(e)
    ensures MapEvent(s, e).0.emittedToolCalls == s.emittedToolCalls && MapEvent(s, e).0.toolArgBuffer == s.toolArgBuffer
    ensures forall p :: p in MapEvent(s, e).1 ==> !p.ToolCall?
  {
  }

  lemma OtherAdvances(s: State, e: Event, added: map<nat, OutItem>, p: Progress, index: nat, call: string)
    requires IsNoCallEvent(e) && CanAdvance(s, added, p, index, call)
    ensures Advances(s, e, p, index, call)
  {
    NoCallEventKeeps(s, e);
    DeliveredNone(MapEvent(s, e).1, call);
  }

  lemma DoneAdvances(s: State, e: Event, added: map<nat, OutItem>, p: Progress, index: nat, call: string)
    requires e.ItemDone?
    requires Follows(added, e) && CanAdvance(s, added, p, index, call) && SameCall(added, index, call)
    ensures Advances(s, e, p, index, call)
  {
    DeliveredShort(MapEvent(s, e).1, call);
  }

  lemma EventKeeps(s: State, out: seq<Part>, e: Event, added: map<nat, OutItem>, p: Progress, index: nat, call: string)
    requires Tracks(s, added) && Follows(added, e) && Kept(s, out, added, p, index, call)
    requires SameCall(AddedWith(added, e), index, call)
    ensures Kept(MapEvent(s, e).0, out + MapEvent(s, e).1, AddedWith(added, e), Advance(p, e, index, call), index, call)
  {
    SameCallBefore(added, e, index, call);
    if e.ItemAdded? {
      AddAdvances(s, e, added, p, index, call);
    } else if e.ArgumentsDelta? || e.ArgumentsDone? {
      ArgumentsAdvance(s, e, added, p, index, call);
    } else if e.ItemDone? {
      DoneAdvances(s, e, added, p, index, call);
    } else {
      OtherAdvances(s, e, added, p, index, call);
    }
    DeliveredAppend(out, MapEvent(s, e).1, call);
  }

  lemma {:induction false} ProgressIsKept(evs: seq<Event>, index: nat, call: string)
    requires Protocol(evs) && SameCall(Added(evs), index, call)
    ensures Kept(After(evs), Parts(evs), Added(evs), ProgressOf(evs, index, call), index, call)
  {
    if evs != [] {
      var front, e := evs[..|evs| - 1], evs[|evs| - 1];
      AddedAreTracked(front);
      assert Added(evs) == AddedWith(Added(front), e);
      SameCallBefore(Added(front), e, index, call);
      ProgressIsKept(front, index, call);
      EventKeeps(After(front), Parts(front), e, Added(front), ProgressOf(front, index, call), index, call);
    }
  }

  // The flush delivers the buffered arguments of a call not yet delivered.
  lemma {:induction false} FlushRecovers(s: State, buffer: seq<(nat, string)>, added: map<nat, OutItem>, index: nat, call: string)
    requires Tracks(s, added) && SameCall(added, index, call) && index in added
    requires call !in s.emittedToolCalls
    ensures Delivered(FlushCalls(s, buffer).1, call) ==
            match BufferGet(buffer, index)
            case None => []
            case Some(text) => [if text != "" then text else "{}"]
    decreases |buffer|
  {
    if buffer != [] {
      var i := buffer[0].0;
      if Rebuilds(s, i) {
        var id := s.outputItems[i].callId.value;
        var s' := s.(hasFunctionCall := true, emittedToolCalls := s.emittedToolCalls + {id});
        var rest := FlushCalls(s', buffer[1..]).1;
        var first := FlushCalls(s, buffer).1[..2];
        assert FlushCalls(s, buffer).1 == first + rest;
        DeliveredShort(first, call);
        DeliveredAppend(first, rest, call);
        assert IsCall(added, i);
        if i == index {
          FlushDelivers(s', buffer[1..], call);
        } else {
          FlushRecovers(s', buffer[1..], added, index, call);
        }
      } else {
        FlushRecovers(s, buffer[1..], added, index, call);
      }
    }
  }

  /**
   * Cut anywhere, each added call is delivered exactly as its events say: once with its final
   * arguments if it finished, once with the concatenation of its deltas if it only made
   * progress, and not at all if it made none.
   */
  lemma CallsAreRecovered(evs: seq<Event>, hook: Hook, index: nat)
    requires Protocol(evs) && IsCall(Added(evs), index)
    ensures var call := Added(evs)[index].callId.value;
            Delivered(Output(evs, hook), call) == Due(ProgressOf(evs, index, call))
  {
    var added := Added(evs);
    var call := added[index].callId.value;
    var s := After(evs);
    AddedAreTracked(evs);
    ProgressIsKept(evs, index, call);
    OutputDelivers(evs, hook, call);
    if ProgressOf(evs, index, call).final.Some? {
      FlushDelivers(s, s.toolArgBuffer, call);
    } else {
      FlushRecovers(s, s.toolArgBuffer, added, index, call);
    }
  }

  /** In particular no call is delivered twice. */
  lemma ProtocolDeliversOnce(evs: seq<Event>, hook: Hook, c: string)
    requires Protocol(evs)
    ensures |Delivered(Output(evs, hook), c)| <= 1
  {
    ProtocolNeverRedelivers(evs, c);
    DeliveredOnceExactly(evs, hook, c);
  }

  lemma {:induction false} ProtocolNeverRedelivers(evs: seq<Event>, c: string)
    requires Protocol(evs)
    ensures NoRedelivery(evs, c)
  {
    if evs != [] {
      var front, e := evs[..|evs| - 1], evs[|evs| - 1];
      ProtocolNeverRedelivers(front, c);
      AddedAreTracked(front);
      AddedAreTracked(evs);
      if e.ItemAdded? && e.item.kind == FunctionCall {
        ProgressIsKept(front, e.index, e.item.callId.value);
      }
    }
  }
}
