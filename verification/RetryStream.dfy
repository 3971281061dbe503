/**
 * The two-attempt stream of doStream (packages/provider-codex/src/provider.ts): attempt 1 is
 * forwarded with its finish part held back; if the classifier asks for a retry, attempt 2 is
 * forwarded after it.
 */
module RetryStream {
  import opened Util
  import opened EmptyTurnClassifier
  import opened CodexSse
  import opened CodexSseProofs
  import opened CodexPartIds

  // ---- attempts ----

  /** A frame the socket layer counts; only events are forwarded. */
  datatype Frame = RateLimits | Forward(e: Event)

  /** One wsRequest: the frames until the stream closed, or failed. */
  datatype Attempt = Attempt(frames: seq<Frame>, failed: bool)

  function Events(frames: seq<Frame>): seq<Event> {
    if frames == [] then []
    else Events(frames[..|frames| - 1]) +
         (match frames[|frames| - 1] case RateLimits => [] case Forward(e) => [e])
  }

  function TerminalOf(e: Event): Option<TerminalType> {
    match e
    case Completed(_, _, _) => Some(ResponseCompleted)
    case Incomplete(_, _, _) => Some(ResponseIncomplete)
    case Failed(_) => Some(ResponseFailed)
    case _ => None
  }

  /** The socket layer's observation after these frames. */
  function Observe(frames: seq<Frame>, shape: RequestShape): Snapshot {
    if frames == [] then Snapshot(0, false, None, shape, false)
    else
      var was := Observe(frames[..|frames| - 1], shape);
      var last := frames[|frames| - 1];
      var counted := was.(wsFrameCount := was.wsFrameCount + 1);
      if last.Forward? && TerminalOf(last.e).Some?
      then counted.(terminalEventReceived := true, terminalEventType := TerminalOf(last.e))
      else counted
  }

  predicate HasTerminal(evs: seq<Event>) {
    exists e :: e in evs && TerminalOf(e).Some?
  }

  function StreamOf(a: Attempt, shape: RequestShape, retryAttempted: bool): seq<Part> {
    var evs := Events(a.frames);
    if a.failed then Parts(evs)
    else Output(evs, Hook(shape, retryAttempted, Some(Observe(a.frames, shape))))
  }

  // ---- the orchestrator ----

  function WithoutFinish(parts: seq<Part>): seq<Part> {
    if parts == [] then []
    else WithoutFinish(parts[..|parts| - 1]) + (if parts[|parts| - 1].Finish? then [] else [parts[|parts| - 1]])
  }

  function LastFinish(parts: seq<Part>): Option<Part> {
    if parts == [] then None
    else if parts[|parts| - 1].Finish? then Some(parts[|parts| - 1])
    else LastFinish(parts[..|parts| - 1])
  }

  function Emit(p: Option<Part>): seq<Part> {
    if p.Some? then [p.value] else []
  }

  predicate AsksRetry(finish: Option<Part>) {
    && finish.Some? && finish.value.Finish? && finish.value.emptyTurn.Some?
    && finish.value.emptyTurn.value.action == RetryOnceThenSoftFail
  }

  // `second` is the retry's stream and whether it failed; None when no transport came up.
  function Orchestrated(parts1: seq<Part>, failed1: bool, second: Option<(seq<Part>, bool)>): seq<Part> {
    var head := WithoutFinish(parts1);
    var finish := LastFinish(parts1);
    if failed1 || !AsksRetry(finish) || second.None? then head + Emit(finish)
    else
      var both := head + second.value.0;
      if second.value.1 then both + Emit(finish) else both
  }

  /** The reading loops of the outer stream; `attempts` counts the requests it makes. */
  method Orchestrate(parts1: seq<Part>, failed1: bool, second: Option<(seq<Part>, bool)>)
    returns (out: seq<Part>, attempts: nat)
    ensures out == Orchestrated(parts1, failed1, second)
    ensures attempts == if !failed1 && AsksRetry(LastFinish(parts1)) then 2 else 1
  {
    out := [];
    attempts := 1;
    var bufferedFinish: Option<Part> := None;
    for i := 0 to |parts1|
      invariant out == WithoutFinish(parts1[..i]) && bufferedFinish == LastFinish(parts1[..i])
    {
      assert parts1[..i + 1][..i] == parts1[..i];
      if parts1[i].Finish? {
        bufferedFinish := Some(parts1[i]);
        assert out + [] == out;
      } else {
        out := out + [parts1[i]];
      }
    }
    assert parts1[..|parts1|] == parts1;
    ghost var head := out;
    if failed1 || !AsksRetry(bufferedFinish) {
      out := out + Emit(bufferedFinish);
      return;
    }
    attempts := 2;
    if second.None? {
      out := out + Emit(bufferedFinish);
      return;
    }
    var parts2, failed2 := second.value.0, second.value.1;
    for i := 0 to |parts2|
      invariant out == head + parts2[..i]
    {
      out := out + [parts2[i]];
    }
    assert parts2[..|parts2|] == parts2;
    if failed2 {
      out := out + Emit(bufferedFinish);
    }
  }

  // ---- content ----

  predicate IsContent(p: Part) {
    p.TextDelta? || p.ToolCall?
  }

  function Content(parts: seq<Part>): seq<Part> {
    if parts == [] then []
    else Content(parts[..|parts| - 1]) + (if IsContent(parts[|parts| - 1]) then [parts[|parts| - 1]] else [])
  }

  function Finishes(parts: seq<Part>): nat {
    if parts == [] then 0
    else Finishes(parts[..|parts| - 1]) + (if parts[|parts| - 1].Finish? then 1 else 0)
  }

  lemma Snoc(a: seq<Part>, p: Part)
    ensures Content(a + [p]) == Content(a) + (if IsContent(p) then [p] else [])
    ensures Finishes(a + [p]) == Finishes(a) + (if p.Finish? then 1 else 0)
  {
    assert (a + [p])[..|a|] == a;
  }

  lemma {:induction false} Append(a: seq<Part>, b: seq<Part>)
    ensures Content(a + b) == Content(a) + Content(b)
    ensures Finishes(a + b) == Finishes(a) + Finishes(b)
    decreases |b|
  {
    if b == [] {
      assert a + b == a;
    } else {
      var front, last := b[..|b| - 1], b[|b| - 1];
      Append(a, front);
      Snoc(a + front, last);
      assert a + b == (a + front) + [last];
    }
  }

  // The held-back finish part, emitted after everything else.
  lemma EmitLast(a: seq<Part>, finish: Option<Part>, out: seq<Part>)
    requires finish.Some? && finish.value.Finish? && out == a + Emit(finish)
    ensures Content(out) == Content(a) && Finishes(out) == Finishes(a) + 1
    ensures out != [] && out[|out| - 1].Finish?
  {
    var p := finish.value;
    assert out == a + [p];
    Snoc(a, p);
  }

  lemma {:induction false} NoContent(parts: seq<Part>)
    ensures Content(parts) == [] <==> forall p :: p in parts ==> !IsContent(p)
    ensures Finishes(parts) == 0 <==> forall p :: p in parts ==> !p.Finish?
  {
    if parts != [] {
      var front := parts[..|parts| - 1];
      NoContent(front);
      assert forall p :: p in parts <==> p in front || p == parts[|parts| - 1];
    }
  }

  lemma {:induction false} WithoutFinishKeepsContent(parts: seq<Part>)
    ensures Content(WithoutFinish(parts)) == Content(parts)
    ensures Finishes(WithoutFinish(parts)) == 0
  {
    if parts != [] {
      var front, last := parts[..|parts| - 1], parts[|parts| - 1];
      WithoutFinishKeepsContent(front);
      if last.Finish? {
        assert WithoutFinish(parts) == WithoutFinish(front);
      } else {
        Append(WithoutFinish(front), [last]);
      }
    }
  }

  predicate Emitted(s: State) {
    s.emittedTextDeltas > 0 || s.emittedToolCalls != {}
  }

  lemma EventContent(s: State, e: Event)
    ensures Emitted(MapEvent(s, e).0) <==> Emitted(s) || exists p :: p in MapEvent(s, e).1 && IsContent(p)
  {
    var ps := MapEvent(s, e).1;
    if |ps| > 0 { assert ps[|ps| - 1] in ps; }
  }

  lemma {:induction false} ContentIsCounted(evs: seq<Event>)
    ensures Emitted(After(evs)) <==> Content(Parts(evs)) != []
  {
    if evs != [] {
      var front, e := evs[..|evs| - 1], evs[|evs| - 1];
      ContentIsCounted(front);
      EventContent(After(front), e);
      NoContent(MapEvent(After(front), e).1);
      Append(Parts(front), MapEvent(After(front), e).1);
    }
  }

  lemma {:induction false} FlushContent(s: State, buffer: seq<(nat, string)>)
    ensures var (t, ps) := FlushCalls(s, buffer);
            && t.emittedTextDeltas == s.emittedTextDeltas && s.emittedToolCalls <= t.emittedToolCalls
            && (Content(ps) == [] <==> t.emittedToolCalls == s.emittedToolCalls)
    decreases |buffer|
  {
    if buffer != [] {
      if Rebuilds(s, buffer[0].0) {
        var id := s.outputItems[buffer[0].0].callId.value;
        var s' := s.(hasFunctionCall := true, emittedToolCalls := s.emittedToolCalls + {id});
        FlushContent(s', buffer[1..]);
        var (t, ps) := FlushCalls(s, buffer);
        assert id in t.emittedToolCalls && id !in s.emittedToolCalls;
        assert ps[1].ToolCall? && ps[1] in ps;
        NoContent(ps);
      } else {
        FlushContent(s, buffer[1..]);
      }
    }
  }

  lemma OutputContent(evs: seq<Event>, hook: Hook)
    ensures Content(Output(evs, hook)) == [] <==> EffectivelyEmpty(Flushed(After(evs)))
  {
    var s := After(evs);
    var ps := FlushCalls(s, s.toolArgBuffer).1;
    ContentIsCounted(evs);
    FlushContent(s, s.toolArgBuffer);
    var a := Parts(evs) + FlushText(s);
    TextEndIsNoContent(Parts(evs), FlushText(s), a);
    var ab := a + ps;
    Append(a, ps);
    Snoc(ab, FinishPart(Flushed(s), hook));
  }

  lemma TextEndIsNoContent(a: seq<Part>, t: seq<Part>, at: seq<Part>)
    requires at == a + t && |t| <= 1 && (t != [] ==> t[0].TextEnd?)
    ensures Content(at) == Content(a)
  {
    if t == [] {
      assert at == a;
    } else {
      assert t == [t[0]];
      Snoc(a, t[0]);
    }
  }

  // ---- the socket layer's observation ----

  lemma {:induction false} ObservationIsFaithful(frames: seq<Frame>, shape: RequestShape)
    ensures Consistent(Observe(frames, shape))
    ensures Observe(frames, shape).wsFrameCount == |frames|
    ensures Observe(frames, shape).terminalEventReceived <==> HasTerminal(Events(frames))
  {
    if frames != [] {
      var front, last := frames[..|frames| - 1], frames[|frames| - 1];
      ObservationIsFaithful(front, shape);
      if last.Forward? {
        assert Events(frames) == Events(front) + [last.e];
        assert last.e in Events(frames);
      } else {
        assert Events(frames) == Events(front);
      }
    }
  }

  // ---- the outer stream ----

  lemma NormalAttempt(a: Attempt, shape: RequestShape, retryAttempted: bool)
    requires !a.failed
    ensures var parts := StreamOf(a, shape, retryAttempted);
            && Finishes(parts) == 1 && parts != [] && parts[|parts| - 1].Finish?
            && LastFinish(parts) == Some(parts[|parts| - 1])
            && (AsksRetry(LastFinish(parts)) <==>
                  !retryAttempted && Content(parts) == [] && !HasTerminal(Events(a.frames)))
  {
    var evs := Events(a.frames);
    var seen := Observe(a.frames, shape);
    var hook := Hook(shape, retryAttempted, Some(seen));
    var parts := Output(evs, hook);
    OutputIsWellFormed(evs, hook);
    var front := parts[..|parts| - 1];
    assert front + [parts[|parts| - 1]] == parts;
    NoContent(front);
    OutputContent(evs, hook);
    ObservationIsFaithful(a.frames, shape);
    RetryExactlyWhenCutShort(seen.(shape := shape, retryAttempted := retryAttempted));
  }

  lemma FailedAttempt(a: Attempt, shape: RequestShape, retryAttempted: bool)
    requires a.failed
    ensures Finishes(StreamOf(a, shape, retryAttempted)) == 0
  {
    PrefixInStep(Events(a.frames));
    NoContent(Parts(Events(a.frames)));
  }

  lemma {:induction false} NoFinishNoLast(parts: seq<Part>)
    requires Finishes(parts) == 0
    ensures LastFinish(parts) == None
  {
    if parts != [] {
      NoFinishNoLast(parts[..|parts| - 1]);
    }
  }

  function Outer(a1: Attempt, a2: Option<Attempt>, shape: RequestShape): seq<Part> {
    Orchestrated(StreamOf(a1, shape, false), a1.failed,
                 if a2.Some? then Some((StreamOf(a2.value, shape, true), a2.value.failed)) else None)
  }

  predicate Retries(a1: Attempt, shape: RequestShape) {
    !a1.failed && AsksRetry(LastFinish(StreamOf(a1, shape, false)))
  }

  lemma NoRetryOutput(parts1: seq<Part>)
    requires LastFinish(parts1).Some? && LastFinish(parts1).value.Finish?
    ensures var out := WithoutFinish(parts1) + Emit(LastFinish(parts1));
            Content(out) == Content(parts1) && Finishes(out) == 1 && out != [] && out[|out| - 1].Finish?
  {
    WithoutFinishKeepsContent(parts1);
    EmitLast(WithoutFinish(parts1), LastFinish(parts1), WithoutFinish(parts1) + Emit(LastFinish(parts1)));
  }

  lemma FailedOutput(parts1: seq<Part>)
    requires Finishes(parts1) == 0
    ensures var out := WithoutFinish(parts1) + Emit(LastFinish(parts1));
            Content(out) == Content(parts1) && Finishes(out) == 0
  {
    WithoutFinishKeepsContent(parts1);
    NoFinishNoLast(parts1);
    assert WithoutFinish(parts1) + [] == WithoutFinish(parts1);
  }

  lemma RetriedOutput(head: seq<Part>, parts2: seq<Part>, mid: seq<Part>)
    requires Content(head) == [] && Finishes(head) == 0 && mid == head + parts2
    ensures Content(mid) == Content(parts2) && Finishes(mid) == Finishes(parts2)
  {
    Append(head, parts2);
  }

  /**
   * For every pair of attempts: a retry happens exactly when attempt 1 ended normally with no
   * text delta, no tool call and no terminal event; all text deltas and tool calls come from
   * one attempt; there is at most one finish part, exactly one unless attempt 1 failed, and
   * it comes last.
   */
  lemma SingleSource(a1: Attempt, a2: Option<Attempt>, shape: RequestShape)
    ensures var out := Outer(a1, a2, shape);
            var parts1 := StreamOf(a1, shape, false);
            && (Retries(a1, shape) <==> !a1.failed && Content(parts1) == [] && !HasTerminal(Events(a1.frames)))
            && Content(out) == (if Retries(a1, shape) && a2.Some?
                                then Content(StreamOf(a2.value, shape, true)) else Content(parts1))
            && Finishes(out) == (if a1.failed then 0 else 1)
            && (!a1.failed ==> out != [] && out[|out| - 1].Finish?)
  {
    var parts1 := StreamOf(a1, shape, false);
    if a1.failed {
      FailedAttempt(a1, shape, false);
      FailedOutput(parts1);
    } else {
      NormalAttempt(a1, shape, false);
      if Retries(a1, shape) && a2.Some? {
        RetriedAttempt(a1, a2.value, shape);
      } else {
        NoRetryOutput(parts1);
      }
    }
  }

  lemma RetriedOrchestration(parts1: seq<Part>, parts2: seq<Part>, failed2: bool)
    requires AsksRetry(LastFinish(parts1)) && Content(parts1) == []
    requires if failed2 then Finishes(parts2) == 0
             else Finishes(parts2) == 1 && parts2 != [] && parts2[|parts2| - 1].Finish?
    ensures var out := Orchestrated(parts1, false, Some((parts2, failed2)));
            && Content(out) == Content(parts2)
            && Finishes(out) == 1 && out != [] && out[|out| - 1].Finish?
  {
    var head := WithoutFinish(parts1);
    var both := head + parts2;
    WithoutFinishKeepsContent(parts1);
    RetriedOutput(head, parts2, both);
    if failed2 {
      EmitLast(both, LastFinish(parts1), both + Emit(LastFinish(parts1)));
    } else {
      assert both[|both| - 1] == parts2[|parts2| - 1];
    }
  }

  lemma RetriedAttempt(a1: Attempt, a2: Attempt, shape: RequestShape)
    requires Retries(a1, shape) && Content(StreamOf(a1, shape, false)) == []
    ensures var out := Outer(a1, Some(a2), shape);
            && Content(out) == Content(StreamOf(a2, shape, true))
            && Finishes(out) == 1 && out != [] && out[|out| - 1].Finish?
  {
    if a2.failed {
      FailedAttempt(a2, shape, true);
    } else {
      NormalAttempt(a2, shape, true);
    }
    RetriedOrchestration(StreamOf(a1, shape, false), StreamOf(a2, shape, true), a2.failed);
  }

  /** A second attempt never asks for a third. */
  lemma NoThirdAttempt(a2: Attempt, shape: RequestShape)
    requires !a2.failed
    ensures !AsksRetry(LastFinish(StreamOf(a2, shape, true)))
  {
    NormalAttempt(a2, shape, true);
  }

  // ---- part ids across the two attempts ----

  predicate IsStart(p: Part) {
    p.TextStart? || p.ReasoningStart?
  }

  lemma {:induction false} StartsOnce(out: seq<Part>, p: Part)
    requires WellFormed(out) && IsStart(p)
    ensures multiset(out)[p] == if p in out then 1 else 0
    decreases |out|
  {
    if out != [] {
      var front, last := out[..|out| - 1], out[|out| - 1];
      assert forall i :: 0 <= i < |front| ==> front[..i] == out[..i] && front[i] == out[i];
      assert Proper(front, last);
      StartsOnce(front, p);
      assert out == front + [last];
    }
  }

  lemma {:induction false} WithoutFinishCounts(parts: seq<Part>, p: Part)
    requires !p.Finish?
    ensures multiset(WithoutFinish(parts))[p] == multiset(parts)[p]
    decreases |parts|
  {
    if parts != [] {
      WithoutFinishCounts(parts[..|parts| - 1], p);
      assert parts == parts[..|parts| - 1] + [parts[|parts| - 1]];
    }
  }

  lemma StreamStarts(a: Attempt, shape: RequestShape, retryAttempted: bool, p: Part)
    requires IsStart(p)
    ensures multiset(StreamOf(a, shape, retryAttempted))[p] == if p in Parts(Events(a.frames)) then 1 else 0
  {
    var evs := Events(a.frames);
    if a.failed {
      PrefixInStep(evs);
    } else {
      var hook := Hook(shape, retryAttempted, Some(Observe(a.frames, shape)));
      OutputIsWellFormed(evs, hook);
      FlushNames(evs, hook, p);
    }
    StartsOnce(StreamOf(a, shape, retryAttempted), p);
  }

  lemma EmitCounts(out: seq<Part>, finish: Option<Part>, p: Part)
    requires !p.Finish? && (finish.Some? ==> finish.value.Finish?)
    ensures multiset(out + Emit(finish))[p] == multiset(out)[p]
  {
  }

  lemma {:induction false} LastFinishIsFinish(parts: seq<Part>)
    ensures LastFinish(parts).Some? ==> LastFinish(parts).value.Finish?
    decreases |parts|
  {
    if parts != [] {
      LastFinishIsFinish(parts[..|parts| - 1]);
    }
  }

  lemma OrchestratedCounts(parts1: seq<Part>, failed1: bool, second: Option<(seq<Part>, bool)>, p: Part)
    requires !p.Finish?
    ensures multiset(Orchestrated(parts1, failed1, second))[p]
            == multiset(parts1)[p] + (if !failed1 && AsksRetry(LastFinish(parts1)) && second.Some? then multiset(second.value.0)[p] else 0)
  {
    var head := WithoutFinish(parts1);
    var finish := LastFinish(parts1);
    LastFinishIsFinish(parts1);
    WithoutFinishCounts(parts1, p);
    EmitCounts(head, finish, p);
    if second.Some? {
      EmitCounts(head + second.value.0, finish, p);
    }
  }

  /** A part is started twice exactly when there is a retry and both attempts start it. */
  lemma StartedTwiceExactly(a1: Attempt, a2: Option<Attempt>, shape: RequestShape, p: Part)
    requires IsStart(p)
    ensures multiset(Outer(a1, a2, shape))[p] <= 2
    ensures multiset(Outer(a1, a2, shape))[p] == 2
            <==> Retries(a1, shape) && a2.Some? && p in Parts(Events(a1.frames)) && p in Parts(Events(a2.value.frames))
  {
    StreamStarts(a1, shape, false, p);
    if a2.Some? {
      StreamStarts(a2.value, shape, true, p);
    }
    OrchestratedCounts(StreamOf(a1, shape, false), a1.failed,
                       if a2.Some? then Some((StreamOf(a2.value, shape, true), a2.value.failed)) else None, p);
  }

  /** Attempt 2 numbers its parts afresh: text ids repeat exactly when both attempts have text. */
  lemma TextIdsRepeatExactly(a1: Attempt, a2: Option<Attempt>, shape: RequestShape)
    ensures (exists n: nat :: multiset(Outer(a1, a2, shape))[TextStart(n)] > 1)
            <==> Retries(a1, shape) && a2.Some? && HasText(Events(a1.frames)) && HasText(Events(a2.value.frames))
  {
    forall n: nat
      ensures multiset(Outer(a1, a2, shape))[TextStart(n)] > 1
              ==> Retries(a1, shape) && a2.Some? && HasText(Events(a1.frames)) && HasText(Events(a2.value.frames))
    {
      StartedTwiceExactly(a1, a2, shape, TextStart(n));
      TextStartsExactly(Events(a1.frames), NoHook, n);
      if a2.Some? {
        TextStartsExactly(Events(a2.value.frames), NoHook, n);
      }
    }
    TextStartsExactly(Events(a1.frames), NoHook, 0);
    if a2.Some? {
      TextStartsExactly(Events(a2.value.frames), NoHook, 0);
    }
    StartedTwiceExactly(a1, a2, shape, TextStart(0));
  }

  /** Reasoning ids repeat exactly when both attempts have reasoning after the same number of dones. */
  lemma ReasoningIdsRepeatExactly(a1: Attempt, a2: Option<Attempt>, shape: RequestShape, n: nat)
    ensures multiset(Outer(a1, a2, shape))[ReasoningStart(n)] > 1
            <==> Retries(a1, shape) && a2.Some? && HasReasoning(Events(a1.frames), n) && HasReasoning(Events(a2.value.frames), n)
  {
    StartedTwiceExactly(a1, a2, shape, ReasoningStart(n));
    ReasoningStartsExactly(Events(a1.frames), NoHook, n);
    if a2.Some? {
      ReasoningStartsExactly(Events(a2.value.frames), NoHook, n);
    }
  }

  const OPENING := ItemAdded(OutItem(Message, None, None, None, None), 0)
  const CUT_AFTER_OPENING := Attempt([Forward(OPENING)], false)

  lemma OpeningIsEmpty(shape: RequestShape)
    ensures Events(CUT_AFTER_OPENING.frames) == [OPENING] && Content(StreamOf(CUT_AFTER_OPENING, shape, false)) == []
  {
    var frames := CUT_AFTER_OPENING.frames;
    assert frames[..0] == [] && Events(frames[..0]) == [];
    assert Events(frames) == [OPENING];
    assert [OPENING][..0] == [] && After([OPENING]) == MapEvent(START, OPENING).0;
    OutputContent([OPENING], Hook(shape, false, Some(Observe(frames, shape))));
  }

  /** Two attempts cut off after a message item was added start the same text part. */
  lemma TextIdsMayRepeatAcrossAttempts(shape: RequestShape)
    ensures var a := CUT_AFTER_OPENING;
            Retries(a, shape) && multiset(Outer(a, Some(a), shape))[TextStart(0)] == 2
  {
    var a := CUT_AFTER_OPENING;
    OpeningIsEmpty(shape);
    assert !HasTerminal([OPENING]);
    SingleSource(a, Some(a), shape);
    assert OPENING in [OPENING];
    TextStartsExactly([OPENING], NoHook, 0);
    StartedTwiceExactly(a, Some(a), shape, TextStart(0));
  }
}
