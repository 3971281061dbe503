/** Which text and reasoning parts are started, and which of them are ended. */
module CodexPartIds {
  import opened Util
  import opened EmptyTurnClassifier
  import opened CodexSse
  import opened CodexSseProofs

  // ---- parts of the whole output ----

  predicate NamesAPart(p: Part) {
    p.TextStart? || p.ReasoningStart? || p.ReasoningEnd?
  }

  /** The flush adds no start, and no end but that of the open text part. */
  lemma FlushNames(evs: seq<Event>, hook: Hook, p: Part)
    ensures NamesAPart(p) ==> (p in Output(evs, hook) <==> p in Parts(evs))
    ensures p.TextEnd? ==> (p in Output(evs, hook) <==> p in Parts(evs) || After(evs).openTextId == Some(p.n))
  {
    var s := After(evs);
    FlushedAreToolParts(s, s.toolArgBuffer);
    var calls := FlushCalls(s, s.toolArgBuffer).1;
    var a := Parts(evs) + FlushText(s);
    var ab := a + calls;
    assert Output(evs, hook) == ab + [FinishPart(Flushed(s), hook)];
    assert p in Output(evs, hook) <==> p in Parts(evs) || p in FlushText(s) || p in calls || p == FinishPart(Flushed(s), hook);
  }

  // ---- what starts a part ----

  /** Events that start a text part when none is open. */
  predicate OpensText(e: Event) {
    e.OutputTextDelta? || (e.ItemAdded? && e.item.kind == Message)
  }

  predicate HasText(evs: seq<Event>) {
    exists e :: e in evs && OpensText(e)
  }

  /** How many times reasoning was declared done. */
  function ReasoningsDone(evs: seq<Event>): nat {
    if evs == [] then 0
    else ReasoningsDone(evs[..|evs| - 1]) + (if evs[|evs| - 1].ReasoningTextDone? then 1 else 0)
  }

  /** Some reasoning delta comes after exactly n of these. */
  predicate HasReasoning(evs: seq<Event>, n: nat) {
    evs != [] && (HasReasoning(evs[..|evs| - 1], n) || (evs[|evs| - 1].ReasoningTextDelta? && ReasoningsDone(evs[..|evs| - 1]) == n))
  }

  /** Reasoning whose last delta no done followed. */
  predicate EndsInReasoning(evs: seq<Event>) {
    evs != [] && (evs[|evs| - 1].ReasoningTextDelta? || (!evs[|evs| - 1].ReasoningTextDone? && EndsInReasoning(evs[..|evs| - 1])))
  }

  ghost predicate Counts(s: State, out: seq<Part>, evs: seq<Event>) {
    && (forall n: nat :: TextStart(n) in out <==> n < s.textIdCounter)
    && (s.openTextId.Some? ==> s.openTextId.value < s.textIdCounter)
    && (s.textIdCounter > 0 <==> HasText(evs))
    && s.reasoningIdCounter == ReasoningsDone(evs) && (s.reasoningOpen <==> EndsInReasoning(evs))
    && (forall n: nat :: ReasoningStart(n) in out <==> HasReasoning(evs, n))
    && (s.reasoningOpen ==> HasReasoning(evs, s.reasoningIdCounter))
    && (forall n: nat :: HasReasoning(evs, n) ==> n < s.reasoningIdCounter || (s.reasoningOpen && n == s.reasoningIdCounter))
  }

  lemma EventStarts(s: State, e: Event, n: nat)
    ensures var (s', ps) := MapEvent(s, e);
            && (TextStart(n) in ps <==> n == s.textIdCounter && s'.textIdCounter == s.textIdCounter + 1)
            && (s'.textIdCounter == s.textIdCounter || (s'.textIdCounter == s.textIdCounter + 1 && OpensText(e)))
            && (s.openTextId.None? && OpensText(e) ==> s'.textIdCounter == s.textIdCounter + 1)
            && (s'.openTextId.Some? ==> s'.openTextId == s.openTextId || s'.openTextId == Some(s.textIdCounter))
            && (s'.openTextId == Some(s.textIdCounter) && s'.openTextId != s.openTextId ==> s'.textIdCounter == s.textIdCounter + 1)
  {
  }

  lemma EventReasons(s: State, e: Event, n: nat)
    ensures var (s', ps) := MapEvent(s, e);
            && (ReasoningStart(n) in ps <==> e.ReasoningTextDelta? && !s.reasoningOpen && n == s.reasoningIdCounter)
            && s'.reasoningIdCounter == s.reasoningIdCounter + (if e.ReasoningTextDone? then 1 else 0)
            && s'.reasoningOpen == (e.ReasoningTextDelta? || (!e.ReasoningTextDone? && s.reasoningOpen))
            && (ReasoningEnd(n) in ps <==> e.ReasoningTextDone? && s.reasoningOpen && n == s.reasoningIdCounter)
  {
  }

  lemma {:induction false} StartsAreCounted(evs: seq<Event>)
    ensures Counts(After(evs), Parts(evs), evs)
  {
    if evs != [] {
      var front, e := evs[..|evs| - 1], evs[|evs| - 1];
      StartsAreCounted(front);
      var s := After(front);
      assert evs == front + [e];
      assert HasText(evs) <==> HasText(front) || OpensText(e);
      EventStarts(s, e, 0);
      forall n: nat
        ensures TextStart(n) in Parts(evs) <==> n < After(evs).textIdCounter
        ensures ReasoningStart(n) in Parts(evs) <==> HasReasoning(evs, n)
      {
        EventStarts(s, e, n);
        EventReasons(s, e, n);
      }
      EventReasons(s, e, 0);
    }
  }

  /** A text part is started exactly when a text delta arrived or a message item was added. */
  lemma TextStartsExactly(evs: seq<Event>, hook: Hook, n: nat)
    ensures TextStart(n) in Output(evs, hook) <==> TextStart(n) in Parts(evs)
    ensures TextStart(n) in Parts(evs) ==> TextStart(0) in Parts(evs)
    ensures TextStart(0) in Parts(evs) <==> HasText(evs)
  {
    FlushNames(evs, hook, TextStart(n));
    StartsAreCounted(evs);
  }

  /** Reasoning part n is started exactly when a reasoning delta came after n dones. */
  lemma ReasoningStartsExactly(evs: seq<Event>, hook: Hook, n: nat)
    ensures ReasoningStart(n) in Output(evs, hook) <==> ReasoningStart(n) in Parts(evs)
    ensures ReasoningStart(n) in Parts(evs) <==> HasReasoning(evs, n)
  {
    FlushNames(evs, hook, ReasoningStart(n));
    StartsAreCounted(evs);
  }

  // ---- which parts are ended ----

  /** A message item added while a text part is open takes its place. */
  predicate Overtakes(s: State, e: Event) {
    s.openTextId.Some? && e.ItemAdded? && e.item.kind == Message
  }

  predicate NoneOvertaken(evs: seq<Event>) {
    evs == [] || (NoneOvertaken(evs[..|evs| - 1]) && !Overtakes(After(evs[..|evs| - 1]), evs[|evs| - 1]))
  }

  /** Text part n was started, and neither ended nor is it open. */
  ghost predicate Lost(s: State, out: seq<Part>, n: nat) {
    n < s.textIdCounter && s.openTextId != Some(n) && TextEnd(n) !in out
  }

  lemma EventEnds(s: State, e: Event, n: nat)
    requires s.openTextId.Some? ==> s.openTextId.value < s.textIdCounter
    ensures var (s', ps) := MapEvent(s, e);
            && (TextEnd(n) in ps ==> s.openTextId == Some(n))
            && (n < s.textIdCounter && s'.openTextId != Some(n) && s.openTextId == Some(n) ==> (TextEnd(n) !in ps <==> Overtakes(s, e)))
            && (n < s.textIdCounter && s'.openTextId == Some(n) ==> s.openTextId == Some(n))
            && (s.textIdCounter <= n < s'.textIdCounter ==> s'.openTextId == Some(n))
            && (Overtakes(s, e) ==> s'.openTextId == Some(s.textIdCounter))
  {
  }

  lemma LostStep(s: State, out: seq<Part>, e: Event, n: nat)
    requires s.openTextId.Some? ==> s.openTextId.value < s.textIdCounter
    requires s.openTextId == Some(n) ==> TextEnd(n) !in out
    requires s.textIdCounter <= n ==> TextEnd(n) !in out
    ensures Lost(MapEvent(s, e).0, out + MapEvent(s, e).1, n) <==> Lost(s, out, n) || (s.openTextId == Some(n) && Overtakes(s, e))
  {
    EventEnds(s, e, n);
    EventStarts(s, e, n);
  }

  ghost predicate AnyLost(evs: seq<Event>) {
    exists n: nat :: Lost(After(evs), Parts(evs), n)
  }

  lemma LostNext(front: seq<Event>, e: Event)
    ensures AnyLost(front + [e]) <==> AnyLost(front) || Overtakes(After(front), e)
  {
    var s := After(front);
    assert (front + [e])[..|front|] == front;
    StartsAreCounted(front);
    forall n: nat
      ensures Lost(After(front + [e]), Parts(front + [e]), n) <==> Lost(s, Parts(front), n) || (s.openTextId == Some(n) && Overtakes(s, e))
    {
      OpenNotEnded(front, n);
      LostStep(s, Parts(front), e, n);
    }
    if Overtakes(s, e) {
      assert Lost(After(front + [e]), Parts(front + [e]), s.openTextId.value);
    }
  }

  lemma {:induction false} LostExactly(evs: seq<Event>)
    ensures AnyLost(evs) <==> !NoneOvertaken(evs)
  {
    if evs != [] {
      var front, e := evs[..|evs| - 1], evs[|evs| - 1];
      assert evs == front + [e];
      LostExactly(front);
      LostNext(front, e);
    }
  }

  lemma {:induction false} OpenNotEnded(evs: seq<Event>, n: nat)
    ensures TextEnd(n) in Parts(evs) ==> n < After(evs).textIdCounter && After(evs).openTextId != Some(n)
  {
    if evs != [] {
      var front, e := evs[..|evs| - 1], evs[|evs| - 1];
      OpenNotEnded(front, n);
      StartsAreCounted(front);
      EventEnds(After(front), e, n);
      EventStarts(After(front), e, n);
      EndCloses(After(front), e, n);
    }
  }

  lemma EndCloses(s: State, e: Event, n: nat)
    ensures TextEnd(n) in MapEvent(s, e).1 ==> MapEvent(s, e).0.openTextId.None?
  {
  }

  /** Every text part started is ended exactly when no message item is added while one is open. */
  lemma TextEndsExactly(evs: seq<Event>, hook: Hook)
    ensures (forall n: nat :: TextStart(n) in Output(evs, hook) ==> TextEnd(n) in Output(evs, hook)) <==> NoneOvertaken(evs)
  {
    StartsAreCounted(evs);
    LostExactly(evs);
    forall n: nat
      ensures Lost(After(evs), Parts(evs), n) <==> TextStart(n) in Output(evs, hook) && TextEnd(n) !in Output(evs, hook)
    {
      FlushNames(evs, hook, TextStart(n));
      FlushNames(evs, hook, TextEnd(n));
    }
  }

  lemma {:induction false} ReasoningEnded(evs: seq<Event>, n: nat)
    ensures ReasoningEnd(n) in Parts(evs) <==> HasReasoning(evs, n) && n < After(evs).reasoningIdCounter
  {
    if evs != [] {
      var front, e := evs[..|evs| - 1], evs[|evs| - 1];
      ReasoningEnded(front, n);
      StartsAreCounted(front);
      EventReasons(After(front), e, n);
    }
  }

  /** Every reasoning part started is ended exactly when the stream does not end in reasoning. */
  lemma ReasoningEndsExactly(evs: seq<Event>, hook: Hook)
    ensures (forall n: nat :: ReasoningStart(n) in Output(evs, hook) ==> ReasoningEnd(n) in Output(evs, hook)) <==> !EndsInReasoning(evs)
  {
    var s := After(evs);
    StartsAreCounted(evs);
    forall n: nat
      ensures ReasoningStart(n) in Output(evs, hook) && ReasoningEnd(n) !in Output(evs, hook) <==> s.reasoningOpen && n == s.reasoningIdCounter
    {
      FlushNames(evs, hook, ReasoningStart(n));
      FlushNames(evs, hook, ReasoningEnd(n));
      ReasoningEnded(evs, n);
    }
    if EndsInReasoning(evs) {
      var n := s.reasoningIdCounter;
      assert ReasoningStart(n) in Output(evs, hook) && ReasoningEnd(n) !in Output(evs, hook);
    }
  }
}
