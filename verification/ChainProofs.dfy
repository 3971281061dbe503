/**
 * What holds over whole runs of the chain: every pair the client keeps describes what the
 * server holds, every completed response was built from the full local input, and growing
 * inputs trip the length gate only on a pair of length 0.
 */
module ChainProofs {
  import opened Util
  import opened Continuation
  import opened Chain

  // ---- runs ----

  predicate Legal(w: World, evs: seq<Event>)
    decreases |evs|
  {
    evs == [] || (Enabled(w, evs[0]) && Legal(Next(w, evs[0]), evs[1..]))
  }

  function Run(w: World, evs: seq<Event>): World
    requires Legal(w, evs)
    decreases |evs|
  {
    if evs == [] then w else Run(Next(w, evs[0]), evs[1..])
  }

  /** Each completed response of the run was built from the whole input of its request. */
  predicate Refined(w: World, evs: seq<Event>)
    requires Legal(w, evs)
    decreases |evs|
  {
    evs == [] ||
    (&& (evs[0].Completed? ==>
           Rebuilt(w.server, InFlight(w.phase).value) == InFlight(w.phase).value.full)
     && Refined(Next(w, evs[0]), evs[1..]))
  }

  // ---- judgements about one (id, length) pair ----

  type Judgement = (Option<string>, Option<nat>) -> bool

  /** The pair is absent, or its length is the number of items the server holds for its id. */
  predicate Held(server: map<string, seq<Item>>, id: Option<string>, len: Option<nat>) {
    || (id.None? && len.None?)
    || (Truthy(id) && len.Some? && id.value in server && |server[id.value]| == len.value)
  }

  /** ... and those items are a prefix of the local history. */
  predicate Current(server: map<string, seq<Item>>, history: seq<Item>, id: Option<string>, len: Option<nat>) {
    Held(server, id, len) && (id.Some? ==> server[id.value] <= history)
  }

  /** The length, when present, is at most `cap`. */
  predicate Within(cap: int, id: Option<string>, len: Option<nat>) {
    (id.None? && len.None?) || (Truthy(id) && len.Some? && len.value <= cap)
  }

  ghost predicate StoreJudged(store: Store, sid: string, J: Judgement) {
    forall k :: k in store && InFamily(k, sid) ==> J(store[k].id, store[k].len)
  }

  ghost predicate Judged(w: World, J: Judgement) {
    && J(None, None)
    && (w.mem.Some? ==> J(w.mem.value.id, w.mem.value.len))
    && StoreJudged(w.cache, w.sid, J)
  }

  ghost predicate Weaker(J: Judgement, K: Judgement) {
    forall id, len :: J(id, len) ==> K(id, len)
  }

  /** The pair a completion commits, if it commits one. */
  function Committed(w: World, e: Event): Option<(Option<string>, Option<nat>)>
    requires Enabled(w, e)
  {
    if e.Completed? && Truthy(e.responseId)
    then Some((e.responseId, Some(|InFlight(w.phase).value.full|)))
    else None
  }

  lemma InvalidatedIsJudged(w: World, status: Status, J: Judgement)
    requires w.mem.Some? && J(None, None)
    ensures Judged(DoInvalidate(w, status), J)
  {
  }

  lemma SendIsJudged(w: World, via: Via, account: Option<string>, input: seq<Item>, chained: bool, J: Judgement)
    requires w.mem.Some? && Judged(w, J)
    ensures Judged(Send(w, via, account, input, chained), J)
  {
    InvalidatedIsJudged(w, Streaming, J);
  }

  lemma DroppedIsJudged(w: World, J: Judgement)
    requires Judged(w, J)
    ensures Judged(DropUnconfirmed(w, GetSession(w)), J)
  {
    if w.mem.None? && w.sid in w.cache {
      assert InFamily(w.sid, w.sid);
    }
  }

  lemma SwitchedIsJudged(w: World, account: Option<string>, J: Judgement)
    requires w.mem.Some? && Judged(w, J)
    ensures Judged(SwitchAccount(w, account), J)
  {
    assert InFamily(ShardKey(w.sid, Show(account)), w.sid);
  }

  lemma ResumedIsJudged(w: World, account: Option<string>, healed: bool, alive: bool, J: Judgement)
    requires w.mem.Some? && Judged(w, J)
    ensures Judged(Resume(w, account, healed, alive), J)
  {
    SendIsJudged(w.(mem := Some(w.mem.value.(disabled := false))), Reuse, account, w.history, true, J);
  }

  lemma EnteredIsJudged(w: World, account: Option<string>, healed: bool, alive: bool, J: Judgement)
    requires Judged(w, J)
    ensures Judged(EnterTurn(w, account, healed, alive), J)
  {
    DroppedIsJudged(w, J);
    var w1 := DropUnconfirmed(w, GetSession(w));
    SwitchedIsJudged(w1, account, J);
    ResumedIsJudged(SwitchAccount(w1, account).(longest := |w.history|), account, healed, alive, J);
  }

  lemma ConnectedIsJudged(w: World, e: Event, K: Judgement)
    requires e.ConnectOk? && Enabled(w, e) && Judged(w, K)
    ensures Judged(Next(w, e), K)
  {
    SendIsJudged(w.(mem := Some(w.mem.value.(ws := true, status := Open, account := w.phase.account))),
                 Fresh, w.phase.account, w.phase.input, true, K);
  }

  lemma EndedIsJudged(w: World, K: Judgement)
    requires w.mem.Some? && Judged(w, K)
    ensures Judged(StreamEnded(w), K)
    ensures w.phase.Probing? ==> Judged(AfterFailedProbe(w, w.phase.via, w.phase.account, w.phase.req.full), K)
  {
  }

  lemma ClosedIsJudged(w: World, e: Event, K: Judgement)
    requires e.WsError? || e.WsClose? || e.IdleTimeout?
    requires Enabled(w, e) && Judged(w, K)
    ensures Judged(Next(w, e), K)
  {
    InvalidatedIsJudged(w, Open, K);
    EndedIsJudged(DoInvalidate(w, Open), K);
  }

  lemma FailedIsJudged(w: World, e: Event, K: Judgement)
    requires e.Incomplete? || e.ResponseFailed? || e.ErrorFrame? || e.LateIdleTimer?
    requires Enabled(w, e) && Judged(w, K)
    ensures Judged(Next(w, e), K)
  {
    var status := if e.Incomplete? || (e.LateIdleTimer? && e.open) then Open else Failed;
    InvalidatedIsJudged(w, status, K);
    EndedIsJudged(DoInvalidate(w, status), K);
  }

  lemma NotFoundIsJudged(w: World, e: Event, K: Judgement)
    requires e.NotFound? && Enabled(w, e) && Judged(w, K)
    ensures Judged(Next(w, e), K)
  {
    InvalidatedIsJudged(w, Failed, K);
    if w.phase.Probing? {
      SendIsJudged(DoInvalidate(w, Failed), Retry, w.phase.account, w.phase.req.full, false, K);
    }
  }

  lemma ResetIsJudged(w: World, e: Event, K: Judgement)
    requires e.Reset? && Enabled(w, e) && K(None, None)
    requires w.mem.Some? || Judged(w, K)
    ensures Judged(Next(w, e), K)
  {
    if w.mem.Some? {
      var w1 := w.(history := e.compacted, longest := 0, staleDisk := true);
      InvalidatedIsJudged(w1.(mem := Some(w1.mem.value.(ws := false)), phase := Silence(w1.phase)), Idle, K);
    }
  }

  /** A compaction after which no pair is left: neither in memory nor in the store. */
  predicate ClearsPairs(w: World, e: Event) {
    || (e.Reset? && w.mem.Some?)
    || (e.Scrub? && (w.mem.None? || (w.mem.value.id.None? && w.mem.value.len.None?)))
  }

  lemma ScrubIsJudged(w: World, e: Event, K: Judgement)
    requires e.Scrub? && Enabled(w, e) && K(None, None)
    requires ClearsPairs(w, e) || Judged(w, K)
    ensures Judged(Next(w, e), K)
  {
  }

  lemma CompletedIsJudged(w: World, e: Event, K: Judgement)
    requires e.Completed? && Enabled(w, e) && Judged(w, K)
    requires Committed(w, e).Some? ==> var c := Committed(w, e).value; K(c.0, c.1)
    ensures Judged(Next(w, e), K)
  {
  }

  // No step invents a pair: pairs are copied, cleared, reloaded from disk, or committed by a completion.
  lemma PairsAreCopied(w: World, e: Event, J: Judgement, K: Judgement)
    requires Enabled(w, e) && Judged(w, J) && K(None, None)
    requires Weaker(J, K) || ClearsPairs(w, e)
    requires Committed(w, e).Some? ==> var c := Committed(w, e).value; K(c.0, c.1)
    requires e.Restart? && e.readable ==> StoreJudged(w.disk, w.sid, K)
    ensures Judged(Next(w, e), K)
  {
    assert Judged(w, K) || ClearsPairs(w, e);
    match e
    case Reset(_) => ResetIsJudged(w, e, K);
    case Scrub(_) => ScrubIsJudged(w, e, K);
    case Enter(account, healed, alive) => EnteredIsJudged(w, account, healed, alive, K);
    case ConnectOk => ConnectedIsJudged(w, e, K);
    case Completed(_) => CompletedIsJudged(w, e, K);
    case NotFound(_) => NotFoundIsJudged(w, e, K);
    case Incomplete => FailedIsJudged(w, e, K);
    case ResponseFailed => FailedIsJudged(w, e, K);
    case ErrorFrame => FailedIsJudged(w, e, K);
    case WsError => ClosedIsJudged(w, e, K);
    case WsClose => ClosedIsJudged(w, e, K);
    case IdleTimeout => ClosedIsJudged(w, e, K);
    case LateIdleTimer(_) => FailedIsJudged(w, e, K);
    case _ => QuietStepIsJudged(w, e, K);
  }

  lemma QuietStepIsJudged(w: World, e: Event, K: Judgement)
    requires Enabled(w, e) && Judged(w, K)
    requires
      || e.Grow? || e.Close? || e.BackgroundClose? || e.ConnectFail? || e.FirstFrame? || e.SendTimeout?
      || e.ProbeTimeout? || e.Flush? || e.Restart? || e.OtherSessions?
    requires e.Restart? && e.readable ==> StoreJudged(w.disk, w.sid, K)
    ensures Judged(Next(w, e), K)
  {
  }

  // ---- requests ----

  /** The slice sent is exactly what the server does not yet hold under the previous id. */
  predicate Sliced(server: map<string, seq<Item>>, req: Req) {
    match req.prev
    case None => req.sent == req.full
    case Some(p) =>
      && p in server
      && 0 < |server[p]| < |req.full|
      && req.sent == req.full[|server[p]|..]
  }

  function PendingReq(p: Phase): Option<Req> {
    match p
    case Probing(_, _, req, _) => Some(req)
    case Forwarding(req) => Some(req)
    case _ => None
  }

  function PendingInput(p: Phase): Option<seq<Item>> {
    match p
    case Connecting(_, input) => Some(input)
    case Probing(_, _, req, _) => Some(req.full)
    case Forwarding(req) => Some(req.full)
    case Quiet => None
  }

  // ---- pair coherence, over every run ----

  ghost predicate Coherent(w: World) {
    var J := (id, len) => Held(w.server, id, len);
    && Judged(w, J)
    && StoreJudged(w.disk, w.sid, J)
    && (PendingReq(w.phase).Some? ==> Sliced(w.server, PendingReq(w.phase).value))
  }

  lemma OnlyCompletionsServe(w: World, e: Event)
    requires Enabled(w, e) && !e.Completed?
    ensures Next(w, e).sid == w.sid && Next(w, e).server == w.server
  {
  }

  // The server map changes only by a completion, which adds one fresh id.
  lemma ServerOnlyGrows(w: World, e: Event)
    requires Enabled(w, e)
    ensures Next(w, e).sid == w.sid
    ensures Committed(w, e).None? ==> Next(w, e).server == w.server
    ensures Committed(w, e).Some? ==>
              && e.responseId.value !in w.server
              && Next(w, e).server == w.server[e.responseId.value := Rebuilt(w.server, InFlight(w.phase).value)]
              && Next(w, e).phase == Quiet
  {
    if !e.Completed? {
      OnlyCompletionsServe(w, e);
    }
  }

  predicate Sends(e: Event) {
    e.Enter? || e.ConnectOk? || e.NotFound?
  }

  predicate PhaseKept(p: Phase, q: Phase) {
    && (q.Quiet? || PendingInput(q) == PendingInput(p))
    && (PendingReq(q).Some? ==> PendingReq(q) == PendingReq(p))
  }

  lemma EndedPhase(w: World)
    requires w.mem.Some?
    ensures PhaseKept(w.phase, StreamEnded(w).phase)
    ensures w.phase.Probing? ==> PhaseKept(w.phase, AfterFailedProbe(w, w.phase.via, w.phase.account, w.phase.req.full).phase)
  {
  }

  lemma ClosedPhase(w: World, e: Event)
    requires Enabled(w, e) && (e.WsError? || e.WsClose? || e.IdleTimeout?)
    ensures PhaseKept(w.phase, Next(w, e).phase)
  {
    EndedPhase(DoInvalidate(w, Open));
  }

  lemma TimeoutPhase(w: World, e: Event)
    requires Enabled(w, e) && e.SendTimeout?
    ensures PhaseKept(w.phase, Next(w, e).phase)
  {
    EndedPhase(w.(mem := Some(w.mem.value.(status := Open))));
  }

  // Every other step keeps the pending request, or ends it.
  lemma RequestsPersist(w: World, e: Event)
    requires Enabled(w, e) && !Sends(e)
    ensures PhaseKept(w.phase, Next(w, e).phase)
  {
    match e
    case WsError => ClosedPhase(w, e);
    case WsClose => ClosedPhase(w, e);
    case IdleTimeout => ClosedPhase(w, e);
    case SendTimeout => TimeoutPhase(w, e);
    case ErrorFrame => EndedPhase(DoInvalidate(w, Failed));
    case _ =>
  }

  lemma SendSlices(w: World, via: Via, account: Option<string>, input: seq<Item>, chained: bool)
    requires w.mem.Some? && Held(w.server, w.mem.value.id, w.mem.value.len)
    ensures var p := Send(w, via, account, input, chained).phase;
            && p.Probing? && p.live && p.via == via && p.account == account && p.req.full == input
            && Sliced(w.server, p.req)
            && (p.req.prev.Some? ==> p.req.prev == w.mem.value.id)
  {
  }

  lemma ResumeSlices(w: World, account: Option<string>, healed: bool, alive: bool)
    requires w.mem.Some? && w.phase.Quiet? && Held(w.server, w.mem.value.id, w.mem.value.len)
    ensures var p := Resume(w, account, healed, alive).phase;
            && (PendingReq(p).Some? ==> Sliced(w.server, PendingReq(p).value))
            && (PendingInput(p).Some? ==> PendingInput(p).value == w.history)
  {
    SendSlices(w.(mem := Some(w.mem.value.(disabled := false))), Reuse, account, w.history, true);
  }

  lemma EnterSlices(w: World, account: Option<string>, healed: bool, alive: bool)
    requires w.phase.Quiet? && Coherent(w)
    ensures var p := EnterTurn(w, account, healed, alive).phase;
            && (PendingReq(p).Some? ==> Sliced(w.server, PendingReq(p).value))
            && (PendingInput(p).Some? ==> PendingInput(p).value == w.history)
  {
    var J := (id, len) => Held(w.server, id, len);
    DroppedIsJudged(w, J);
    var w1 := DropUnconfirmed(w, GetSession(w));
    SwitchedIsJudged(w1, account, J);
    ResumeSlices(SwitchAccount(w1, account).(longest := |w.history|), account, healed, alive);
  }

  // The step that sends: its request, if there is one after it.
  lemma SendingStep(w: World, e: Event)
    requires Enabled(w, e) && Sends(e) && Coherent(w)
    ensures var p := Next(w, e).phase;
            && (PendingReq(p).Some? ==> Sliced(w.server, PendingReq(p).value))
            && (PendingInput(p).Some? ==> PendingInput(p).value == if e.Enter? then w.history else PendingInput(w.phase).value)
  {
    match e
    case Enter(account, healed, alive) => EnterSlices(w, account, healed, alive);
    case ConnectOk =>
      SendSlices(w.(mem := Some(w.mem.value.(ws := true, status := Open, account := w.phase.account))),
                 Fresh, w.phase.account, w.phase.input, true);
    case NotFound(_) =>
      if w.phase.Probing? {
        SendSlices(DoInvalidate(w, Failed), Retry, w.phase.account, w.phase.req.full, false);
      }
  }

  lemma StepKeepsSlices(w: World, e: Event)
    requires Enabled(w, e) && Coherent(w)
    ensures PendingReq(Next(w, e).phase).Some? ==> Sliced(Next(w, e).server, PendingReq(Next(w, e).phase).value)
  {
    ServerOnlyGrows(w, e);
    if Sends(e) {
      SendingStep(w, e);
    } else {
      RequestsPersist(w, e);
    }
  }

  // A completion commits the length of what the server now holds.
  lemma CommitIsHeld(w: World, e: Event)
    requires Enabled(w, e) && Coherent(w) && Committed(w, e).Some?
    ensures var c := Committed(w, e).value; Held(Next(w, e).server, c.0, c.1)
    ensures Rebuilt(w.server, InFlight(w.phase).value) ==
            if InFlight(w.phase).value.prev.Some?
            then w.server[InFlight(w.phase).value.prev.value] + InFlight(w.phase).value.full[|w.server[InFlight(w.phase).value.prev.value]|..]
            else InFlight(w.phase).value.full
  {
    assert PendingReq(w.phase) == InFlight(w.phase);
  }

  lemma DiskStep(w: World, e: Event)
    requires Enabled(w, e)
    ensures Next(w, e).disk == if e.Flush? && e.ok then w.cache else w.disk
    ensures Next(w, e).staleDisk == if e.Flush? && e.ok then false else w.staleDisk || e.Reset? || e.Scrub?
  {
  }

  lemma StepKeepsCoherence(w: World, e: Event)
    requires Enabled(w, e) && Coherent(w)
    ensures Coherent(Next(w, e))
  {
    var w' := Next(w, e);
    var J := (id, len) => Held(w.server, id, len);
    var K := (id, len) => Held(w'.server, id, len);
    ServerOnlyGrows(w, e);
    assert Weaker(J, K);
    if Committed(w, e).Some? {
      CommitIsHeld(w, e);
    }
    PairsAreCopied(w, e, J, K);
    StepKeepsSlices(w, e);
    DiskStep(w, e);
    assert StoreJudged(w'.disk, w'.sid, K);
  }

  /** Over every run whatever, each pair kept anywhere describes what the server holds. */
  lemma {:induction false} PairCoherence(w: World, evs: seq<Event>)
    requires Legal(w, evs) && Coherent(w)
    ensures Coherent(Run(w, evs))
    decreases |evs|
  {
    if evs != [] {
      StepKeepsCoherence(w, evs[0]);
      PairCoherence(Next(w, evs[0]), evs[1..]);
    }
  }

  // ---- chain refinement ----

  /** Compaction leaves no pair and no call pending; a restart reads a file written after the
      last compaction. */
  predicate Safe(w: World, e: Event) {
    && (e.Reset? ==> w.mem.Some? && (w.phase.Quiet? || w.phase.Forwarding?))
    && (e.Scrub? ==> ClearsPairs(w, e) && w.phase.Quiet?)
    && (e.Restart? && e.readable ==> !w.staleDisk)
  }

  predicate SafeRun(w: World, evs: seq<Event>)
    requires Legal(w, evs)
    decreases |evs|
  {
    evs == [] || (Safe(w, evs[0]) && SafeRun(Next(w, evs[0]), evs[1..]))
  }

  predicate OnHistory(w: World) {
    && (PendingInput(w.phase).Some? ==> PendingInput(w.phase).value <= w.history)
    && (PendingReq(w.phase).Some? ==>
          var req := PendingReq(w.phase).value;
          req.prev.Some? ==> req.prev.value in w.server && w.server[req.prev.value] <= req.full)
  }

  ghost predicate UpToDate(w: World) {
    var J := (id, len) => Current(w.server, w.history, id, len);
    && Coherent(w)
    && Judged(w, J)
    && (!w.staleDisk ==> StoreJudged(w.disk, w.sid, J))
    && OnHistory(w)
  }

  lemma PrefixOfLonger(a: seq<Item>, b: seq<Item>, h: seq<Item>)
    requires a <= h && b <= h && |a| <= |b|
    ensures a <= b
  {
    assert a == h[..|a|] && b == h[..|b|];
  }

  lemma SendOnHistory(w: World, via: Via, account: Option<string>, input: seq<Item>, chained: bool)
    requires w.mem.Some? && Current(w.server, w.history, w.mem.value.id, w.mem.value.len)
    requires input <= w.history
    ensures OnHistory(Send(w, via, account, input, chained))
  {
    SendSlices(w, via, account, input, chained);
    var req := Send(w, via, account, input, chained).phase.req;
    if req.prev.Some? {
      PrefixOfLonger(w.server[req.prev.value], input, w.history);
    }
  }

  lemma ResumeOnHistory(w: World, account: Option<string>, healed: bool, alive: bool)
    requires w.mem.Some? && w.phase.Quiet? && Current(w.server, w.history, w.mem.value.id, w.mem.value.len)
    ensures OnHistory(Resume(w, account, healed, alive))
  {
    SendOnHistory(w.(mem := Some(w.mem.value.(disabled := false))), Reuse, account, w.history, true);
  }

  lemma EnterOnHistory(w: World, account: Option<string>, healed: bool, alive: bool)
    requires w.phase.Quiet? && UpToDate(w)
    ensures OnHistory(EnterTurn(w, account, healed, alive))
  {
    var J := (id, len) => Current(w.server, w.history, id, len);
    DroppedIsJudged(w, J);
    var w1 := DropUnconfirmed(w, GetSession(w));
    SwitchedIsJudged(w1, account, J);
    ResumeOnHistory(SwitchAccount(w1, account).(longest := |w.history|), account, healed, alive);
  }

  lemma SendingStepOnHistory(w: World, e: Event)
    requires Enabled(w, e) && Sends(e) && UpToDate(w)
    ensures OnHistory(Next(w, e))
  {
    match e
    case Enter(account, healed, alive) => EnterOnHistory(w, account, healed, alive);
    case ConnectOk =>
      SendOnHistory(w.(mem := Some(w.mem.value.(ws := true, status := Open, account := w.phase.account))),
                    Fresh, w.phase.account, w.phase.input, true);
    case NotFound(_) =>
      if w.phase.Probing? {
        SendOnHistory(DoInvalidate(w, Failed), Retry, w.phase.account, w.phase.req.full, false);
      }
  }

  lemma HistoryStep(w: World, e: Event)
    requires Enabled(w, e)
    ensures Next(w, e).history ==
            match e case Grow(items) => w.history + items case Reset(compacted) => compacted case Scrub(compacted) => compacted case _ => w.history
  {
  }

  // What an in-flight request makes the server hold is its full input.
  lemma RebuiltIsFull(w: World)
    requires Coherent(w) && OnHistory(w) && InFlight(w.phase).Some?
    ensures Rebuilt(w.server, InFlight(w.phase).value) == InFlight(w.phase).value.full
  {
    var req := InFlight(w.phase).value;
    assert PendingReq(w.phase) == Some(req);
    if req.prev.Some? {
      var base := w.server[req.prev.value];
      assert req.full == req.full[..|base|] + req.full[|base|..];
    }
  }

  lemma StepKeepsOnHistory(w: World, e: Event)
    requires Enabled(w, e) && UpToDate(w) && Safe(w, e)
    ensures OnHistory(Next(w, e))
  {
    ServerOnlyGrows(w, e);
    HistoryStep(w, e);
    if Sends(e) {
      SendingStepOnHistory(w, e);
    } else {
      RequestsPersist(w, e);
    }
  }

  lemma StepKeepsUpToDate(w: World, e: Event)
    requires Enabled(w, e) && UpToDate(w) && Safe(w, e)
    ensures UpToDate(Next(w, e))
  {
    var w' := Next(w, e);
    var J := (id, len) => Current(w.server, w.history, id, len);
    var K := (id, len) => Current(w'.server, w'.history, id, len);
    StepKeepsCoherence(w, e);
    StepKeepsOnHistory(w, e);
    ServerOnlyGrows(w, e);
    HistoryStep(w, e);
    DiskStep(w, e);
    if Committed(w, e).Some? {
      RebuiltIsFull(w);
      assert PendingInput(w.phase) == Some(InFlight(w.phase).value.full);
    }
    assert ClearsPairs(w, e) || Weaker(J, K);
    PairsAreCopied(w, e, J, K);
  }

  /** In every safe run each completed response was built from the full local input. */
  lemma {:induction false} ChainRefinement(w: World, evs: seq<Event>)
    requires Legal(w, evs) && UpToDate(w) && SafeRun(w, evs)
    ensures Refined(w, evs) && UpToDate(Run(w, evs))
    decreases |evs|
  {
    if evs != [] {
      if evs[0].Completed? {
        RebuiltIsFull(w);
      }
      StepKeepsUpToDate(w, evs[0]);
      ChainRefinement(Next(w, evs[0]), evs[1..]);
    }
  }

  // ---- no phantom reset ----

  /** Each request is longer than every request since the last compaction; the first may be empty. */
  predicate GrowingRun(w: World, evs: seq<Event>)
    requires Legal(w, evs)
    decreases |evs|
  {
    evs == [] ||
    (&& (evs[0].Enter? ==> |w.history| > w.longest)
     && GrowingRun(Next(w, evs[0]), evs[1..]))
  }

  /** The session with whose pair the step makes a chained request, if it makes one. */
  function SendsOn(w: World, e: Event): Option<Session>
    requires Enabled(w, e)
  {
    match e
    case Enter(account, healed, alive) =>
      var s := SwitchAccount(DropUnconfirmed(w, GetSession(w)), account).mem.value;
      if (s.disabled ==> healed) && s.ws && s.status == Open && alive then Some(s) else None
    case ConnectOk => w.mem
    case _ => None
  }

  /** The pair it is chained to has length 0, which the gate takes for no length. */
  predicate SendsOnEmptyPair(w: World, e: Event)
    requires Enabled(w, e)
  {
    SendsOn(w, e).Some? && Truthy(SendsOn(w, e).value.id) && SendsOn(w, e).value.len == Some(0)
  }

  /** How often that happens in a run. */
  function EmptyPairSends(w: World, evs: seq<Event>): nat
    requires Legal(w, evs)
    decreases |evs|
  {
    if evs == [] then 0
    else (if SendsOnEmptyPair(w, evs[0]) then 1 else 0) + EmptyPairSends(Next(w, evs[0]), evs[1..])
  }

  function Cap(w: World): int {
    if PendingInput(w.phase).Some? then w.longest - 1 else w.longest
  }

  ghost predicate Gauged(w: World) {
    var J := (id, len) => Within(Cap(w), id, len);
    && Judged(w, J)
    && (!w.staleDisk ==> StoreJudged(w.disk, w.sid, J))
    && (PendingInput(w.phase).Some? ==> |PendingInput(w.phase).value| == w.longest)
  }

  /** With a pair shorter than the input, the gate resets just for length 0. */
  lemma SendGauged(w: World, via: Via, account: Option<string>, input: seq<Item>, chained: bool)
    requires w.mem.Some? && Within(|input| - 1, w.mem.value.id, w.mem.value.len)
    ensures var v := Send(w, via, account, input, chained);
            && v.resets == w.resets + (if chained && Truthy(w.mem.value.id) && w.mem.value.len == Some(0) then 1 else 0)
            && v.phase.Probing? && v.phase.req.full == input
  {
  }

  lemma EnterGauged(w: World, e: Event)
    requires Enabled(w, e) && e.Enter? && Gauged(w) && |w.history| > w.longest
    ensures var v := Next(w, e);
            && v.resets == w.resets + (if SendsOnEmptyPair(w, e) then 1 else 0)
            && v.longest == |w.history|
            && (PendingInput(v.phase).Some? ==> PendingInput(v.phase).value == w.history)
  {
    var J := (id, len) => Within(w.longest, id, len);
    DroppedIsJudged(w, J);
    var w1 := DropUnconfirmed(w, GetSession(w));
    SwitchedIsJudged(w1, e.account, J);
    var w2 := SwitchAccount(w1, e.account).(longest := |w.history|);
    assert SendsOn(w, e) == ResumesOn(w2.mem.value, e.healed, e.alive);
    ResumeGauged(w2, e.account, e.healed, e.alive);
  }

  function ResumesOn(s: Session, healed: bool, alive: bool): Option<Session> {
    if (s.disabled ==> healed) && s.ws && s.status == Open && alive then Some(s) else None
  }

  lemma ResumeGauged(w: World, account: Option<string>, healed: bool, alive: bool)
    requires w.mem.Some? && w.phase.Quiet? && Within(|w.history| - 1, w.mem.value.id, w.mem.value.len)
    ensures var v := Resume(w, account, healed, alive);
            var s := ResumesOn(w.mem.value, healed, alive);
            && v.resets == w.resets + (if s.Some? && Truthy(s.value.id) && s.value.len == Some(0) then 1 else 0)
            && (PendingInput(v.phase).Some? ==> PendingInput(v.phase).value == w.history)
  {
    var w1 := w.(mem := Some(w.mem.value.(disabled := false)));
    if ResumesOn(w.mem.value, healed, alive).Some? {
      assert Resume(w, account, healed, alive) == Send(w1, Reuse, account, w.history, true);
      SendGauged(w1, Reuse, account, w.history, true);
    } else {
      ResumeWithoutSend(w, account, healed, alive);
    }
  }

  lemma ResumeWithoutSend(w: World, account: Option<string>, healed: bool, alive: bool)
    requires w.mem.Some? && w.phase.Quiet? && ResumesOn(w.mem.value, healed, alive).None?
    ensures var v := Resume(w, account, healed, alive);
            v.resets == w.resets && (PendingInput(v.phase).Some? ==> PendingInput(v.phase).value == w.history)
  {
  }

  lemma ResendGauged(w: World, e: Event)
    requires Enabled(w, e) && (e.ConnectOk? || e.NotFound?) && Gauged(w)
    ensures var v := Next(w, e);
            && v.resets == w.resets + (if SendsOnEmptyPair(w, e) then 1 else 0)
            && v.longest == w.longest
            && (PendingInput(v.phase).Some? ==> PendingInput(v.phase) == PendingInput(w.phase))
  {
    if e.ConnectOk? {
      SendGauged(w.(mem := Some(w.mem.value.(ws := true, status := Open, account := w.phase.account))),
                 Fresh, w.phase.account, w.phase.input, true);
    } else if w.phase.Probing? {
      SendGauged(DoInvalidate(w, Failed), Retry, w.phase.account, w.phase.req.full, false);
    }
  }

  // The counters move only when a turn is entered or the history is compacted.
  lemma CountersPersist(w: World, e: Event)
    requires Enabled(w, e) && !Sends(e)
    ensures Next(w, e).resets == w.resets
    ensures Next(w, e).longest == if e.Reset? || e.Scrub? then -1 else w.longest
  {
  }

  lemma StepCounters(w: World, e: Event)
    requires Enabled(w, e) && Gauged(w) && (e.Enter? ==> |w.history| > w.longest)
    ensures var v := Next(w, e);
            && v.resets == w.resets + (if SendsOnEmptyPair(w, e) then 1 else 0)
            && v.longest == (if e.Enter? then |w.history| else if e.Reset? || e.Scrub? then -1 else w.longest)
            && (PendingInput(v.phase).Some? ==> PendingInput(v.phase) == if e.Enter? then Some(w.history) else PendingInput(w.phase))
  {
    if e.Enter? {
      EnterGauged(w, e);
    } else if Sends(e) {
      ResendGauged(w, e);
    } else {
      CountersPersist(w, e);
      RequestsPersist(w, e);
    }
  }

  lemma StepKeepsGauge(w: World, e: Event)
    requires Enabled(w, e) && Gauged(w) && Safe(w, e)
    requires e.Enter? ==> |w.history| > w.longest
    ensures Gauged(Next(w, e))
    ensures Next(w, e).resets == w.resets + (if SendsOnEmptyPair(w, e) then 1 else 0)
  {
    var w' := Next(w, e);
    var J := (id, len) => Within(Cap(w), id, len);
    var K := (id, len) => Within(Cap(w'), id, len);
    StepCounters(w, e);
    DiskStep(w, e);
    ServerOnlyGrows(w, e);
    if Committed(w, e).Some? {
      assert PendingInput(w.phase) == Some(InFlight(w.phase).value.full);
    }
    PendingEnds(w, e);
    assert ClearsPairs(w, e) || Weaker(J, K);
    PairsAreCopied(w, e, J, K);
  }

  // A safe compaction is not survived by a request.
  lemma PendingEnds(w: World, e: Event)
    requires Enabled(w, e) && Safe(w, e)
    ensures e.Reset? || e.Scrub? ==> PendingInput(Next(w, e).phase).None?
  {
  }

  /**
   * In a safe run of growing requests the length gate resets the chain exactly as often as a
   * turn is chained to a pair of length 0, whatever turns failed in between.
   */
  lemma {:induction false} ResetsAreEmptyPairs(w: World, evs: seq<Event>)
    requires Legal(w, evs) && Gauged(w) && SafeRun(w, evs) && GrowingRun(w, evs)
    ensures Gauged(Run(w, evs)) && Run(w, evs).resets == w.resets + EmptyPairSends(w, evs)
    decreases |evs|
  {
    if evs != [] {
      StepKeepsGauge(w, evs[0]);
      ResetsAreEmptyPairs(Next(w, evs[0]), evs[1..]);
    }
  }

  // ---- where pairs of length 0 come from ----

  predicate IsPositive(id: Option<string>, len: Option<nat>) {
    len.Some? ==> len.value > 0
  }

  predicate NonEmptyRun(w: World, evs: seq<Event>)
    requires Legal(w, evs)
    decreases |evs|
  {
    evs == [] || ((evs[0].Enter? ==> w.history != []) && NonEmptyRun(Next(w, evs[0]), evs[1..]))
  }

  ghost predicate AllPositive(w: World) {
    && Judged(w, IsPositive) && StoreJudged(w.disk, w.sid, IsPositive)
    && (PendingInput(w.phase).Some? ==> PendingInput(w.phase).value != [])
  }

  // The pair a turn is chained to is one of those kept.
  lemma SendsOnJudged(w: World, e: Event, J: Judgement)
    requires Enabled(w, e) && Judged(w, J) && SendsOn(w, e).Some?
    ensures J(SendsOn(w, e).value.id, SendsOn(w, e).value.len)
  {
    if e.Enter? {
      DroppedIsJudged(w, J);
      SwitchedIsJudged(DropUnconfirmed(w, GetSession(w)), e.account, J);
    }
  }

  lemma EnterInput(w: World, account: Option<string>, healed: bool, alive: bool)
    requires w.phase.Quiet?
    ensures var p := EnterTurn(w, account, healed, alive).phase; PendingInput(p).Some? ==> PendingInput(p).value == w.history
  {
    var w1 := SwitchAccount(DropUnconfirmed(w, GetSession(w)), account).(longest := |w.history|);
    SendInput(w1.(mem := Some(w1.mem.value.(disabled := false))), Reuse, account, w.history, true);
  }

  lemma SendInput(w: World, via: Via, account: Option<string>, input: seq<Item>, chained: bool)
    requires w.mem.Some?
    ensures var p := Send(w, via, account, input, chained).phase; p.Probing? && p.req.full == input
  {
  }

  lemma SendingInput(w: World, e: Event)
    requires Enabled(w, e) && Sends(e)
    ensures var p := Next(w, e).phase;
            PendingInput(p).Some? ==> PendingInput(p).value == if e.Enter? then w.history else PendingInput(w.phase).value
  {
    match e
    case Enter(account, healed, alive) => EnterInput(w, account, healed, alive);
    case ConnectOk =>
      SendInput(w.(mem := Some(w.mem.value.(ws := true, status := Open, account := w.phase.account))),
                Fresh, w.phase.account, w.phase.input, true);
    case NotFound(_) =>
      if w.phase.Probing? {
        SendInput(DoInvalidate(w, Failed), Retry, w.phase.account, w.phase.req.full, false);
      }
  }

  lemma StepKeepsPositive(w: World, e: Event)
    requires Enabled(w, e) && AllPositive(w) && (e.Enter? ==> w.history != [])
    ensures AllPositive(Next(w, e)) && !SendsOnEmptyPair(w, e)
  {
    if Sends(e) {
      SendingInput(w, e);
    } else {
      RequestsPersist(w, e);
    }
    if SendsOn(w, e).Some? {
      SendsOnJudged(w, e, IsPositive);
    }
    if Committed(w, e).Some? {
      assert PendingInput(w.phase) == Some(InFlight(w.phase).value.full);
    }
    ServerOnlyGrows(w, e);
    DiskStep(w, e);
    PairsAreCopied(w, e, IsPositive, IsPositive);
  }

  lemma {:induction false} NonEmptyMeansPositive(w: World, evs: seq<Event>)
    requires Legal(w, evs) && AllPositive(w) && NonEmptyRun(w, evs)
    ensures EmptyPairSends(w, evs) == 0
    decreases |evs|
  {
    if evs != [] {
      StepKeepsPositive(w, evs[0]);
      NonEmptyMeansPositive(Next(w, evs[0]), evs[1..]);
    }
  }

  /** Growing requests never trip the length gate when none of them is empty. */
  lemma NoPhantomReset(w: World, evs: seq<Event>)
    requires Legal(w, evs) && Gauged(w) && SafeRun(w, evs) && GrowingRun(w, evs)
    requires AllPositive(w) && NonEmptyRun(w, evs)
    ensures Run(w, evs).resets == w.resets
  {
    ResetsAreEmptyPairs(w, evs);
    NonEmptyMeansPositive(w, evs);
  }

  /** The results for a session that starts with nothing. */
  lemma ChainFromStart(sid: string, evs: seq<Event>)
    requires Legal(Init(sid), evs)
    ensures Coherent(Run(Init(sid), evs))
    ensures SafeRun(Init(sid), evs) ==> Refined(Init(sid), evs)
    ensures SafeRun(Init(sid), evs) && GrowingRun(Init(sid), evs) ==>
              && Run(Init(sid), evs).resets == EmptyPairSends(Init(sid), evs)
              && (NonEmptyRun(Init(sid), evs) ==> Run(Init(sid), evs).resets == 0)
  {
    PairCoherence(Init(sid), evs);
    if SafeRun(Init(sid), evs) {
      ChainRefinement(Init(sid), evs);
      if GrowingRun(Init(sid), evs) {
        ResetsAreEmptyPairs(Init(sid), evs);
        if NonEmptyRun(Init(sid), evs) {
          NonEmptyMeansPositive(Init(sid), evs);
        }
      }
    }
  }

  // ---- several sessions over one store ----

  lemma WritesStayInFamily(store: Store, sid: string, key: string, r: Rec)
    requires InFamily(key, sid)
    ensures SameOutsideFamily(store, store[key := r], sid)
    ensures SameOutsideFamily(store, InvalidateFamily(store, sid), sid)
    ensures SameOutsideFamily(store, Invalidate(store, key), sid)
    ensures SameOutsideFamily(store, store, sid)
  {
  }

  lemma SameTwice(s: Store, t: Store, u: Store, sid: string)
    requires SameOutsideFamily(s, t, sid) && SameOutsideFamily(t, u, sid)
    ensures SameOutsideFamily(s, u, sid)
  {
  }

  // A send, or the resumption of a turn, writes the store only to clear the family.
  lemma SendCache(w: World, via: Via, account: Option<string>, input: seq<Item>, chained: bool)
    requires w.mem.Some?
    ensures var c := Send(w, via, account, input, chained).cache; c == w.cache || c == InvalidateFamily(w.cache, w.sid)
  {
  }

  lemma EnterStaysInFamily(w: World, account: Option<string>, healed: bool, alive: bool)
    ensures SameOutsideFamily(w.cache, EnterTurn(w, account, healed, alive).cache, w.sid)
  {
    var w1 := DropUnconfirmed(w, GetSession(w));
    WritesStayInFamily(w.cache, w.sid, w.sid, EMPTY);
    SwitchStaysInFamily(w1, account);
    var w2 := SwitchAccount(w1, account).(longest := |w.history|);
    ResumeStaysInFamily(w2, account, healed, alive);
    SameTwice(w.cache, w1.cache, w2.cache, w.sid);
    SameTwice(w.cache, w2.cache, Resume(w2, account, healed, alive).cache, w.sid);
  }

  lemma SwitchStaysInFamily(w: World, account: Option<string>)
    requires w.mem.Some?
    ensures SameOutsideFamily(w.cache, SwitchAccount(w, account).cache, w.sid)
  {
    var s := w.mem.value;
    if s.account.Some? {
      WritesStayInFamily(w.cache, w.sid, ShardKey(w.sid, s.account.value), Rec(s.id, s.len, s.account));
    }
  }

  lemma ResumeStaysInFamily(w: World, account: Option<string>, healed: bool, alive: bool)
    requires w.mem.Some?
    ensures SameOutsideFamily(w.cache, Resume(w, account, healed, alive).cache, w.sid)
  {
    SendCache(w.(mem := Some(w.mem.value.(disabled := false))), Reuse, account, w.history, true);
    WritesStayInFamily(w.cache, w.sid, w.sid, EMPTY);
  }

  lemma ResendStaysInFamily(w: World, e: Event)
    requires Enabled(w, e) && (e.ConnectOk? || e.NotFound?)
    ensures SameOutsideFamily(w.cache, Next(w, e).cache, w.sid)
  {
    WritesStayInFamily(w.cache, w.sid, w.sid, EMPTY);
    if e.ConnectOk? {
      SendCache(w.(mem := Some(w.mem.value.(ws := true, status := Open, account := w.phase.account))),
                Fresh, w.phase.account, w.phase.input, true);
    } else {
      assert Next(w, e).cache == InvalidateFamily(w.cache, w.sid);
    }
  }

  // The failures after which the client forgets every pair of the session.
  predicate Invalidates(w: World, e: Event) {
    || e.Incomplete? || e.ResponseFailed? || e.ErrorFrame? || e.WsError? || e.IdleTimeout? || e.LateIdleTimer?
    || (e.WsClose? && w.mem.Some? && w.mem.value.status == Streaming)
  }

  lemma EndingKeepsPair(w: World)
    requires w.mem.Some?
    ensures var v := StreamEnded(w); v.mem.value.id == w.mem.value.id && v.mem.value.len == w.mem.value.len && v.cache == w.cache
    ensures w.phase.Probing? ==>
              var v := AfterFailedProbe(w, w.phase.via, w.phase.account, w.phase.req.full);
              v.mem.value.id == w.mem.value.id && v.mem.value.len == w.mem.value.len && v.cache == w.cache
  {
  }

  ghost predicate PairsCleared(w: World, v: World) {
    v.mem.Some? && v.mem.value.id.None? && v.mem.value.len.None? && v.sid == w.sid && v.cache == InvalidateFamily(w.cache, w.sid)
  }

  lemma ClosingClears(w: World, e: Event)
    requires Invalidates(w, e) && Enabled(w, e) && (e.WsError? || e.WsClose? || e.IdleTimeout?)
    ensures PairsCleared(w, Next(w, e))
  {
    EndingKeepsPair(DoInvalidate(w, Open));
    assert Next(w, e) == StreamEnded(DoInvalidate(w, Open));
  }

  /** A failed turn leaves no pair in memory or in any record of the family. */
  lemma FailureClears(w: World, e: Event)
    requires Invalidates(w, e)
    requires Enabled(w, e)
    ensures PairsCleared(w, Next(w, e))
  {
    if e.WsError? || e.WsClose? || e.IdleTimeout? {
      ClosingClears(w, e);
    } else {
      EndingKeepsPair(DoInvalidate(w, Failed));
    }
  }

  // The remaining steps write at most the base record, or compact.
  predicate WritesAtMostBase(w: World, c: Store) {
    || c == w.cache || c == InvalidateFamily(w.cache, w.sid) || c == Invalidate(w.cache, w.sid)
    || (w.sid in c && c == w.cache[w.sid := c[w.sid]])
  }

  lemma CompletionCache(w: World, e: Event)
    requires Enabled(w, e) && (e.Completed? || e.Reset? || e.Scrub?)
    ensures WritesAtMostBase(w, Next(w, e).cache)
  {
  }

  lemma TimeoutCache(w: World, e: Event)
    requires Enabled(w, e) && (e.SendTimeout? || e.ProbeTimeout?)
    ensures WritesAtMostBase(w, Next(w, e).cache)
  {
  }

  lemma StepCache(w: World, e: Event)
    requires Enabled(w, e) && !Sends(e) && !Invalidates(w, e) && !e.OtherSessions? && !e.Restart?
    ensures WritesAtMostBase(w, Next(w, e).cache)
  {
    match e
    case Completed(_) => CompletionCache(w, e);
    case Reset(_) => CompletionCache(w, e);
    case Scrub(_) => CompletionCache(w, e);
    case SendTimeout => TimeoutCache(w, e);
    case ProbeTimeout => TimeoutCache(w, e);
    case _ =>
  }

  lemma StepStaysInFamily(w: World, e: Event)
    requires Enabled(w, e) && !e.OtherSessions? && !e.Restart?
    ensures SameOutsideFamily(w.cache, Next(w, e).cache, w.sid)
  {
    if e.Enter? {
      EnterStaysInFamily(w, e.account, e.healed, e.alive);
    } else if Sends(e) {
      ResendStaysInFamily(w, e);
    } else {
      if Invalidates(w, e) { FailureClears(w, e); } else { StepCache(w, e); }
      WritesStayInFamily(w.cache, w.sid, w.sid, Get(Next(w, e).cache, w.sid));
    }
  }

  /** To a session whose id is unrelated, any step of another session is an environment step. */
  lemma StepsOfOthers(w: World, e: Event, v: World) returns (writes: Store)
    requires Enabled(w, e) && !e.OtherSessions? && !e.Restart? && v.cache == w.cache
    requires w.sid != v.sid && !(w.sid + ":" <= v.sid) && !(v.sid + ":" <= w.sid)
    ensures Enabled(v, OtherSessions(writes))
    ensures Next(v, OtherSessions(writes)).cache == Next(w, e).cache
  {
    var after := Next(w, e).cache;
    StepStaysInFamily(w, e);
    writes := OutsideWrites(w.cache, after, w.sid, v.sid);
    assert Next(v, OtherSessions(writes)).cache == v.cache + writes;
  }

  lemma OutsideWrites(before: Store, after: Store, sid: string, other: string) returns (writes: Store)
    requires SameOutsideFamily(before, after, sid)
    requires sid != other && !(sid + ":" <= other) && !(other + ":" <= sid)
    requires before.Keys <= after.Keys
    ensures (forall k :: k in writes ==> !InFamily(k, other)) && before + writes == after
  {
    writes := map k | k in after && !InFamily(k, other) :: after[k];
    forall k | InFamily(k, other)
      ensures !InFamily(k, sid)
    {
      if InFamily(k, sid) {
        FamiliesOverlap(sid, other, k);
      }
    }
    assert forall k :: InFamily(k, other) ==> Get(before, k) == Get(after, k) && (k in before <==> k in after);
    assert before + writes == after;
  }
}
