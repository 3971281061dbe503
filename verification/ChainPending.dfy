/**
 * The exact condition of ChainExact.dfy for a world with a call pending: one that waits for
 * its connection, one in flight, and one whose socket was closed under it.
 */
module ChainPending {
  import opened Util
  import opened Continuation
  import opened Chain
  import opened ChainProofs
  import opened ChainExact

  // ---- what a pending call implies ----

  /** A call is made for the session in memory, and a request sent leaves no pair of length 0. */
  predicate IsSent(w: World) {
    && (!w.phase.Quiet? ==> w.mem.Some?)
    && (PendingReq(w.phase).Some? ==> w.mem.value.len != Some(0))
    && (w.phase.Probing? ==> w.mem.value.account.None? || w.mem.value.account == w.phase.account)
  }

  // The gate leaves no pair of length 0.
  lemma GateLeaves(server: map<string, seq<Item>>, id: Option<string>, len: Option<nat>, input: nat, chained: bool)
    requires Held(server, id, len) && (chained || len.None?)
    ensures PlanDeltaTrim(chained && Truthy(id), input, len).ChainReset? || len != Some(0)
  {
  }

  lemma ResetForgets(w: World, via: Via, account: Option<string>, input: seq<Item>, chained: bool)
    requires w.mem.Some?
    ensures var m := Send(w, via, account, input, chained).mem.value;
            m.len == if PlanDeltaTrim(chained && Truthy(w.mem.value.id), |input|, w.mem.value.len).ChainReset? then None else w.mem.value.len
  {
  }

  // What is left in memory of the pair a request is sent on.
  lemma SentLength(w: World, via: Via, account: Option<string>, input: seq<Item>, chained: bool)
    requires w.mem.Some? && Held(w.server, w.mem.value.id, w.mem.value.len) && (chained || w.mem.value.len.None?)
    ensures Send(w, via, account, input, chained).mem.value.len != Some(0)
  {
    GateLeaves(w.server, w.mem.value.id, w.mem.value.len, |input|, chained);
    ResetForgets(w, via, account, input, chained);
  }

  lemma SendIsSent(w: World, via: Via, account: Option<string>, input: seq<Item>, chained: bool)
    requires w.mem.Some? && Held(w.server, w.mem.value.id, w.mem.value.len)
    requires w.mem.value.account.None? || w.mem.value.account == account
    requires chained || w.mem.value.len.None?
    ensures IsSent(Send(w, via, account, input, chained))
  {
    SendSource(w, via, account, input, chained);
    SentLength(w, via, account, input, chained);
  }

  lemma ResumeIsSent(w: World, account: Option<string>, healed: bool, alive: bool)
    requires w.mem.Some? && w.phase.Quiet? && Held(w.server, w.mem.value.id, w.mem.value.len)
    requires w.mem.value.account.None? || w.mem.value.account == account || !w.mem.value.ws
    ensures IsSent(Resume(w, account, healed, alive))
  {
    if w.mem.value.ws {
      SendIsSent(w.(mem := Some(w.mem.value.(disabled := false))), Reuse, account, w.history, true);
    }
  }

  lemma EnterIsSent(w: World, account: Option<string>, healed: bool, alive: bool)
    requires w.phase.Quiet? && Coherent(w)
    ensures IsSent(EnterTurn(w, account, healed, alive))
  {
    var J := (id, len) => Held(w.server, id, len);
    DroppedIsJudged(w, J);
    var w1 := DropUnconfirmed(w, GetSession(w));
    SwitchedIsJudged(w1, account, J);
    ResumeIsSent(SwitchAccount(w1, account).(longest := |w.history|), account, healed, alive);
  }

  lemma RetryIsSent(w: World)
    requires w.mem.Some? && w.phase.Probing? && IsSent(w)
    ensures IsSent(Send(DoInvalidate(w, Failed), Retry, w.phase.account, w.phase.req.full, false))
  {
    SendIsSent(DoInvalidate(w, Failed), Retry, w.phase.account, w.phase.req.full, false);
  }

  lemma NotFoundIsSent(w: World, e: Event)
    requires e.NotFound? && Enabled(w, e) && IsSent(w)
    ensures IsSent(Next(w, e))
  {
    if w.phase.Probing? {
      RetryIsSent(w);
    }
  }

  lemma SendingStepIsSent(w: World, e: Event)
    requires Enabled(w, e) && Sends(e) && Coherent(w) && IsSent(w)
    ensures IsSent(Next(w, e))
  {
    match e
    case Enter(account, healed, alive) => EnterIsSent(w, account, healed, alive);
    case ConnectOk =>
      SendIsSent(w.(mem := Some(w.mem.value.(ws := true, status := Open, account := w.phase.account))),
                 Fresh, w.phase.account, w.phase.input, true);
    case NotFound(_) => NotFoundIsSent(w, e);
  }

  predicate AccountKept(w: World, v: World) {
    w.mem.Some? && v.mem.Some? && v.mem.value.account == w.mem.value.account
  }

  lemma EndingKeepsAccount(w: World)
    requires w.mem.Some?
    ensures AccountKept(w, StreamEnded(w))
    ensures w.phase.Probing? ==> AccountKept(w, AfterFailedProbe(w, w.phase.via, w.phase.account, w.phase.req.full))
  {
  }

  lemma ClosingKeepsAccount(w: World, e: Event)
    requires Enabled(w, e) && Invalidates(w, e) && (e.WsError? || e.WsClose? || e.IdleTimeout?)
    ensures AccountKept(w, Next(w, e))
  {
    EndingKeepsAccount(DoInvalidate(w, Open));
    assert Next(w, e) == StreamEnded(DoInvalidate(w, Open));
  }

  lemma FailureKeepsAccount(w: World, e: Event)
    requires Enabled(w, e) && Invalidates(w, e)
    ensures AccountKept(w, Next(w, e))
  {
    if e.WsError? || e.WsClose? || e.IdleTimeout? {
      ClosingKeepsAccount(w, e);
    } else {
      EndingKeepsAccount(DoInvalidate(w, Failed));
    }
  }

  // A failed turn forgets the pair.
  lemma FailureIsSent(w: World, e: Event)
    requires Enabled(w, e) && Invalidates(w, e) && IsSent(w)
    ensures IsSent(Next(w, e))
  {
    assert !Sends(e);
    FailureClears(w, e);
    FailureKeepsAccount(w, e);
    RequestsPersist(w, e);
    ProbesPersist(w, e);
  }

  // A probe after the step was one before it, for the same account.
  lemma ProbesPersist(w: World, e: Event)
    requires Enabled(w, e) && Invalidates(w, e)
    ensures Next(w, e).phase.Probing? ==> w.phase.Probing? && Next(w, e).phase.account == w.phase.account
  {
  }

  lemma TimeoutIsSent(w: World, e: Event)
    requires Enabled(w, e) && IsSent(w) && (e.SendTimeout? || e.ProbeTimeout?)
    ensures IsSent(Next(w, e))
  {
  }

  // The pair is kept or forgotten, and a probe keeps its account.
  lemma OtherStepIsSent(w: World, e: Event)
    requires Enabled(w, e) && !Sends(e) && IsSent(w)
    ensures IsSent(Next(w, e))
  {
    if Invalidates(w, e) {
      FailureIsSent(w, e);
    } else if e.SendTimeout? || e.ProbeTimeout? {
      TimeoutIsSent(w, e);
    } else {
      QuietStepIsSent(w, e);
    }
  }

  lemma QuietStepIsSent(w: World, e: Event)
    requires Enabled(w, e) && !Sends(e) && IsSent(w) && !Invalidates(w, e) && !e.SendTimeout? && !e.ProbeTimeout?
    ensures IsSent(Next(w, e))
  {
  }

  lemma StepKeepsSent(w: World, e: Event)
    requires Enabled(w, e) && Coherent(w) && IsSent(w)
    ensures IsSent(Next(w, e))
  {
    if Sends(e) {
      SendingStepIsSent(w, e);
    } else {
      OtherStepIsSent(w, e);
    }
  }

  /** In every run from a fresh process a pending call is as sent. */
  lemma {:induction false} RunKeepsSent(w: World, evs: seq<Event>)
    requires Legal(w, evs) && Coherent(w) && IsSent(w)
    ensures IsSent(Run(w, evs))
    decreases |evs|
  {
    if evs != [] {
      StepKeepsSent(w, evs[0]);
      StepKeepsCoherence(w, evs[0]);
      RunKeepsSent(Next(w, evs[0]), evs[1..]);
    }
  }

  // ---- a call in flight ----

  predicate IsLive(p: Phase) {
    InFlight(p).Some?
  }

  lemma CompletedAlone(w: World, id: Option<string>)
    requires Enabled(w, Completed(id))
    requires Rebuilt(w.server, InFlight(w.phase).value) != InFlight(w.phase).value.full
    ensures Legal(w, [Completed(id)]) && !Refined(w, [Completed(id)])
  {
    assert Legal(Next(w, Completed(id)), []);
  }

  /** An id the server has not given. */
  lemma {:induction false} FreshId(server: map<string, seq<Item>>) returns (id: string)
    ensures id != "" && id !in server
    decreases |server|
  {
    var n := LongerThanAll(server.Keys);
    id := seq(n + 1, _ => 'r');
  }

  lemma {:induction false} LongerThanAll(keys: set<string>) returns (n: nat)
    ensures forall k :: k in keys ==> |k| <= n
    decreases |keys|
  {
    if keys == {} {
      n := 0;
    } else {
      var k :| k in keys;
      var m := LongerThanAll(keys - {k});
      n := if |k| > m then |k| else m;
    }
  }

  lemma LiveCanComplete(w: World, id: Option<string>)
    requires Coherent(w) && IsLive(w.phase) && w.mem.Some? && (Truthy(id) ==> id.value !in w.server)
    ensures Enabled(w, Completed(id))
  {
    assert PendingReq(w.phase) == InFlight(w.phase);
  }

  // A response whose previous items are not the start of the input.
  lemma WrongBaseIsUnrefined(w: World) returns (evs: seq<Event>)
    requires Coherent(w) && IsLive(w.phase) && w.mem.Some?
    requires InFlight(w.phase).value.prev.Some? && !(w.server[InFlight(w.phase).value.prev.value] <= InFlight(w.phase).value.full)
    ensures UncompactedRun(evs) && Legal(w, evs) && !Refined(w, evs)
  {
    var req := InFlight(w.phase).value;
    var base := w.server[req.prev.value];
    LiveCanComplete(w, None);
    assert PendingReq(w.phase) == Some(req);
    assert Rebuilt(w.server, req)[..|base|] == base;
    CompletedAlone(w, None);
    evs := [Completed(None)];
  }

  // The turn ends, and what it leaves is not ready.
  lemma EndsUnready(w: World, e: Event) returns (evs: seq<Event>)
    requires Coherent(w) && Enabled(w, e) && !IsCompaction(e) && Next(w, e).phase.Quiet? && !Ready(Next(w, e))
    ensures UncompactedRun(evs) && Legal(w, evs) && !Refined(w, evs)
  {
    StepKeepsCoherence(w, e);
    var tail := ReadyIsNeeded(Next(w, e));
    StepBefore(w, e, tail);
    evs := [e] + tail;
  }

  lemma OldInputIsUnrefined(w: World) returns (evs: seq<Event>)
    requires Coherent(w) && IsLive(w.phase) && w.mem.Some?
    requires Rebuilt(w.server, InFlight(w.phase).value) == InFlight(w.phase).value.full
    requires !(InFlight(w.phase).value.full <= w.history)
    ensures UncompactedRun(evs) && Legal(w, evs) && !Refined(w, evs)
  {
    var id := FreshId(w.server);
    LiveCanComplete(w, Some(id));
    var v := Next(w, Completed(Some(id)));
    assert v.mem.value.id == Some(id) && v.server[id] == InFlight(w.phase).value.full && v.history == w.history;
    evs := EndsUnready(w, Completed(Some(id)));
  }

  /** A completion without an id ends the turn and keeps every pair. */
  lemma QuietCompletion(w: World)
    requires Coherent(w) && IsLive(w.phase) && IsSent(w)
    ensures Enabled(w, Completed(None))
    ensures var v := Next(w, Completed(None));
            && v.phase.Quiet? && v.server == w.server && v.history == w.history && v.cache == w.cache && v.sid == w.sid
            && Sendable(v) && v.mem.value.id == w.mem.value.id && v.mem.value.len == w.mem.value.len
            && !ClearsFirst(v) && Unread(v) == Unread(w)
  {
    LiveCanComplete(w, None);
  }

  lemma UnreadyWhileLive(w: World) returns (evs: seq<Event>)
    requires Coherent(w) && IsLive(w.phase) && IsSent(w) && !Ready(w)
    ensures UncompactedRun(evs) && Legal(w, evs) && !Refined(w, evs)
  {
    QuietCompletion(w);
    evs := EndsUnready(w, Completed(None));
  }

  lemma LiveIsNeeded(w: World) returns (evs: seq<Event>)
    requires Coherent(w) && IsLive(w.phase) && IsSent(w) && !(OnHistory(w) && AllReady(w))
    ensures UncompactedRun(evs) && Legal(w, evs) && !Refined(w, evs)
  {
    var req := InFlight(w.phase).value;
    assert PendingReq(w.phase) == Some(req) && PendingInput(w.phase) == Some(req.full);
    if req.prev.Some? && !(w.server[req.prev.value] <= req.full) {
      evs := WrongBaseIsUnrefined(w);
    } else if !(req.full <= w.history) {
      BaseIsRebuilt(w, req);
      evs := OldInputIsUnrefined(w);
    } else if !Ready(w) {
      evs := UnreadyWhileLive(w);
    } else if !StoreReady(w, w.cache) {
      evs := StaleStore(w);
    } else {
      evs := StaleFile(w);
    }
  }

  lemma BaseIsRebuilt(w: World, req: Req)
    requires Coherent(w) && PendingReq(w.phase) == Some(req)
    requires req.prev.Some? ==> req.prev.value in w.server && w.server[req.prev.value] <= req.full
    ensures Rebuilt(w.server, req) == req.full
  {
    if req.prev.Some? {
      var base := w.server[req.prev.value];
      assert req.full == req.full[..|base|] + req.full[|base|..];
    }
  }

  // ---- a call that waits for its connection ----

  function OwnShard(sid: string, account: Option<string>): Option<string> {
    if account.None? then None else Some(ShardKey(sid, account.value))
  }

  /** The gate will drop the pair, and the whole family with it. */
  predicate SendClears(s: Session, input: seq<Item>) {
    PlanDeltaTrim(Truthy(s.id), |input|, s.len).ChainReset?
  }

  ghost predicate ShardsReady(w: World, unread: Option<string>) {
    ShardsJudged(w.cache, w.sid, unread, (id, len) => Current(w.server, w.history, id, len))
  }

  /**
   * Whether a turn waiting for its connection, with this account and input, can go on rightly:
   * connected, its slice must extend what the server holds, and the shards can be read but for
   * its own account's; not connected, the pair in memory can be sent later unless it is dropped
   * first, and the shards can be read but for that of the session's account.
   */
  ghost predicate ConnectReady(w: World, account: Option<string>, input: seq<Item>)
    requires w.mem.Some?
  {
    var s := w.mem.value;
    && input <= w.history
    && (Truthy(s.id) && s.id.value in w.server && !SendClears(s, input) ==> w.server[s.id.value] <= input)
    && (SendClears(s, input) || ShardsReady(w, OwnShard(w.sid, account)))
    && (!Droppable(s) ==> Current(w.server, w.history, s.id, s.len))
    && ((!Droppable(s) && s.account.None? && Truthy(s.id) && s.len == Some(0)) || ShardsReady(w, OwnShard(w.sid, s.account)))
  }

  ghost predicate StoresReady(w: World) {
    StoreReady(w, w.cache) && StoreReady(w, w.disk)
  }

  /** A turn that was ready when entered is ready to connect. */
  lemma ReadyToConnect(w: World)
    requires w.phase.Connecting? && ReadyRun(w) && w.mem.Some?
    ensures ConnectReady(w, w.phase.account, w.phase.input)
  {
    var s := w.mem.value;
    if Truthy(s.id) && s.id.value in w.server && !SendClears(s, w.phase.input) {
      assert Current(w.server, w.history, s.id, s.len);
      PrefixOfLonger(w.server[s.id.value], w.phase.input, w.history);
    }
  }

  function Connected(w: World, account: Option<string>): World
    requires w.mem.Some?
  {
    w.(mem := Some(w.mem.value.(ws := true, status := Open, account := account)))
  }

  lemma ConnectedIsReady(w: World)
    requires Coherent(w) && w.phase.Connecting? && w.mem.Some? && ConnectReady(w, w.phase.account, w.phase.input) && StoresReady(w)
    ensures ReadyRun(Next(w, ConnectOk))
  {
    var v := Next(w, ConnectOk);
    var w1 := Connected(w, w.phase.account);
    assert v == Send(w1, Fresh, w.phase.account, w.phase.input, true);
    StepKeepsCoherence(w, ConnectOk);
    SendSlices(w1, Fresh, w.phase.account, w.phase.input, true);
    SentIsReady(w1, w.phase.account, w.phase.input);
    ResendKeepsStore(w, ConnectOk, (id, len) => Current(w.server, w.history, id, len));
    DiskStep(w, ConnectOk);
  }

  lemma SentIsReady(w: World, account: Option<string>, input: seq<Item>)
    requires w.mem.Some? && w.mem.value.account == account && Held(w.server, w.mem.value.id, w.mem.value.len) && input <= w.history
    requires Truthy(w.mem.value.id) && !SendClears(w.mem.value, input) ==> w.server[w.mem.value.id.value] <= input
    requires SendClears(w.mem.value, input) || ShardsReady(w, OwnShard(w.sid, account))
    ensures var v := Send(w, Fresh, account, input, true); OnHistory(v) && Ready(v)
  {
    var J := (id, len) => Current(w.server, w.history, id, len);
    var v := Send(w, Fresh, account, input, true);
    SendSource(w, Fresh, account, input, true);
    if SendClears(w.mem.value, input) {
      InvalidatedIsUsable(w, Streaming, J);
      assert v.cache == DoInvalidate(w, Streaming).cache;
    }
    assert Unread(v) == OwnShard(w.sid, account);
  }

  lemma UnconnectedIsReady(w: World)
    requires Coherent(w) && w.phase.Connecting? && w.mem.Some? && ConnectReady(w, w.phase.account, w.phase.input) && StoresReady(w)
    ensures ReadyRun(Next(w, ConnectFail))
  {
    StepKeepsCoherence(w, ConnectFail);
    assert Unread(Next(w, ConnectFail)) == OwnShard(w.sid, w.mem.value.account);
  }

  // ---- a call whose socket was closed under it ----

  predicate IsSilenced(p: Phase) {
    p.Probing? && !p.live
  }

  /** Its pair is dropped; a reused socket's call is made again, another one is given up. */
  ghost predicate SilentReady(w: World)
    requires IsSilenced(w.phase) && w.mem.Some?
  {
    && ShardsReady(w, OwnShard(w.sid, w.mem.value.account))
    && (w.phase.via == Reuse ==> w.phase.req.full <= w.history && ShardsReady(w, OwnShard(w.sid, w.phase.account)))
  }

  // ---- the condition for every phase ----

  ghost predicate PendingReady(w: World)
    requires IsSent(w)
  {
    && StoresReady(w)
    && match w.phase
       case Quiet => Ready(w)
       case Connecting(account, input) => ConnectReady(w, account, input)
       case Forwarding(_) => OnHistory(w) && Ready(w)
       case Probing(_, _, _, live) => if live then OnHistory(w) && Ready(w) else SilentReady(w)
  }

  // ---- enough ----

  // Steps after which the same call is still pending, with the same pairs or none.
  predicate Idles(e: Event) {
    e.Grow? || e.Close? || e.Flush? || e.OtherSessions? || e.LateIdleTimer?
  }

  lemma ShardsStayReady(w: World, e: Event, unread: Option<string>)
    requires Enabled(w, e) && Idles(e) && ShardsReady(w, unread)
    ensures ShardsReady(Next(w, e), unread)
  {
    var v := Next(w, e);
    HistoryStep(w, e);
    ServerOnlyGrows(w, e);
    assert forall id, len :: Current(w.server, w.history, id, len) ==> Current(v.server, v.history, id, len);
  }

  lemma StoresStayReady(w: World, e: Event)
    requires Enabled(w, e) && Idles(e) && StoresReady(w)
    ensures StoresReady(Next(w, e))
  {
    var v := Next(w, e);
    HistoryStep(w, e);
    ServerOnlyGrows(w, e);
    DiskStep(w, e);
    var K := (id, len) => Current(v.server, v.history, id, len);
    assert forall id, len :: Current(w.server, w.history, id, len) ==> K(id, len);
    assert StoreUsable(w.cache, w.sid, K) && StoreUsable(w.disk, w.sid, K);
    if e.OtherSessions? {
      OthersKeepStore(w, e, K);
    } else {
      RestKeepsStore(w, e, K);
    }
  }

  lemma IdleKeepsCall(w: World, e: Event)
    requires Enabled(w, e) && Idles(e) && w.mem.Some? && (w.phase.Connecting? || IsSilenced(w.phase))
    ensures var v := Next(w, e);
            && v.phase == w.phase && v.mem.Some? && v.sid == w.sid && v.server == w.server && w.history <= v.history
            && v.mem.value.account == w.mem.value.account
            && v.mem.value.fromDisk == w.mem.value.fromDisk && v.mem.value.validated == w.mem.value.validated
            && ((v.mem.value.id == w.mem.value.id && v.mem.value.len == w.mem.value.len) || (v.mem.value.id.None? && v.mem.value.len.None?))
            && (e.LateIdleTimer? ==> v.cache == InvalidateFamily(w.cache, w.sid) && v.mem.value.id.None? && v.mem.value.len.None?)
            && (!e.LateIdleTimer? ==> v.mem.value.id == w.mem.value.id && v.mem.value.len == w.mem.value.len)
  {
  }

  lemma ClearedShardsReady(w: World, before: Store, unread: Option<string>)
    requires w.cache == InvalidateFamily(before, w.sid)
    ensures ShardsReady(w, unread)
  {
  }

  lemma IdleKeepsConnectReady(w: World, e: Event)
    requires Enabled(w, e) && Idles(e) && w.phase.Connecting? && w.mem.Some? && ConnectReady(w, w.phase.account, w.phase.input)
    ensures w.phase == Next(w, e).phase && Next(w, e).mem.Some? && ConnectReady(Next(w, e), w.phase.account, w.phase.input)
  {
    var v := Next(w, e);
    IdleKeepsCall(w, e);
    if e.LateIdleTimer? {
      ClearedShardsReady(v, w.cache, OwnShard(w.sid, w.phase.account));
      ClearedShardsReady(v, w.cache, OwnShard(w.sid, w.mem.value.account));
    } else {
      if ShardsReady(w, OwnShard(w.sid, w.phase.account)) {
        ShardsStayReady(w, e, OwnShard(w.sid, w.phase.account));
      }
      if ShardsReady(w, OwnShard(w.sid, w.mem.value.account)) {
        ShardsStayReady(w, e, OwnShard(w.sid, w.mem.value.account));
      }
    }
  }

  lemma IdleKeepsSilentReady(w: World, e: Event)
    requires Enabled(w, e) && Idles(e) && IsSilenced(w.phase) && w.mem.Some? && SilentReady(w)
    ensures w.phase == Next(w, e).phase && Next(w, e).mem.Some? && SilentReady(Next(w, e))
  {
    IdleKeepsCall(w, e);
    ShardsStayReady(w, e, OwnShard(w.sid, w.mem.value.account));
    if w.phase.via == Reuse {
      ShardsStayReady(w, e, OwnShard(w.sid, w.phase.account));
    }
  }

  // A silenced call ends: its pair is dropped with or without the family.
  lemma SilenceEnds(w: World, e: Event)
    requires Coherent(w) && Enabled(w, e) && IsSent(w) && IsSilenced(w.phase) && (e.ProbeTimeout? || e.IdleTimeout?)
    ensures var v := Next(w, e);
            && v.mem.Some? && v.mem.value.id.None? && v.mem.value.len.None? && v.mem.value.account == w.mem.value.account
            && v.sid == w.sid && v.server == w.server && v.history == w.history
            && v.phase == (if w.phase.via == Reuse then Connecting(w.phase.account, w.phase.req.full) else Quiet)
            && (v.cache == InvalidateFamily(w.cache, w.sid) || v.cache == Invalidate(w.cache, w.sid))
  {
  }

  lemma ShardsOfInvalidated(w: World, v: World, unread: Option<string>)
    requires v.sid == w.sid && v.server == w.server && v.history == w.history && v.cache == Invalidate(w.cache, w.sid)
    ensures ShardsReady(v, unread) <==> ShardsReady(w, unread)
  {
  }

  lemma ShardsAfterSilence(w: World, v: World, unread: Option<string>)
    requires v.sid == w.sid && v.server == w.server && v.history == w.history && ShardsReady(w, unread)
    requires v.cache == InvalidateFamily(w.cache, w.sid) || v.cache == Invalidate(w.cache, w.sid)
    ensures ShardsReady(v, unread)
  {
    if v.cache == InvalidateFamily(w.cache, w.sid) {
      ClearedShardsReady(v, w.cache, unread);
    } else {
      ShardsOfInvalidated(w, v, unread);
    }
  }

  lemma SilenceEndsReady(w: World, e: Event)
    requires Coherent(w) && Enabled(w, e) && IsSent(w) && IsSilenced(w.phase) && (e.ProbeTimeout? || e.IdleTimeout?)
    requires SilentReady(w)
    ensures var v := Next(w, e);
            if w.phase.via == Reuse then v.phase.Connecting? && v.mem.Some? && ConnectReady(v, v.phase.account, v.phase.input)
            else v.phase.Quiet? && Ready(v)
  {
    var v := Next(w, e);
    SilenceEnds(w, e);
    ShardsAfterSilence(w, v, OwnShard(w.sid, w.mem.value.account));
    if w.phase.via == Reuse {
      ShardsAfterSilence(w, v, OwnShard(w.sid, w.phase.account));
    }
  }

  lemma SilenceKeepsStores(w: World, e: Event)
    requires Enabled(w, e) && (e.ProbeTimeout? || e.IdleTimeout?) && StoresReady(w)
    ensures StoresReady(Next(w, e))
  {
    HistoryStep(w, e);
    ServerOnlyGrows(w, e);
    DiskStep(w, e);
    RestKeepsStore(w, e, (id, len) => Current(w.server, w.history, id, len));
  }

  lemma RestartedIsReadyRun(w: World, e: Event)
    requires Coherent(w) && Enabled(w, e) && e.Restart? && StoresReady(w)
    ensures ReadyRun(Next(w, e))
  {
    StepKeepsCoherence(w, e);
  }

  // ---- one step ----

  lemma ReadyRunIsPendingReady(w: World)
    requires ReadyRun(w) && IsSent(w) && !IsSilenced(w.phase)
    ensures PendingReady(w)
  {
    if w.phase.Connecting? {
      ReadyToConnect(w);
    }
  }

  lemma ReadyRunWhileSilenced(w: World)
    requires ReadyRun(w) && IsSent(w) && IsSilenced(w.phase)
    ensures PendingReady(w)
  {
    assert PendingReq(w.phase) == Some(w.phase.req) && PendingInput(w.phase) == Some(w.phase.req.full);
  }

  lemma ConnectingStep(w: World, e: Event)
    requires Coherent(w) && IsSent(w) && w.phase.Connecting? && PendingReady(w) && Enabled(w, e) && !IsCompaction(e)
    ensures IsSent(Next(w, e)) && PendingReady(Next(w, e))
  {
    StepKeepsSent(w, e);
    if Idles(e) {
      IdleKeepsConnectReady(w, e);
      StoresStayReady(w, e);
    } else {
      ConnectingEnds(w, e);
      if IsSilenced(Next(w, e).phase) { ReadyRunWhileSilenced(Next(w, e)); } else { ReadyRunIsPendingReady(Next(w, e)); }
    }
  }

  lemma ConnectingEnds(w: World, e: Event)
    requires Coherent(w) && IsSent(w) && w.phase.Connecting? && PendingReady(w) && Enabled(w, e) && !IsCompaction(e) && !Idles(e)
    ensures ReadyRun(Next(w, e))
  {
    if e.ConnectOk? {
      ConnectedIsReady(w);
    } else if e.ConnectFail? {
      UnconnectedIsReady(w);
    } else {
      RestartedIsReadyRun(w, e);
    }
  }

  lemma SilencedStep(w: World, e: Event)
    requires Coherent(w) && IsSent(w) && IsSilenced(w.phase) && PendingReady(w) && Enabled(w, e) && !IsCompaction(e)
    ensures IsSent(Next(w, e)) && PendingReady(Next(w, e))
  {
    StepKeepsSent(w, e);
    if Idles(e) {
      IdleKeepsSilentReady(w, e);
      StoresStayReady(w, e);
    } else if e.ProbeTimeout? || e.IdleTimeout? {
      SilenceEndsReady(w, e);
      SilenceKeepsStores(w, e);
    } else {
      assert e.Restart?;
      RestartedIsReadyRun(w, e);
      ReadyRunIsPendingReady(Next(w, e));
    }
  }

  lemma LiveStep(w: World, e: Event)
    requires Coherent(w) && IsSent(w) && (w.phase.Quiet? || IsLive(w.phase)) && PendingReady(w) && Enabled(w, e) && !IsCompaction(e)
    ensures IsSent(Next(w, e)) && PendingReady(Next(w, e))
  {
    StepKeepsSent(w, e);
    ReadyStep(w, e);
    if IsSilenced(Next(w, e).phase) { ReadyRunWhileSilenced(Next(w, e)); } else { ReadyRunIsPendingReady(Next(w, e)); }
  }

  lemma PendingStep(w: World, e: Event)
    requires Coherent(w) && IsSent(w) && PendingReady(w) && Enabled(w, e) && !IsCompaction(e)
    ensures Coherent(Next(w, e)) && IsSent(Next(w, e)) && PendingReady(Next(w, e))
    ensures e.Completed? ==> Rebuilt(w.server, InFlight(w.phase).value) == InFlight(w.phase).value.full
  {
    StepKeepsCoherence(w, e);
    if e.Completed? {
      RebuiltIsFull(w);
    }
    if w.phase.Connecting? {
      ConnectingStep(w, e);
    } else if IsSilenced(w.phase) {
      SilencedStep(w, e);
    } else {
      LiveStep(w, e);
    }
  }

  lemma {:induction false} PendingIsEnough(w: World, evs: seq<Event>)
    requires Legal(w, evs) && UncompactedRun(evs) && Coherent(w) && IsSent(w) && PendingReady(w)
    ensures Refined(w, evs)
    decreases |evs|
  {
    if evs != [] {
      assert evs[0] in evs && forall e :: e in evs[1..] ==> e in evs;
      PendingStep(w, evs[0]);
      PendingIsEnough(Next(w, evs[0]), evs[1..]);
    }
  }

  // ---- needed ----

  lemma ConnectingIsNeeded(w: World) returns (evs: seq<Event>)
    requires Coherent(w) && IsSent(w) && w.phase.Connecting? && !ConnectReady(w, w.phase.account, w.phase.input)
    ensures UncompactedRun(evs) && Legal(w, evs) && !Refined(w, evs)
  {
    if AfterConnect(w) {
      evs := StaleAfterFailure(w);
    } else {
      evs := StaleAfterConnect(w);
    }
  }

  /** The part of the condition that concerns the call when it is connected. */
  ghost predicate AfterConnect(w: World)
    requires w.mem.Some? && w.phase.Connecting?
  {
    var s := w.mem.value;
    && w.phase.input <= w.history
    && (Truthy(s.id) && s.id.value in w.server && !SendClears(s, w.phase.input) ==> w.server[s.id.value] <= w.phase.input)
    && (SendClears(s, w.phase.input) || ShardsReady(w, OwnShard(w.sid, w.phase.account)))
  }

  lemma StaleAfterFailure(w: World) returns (evs: seq<Event>)
    requires Coherent(w) && IsSent(w) && w.phase.Connecting? && AfterConnect(w)
    requires !ConnectReady(w, w.phase.account, w.phase.input)
    ensures UncompactedRun(evs) && Legal(w, evs) && !Refined(w, evs)
  {
    assert Unread(Next(w, ConnectFail)) == OwnShard(w.sid, w.mem.value.account);
    evs := EndsUnready(w, ConnectFail);
  }

  lemma StaleAfterConnect(w: World) returns (evs: seq<Event>)
    requires Coherent(w) && IsSent(w) && w.phase.Connecting? && !AfterConnect(w)
    ensures UncompactedRun(evs) && Legal(w, evs) && !Refined(w, evs)
  {
    var v := Next(w, ConnectOk);
    StepKeepsCoherence(w, ConnectOk);
    StepKeepsSent(w, ConnectOk);
    SentIsUnready(w);
    var tail := LiveIsNeeded(v);
    StepBefore(w, ConnectOk, tail);
    evs := [ConnectOk] + tail;
  }

  lemma SentIsUnready(w: World)
    requires Coherent(w) && w.phase.Connecting? && w.mem.Some? && !AfterConnect(w)
    ensures var v := Next(w, ConnectOk); IsLive(v.phase) && !(OnHistory(v) && AllReady(v))
  {
    var w1 := Connected(w, w.phase.account);
    SendInput(w1, Fresh, w.phase.account, w.phase.input, true);
    if !SendClears(w1.mem.value, w.phase.input) {
      KeptSend(w1, w.phase.account, w.phase.input);
    }
  }

  // A send that does not clear the family, seen afterwards.
  lemma KeptSend(w: World, account: Option<string>, input: seq<Item>)
    requires w.mem.Some? && w.mem.value.account == account && !SendClears(w.mem.value, input)
    ensures var v := Send(w, Fresh, account, input, true);
            && v.phase.Probing? && v.phase.live && Unread(v) == OwnShard(w.sid, account) && v.cache == w.cache
            && (Truthy(w.mem.value.id) ==> v.phase.req.prev == w.mem.value.id)
  {
    SendSource(w, Fresh, account, input, true);
  }

  lemma SilencedIsNeeded(w: World) returns (evs: seq<Event>)
    requires Coherent(w) && IsSent(w) && IsSilenced(w.phase) && !SilentReady(w)
    ensures UncompactedRun(evs) && Legal(w, evs) && !Refined(w, evs)
  {
    var v := Next(w, ProbeTimeout);
    SilenceEnds(w, ProbeTimeout);
    TimeoutKeepsShards(w);
    StepKeepsCoherence(w, ProbeTimeout);
    StepKeepsSent(w, ProbeTimeout);
    ShardsOfInvalidated(w, v, OwnShard(w.sid, w.mem.value.account));
    ShardsOfInvalidated(w, v, OwnShard(w.sid, w.phase.account));
    var tail: seq<Event>;
    if w.phase.via == Reuse {
      tail := ConnectingIsNeeded(v);
    } else {
      tail := ReadyIsNeeded(v);
    }
    StepBefore(w, ProbeTimeout, tail);
    evs := [ProbeTimeout] + tail;
  }

  lemma TimeoutKeepsShards(w: World)
    requires Enabled(w, ProbeTimeout)
    ensures Next(w, ProbeTimeout).cache == Invalidate(w.cache, w.sid)
  {
  }

  lemma PendingIsNeeded(w: World) returns (evs: seq<Event>)
    requires Coherent(w) && IsSent(w) && !PendingReady(w)
    ensures UncompactedRun(evs) && Legal(w, evs) && !Refined(w, evs)
  {
    if !StoreReady(w, w.cache) {
      evs := StaleStore(w);
    } else if !StoreReady(w, w.disk) {
      evs := StaleFile(w);
    } else if w.phase.Quiet? {
      evs := ReadyIsNeeded(w);
    } else if w.phase.Connecting? {
      evs := ConnectingIsNeeded(w);
    } else if IsLive(w.phase) {
      evs := LiveIsNeeded(w);
    } else {
      evs := SilencedIsNeeded(w);
    }
  }

  /**
   * At any moment, with or without a call pending, every continuation up to the next compaction
   * is refined exactly when the pairs and the request that can still be used are current.
   */
  lemma PendingExactly(w: World)
    requires Coherent(w) && IsSent(w)
    ensures PendingReady(w) <==> forall evs :: UncompactedRun(evs) && Legal(w, evs) ==> Refined(w, evs)
  {
    if PendingReady(w) {
      forall evs | UncompactedRun(evs) && Legal(w, evs)
        ensures Refined(w, evs)
      {
        PendingIsEnough(w, evs);
      }
    } else {
      var evs := PendingIsNeeded(w);
      assert UncompactedRun(evs) && Legal(w, evs) && !Refined(w, evs);
    }
  }

  /** So it is in every world a fresh process can reach. */
  lemma PendingExactlyFromStart(sid: string, before: seq<Event>)
    requires Legal(Init(sid), before)
    ensures var w := Run(Init(sid), before);
            IsSent(w) && (PendingReady(w) <==> forall evs :: UncompactedRun(evs) && Legal(w, evs) ==> Refined(w, evs))
  {
    PairCoherence(Init(sid), before);
    RunKeepsSent(Init(sid), before);
    PendingExactly(Run(Init(sid), before));
  }
}
