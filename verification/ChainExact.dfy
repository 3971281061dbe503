/**
 * When the chain is correct, exactly. A compaction is the step that can leave a pair whose
 * items are no longer a prefix of the history. `AllReady` says which pairs the client can
 * still come to use, from memory, from the store and from its file; until the next
 * compaction, whatever turns, failures, account switches and restarts follow, every
 * completed response is built from its full input if and only if those pairs are current.
 */
module ChainExact {
  import opened Util
  import opened Continuation
  import opened Chain
  import opened ChainProofs

  predicate IsCompaction(e: Event) {
    e.Reset? || e.Scrub?
  }

  predicate UncompactedRun(evs: seq<Event>) {
    forall e :: e in evs ==> !IsCompaction(e)
  }

  // The shard that will be overwritten before it is read: the one of the current account,
  // unless a switch away from it is already under way.
  function Unread(w: World): Option<string> {
    var account := GetSession(w).account;
    if account.None? then None
    else match w.phase
      case Connecting(a, _) => if a == account then Some(ShardKey(w.sid, account.value)) else None
      case Probing(_, a, _, _) => if a == account then Some(ShardKey(w.sid, account.value)) else None
      case _ => Some(ShardKey(w.sid, account.value))
  }

  ghost predicate ShardsJudged(store: Store, sid: string, unread: Option<string>, J: Judgement) {
    forall k :: k in store && InFamily(k, sid) && k != sid && Some(k) != unread ==> J(store[k].id, store[k].len)
  }

  // The pair in memory can be sent: not if the next turn starts by dropping it.
  predicate Sendable(w: World) {
    w.mem.Some? && (!w.phase.Quiet? || !Droppable(w.mem.value))
  }

  // An account-less session whose pair has length 0: its first send clears the whole family.
  predicate ClearsFirst(w: World) {
    && (w.phase.Quiet? || w.phase.Connecting?) && w.mem.Some? && !Droppable(w.mem.value)
    && w.mem.value.account.None? && Truthy(w.mem.value.id) && w.mem.value.len == Some(0)
  }

  ghost predicate UsableJudged(w: World, J: Judgement) {
    && J(None, None)
    && (Sendable(w) ==> J(w.mem.value.id, w.mem.value.len))
    && (ClearsFirst(w) || ShardsJudged(w.cache, w.sid, Unread(w), J))
  }

  /** The pairs of this process that can still be used are current. */
  ghost predicate Ready(w: World) {
    UsableJudged(w, (id, len) => Current(w.server, w.history, id, len))
  }

  // After a restart the base record's pair is dropped, and the shard of its account is overwritten unread.
  function UnreadAfterRestart(store: Store, sid: string): Option<string> {
    var account := Get(store, sid).account;
    if account.None? then None else Some(ShardKey(sid, account.value))
  }

  ghost predicate StoreUsable(store: Store, sid: string, J: Judgement) {
    ShardsJudged(store, sid, UnreadAfterRestart(store, sid), J)
  }

  /** So are the pairs a process restarted from this store can use. */
  ghost predicate StoreReady(w: World, store: Store) {
    StoreUsable(store, w.sid, (id, len) => Current(w.server, w.history, id, len))
  }

  ghost predicate AllReady(w: World) {
    Ready(w) && StoreReady(w, w.cache) && StoreReady(w, w.disk)
  }

  ghost predicate ReadyRun(w: World) {
    Coherent(w) && OnHistory(w) && AllReady(w)
  }

  // ---- enough ----

  lemma InvalidatedIsUsable(w: World, status: Status, J: Judgement)
    requires w.mem.Some? && J(None, None)
    ensures UsableJudged(DoInvalidate(w, status), J)
    ensures forall p :: UsableJudged(DoInvalidate(w, status).(phase := p), J)
    ensures ShardsJudged(DoInvalidate(w, status).cache, w.sid, None, J)
  {
  }

  lemma SendIsUsable(w: World, via: Via, account: Option<string>, input: seq<Item>, chained: bool, J: Judgement)
    requires w.mem.Some? && J(None, None) && J(w.mem.value.id, w.mem.value.len)
    requires ShardsJudged(w.cache, w.sid, Unread(w.(phase := Connecting(account, input))), J)
    ensures UsableJudged(Send(w, via, account, input, chained), J)
  {
    var v := Send(w, via, account, input, chained);
    SendSource(w, via, account, input, chained);
    if v.cache != w.cache {
      InvalidatedIsUsable(w, Streaming, J);
    }
    assert Unread(v) == Unread(w.(phase := Connecting(account, input)));
  }

  lemma SendSource(w: World, via: Via, account: Option<string>, input: seq<Item>, chained: bool)
    requires w.mem.Some?
    ensures var v := Send(w, via, account, input, chained);
            && v.phase.Probing? && v.phase.account == account && v.mem.value.account == w.mem.value.account
            && (|| (v.cache == w.cache && v.mem.value.id == w.mem.value.id && v.mem.value.len == w.mem.value.len)
                || (v.cache == DoInvalidate(w, Streaming).cache && v.mem.value.id.None? && v.mem.value.len.None?))
  {
  }

  lemma SwitchIsUsable(w: World, account: Option<string>, J: Judgement)
    requires w.mem.Some? && w.phase.Quiet? && J(None, None) && J(w.mem.value.id, w.mem.value.len)
    requires ShardsJudged(w.cache, w.sid, Unread(w), J)
    ensures var v := SwitchAccount(w, account);
            && J(v.mem.value.id, v.mem.value.len)
            && v.mem.value.account == w.mem.value.account
            && ShardsJudged(v.cache, w.sid, if w.mem.value.account == account then Unread(w) else None, J)
  {
    var s := w.mem.value;
    if s.account.Some? && s.account != account {
      var key := ShardKey(w.sid, Show(account));
      assert InFamily(key, w.sid) && key != w.sid;
    }
  }

  // A send on a pair of length 0.
  lemma EmptyPairClears(w: World, via: Via, account: Option<string>, input: seq<Item>, J: Judgement)
    requires w.mem.Some? && Truthy(w.mem.value.id) && w.mem.value.len == Some(0) && J(None, None)
    ensures UsableJudged(Send(w, via, account, input, true), J)
  {
    InvalidatedIsUsable(w, Streaming, J);
    assert Send(w, via, account, input, true).mem == DoInvalidate(w, Streaming).mem;
  }

  lemma EnterClears(w: World, e: Event, J: Judgement)
    requires e.Enter? && Enabled(w, e) && UsableJudged(w, J) && ClearsFirst(w)
    ensures UsableJudged(Next(w, e), J)
  {
    var w2 := w.(longest := |w.history|);
    assert SwitchAccount(DropUnconfirmed(w, GetSession(w)), e.account).(longest := |w.history|) == w2;
    EmptyPairClears(w2.(mem := Some(w2.mem.value.(disabled := false))), Reuse, e.account, w2.history, J);
  }

  lemma EnterIsUsable(w: World, e: Event, J: Judgement)
    requires e.Enter? && Enabled(w, e) && UsableJudged(w, J) && !ClearsFirst(w)
    requires Judged(w, (id, len) => Held(w.server, id, len))
    ensures UsableJudged(Next(w, e), J)
  {
    var w1 := DropUnconfirmed(w, GetSession(w));
    if w.mem.None? && w.sid in w.cache {
      assert InFamily(w.sid, w.sid);
    }
    assert J(w1.mem.value.id, w1.mem.value.len);
    SwitchIsUsable(w1, e.account, J);
    var w2 := SwitchAccount(w1, e.account).(longest := |w.history|);
    ResumeIsUsable(w2, e.account, e.healed, e.alive, J);
  }

  lemma ResumeIsUsable(w: World, account: Option<string>, healed: bool, alive: bool, J: Judgement)
    requires w.mem.Some? && w.phase.Quiet? && J(None, None) && J(w.mem.value.id, w.mem.value.len)
    requires ShardsJudged(w.cache, w.sid, if w.mem.value.account == account then Unread(w) else None, J)
    ensures UsableJudged(Resume(w, account, healed, alive), J)
  {
    SendIsUsable(w.(mem := Some(w.mem.value.(disabled := false))), Reuse, account, w.history, true, J);
  }

  lemma ConnectIsUsable(w: World, e: Event, J: Judgement)
    requires e.ConnectOk? && Enabled(w, e) && UsableJudged(w, J)
    ensures UsableJudged(Next(w, e), J)
  {
    var w1 := w.(mem := Some(w.mem.value.(ws := true, status := Open, account := w.phase.account)));
    if ClearsFirst(w) {
      EmptyPairClears(w1, Fresh, w.phase.account, w.phase.input, J);
    } else {
      SendIsUsable(w1, Fresh, w.phase.account, w.phase.input, true, J);
    }
  }

  lemma FailedProbeIsUsable(w: World, J: Judgement)
    requires w.mem.Some? && w.phase.Probing? && J(None, None)
    ensures UsableJudged(AfterFailedProbe(DoInvalidate(w, Failed), w.phase.via, w.phase.account, w.phase.req.full), J)
  {
    InvalidatedIsUsable(w, Failed, J);
  }

  lemma RetryIsUsable(w: World, J: Judgement)
    requires w.mem.Some? && w.phase.Probing? && J(None, None)
    ensures UsableJudged(Send(DoInvalidate(w, Failed), Retry, w.phase.account, w.phase.req.full, false), J)
  {
    InvalidatedIsUsable(w, Failed, J);
    SendIsUsable(DoInvalidate(w, Failed), Retry, w.phase.account, w.phase.req.full, false, J);
  }

  lemma NotFoundIsUsable(w: World, e: Event, J: Judgement)
    requires e.NotFound? && Enabled(w, e) && J(None, None)
    ensures UsableJudged(Next(w, e), J)
  {
    if w.phase.Probing? {
      FailedProbeIsUsable(w, J);
      RetryIsUsable(w, J);
    } else {
      InvalidatedIsUsable(w, Failed, J);
    }
  }

  lemma FailureIsUsable(w: World, e: Event, J: Judgement)
    requires Invalidates(w, e)
    requires Enabled(w, e) && J(None, None)
    ensures UsableJudged(Next(w, e), J)
  {
    FailureClears(w, e);
    ClearedIsUsable(Next(w, e), w.cache, J);
  }

  lemma ClearedIsUsable(w: World, before: Store, J: Judgement)
    requires w.mem.Some? && w.mem.value.id.None? && w.mem.value.len.None?
    requires w.cache == InvalidateFamily(before, w.sid) && J(None, None)
    ensures UsableJudged(w, J)
  {
  }

  lemma RestIsUsable(w: World, e: Event, J: Judgement)
    requires Enabled(w, e) && UsableJudged(w, J)
    requires
      || e.Grow? || e.Close? || e.BackgroundClose? || e.ConnectFail? || e.FirstFrame?
      || e.Flush? || e.OtherSessions?
      || (e.WsClose? && w.mem.Some? && w.mem.value.status != Streaming)
    ensures UsableJudged(Next(w, e), J)
  {
  }

  lemma SendTimeoutIsUsable(w: World, e: Event, J: Judgement)
    requires Enabled(w, e) && e.SendTimeout? && UsableJudged(w, J)
    ensures UsableJudged(Next(w, e), J)
  {
  }

  lemma ProbeTimeoutIsUsable(w: World, e: Event, J: Judgement)
    requires Enabled(w, e) && e.ProbeTimeout? && UsableJudged(w, J)
    ensures UsableJudged(Next(w, e), J)
  {
  }

  lemma CompleteIsUsable(w: World, e: Event, J: Judgement)
    requires e.Completed? && Enabled(w, e) && UsableJudged(w, J)
    requires Committed(w, e).Some? ==> var c := Committed(w, e).value; J(c.0, c.1)
    ensures UsableJudged(Next(w, e), J)
  {
  }

  lemma RestartIsUsable(w: World, e: Event, J: Judgement)
    requires e.Restart? && J(None, None) && StoreUsable(w.disk, w.sid, J)
    ensures UsableJudged(Next(w, e), J)
  {
  }

  lemma UsableStep(w: World, e: Event, J: Judgement, K: Judgement)
    requires Enabled(w, e) && !IsCompaction(e) && UsableJudged(w, J) && K(None, None) && Weaker(J, K)
    requires Judged(w, (id, len) => Held(w.server, id, len)) && StoreUsable(w.disk, w.sid, K)
    requires Committed(w, e).Some? ==> var c := Committed(w, e).value; K(c.0, c.1)
    ensures UsableJudged(Next(w, e), K)
  {
    assert UsableJudged(w, K);
    match e
    case Enter(_, _, _) => if ClearsFirst(w) { EnterClears(w, e, K); } else { EnterIsUsable(w, e, K); }
    case ConnectOk => ConnectIsUsable(w, e, K);
    case Completed(_) => CompleteIsUsable(w, e, K);
    case NotFound(_) => NotFoundIsUsable(w, e, K);
    case Incomplete => FailureIsUsable(w, e, K);
    case ResponseFailed => FailureIsUsable(w, e, K);
    case ErrorFrame => FailureIsUsable(w, e, K);
    case WsError => FailureIsUsable(w, e, K);
    case IdleTimeout => FailureIsUsable(w, e, K);
    case LateIdleTimer(_) => FailureIsUsable(w, e, K);
    case SendTimeout => SendTimeoutIsUsable(w, e, K);
    case ProbeTimeout => ProbeTimeoutIsUsable(w, e, K);
    case Restart(_) => RestartIsUsable(w, e, K);
    case WsClose =>
      if w.mem.value.status == Streaming { FailureIsUsable(w, e, K); } else { RestIsUsable(w, e, K); }
    case _ => RestIsUsable(w, e, K);
  }

  // ---- what the store holds for a restart ----

  lemma ClearedStoreIsUsable(store: Store, sid: string, J: Judgement)
    requires J(None, None)
    ensures StoreUsable(InvalidateFamily(store, sid), sid, J)
    ensures StoreUsable(store, sid, J) ==> StoreUsable(Invalidate(store, sid), sid, J)
  {
  }

  lemma SwitchKeepsStore(w: World, account: Option<string>, J: Judgement)
    requires w.mem.Some? && StoreUsable(w.cache, w.sid, J) && J(w.mem.value.id, w.mem.value.len)
    ensures StoreUsable(SwitchAccount(w, account).cache, w.sid, J)
  {
    var s := w.mem.value;
    if s.account.Some? && s.account != account {
      var key := ShardKey(w.sid, s.account.value);
      assert key != w.sid;
      assert Get(SwitchAccount(w, account).cache, w.sid) == Get(w.cache, w.sid);
    }
  }

  lemma ResumeCache(w: World, account: Option<string>, healed: bool, alive: bool)
    requires w.mem.Some?
    ensures var c := Resume(w, account, healed, alive).cache; c == w.cache || c == InvalidateFamily(w.cache, w.sid)
  {
    SendCache(w.(mem := Some(w.mem.value.(disabled := false))), Reuse, account, w.history, true);
  }

  lemma EnterKeepsStore(w: World, e: Event, J: Judgement)
    requires e.Enter? && Enabled(w, e) && UsableJudged(w, J) && StoreUsable(w.cache, w.sid, J)
    requires Judged(w, (id, len) => Held(w.server, id, len))
    ensures StoreUsable(Next(w, e).cache, w.sid, J)
  {
    var w1 := DropUnconfirmed(w, GetSession(w));
    if w.mem.None? && w.sid in w.cache {
      assert InFamily(w.sid, w.sid);
    }
    ClearedStoreIsUsable(w.cache, w.sid, J);
    SwitchKeepsStore(w1, e.account, J);
    var w2 := SwitchAccount(w1, e.account).(longest := |w.history|);
    ResumeCache(w2, e.account, e.healed, e.alive);
    ClearedStoreIsUsable(w2.cache, w.sid, J);
  }

  // A completion makes the session's own account the one whose shard is not read.
  lemma CommitKeepsStore(w: World, e: Event, J: Judgement)
    requires e.Completed? && Enabled(w, e) && UsableJudged(w, J) && StoreUsable(w.cache, w.sid, J)
    ensures StoreUsable(Next(w, e).cache, w.sid, J)
  {
    if Committed(w, e).Some? {
      assert !ClearsFirst(w);
      assert Get(Next(w, e).cache, w.sid).account == w.mem.value.account;
    }
  }

  lemma ResendKeepsStore(w: World, e: Event, J: Judgement)
    requires (e.ConnectOk? || e.NotFound?) && Enabled(w, e) && StoreUsable(w.cache, w.sid, J) && J(None, None)
    ensures StoreUsable(Next(w, e).cache, w.sid, J)
  {
    ClearedStoreIsUsable(w.cache, w.sid, J);
    if e.ConnectOk? {
      SendCache(w.(mem := Some(w.mem.value.(ws := true, status := Open, account := w.phase.account))),
                Fresh, w.phase.account, w.phase.input, true);
    } else {
      assert Next(w, e).cache == InvalidateFamily(w.cache, w.sid);
    }
  }

  // The steps that leave the base record's account and every shard's pair as they were, or clear them.
  lemma RestKeepsStore(w: World, e: Event, J: Judgement)
    requires Enabled(w, e) && StoreUsable(w.cache, w.sid, J) && J(None, None)
    requires !Sends(e) && !e.Completed? && !IsCompaction(e) && !e.OtherSessions? && !e.Restart?
    ensures StoreUsable(Next(w, e).cache, w.sid, J)
  {
    ClearedStoreIsUsable(w.cache, w.sid, J);
    if Invalidates(w, e) {
      FailureClears(w, e);
    } else {
      QuietCache(w, e);
    }
  }

  lemma QuietCache(w: World, e: Event)
    requires Enabled(w, e) && !Invalidates(w, e)
    requires !Sends(e) && !e.Completed? && !IsCompaction(e) && !e.OtherSessions? && !e.Restart?
    ensures Next(w, e).cache == w.cache || Next(w, e).cache == Invalidate(w.cache, w.sid)
  {
    if e.SendTimeout? || e.ProbeTimeout? {
      TimeoutCache(w, e);
    }
  }

  lemma OthersKeepStore(w: World, e: Event, J: Judgement)
    requires e.OtherSessions? && Enabled(w, e) && StoreUsable(w.cache, w.sid, J)
    ensures StoreUsable(Next(w, e).cache, w.sid, J)
  {
    assert InFamily(w.sid, w.sid);
    assert Get(w.cache + e.writes, w.sid) == Get(w.cache, w.sid);
  }

  lemma StoreStep(w: World, e: Event, J: Judgement, K: Judgement)
    requires Enabled(w, e) && !IsCompaction(e) && UsableJudged(w, J) && K(None, None) && Weaker(J, K)
    requires Judged(w, (id, len) => Held(w.server, id, len))
    requires StoreUsable(w.cache, w.sid, J) && StoreUsable(w.disk, w.sid, J)
    ensures StoreUsable(Next(w, e).cache, w.sid, K) && StoreUsable(Next(w, e).disk, w.sid, K)
  {
    assert UsableJudged(w, K) && StoreUsable(w.cache, w.sid, K) && StoreUsable(w.disk, w.sid, K);
    DiskStep(w, e);
    if e.Enter? {
      EnterKeepsStore(w, e, K);
    } else if Sends(e) {
      ResendKeepsStore(w, e, K);
    } else if e.Completed? {
      CommitKeepsStore(w, e, K);
    } else if e.OtherSessions? {
      OthersKeepStore(w, e, K);
    } else if !e.Restart? {
      RestKeepsStore(w, e, K);
    }
  }

  // The request a step sends extends a current pair.
  lemma EnterIsCurrent(w: World, account: Option<string>, healed: bool, alive: bool)
    requires w.phase.Quiet? && ReadyRun(w)
    ensures OnHistory(EnterTurn(w, account, healed, alive))
  {
    var J := (id, len) => Current(w.server, w.history, id, len);
    var w1 := DropUnconfirmed(w, GetSession(w));
    if w.mem.None? && w.sid in w.cache {
      assert InFamily(w.sid, w.sid);
      assert Held(w.server, w.cache[w.sid].id, w.cache[w.sid].len);
    }
    assert J(w1.mem.value.id, w1.mem.value.len);
    if !ClearsFirst(w) {
      SwitchIsUsable(w1, account, J);
    }
    ResumeOnHistory(SwitchAccount(w1, account).(longest := |w.history|), account, healed, alive);
  }

  lemma SendingStepIsCurrent(w: World, e: Event)
    requires Enabled(w, e) && Sends(e) && ReadyRun(w)
    ensures OnHistory(Next(w, e))
  {
    match e
    case Enter(account, healed, alive) => EnterIsCurrent(w, account, healed, alive);
    case ConnectOk =>
      SendOnHistory(w.(mem := Some(w.mem.value.(ws := true, status := Open, account := w.phase.account))),
                    Fresh, w.phase.account, w.phase.input, true);
    case NotFound(_) =>
      if w.phase.Probing? {
        SendOnHistory(DoInvalidate(w, Failed), Retry, w.phase.account, w.phase.req.full, false);
      }
  }

  lemma ReadyStep(w: World, e: Event)
    requires Enabled(w, e) && !IsCompaction(e) && ReadyRun(w)
    ensures ReadyRun(Next(w, e))
  {
    var w' := Next(w, e);
    var J := (id, len) => Current(w.server, w.history, id, len);
    var K := (id, len) => Current(w'.server, w'.history, id, len);
    StepKeepsCoherence(w, e);
    ServerOnlyGrows(w, e);
    HistoryStep(w, e);
    if Sends(e) {
      SendingStepIsCurrent(w, e);
    } else {
      RequestsPersist(w, e);
    }
    if Committed(w, e).Some? {
      RebuiltIsFull(w);
      assert PendingInput(w.phase) == Some(InFlight(w.phase).value.full);
    }
    assert Weaker(J, K);
    StoreStep(w, e, J, K);
    assert StoreUsable(w.disk, w.sid, K);
    UsableStep(w, e, J, K);
  }

  lemma {:induction false} ReadyIsEnough(w: World, evs: seq<Event>)
    requires Legal(w, evs) && UncompactedRun(evs) && ReadyRun(w)
    ensures Refined(w, evs)
    decreases |evs|
  {
    if evs != [] {
      assert evs[0] in evs && forall e :: e in evs[1..] ==> e in evs;
      if evs[0].Completed? {
        RebuiltIsFull(w);
      }
      ReadyStep(w, evs[0]);
      ReadyIsEnough(Next(w, evs[0]), evs[1..]);
    }
  }

  // ---- needed ----

  /** Items that make the history longer than what the server holds, and not a prefix-extension of it. */
  function Diverging(held: seq<Item>, history: seq<Item>): seq<Item> {
    var filler := if |history| < |held| then held[|history|] + "x" else "x";
    seq(|held| + 1, i => filler)
  }

  lemma DivergingDiverges(held: seq<Item>, history: seq<Item>)
    requires !(held <= history)
    ensures var h := history + Diverging(held, history);
            |held| < |h| && !(held <= h)
  {
    var h := history + Diverging(held, history);
    if |history| < |held| {
      assert h[|history|] == held[|history|] + "x";
      assert |h[|history|]| != |held[|history|]|;
    } else {
      assert h[..|held|] == history[..|held|];
    }
  }

  ghost predicate IsStale(w: World, held: seq<Item>) {
    && w.mem.Some? && Truthy(w.mem.value.id) && w.mem.value.len == Some(|held|)
    && w.mem.value.id.value in w.server && w.server[w.mem.value.id.value] == held
    && 0 < |held| < |w.history| && !(held <= w.history)
  }

  // A chained send on a pair that is not a prefix, and its completion.
  lemma StaleSendIsUnrefined(w: World, via: Via, account: Option<string>, held: seq<Item>)
    requires IsStale(w, held)
    ensures var v := Send(w, via, account, w.history, true);
            && Enabled(v, Completed(None)) && Legal(v, [Completed(None)]) && !Refined(v, [Completed(None)])
  {
    var v := Send(w, via, account, w.history, true);
    var rebuilt := Rebuilt(v.server, v.phase.req);
    assert rebuilt == held + w.history[|held|..];
    assert rebuilt[..|held|] == held != w.history[..|held|];
    assert Legal(Next(v, Completed(None)), []);
  }

  lemma StaleConnectIsUnrefined(w: World, account: Option<string>, held: seq<Item>)
    requires IsStale(w, held) && w.phase == Connecting(account, w.history)
    ensures Legal(w, [ConnectOk, Completed(None)]) && !Refined(w, [ConnectOk, Completed(None)])
  {
    var u := w.(mem := Some(w.mem.value.(ws := true, status := Open, account := account)));
    StaleSendIsUnrefined(u, Fresh, account, held);
    assert Next(w, ConnectOk) == Send(u, Fresh, account, w.history, true);
    assert [ConnectOk, Completed(None)][1..] == [Completed(None)];
  }

  // From the end of the account switch, with a stale pair in memory.
  lemma StaleTurnIsUnrefined(w: World, account: Option<string>, held: seq<Item>) returns (evs: seq<Event>)
    requires w.phase.Quiet? && IsStale(w, held)
    ensures UncompactedRun(evs)
    ensures var v := Resume(w, account, true, true); Legal(v, evs) && !Refined(v, evs)
  {
    var s := w.mem.value.(disabled := false);
    if w.mem.value.ws && w.mem.value.status == Open {
      StaleSendIsUnrefined(w.(mem := Some(s)), Reuse, account, held);
      evs := [Completed(None)];
    } else {
      StaleConnectIsUnrefined(Resume(w, account, true, true), account, held);
      evs := [ConnectOk, Completed(None)];
    }
  }

  lemma StepBefore(w: World, e: Event, tail: seq<Event>)
    requires Enabled(w, e) && Legal(Next(w, e), tail) && !Refined(Next(w, e), tail)
    ensures Legal(w, [e] + tail) && !Refined(w, [e] + tail)
  {
    assert ([e] + tail)[1..] == tail;
  }

  lemma EnterBefore(w: World, account: Option<string>, tail: seq<Event>)
    requires w.phase.Quiet?
    requires var v := EnterTurn(w, account, true, true); Legal(v, tail) && !Refined(v, tail)
    ensures var evs := [Enter(account, true, true)] + tail; Legal(w, evs) && !Refined(w, evs)
  {
    var e := Enter(account, true, true);
    assert Next(w, e) == EnterTurn(w, account, true, true);
    StepBefore(w, e, tail);
  }

  lemma GrowBefore(w: World, items: seq<Item>, tail: seq<Event>)
    requires var v := w.(history := w.history + items); Legal(v, tail) && !Refined(v, tail)
    ensures var evs := [Grow(items)] + tail; Legal(w, evs) && !Refined(w, evs)
  {
    assert Next(w, Grow(items)) == w.(history := w.history + items);
    StepBefore(w, Grow(items), tail);
  }

  /** A stale pair that can be sent has a run in which a response misses its full input. */
  lemma ReadyIsNeeded(w: World) returns (evs: seq<Event>)
    requires Coherent(w) && w.phase.Quiet? && !Ready(w)
    ensures UncompactedRun(evs) && Legal(w, evs) && !Refined(w, evs)
  {
    if Sendable(w) && !Current(w.server, w.history, w.mem.value.id, w.mem.value.len) {
      evs := StalePairInMemory(w);
    } else {
      var k :| k in w.cache && InFamily(k, w.sid) && k != w.sid && Some(k) != Unread(w)
               && !Current(w.server, w.history, w.cache[k].id, w.cache[k].len);
      if GetSession(w).account.Some? {
        evs := StaleShard(w, k);
      } else {
        evs := StaleShardLater(w, k);
      }
    }
  }

  lemma StalePairInMemory(w: World) returns (evs: seq<Event>)
    requires Coherent(w) && w.phase.Quiet? && Sendable(w)
    requires !Current(w.server, w.history, w.mem.value.id, w.mem.value.len)
    ensures UncompactedRun(evs) && Legal(w, evs) && !Refined(w, evs)
  {
    var account := w.mem.value.account;
    var held := w.server[w.mem.value.id.value];
    var items := Diverging(held, w.history);
    DivergingDiverges(held, w.history);
    var w0 := w.(history := w.history + items);
    var w2 := w0.(longest := |w0.history|);
    assert EnterTurn(w0, account, true, true) == Resume(w2, account, true, true);
    var tail := StaleTurnIsUnrefined(w2, account, held);
    EnterBefore(w0, account, tail);
    GrowBefore(w, items, [Enter(account, true, true)] + tail);
    evs := [Grow(items)] + ([Enter(account, true, true)] + tail);
  }

  lemma StaleShard(w: World, k: string) returns (evs: seq<Event>)
    requires Coherent(w) && w.phase.Quiet? && GetSession(w).account.Some?
    requires k in w.cache && InFamily(k, w.sid) && k != w.sid && Some(k) != Unread(w)
    requires !Current(w.server, w.history, w.cache[k].id, w.cache[k].len)
    ensures UncompactedRun(evs) && Legal(w, evs) && !Refined(w, evs)
  {
    assert Held(w.server, w.cache[k].id, w.cache[k].len);
    var account := Some(k[|w.sid| + 1..]);
    assert ShardKey(w.sid, account.value) == k;
    var held := w.server[w.cache[k].id.value];
    var items := Diverging(held, w.history);
    DivergingDiverges(held, w.history);
    var w0 := w.(history := w.history + items);
    var w1 := DropUnconfirmed(w0, GetSession(w0));
    var w2 := SwitchAccount(w1, account).(longest := |w0.history|);
    assert w2.mem.value.id == w.cache[k].id && w2.mem.value.len == w.cache[k].len;
    var tail := StaleTurnIsUnrefined(w2, account, held);
    EnterBefore(w0, account, tail);
    GrowBefore(w, items, [Enter(account, true, true)] + tail);
    evs := [Grow(items)] + ([Enter(account, true, true)] + tail);
  }

  /** An account other than that of shard k. */
  function OtherAccount(sid: string, k: string): string
    requires sid + ":" <= k
  {
    k[|sid| + 1..] + "x"
  }

  // A session without an account first connects with one.
  lemma FirstConnect(w: World, account: string) returns (v: World)
    requires Coherent(w) && w.phase.Quiet? && GetSession(w).account.None? && !ClearsFirst(w)
    requires w.mem.Some? && w.mem.value.len.Some? ==> |w.history| > w.mem.value.len.value
    ensures Enabled(Next(w, Enter(Some(account), true, false)), ConnectOk)
    ensures v == Next(Next(w, Enter(Some(account), true, false)), ConnectOk)
    ensures Coherent(v) && Enabled(v, Completed(None)) && v.mem.value.account == Some(account)
    ensures v.sid == w.sid && v.server == w.server && v.history == w.history && v.cache == DropUnconfirmed(w, GetSession(w)).cache
  {
    var a := Some(account);
    var w2 := Next(w, Enter(a, true, false));
    EnterConnects(w, a);
    var w3 := w2.(mem := Some(w2.mem.value.(ws := true, status := Open, account := a)));
    StepKeepsCoherence(w, Enter(a, true, false));
    StepKeepsCoherence(w2, ConnectOk);
    UnclearedSend(w3, a, w.history);
    v := Next(w2, ConnectOk);
  }

  lemma EnterConnects(w: World, account: Option<string>)
    requires w.phase.Quiet? && GetSession(w).account.None?
    ensures var w1 := DropUnconfirmed(w, GetSession(w));
            var w2 := Next(w, Enter(account, true, false));
            && w2.phase == Connecting(account, w.history) && w2.cache == w1.cache && w2.mem.Some?
            && w2.mem.value.id == w1.mem.value.id && w2.mem.value.len == w1.mem.value.len
            && SameSurroundings(w, w2)
  {
  }

  lemma FirstTurn(w: World, account: string) returns (u: World)
    requires Coherent(w) && w.phase.Quiet? && GetSession(w).account.None? && !ClearsFirst(w)
    requires w.mem.Some? && w.mem.value.len.Some? ==> |w.history| > w.mem.value.len.value
    ensures var evs := [Enter(Some(account), true, false), ConnectOk, Completed(None)];
            Legal(w, evs) && u == Run(w, evs)
    ensures u.phase.Quiet? && Coherent(u) && GetSession(u).account == Some(account) && u.mem.Some?
    ensures u.sid == w.sid && u.server == w.server && u.history == w.history
    ensures forall k :: k in w.cache && InFamily(k, w.sid) && k != w.sid ==> k in u.cache && u.cache[k] == w.cache[k]
  {
    var v := FirstConnect(w, account);
    StepKeepsCoherence(v, Completed(None));
    u := Next(v, Completed(None));
    ThreeSteps(w, Enter(Some(account), true, false), ConnectOk, Completed(None));
  }

  lemma UnclearedSend(w: World, account: Option<string>, input: seq<Item>)
    requires w.mem.Some? && Held(w.server, w.mem.value.id, w.mem.value.len)
    requires w.mem.value.len.Some? ==> 0 < w.mem.value.len.value < |input|
    ensures var v := Send(w, Fresh, account, input, true);
            v.cache == w.cache && v.mem == Some(w.mem.value.(status := Streaming)) && Enabled(v, Completed(None))
  {
  }

  lemma ThreeSteps(w: World, d: Event, e: Event, f: Event)
    requires Enabled(w, d) && Enabled(Next(w, d), e) && Enabled(Next(Next(w, d), e), f)
    ensures Legal(w, [d, e, f]) && Run(w, [d, e, f]) == Next(Next(Next(w, d), e), f)
  {
    assert [d, e, f][1..] == [e, f] && [e, f][1..] == [f] && [f][1..] == [];
    assert Legal(Next(Next(Next(w, d), e), f), []);
    assert Run(Next(Next(w, d), e), [f]) == Next(Next(Next(w, d), e), f);
  }

  lemma StaleShardLater(w: World, k: string) returns (evs: seq<Event>)
    requires Coherent(w) && w.phase.Quiet? && GetSession(w).account.None? && !ClearsFirst(w)
    requires k in w.cache && InFamily(k, w.sid) && k != w.sid
    requires !Current(w.server, w.history, w.cache[k].id, w.cache[k].len)
    ensures UncompactedRun(evs) && Legal(w, evs) && !Refined(w, evs)
  {
    assert Held(w.server, w.cache[k].id, w.cache[k].len);
    var held := w.server[w.cache[k].id.value];
    var more: seq<Item> := seq(if w.mem.Some? && w.mem.value.len.Some? then w.mem.value.len.value + 1 else 0, _ => "x");
    var items := Diverging(held, w.history) + more;
    DivergingDiverges(held, w.history);
    var w0 := w.(history := w.history + items);
    StillDiverges(held, w.history + Diverging(held, w.history), more);
    assert w0.history == w.history + Diverging(held, w.history) + more;
    StepKeepsCoherence(w, Grow(items));
    assert Next(w, Grow(items)) == w0;
    var account := OtherAccount(w.sid, k);
    var u := FirstTurn(w0, account);
    assert ShardKey(w.sid, account) != k;
    var tail := StaleShard(u, k);
    var start := [Enter(Some(account), true, false), ConnectOk, Completed(None)];
    StepsBefore(w0, start, tail);
    GrowBefore(w, items, start + tail);
    evs := [Grow(items)] + (start + tail);
  }

  lemma StillDiverges(held: seq<Item>, h: seq<Item>, more: seq<Item>)
    requires |held| < |h| && !(held <= h)
    ensures !(held <= h + more)
  {
    assert (h + more)[..|held|] == h[..|held|];
  }

  lemma {:induction false} StepsBefore(w: World, evs: seq<Event>, tail: seq<Event>)
    requires Legal(w, evs) && Legal(Run(w, evs), tail) && !Refined(Run(w, evs), tail)
    ensures Legal(w, evs + tail) && !Refined(w, evs + tail)
    decreases |evs|
  {
    if evs == [] {
      assert evs + tail == tail;
    } else {
      StepsBefore(Next(w, evs[0]), evs[1..], tail);
      assert evs + tail == [evs[0]] + (evs[1..] + tail);
      StepBefore(w, evs[0], evs[1..] + tail);
    }
  }

  /** The world after a restart from its file. */
  function Restarted(w: World): World {
    w.(mem := None, phase := Quiet, cache := w.disk)
  }

  lemma RestartedReady(w: World)
    requires Coherent(w)
    ensures Coherent(Restarted(w)) && (Ready(Restarted(w)) <==> StoreReady(w, w.disk))
  {
    StepKeepsCoherence(w, Restart(true));
    assert Next(w, Restart(true)) == Restarted(w);
  }

  lemma StaleFile(w: World) returns (evs: seq<Event>)
    requires Coherent(w) && !StoreReady(w, w.disk)
    ensures UncompactedRun(evs) && Legal(w, evs) && !Refined(w, evs)
  {
    RestartedReady(w);
    var tail := ReadyIsNeeded(Restarted(w));
    StepBefore(w, Restart(true), tail);
    evs := [Restart(true)] + tail;
  }

  lemma StaleStore(w: World) returns (evs: seq<Event>)
    requires Coherent(w) && !StoreReady(w, w.cache)
    ensures UncompactedRun(evs) && Legal(w, evs) && !Refined(w, evs)
  {
    var v := Next(w, Flush(true));
    StepKeepsCoherence(w, Flush(true));
    assert v.disk == w.cache && v.server == w.server && v.history == w.history;
    var tail := StaleFile(v);
    StepBefore(w, Flush(true), tail);
    evs := [Flush(true)] + tail;
  }

  lemma AllReadyIsNeeded(w: World) returns (evs: seq<Event>)
    requires Coherent(w) && w.phase.Quiet? && !AllReady(w)
    ensures UncompactedRun(evs) && Legal(w, evs) && !Refined(w, evs)
  {
    if !Ready(w) {
      evs := ReadyIsNeeded(w);
    } else if !StoreReady(w, w.cache) {
      evs := StaleStore(w);
    } else {
      evs := StaleFile(w);
    }
  }

  /**
   * Between turns, the pairs the client can still use from memory, store and file decide the
   * correctness of every later run up to the next compaction.
   */
  lemma ReadyExactly(w: World)
    requires Coherent(w) && w.phase.Quiet?
    ensures AllReady(w) <==> forall evs :: UncompactedRun(evs) && Legal(w, evs) ==> Refined(w, evs)
  {
    if AllReady(w) {
      forall evs | UncompactedRun(evs) && Legal(w, evs)
        ensures Refined(w, evs)
      {
        ReadyIsEnough(w, evs);
      }
    } else {
      var evs := AllReadyIsNeeded(w);
      assert UncompactedRun(evs) && Legal(w, evs) && !Refined(w, evs);
    }
  }

  // ---- the unsafe steps do happen ----

  ghost predicate Reachable(w: World) {
    exists evs :: Legal(Init(w.sid), evs) && Run(Init(w.sid), evs) == w
  }

  lemma {:induction false} RunOneMore(w: World, evs: seq<Event>, e: Event)
    requires Legal(w, evs) && Enabled(Run(w, evs), e)
    ensures Legal(w, evs + [e]) && Run(w, evs + [e]) == Next(Run(w, evs), e)
    decreases |evs|
  {
    if evs == [] {
      assert (evs + [e])[1..] == [];
    } else {
      RunOneMore(Next(w, evs[0]), evs[1..], e);
      assert (evs + [e])[1..] == evs[1..] + [e];
    }
  }

  lemma ReachableStep(w: World, e: Event)
    requires Reachable(w) && Enabled(w, e)
    ensures Reachable(Next(w, e))
  {
    var evs :| Legal(Init(w.sid), evs) && Run(Init(w.sid), evs) == w;
    RunOneMore(Init(w.sid), evs, e);
    ServerOnlyGrows(w, e);
  }

  lemma ReachableStart()
    ensures Reachable(Init("s"))
  {
    assert Legal(Init("s"), []);
  }

  const A: Option<string> := Some("A")
  const B: Option<string> := Some("B")

  // One completed turn under A, one under B, and the store written to disk.
  function TwoAccounts(): World {
    var cache := map["s:A" := Rec(Some("r1"), Some(1), A), "s" := Rec(Some("r2"), Some(1), B)];
    World("s", Some(Session(true, Open, B, Some("r2"), Some(1), false, true, false)),
          cache, cache, Quiet, map["r1" := ["a"], "r2" := ["a"]], ["a"], false, 1, 0)
  }

  function AfterFirstTurn(): World {
    World("s", Some(Session(true, Open, A, Some("r1"), Some(1), false, true, false)),
          map["s" := Rec(Some("r1"), Some(1), A)], map[], Quiet, map["r1" := ["a"]], ["a"], false, 1, 0)
  }

  // A's first call, waiting for its connection.
  function Waiting(): World {
    World("s", Some(Session(false, Idle, None, None, None, false, false, false)),
          map[], map[], Connecting(A, ["a"]), map[], ["a"], false, 1, 0)
  }

  // A's pair moved to its shard; B's call is waiting for its connection.
  function SwitchedToB(): World {
    World("s", Some(Session(false, Idle, A, None, None, false, true, false)),
          map["s:A" := Rec(Some("r1"), Some(1), A), "s" := Rec(Some("r1"), Some(1), A)], map[],
          Connecting(B, ["a"]), map["r1" := ["a"]], ["a"], false, 1, 0)
  }

  lemma WaitingIsReachable()
    ensures Reachable(Waiting())
  {
    ReachableStart();
    var w1 := Next(Init("s"), Grow(["a"]));
    ReachableStep(Init("s"), Grow(["a"]));
    ReachableStep(w1, Enter(A, false, false));
    assert w1.history == ["a"];
    assert Next(w1, Enter(A, false, false)) == Waiting();
  }

  lemma FirstTurnIsReachable()
    ensures Reachable(AfterFirstTurn())
  {
    WaitingIsReachable();
    var w3 := Next(Waiting(), ConnectOk);
    ReachableStep(Waiting(), ConnectOk);
    ReachableStep(w3, Completed(Some("r1")));
    assert Rebuilt(w3.server, w3.phase.req) == ["a"];
    assert Next(w3, Completed(Some("r1"))) == AfterFirstTurn();
  }

  lemma SwitchIsReachable()
    ensures Reachable(SwitchedToB())
  {
    FirstTurnIsReachable();
    var w := AfterFirstTurn();
    ReachableStep(w, Enter(B, false, false));
    assert ShardKey("s", "A") == "s:A" && ShardKey("s", "B") == "s:B";
    assert Next(w, Enter(B, false, false)) == SwitchedToB();
  }

  // B's request is on its way.
  function SentByB(): World {
    var w := SwitchedToB();
    w.(mem := Some(Session(true, Streaming, B, None, None, false, true, false)),
       phase := Probing(Fresh, B, Req(["a"], None, ["a"]), true))
  }

  lemma SentIsReachable()
    ensures Reachable(SentByB())
  {
    SwitchIsReachable();
    ReachableStep(SwitchedToB(), ConnectOk);
    assert Next(SwitchedToB(), ConnectOk) == SentByB();
  }

  lemma TwoAccountsIsReachable()
    ensures Reachable(TwoAccounts())
  {
    SentIsReachable();
    var w6 := SentByB();
    var w7 := Next(w6, Completed(Some("r2")));
    ReachableStep(w6, Completed(Some("r2")));
    ReachableStep(w7, Flush(true));
    assert Rebuilt(w6.server, w6.phase.req) == ["a"];
    assert w7.cache == TwoAccounts().cache;
    assert Next(w7, Flush(true)) == TwoAccounts();
  }

  // A's old pair, in a store the process has still to load.
  lemma StaleShardIsNotReady(w: World)
    requires w.sid == "s" && w.mem.None? && w.phase.Quiet? && w.cache == TwoAccounts().cache
    requires w.server == TwoAccounts().server && w.history == ["x"]
    ensures !Ready(w)
  {
    assert InFamily("s:A", "s") && "s:A" != "s" && ShardKey("s", "B") == "s:B" != "s:A";
    assert w.cache["s:A"] == Rec(Some("r1"), Some(1), A);
    assert !(["a"] <= ["x"]) by { assert ["a"][0] != ["x"][0]; }
  }

  /** A compaction whose clearing of the store is not written yet: only the file is stale. */
  lemma RestartFromStaleFile() returns (w: World)
    ensures Reachable(w) && w.phase.Quiet? && Ready(w) && StoreReady(w, w.cache)
    ensures !StoreReady(w, w.disk) && !Safe(w, Restart(true)) && !Ready(Next(w, Restart(true)))
  {
    TwoAccountsIsReachable();
    w := Next(TwoAccounts(), Reset(["x"]));
    ReachableStep(TwoAccounts(), Reset(["x"]));
    StaleShardIsNotReady(Restarted(w));
    RestartedIsReady(w);
    assert Next(w, Restart(true)) == Restarted(w);
  }

  lemma RestartedIsReady(w: World)
    ensures Ready(Restarted(w)) <==> StoreReady(w, w.disk)
  {
  }

  /** Compacting a session that this process has not loaded yet. */
  lemma CompactionBeforeLoad() returns (w: World)
    ensures Reachable(w) && Enabled(w, Reset(["x"])) && !Safe(w, Reset(["x"]))
    ensures var v := Next(w, Reset(["x"])); v.phase.Quiet? && !Ready(v)
  {
    TwoAccountsIsReachable();
    w := Next(TwoAccounts(), Restart(true));
    ReachableStep(TwoAccounts(), Restart(true));
    StaleShardIsNotReady(Next(w, Reset(["x"])));
  }

  /** Compacting by clearing the store alone: the pair in memory stays. */
  lemma CompactionOfStoreOnly() returns (w: World)
    ensures Reachable(w) && Enabled(w, Scrub(["x"])) && !Safe(w, Scrub(["x"]))
    ensures var v := Next(w, Scrub(["x"])); v.phase.Quiet? && !Ready(v)
  {
    FirstTurnIsReachable();
    w := AfterFirstTurn();
    assert !(["a"] <= ["x"]) by { assert ["a"][0] != ["x"][0]; }
  }

  /** Compacting while a call waits for its connection: the old input completes afterwards. */
  lemma CompactionDuringConnect() returns (w: World)
    ensures Reachable(w) && Enabled(w, Reset(["x"])) && !Safe(w, Reset(["x"]))
    ensures var v := Next(w, Reset(["x"]));
            && Enabled(v, ConnectOk) && Enabled(Next(v, ConnectOk), Completed(Some("r1")))
            && var u := Next(Next(v, ConnectOk), Completed(Some("r1")));
               u.phase.Quiet? && !Ready(u)
  {
    WaitingIsReachable();
    w := Waiting();
    var v := Next(w, Reset(["x"]));
    OldInputCompletes(v);
  }

  lemma OldInputCompletes(v: World)
    requires v.sid == "s" && v.mem == Waiting().mem && v.phase == Waiting().phase
    requires v.server == map[] && v.history == ["x"]
    ensures Enabled(v, ConnectOk) && Enabled(Next(v, ConnectOk), Completed(Some("r1")))
    ensures var u := Next(Next(v, ConnectOk), Completed(Some("r1")));
            u.phase.Quiet? && !Ready(u)
  {
    var v1 := Next(v, ConnectOk);
    assert v1.phase.req == Req(["a"], None, ["a"]);
    var u := Next(v1, Completed(Some("r1")));
    assert u.server["r1"] == ["a"] && u.history == ["x"] && u.mem.value.id == Some("r1");
    assert !(["a"] <= ["x"]) by { assert ["a"][0] != ["x"][0]; }
  }

  // An empty first request has completed, and the history has one item since.
  function AfterEmptyTurn(): World {
    World("s", Some(Session(true, Open, A, Some("r1"), Some(0), false, true, false)),
          map["s" := Rec(Some("r1"), Some(0), A)], map[], Quiet, map["r1" := []], ["a"], false, 0, 0)
  }

  lemma EmptyTurnIsReachable()
    ensures Reachable(AfterEmptyTurn())
  {
    ReachableStart();
    var w1 := Next(Init("s"), Enter(A, false, false));
    ReachableStep(Init("s"), Enter(A, false, false));
    assert w1.phase == Connecting(A, []) && w1.mem == Some(Session(false, Idle, None, None, None, false, false, false));
    var w2 := Next(w1, ConnectOk);
    ReachableStep(w1, ConnectOk);
    assert w2.phase == Probing(Fresh, A, Req([], None, []), true);
    var w3 := Next(w2, Completed(Some("r1")));
    ReachableStep(w2, Completed(Some("r1")));
    ReachableStep(w3, Grow(["a"]));
    assert Next(w3, Grow(["a"])) == AfterEmptyTurn();
  }

  /** An empty first request that completes makes the next, longer one trip the gate. */
  lemma EmptyRequestTripsTheGate()
    ensures var w := AfterEmptyTurn();
            && Reachable(w) && w.phase.Quiet? && w.resets == 0 && |w.history| > w.longest
            && SendsOnEmptyPair(w, Enter(A, false, true)) && Next(w, Enter(A, false, true)).resets == 1
  {
    EmptyTurnIsReachable();
    var w := AfterEmptyTurn();
    var v := w.(longest := 1);
    assert SwitchAccount(DropUnconfirmed(w, GetSession(w)), A).(longest := |w.history|) == v;
    assert PlanDeltaTrim(true, 1, Some(0)) == ChainReset;
  }
}
