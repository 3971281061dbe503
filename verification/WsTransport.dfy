/**
 * The session state of the WebSocket transport, updated in place by tryWsTransport, by
 * wsRequest's socket handlers and by the reset and close calls
 * (packages/provider-codex/src/transport-ws.ts). Each method is one uninterrupted stretch
 * of that code and takes the abstract world one step of Chain.Next.
 */
module WsTransport {
  import opened Util
  import opened Continuation
  import opened Chain

  class WsSession {
    const sid: string
    const store: ContinuationStore

    var inMemory: bool // an entry exists in the `sessions` map
    var ws: bool
    var status: Status
    var accountId: Option<string>
    var lastResponseId: Option<string>
    var lastInputLength: Option<nat>
    var disableWebsockets: bool
    var validatedInProcess: bool
    var continuationFromDisk: bool
    var phase: Phase

    ghost var server: map<string, seq<Item>>
    ghost var history: seq<Item>
    ghost var staleDisk: bool
    ghost var longest: int
    ghost var resets: nat

    ghost function Abs(): World
      reads this, store
    {
      World(sid,
            if inMemory then
              Some(Session(ws, status, accountId, lastResponseId, lastInputLength,
                           disableWebsockets, validatedInProcess, continuationFromDisk))
            else None,
            store.cache, store.disk, phase, server, history, staleDisk, longest, resets)
    }

    constructor (sid: string)
      ensures Abs() == Init(sid) && this.sid == sid && fresh(store)
    {
      this.sid := sid;
      store := new ContinuationStore();
      inMemory := false;
      ws, status, accountId := false, Idle, None;
      lastResponseId, lastInputLength := None, None;
      disableWebsockets, validatedInProcess, continuationFromDisk := false, false, false;
      phase := Quiet;
      server, history, staleDisk, longest, resets := map[], [], false, -1, 0;
    }

    method GetSession()
      modifies this
      ensures Abs() == old(Abs()).(mem := Some(Chain.GetSession(old(Abs()))))
      ensures inMemory
    {
      if !inMemory {
        var persisted := store.GetContinuation(sid);
        Hydrate(persisted);
      }
    }

    method Hydrate(persisted: Rec)
      modifies this`inMemory, this`ws, this`status, this`disableWebsockets, this`lastResponseId, this`lastInputLength
      modifies this`accountId, this`validatedInProcess, this`continuationFromDisk
      ensures inMemory && !ws && status == Idle && !disableWebsockets && !validatedInProcess
      ensures lastResponseId == persisted.id && lastInputLength == persisted.len && accountId == persisted.account
      ensures continuationFromDisk == Truthy(persisted.id)
    {
      inMemory := true;
      ws := false;
      status := Idle;
      disableWebsockets := false;
      lastResponseId := persisted.id;
      lastInputLength := persisted.len;
      accountId := persisted.account;
      validatedInProcess := false;
      continuationFromDisk := Truthy(persisted.id);
    }

    method DoInvalidate(s: Status)
      requires inMemory
      modifies this`lastResponseId, this`lastInputLength, this`status, store
      ensures Abs() == Chain.DoInvalidate(old(Abs()), s)
    {
      lastResponseId := None;
      lastInputLength := None;
      status := s;
      store.InvalidateContinuationFamily(sid);
    }

    /** The Reset step of Chain.Next. */
    method ResetWsSession(ghost compacted: seq<Item>)
      modifies this, store
      ensures Abs() == Compact(old(Abs()), compacted)
    {
      history, longest, staleDisk := compacted, -1, true;
      if inMemory {
        ws := false;
        phase := Silence(phase);
        ghost var was := old(Abs()).(history := compacted, longest := -1, staleDisk := true);
        assert Abs() == was.(mem := Some(was.mem.value.(ws := false)), phase := Silence(was.phase));
        DoInvalidate(Idle);
      }
    }

    /** A compaction by way of invalidateContinuationFamily alone. */
    method OnScrub(ghost compacted: seq<Item>)
      modifies this`history, this`longest, this`staleDisk, store
      ensures Abs() == Next(old(Abs()), Scrub(compacted))
    {
      history, longest, staleDisk := compacted, -1, true;
      store.InvalidateContinuationFamily(sid);
    }

    method CloseWsSession()
      modifies this
      ensures Abs() == if old(inMemory) then Next(old(Abs()), Close) else old(Abs())
    {
      if inMemory && ws {
        ws := false;
        status := Idle;
        phase := Silence(phase);
      }
    }

    /** wsRequest: trim the input to what the server does not hold, and send. */
    method WsRequest(via: Via, account: Option<string>, input: seq<Item>, chained: bool)
      requires inMemory
      modifies this, store
      ensures Abs() == Chain.Send(old(Abs()), via, account, input, chained)
      ensures inMemory
    {
      var prev: Option<string> := None;
      var sent := input;
      if chained && Truthy(lastResponseId) {
        prev := lastResponseId;
        var plan := PlanDeltaTrim(true, |input|, lastInputLength);
        if plan.Delta? {
          sent := input[plan.sliceFrom..];
        } else if plan.ChainReset? {
          prev := None;
          DoInvalidate(status);
          resets := resets + 1;
        }
      }
      status := Streaming;
      phase := Probing(via, account, Req(input, prev, sent), true);
    }

    method DropUnconfirmedPair()
      requires inMemory
      modifies this, store
      ensures Abs() == DropUnconfirmed(old(Abs()), old(Abs()).mem.value) && inMemory
    {
      if continuationFromDisk && !validatedInProcess && Truthy(lastResponseId) {
        lastResponseId := None;
        lastInputLength := None;
        store.InvalidateContinuation(sid);
      }
    }

    method SwitchAccount(account: Option<string>)
      requires inMemory
      modifies this, store
      ensures Abs() == Chain.SwitchAccount(old(Abs()), account) && inMemory
    {
      if accountId.Some? && accountId != account {
        store.UpdateContinuation(ShardKey(sid, accountId.value), Patch(Some(lastResponseId), Some(lastInputLength), Some(accountId)));
        ws := false;
        status := Idle;
        disableWebsockets := false;
        var restored := store.GetContinuation(ShardKey(sid, Show(account)));
        lastResponseId := restored.id;
        lastInputLength := restored.len;
      }
    }

    method Resume(account: Option<string>, input: seq<Item>, healed: bool, alive: bool)
      requires inMemory && input == history
      modifies this, store
      ensures Abs() == Chain.Resume(old(Abs()), account, healed, alive)
    {
      if disableWebsockets && !healed {
        return;
      }
      disableWebsockets := false;
      if ws && status == Open && alive {
        WsRequest(Reuse, account, input, true);
      } else {
        if ws {
          ws := false;
          status := Failed;
        }
        phase := Connecting(account, input);
      }
    }

    /** tryWsTransport up to its first await. */
    method EnterTurn(account: Option<string>, input: seq<Item>, healed: bool, alive: bool)
      requires phase.Quiet? && input == history
      modifies this, store
      ensures Abs() == Next(old(Abs()), Enter(account, healed, alive))
    {
      GetSession();
      DropUnconfirmedPair();
      assert Abs() == DropUnconfirmed(old(Abs()), Chain.GetSession(old(Abs())));
      SwitchAccount(account);
      longest := |history|;
      Resume(account, input, healed, alive);
    }

    method OnConnected()
      requires phase.Connecting? && inMemory
      modifies this, store
      ensures Abs() == Next(old(Abs()), ConnectOk)
    {
      ws := true;
      status := Open;
      accountId := phase.account;
      WsRequest(Fresh, phase.account, phase.input, true);
    }

    method OnConnectFailed()
      requires phase.Connecting? && inMemory
      modifies this
      ensures Abs() == Next(old(Abs()), ConnectFail)
    {
      FallBackToHttp();
    }

    method FallBackToHttp()
      requires inMemory
      modifies this
      ensures Abs() == old(Abs()).(
                       mem := Some(old(Abs()).mem.value.(ws := false, status := Failed, disabled := true)),
                       phase := Quiet)
    {
      disableWebsockets := true;
      ws := false;
      status := Failed;
      phase := Quiet;
    }

    /** Neither probe nor stream produced an event: connect afresh, or give up on sockets. */
    method ProbeFailed()
      requires phase.Probing? && inMemory
      modifies this
      ensures Abs() == AfterFailedProbe(old(Abs()), old(phase).via, old(phase).account, old(phase).req.full)
    {
      if phase.via == Reuse {
        ws := false;
        status := Failed;
        phase := Connecting(phase.account, phase.req.full);
      } else {
        FallBackToHttp();
      }
    }

    method EndStream()
      requires inMemory
      modifies this
      ensures Abs() == StreamEnded(old(Abs()))
    {
      if phase.Probing? {
        disableWebsockets := true;
        ProbeFailed();
      } else {
        phase := Quiet;
      }
    }

    method OnFirstFrame()
      requires phase.Probing? && phase.live && inMemory
      modifies this
      ensures Abs() == Next(old(Abs()), FirstFrame)
    {
      phase := Forwarding(phase.req);
    }

    method CommitPair(responseId: Option<string>, fullInputLength: nat)
      requires inMemory
      modifies this`lastResponseId, this`lastInputLength, store
      ensures Abs() == old(Abs()).(
                       mem := Some(old(Abs()).mem.value.(id := responseId, len := Some(fullInputLength))),
                       cache := old(Abs()).cache[sid := Rec(responseId, Some(fullInputLength), accountId)])
    {
      lastResponseId := responseId;
      lastInputLength := Some(fullInputLength);
      store.UpdateContinuation(sid, Patch(Some(responseId), Some(Some(fullInputLength)), Some(accountId)));
    }

    method Confirm()
      modifies this`validatedInProcess, this`continuationFromDisk, this`status
      ensures validatedInProcess && !continuationFromDisk && status == Open
    {
      validatedInProcess := true;
      continuationFromDisk := false;
      status := Open;
    }

    /** The Completed step of Chain.Next. */
    method OnCompleted(responseId: Option<string>)
      requires InFlight(phase).Some? && inMemory
      modifies this, store
      ensures Abs() == Complete(old(Abs()), responseId, old(phase).req)
    {
      var fullInputLength := |phase.req.full|;
      Confirm();
      if Truthy(responseId) {
        CommitPair(responseId, fullInputLength);
        server := server[responseId.value := Rebuilt(server, phase.req)];
      }
      phase := Quiet;
    }

    method OnIncomplete()
      requires InFlight(phase).Some? && inMemory
      modifies this, store
      ensures Abs() == Next(old(Abs()), Incomplete)
    {
      DoInvalidate(Open);
      phase := Quiet;
    }

    method OnResponseFailed()
      requires InFlight(phase).Some? && inMemory
      modifies this, store
      ensures Abs() == Next(old(Abs()), ResponseFailed)
    {
      DoInvalidate(Failed);
      phase := Quiet;
    }

    method OnErrorFrame()
      requires InFlight(phase).Some? && inMemory
      modifies this, store
      ensures Abs() == Next(old(Abs()), ErrorFrame)
    {
      DoInvalidate(Failed);
      if phase.Probing? {
        ProbeFailed();
      } else {
        phase := Quiet;
      }
    }

    method OnPreviousResponseNotFound(wsOpen: bool)
      requires InFlight(phase).Some? && inMemory
      modifies this, store
      ensures Abs() == Next(old(Abs()), NotFound(wsOpen))
    {
      DoInvalidate(Failed);
      if phase.Forwarding? {
        phase := Quiet;
      } else if phase.via == Fresh && wsOpen {
        WsRequest(Retry, phase.account, phase.req.full, false);
      } else {
        ProbeFailed();
      }
    }

    method OnWsError()
      requires InFlight(phase).Some? && inMemory
      modifies this, store
      ensures Abs() == Next(old(Abs()), WsError)
    {
      DoInvalidate(Open);
      EndStream();
    }

    method OnWsClose()
      requires InFlight(phase).Some? && inMemory
      modifies this, store
      ensures Abs() == Next(old(Abs()), WsClose)
    {
      if status == Streaming {
        DoInvalidate(Open);
        EndStream();
      } else {
        phase := Silence(phase);
      }
    }

    method OnIdleTimeout()
      requires (phase.Probing? || phase.Forwarding?) && inMemory
      modifies this, store
      ensures Abs() == Next(old(Abs()), IdleTimeout)
    {
      DoInvalidate(Open);
      EndStream();
    }

    method OnSendTimeout()
      requires phase.Probing? && phase.live && inMemory
      modifies this
      ensures Abs() == Next(old(Abs()), SendTimeout)
    {
      status := Open;
      EndStream();
    }

    method OnProbeTimeout()
      requires phase.Probing? && inMemory
      modifies this, store
      ensures Abs() == Next(old(Abs()), ProbeTimeout)
    {
      ForgetPair();
      disableWebsockets := true;
      ProbeFailed();
    }

    /** The pair in memory and in the base record; the shards keep theirs. */
    method ForgetPair()
      requires inMemory
      modifies this`lastResponseId, this`lastInputLength, store
      ensures Abs() == old(Abs()).(
                       mem := Some(old(Abs()).mem.value.(id := None, len := None)),
                       cache := Invalidate(old(Abs()).cache, sid))
    {
      lastResponseId := None;
      lastInputLength := None;
      store.InvalidateContinuation(sid);
    }

    /** The idle timer of an abandoned request fires after all. */
    method OnLateIdleTimer(open: bool)
      requires inMemory
      modifies this, store
      ensures Abs() == Next(old(Abs()), LateIdleTimer(open))
    {
      DoInvalidate(if open then Open else Failed);
    }

    method OnFlushTimer(ok: bool)
      modifies this, store
      ensures Abs() == Next(old(Abs()), Flush(ok && old(store.dirty)))
    {
      if ok && store.dirty {
        staleDisk := false;
      }
      store.Flush(ok);
    }

    method RestartProcess(readable: bool)
      modifies this, store
      ensures Abs() == Next(old(Abs()), Restart(readable))
    {
      inMemory := false;
      phase := Quiet;
      store.Restart(readable);
    }
  }
}
