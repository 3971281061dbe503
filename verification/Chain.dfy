/**
 * The codex continuation chain of one session as a step system
 * (packages/provider-codex/src/transport-ws.ts): what the client remembers, what is in
 * the continuation store and its file, the request in flight, and, as ghost state, the
 * input items the server holds for each response id.
 *
 * `Next` is the specification the class in WsTransport.dfy implements; the theorems
 * about whole runs are in ChainProofs.dfy.
 */
module Chain {
  import opened Util
  import opened Continuation

  type Item = string

  datatype Status = Idle | Open | Streaming | Failed

  datatype Session = Session(
    ws: bool, status: Status, account: Option<string>,
    id: Option<string>, len: Option<nat>,
    disabled: bool, validated: bool, fromDisk: bool)

  // A request on the wire: the caller's full input, the id it extends, the items sent.
  datatype Req = Req(full: seq<Item>, prev: Option<string>, sent: seq<Item>)

  // Which of the three wsRequest calls inside tryWsTransport is waiting for its first frame.
  datatype Via = Reuse | Fresh | Retry

  // `live` is false once the socket was closed locally: no message arrives after that.
  datatype Phase =
    | Quiet
    | Connecting(account: Option<string>, input: seq<Item>)
    | Probing(via: Via, account: Option<string>, req: Req, live: bool)
    | Forwarding(req: Req)

  // `longest` is the length of the longest request since the last compaction, -1 before any.
  datatype World = World(
    sid: string,
    mem: Option<Session>,
    cache: Store,
    disk: Store,
    phase: Phase,
    server: map<string, seq<Item>>,
    history: seq<Item>,
    staleDisk: bool,
    longest: int,
    resets: nat)

  datatype Event =
    | Grow(items: seq<Item>)
    | Reset(compacted: seq<Item>)
    | Scrub(compacted: seq<Item>)
    | Close
    | BackgroundClose
    | Enter(account: Option<string>, healed: bool, alive: bool)
    | ConnectOk
    | ConnectFail
    | FirstFrame
    | Completed(responseId: Option<string>)
    | Incomplete
    | ResponseFailed
    | ErrorFrame
    | NotFound(wsOpen: bool)
    | WsError
    | WsClose
    | IdleTimeout
    | SendTimeout
    | ProbeTimeout
    | LateIdleTimer(open: bool)
    | Flush(ok: bool)
    | Restart(readable: bool)
    | OtherSessions(writes: Store)

  function Init(sid: string): World {
    World(sid, None, map[], map[], Quiet, map[], [], false, -1, 0)
  }

  // JavaScript truthiness of an optional id.
  predicate Truthy(id: Option<string>) {
    id.Some? && id.value != ""
  }

  // How an optional account id prints inside a template string.
  function Show(account: Option<string>): string {
    account.GetOr("undefined")
  }

  // ---- planDeltaTrim ----

  datatype DeltaPlan = Full | Delta(sliceFrom: nat) | ChainReset

  function PlanDeltaTrim(hasPrevResp: bool, inputLength: nat, lastInputLength: Option<nat>): DeltaPlan {
    if !hasPrevResp then Full
    else
      var lastLen := lastInputLength.GetOr(0);
      if lastLen > 0 && inputLength > lastLen then Delta(lastLen) else ChainReset
  }

  /** The client's own steps leave the server, the file and the history alone. */
  predicate SameSurroundings(w: World, v: World) {
    && v.sid == w.sid && v.server == w.server && v.disk == w.disk
    && v.history == w.history && v.staleDisk == w.staleDisk
  }

  // ---- the pieces of a step ----

  function Load(cache: Store, sid: string): Session {
    var r := Get(cache, sid);
    Session(false, Idle, r.account, r.id, r.len, false, false, Truthy(r.id))
  }

  function GetSession(w: World): Session {
    if w.mem.Some? then w.mem.value else Load(w.cache, w.sid)
  }

  predicate Droppable(s: Session) {
    s.fromDisk && !s.validated && Truthy(s.id)
  }

  /** doInvalidate: forget the pair in memory and in every record of the family. */
  function DoInvalidate(w: World, status: Status): (v: World)
    requires w.mem.Some?
    ensures SameSurroundings(w, v) && v.mem.Some? && v.phase == w.phase && v.longest == w.longest && v.resets == w.resets
  {
    w.(mem := Some(w.mem.value.(id := None, len := None, status := status)),
       cache := InvalidateFamily(w.cache, w.sid))
  }

  /** wsRequest up to `ws.send`; `chained` is false on the stateless retry. */
  function Send(w: World, via: Via, account: Option<string>, input: seq<Item>, chained: bool): (v: World)
    requires w.mem.Some?
    ensures SameSurroundings(w, v) && v.mem.Some? && v.longest == w.longest
  {
    var s := w.mem.value;
    match PlanDeltaTrim(chained && Truthy(s.id), |input|, s.len)
    case Full =>
      w.(mem := Some(s.(status := Streaming)), phase := Probing(via, account, Req(input, None, input), true))
    case Delta(n) =>
      w.(mem := Some(s.(status := Streaming)), phase := Probing(via, account, Req(input, s.id, input[n..]), true))
    case ChainReset =>
      DoInvalidate(w, Streaming).(
      phase := Probing(via, account, Req(input, None, input), true),
      resets := w.resets + 1)
  }

  /** Drop a pair that was loaded from disk and never confirmed by this process. */
  function DropUnconfirmed(w: World, s: Session): (v: World)
    ensures SameSurroundings(w, v) && v.mem.Some? && v.phase == w.phase && v.longest == w.longest && v.resets == w.resets
  {
    if Droppable(s) then
      w.(mem := Some(s.(id := None, len := None)), cache := Invalidate(w.cache, w.sid))
    else w.(mem := Some(s))
  }

  /** Account switch: keep the old account's pair in its shard, take the new account's. */
  function SwitchAccount(w: World, account: Option<string>): (v: World)
    requires w.mem.Some?
    ensures SameSurroundings(w, v) && v.mem.Some? && v.phase == w.phase && v.longest == w.longest && v.resets == w.resets
  {
    var s := w.mem.value;
    if s.account.Some? && s.account != account then
      var cache := w.cache[ShardKey(w.sid, s.account.value) := Rec(s.id, s.len, s.account)];
      var restored := Get(cache, ShardKey(w.sid, Show(account)));
      w.(mem := Some(s.(ws := false, status := Idle, disabled := false, id := restored.id, len := restored.len)),
         cache := cache)
    else w
  }

  /** The cooldown gate, then the reuse of an open socket or the start of a connect. */
  function Resume(w: World, account: Option<string>, healed: bool, alive: bool): (v: World)
    requires w.mem.Some?
    ensures SameSurroundings(w, v) && v.mem.Some? && v.longest == w.longest
  {
    var s := w.mem.value;
    if s.disabled && !healed then w
    else if s.ws && s.status == Open && alive then
      Send(w.(mem := Some(s.(disabled := false))), Reuse, account, w.history, true)
    else
      w.(mem := Some(s.(disabled := false, ws := false, status := if s.ws then Failed else s.status)),
         phase := Connecting(account, w.history))
  }

  /** tryWsTransport until its first await. */
  function EnterTurn(w: World, account: Option<string>, healed: bool, alive: bool): (v: World)
    ensures SameSurroundings(w, v) && v.mem.Some? && v.longest == |w.history|
  {
    Resume(SwitchAccount(DropUnconfirmed(w, GetSession(w)), account).(longest := |w.history|), account, healed, alive)
  }

  /** A wsRequest call ended without a first event: what tryWsTransport does next. */
  function AfterFailedProbe(w: World, via: Via, account: Option<string>, input: seq<Item>): (v: World)
    requires w.mem.Some?
    ensures SameSurroundings(w, v) && v.mem.Some? && v.longest == w.longest && v.resets == w.resets
  {
    var s := w.mem.value.(ws := false, status := Failed);
    if via == Reuse then w.(mem := Some(s), phase := Connecting(account, input))
    else w.(mem := Some(s.(disabled := true)), phase := Quiet)
  }

  function InFlight(p: Phase): Option<Req> {
    match p
    case Probing(_, _, req, live) => if live then Some(req) else None
    case Forwarding(req) => Some(req)
    case _ => None
  }

  /** What the server holds for a request: the items under its previous id, then the slice sent. */
  function Rebuilt(server: map<string, seq<Item>>, req: Req): seq<Item> {
    (if req.prev.Some? && req.prev.value in server then server[req.prev.value] else []) + req.sent
  }

  predicate Enabled(w: World, e: Event) {
    match e
    case Enter(_, _, _) => w.phase.Quiet?
    case ConnectOk => w.phase.Connecting? && w.mem.Some?
    case ConnectFail => w.phase.Connecting? && w.mem.Some?
    case FirstFrame => w.phase.Probing? && w.phase.live && w.mem.Some?
    case Completed(responseId) =>
      && w.mem.Some?
      && var req := InFlight(w.phase);
      && req.Some?
      && (req.value.prev.Some? ==> req.value.prev.value in w.server)
      && (Truthy(responseId) ==> responseId.value !in w.server)
    case Incomplete => InFlight(w.phase).Some? && w.mem.Some?
    case ResponseFailed => InFlight(w.phase).Some? && w.mem.Some?
    case ErrorFrame => InFlight(w.phase).Some? && w.mem.Some?
    case NotFound(_) => InFlight(w.phase).Some? && w.mem.Some?
    case WsError => InFlight(w.phase).Some? && w.mem.Some?
    case WsClose => InFlight(w.phase).Some? && w.mem.Some?
    case IdleTimeout => (w.phase.Probing? || w.phase.Forwarding?) && w.mem.Some?
    case SendTimeout => w.phase.Probing? && w.phase.live && w.mem.Some?
    case ProbeTimeout => w.phase.Probing? && w.mem.Some?
    case LateIdleTimer(_) => w.mem.Some?
    case BackgroundClose => w.phase.Quiet? && w.mem.Some? && w.mem.value.status == Open
    case Close => w.mem.Some?
    case OtherSessions(writes) => forall k :: k in writes ==> !InFamily(k, w.sid)
    case _ => true
  }

  // The socket was closed on this side: a streaming request is over, a pending call hears nothing more.
  function Silence(p: Phase): Phase {
    match p
    case Forwarding(_) => Quiet
    case Probing(via, account, req, _) => Probing(via, account, req, false)
    case _ => p
  }

  /** resetWsSession after a compaction; it does nothing for a session not in memory. */
  function Compact(w: World, compacted: seq<Item>): World {
    var w := w.(history := compacted, longest := -1, staleDisk := true);
    if w.mem.None? then w
    else DoInvalidate(w.(mem := Some(w.mem.value.(ws := false)), phase := Silence(w.phase)), Idle)
  }

  /** A compaction that calls invalidateContinuationFamily itself: only the store is cleared. */
  function ScrubStore(w: World, compacted: seq<Item>): World {
    w.(history := compacted, longest := -1, staleDisk := true, cache := InvalidateFamily(w.cache, w.sid))
  }

  /** The response.completed frame: commit the pair, and what the server now holds. */
  function Complete(w: World, responseId: Option<string>, req: Req): World
    requires w.mem.Some?
  {
    var s := w.mem.value.(validated := true, fromDisk := false, status := Open);
    if Truthy(responseId) then
      w.(mem := Some(s.(id := responseId, len := Some(|req.full|))),
         cache := w.cache[w.sid := Rec(responseId, Some(|req.full|), s.account)],
         server := w.server[responseId.value := Rebuilt(w.server, req)],
         phase := Quiet)
    else w.(mem := Some(s), phase := Quiet)
  }

  function Next(w: World, e: Event): World
    requires Enabled(w, e)
  {
    match e
    case Grow(items) => w.(history := w.history + items)
    case Reset(compacted) => Compact(w, compacted)
    case Scrub(compacted) => ScrubStore(w, compacted)
    case Close =>
      if w.mem.value.ws then
        w.(mem := Some(w.mem.value.(ws := false, status := Idle)), phase := Silence(w.phase))
      else w
    case BackgroundClose => w.(mem := Some(w.mem.value.(ws := false, status := Idle)))
    case Enter(account, healed, alive) => EnterTurn(w, account, healed, alive)
    case ConnectOk =>
      var account := w.phase.account;
      Send(w.(mem := Some(w.mem.value.(ws := true, status := Open, account := account))),
           Fresh, account, w.phase.input, true)
    case ConnectFail =>
      w.(mem := Some(w.mem.value.(ws := false, status := Failed, disabled := true)), phase := Quiet)
    case FirstFrame => w.(phase := Forwarding(w.phase.req))
    case Completed(responseId) => Complete(w, responseId, InFlight(w.phase).value)
    case Incomplete => DoInvalidate(w, Open).(phase := Quiet)
    case ResponseFailed => DoInvalidate(w, Failed).(phase := Quiet)
    case ErrorFrame =>
      var w' := DoInvalidate(w, Failed);
      if w.phase.Probing? then AfterFailedProbe(w', w.phase.via, w.phase.account, w.phase.req.full)
      else w'.(phase := Quiet)
    case NotFound(wsOpen) =>
      var w' := DoInvalidate(w, Failed);
      if w.phase.Forwarding? then w'.(phase := Quiet)
      else if w.phase.via == Fresh && wsOpen then Send(w', Retry, w.phase.account, w.phase.req.full, false)
      else AfterFailedProbe(w', w.phase.via, w.phase.account, w.phase.req.full)
    case WsError => StreamEnded(DoInvalidate(w, Open))
    case WsClose =>
      if w.mem.value.status == Streaming then StreamEnded(DoInvalidate(w, Open))
      else w.(phase := Silence(w.phase))
    case IdleTimeout => StreamEnded(DoInvalidate(w, Open))
    case SendTimeout =>
      StreamEnded(w.(mem := Some(w.mem.value.(status := Open))))
    case ProbeTimeout =>
      var s := w.mem.value.(id := None, len := None, disabled := true);
      AfterFailedProbe(w.(mem := Some(s), cache := Invalidate(w.cache, w.sid)),
                       w.phase.via, w.phase.account, w.phase.req.full)
    case LateIdleTimer(open) => DoInvalidate(w, if open then Open else Failed)
    case Flush(ok) => if ok then w.(disk := w.cache, staleDisk := false) else w
    case Restart(readable) =>
      w.(mem := None, phase := Quiet, cache := if readable then w.disk else map[])
    case OtherSessions(writes) => w.(cache := w.cache + writes)
  }

  /** The event stream closed without a first event (probe: "done"), or after one. */
  function StreamEnded(w: World): (v: World)
    requires w.mem.Some?
    ensures SameSurroundings(w, v) && v.mem.Some? && v.longest == w.longest && v.resets == w.resets
  {
    if w.phase.Probing? then
      AfterFailedProbe(w.(mem := Some(w.mem.value.(disabled := true))), w.phase.via, w.phase.account, w.phase.req.full)
    else w.(phase := Quiet)
  }
}
