/**
 * The ring of PAM jobs shared by the gateway's main loop and its worker threads
 * (daemon/opencode-gateway.c): every step is one critical section, or one access outside a
 * critical section, of submit_auth_job_ex, auth_thread_fn or drain_auth_completions.
 * The ring's size is a parameter.
 */
module AuthRing {
  import opened Util

  // A slot. `ticket` identifies the submission; it is bookkeeping of the model.
  datatype Job = Job(ticket: nat, request: string, result: bool, done: bool)

  // What a worker thread does next. `slot` is the pointer it was given.
  datatype WorkerPc = Authenticating | Marking | Signalling

  datatype Worker = Worker(slot: nat, pc: WorkerPc)

  datatype MainPc = Idle | Creating(ticket: nat, request: string, slot: nat) | Draining

  datatype Answer = Answer(ticket: nat, request: string, result: bool)

  datatype Ring = Ring(
    slots: seq<Job>, head: nat, tail: nat,
    workers: map<nat, Worker>,
    main: MainPc,
    eventfd: nat,
    next: nat,
    accepted: seq<(nat, string)>,
    answered: seq<Answer>,
    verdicts: map<nat, (string, bool)>)

  const EMPTY_JOB := Job(0, "", false, false)

  function Start(size: nat): Ring {
    Ring(seq(size, _ => EMPTY_JOB), 0, 0, map[], Idle, 0, 0, [], [], map[])
  }

  datatype Step =
    | Submit(request: string)
    | Create(ok: bool)
    | Authenticate(ticket: nat, verdict: bool)
    | MarkDone(ticket: nat)
    | Signal(ticket: nat)
    | BeginDrain
    | DrainOne

  predicate Enabled(r: Ring, s: Step) {
    match s
    case Submit(_) => r.main.Idle?
    case Create(_) => r.main.Creating?
    case Authenticate(t, _) => t in r.workers && r.workers[t].pc.Authenticating? && r.workers[t].slot < |r.slots|
    case MarkDone(t) => t in r.workers && r.workers[t].pc.Marking? && r.workers[t].slot < |r.slots|
    case Signal(t) => t in r.workers && r.workers[t].pc.Signalling?
    case BeginDrain => r.main.Idle? && r.eventfd > 0
    case DrainOne => r.main.Draining?
  }

  function Next(r: Ring, s: Step): Ring
    requires Enabled(r, s) && r.head < |r.slots| && r.tail < |r.slots|
  {
    var n := |r.slots|;
    match s
    case Submit(request) =>
      var next := (r.tail + 1) % n;
      if next == r.head then r
      else
        r.(slots := r.slots[r.tail := Job(r.next, request, false, false)], tail := next, next := r.next + 1,
           main := Creating(r.next, request, r.tail))
    case Create(ok) =>
      if ok then
        r.(workers := r.workers[r.main.ticket := Worker(r.main.slot, Authenticating)],
           accepted := r.accepted + [(r.main.ticket, r.main.request)], main := Idle)
      else r.(tail := (r.tail - 1 + n) % n, main := Idle)
    case Authenticate(t, verdict) =>
      var slot := r.workers[t].slot;
      r.(slots := r.slots[slot := r.slots[slot].(result := verdict)],
         verdicts := r.verdicts[t := (r.slots[slot].request, verdict)],
         workers := r.workers[t := Worker(slot, Marking)])
    case MarkDone(t) =>
      var slot := r.workers[t].slot;
      r.(slots := r.slots[slot := r.slots[slot].(done := true)],
         workers := r.workers[t := Worker(slot, Signalling)])
    case Signal(t) => r.(eventfd := r.eventfd + 1, workers := r.workers - {t})
    case BeginDrain => r.(eventfd := 0, main := Draining)
    case DrainOne =>
      if r.head == r.tail || !r.slots[r.head].done then r.(main := Idle)
      else
        var job := r.slots[r.head];
        r.(head := (r.head + 1) % n, answered := r.answered + [Answer(job.ticket, job.request, job.result)])
  }

  // ---- the queue the ring holds ----

  function Wrap(x: nat, n: nat): nat {
    if x < n then x else if x < 2 * n then x - n else 0
  }

  function Len(r: Ring): nat
    requires r.head < |r.slots| && r.tail < |r.slots|
  {
    if r.tail >= r.head then r.tail - r.head else r.tail + |r.slots| - r.head
  }

  function At(r: Ring, i: nat): nat {
    Wrap(r.head + i, |r.slots|)
  }

  /** The jobs between head and tail, oldest first. */
  function Pending(r: Ring): seq<Job>
    requires r.head < |r.slots| && r.tail < |r.slots|
  {
    seq(Len(r), i requires 0 <= i < Len(r) => r.slots[At(r, i)])
  }

  lemma WrapsAround(x: nat, n: nat)
    requires x < n
    ensures (x + 1) % n == Wrap(x + 1, n)
    ensures (x - 1 + n) % n == if x == 0 then n - 1 else x - 1
  {
    if x + 1 == n {
      assert (x + 1) % n == 0;
    }
    if x == 0 {
      assert (x - 1 + n) % n == n - 1;
    } else {
      assert x - 1 + n == (x - 1) + 1 * n;
      ModPlus(x - 1, n);
    }
  }

  // ---- what every step keeps ----

  predicate Sized(r: Ring) {
    r.head < |r.slots| && r.tail < |r.slots|
  }

  // How far slot x is behind the head; the slots closer than the tail are live.
  function Off(r: Ring, x: nat): int {
    if x >= r.head then x - r.head else x + |r.slots| - r.head
  }

  predicate Live(r: Ring, x: nat)
    requires Sized(r)
  {
    x < |r.slots| && Off(r, x) < Len(r)
  }

  function Ids(jobs: seq<Job>): seq<(nat, string)> {
    seq(|jobs|, i requires 0 <= i < |jobs| => (jobs[i].ticket, jobs[i].request))
  }

  function AnsweredIds(answers: seq<Answer>): seq<(nat, string)> {
    seq(|answers|, i requires 0 <= i < |answers| => (answers[i].ticket, answers[i].request))
  }

  // The job put in the ring whose thread is still to be created.
  function Creation(m: MainPc): seq<(nat, string)> {
    if m.Creating? then [(m.ticket, m.request)] else []
  }

  /** Every accepted job is answered or still in the ring, in order of submission. */
  ghost predicate Conserved(r: Ring)
    requires Sized(r)
  {
    r.accepted + Creation(r.main) == AnsweredIds(r.answered) + Ids(Pending(r))
  }

  /** Tickets grow along the ring, after those already answered. */
  ghost predicate Numbered(r: Ring)
    requires Sized(r)
  {
    && (forall x: nat, y: nat :: Live(r, x) && Live(r, y) && Off(r, x) < Off(r, y) ==> r.slots[x].ticket < r.slots[y].ticket)
    && (forall x: nat :: Live(r, x) ==> r.slots[x].ticket < r.next)
    && (forall a, x: nat :: 0 <= a < |r.answered| && Live(r, x) ==> r.answered[a].ticket < r.slots[x].ticket)
    && (forall a, b :: 0 <= a < b < |r.answered| ==> r.answered[a].ticket < r.answered[b].ticket)
    && (forall a :: 0 <= a < |r.answered| ==> r.answered[a].ticket < r.next)
    && (forall t :: t in r.verdicts ==> t < r.next)
  }

  /** A worker that will still write points at its own job, which is in the ring and not done. */
  ghost predicate WorkersAtWork(r: Ring)
    requires Sized(r)
  {
    forall t :: t in r.workers ==>
      var w := r.workers[t];
      && t < r.next
      && (r.main.Creating? ==> t != r.main.ticket)
      && (!w.pc.Signalling? ==> Live(r, w.slot) && r.slots[w.slot].ticket == t && !r.slots[w.slot].done)
      && (w.pc.Authenticating? <==> t !in r.verdicts)
      && (w.pc.Marking? ==> r.slots[w.slot].result == r.verdicts[t].1)
  }

  /** A job in the ring has a worker at work on it, or is done with the verdict on its own request. */
  ghost predicate JobsAttended(r: Ring)
    requires Sized(r)
  {
    forall x: nat :: Live(r, x) ==>
      var job := r.slots[x];
      && (job.ticket in r.verdicts ==> r.verdicts[job.ticket].0 == job.request)
      && (job.done ==> job.ticket in r.verdicts && r.verdicts[job.ticket] == (job.request, job.result))
      && (!job.done ==>
            || (r.main.Creating? && r.main.ticket == job.ticket)
            || (job.ticket in r.workers && !r.workers[job.ticket].pc.Signalling?))
  }

  /** Between enqueueing and pthread_create the new job is the last one in the ring. */
  ghost predicate CreatingLast(r: Ring)
    requires Sized(r)
  {
    r.main.Creating? ==>
      && Live(r, r.main.slot) && Off(r, r.main.slot) == Len(r) - 1
      && r.slots[r.main.slot] == Job(r.main.ticket, r.main.request, false, false)
      && r.main.ticket !in r.verdicts
  }

  ghost predicate AnswersAreVerdicts(r: Ring) {
    forall a :: 0 <= a < |r.answered| ==>
      r.answered[a].ticket in r.verdicts && r.verdicts[r.answered[a].ticket] == (r.answered[a].request, r.answered[a].result)
  }

  /** No lost wake-up: a done head is announced, or its worker has still to announce it. */
  ghost predicate Announced(r: Ring)
    requires Sized(r)
  {
    !r.main.Draining? && Len(r) > 0 && r.slots[r.head].done ==>
      || r.eventfd > 0
      || (r.slots[r.head].ticket in r.workers && r.workers[r.slots[r.head].ticket].pc.Signalling?)
  }

  ghost predicate Valid(r: Ring) {
    && Sized(r)
    && Conserved(r) && Numbered(r) && WorkersAtWork(r) && JobsAttended(r) && CreatingLast(r)
    && AnswersAreVerdicts(r) && Announced(r)
  }

  lemma StartIsValid(size: nat)
    requires size > 0
    ensures Valid(Start(size))
  {
    assert Pending(Start(size)) == [];
  }

  // ---- order and contents ----

  // Sequence algebra used by the steps that add or take a job.
  lemma AddLast<T>(accepted: seq<T>, answered: seq<T>, ids: seq<T>, id: T)
    requires accepted == answered + ids
    ensures accepted + [id] == answered + (ids + [id])
  {
  }

  lemma TakeLast<T>(accepted: seq<T>, answered: seq<T>, ids: seq<T>, id: T)
    requires accepted + [id] == answered + (ids + [id])
    ensures accepted == answered + ids
  {
    var all := accepted + [id];
    assert accepted == all[..|all| - 1];
    assert answered + (ids + [id]) == (answered + ids) + [id];
  }

  lemma MoveFirst<T>(answered: seq<T>, ids: seq<T>, id: T)
    ensures answered + ([id] + ids) == (answered + [id]) + ids
  {
  }

  lemma SubmitConserves(r: Ring, s: Step)
    requires Sized(r) && Conserved(r) && s.Submit? && Enabled(r, s)
    ensures Sized(Next(r, s)) && Conserved(Next(r, s))
  {
    WrapsAround(r.tail, |r.slots|);
    var v := Next(r, s);
    if v != r {
      assert Len(v) == Len(r) + 1 && At(v, Len(r)) == r.tail;
      assert Ids(Pending(v)) == Ids(Pending(r)) + [(r.next, s.request)];
      assert r.accepted + [] == r.accepted;
      AddLast(r.accepted, AnsweredIds(r.answered), Ids(Pending(r)), (r.next, s.request));
    }
  }

  lemma CreateConserves(r: Ring, s: Step)
    requires Sized(r) && Conserved(r) && CreatingLast(r) && s.Create? && Enabled(r, s)
    ensures Sized(Next(r, s)) && Conserved(Next(r, s))
  {
    var v := Next(r, s);
    assert v.accepted + [] == v.accepted;
    if s.ok {
      assert Pending(v) == Pending(r);
    } else {
      LastLeaves(r, v);
      TakeLast(r.accepted, AnsweredIds(r.answered), Ids(Pending(v)), (r.main.ticket, r.main.request));
    }
  }

  lemma LastLeaves(r: Ring, v: Ring)
    requires Sized(r) && CreatingLast(r) && r.main.Creating? && v.slots == r.slots && v.head == r.head
    requires v.tail == (r.tail - 1 + |r.slots|) % |r.slots|
    ensures Sized(v) && Ids(Pending(r)) == Ids(Pending(v)) + [(r.main.ticket, r.main.request)]
  {
    WrapsAround(r.tail, |r.slots|);
    assert At(r, Len(r) - 1) == r.main.slot;
    assert Len(v) == Len(r) - 1;
  }

  lemma WorkerConserves(r: Ring, s: Step)
    requires Sized(r) && Conserved(r) && (s.Authenticate? || s.MarkDone? || s.Signal?) && Enabled(r, s)
    ensures Sized(Next(r, s)) && Conserved(Next(r, s))
  {
    var v := Next(r, s);
    assert forall x :: 0 <= x < |r.slots| ==> v.slots[x].ticket == r.slots[x].ticket && v.slots[x].request == r.slots[x].request;
    assert Ids(Pending(v)) == Ids(Pending(r));
  }

  lemma DrainConserves(r: Ring, s: Step)
    requires Sized(r) && Conserved(r) && (s.BeginDrain? || s.DrainOne?) && Enabled(r, s)
    ensures Sized(Next(r, s)) && Conserved(Next(r, s))
  {
    WrapsAround(r.head, |r.slots|);
    var v := Next(r, s);
    if v.head != r.head {
      var id := (r.slots[r.head].ticket, r.slots[r.head].request);
      HeadLeaves(r, v);
      MoveFirst(AnsweredIds(r.answered), Ids(Pending(v)), id);
      assert AnsweredIds(v.answered) == AnsweredIds(r.answered) + [id];
    } else {
      assert Pending(v) == Pending(r);
    }
  }

  lemma HeadLeaves(r: Ring, v: Ring)
    requires Sized(r) && r.head != r.tail && v.slots == r.slots && v.tail == r.tail
    requires v.head == (r.head + 1) % |r.slots|
    ensures Sized(v) && Ids(Pending(r)) == [(r.slots[r.head].ticket, r.slots[r.head].request)] + Ids(Pending(v))
  {
    WrapsAround(r.head, |r.slots|);
    assert Len(r) == Len(v) + 1;
    assert forall i :: 0 <= i < Len(v) ==> At(v, i) == At(r, i + 1);
  }

  // ---- numbering ----

  lemma SubmitNumbers(r: Ring, s: Step)
    requires Sized(r) && Numbered(r) && s.Submit? && Enabled(r, s)
    ensures Sized(Next(r, s)) && Numbered(Next(r, s))
  {
    WrapsAround(r.tail, |r.slots|);
    var v := Next(r, s);
    if v != r {
      Enqueued(r, v);
    }
  }

  lemma Enqueued(r: Ring, v: Ring)
    requires Sized(r) && |v.slots| == |r.slots| && v.head == r.head
    requires v.tail == (r.tail + 1) % |r.slots| != r.head
    ensures Sized(v) && forall x: nat :: Live(v, x) <==> (Live(r, x) || x == r.tail)
    ensures forall x: nat :: Off(v, x) == Off(r, x)
    ensures !Live(r, r.tail) && forall x: nat :: Live(r, x) ==> Off(r, x) < Off(r, r.tail)
  {
    WrapsAround(r.tail, |r.slots|);
  }

  lemma CreateNumbers(r: Ring, s: Step)
    requires Sized(r) && Numbered(r) && CreatingLast(r) && s.Create? && Enabled(r, s)
    ensures Sized(Next(r, s)) && Numbered(Next(r, s))
  {
    if s.ok {
      SameQueue(r, Next(r, s));
    } else {
      UnqueuedNumbers(r, Next(r, s));
    }
  }

  lemma UnqueuedNumbers(r: Ring, v: Ring)
    requires Sized(r) && Numbered(r) && r.head != r.tail
    requires v == r.(tail := v.tail, main := Idle) && v.tail == (r.tail - 1 + |r.slots|) % |r.slots|
    ensures Sized(v) && Numbered(v)
  {
    Unqueued(r, v);
  }

  lemma Unqueued(r: Ring, v: Ring)
    requires Sized(r) && v.slots == r.slots && v.head == r.head && r.head != r.tail
    requires v.tail == (r.tail - 1 + |r.slots|) % |r.slots|
    ensures Sized(v) && forall x: nat :: Live(v, x) <==> (Live(r, x) && Off(r, x) != Len(r) - 1)
    ensures forall x: nat :: Off(v, x) == Off(r, x)
    ensures Len(v) == Len(r) - 1
  {
    WrapsAround(r.tail, |r.slots|);
  }

  lemma WorkerNumbers(r: Ring, s: Step)
    requires Sized(r) && Numbered(r) && (s.Authenticate? || s.MarkDone? || s.Signal?) && Enabled(r, s)
    requires WorkersAtWork(r)
    ensures Sized(Next(r, s)) && Numbered(Next(r, s))
  {
    SameQueue(r, Next(r, s));
  }

  lemma SameQueue(r: Ring, v: Ring)
    requires Sized(r) && |v.slots| == |r.slots| && v.head == r.head && v.tail == r.tail
    ensures Sized(v) && (forall x: nat :: Live(v, x) <==> Live(r, x)) && (forall x: nat :: Off(v, x) == Off(r, x))
    ensures Len(v) == Len(r)
  {
  }

  lemma DrainNumbers(r: Ring, s: Step)
    requires Sized(r) && Numbered(r) && (s.BeginDrain? || s.DrainOne?) && Enabled(r, s)
    ensures Sized(Next(r, s)) && Numbered(Next(r, s))
  {
    var v := Next(r, s);
    if v.head != r.head {
      DequeuedNumbers(r, v);
    } else {
      UnchangedNumbers(r, v);
    }
  }

  lemma UnchangedNumbers(r: Ring, v: Ring)
    requires Sized(r) && Numbered(r) && v.slots == r.slots && v.head == r.head && v.tail == r.tail
    requires v.next == r.next && v.verdicts == r.verdicts && v.answered == r.answered
    ensures Sized(v) && Numbered(v)
  {
    SameQueue(r, v);
  }

  lemma DequeuedNumbers(r: Ring, v: Ring)
    requires Sized(r) && Numbered(r) && v.slots == r.slots && v.tail == r.tail && r.head != r.tail
    requires v.head == (r.head + 1) % |r.slots| && v.next == r.next && v.verdicts == r.verdicts
    requires v.answered == r.answered + [Answer(r.slots[r.head].ticket, r.slots[r.head].request, r.slots[r.head].result)]
    ensures Sized(v) && Numbered(v)
  {
    Dequeued(r, v);
  }

  lemma Dequeued(r: Ring, v: Ring)
    requires Sized(r) && v.slots == r.slots && v.tail == r.tail && r.head != r.tail
    requires v.head == (r.head + 1) % |r.slots|
    ensures Sized(v) && forall x: nat :: Live(v, x) <==> (Live(r, x) && x != r.head)
    ensures forall x: nat :: Live(v, x) ==> Off(v, x) == Off(r, x) - 1
    ensures Live(r, r.head) && Off(r, r.head) == 0 && Len(v) == Len(r) - 1
  {
    WrapsAround(r.head, |r.slots|);
  }

  // ---- workers, verdicts and wake-ups ----

  ghost predicate Attended(r: Ring)
    requires Sized(r)
  {
    WorkersAtWork(r) && JobsAttended(r) && CreatingLast(r) && AnswersAreVerdicts(r) && Announced(r)
  }

  lemma OwnSlot(r: Ring, x: nat, y: nat)
    requires Sized(r) && Numbered(r) && Live(r, x) && Live(r, y) && r.slots[x].ticket == r.slots[y].ticket
    ensures x == y
  {
    assert Off(r, x) == Off(r, y);
  }

  lemma EnqueuedAttends(r: Ring, v: Ring, request: string)
    requires Sized(r) && Numbered(r) && Attended(r) && r.main.Idle?
    requires v == r.(slots := r.slots[r.tail := Job(r.next, request, false, false)], tail := v.tail, next := r.next + 1,
                     main := Creating(r.next, request, r.tail))
    requires v.tail == (r.tail + 1) % |r.slots| != r.head
    ensures Sized(v) && WorkersAtWork(v) && JobsAttended(v)
  {
    Enqueued(r, v);
    assert r.next !in r.verdicts && r.next !in r.workers;
  }

  lemma EnqueuedIsLast(r: Ring, v: Ring, request: string)
    requires Sized(r) && Numbered(r) && Attended(r) && r.main.Idle?
    requires v == r.(slots := r.slots[r.tail := Job(r.next, request, false, false)], tail := v.tail, next := r.next + 1,
                     main := Creating(r.next, request, r.tail))
    requires v.tail == (r.tail + 1) % |r.slots| != r.head
    ensures Sized(v) && CreatingLast(v) && AnswersAreVerdicts(v) && Announced(v)
  {
    WrapsAround(r.tail, |r.slots|);
    Enqueued(r, v);
    assert r.next !in r.verdicts;
  }

  lemma SubmitAttends(r: Ring, s: Step)
    requires Sized(r) && Numbered(r) && Attended(r) && s.Submit? && Enabled(r, s)
    ensures Sized(Next(r, s)) && Attended(Next(r, s))
  {
    WrapsAround(r.tail, |r.slots|);
    if Next(r, s) != r {
      EnqueuedAttends(r, Next(r, s), s.request);
      EnqueuedIsLast(r, Next(r, s), s.request);
    }
  }

  lemma CreatedAttends(r: Ring)
    requires Sized(r) && Numbered(r) && Attended(r) && r.main.Creating?
    ensures Sized(Next(r, Create(true))) && Attended(Next(r, Create(true)))
  {
    SameQueue(r, Next(r, Create(true)));
    assert r.main.ticket < r.next;
  }

  lemma UncreatedSlot(r: Ring, t: nat)
    requires Sized(r) && WorkersAtWork(r) && CreatingLast(r) && r.main.Creating?
    requires t in r.workers && !r.workers[t].pc.Signalling?
    ensures Live(r, r.workers[t].slot) && Off(r, r.workers[t].slot) != Len(r) - 1
  {
    assert r.slots[r.workers[t].slot].ticket == t != r.main.ticket == r.slots[r.main.slot].ticket;
  }

  lemma UncreatedKeepsWorkers(r: Ring, v: Ring)
    requires Sized(r) && WorkersAtWork(r) && CreatingLast(r) && r.main.Creating?
    requires v == r.(tail := v.tail, main := Idle) && v.tail == (r.tail - 1 + |r.slots|) % |r.slots|
    ensures Sized(v) && WorkersAtWork(v)
  {
    Unqueued(r, v);
    forall t | t in r.workers && !r.workers[t].pc.Signalling?
      ensures Live(v, r.workers[t].slot)
    {
      UncreatedSlot(r, t);
    }
  }

  lemma UncreatedKeepsJobs(r: Ring)
    requires Sized(r) && Numbered(r) && Attended(r) && r.main.Creating?
    ensures Sized(Next(r, Create(false))) && JobsAttended(Next(r, Create(false)))
  {
    var v := Next(r, Create(false));
    Unqueued(r, v);
    forall x: nat | Live(v, x)
      ensures v.slots[x].ticket != r.main.ticket
    {
      assert Off(r, x) < Off(r, r.main.slot);
    }
  }

  lemma UncreatedAttends(r: Ring)
    requires Sized(r) && Numbered(r) && Attended(r) && r.main.Creating?
    ensures Sized(Next(r, Create(false))) && Attended(Next(r, Create(false)))
  {
    UncreatedKeepsWorkers(r, Next(r, Create(false)));
    UncreatedKeepsJobs(r);
    UncreatedHead(r, Next(r, Create(false)));
  }

  lemma UncreatedHead(r: Ring, v: Ring)
    requires Sized(r) && CreatingLast(r) && Announced(r) && r.main.Creating? && v == Next(r, Create(false))
    ensures Sized(v) && Announced(v)
  {
    Unqueued(r, v);
  }

  lemma WorkerTouchesOwnJob(r: Ring, t: nat)
    requires Sized(r) && Numbered(r) && WorkersAtWork(r) && t in r.workers && !r.workers[t].pc.Signalling?
    ensures Live(r, r.workers[t].slot)
    ensures forall x: nat :: Live(r, x) && r.slots[x].ticket == t ==> x == r.workers[t].slot
    ensures forall u :: u in r.workers && !r.workers[u].pc.Signalling? && r.workers[u].slot == r.workers[t].slot ==> u == t
  {
    forall x: nat | Live(r, x) && r.slots[x].ticket == t
      ensures x == r.workers[t].slot
    {
      OwnSlot(r, x, r.workers[t].slot);
    }
  }

  lemma AuthenticateKeepsWorkers(r: Ring, s: Step)
    requires Sized(r) && Numbered(r) && Attended(r) && s.Authenticate? && Enabled(r, s)
    ensures Sized(Next(r, s)) && WorkersAtWork(Next(r, s))
  {
    SameQueue(r, Next(r, s));
    WorkerTouchesOwnJob(r, s.ticket);
  }

  lemma AuthenticateKeepsJobs(r: Ring, s: Step)
    requires Sized(r) && Numbered(r) && WorkersAtWork(r) && JobsAttended(r) && s.Authenticate? && Enabled(r, s)
    ensures Sized(Next(r, s)) && JobsAttended(Next(r, s))
  {
    SameQueue(r, Next(r, s));
    WorkerTouchesOwnJob(r, s.ticket);
  }

  lemma AuthenticateKeepsRest(r: Ring, s: Step)
    requires Sized(r) && Numbered(r) && Attended(r) && s.Authenticate? && Enabled(r, s)
    ensures Sized(Next(r, s)) && CreatingLast(Next(r, s)) && Announced(Next(r, s))
  {
    SameQueue(r, Next(r, s));
    WorkerTouchesOwnJob(r, s.ticket);
  }

  lemma AuthenticateKeepsAnswers(r: Ring, s: Step)
    requires Sized(r) && Numbered(r) && WorkersAtWork(r) && AnswersAreVerdicts(r) && s.Authenticate? && Enabled(r, s)
    ensures AnswersAreVerdicts(Next(r, s))
  {
    assert forall a :: 0 <= a < |r.answered| ==> r.answered[a].ticket != s.ticket;
  }

  lemma AuthenticateAttends(r: Ring, s: Step)
    requires Sized(r) && Numbered(r) && Attended(r) && s.Authenticate? && Enabled(r, s)
    ensures Sized(Next(r, s)) && Attended(Next(r, s))
  {
    AuthenticateKeepsWorkers(r, s);
    AuthenticateKeepsJobs(r, s);
    AuthenticateKeepsRest(r, s);
    AuthenticateKeepsAnswers(r, s);
  }

  lemma MarkDoneAttends(r: Ring, s: Step)
    requires Sized(r) && Numbered(r) && Attended(r) && s.MarkDone? && Enabled(r, s)
    ensures Sized(Next(r, s)) && Attended(Next(r, s))
  {
    var v := Next(r, s);
    SameQueue(r, v);
    WorkerTouchesOwnJob(r, s.ticket);
  }

  lemma SignalAttends(r: Ring, s: Step)
    requires Sized(r) && Numbered(r) && Attended(r) && s.Signal? && Enabled(r, s)
    ensures Sized(Next(r, s)) && Attended(Next(r, s))
  {
    SameQueue(r, Next(r, s));
  }

  lemma DrainAttends(r: Ring, s: Step)
    requires Sized(r) && Numbered(r) && Attended(r) && (s.BeginDrain? || s.DrainOne?) && Enabled(r, s)
    ensures Sized(Next(r, s)) && Attended(Next(r, s))
  {
    var v := Next(r, s);
    if v.head != r.head {
      Dequeued(r, v);
      forall t | t in r.workers && !r.workers[t].pc.Signalling?
        ensures r.workers[t].slot != r.head
      {
        assert !r.slots[r.workers[t].slot].done;
      }
    } else {
      SameQueue(r, v);
    }
  }

  lemma StepKeepsValid(r: Ring, s: Step)
    requires Valid(r) && Enabled(r, s)
    ensures Valid(Next(r, s))
  {
    match s
    case Submit(_) => SubmitConserves(r, s); SubmitNumbers(r, s); SubmitAttends(r, s);
    case Create(_) => CreateConserves(r, s); CreateNumbers(r, s); if s.ok { CreatedAttends(r); } else { UncreatedAttends(r); }
    case Authenticate(_, _) => WorkerConserves(r, s); WorkerNumbers(r, s); AuthenticateAttends(r, s);
    case MarkDone(_) => WorkerConserves(r, s); WorkerNumbers(r, s); MarkDoneAttends(r, s);
    case Signal(_) => WorkerConserves(r, s); WorkerNumbers(r, s); SignalAttends(r, s);
    case BeginDrain => DrainConserves(r, s); DrainNumbers(r, s); DrainAttends(r, s);
    case DrainOne => DrainConserves(r, s); DrainNumbers(r, s); DrainAttends(r, s);
  }

  // ---- every interleaving ----

  predicate Legal(r: Ring, steps: seq<Step>)
    decreases |steps|
  {
    steps == [] || (Sized(r) && Enabled(r, steps[0]) && Legal(Next(r, steps[0]), steps[1..]))
  }

  function Run(r: Ring, steps: seq<Step>): Ring
    requires Legal(r, steps)
    decreases |steps|
  {
    if steps == [] then r else Run(Next(r, steps[0]), steps[1..])
  }

  lemma {:induction false} RunKeepsValid(r: Ring, steps: seq<Step>)
    requires Valid(r) && Legal(r, steps)
    ensures Valid(Run(r, steps))
    decreases |steps|
  {
    if steps != [] {
      StepKeepsValid(r, steps[0]);
      RunKeepsValid(Next(r, steps[0]), steps[1..]);
    }
  }

  // Nothing is running and no wake-up is pending.
  predicate Quiescent(r: Ring) {
    r.main.Idle? && r.workers == map[] && r.eventfd == 0
  }

  /**
   * In every interleaving: the answers are, in order and without repetition, the oldest
   * accepted jobs, each with PAM's verdict on its own request; a done head is announced; and
   * when everything has come to rest every accepted job has been answered.
   */
  lemma AnsweredOnceInOrder(size: nat, steps: seq<Step>)
    requires size > 0 && Legal(Start(size), steps)
    ensures var r := Run(Start(size), steps);
            && Sized(r)
            && AnsweredIds(r.answered) <= r.accepted + Creation(r.main)
            && r.accepted + Creation(r.main) == AnsweredIds(r.answered) + Ids(Pending(r))
            && (forall a, b :: 0 <= a < b < |r.answered| ==> r.answered[a].ticket < r.answered[b].ticket)
            && AnswersAreVerdicts(r)
            && Announced(r)
            && (Quiescent(r) ==> AnsweredIds(r.answered) == r.accepted)
  {
    StartIsValid(size);
    RunKeepsValid(Start(size), steps);
    var r := Run(Start(size), steps);
    if Quiescent(r) {
      RestIsEmpty(r);
      assert r.accepted + Creation(r.main) == r.accepted;
      assert AnsweredIds(r.answered) + Ids(Pending(r)) == AnsweredIds(r.answered);
    }
  }

  lemma HeadIsLive(r: Ring)
    requires Sized(r)
    ensures Len(r) > 0 ==> Live(r, r.head)
  {
  }

  lemma RestIsEmpty(r: Ring)
    requires Valid(r) && Quiescent(r)
    ensures Pending(r) == []
  {
    HeadIsLive(r);
  }

  // ---- every run comes to rest ----

  function WorkersAt(r: Ring, pc: WorkerPc): set<nat> {
    set t | t in r.workers && r.workers[t].pc == pc
  }

  /** A bound on the steps still to come when nothing more is submitted. */
  function Remaining(r: Ring): nat
    requires Sized(r)
  {
    5 * |WorkersAt(r, Authenticating)| + 4 * |WorkersAt(r, Marking)| + 3 * |WorkersAt(r, Signalling)|
    + 2 * r.eventfd + Len(r)
    + (match r.main case Idle => 0 case Draining => 1 case Creating(_, _, _) => 6)
  }

  // One worker goes from one place to the next.
  lemma WorkerMoves(r: Ring, v: Ring, t: nat, pc: WorkerPc)
    requires t in r.workers && v.workers == r.workers[t := Worker(r.workers[t].slot, pc)] && r.workers[t].pc != pc
    ensures |WorkersAt(v, pc)| == |WorkersAt(r, pc)| + 1
    ensures |WorkersAt(v, r.workers[t].pc)| == |WorkersAt(r, r.workers[t].pc)| - 1
    ensures forall q: WorkerPc :: q != pc && q != r.workers[t].pc ==> |WorkersAt(v, q)| == |WorkersAt(r, q)|
  {
    assert WorkersAt(v, pc) == WorkersAt(r, pc) + {t};
    assert WorkersAt(r, r.workers[t].pc) == WorkersAt(v, r.workers[t].pc) + {t};
    forall q: WorkerPc | q != pc && q != r.workers[t].pc
      ensures WorkersAt(v, q) == WorkersAt(r, q)
    {
    }
  }

  lemma WorkerLeaves(r: Ring, v: Ring, t: nat)
    requires t in r.workers && r.workers[t].pc.Signalling? && v.workers == r.workers - {t}
    ensures |WorkersAt(v, Signalling)| == |WorkersAt(r, Signalling)| - 1
    ensures |WorkersAt(v, Authenticating)| == |WorkersAt(r, Authenticating)| && |WorkersAt(v, Marking)| == |WorkersAt(r, Marking)|
  {
    assert WorkersAt(r, Signalling) == WorkersAt(v, Signalling) + {t};
    assert WorkersAt(v, Authenticating) == WorkersAt(r, Authenticating);
    assert WorkersAt(v, Marking) == WorkersAt(r, Marking);
  }

  lemma WorkerStarts(r: Ring, v: Ring, t: nat, slot: nat)
    requires t !in r.workers && v.workers == r.workers[t := Worker(slot, Authenticating)]
    ensures |WorkersAt(v, Authenticating)| == |WorkersAt(r, Authenticating)| + 1
    ensures |WorkersAt(v, Signalling)| == |WorkersAt(r, Signalling)| && |WorkersAt(v, Marking)| == |WorkersAt(r, Marking)|
  {
    assert WorkersAt(v, Authenticating) == WorkersAt(r, Authenticating) + {t};
    assert WorkersAt(v, Signalling) == WorkersAt(r, Signalling);
    assert WorkersAt(v, Marking) == WorkersAt(r, Marking);
  }

  lemma WorkersStay(r: Ring, v: Ring)
    requires v.workers == r.workers
    ensures forall q: WorkerPc :: WorkersAt(v, q) == WorkersAt(r, q)
  {
  }

  lemma WorkerStepApproaches(r: Ring, s: Step)
    requires Valid(r) && Enabled(r, s) && (s.Authenticate? || s.MarkDone? || s.Signal?)
    ensures Sized(Next(r, s)) && Remaining(Next(r, s)) < Remaining(r)
  {
    SameQueue(r, Next(r, s));
    if s.Signal? {
      WorkerLeaves(r, Next(r, s), s.ticket);
    } else {
      WorkerMoves(r, Next(r, s), s.ticket, if s.Authenticate? then Marking else Signalling);
    }
  }

  lemma CreatedApproaches(r: Ring)
    requires Valid(r) && r.main.Creating?
    ensures Sized(Next(r, Create(true))) && Remaining(Next(r, Create(true))) < Remaining(r)
  {
    SameQueue(r, Next(r, Create(true)));
    assert r.main.ticket !in r.workers;
    WorkerStarts(r, Next(r, Create(true)), r.main.ticket, r.main.slot);
  }

  lemma UncreatedApproaches(r: Ring)
    requires Valid(r) && r.main.Creating?
    ensures Sized(Next(r, Create(false))) && Remaining(Next(r, Create(false))) < Remaining(r)
  {
    WorkersStay(r, Next(r, Create(false)));
    Unqueued(r, Next(r, Create(false)));
  }

  // Nothing of the ring moves but the loop's place and the eventfd.
  lemma RingStays(r: Ring, v: Ring)
    requires Sized(r) && v.slots == r.slots && v.head == r.head && v.tail == r.tail && v.workers == r.workers
    ensures Sized(v) && Len(v) == Len(r) && forall q: WorkerPc :: WorkersAt(v, q) == WorkersAt(r, q)
  {
  }

  lemma BeginDrainApproaches(r: Ring)
    requires Sized(r) && Enabled(r, BeginDrain)
    ensures Sized(Next(r, BeginDrain)) && Remaining(Next(r, BeginDrain)) < Remaining(r)
  {
    RingStays(r, Next(r, BeginDrain));
  }

  lemma DrainEndsApproaches(r: Ring)
    requires Sized(r) && Enabled(r, DrainOne) && (r.head == r.tail || !r.slots[r.head].done)
    ensures Sized(Next(r, DrainOne)) && Remaining(Next(r, DrainOne)) < Remaining(r)
  {
    RingStays(r, Next(r, DrainOne));
  }

  lemma DrainTakesApproaches(r: Ring)
    requires Sized(r) && Enabled(r, DrainOne) && r.head != r.tail && r.slots[r.head].done
    ensures Sized(Next(r, DrainOne)) && Remaining(Next(r, DrainOne)) < Remaining(r)
  {
    WorkersStay(r, Next(r, DrainOne));
    Dequeued(r, Next(r, DrainOne));
  }

  lemma StepApproachesRest(r: Ring, s: Step)
    requires Valid(r) && Enabled(r, s) && !s.Submit?
    ensures Sized(Next(r, s)) && Remaining(Next(r, s)) < Remaining(r)
  {
    match s
    case Create(ok) => if ok { CreatedApproaches(r); } else { UncreatedApproaches(r); }
    case BeginDrain => BeginDrainApproaches(r);
    case DrainOne =>
      if r.head == r.tail || !r.slots[r.head].done { DrainEndsApproaches(r); } else { DrainTakesApproaches(r); }
    case _ => WorkerStepApproaches(r, s);
  }

  /** Without further submissions no run is longer than this. */
  lemma {:induction false} RunsEnd(r: Ring, steps: seq<Step>)
    requires Valid(r) && Legal(r, steps) && forall s :: s in steps ==> !s.Submit?
    ensures |steps| <= Remaining(r)
    decreases |steps|
  {
    if steps != [] {
      assert steps[0] in steps && forall s :: s in steps[1..] ==> s in steps;
      StepKeepsValid(r, steps[0]);
      StepApproachesRest(r, steps[0]);
      RunsEnd(Next(r, steps[0]), steps[1..]);
    }
  }

  lemma WorkerCanStep(r: Ring, t: nat)
    requires Valid(r) && t in r.workers
    ensures Enabled(r, Authenticate(t, true)) || Enabled(r, MarkDone(t)) || Enabled(r, Signal(t))
  {
  }

  /** Where a run can go no further without a submission, everything has come to rest. */
  lemma StuckIsQuiescent(r: Ring)
    requires Valid(r) && forall s: Step :: Enabled(r, s) ==> s.Submit?
    ensures Quiescent(r)
  {
    assert !Enabled(r, Create(true)) && !Enabled(r, BeginDrain) && !Enabled(r, DrainOne);
    if t :| t in r.workers {
      WorkerCanStep(r, t);
    }
    assert r.workers.Keys == {};
  }

  /**
   * After any interleaving, a run without further submissions that goes on as long as it can
   * takes a bounded number of steps and leaves every accepted job answered, in order.
   */
  lemma EverythingIsAnswered(size: nat, steps: seq<Step>, more: seq<Step>)
    requires size > 0 && Legal(Start(size), steps) && Legal(Run(Start(size), steps), more)
    requires forall s :: s in more ==> !s.Submit?
    requires forall s: Step :: Enabled(Run(Run(Start(size), steps), more), s) ==> s.Submit?
    ensures Sized(Run(Start(size), steps)) && |more| <= Remaining(Run(Start(size), steps))
    ensures var r := Run(Run(Start(size), steps), more); AnsweredIds(r.answered) == r.accepted
  {
    StartIsValid(size);
    RunKeepsValid(Start(size), steps);
    RunsEnd(Run(Start(size), steps), more);
    RunKeepsValid(Run(Start(size), steps), more);
    AllAnsweredAtRest(Run(Run(Start(size), steps), more));
  }

  lemma AllAnsweredAtRest(r: Ring)
    requires Valid(r) && forall s: Step :: Enabled(r, s) ==> s.Submit?
    ensures AnsweredIds(r.answered) == r.accepted
  {
    StuckIsQuiescent(r);
    RestIsEmpty(r);
    assert r.accepted + Creation(r.main) == r.accepted;
    assert AnsweredIds(r.answered) + Ids(Pending(r)) == AnsweredIds(r.answered);
  }

  /** While a job is in the ring only its own worker writes its slot, and never its identity. */
  lemma LiveSlotsAreNotOverwritten(r: Ring, s: Step, x: nat)
    requires Valid(r) && Enabled(r, s) && Live(r, x)
    ensures var v := Next(r, s);
            && v.slots[x].ticket == r.slots[x].ticket && v.slots[x].request == r.slots[x].request
            && (v.slots[x] != r.slots[x] ==> (s.Authenticate? || s.MarkDone?) && s.ticket == r.slots[x].ticket)
  {
    if s.Submit? {
      TailIsFree(r, x);
    } else if s.Authenticate? || s.MarkDone? {
      WorkerTouchesOwnJob(r, s.ticket);
    }
  }

  lemma TailIsFree(r: Ring, x: nat)
    requires Sized(r) && Live(r, x)
    ensures x != r.tail
  {
  }

  // ---- the C code ----

  /** The globals g_auth_queue, g_auth_queue_head, g_auth_queue_tail and g_auth_eventfd. */
  class AuthQueue {
    const slots: array<Job>
    var head: nat
    var tail: nat
    var eventfd: nat
    ghost var workers: map<nat, Worker>
    ghost var main: MainPc
    ghost var next: nat
    ghost var accepted: seq<(nat, string)>
    ghost var answered: seq<Answer>
    ghost var verdicts: map<nat, (string, bool)>

    ghost function Abs(): Ring
      reads this, slots
    {
      Ring(slots[..], head, tail, workers, main, eventfd, next, accepted, answered, verdicts)
    }

    ghost predicate Ok()
      reads this, slots
    {
      Valid(Abs())
    }

    constructor (size: nat)
      requires size > 0
      ensures Ok() && Abs() == Start(size) && fresh(slots)
    {
      slots := new Job[size](_ => EMPTY_JOB);
      head, tail, eventfd, next := 0, 0, 0, 0;
      workers, main, accepted, answered, verdicts := map[], Idle, [], [], map[];
      new;
      assert slots[..] == Start(size).slots;
      StartIsValid(size);
    }

    /** submit_auth_job_ex, the first critical section. */
    method Submit(request: string, ticket: nat) returns (queued: bool)
      requires Ok() && main.Idle? && ticket == next
      modifies this, slots
      ensures Ok() && Abs() == Next(old(Abs()), Step.Submit(request))
      ensures queued <==> old(Len(Abs())) < slots.Length - 1
    {
      StepKeepsValid(Abs(), Step.Submit(request));
      queued := TrySubmit(request, ticket);
    }

    method TrySubmit(request: string, ticket: nat) returns (queued: bool)
      requires Sized(Abs()) && main.Idle? && ticket == next
      modifies this, slots
      ensures Abs() == Next(old(Abs()), Step.Submit(request))
      ensures queued <==> old(Len(Abs())) < slots.Length - 1
    {
      SubmitFits(Abs());
      var nextTail := (tail + 1) % slots.Length;
      if nextTail == head {
        return false;
      }
      Enqueue(Job(ticket, request, false, false), nextTail);
      return true;
    }

    method Enqueue(job: Job, nextTail: nat)
      requires tail < slots.Length && job == Job(next, job.request, false, false)
      modifies this, slots
      ensures var r := old(Abs());
              Abs() == r.(slots := r.slots[r.tail := job], tail := nextTail, next := r.next + 1,
                          main := Creating(r.next, job.request, r.tail))
    {
      slots[tail] := job;
      main := Creating(next, job.request, tail);
      next := next + 1;
      tail := nextTail;
    }

    /** pthread_create, and the second critical section when it fails. */
    method Create(ok: bool)
      requires Ok() && main.Creating?
      modifies this
      ensures Ok() && Abs() == Next(old(Abs()), Step.Create(ok))
    {
      StepKeepsValid(Abs(), Step.Create(ok));
      FinishCreation(ok);
    }

    method FinishCreation(ok: bool)
      requires Sized(Abs()) && main.Creating?
      modifies this
      ensures Abs() == Next(old(Abs()), Step.Create(ok))
    {
      if ok {
        workers := workers[main.ticket := Worker(main.slot, Authenticating)];
        accepted := accepted + [(main.ticket, main.request)];
      } else {
        tail := (tail - 1 + slots.Length) % slots.Length;
      }
      main := Idle;
    }

    /** auth_thread_fn: the result is written outside the critical section. */
    method Authenticate(ghost ticket: nat, slot: nat, verdict: bool)
      requires Ok() && Enabled(Abs(), Step.Authenticate(ticket, verdict)) && slot == workers[ticket].slot
      modifies this, slots
      ensures Ok() && Abs() == Next(old(Abs()), Step.Authenticate(ticket, verdict))
    {
      StepKeepsValid(Abs(), Step.Authenticate(ticket, verdict));
      WriteVerdict(ticket, slot, verdict);
    }

    method WriteVerdict(ghost ticket: nat, slot: nat, verdict: bool)
      requires Sized(Abs()) && Enabled(Abs(), Step.Authenticate(ticket, verdict)) && slot == workers[ticket].slot
      modifies this, slots
      ensures Abs() == Next(old(Abs()), Step.Authenticate(ticket, verdict))
    {
      verdicts := verdicts[ticket := (slots[slot].request, verdict)];
      slots[slot] := slots[slot].(result := verdict);
      workers := workers[ticket := Worker(slot, Marking)];
    }

    method MarkDone(ghost ticket: nat, slot: nat)
      requires Ok() && Enabled(Abs(), Step.MarkDone(ticket)) && slot == workers[ticket].slot
      modifies this, slots
      ensures Ok() && Abs() == Next(old(Abs()), Step.MarkDone(ticket))
    {
      StepKeepsValid(Abs(), Step.MarkDone(ticket));
      slots[slot] := slots[slot].(done := true);
      workers := workers[ticket := Worker(slot, Signalling)];
    }

    method Signal(ghost ticket: nat)
      requires Ok() && Enabled(Abs(), Step.Signal(ticket))
      modifies this
      ensures Ok() && Abs() == Next(old(Abs()), Step.Signal(ticket))
    {
      StepKeepsValid(Abs(), Step.Signal(ticket));
      eventfd := eventfd + 1;
      workers := workers - {ticket};
    }

    /** drain_auth_completions: clear the eventfd. */
    method BeginDrain()
      requires Ok() && Enabled(Abs(), Step.BeginDrain)
      modifies this
      ensures Ok() && Abs() == Next(old(Abs()), Step.BeginDrain)
    {
      StepKeepsValid(Abs(), Step.BeginDrain);
      eventfd := 0;
      main := Draining;
    }

    /** One turn of its loop: take the head if it is done, or leave the loop. */
    method DrainOne() returns (taken: Option<Job>)
      requires Ok() && main.Draining?
      modifies this
      ensures Ok() && Abs() == Next(old(Abs()), Step.DrainOne)
      ensures taken == if old(Len(Abs()) > 0 && slots[head].done) then Some(old(slots[head])) else None
    {
      StepKeepsValid(Abs(), Step.DrainOne);
      taken := TakeHead();
    }

    method TakeHead() returns (taken: Option<Job>)
      requires Sized(Abs()) && main.Draining?
      modifies this
      ensures Abs() == Next(old(Abs()), Step.DrainOne)
      ensures taken == if old(Len(Abs()) > 0 && slots[head].done) then Some(old(slots[head])) else None
    {
      if head == tail || !slots[head].done {
        main := Idle;
        return None;
      }
      var job := slots[head];
      answered := answered + [Answer(job.ticket, job.request, job.result)];
      head := (head + 1) % slots.Length;
      return Some(job);
    }
  }

  lemma SubmitFits(r: Ring)
    requires Sized(r)
    ensures (r.tail + 1) % |r.slots| == r.head <==> Len(r) == |r.slots| - 1
  {
    WrapsAround(r.tail, |r.slots|);
  }
}
