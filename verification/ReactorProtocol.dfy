/** One shard of the reactor under every interleaving of its worker with submitters,
    cancellers and shutdown. A label is one atomic step; its arguments are the choices of the
    kernel and of the scheduler. */
module ReactorProtocol {
  import opened Wrappers
  import opened ReactorShard

  const MAX_EVENTS: nat := 256
  const WAKE_LIMIT: nat := 0xFFFF_FFFF_FFFF_FFFE

  /** An event of one epoll_wait; `owner` records which operation had the descriptor then. */
  datatype PollEvent = WakeUp | OnSocket(fd: int, owner: Id, failed: bool, writable: bool)

  datatype Worker =
    | Poll
    | Waiting
    | Handling(events: seq<PollEvent>, woke: bool)
    | Draining
    | Starting(batch: seq<Id>)
    | Scanning(todo: set<Id>, hits: seq<Id>)
    | Sweeping
    | Leaving
    | Cleaning(batch: seq<Id>)
    | Gone

  datatype Shutdown = NotStarted | OwesWake | Woken | Closing(leftovers: seq<Id>) | Complete

  /** `placed` are operations whose submitter has chosen this shard and not yet locked it,
      `refused` those whose submitter found it closed; `owed` counts the wake-ups that
      submitters and cancellers have still to write. */
  datatype State = State(
    core: Core, placed: set<Id>, refused: set<Id>, pending: seq<Id>, cancelRequested: set<Id>,
    owed: nat, wakeups: nat, closed: bool, stop: bool, worker: Worker, shutdown: Shutdown)

  const INITIAL: State := State(EMPTY, {}, {}, [], {}, 0, 0, false, false, Poll, NotStarted)

  datatype Label =
    // submit
    | Place(id: Id, tls: bool, size: nat, maxResponse: nat, flagged: bool)
    | Enqueue(id: Id)
    | Refuse(id: Id)
    // cancel, and the wake-up that ends submit and cancel
    | RequestCancel(id: Id)
    | Wake
    | StrayWake
    // shutdown
    | BeginShutdown
    | WakeForShutdown
    | CloseShard
    | FinishLeftovers(rest: seq<Id>)
    | ShutdownAgain
    // the worker
    | CheckStop
    | Gather(events: seq<PollEvent>)
    | WaitInterrupted
    | WaitFailed
    | HandleEvent(k: Kernel)
    | EventsDone
    | Drain
    | Start(socket: Socket, due: int, k: Kernel)
    | StartsDone
    | ScanOne(id: Id)
    | ScanDone
    | Sweep(now: int, expired: seq<Id>, later: multiset<(int, int)>)
    | Leave
    | Clean(rest: seq<Id>)

  function Registered(c: Core): set<Id> {
    set fd | fd in c.live :: c.live[fd]
  }

  /** An event-descriptor counter never passes its limit; a write that would is dropped. */
  function Bump(wakeups: nat): nat {
    if wakeups < WAKE_LIMIT then wakeups + 1 else wakeups
  }

  ghost predicate Known(c: Core, ids: seq<Id>) {
    forall id :: id in ids ==> id in c.ops
  }

  /** The list holds exactly the operations in the table. */
  ghost predicate Lists(c: Core, ids: seq<Id>) {
    Known(c, ids) && forall id :: id in ids <==> id in Registered(c)
  }

  ghost predicate Gathered(s: State, e: PollEvent) {
    if e.WakeUp? then s.wakeups > 0 else e.fd in s.core.armed && e.fd in s.core.live && s.core.live[e.fd] == e.owner
  }

  ghost predicate Enabled(s: State, l: Label) {
    match l
    case Place(id, _, _, _, _) => id !in s.core.ops
    case Enqueue(id) => id in s.placed
    case Refuse(id) => id in s.refused && id in s.core.ops
    case RequestCancel(id) => id in s.core.ops
    case Wake => s.owed > 0
    case StrayWake => true
    case BeginShutdown => s.shutdown == NotStarted
    case WakeForShutdown => s.shutdown == OwesWake
    case CloseShard => s.shutdown == Woken && s.worker == Gone
    case FinishLeftovers(rest) => s.shutdown.Closing? && Known(s.core, s.shutdown.leftovers) && Lists(s.core, rest)
    case ShutdownAgain => s.stop
    case CheckStop => s.worker == Poll
    case Gather(events) =>
      s.worker == Waiting && |events| <= MAX_EVENTS && forall i :: 0 <= i < |events| ==> Gathered(s, events[i])
    case WaitInterrupted => s.worker == Waiting
    case WaitFailed => s.worker == Waiting
    case HandleEvent(_) => s.worker.Handling? && s.worker.events != [] && Reaches(s)
    case EventsDone => s.worker.Handling? && s.worker.events == []
    case Drain => s.worker == Draining
    case Start(socket, _, _) =>
      && s.worker.Starting? && s.worker.batch != [] && s.worker.batch[0] in s.core.ops
      && (socket.Opened? ==> socket.fd !in s.core.sockets)
    case StartsDone => s.worker.Starting? && s.worker.batch == []
    case ScanOne(id) => s.worker.Scanning? && id in s.worker.todo
    case ScanDone => s.worker.Scanning? && s.worker.todo == {} && Known(s.core, s.worker.hits)
    case Sweep(now, expired, later) =>
      s.worker == Sweeping && Known(s.core, expired) && Collected(s.core, now, expired, later)
    case Leave => s.worker == Leaving
    case Clean(rest) => s.worker.Cleaning? && Known(s.core, s.worker.batch) && Lists(s.core, rest)
  }

  /** The table entry that an event is looked up in belongs to a known operation. */
  ghost predicate Reaches(s: State)
    requires s.worker.Handling? && s.worker.events != []
  {
    var e := s.worker.events[0];
    e.OnSocket? && e.fd in s.core.live ==> s.core.live[e.fd] in s.core.ops
  }

  function HandleNext(s: State, k: Kernel): State
    requires s.worker.Handling? && s.worker.events != [] && Reaches(s)
  {
    var e, rest := s.worker.events[0], s.worker.events[1..];
    if e.WakeUp? then s.(wakeups := 0, worker := Handling(rest, true))
    else if e.fd !in s.core.live then s.(worker := Handling(rest, s.worker.woke))
    else
      s.(core := Advance(s.core, s.core.live[e.fd], e.failed, e.writable, k), worker := Handling(rest, s.worker.woke))
  }

  ghost function Next(s: State, l: Label): State
    requires Enabled(s, l)
  {
    match l
    case Place(id, tls, size, maxResponse, flagged) =>
      s.(core := WithOp(s.core, id, NewOp(tls, size, maxResponse)), placed := s.placed + {id},
         cancelRequested := if flagged then s.cancelRequested + {id} else s.cancelRequested)
    case Enqueue(id) =>
      if s.closed then s.(placed := s.placed - {id}, refused := s.refused + {id})
      else s.(placed := s.placed - {id}, pending := s.pending + [id], owed := s.owed + 1)
    case Refuse(id) => s.(core := Finish(s.core, id, Cancelled), refused := s.refused - {id})
    case RequestCancel(id) => s.(cancelRequested := s.cancelRequested + {id}, owed := s.owed + 1)
    case Wake => s.(owed := s.owed - 1, wakeups := Bump(s.wakeups))
    case StrayWake => s.(wakeups := Bump(s.wakeups))
    case BeginShutdown => s.(stop := true, shutdown := OwesWake)
    case WakeForShutdown => s.(wakeups := Bump(s.wakeups), shutdown := Woken)
    case CloseShard => s.(closed := true, shutdown := Closing(s.pending), pending := [])
    case FinishLeftovers(rest) =>
      s.(core := FinishAll(FinishAll(s.core, s.shutdown.leftovers), rest), shutdown := Complete)
    case ShutdownAgain => s
    case CheckStop => s.(worker := if s.stop then Leaving else Waiting)
    case Gather(events) => s.(worker := Handling(events, false))
    case WaitInterrupted => s.(worker := Poll)
    case WaitFailed => s.(worker := Leaving)
    case HandleEvent(k) => HandleNext(s, k)
    case EventsDone => s.(worker := if s.worker.woke then Draining else Sweeping)
    case Drain => s.(worker := Starting(s.pending), pending := [])
    case Start(socket, due, k) =>
      var id := s.worker.batch[0];
      s.(core := BeginConnect(s.core, id, id in s.cancelRequested, socket, due, k),
         worker := Starting(s.worker.batch[1..]))
    case StartsDone => s.(worker := Scanning(Registered(s.core), []))
    case ScanOne(id) =>
      var hits := if id in s.cancelRequested then s.worker.hits + [id] else s.worker.hits;
      s.(worker := Scanning(s.worker.todo - {id}, hits))
    case ScanDone => s.(core := FinishAll(s.core, s.worker.hits), worker := Sweeping)
    case Sweep(_, expired, later) => s.(core := Swept(s.core, expired, later), worker := Poll)
    case Leave => s.(worker := Cleaning(s.pending), pending := [])
    case Clean(rest) => s.(core := FinishAll(FinishAll(s.core, s.worker.batch), rest), worker := Gone)
  }

  // ---- the invariant -------------------------------------------------------------------------

  ghost predicate Unstarted(c: Core, id: Id) {
    id in c.ops && !c.ops[id].finished && c.ops[id].fd < 0
  }

  function Batch(w: Worker): seq<Id> {
    match w
    case Starting(batch) => batch
    case Cleaning(batch) => batch
    case _ => []
  }

  function Leftovers(d: Shutdown): seq<Id> {
    if d.Closing? then d.leftovers else []
  }

  /** Everyone who has still to start or to refuse an operation. */
  function Holders(s: State): multiset<Id> {
    multiset(s.placed) + multiset(s.refused) + multiset(s.pending)
    + multiset(Batch(s.worker)) + multiset(Leftovers(s.shutdown))
  }

  /** Every operation that is neither started nor finished is held exactly once; no other is held. */
  ghost predicate HeldOnce(s: State) {
    forall id: Id :: Holders(s)[id] == if Unstarted(s.core, id) then 1 else 0
  }

  ghost predicate Lifecycle(s: State) {
    && (s.closed <==> s.shutdown.Closing? || s.shutdown == Complete)
    && (s.closed ==> s.pending == [] && s.worker == Gone)
    && (s.refused != {} ==> s.closed)
    && (s.stop <==> s.shutdown != NotStarted)
    && (s.worker == Gone ==> s.core.live == map[])
    && (s.worker.Scanning? ==> Known(s.core, s.worker.hits)
                               && forall id :: id in s.worker.todo || id in s.worker.hits ==>
                                                 id in s.core.ops && !Unstarted(s.core, id))
  }

  /** No event still to be handled names a descriptor that another operation has taken over. */
  ghost predicate EventsOwn(s: State) {
    s.worker.Handling? ==>
      forall e :: e in s.worker.events && e.OnSocket? && e.fd in s.core.live ==> s.core.live[e.fd] == e.owner
  }

  /** The worker will look at its shared state: a wake-up is in the counter or owed, or has been
      read and not yet acted on, or the worker has still to take the queue on its way out. */
  ghost predicate Alert(s: State) {
    || s.wakeups > 0 || s.owed > 0
    || (s.worker.Handling? && s.worker.woke) || s.worker == Draining || s.worker == Leaving
  }

  /** The worker has taken the queue for the last time. */
  predicate Departed(w: Worker) {
    w.Cleaning? || w == Gone
  }

  ghost predicate CancelsDue(s: State, id: Id) {
    || Alert(s) || s.worker.Starting? || s.worker.Cleaning?
    || (s.worker.Scanning? && (id in s.worker.todo || id in s.worker.hits))
  }

  ghost predicate NoLostWakeUp(s: State) {
    && (s.pending != [] && !Departed(s.worker) ==> Alert(s))
    && (forall id :: id in s.cancelRequested && id in s.core.ops && s.core.ops[id].fd >= 0 ==> CancelsDue(s, id))
    && (s.stop && s.worker == Waiting ==> s.wakeups > 0 || s.shutdown == OwesWake)
  }

  ghost predicate Inv(s: State) {
    Valid(s.core) && HeldOnce(s) && Lifecycle(s) && EventsOwn(s) && NoLostWakeUp(s)
  }

  lemma InitialInv()
    ensures Inv(INITIAL)
  {
  }

  // ---- steps that leave the operations alone ----------------------------------------------------

  ghost predicate Quiet(l: Label) {
    !(l.Place? || l.Refuse? || l.FinishLeftovers? || l.HandleEvent? || l.Start? || l.ScanDone? || l.Sweep? || l.Clean?)
  }

  ghost predicate ByWorker(l: Label) {
    || l.CheckStop? || l.Gather? || l.WaitInterrupted? || l.WaitFailed? || l.EventsDone?
    || l.Drain? || l.StartsDone? || l.ScanOne? || l.Leave?
  }

  /** Moving an operation from hand to hand loses and repeats none. */
  lemma EnqueueHeld(s: State, id: Id)
    requires HeldOnce(s) && id in s.placed
    ensures HeldOnce(Next(s, Enqueue(id)))
  {
    var s' := Next(s, Enqueue(id));
    assert Holders(s)[id] == 1;
    if s.closed {
      assert multiset(s'.placed) + multiset(s'.refused) == multiset(s.placed) + multiset(s.refused);
    } else {
      assert multiset(s'.placed) + multiset(s'.pending) == multiset(s.placed) + multiset(s.pending);
    }
    assert Holders(s') == Holders(s);
  }

  lemma CallersHolders(s: State, l: Label)
    requires Enabled(s, l) && Quiet(l) && !l.Enqueue? && !ByWorker(l)
    ensures Next(s, l).core == s.core && Holders(Next(s, l)) == Holders(s)
  {
    hide Gathered, Lists, Collected, Unstarted, Known;
  }

  /** The worker takes the whole queue. */
  lemma TakenHolders(s: State, s': State)
    requires Batch(s.worker) == [] && Batch(s'.worker) == s.pending && s'.pending == []
    requires s'.placed == s.placed && s'.refused == s.refused && s'.shutdown == s.shutdown
    ensures Holders(s') == Holders(s)
  {
  }

  lemma KeptHolders(s: State, s': State)
    requires Batch(s'.worker) == Batch(s.worker) && s'.pending == s.pending
    requires s'.placed == s.placed && s'.refused == s.refused && Leftovers(s'.shutdown) == Leftovers(s.shutdown)
    ensures Holders(s') == Holders(s)
  {
  }

  lemma WorkerHolders(s: State, l: Label)
    requires Enabled(s, l) && ByWorker(l)
    ensures Next(s, l).core == s.core && Holders(Next(s, l)) == Holders(s)
  {
    hide Gathered, Lists, Collected, Unstarted, Known, Holders;
    if l.Drain? || l.Leave? {
      TakenHolders(s, Next(s, l));
    } else {
      KeptHolders(s, Next(s, l));
    }
  }

  lemma SameHolders(s: State, s': State)
    requires HeldOnce(s) && s'.core == s.core && Holders(s') == Holders(s)
    ensures HeldOnce(s')
  {
  }

  lemma QuietHeld(s: State, l: Label)
    requires HeldOnce(s) && Enabled(s, l) && Quiet(l)
    ensures Next(s, l).core == s.core && HeldOnce(Next(s, l))
  {
    if l.Enqueue? {
      EnqueueHeld(s, l.id);
    } else {
      if ByWorker(l) {
        WorkerHolders(s, l);
      } else {
        CallersHolders(s, l);
      }
      hide Enabled, Next, Holders, HeldOnce;
      SameHolders(s, Next(s, l));
    }
  }

  lemma QuietCallers(s: State, l: Label)
    requires Lifecycle(s) && EventsOwn(s) && NoLostWakeUp(s) && Enabled(s, l) && Quiet(l) && !ByWorker(l)
    ensures Lifecycle(Next(s, l)) && EventsOwn(Next(s, l)) && NoLostWakeUp(Next(s, l))
  {
  }

  lemma QuietScan(s: State, l: Label)
    requires TableOwns(s.core) && Lifecycle(s) && EventsOwn(s) && NoLostWakeUp(s) && Enabled(s, l)
    requires l.StartsDone? || l.ScanOne?
    ensures Lifecycle(Next(s, l)) && EventsOwn(Next(s, l)) && NoLostWakeUp(Next(s, l))
  {
  }

  lemma QuietTurn(s: State, l: Label)
    requires Lifecycle(s) && EventsOwn(s) && NoLostWakeUp(s) && Enabled(s, l) && ByWorker(l)
    requires !l.StartsDone? && !l.ScanOne?
    ensures Lifecycle(Next(s, l)) && EventsOwn(Next(s, l)) && NoLostWakeUp(Next(s, l))
  {
    hide Known, Unstarted;
  }

  lemma QuietWorker(s: State, l: Label)
    requires TableOwns(s.core) && Lifecycle(s) && EventsOwn(s) && NoLostWakeUp(s) && Enabled(s, l) && ByWorker(l)
    ensures Lifecycle(Next(s, l)) && EventsOwn(Next(s, l)) && NoLostWakeUp(Next(s, l))
  {
    hide Lifecycle, EventsOwn, NoLostWakeUp, Enabled, Next, TableOwns;
    if l.StartsDone? || l.ScanOne? {
      QuietScan(s, l);
    } else {
      QuietTurn(s, l);
    }
  }

  // ---- steps that change operations ----------------------------------------------------------

  lemma PlaceHeld(s: State, id: Id, tls: bool, size: nat, maxResponse: nat, flagged: bool)
    requires HeldOnce(s) && id !in s.core.ops
    ensures HeldOnce(Next(s, Place(id, tls, size, maxResponse, flagged)))
  {
    var s' := Next(s, Place(id, tls, size, maxResponse, flagged));
    assert Holders(s)[id] == 0;
    assert multiset(s'.placed) == multiset(s.placed) + multiset{id};
    assert Holders(s') == Holders(s) + multiset{id};
    forall i: Id ensures Holders(s')[i] == if Unstarted(s'.core, i) then 1 else 0 {
      assert Unstarted(s'.core, i) <==> i == id || Unstarted(s.core, i);
    }
  }

  lemma PlaceRest(s: State, id: Id, tls: bool, size: nat, maxResponse: nat, flagged: bool)
    requires TableOwns(s.core) && Lifecycle(s) && EventsOwn(s) && NoLostWakeUp(s) && id !in s.core.ops
    ensures var s' := Next(s, Place(id, tls, size, maxResponse, flagged));
            Lifecycle(s') && EventsOwn(s') && NoLostWakeUp(s')
  {
  }

  lemma PlaceKeeps(s: State, id: Id, tls: bool, size: nat, maxResponse: nat, flagged: bool)
    requires Inv(s) && id !in s.core.ops
    ensures Inv(Next(s, Place(id, tls, size, maxResponse, flagged)))
  {
    PlaceSound(s.core, id, NewOp(tls, size, maxResponse));
    PlaceHeld(s, id, tls, size, maxResponse, flagged);
    PlaceRest(s, id, tls, size, maxResponse, flagged);
    hide Valid, HeldOnce, Lifecycle, EventsOwn, NoLostWakeUp;
  }

  lemma PlaceSound(c: Core, id: Id, op: Op)
    requires Valid(c) && id !in c.ops && Coherent(op) && AtRest(op) && op.fd < 0
    ensures Valid(WithOp(c, id, op))
  {
    hide Coherent, AtRest;
    var c' := WithOp(c, id, op);
    assert forall fd :: fd in c.live ==> c.live[fd] != id;
    forall e: (int, int) ensures c'.deadlines[e] == if IsDeadline(c', e, {}) then 1 else 0 {
      assert IsDeadline(c', e, {}) <==> IsDeadline(c, e, {});
    }
  }

  /** The operations change, and those released by their holders are exactly those that cease
      to be unstarted. */
  lemma HeldAfter(s: State, s': State, released: multiset<Id>)
    requires HeldOnce(s) && Holders(s') + released == Holders(s)
    requires forall id: Id :: Unstarted(s'.core, id) <==> Unstarted(s.core, id) && released[id] == 0
    ensures HeldOnce(s')
  {
    hide Unstarted, Holders;
    forall id: Id ensures Holders(s')[id] == if Unstarted(s'.core, id) then 1 else 0 {
      assert Holders(s)[id] == Holders(s')[id] + released[id];
    }
  }

  lemma HeldUnstarted(s: State, id: Id)
    requires HeldOnce(s) && Holders(s)[id] > 0
    ensures Unstarted(s.core, id)
  {
  }

  /** Whoever has a socket now had it before. */
  ghost predicate OldSockets(c: Core, c': Core) {
    && (forall id :: id in c'.ops && c'.ops[id].fd >= 0 ==> id in c.ops && c.ops[id].fd >= 0)
    && (forall fd :: fd in c'.live ==> fd in c.live && c'.live[fd] == c.live[fd])
    && c'.ops.Keys == c.ops.Keys
  }

  lemma ShrinkOld(c: Core, c': Core)
    requires Valid(c) && Valid(c') && Shrinks(c, c')
    ensures OldSockets(c, c')
  {
    hide Coherent, DeadlinesExact, NoLeaks, Progress, AtRest;
  }

  lemma RefuseHeld(s: State, id: Id)
    requires HeldOnce(s) && id in s.refused && id in s.core.ops
    requires Finish(s.core, id, Cancelled).ops == s.core.ops[id := Finish(s.core, id, Cancelled).ops[id]]
    requires Finish(s.core, id, Cancelled).ops[id].finished
    ensures HeldOnce(Next(s, Refuse(id)))
  {
    hide Finish;
    var s' := Next(s, Refuse(id));
    assert multiset(s'.refused) + multiset{id} == multiset(s.refused);
    assert Holders(s') + multiset{id} == Holders(s);
    HeldAfter(s, s', multiset{id});
  }

  /** A step that only ends operations keeps the rest of the invariant, if nothing else is
      lost that the invariant relies on. */
  lemma RefuseKeeps(s: State, id: Id)
    requires Inv(s) && id in s.refused && id in s.core.ops
    ensures Inv(Next(s, Refuse(id)))
  {
    var s' := Next(s, Refuse(id));
    assert Holders(s)[id] > 0;
    HeldUnstarted(s, id);
    EndOne(s.core, id, Cancelled, {});
    RefuseHeld(s, id);
    ShrinkOld(s.core, s'.core);
    hide Valid, HeldOnce, Shrinks, Finish;
  }

  /** Handling an event changes the one operation it was gathered for. */
  lemma HandleCore(s: State, k: Kernel)
    requires Valid(s.core) && s.worker.Handling? && s.worker.events != [] && Reaches(s)
    ensures var s' := HandleNext(s, k);
            && Valid(s'.core) && OldSockets(s.core, s'.core)
            && (forall id :: Unstarted(s'.core, id) <==> Unstarted(s.core, id))
  {
    var e := s.worker.events[0];
    if e.OnSocket? && e.fd in s.core.live {
      var id := s.core.live[e.fd];
      AdvanceValid(s.core, e.fd, e.failed, e.writable, k);
    }
  }

  lemma AdvanceValid(c: Core, fd: int, failed: bool, writable: bool, k: Kernel)
    requires Valid(c) && fd in c.live && c.live[fd] in c.ops
    ensures var c' := Advance(c, c.live[fd], failed, writable, k);
            && Valid(c') && OldSockets(c, c') && Shrinks(c, c')
            && (forall id :: Unstarted(c', id) <==> Unstarted(c, id))
  {
    var id, c' := c.live[fd], Advance(c, c.live[fd], failed, writable, k);
    AdvanceGood(c, id, failed, writable, k);
    FrameShrinks(c, c', id);
    hide Advance;
    assert Valid(c') by {
      hide Sound, Progress;
    }
    ShrinkOld(c, c');
    hide Sound, AtRest;
    assert Progress(c.ops[id], c'.ops[id]);
  }

  lemma HandleRest(s: State, k: Kernel)
    requires Lifecycle(s) && EventsOwn(s) && NoLostWakeUp(s) && Enabled(s, HandleEvent(k))
    requires OldSockets(s.core, HandleNext(s, k).core)
    ensures var s' := HandleNext(s, k); Lifecycle(s') && EventsOwn(s') && NoLostWakeUp(s')
  {
    hide Advance, Known;
  }

  lemma HandleKeeps(s: State, k: Kernel)
    requires Inv(s) && Enabled(s, HandleEvent(k))
    ensures Inv(Next(s, HandleEvent(k)))
  {
    var s' := HandleNext(s, k);
    HandleCore(s, k);
    HandleRest(s, k);
    hide Valid, Advance, Unstarted, Lifecycle, EventsOwn, NoLostWakeUp;
    KeptHolders(s, s');
    HeldAfter(s, s', multiset{});
  }

  // ---- starting -------------------------------------------------------------------------

  lemma BatchFirst(s: State)
    requires HeldOnce(s) && s.worker.Starting? && s.worker.batch != []
    ensures Unstarted(s.core, s.worker.batch[0])
    ensures Holders(s.(worker := Starting(s.worker.batch[1..]))) + multiset{s.worker.batch[0]} == Holders(s)
  {
    var batch := s.worker.batch;
    assert batch == [batch[0]] + batch[1..];
    assert Holders(s)[batch[0]] > 0;
    HeldUnstarted(s, batch[0]);
  }

  /** An operation that was started owns a socket or has ended. */
  lemma StartCore(c: Core, id: Id, cancelled: bool, socket: Socket, due: int, k: Kernel)
    requires Valid(c) && Unstarted(c, id) && (socket.Opened? ==> socket.fd !in c.sockets)
    ensures var c' := BeginConnect(c, id, cancelled, socket, due, k);
            && Valid(c') && FrameNew(c, c', id)
            && (forall i :: Unstarted(c', i) <==> Unstarted(c, i) && i != id)
            && (cancelled ==> c'.ops[id].fd < 0)
  {
    var c' := BeginConnect(c, id, cancelled, socket, due, k);
    BeginConnectGood(c, id, cancelled, socket, due, k);
    StartLeaves(c, id, cancelled, socket, due, k);
    hide BeginConnect, Sound;
    assert Valid(c');
    hide Progress, AtRest;
  }

  lemma StartLeaves(c: Core, id: Id, cancelled: bool, socket: Socket, due: int, k: Kernel)
    requires Valid(c) && Unstarted(c, id) && (socket.Opened? ==> socket.fd !in c.sockets)
    ensures var c' := BeginConnect(c, id, cancelled, socket, due, k);
            id in c'.ops && !Unstarted(c', id) && (cancelled ==> c'.ops[id].fd < 0)
  {
    hide Sound, Arm, Connected, Attach, Ready, GoodStep;
    if !cancelled && socket.Opened? {
      AttachReady(c, id, socket.fd, due);
      var c1 := Attach(c, id, socket.fd, due);
      assert c1.ops[id].fd >= 0 by {
        ReadyFd(c1, id);
      }
      ReadySound(c1, id);
      if socket.inProgress {
        ArmGood(c1, id, true, k.armOk);
        FdKept(c1, Arm(c1, id, true, k.armOk), id);
      } else {
        ConnectedGood(c1, id, k);
        FdKept(c1, Connected(c1, id, k), id);
      }
    }
  }

  lemma ReadyFd(c: Core, id: Id)
    requires Ready(c, id)
    ensures id in c.ops && c.ops[id].fd >= 0
  {
  }

  lemma FdKept(c: Core, c': Core, id: Id)
    requires GoodStep(c, c', id) && c.ops[id].fd >= 0
    ensures id in c'.ops && !Unstarted(c', id)
  {
  }

  lemma StartRest(s: State, socket: Socket, due: int, k: Kernel)
    requires Lifecycle(s) && EventsOwn(s) && NoLostWakeUp(s) && Enabled(s, Start(socket, due, k))
    requires FrameNew(s.core, Next(s, Start(socket, due, k)).core, s.worker.batch[0])
    ensures var s' := Next(s, Start(socket, due, k)); Lifecycle(s') && EventsOwn(s') && NoLostWakeUp(s')
  {
    hide BeginConnect, Progress, Known;
    assert Next(s, Start(socket, due, k)).core.ops.Keys == s.core.ops.Keys;
  }

  lemma StartHeld(s: State, socket: Socket, due: int, k: Kernel)
    requires HeldOnce(s) && Enabled(s, Start(socket, due, k))
    requires forall i :: Unstarted(Next(s, Start(socket, due, k)).core, i) <==>
        Unstarted(s.core, i) && i != s.worker.batch[0]
    ensures HeldOnce(Next(s, Start(socket, due, k)))
  {
    hide BeginConnect, Unstarted, HeldOnce, Known;
    var id, s' := s.worker.batch[0], Next(s, Start(socket, due, k));
    BatchFirst(s);
    KeptHolders(s.(worker := Starting(s.worker.batch[1..])), s');
    HeldAfter(s, s', multiset{id});
  }

  lemma StartKeeps(s: State, socket: Socket, due: int, k: Kernel)
    requires Inv(s) && Enabled(s, Start(socket, due, k))
    ensures Inv(Next(s, Start(socket, due, k)))
  {
    hide BeginConnect, Unstarted, HeldOnce, FrameNew, Known, Holders, Valid, Lifecycle, EventsOwn, NoLostWakeUp;
    var id := s.worker.batch[0];
    BatchFirst(s);
    StartCore(s.core, id, id in s.cancelRequested, socket, due, k);
    StartHeld(s, socket, due, k);
    StartRest(s, socket, due, k);
  }

  // ---- ending many ------------------------------------------------------------------------

  /** Those that were ended are finished and the others untouched. */
  ghost predicate Ended(c: Core, c': Core, ids: set<Id>) {
    && OldSockets(c, c')
    && (forall id :: id in ids && id in c.ops ==> c'.ops[id].finished && c'.ops[id].fd < 0)
    && (forall id :: id in c.ops && id !in ids ==> c'.ops[id] == c.ops[id])
  }

  lemma EndedOf(c: Core, c': Core, ids: seq<Id>)
    requires Valid(c) && Valid(c') && Shrinks(c, c') && AllEnded(c, c', ids)
    ensures Ended(c, c', set id | id in ids)
  {
    ShrinkOld(c, c');
    forall id | id in ids && id in c.ops ensures c'.ops[id].fd < 0 {
      OpCoherent(c', id, {});
    }
    hide Valid, Shrinks, Coherent;
  }

  lemma EndedTwice(c: Core, c1: Core, c2: Core, a: set<Id>, b: set<Id>)
    requires Ended(c, c1, a) && Ended(c1, c2, b)
    ensures Ended(c, c2, a + b)
  {
  }

  lemma FinishTwice(c: Core, a: seq<Id>, b: seq<Id>)
    requires Valid(c) && Known(c, a) && Known(c, b)
    ensures var c' := FinishAll(FinishAll(c, a), b);
            Valid(c') && Ended(c, c', (set id | id in a) + (set id | id in b))
  {
    hide Valid, Shrinks, AllEnded;
    var c1 := FinishAll(c, a);
    FinishAllGood(c, a);
    EndedOf(c, c1, a);
    FinishAllGood(c1, b);
    EndedOf(c1, FinishAll(c1, b), b);
    EndedTwice(c, c1, FinishAll(c1, b), set id | id in a, set id | id in b);
  }

  lemma EndedEmpty(c: Core, c': Core, ids: set<Id>)
    requires Valid(c') && Ended(c, c', ids) && Registered(c) <= ids && Valid(c)
    ensures c'.live == map[]
  {
    hide OpsCoherent, DeadlinesExact, NoLeaks;
    forall fd ensures fd !in c'.live {
      assert fd in c.live ==> c.live[fd] in Registered(c);
    }
    assert c'.live.Keys == {};
  }

  /** The batch is released and what was registered was not held, so every operation is still
      held as it should be. */
  lemma EndedHeld(s: State, s': State, released: seq<Id>, others: set<Id>)
    requires HeldOnce(s) && Holders(s') + multiset(released) == Holders(s)
    requires Ended(s.core, s'.core, (set id | id in released) + others)
    requires forall id :: id in others ==> !Unstarted(s.core, id)
    ensures HeldOnce(s')
  {
    forall id: Id ensures Unstarted(s'.core, id) <==> Unstarted(s.core, id) && multiset(released)[id] == 0 {
      assert multiset(released)[id] == 0 <==> id !in released;
    }
    hide HeldOnce;
    HeldAfter(s, s', multiset(released));
  }

  lemma EndedHeldNone(s: State, s': State, ids: seq<Id>)
    requires HeldOnce(s) && Holders(s') == Holders(s) && Ended(s.core, s'.core, set id | id in ids)
    requires forall id :: id in ids ==> !Unstarted(s.core, id)
    ensures HeldOnce(s')
  {
    hide Unstarted, HeldOnce, Holders;
    assert (set id | id in []) + (set id | id in ids) == set id | id in ids;
    EndedHeld(s, s', [], set id | id in ids);
  }

  lemma RegisteredStarted(c: Core)
    requires Valid(c)
    ensures forall id :: id in Registered(c) ==> !Unstarted(c, id)
  {
  }

  ghost predicate Rest(s: State) {
    Lifecycle(s) && EventsOwn(s) && NoLostWakeUp(s)
  }

  lemma ScanDoneRest(s: State, c: Core)
    requires Rest(s) && s.worker.Scanning? && s.worker.todo == {} && Ended(s.core, c, set id | id in s.worker.hits)
    ensures Rest(s.(core := c, worker := Sweeping))
  {
    hide Unstarted;
  }

  lemma HitsStarted(s: State)
    requires Lifecycle(s) && s.worker.Scanning?
    ensures forall id :: id in s.worker.hits ==> !Unstarted(s.core, id)
  {
    hide Unstarted, Known;
  }

  lemma ScanDoneKeeps(s: State)
    requires Inv(s) && Enabled(s, ScanDone)
    ensures Inv(Next(s, ScanDone))
  {
    var s' := Next(s, ScanDone);
    hide Valid, Shrinks, AllEnded, FinishAll, Unstarted, Ended, HeldOnce, Holders, Lifecycle, EventsOwn, NoLostWakeUp;
    HitsStarted(s);
    FinishAllGood(s.core, s.worker.hits);
    EndedOf(s.core, s'.core, s.worker.hits);
    ScanDoneRest(s, s'.core);
    KeptHolders(s, s');
    EndedHeldNone(s, s', s.worker.hits);
  }

  lemma SweepRest(s: State, c: Core, ids: set<Id>)
    requires Rest(s) && s.worker == Sweeping && Ended(s.core, c, ids)
    ensures Rest(s.(core := c, worker := Poll))
  {
    hide Unstarted;
  }

  lemma SweepCore(c: Core, now: int, expired: seq<Id>, later: multiset<(int, int)>)
    requires Valid(c) && Known(c, expired) && Collected(c, now, expired, later)
    ensures Valid(Swept(c, expired, later)) && Ended(c, Swept(c, expired, later), set id | id in expired)
    ensures forall id :: id in expired ==> !Unstarted(c, id)
  {
    hide Valid, Shrinks, AllEnded, Swept, Collected, Unstarted, Ended;
    SweptGood(c, now, expired, later);
    EndedOf(c, Swept(c, expired, later), expired);
    OverdueStarted(c, now, expired, later);
  }

  lemma SweptState(s: State, now: int, expired: seq<Id>, later: multiset<(int, int)>)
    requires Inv(s) && s.worker == Sweeping && Known(s.core, expired) && Collected(s.core, now, expired, later)
    ensures Inv(s.(core := Swept(s.core, expired, later), worker := Poll))
  {
    hide Valid, Swept, Collected, Unstarted, Ended, HeldOnce, Holders, Lifecycle, EventsOwn, NoLostWakeUp;
    var s' := s.(core := Swept(s.core, expired, later), worker := Poll);
    SweepCore(s.core, now, expired, later);
    SweepRest(s, s'.core, set id | id in expired);
    KeptHolders(s, s');
    EndedHeldNone(s, s', expired);
  }

  lemma SweepKeeps(s: State, now: int, expired: seq<Id>, later: multiset<(int, int)>)
    requires Inv(s) && Enabled(s, Sweep(now, expired, later))
    ensures Inv(Next(s, Sweep(now, expired, later)))
  {
    hide Inv, Swept, Collected;
    SweptState(s, now, expired, later);
  }

  lemma OverdueStarted(c: Core, now: int, expired: seq<Id>, later: multiset<(int, int)>)
    requires Valid(c) && Collected(c, now, expired, later)
    ensures forall id :: id in expired ==> !Unstarted(c, id)
  {
    forall id | id in expired ensures !Unstarted(c, id) {
      assert Overdue(c, now, id);
    }
  }

  lemma LeftoversReleased(s: State, s': State)
    requires s.shutdown.Closing? && s'.shutdown == Complete && s'.worker == s.worker && s'.pending == s.pending
    requires s'.placed == s.placed && s'.refused == s.refused
    ensures Holders(s') + multiset(s.shutdown.leftovers) == Holders(s)
  {
  }

  lemma FinishLeftoversRest(s: State, c: Core, ids: set<Id>)
    requires Rest(s) && s.shutdown.Closing? && Ended(s.core, c, ids) && c.live == map[]
    ensures Rest(s.(core := c, shutdown := Complete))
  {
    hide Unstarted;
  }

  lemma FinishLeftoversKeeps(s: State, rest: seq<Id>)
    requires Inv(s) && Enabled(s, FinishLeftovers(rest))
    ensures Inv(Next(s, FinishLeftovers(rest)))
  {
    var s', ids := Next(s, FinishLeftovers(rest)), (set id | id in s.shutdown.leftovers) + (set id | id in rest);
    hide Valid, FinishAll, Unstarted, Ended, HeldOnce, Holders, Lifecycle, EventsOwn, NoLostWakeUp;
    FinishTwice(s.core, s.shutdown.leftovers, rest);
    RegisteredStarted(s.core);
    EndedEmpty(s.core, s'.core, ids);
    FinishLeftoversRest(s, s'.core, ids);
    LeftoversReleased(s, s');
    EndedHeld(s, s', s.shutdown.leftovers, set id | id in rest);
  }

  lemma BatchReleased(s: State, s': State)
    requires s.worker.Cleaning? && s'.worker == Gone && s'.shutdown == s.shutdown && s'.pending == s.pending
    requires s'.placed == s.placed && s'.refused == s.refused
    ensures Holders(s') + multiset(s.worker.batch) == Holders(s)
  {
  }

  lemma NoneLive(c: Core, id: Id)
    requires Valid(c) && c.live == map[] && id in c.ops
    ensures c.ops[id].fd < 0
  {
    hide OpsCoherent, DeadlinesExact, NoLeaks;
  }

  lemma CleanRest(s: State, c: Core, ids: set<Id>)
    requires Rest(s) && s.worker.Cleaning? && Ended(s.core, c, ids) && c.live == map[] && Valid(c)
    ensures Rest(s.(core := c, worker := Gone))
  {
    hide Unstarted, Valid;
    forall id | id in c.ops ensures c.ops[id].fd < 0 {
      NoneLive(c, id);
    }
  }

  lemma CleanKeeps(s: State, rest: seq<Id>)
    requires Inv(s) && Enabled(s, Clean(rest))
    ensures Inv(Next(s, Clean(rest)))
  {
    var s', ids := Next(s, Clean(rest)), (set id | id in s.worker.batch) + (set id | id in rest);
    hide Valid, FinishAll, Unstarted, Ended, HeldOnce, Holders, Lifecycle, EventsOwn, NoLostWakeUp;
    FinishTwice(s.core, s.worker.batch, rest);
    RegisteredStarted(s.core);
    EndedEmpty(s.core, s'.core, ids);
    CleanRest(s, s'.core, ids);
    BatchReleased(s, s');
    EndedHeld(s, s', s.worker.batch, set id | id in rest);
  }

  lemma QuietKeeps(s: State, l: Label)
    requires Inv(s) && Enabled(s, l) && Quiet(l)
    ensures Inv(Next(s, l))
  {
    QuietHeld(s, l);
    if ByWorker(l) {
      QuietWorker(s, l);
    } else {
      QuietCallers(s, l);
    }
    hide Enabled, Next, Valid, HeldOnce, Lifecycle, EventsOwn, NoLostWakeUp;
  }

  /** Every step of every thread keeps the invariant. */
  lemma StepKeeps(s: State, l: Label)
    requires Inv(s) && Enabled(s, l)
    ensures Inv(Next(s, l))
  {
    hide Inv, Next;
    if Quiet(l) {
      QuietKeeps(s, l);
    } else {
      match l
      case Place(id, tls, size, maxResponse, flagged) => PlaceKeeps(s, id, tls, size, maxResponse, flagged);
      case Refuse(id) => RefuseKeeps(s, id);
      case FinishLeftovers(rest) => FinishLeftoversKeeps(s, rest);
      case HandleEvent(k) => HandleKeeps(s, k);
      case Start(socket, due, k) => StartKeeps(s, socket, due, k);
      case ScanDone => ScanDoneKeeps(s);
      case Sweep(now, expired, later) => SweepKeeps(s, now, expired, later);
      case Clean(rest) => CleanKeeps(s, rest);
    }
  }
}
