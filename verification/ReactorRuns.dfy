/** What holds over every run of a shard. */
module ReactorRuns {
  import opened ReactorShard
  import opened ReactorProtocol
  import opened ReactorWorker

  ghost predicate IsRun(states: seq<State>, labels: seq<Label>) {
    && |states| == |labels| + 1 && states[0] == INITIAL
    && forall i :: 0 <= i < |labels| ==> Enabled(states[i], labels[i]) && states[i + 1] == Next(states[i], labels[i])
  }

  lemma {:induction false} RunInv(states: seq<State>, labels: seq<Label>, n: nat)
    requires IsRun(states, labels) && n < |states|
    ensures Inv(states[n])
  {
    hide Inv, Next, Enabled;
    if n == 0 {
      InitialInv();
    } else {
      RunInv(states, labels, n - 1);
      StepKeeps(states[n - 1], labels[n - 1]);
    }
  }

  // ---- wake-ups ---------------------------------------------------------------------------

  predicate Leaves(w: Worker) {
    w == Leaving || Departed(w)
  }

  lemma LeaveStep(s: State, l: Label)
    requires Enabled(s, l)
    ensures Leaves(Next(s, l).worker) ==> Leaves(s.worker) || s.stop || l == WaitFailed
    ensures s.stop ==> Next(s, l).stop
  {
    hide Advance, Finish, FinishAll, Swept, BeginConnect, Known, Lists, Collected, Gathered;
  }

  ghost predicate WaitHasFailed(labels: seq<Label>, n: nat)
    requires n <= |labels|
  {
    exists i :: 0 <= i < n && labels[i] == WaitFailed
  }

  /** The worker leaves its loop only because of shutdown or because waiting failed. */
  lemma {:induction false} LeftBecause(states: seq<State>, labels: seq<Label>, n: nat)
    requires IsRun(states, labels) && n < |states| && Leaves(states[n].worker)
    ensures states[n].stop || WaitHasFailed(labels, n)
  {
    hide Next, Enabled;
    if n > 0 {
      LeaveStep(states[n - 1], labels[n - 1]);
      if labels[n - 1] == WaitFailed {
        assert WaitHasFailed(labels, n);
      } else if Leaves(states[n - 1].worker) {
        LeftBecause(states, labels, n - 1);
      }
    }
  }

  /** No lost wake-up. A queue that is not empty has a worker that will look at it, or a
      shutdown call that has still to take it over, unless waiting has failed before; a requested
      cancel of a live operation will be looked at; a stop reaches a waiting worker. */
  lemma WakeUpsNotLost(states: seq<State>, labels: seq<Label>, n: nat)
    requires IsRun(states, labels) && n < |states|
    ensures var s := states[n];
            && (s.pending != [] ==>
                  || (!Departed(s.worker) && Alert(s))
                  || (Departed(s.worker) && s.stop && !s.closed)
                  || (Departed(s.worker) && WaitHasFailed(labels, n)))
            && (forall id :: id in s.cancelRequested && id in s.core.ops && s.core.ops[id].fd >= 0 ==>
                CancelsDue(s, id))
            && (s.stop && s.worker == Waiting ==> s.wakeups > 0 || s.shutdown == OwesWake)
  {
    hide Next, Enabled, IsRun, Valid, HeldOnce, EventsOwn, Alert, CancelsDue;
    RunInv(states, labels, n);
    if Departed(states[n].worker) {
      LeftBecause(states, labels, n);
    }
  }

  /** A worker that waits with no wake-up written or owed has nothing to do. */
  lemma IdleMeansDone(states: seq<State>, labels: seq<Label>, n: nat)
    requires IsRun(states, labels) && n < |states|
    requires states[n].worker == Waiting && states[n].wakeups == 0 && states[n].owed == 0
    ensures states[n].pending == []
    ensures forall id :: id in states[n].cancelRequested && id in states[n].core.ops ==> states[n].core.ops[id].fd < 0
    ensures states[n].stop ==> states[n].shutdown == OwesWake
  {
    hide Next, Enabled, IsRun;
    WakeUpsNotLost(states, labels, n);
  }

  ghost predicate WorkerStep(l: Label) {
    ByWorker(l) || l.HandleEvent? || l.Start? || l.ScanDone? || l.Sweep? || l.Clean?
  }

  lemma {:induction false} ListOf(ids: set<Id>) returns (list: seq<Id>)
    ensures forall id :: id in list <==> id in ids
  {
    if ids == {} {
      list := [];
    } else {
      var id :| id in ids;
      list := ListOf(ids - {id});
      list := list + [id];
    }
  }

  lemma BatchKnown(s: State)
    requires HeldOnce(s)
    ensures Known(s.core, Batch(s.worker)) && Known(s.core, Leftovers(s.shutdown))
  {
    forall id | id in Batch(s.worker) || id in Leftovers(s.shutdown) ensures id in s.core.ops {
      assert Holders(s)[id] > 0;
      HeldUnstarted(s, id);
    }
  }

  lemma RegisteredKnown(c: Core)
    requires Valid(c)
    ensures forall id :: id in Registered(c) ==> id in c.ops
  {
    hide OpsCoherent, DeadlinesExact, NoLeaks;
  }

  /** The worker is never stuck: until it is gone it always has a next step, whatever the
      kernel does and at whatever time the sweep runs. */
  lemma WorkerNeverStuck(states: seq<State>, labels: seq<Label>, n: nat, now: int, k: Kernel) returns (l: Label)
    requires IsRun(states, labels) && n < |states| && states[n].worker != Gone
    ensures WorkerStep(l) && Enabled(states[n], l) && (l.Sweep? ==> l.now == now)
  {
    RunInv(states, labels, n);
    l := NextStep(states[n], now, k);
  }

  lemma NextStep(s: State, now: int, k: Kernel) returns (l: Label)
    requires Inv(s) && s.worker != Gone
    ensures WorkerStep(l) && Enabled(s, l) && (l.Sweep? ==> l.now == now)
  {
    hide Valid, HeldOnce, EventsOwn, NoLostWakeUp, Collected, Collecting;
    match s.worker
    case Poll => l := CheckStop;
    case Waiting => l := WaitInterrupted;
    case Handling(events, _) =>
      l := if events == [] then EventsDone else HandleEvent(k);
      TableKnown(s.core);
    case Draining => l := Drain;
    case Starting(batch) =>
      l := if batch == [] then StartsDone else Start(NoSocket, now, k);
      BatchKnown(s);
    case Scanning(todo, hits) =>
      l := ScanDone;
      if todo != {} {
        var id :| id in todo;
        l := ScanOne(id);
      }
    case Sweeping =>
      CollectingStart(s.core, now);
      var expired, later := SweepExists(s.core, now, [], s.core.deadlines);
      ExpiredKnown(s.core, now, expired, later);
      l := Sweep(now, expired, later);
    case Leaving => l := Leave;
    case Cleaning(batch) =>
      var rest := ListOf(Registered(s.core));
      RegisteredKnown(s.core);
      BatchKnown(s);
      l := Clean(rest);
  }

  lemma TableKnown(c: Core)
    requires Valid(c)
    ensures forall fd :: fd in c.live ==> c.live[fd] in c.ops
  {
    hide OpsCoherent, DeadlinesExact, NoLeaks;
  }

  // ---- exactly once -----------------------------------------------------------------------

  /** A completion is counted when, and only when, the operation finishes; it never happens
      twice, and a socket is closed at most once and only then. */
  lemma CompletedOnce(states: seq<State>, labels: seq<Label>, n: nat, id: Id)
    requires IsRun(states, labels) && n < |states| && id in states[n].core.ops
    ensures var op := states[n].core.ops[id];
            && op.completions == (if op.result == Pending then 0 else 1)
            && op.closes <= op.completions
            && (op.result != Pending ==> op.fd == -1)
  {
    hide Next, Enabled, IsRun, HeldOnce, Lifecycle, EventsOwn, NoLostWakeUp;
    RunInv(states, labels, n);
    OpCoherent(states[n].core, id, {});
    hide Valid;
  }

  /** Once the first shutdown call has returned and no submit call is in progress, nothing is
      pending, and the shard holds no socket and no deadline. */
  lemma NothingPendingAfterShutdown(states: seq<State>, labels: seq<Label>, n: nat)
    requires IsRun(states, labels) && n < |states|
    requires states[n].shutdown == Complete && states[n].placed == {} && states[n].refused == {}
    ensures forall id :: id in states[n].core.ops ==>
        states[n].core.ops[id].result != Pending && states[n].core.ops[id].completions == 1
    ensures states[n].core.sockets == {} && states[n].core.deadlines == multiset{}
  {
    hide Next, Enabled, IsRun, EventsOwn, NoLostWakeUp;
    var s := states[n];
    RunInv(states, labels, n);
    AfterShutdown(s);
  }

  lemma AfterShutdown(s: State)
    requires Inv(s) && s.shutdown == Complete && s.placed == {} && s.refused == {}
    ensures forall id :: id in s.core.ops ==> s.core.ops[id].result != Pending && s.core.ops[id].completions == 1
    ensures s.core.sockets == {} && s.core.deadlines == multiset{}
  {
    hide EventsOwn, NoLostWakeUp;
    assert s.pending == [] && s.worker == Gone && s.core.live == map[];
    assert Holders(s) == multiset{};
    forall id | id in s.core.ops ensures s.core.ops[id].result != Pending && s.core.ops[id].completions == 1 {
      OpCoherent(s.core, id, {});
      assert Holders(s)[id] == 0;
      assert !Unstarted(s.core, id);
      assert s.core.ops[id].fd < 0;
    }
    forall e: (int, int) ensures s.core.deadlines[e] == 0 {
      assert !IsDeadline(s.core, e, {});
    }
  }

  // ---- events -----------------------------------------------------------------------------

  /** An event is handled by the operation that owned the descriptor when the event was
      gathered, or by none: never by one that was given the same descriptor later. */
  lemma EventReachesItsOwner(states: seq<State>, labels: seq<Label>, n: nat, i: nat)
    requires IsRun(states, labels) && n < |states| && states[n].worker.Handling? && i < |states[n].worker.events|
    ensures var e, c := states[n].worker.events[i], states[n].core;
            e.OnSocket? && e.fd in c.live ==> c.live[e.fd] == e.owner
  {
    hide Next, Enabled, IsRun, Valid, HeldOnce, Lifecycle, NoLostWakeUp;
    RunInv(states, labels, n);
    assert states[n].worker.events[i] in states[n].worker.events;
  }

  // ---- progress -------------------------------------------------------------------------------

  ghost predicate Advances(c: Core, c': Core) {
    forall id :: id in c.ops ==> id in c'.ops && Progress(c.ops[id], c'.ops[id])
  }

  lemma AdvancesSelf(c: Core)
    ensures Advances(c, c)
  {
  }

  lemma ShrinksAdvances(c: Core, c': Core)
    requires Shrinks(c, c')
    ensures Advances(c, c')
  {
    hide Progress;
  }

  lemma FrameNewAdvances(c: Core, c': Core, id: Id)
    requires FrameNew(c, c', id)
    ensures Advances(c, c')
  {
    hide Progress;
    forall i | i in c.ops ensures Progress(c.ops[i], c'.ops[i]) {
      ProgressSelf(c.ops[i]);
    }
  }

  lemma PlaceAdvances(c: Core, id: Id, op: Op)
    requires id !in c.ops
    ensures Advances(c, WithOp(c, id, op))
  {
    hide Progress;
    forall i | i in c.ops ensures Progress(c.ops[i], WithOp(c, id, op).ops[i]) {
      ProgressSelf(c.ops[i]);
    }
  }

  lemma FinishTwiceAdvances(c: Core, a: seq<Id>, b: seq<Id>)
    requires Valid(c) && Known(c, a) && Known(c, b)
    ensures Advances(c, FinishAll(FinishAll(c, a), b))
  {
    hide Valid, Shrinks, AllEnded;
    var c1 := FinishAll(c, a);
    FinishAllGood(c, a);
    FinishAllGood(c1, b);
    ShrinksTrans(c, c1, FinishAll(c1, b));
    ShrinksAdvances(c, FinishAll(c1, b));
  }

  lemma RefuseAdvances(s: State, id: Id)
    requires Inv(s) && id in s.refused && id in s.core.ops
    ensures Advances(s.core, Finish(s.core, id, Cancelled))
  {
    assert Holders(s)[id] > 0;
    HeldUnstarted(s, id);
    EndOne(s.core, id, Cancelled, {});
    hide Valid, HeldOnce, Shrinks, Finish;
    ShrinksAdvances(s.core, Finish(s.core, id, Cancelled));
  }

  lemma HandleAdvances(s: State, k: Kernel)
    requires Valid(s.core) && s.worker.Handling? && s.worker.events != [] && Reaches(s)
    ensures Advances(s.core, HandleNext(s, k).core)
  {
    hide Valid, Advance, Advances, Shrinks;
    var e := s.worker.events[0];
    if e.OnSocket? && e.fd in s.core.live {
      AdvanceValid(s.core, e.fd, e.failed, e.writable, k);
      ShrinksAdvances(s.core, Advance(s.core, s.core.live[e.fd], e.failed, e.writable, k));
    } else {
      AdvancesSelf(s.core);
    }
  }

  lemma StartAdvances(s: State, socket: Socket, due: int, k: Kernel)
    requires Inv(s) && Enabled(s, Start(socket, due, k))
    ensures var id := s.worker.batch[0];
            Advances(s.core, BeginConnect(s.core, id, id in s.cancelRequested, socket, due, k))
  {
    hide BeginConnect, Unstarted, HeldOnce, FrameNew, Known, Holders, Valid, Lifecycle, EventsOwn, NoLostWakeUp,
        Advances;
    var id := s.worker.batch[0];
    BatchFirst(s);
    StartCore(s.core, id, id in s.cancelRequested, socket, due, k);
    FrameNewAdvances(s.core, BeginConnect(s.core, id, id in s.cancelRequested, socket, due, k), id);
  }

  lemma ScanDoneAdvances(c: Core, hits: seq<Id>)
    requires Valid(c) && Known(c, hits)
    ensures Advances(c, FinishAll(c, hits))
  {
    hide Valid, Shrinks, AllEnded;
    FinishAllGood(c, hits);
    ShrinksAdvances(c, FinishAll(c, hits));
  }

  lemma SweepAdvances(c: Core, now: int, expired: seq<Id>, later: multiset<(int, int)>)
    requires Valid(c) && Known(c, expired) && Collected(c, now, expired, later)
    ensures Advances(c, Swept(c, expired, later))
  {
    hide Valid, Shrinks, AllEnded, Swept, Collected, Known;
    SweptGood(c, now, expired, later);
    ShrinksAdvances(c, Swept(c, expired, later));
  }

  lemma QuietAdvances(s: State, l: Label)
    requires HeldOnce(s) && Enabled(s, l) && Quiet(l)
    ensures Advances(s.core, Next(s, l).core)
  {
    hide Enabled, Next, Advances;
    QuietHeld(s, l);
    AdvancesSelf(s.core);
  }

  lemma StepAdvances(s: State, l: Label)
    requires Inv(s) && Enabled(s, l)
    ensures Advances(s.core, Next(s, l).core)
  {
    hide HeldOnce, Lifecycle, EventsOwn, NoLostWakeUp, Valid, Advances, FinishAll, Finish, Swept, BeginConnect,
        HandleNext, WithOp;
    if Quiet(l) {
      QuietAdvances(s, l);
    } else {
      match l
      case Place(id, tls, size, maxResponse, flagged) => PlaceAdvances(s.core, id, NewOp(tls, size, maxResponse));
      case Refuse(id) => RefuseAdvances(s, id);
      case FinishLeftovers(rest) => FinishTwiceAdvances(s.core, s.shutdown.leftovers, rest);
      case HandleEvent(k) => HandleAdvances(s, k);
      case Start(socket, due, k) => StartAdvances(s, socket, due, k);
      case ScanDone => ScanDoneAdvances(s.core, s.worker.hits);
      case Sweep(now, expired, later) => SweepAdvances(s.core, now, expired, later);
      case Clean(rest) => FinishTwiceAdvances(s.core, s.worker.batch, rest);
    }
  }

  /** Between any two moments of a run, stages only advance, bytes only accumulate, and what
      has finished stays exactly as it ended. */
  lemma {:induction false} RunAdvances(states: seq<State>, labels: seq<Label>, m: nat, n: nat, id: Id)
    requires IsRun(states, labels) && m <= n < |states| && id in states[m].core.ops
    ensures id in states[n].core.ops && Progress(states[m].core.ops[id], states[n].core.ops[id])
  {
    hide Inv, Next, Enabled, Progress;
    if m == n {
      ProgressSelf(states[m].core.ops[id]);
    } else {
      RunAdvances(states, labels, m, n - 1, id);
      RunInv(states, labels, n - 1);
      StepAdvances(states[n - 1], labels[n - 1]);
      ProgressTrans(states[m].core.ops[id], states[n - 1].core.ops[id], states[n].core.ops[id]);
    }
  }

  /** A socket that an operation ever owned is open until the operation finishes, and has then
      been closed exactly once. */
  lemma SocketClosedOnce(states: seq<State>, labels: seq<Label>, m: nat, n: nat, id: Id)
    requires IsRun(states, labels) && m <= n < |states| && id in states[m].core.ops && states[m].core.ops[id].fd >= 0
    ensures id in states[n].core.ops
    ensures var op := states[n].core.ops[id];
            if op.finished then op.closes == 1 && op.fd == -1
            else op.closes == 0 && op.fd == states[m].core.ops[id].fd && op.fd in states[n].core.sockets
  {
    hide Next, Enabled, IsRun, HeldOnce, Lifecycle, EventsOwn, NoLostWakeUp;
    RunAdvances(states, labels, m, n, id);
    RunInv(states, labels, m);
    RunInv(states, labels, n);
    OpCoherent(states[m].core, id, {});
    OpCoherent(states[n].core, id, {});
    ShardConsistent(states, labels, n);
    hide Valid, DeadlinesExact;
  }

  /** What the outcome of an operation says about its bytes. */
  lemma OutcomesMatch(states: seq<State>, labels: seq<Label>, n: nat, id: Id)
    requires IsRun(states, labels) && n < |states| && id in states[n].core.ops
    ensures var op := states[n].core.ops[id];
            && op.sent <= op.size && |op.recv| <= Cap(op)
            && (op.result == Success ==> op.sent == op.size)
            && (op.result == TimedOut ==> op.sent == op.size && op.recv == [])
            && (op.result == SendFailed ==> op.sent < op.size && op.recv == [])
            && (op.result == TlsFailed ==> op.tls && op.sent == 0 && op.recv == [])
            && (op.result == ConnectFailed ==> op.sent == 0 && op.recv == [])
            && (op.stage == RecvFirst ==> op.recv == []) && (op.stage == RecvIdle ==> op.recv != [])
  {
    hide Next, Enabled, IsRun, HeldOnce, Lifecycle, EventsOwn, NoLostWakeUp;
    RunInv(states, labels, n);
    OpCoherent(states[n].core, id, {});
    hide Valid;
  }

  /** The table, the deadlines and the sockets agree after every step. */
  lemma ShardConsistent(states: seq<State>, labels: seq<Label>, n: nat)
    requires IsRun(states, labels) && n < |states|
    ensures TableOwns(states[n].core) && DeadlinesExact(states[n].core, {}) && NoLeaks(states[n].core)
  {
    hide Next, Enabled, IsRun, HeldOnce, Lifecycle, EventsOwn, NoLostWakeUp, TableOwns, DeadlinesExact, NoLeaks;
    RunInv(states, labels, n);
  }
}
