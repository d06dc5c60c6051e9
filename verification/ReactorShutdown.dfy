/** How a shard comes to an end: what a worker that left its loop strands, how shutdown always
    can complete, and what a second shutdown call is worth. */
module ReactorShutdown {
  import opened ReactorShard
  import opened ReactorProtocol
  import opened ReactorRuns

  function Last(states: seq<State>): State
    requires states != []
  {
    states[|states| - 1]
  }

  ghost predicate Extends(states: seq<State>, labels: seq<Label>, states': seq<State>, labels': seq<Label>) {
    IsRun(states', labels') && states <= states' && labels <= labels'
  }

  lemma ExtendsTrans(s0: seq<State>, l0: seq<Label>, s1: seq<State>, l1: seq<Label>, s2: seq<State>, l2: seq<Label>)
    requires Extends(s0, l0, s1, l1) && Extends(s1, l1, s2, l2)
    ensures Extends(s0, l0, s2, l2)
  {
  }

  lemma Take(states: seq<State>, labels: seq<Label>, l: Label) returns (states': seq<State>, labels': seq<Label>)
    requires IsRun(states, labels) && Enabled(Last(states), l)
    ensures Extends(states, labels, states', labels') && labels' == labels + [l]
    ensures Last(states') == Next(Last(states), l)
  {
    hide Next, Enabled;
    states', labels' := states + [Next(Last(states), l)], labels + [l];
    forall i | 0 <= i < |labels'|
        ensures Enabled(states'[i], labels'[i]) && states'[i + 1] == Next(states'[i], labels'[i]) {
      if i < |labels| {
        assert states'[i] == states[i] && states'[i + 1] == states[i + 1] && labels'[i] == labels[i];
      } else {
        assert states'[i] == Last(states) && labels'[i] == l;
      }
    }
  }

  lemma LastInv(states: seq<State>, labels: seq<Label>)
    requires IsRun(states, labels)
    ensures Inv(Last(states))
  {
    hide Inv, IsRun;
    assert |states| > 0 by {
      RunNonEmpty(states, labels);
    }
    RunInv(states, labels, |states| - 1);
  }

  lemma RunNonEmpty(states: seq<State>, labels: seq<Label>)
    requires IsRun(states, labels)
    ensures |states| == |labels| + 1
  {
  }

  /** No submit or cancel call is in progress. */
  ghost predicate Settled(s: State) {
    s.placed == {} && s.refused == {} && s.owed == 0
  }

  ghost predicate NothingPending(s: State) {
    forall id :: id in s.core.ops ==> s.core.ops[id].result != Pending
  }

  // ---- a submit call, from beginning to end ----------------------------------------------

  lemma FreshId(ids: set<Id>) returns (id: Id)
    ensures id !in ids
  {
    id := Bound(ids);
  }

  lemma {:induction false} Bound(ids: set<Id>) returns (n: nat)
    ensures forall id :: id in ids ==> id < n
  {
    if ids == {} {
      n := 0;
    } else {
      var id :| id in ids;
      var m := Bound(ids - {id});
      n := if id < m then m else id + 1;
      forall i | i in ids ensures i < n {
        assert i == id || i in ids - {id};
      }
    }
  }

  /** The three steps of a submit call to a shard that is not closed. */
  lemma Submit(states: seq<State>, labels: seq<Label>, id: Id) returns (states': seq<State>, labels': seq<Label>)
    requires IsRun(states, labels) && id !in Last(states).core.ops && !Last(states).closed
    ensures Extends(states, labels, states', labels')
    ensures labels' == labels + [Place(id, false, 0, 0, false), Enqueue(id), Wake]
    ensures var s, s' := Last(states), Last(states');
            && s'.pending == s.pending + [id] && id in s'.core.ops && s'.core.ops[id].result == Pending
            && s'.worker == s.worker && s'.shutdown == s.shutdown && s'.stop == s.stop && s'.closed == s.closed
            && (Settled(s) ==> Settled(s')) && s'.core.live == s.core.live
  {
    hide IsRun;
    var s1, l1 := Take(states, labels, Place(id, false, 0, 0, false));
    var s2, l2 := Take(s1, l1, Enqueue(id));
    states', labels' := Take(s2, l2, Wake);
    ExtendsTrans(states, labels, s1, l1, s2, l2);
    ExtendsTrans(states, labels, s2, l2, states', labels');
  }

  // ---- work that a departed worker strands -----------------------------------------------

  /** Operations wait in the queue of a worker that has left although nobody asked it to stop. */
  ghost predicate Stranded(s: State) {
    s.pending != [] && Departed(s.worker) && !s.stop
  }

  lemma StrandedStep(s: State, l: Label)
    requires Lifecycle(s) && Stranded(s) && Enabled(s, l) && l != BeginShutdown
    ensures Stranded(Next(s, l)) && s.pending <= Next(s, l).pending
  {
    hide Advance, Finish, FinishAll, Swept, BeginConnect, Known, Lists, Collected, Gathered;
  }

  lemma QueuedIsPending(s: State, id: Id)
    requires Inv(s) && id in s.pending
    ensures id in s.core.ops && s.core.ops[id].result == Pending
  {
    assert Holders(s)[id] > 0;
    HeldUnstarted(s, id);
    OpCoherent(s.core, id, {});
  }

  /** A stranded operation stays pending whatever else happens, until somebody calls shutdown. */
  lemma {:induction false} StrandedForever(states: seq<State>, labels: seq<Label>, m: nat, n: nat, id: Id)
    requires IsRun(states, labels) && m <= n < |states| && Stranded(states[m]) && id in states[m].pending
    requires forall i :: m <= i < n ==> labels[i] != BeginShutdown
    ensures Stranded(states[n]) && id in states[n].pending
    ensures id in states[n].core.ops && states[n].core.ops[id].result == Pending
  {
    hide Next, Enabled, Stranded, Valid, HeldOnce, EventsOwn, NoLostWakeUp, Lifecycle;
    RunInv(states, labels, n);
    if m < n {
      StrandedForever(states, labels, m, n - 1, id);
      RunInv(states, labels, n - 1);
      StrandedStep(states[n - 1], labels[n - 1]);
    }
    QueuedIsPending(states[n], id);
  }

  lemma LeavesStep(s: State, l: Label)
    requires Enabled(s, l) && Leaves(s.worker)
    ensures Leaves(Next(s, l).worker)
  {
    hide Advance, Finish, FinishAll, Swept, BeginConnect, Known, Lists, Collected, Gathered;
  }

  lemma {:induction false} FailedLeaves(states: seq<State>, labels: seq<Label>, n: nat)
    requires IsRun(states, labels) && n < |states| && WaitHasFailed(labels, n)
    ensures Leaves(states[n].worker)
  {
    hide Next, Enabled;
    if labels[n - 1] == WaitFailed {
      FailureLeaves(states[n - 1]);
    } else {
      FailedLeaves(states, labels, n - 1);
      LeavesStep(states[n - 1], labels[n - 1]);
    }
  }

  lemma FailureLeaves(s: State)
    requires Enabled(s, WaitFailed)
    ensures Leaves(Next(s, WaitFailed).worker)
  {
  }

  /** Steps that neither shut the reactor down nor let a wait fail. */
  ghost predicate Ordinary(labels: seq<Label>, from: nat)
    requires from <= |labels|
  {
    forall i :: from <= i < |labels| ==> labels[i] != BeginShutdown && labels[i] != WaitFailed
  }

  ghost predicate CanStrand(states: seq<State>, labels: seq<Label>) {
    exists states', labels' ::
      && Extends(states, labels, states', labels') && Ordinary(labels', |labels|)
      && states' != [] && Stranded(Last(states'))
  }

  lemma StrandAfterLeaving(states: seq<State>, labels: seq<Label>)
    requires IsRun(states, labels) && Departed(Last(states).worker) && !Last(states).stop
    ensures CanStrand(states, labels)
  {
    LastInv(states, labels);
    assert !Last(states).closed;
    hide IsRun, Inv;
    var id := FreshId(Last(states).core.ops.Keys);
    var states', labels' := Submit(states, labels, id);
    assert states' != [];
    assert Ordinary(labels', |labels|);
  }

  lemma FailedStrands(states: seq<State>, labels: seq<Label>)
    requires IsRun(states, labels) && !Last(states).stop && WaitHasFailed(labels, |labels|)
    ensures CanStrand(states, labels)
  {
    hide Next, Enabled;
    FailedLeaves(states, labels, |labels|);
    hide IsRun;
    if Last(states).worker == Leaving {
      LeaveEnabled(Last(states));
      var s1, l1 := Take(states, labels, Leave);
      LeaveDeparts(Last(states));
      StrandAfterLeaving(s1, l1);
      var s2, l2 :| Extends(s1, l1, s2, l2) && Ordinary(l2, |l1|) && s2 != [] && Stranded(Last(s2));
      assert l2[|labels|] == Leave;
      assert Extends(states, labels, s2, l2) && Ordinary(l2, |labels|);
    } else {
      StrandAfterLeaving(states, labels);
    }
  }

  lemma StrandedFailed(states: seq<State>, labels: seq<Label>)
    requires IsRun(states, labels) && CanStrand(states, labels)
    ensures WaitHasFailed(labels, |labels|)
  {
    hide Next, Enabled;
    var s2, l2 :| Extends(states, labels, s2, l2) && Ordinary(l2, |labels|) && s2 != [] && Stranded(Last(s2));
    LeftBecause(s2, l2, |l2|);
    var i :| 0 <= i < |l2| && l2[i] == WaitFailed;
    assert i < |labels| && labels[i] == WaitFailed;
  }

  /** From a run without a shutdown call, ordinary steps can strand an operation if and only if
      a wait of the worker has failed. */
  lemma StrandsIff(states: seq<State>, labels: seq<Label>)
    requires IsRun(states, labels) && !Last(states).stop
    ensures CanStrand(states, labels) <==> WaitHasFailed(labels, |labels|)
  {
    hide IsRun, CanStrand, WaitHasFailed;
    if WaitHasFailed(labels, |labels|) {
      FailedStrands(states, labels);
    }
    if CanStrand(states, labels) {
      StrandedFailed(states, labels);
    }
  }

  lemma LeaveEnabled(s: State)
    requires s.worker == Leaving
    ensures Enabled(s, Leave)
  {
  }

  lemma LeaveDeparts(s: State)
    requires Enabled(s, Leave)
    ensures Departed(Next(s, Leave).worker) && Next(s, Leave).stop == s.stop
  {
  }

  /** A worker whose wait fails leaves; an operation submitted then is stranded although its
      submit call has returned. */
  lemma StrandingRun() returns (states: seq<State>, labels: seq<Label>)
    ensures IsRun(states, labels) && states != [] && Stranded(Last(states)) && Settled(Last(states))
    ensures 0 in Last(states).core.ops && Last(states).core.ops[0].result == Pending
  {
    states, labels := [INITIAL], [];
    states, labels := Take(states, labels, CheckStop);
    states, labels := Take(states, labels, WaitFailed);
    states, labels := Take(states, labels, Leave);
    states, labels := Take(states, labels, Clean([]));
    states, labels := Submit(states, labels, 0);
  }

  // ---- shutdown can always complete ------------------------------------------------------

  /** How far a worker is from being gone, once stop is set. */
  function WorkerRank(w: Worker): nat {
    match w
    case Waiting => 9
    case Handling(_, _) => 8
    case Draining => 7
    case Starting(_) => 6
    case Scanning(_, _) => 5
    case Sweeping => 4
    case Poll => 3
    case Leaving => 2
    case Cleaning(_) => 1
    case Gone => 0
  }

  function WorkerLoad(w: Worker): nat {
    match w
    case Handling(events, _) => |events|
    case Starting(batch) => |batch|
    case Scanning(todo, _) => |todo|
    case _ => 0
  }

  ghost predicate Nearer(w: Worker, w': Worker) {
    WorkerRank(w') < WorkerRank(w) || (WorkerRank(w') == WorkerRank(w) && WorkerLoad(w') < WorkerLoad(w))
  }

  lemma StopMeasureScan(s: State, id: Id)
    requires Enabled(s, ScanOne(id))
    ensures Nearer(s.worker, Next(s, ScanOne(id)).worker)
  {
    assert |s.worker.todo - {id}| == |s.worker.todo| - 1;
  }

  lemma StopMeasureQuiet(s: State, l: Label)
    requires Enabled(s, l) && s.stop && ByWorker(l) && !l.ScanOne?
    ensures Nearer(s.worker, Next(s, l).worker)
  {
    hide Known, Gathered;
  }

  lemma StopMeasureBusy(s: State, l: Label)
    requires Enabled(s, l) && s.stop && WorkerStep(l) && !ByWorker(l)
    ensures Nearer(s.worker, Next(s, l).worker)
  {
    hide Advance, FinishAll, Swept, BeginConnect, Known, Lists, Collected, Reaches;
  }

  lemma CallersKeepWorker(s: State, l: Label)
    requires Enabled(s, l) && !WorkerStep(l)
    ensures Next(s, l).worker == s.worker
  {
    hide Finish, FinishAll, Known, Lists;
  }

  /** Once stop is set, every step of the worker brings it nearer to its end, and no step of
      anybody else takes it away. */
  lemma StopMeasure(s: State, l: Label)
    requires Enabled(s, l) && s.stop
    ensures if WorkerStep(l) then Nearer(s.worker, Next(s, l).worker) else Next(s, l).worker == s.worker
  {
    hide Enabled, Next, Nearer, ByWorker;
    if !WorkerStep(l) {
      CallersKeepWorker(s, l);
    } else if l.ScanOne? {
      StopMeasureScan(s, l.id);
    } else if ByWorker(l) {
      StopMeasureQuiet(s, l);
    } else {
      StopMeasureBusy(s, l);
    }
  }

  lemma WorkerStepFrame(s: State, l: Label)
    requires Enabled(s, l) && WorkerStep(l)
    ensures Next(s, l).stop == s.stop && Next(s, l).shutdown == s.shutdown
  {
    hide Advance, Finish, FinishAll, Swept, BeginConnect, Known, Lists, Collected, Gathered, Reaches;
  }

  /** The worker alone can always finish once stop is set. */
  lemma {:induction false} RunOut(states: seq<State>, labels: seq<Label>, now: int, k: Kernel)
      returns (states': seq<State>, labels': seq<Label>)
    requires IsRun(states, labels) && Last(states).stop
    ensures Extends(states, labels, states', labels') && states' != []
    ensures Last(states').worker == Gone && Last(states').stop && Last(states').shutdown == Last(states).shutdown
    decreases WorkerRank(Last(states).worker), WorkerLoad(Last(states).worker)
  {
    hide Next, Enabled, IsRun, Inv;
    RunNonEmpty(states, labels);
    var s := Last(states);
    if s.worker == Gone {
      states', labels' := states, labels;
    } else {
      LastInv(states, labels);
      var l := NextStep(s, now, k);
      StopMeasure(s, l);
      WorkerStepFrame(s, l);
      var s1, l1 := Take(states, labels, l);
      states', labels' := RunOut(s1, l1, now, k);
      ExtendsTrans(states, labels, s1, l1, states', labels');
    }
  }

  lemma AskedTo(s: State)
    requires Lifecycle(s)
    ensures !s.stop ==> Enabled(s, BeginShutdown) && Next(s, BeginShutdown).stop
    ensures !s.stop ==> Next(s, BeginShutdown).shutdown == OwesWake
    ensures s.shutdown == OwesWake ==> Enabled(s, WakeForShutdown) && Next(s, WakeForShutdown).shutdown == Woken
    ensures s.shutdown == OwesWake ==> Next(s, WakeForShutdown).stop == s.stop
  {
  }

  /** The caller of shutdown has written its wake-up. */
  lemma ToWoken(states: seq<State>, labels: seq<Label>) returns (states': seq<State>, labels': seq<Label>)
    requires IsRun(states, labels)
    ensures Extends(states, labels, states', labels') && states' != [] && Last(states').stop
    ensures Last(states').shutdown != NotStarted && Last(states').shutdown != OwesWake
  {
    hide Next, Enabled, IsRun;
    states', labels' := states, labels;
    RunNonEmpty(states, labels);
    LastInv(states, labels);
    AskedTo(Last(states));
    if !Last(states).stop {
      states', labels' := Take(states, labels, BeginShutdown);
      LastInv(states', labels');
      AskedTo(Last(states'));
    }
    if Last(states').shutdown == OwesWake {
      var s1, l1 := Take(states', labels', WakeForShutdown);
      ExtendsTrans(states, labels, states', labels', s1, l1);
      states', labels' := s1, l1;
    }
  }

  lemma CloseStep(s: State)
    requires s.shutdown == Woken && s.worker == Gone
    ensures Enabled(s, CloseShard) && Next(s, CloseShard).shutdown.Closing?
  {
  }

  lemma FinishStep(s: State) returns (l: Label)
    requires Inv(s) && s.shutdown.Closing?
    ensures Enabled(s, l) && Next(s, l).shutdown == Complete
  {
    hide Valid, HeldOnce, EventsOwn, NoLostWakeUp, FinishAll;
    var rest := ListOf(Registered(s.core));
    RegisteredKnown(s.core);
    BatchKnown(s);
    l := FinishLeftovers(rest);
  }

  lemma ToComplete(states: seq<State>, labels: seq<Label>, now: int, k: Kernel)
      returns (states': seq<State>, labels': seq<Label>)
    requires IsRun(states, labels)
    ensures Extends(states, labels, states', labels') && states' != [] && Last(states').shutdown == Complete
  {
    hide Next, Enabled, IsRun, Inv;
    var s1, l1 := ToWoken(states, labels);
    states', labels' := RunOut(s1, l1, now, k);
    ExtendsTrans(states, labels, s1, l1, states', labels');
    if Last(states').shutdown == Woken {
      CloseStep(Last(states'));
      s1, l1 := Take(states', labels', CloseShard);
      ExtendsTrans(states, labels, states', labels', s1, l1);
      states', labels' := s1, l1;
    }
    if Last(states').shutdown.Closing? {
      LastInv(states', labels');
      var l := FinishStep(Last(states'));
      s1, l1 := Take(states', labels', l);
      ExtendsTrans(states, labels, states', labels', s1, l1);
      states', labels' := s1, l1;
    }
  }

  function CallsLeft(s: State): nat {
    2 * |s.placed| + |s.refused| + s.owed
  }

  lemma SettleWake(s: State)
    requires s.owed > 0
    ensures Enabled(s, Wake) && CallsLeft(Next(s, Wake)) < CallsLeft(s) && Next(s, Wake).shutdown == s.shutdown
  {
  }

  lemma SettlePlaced(s: State, id: Id)
    requires s.closed && id in s.placed
    ensures Enabled(s, Enqueue(id)) && CallsLeft(Next(s, Enqueue(id))) < CallsLeft(s)
    ensures Next(s, Enqueue(id)).shutdown == s.shutdown
  {
    assert |s.placed - {id}| == |s.placed| - 1;
    assert |s.refused + {id}| <= |s.refused| + 1;
  }

  lemma SettleRefused(s: State, id: Id)
    requires id in s.refused && id in s.core.ops
    ensures Enabled(s, Refuse(id)) && CallsLeft(Next(s, Refuse(id))) < CallsLeft(s)
    ensures Next(s, Refuse(id)).shutdown == s.shutdown
  {
    hide Finish;
    assert |s.refused - {id}| == |s.refused| - 1;
  }

  lemma RefusedKnown(s: State, id: Id)
    requires HeldOnce(s) && id in s.refused
    ensures id in s.core.ops
  {
    assert Holders(s)[id] > 0;
    HeldUnstarted(s, id);
  }

  lemma SettleStep(s: State) returns (l: Label)
    requires Inv(s) && s.shutdown == Complete && !Settled(s)
    ensures Enabled(s, l) && Next(s, l).shutdown == Complete && CallsLeft(Next(s, l)) < CallsLeft(s)
  {
    hide Enabled, Next, Valid, HeldOnce, EventsOwn, NoLostWakeUp, CallsLeft;
    if s.owed > 0 {
      SettleWake(s);
      l := Wake;
    } else if s.placed != {} {
      var id :| id in s.placed;
      SettlePlaced(s, id);
      l := Enqueue(id);
    } else {
      var id :| id in s.refused;
      RefusedKnown(s, id);
      SettleRefused(s, id);
      l := Refuse(id);
    }
  }

  lemma {:induction false} ToSettled(states: seq<State>, labels: seq<Label>)
      returns (states': seq<State>, labels': seq<Label>)
    requires IsRun(states, labels) && Last(states).shutdown == Complete
    ensures Extends(states, labels, states', labels') && states' != []
    ensures Last(states').shutdown == Complete && Settled(Last(states'))
    decreases CallsLeft(Last(states))
  {
    hide Next, Enabled, IsRun, Inv, Settled, CallsLeft;
    RunNonEmpty(states, labels);
    if Settled(Last(states)) {
      states', labels' := states, labels;
    } else {
      LastInv(states, labels);
      var l := SettleStep(Last(states));
      var s1, l1 := Take(states, labels, l);
      states', labels' := ToSettled(s1, l1);
      ExtendsTrans(states, labels, s1, l1, states', labels');
    }
  }

  /** From every reachable state the run can go on to a point where shutdown has returned and
      every operation has been completed exactly once. */
  lemma ShutdownCompletes(states: seq<State>, labels: seq<Label>, now: int, k: Kernel)
      returns (states': seq<State>, labels': seq<Label>)
    requires IsRun(states, labels)
    ensures Extends(states, labels, states', labels') && states' != []
    ensures Last(states').shutdown == Complete && Settled(Last(states'))
    ensures Last(states).core.ops.Keys <= Last(states').core.ops.Keys
    ensures forall id :: id in Last(states').core.ops ==>
              Last(states').core.ops[id].result != Pending && Last(states').core.ops[id].completions == 1
  {
    hide Next, Enabled, IsRun, Inv;
    var s1, l1 := ToComplete(states, labels, now, k);
    states', labels' := ToSettled(s1, l1);
    ExtendsTrans(states, labels, s1, l1, states', labels');
    LastInv(states', labels');
    AfterShutdown(Last(states'));
    RunNonEmpty(states, labels);
    forall id | id in Last(states).core.ops.Keys ensures id in Last(states').core.ops.Keys {
      assert states'[|states| - 1] == Last(states);
      RunAdvances(states', labels', |states| - 1, |states'| - 1, id);
    }
  }

  // ---- a second shutdown call --------------------------------------------------------------

  /** How far the first shutdown call has got on a shard. */
  datatype Phase = NotAsked | WakeOwed | WakeWritten | TakingLeftovers | Over

  function PhaseOf(d: Shutdown): Phase {
    match d
    case NotStarted => NotAsked
    case OwesWake => WakeOwed
    case Woken => WakeWritten
    case Closing(_) => TakingLeftovers
    case Complete => Over
  }

  /** The run has reached that phase, with no submit or cancel call in progress. */
  ghost predicate ReachesPhase(states: seq<State>, labels: seq<Label>, p: Phase) {
    IsRun(states, labels) && states != [] && PhaseOf(Last(states).shutdown) == p && Settled(Last(states))
  }

  /** The shutdown caller and the worker go on as far as that phase allows, and no further. */
  lemma PrepareWoken() returns (states: seq<State>, labels: seq<Label>)
    ensures ReachesPhase(states, labels, WakeWritten) && Last(states).worker == Gone && !Last(states).closed
    ensures Last(states).core == EMPTY
  {
    states, labels := [INITIAL], [];
    states, labels := Take(states, labels, BeginShutdown);
    states, labels := Take(states, labels, WakeForShutdown);
    states, labels := Take(states, labels, CheckStop);
    states, labels := Take(states, labels, Leave);
    states, labels := Take(states, labels, Clean([]));
  }

  lemma PendingBeforeFinish(p: Phase) returns (states: seq<State>, labels: seq<Label>)
    requires p != Over
    ensures ReachesPhase(states, labels, p) && !NothingPending(Last(states))
  {
    if p == WakeWritten || p == TakingLeftovers {
      states, labels := PrepareWoken();
      states, labels := Submit(states, labels, 0);
      if p == TakingLeftovers {
        states, labels := Take(states, labels, CloseShard);
      }
    } else {
      states, labels := [INITIAL], [];
      states, labels := Submit(states, labels, 0);
      if p == WakeOwed {
        states, labels := Take(states, labels, BeginShutdown);
      }
    }
    assert Last(states).core.ops[0].result == Pending;
  }

  /** A phase guarantees that nothing is pending, in every run that reaches it with no submit
      call in progress, if and only if it is the last one. */
  lemma PhaseSettlesIff(p: Phase)
    ensures (forall states, labels :: ReachesPhase(states, labels, p) ==> NothingPending(Last(states))) <==> p == Over
  {
    if p == Over {
      forall states, labels | ReachesPhase(states, labels, p) ensures NothingPending(Last(states)) {
        LastInv(states, labels);
        AfterShutdown(Last(states));
      }
    } else {
      var states, labels := PendingBeforeFinish(p);
    }
  }

  ghost predicate ShutdownCalled(labels: seq<Label>, n: nat)
    requires n <= |labels|
  {
    exists i :: 0 <= i < n && labels[i] == BeginShutdown
  }

  lemma StopStep(s: State, l: Label)
    requires Enabled(s, l)
    ensures Next(s, l).stop <==> s.stop || l == BeginShutdown
  {
    hide Advance, Finish, FinishAll, Swept, BeginConnect, Known, Lists, Collected, Gathered, Reaches;
  }

  /** The flag a shutdown call exchanges was set before exactly when there was an earlier call. */
  lemma {:induction false} StopIffCalled(states: seq<State>, labels: seq<Label>, n: nat)
    requires IsRun(states, labels) && n < |states|
    ensures states[n].stop <==> ShutdownCalled(labels, n)
  {
    hide Next, Enabled;
    if n > 0 {
      StopIffCalled(states, labels, n - 1);
      StopStep(states[n - 1], labels[n - 1]);
      if labels[n - 1] == BeginShutdown {
        assert ShutdownCalled(labels, n);
      }
    }
  }

  /** A shutdown call is the first one, or it finds the flag set and returns at once. */
  lemma FirstOrAgain(states: seq<State>, labels: seq<Label>, n: nat)
    requires IsRun(states, labels) && n < |states|
    ensures Enabled(states[n], BeginShutdown) <==> !ShutdownCalled(labels, n)
    ensures Enabled(states[n], ShutdownAgain) <==> ShutdownCalled(labels, n)
    ensures ShutdownCalled(labels, n) ==> Next(states[n], ShutdownAgain) == states[n]
  {
    hide IsRun, ShutdownCalled, Valid, HeldOnce, EventsOwn, NoLostWakeUp;
    StopIffCalled(states, labels, n);
    RunInv(states, labels, n);
  }

  /** A later call returns in a run of that phase. */
  ghost predicate ReturnsInPhase(states: seq<State>, labels: seq<Label>, p: Phase) {
    ReachesPhase(states, labels, p) && labels != [] && labels[|labels| - 1] == ShutdownAgain
  }

  /** A later call guarantees at its return that nothing is pending, in every run, if and only
      if the first call had finished with the shard. */
  lemma LaterCallIff(p: Phase)
    requires p != NotAsked
    ensures (forall states, labels :: ReturnsInPhase(states, labels, p) ==> NothingPending(Last(states))) <==> p == Over
  {
    PhaseSettlesIff(p);
    if p != Over {
      var states, labels := PendingBeforeFinish(p);
      LastInv(states, labels);
      assert Last(states).stop;
      var s1, l1 := Take(states, labels, ShutdownAgain);
      assert ReturnsInPhase(s1, l1, p) && !NothingPending(Last(s1));
    }
  }
}
