/** The whole reactor: its shards side by side, one stop flag, and one shutdown that visits
    them in order. */
module ReactorSystem {
  import opened ReactorShard
  import opened ReactorProtocol
  import opened ReactorRuns
  import opened ReactorShutdown

  datatype Caller = Idle | WakingAll(k: nat) | Joining | ClosingAll(k: nat) | FinishingAll(k: nat) | Returned

  /** `next` is the counter that submit draws shard numbers from. */
  datatype Reactor = Reactor(shards: seq<State>, next: nat, caller: Caller)

  datatype Action =
    | Submit(id: Id, tls: bool, size: nat, maxResponse: nat, flagged: bool)
    | OnShard(i: nat, l: Label)
    | Stop
    | WakeNext
    | JoinAll
    | CloseNext
    | FinishNext(rest: seq<Id>)
    | CallAgain

  function Initial(n: nat): Reactor {
    Reactor(seq(n, _ => INITIAL), 0, Idle)
  }

  /** The steps that the shutdown caller and the choice of a shard do not control. */
  predicate Local(l: Label) {
    !(l.Place? || l.BeginShutdown? || l.WakeForShutdown? || l.CloseShard? || l.FinishLeftovers? || l.ShutdownAgain?)
  }

  /** The kernel never returns a descriptor that is open anywhere in the process. */
  ghost predicate FreshSocket(r: Reactor, l: Label) {
    l.Start? && l.socket.Opened? ==> forall i :: 0 <= i < |r.shards| ==> l.socket.fd !in r.shards[i].core.sockets
  }

  ghost predicate CanAct(r: Reactor, a: Action) {
    && |r.shards| > 0
    && match a
       case Submit(id, _, _, _, _) => forall i :: 0 <= i < |r.shards| ==> id !in r.shards[i].core.ops
       case OnShard(i, l) => i < |r.shards| && Local(l) && Enabled(r.shards[i], l) && FreshSocket(r, l)
       case Stop => r.caller == Idle && forall i :: 0 <= i < |r.shards| ==> r.shards[i].shutdown == NotStarted
       case WakeNext => r.caller.WakingAll? && r.caller.k < |r.shards| && Enabled(r.shards[r.caller.k], WakeForShutdown)
       case JoinAll => r.caller == Joining && forall i :: 0 <= i < |r.shards| ==> r.shards[i].worker == Gone
       case CloseNext => r.caller.ClosingAll? && r.caller.k < |r.shards| && Enabled(r.shards[r.caller.k], CloseShard)
       case FinishNext(rest) =>
         r.caller.FinishingAll? && r.caller.k < |r.shards| && Enabled(r.shards[r.caller.k], FinishLeftovers(rest))
       case CallAgain => r.caller != Idle
  }

  ghost function OneShard(r: Reactor, i: nat, l: Label): Reactor
    requires i < |r.shards| && Enabled(r.shards[i], l)
  {
    r.(shards := r.shards[i := Next(r.shards[i], l)])
  }

  function StopAll(shards: seq<State>): seq<State> {
    seq(|shards|, i requires 0 <= i < |shards| => shards[i].(stop := true, shutdown := OwesWake))
  }

  ghost function Act(r: Reactor, a: Action): Reactor
    requires CanAct(r, a)
  {
    match a
    case Submit(id, tls, size, maxResponse, flagged) =>
      OneShard(r, r.next % |r.shards|, Place(id, tls, size, maxResponse, flagged)).(next := r.next + 1)
    case OnShard(i, l) => OneShard(r, i, l)
    case Stop => r.(shards := StopAll(r.shards), caller := WakingAll(0))
    case WakeNext =>
      var k := r.caller.k;
      OneShard(r, k, WakeForShutdown).(caller := if k + 1 == |r.shards| then Joining else WakingAll(k + 1))
    case JoinAll => r.(caller := ClosingAll(0))
    case CloseNext => OneShard(r, r.caller.k, CloseShard).(caller := FinishingAll(r.caller.k))
    case FinishNext(rest) =>
      var k := r.caller.k;
      OneShard(r, k, FinishLeftovers(rest)).(caller := if k + 1 == |r.shards| then Returned else ClosingAll(k + 1))
    case CallAgain => r
  }

  // ---- the invariant -------------------------------------------------------------------------

  ghost predicate AllInv(r: Reactor) {
    forall i :: 0 <= i < |r.shards| ==> Inv(r.shards[i])
  }

  /** An operation belongs to one shard, and so does an open descriptor. */
  ghost predicate Apart(r: Reactor) {
    forall i, j :: 0 <= i < j < |r.shards| ==>
      r.shards[i].core.ops.Keys !! r.shards[j].core.ops.Keys && r.shards[i].core.sockets !! r.shards[j].core.sockets
  }

  /** How far shutdown has got on a shard, given where the caller is. */
  ghost predicate Visited(caller: Caller, i: nat, d: Shutdown) {
    match caller
    case Idle => d == NotStarted
    case WakingAll(k) => if i < k then d == Woken else d == OwesWake
    case Joining => d == Woken
    case ClosingAll(k) => if i < k then d == Complete else d == Woken
    case FinishingAll(k) => if i < k then d == Complete else if i == k then d.Closing? else d == Woken
    case Returned => d == Complete
  }

  ghost predicate InStep(r: Reactor) {
    forall i :: 0 <= i < |r.shards| ==> Visited(r.caller, i, r.shards[i].shutdown)
  }

  ghost predicate SystemInv(r: Reactor) {
    |r.shards| > 0 && AllInv(r) && Apart(r) && InStep(r)
  }

  // ---- one shard moves ------------------------------------------------------------------

  lemma OneShardInv(r: Reactor, i: nat, l: Label)
    requires AllInv(r) && i < |r.shards| && Enabled(r.shards[i], l)
    ensures AllInv(OneShard(r, i, l))
  {
    hide Inv, Next, Enabled;
    StepKeeps(r.shards[i], l);
  }

  /** A step brings no operation but the placed one and no socket but the opened one. */
  ghost predicate Gains(s: State, s': State, ids: set<Id>, fds: set<int>) {
    s'.core.ops.Keys <= s.core.ops.Keys + ids && s'.core.sockets <= s.core.sockets + fds
  }

  lemma OneShardApart(r: Reactor, i: nat, l: Label, ids: set<Id>, fds: set<int>)
    requires Apart(r) && i < |r.shards| && Enabled(r.shards[i], l) && Gains(r.shards[i], Next(r.shards[i], l), ids, fds)
    requires forall j :: 0 <= j < |r.shards| && j != i ==>
        r.shards[j].core.ops.Keys !! ids && r.shards[j].core.sockets !! fds
    ensures Apart(OneShard(r, i, l))
  {
    hide Next, Enabled;
  }

  function NewIds(l: Label): set<Id> {
    if l.Place? then {l.id} else {}
  }

  function NewFds(l: Label): set<int> {
    if l.Start? && l.socket.Opened? then {l.socket.fd} else {}
  }

  lemma OldGains(s: State, s': State)
    requires Valid(s.core) && Valid(s'.core) && OldSockets(s.core, s'.core)
    ensures Gains(s, s', {}, {})
  {
    hide OpsCoherent, DeadlinesExact, TableOwns;
    forall fd | fd in s'.core.live.Keys ensures fd in s.core.live.Keys {
      assert fd in s'.core.live;
    }
  }

  lemma ShrinkGains(s: State, s': State)
    requires Valid(s.core) && Valid(s'.core) && Shrinks(s.core, s'.core)
    ensures Gains(s, s', {}, {})
  {
    hide Valid, Shrinks;
    ShrinkOld(s.core, s'.core);
    OldGains(s, s');
  }

  lemma StartGains(s: State, l: Label)
    requires Inv(s) && Enabled(s, l) && l.Start?
    ensures Gains(s, Next(s, l), {}, NewFds(l))
  {
    hide Unstarted, HeldOnce, Known, Holders, Lifecycle, EventsOwn, NoLostWakeUp, Sound;
    var id := s.worker.batch[0];
    BatchFirst(s);
    hide BeginConnect, Progress, FrameNew;
    StartNewSocket(s.core, id, id in s.cancelRequested, l.socket, l.due, l.k);
  }

  lemma StartNewSocket(c: Core, id: Id, cancelled: bool, socket: Socket, due: int, k: Kernel)
    requires Valid(c) && Unstarted(c, id) && (socket.Opened? ==> socket.fd !in c.sockets)
    ensures var c' := BeginConnect(c, id, cancelled, socket, due, k);
            c'.ops.Keys == c.ops.Keys && c'.sockets <= c.sockets + if socket.Opened? then {socket.fd} else {}
  {
    hide Sound, Arm, Connected, Attach, Ready, GoodStep;
    var c' := BeginConnect(c, id, cancelled, socket, due, k);
    BeginConnectGood(c, id, cancelled, socket, due, k);
    if cancelled || socket.NoSocket? {
      hide Finished, Undue, Unfiled, Progress;
    } else {
      AttachReady(c, id, socket.fd, due);
      var c1 := Attach(c, id, socket.fd, due);
      ReadySound(c1, id);
      AttachSockets(c, id, socket.fd, due);
      if socket.inProgress {
        ArmGood(c1, id, true, k.armOk);
      } else {
        ConnectedGood(c1, id, k);
      }
      GoodSockets(c1, c', id);
    }
  }

  lemma AttachSockets(c: Core, id: Id, fd: nat, due: int)
    requires id in c.ops
    ensures Attach(c, id, fd, due).sockets == c.sockets + {fd}
  {
  }

  lemma GoodSockets(c: Core, c': Core, id: Id)
    requires Sound(c, {}) && GoodStep(c, c', id)
    ensures c'.sockets <= c.sockets && c'.ops.Keys == c.ops.Keys
  {
    hide OpsCoherent, DeadlinesExact, TableOwns, Progress, AtRest;
    forall fd | fd in c'.live.Keys ensures fd in c.live.Keys {
      assert fd in c'.live;
    }
  }

  lemma RefuseGains(s: State, id: Id)
    requires Inv(s) && id in s.refused && id in s.core.ops
    ensures Gains(s, Next(s, Refuse(id)), {}, {})
  {
    assert Holders(s)[id] > 0;
    HeldUnstarted(s, id);
    EndOne(s.core, id, Cancelled, {});
    hide HeldOnce, Shrinks, Finish, Gains, Sound;
    ShrinkGains(s, Next(s, Refuse(id)));
  }

  lemma EndGains(s: State, l: Label)
    requires Inv(s) && Enabled(s, l) && (l.FinishLeftovers? || l.ScanDone? || l.Sweep? || l.Clean?)
    ensures Gains(s, Next(s, l), {}, {})
  {
    hide Valid, Ended, FinishAll, Swept, HeldOnce, Holders, Lifecycle, EventsOwn, NoLostWakeUp, Shrinks, AllEnded,
        Gains, Collected, Registered;
    match l
    case FinishLeftovers(rest) =>
      FinishTwice(s.core, s.shutdown.leftovers, rest);
      EndedGains(s, Next(s, l), (set id | id in s.shutdown.leftovers) + (set id | id in rest));
    case ScanDone =>
      FinishAllGood(s.core, s.worker.hits);
      ShrinkGains(s, Next(s, l));
    case Sweep(now, expired, later) =>
      SweepCore(s.core, now, expired, later);
      EndedGains(s, Next(s, l), set id | id in expired);
    case Clean(rest) =>
      FinishTwice(s.core, s.worker.batch, rest);
      EndedGains(s, Next(s, l), (set id | id in s.worker.batch) + (set id | id in rest));
  }

  lemma EndedGains(s: State, s': State, ids: set<Id>)
    requires Valid(s.core) && Valid(s'.core) && Ended(s.core, s'.core, ids)
    ensures Gains(s, s', {}, {})
  {
    hide Valid, Gains;
    OldGains(s, s');
  }

  lemma QuietGains(s: State, l: Label)
    requires HeldOnce(s) && Enabled(s, l) && Quiet(l)
    ensures Gains(s, Next(s, l), {}, {})
  {
    hide HeldOnce, Enabled, Next;
    QuietHeld(s, l);
  }

  lemma StepGains(s: State, l: Label)
    requires Inv(s) && Enabled(s, l)
    ensures Gains(s, Next(s, l), NewIds(l), NewFds(l))
  {
    hide Valid, HeldOnce, Lifecycle, EventsOwn, NoLostWakeUp, Advance, Finish, FinishAll, Swept, BeginConnect;
    if Quiet(l) {
      QuietGains(s, l);
    } else if l.Start? {
      StartGains(s, l);
    } else if l.HandleEvent? {
      HandleCore(s, l.k);
      OldGains(s, Next(s, l));
    } else if l.Refuse? {
      RefuseGains(s, l.id);
    } else if !l.Place? {
      EndGains(s, l);
    }
  }

  // ---- every action keeps the invariant ---------------------------------------------------

  lemma LocalVisited(s: State, l: Label)
    requires Enabled(s, l) && (Local(l) || l.Place?)
    ensures Next(s, l).shutdown == s.shutdown
  {
    hide Advance, Finish, FinishAll, Swept, BeginConnect, Known, Lists, Collected, Gathered;
  }

  lemma SubmitKeeps(r: Reactor, a: Action)
    requires SystemInv(r) && CanAct(r, a) && a.Submit?
    ensures SystemInv(Act(r, a))
  {
    hide Inv, Gains, Next, Enabled;
    var i, l := r.next % |r.shards|, Place(a.id, a.tls, a.size, a.maxResponse, a.flagged);
    assert Enabled(r.shards[i], l) by {
      PlaceEnabled(r.shards[i], l);
    }
    OneShardInv(r, i, l);
    StepGains(r.shards[i], l);
    LocalVisited(r.shards[i], l);
    OneShardApart(r, i, l, NewIds(l), NewFds(l));
  }

  lemma PlaceEnabled(s: State, l: Label)
    requires l.Place? && l.id !in s.core.ops
    ensures Enabled(s, l)
  {
  }

  lemma OnShardKeeps(r: Reactor, i: nat, l: Label)
    requires SystemInv(r) && CanAct(r, OnShard(i, l))
    ensures SystemInv(Act(r, OnShard(i, l)))
  {
    hide Inv, Gains, Next, Enabled;
    OneShardInv(r, i, l);
    StepGains(r.shards[i], l);
    LocalVisited(r.shards[i], l);
    OneShardApart(r, i, l, NewIds(l), NewFds(l));
  }

  lemma StopKeeps(r: Reactor)
    requires SystemInv(r) && CanAct(r, Stop)
    ensures SystemInv(Act(r, Stop))
  {
    var r' := Act(r, Stop);
    hide Inv, Next;
    forall i | 0 <= i < |r.shards| ensures Inv(r'.shards[i]) {
      assert Enabled(r.shards[i], BeginShutdown);
      StepKeeps(r.shards[i], BeginShutdown);
      assert r'.shards[i] == Next(r.shards[i], BeginShutdown) by {
        StopIsNext(r.shards[i]);
      }
    }
  }

  lemma StopIsNext(s: State)
    requires Enabled(s, BeginShutdown)
    ensures Next(s, BeginShutdown) == s.(stop := true, shutdown := OwesWake)
  {
  }

  lemma ShutdownStepKeeps(r: Reactor, a: Action)
    requires SystemInv(r) && CanAct(r, a) && (a.WakeNext? || a.CloseNext? || a.FinishNext?)
    ensures SystemInv(Act(r, a))
  {
    hide Inv, Gains, Next, Enabled;
    var k := r.caller.k;
    var l :=
      match a
      case WakeNext => WakeForShutdown
      case CloseNext => CloseShard
      case FinishNext(rest) => FinishLeftovers(rest);
    OneShardInv(r, k, l);
    StepGains(r.shards[k], l);
    OneShardApart(r, k, l, NewIds(l), NewFds(l));
    ShutdownPhases(r.shards[k], l);
  }

  lemma ShutdownPhases(s: State, l: Label)
    requires Enabled(s, l) && (l.WakeForShutdown? || l.CloseShard? || l.FinishLeftovers?)
    ensures var d := Next(s, l).shutdown;
            && (l.WakeForShutdown? ==> d == Woken)
            && (l.CloseShard? ==> d.Closing?)
            && (l.FinishLeftovers? ==> d == Complete)
  {
    hide FinishAll, Known, Lists;
  }

  lemma ActKeeps(r: Reactor, a: Action)
    requires SystemInv(r) && CanAct(r, a)
    ensures SystemInv(Act(r, a))
  {
    hide AllInv, Apart, OneShard, Next, Enabled;
    match a
    case Submit(_, _, _, _, _) => SubmitKeeps(r, a);
    case OnShard(i, l) => OnShardKeeps(r, i, l);
    case Stop => StopKeeps(r);
    case WakeNext => ShutdownStepKeeps(r, a);
    case JoinAll => JoinKeeps(r);
    case CloseNext => ShutdownStepKeeps(r, a);
    case FinishNext(_) => ShutdownStepKeeps(r, a);
    case CallAgain =>
  }

  lemma JoinKeeps(r: Reactor)
    requires SystemInv(r) && r.caller == Joining
    ensures SystemInv(r.(caller := ClosingAll(0)))
  {
    hide Inv;
  }

  // ---- runs ---------------------------------------------------------------------------

  ghost predicate IsHistory(rs: seq<Reactor>, actions: seq<Action>, n: nat) {
    && n > 0 && |rs| == |actions| + 1 && rs[0] == Initial(n)
    && forall i :: 0 <= i < |actions| ==> CanAct(rs[i], actions[i]) && rs[i + 1] == Act(rs[i], actions[i])
  }

  lemma InitialSystem(n: nat)
    requires n > 0
    ensures SystemInv(Initial(n))
  {
    InitialInv();
    hide Inv;
  }

  lemma {:induction false} HistoryInv(rs: seq<Reactor>, actions: seq<Action>, n: nat, m: nat)
    requires IsHistory(rs, actions, n) && m < |rs|
    ensures SystemInv(rs[m])
  {
    hide SystemInv, CanAct, Act;
    if m == 0 {
      InitialSystem(n);
    } else {
      HistoryInv(rs, actions, n, m - 1);
      ActKeeps(rs[m - 1], actions[m - 1]);
    }
  }

  /** Each shard is at every moment in a state with the guarantees of a single shard; an
      operation is known to one shard only, and no descriptor is open in two. */
  lemma ShardsKeepTheirInvariants(rs: seq<Reactor>, actions: seq<Action>, n: nat, m: nat)
    requires IsHistory(rs, actions, n) && m < |rs|
    ensures forall i :: 0 <= i < |rs[m].shards| ==> Inv(rs[m].shards[i])
    ensures forall i, j, id :: 0 <= i < j < |rs[m].shards| && id in rs[m].shards[i].core.ops ==>
        id !in rs[m].shards[j].core.ops
    ensures forall i, j, fd :: 0 <= i < j < |rs[m].shards| && fd in rs[m].shards[i].core.sockets ==>
        fd !in rs[m].shards[j].core.sockets
  {
    hide CanAct, Act, Inv;
    HistoryInv(rs, actions, n, m);
  }

  /** When the first shutdown call has returned and no submit call is in progress, every
      operation ever submitted, on any shard, has been completed exactly once and nothing is open. */
  lemma NothingPendingAnywhere(rs: seq<Reactor>, actions: seq<Action>, n: nat, m: nat)
    requires IsHistory(rs, actions, n) && m < |rs| && rs[m].caller == Returned
    requires forall i :: 0 <= i < |rs[m].shards| ==> rs[m].shards[i].placed == {} && rs[m].shards[i].refused == {}
    ensures forall i, id :: 0 <= i < |rs[m].shards| && id in rs[m].shards[i].core.ops ==>
              rs[m].shards[i].core.ops[id].result != Pending && rs[m].shards[i].core.ops[id].completions == 1
    ensures forall i :: 0 <= i < |rs[m].shards| ==>
        rs[m].shards[i].core.sockets == {} && rs[m].shards[i].core.deadlines == multiset{}
  {
    hide CanAct, Act, Inv, IsHistory;
    HistoryInv(rs, actions, n, m);
    forall i | 0 <= i < |rs[m].shards|
      ensures forall id :: id in rs[m].shards[i].core.ops ==>
                rs[m].shards[i].core.ops[id].result != Pending && rs[m].shards[i].core.ops[id].completions == 1
      ensures rs[m].shards[i].core.sockets == {} && rs[m].shards[i].core.deadlines == multiset{}
    {
      AfterShutdown(rs[m].shards[i]);
    }
  }

  // ---- the first shutdown call and the later ones -----------------------------------------

  datatype Call = FirstCall | LaterCall

  ghost predicate StopBefore(actions: seq<Action>, m: nat)
    requires m <= |actions|
  {
    exists i :: 0 <= i < m && actions[i] == Stop
  }

  lemma CallerStep(r: Reactor, a: Action)
    requires CanAct(r, a)
    ensures Act(r, a).caller != Idle <==> r.caller != Idle || a == Stop
  {
    hide Enabled, Next, FreshSocket;
  }

  lemma {:induction false} AskedIff(rs: seq<Reactor>, actions: seq<Action>, n: nat, m: nat)
    requires IsHistory(rs, actions, n) && m < |rs|
    ensures rs[m].caller != Idle <==> StopBefore(actions, m)
  {
    hide CanAct, Act;
    if m > 0 {
      AskedIff(rs, actions, n, m - 1);
      CallerStep(rs[m - 1], actions[m - 1]);
      if actions[m - 1] == Stop {
        assert StopBefore(actions, m);
      }
    }
  }

  /** At any moment a shutdown call is either the first or finds that one was made before. */
  lemma FirstOrLater(rs: seq<Reactor>, actions: seq<Action>, n: nat, m: nat)
    requires IsHistory(rs, actions, n) && m < |rs|
    ensures CanAct(rs[m], Stop) <==> !StopBefore(actions, m)
    ensures CanAct(rs[m], CallAgain) <==> StopBefore(actions, m)
  {
    hide IsHistory, Inv, StopBefore, Enabled;
    AskedIff(rs, actions, n, m);
    HistoryInv(rs, actions, n, m);
  }

  ghost predicate AllSettled(r: Reactor) {
    forall i :: 0 <= i < |r.shards| ==> Settled(r.shards[i])
  }

  /** A shutdown call of that kind returns at action m, with no submit or cancel call in progress. */
  ghost predicate Returning(rs: seq<Reactor>, actions: seq<Action>, n: nat, m: nat, call: Call) {
    && IsHistory(rs, actions, n) && m < |actions| && m + 1 < |rs| && AllSettled(rs[m + 1])
    && if call == FirstCall then actions[m].FinishNext? && rs[m + 1].caller == Returned else actions[m] == CallAgain
  }

  ghost predicate AllDone(r: Reactor) {
    forall i :: 0 <= i < |r.shards| ==> NothingPending(r.shards[i])
  }

  lemma FirstReturnIsDone(rs: seq<Reactor>, actions: seq<Action>, n: nat, m: nat)
    requires Returning(rs, actions, n, m, FirstCall)
    ensures AllDone(rs[m + 1])
  {
    hide CanAct, Act, Inv;
    NothingPendingAnywhere(rs, actions, n, m + 1);
  }

  lemma Do(rs: seq<Reactor>, actions: seq<Action>, n: nat, a: Action) returns (rs': seq<Reactor>, actions': seq<Action>)
    requires IsHistory(rs, actions, n) && CanAct(rs[|rs| - 1], a)
    ensures IsHistory(rs', actions', n) && actions' == actions + [a] && rs' == rs + [Act(rs[|rs| - 1], a)]
  {
    hide CanAct, Act;
    rs', actions' := rs + [Act(rs[|rs| - 1], a)], actions + [a];
    forall i | 0 <= i < |actions'| ensures CanAct(rs'[i], actions'[i]) && rs'[i + 1] == Act(rs'[i], actions'[i]) {
      if i < |actions| {
        assert rs'[i] == rs[i] && rs'[i + 1] == rs[i + 1] && actions'[i] == actions[i];
      } else {
        assert rs'[i] == rs[|rs| - 1] && actions'[i] == a;
      }
    }
  }

  /** A later call that returns while an operation waits in the queue of the first shard. */
  lemma LaterReturnTooEarly(n: nat) returns (rs: seq<Reactor>, actions: seq<Action>, m: nat)
    requires n > 0
    ensures Returning(rs, actions, n, m, LaterCall) && !AllDone(rs[m + 1])
  {
    hide IsHistory;
    rs, actions := [Initial(n)], [];
    assert IsHistory(rs, actions, n) by {
      StartHistory(n);
    }
    rs, actions := Do(rs, actions, n, Submit(0, false, 0, 0, false));
    rs, actions := Do(rs, actions, n, OnShard(0, Enqueue(0)));
    rs, actions := Do(rs, actions, n, OnShard(0, Wake));
    rs, actions := Do(rs, actions, n, Stop);
    rs, actions := Do(rs, actions, n, CallAgain);
    m := 4;
    assert rs[m + 1].shards[0].core.ops[0].result == Pending;
  }

  lemma StartHistory(n: nat)
    requires n > 0
    ensures IsHistory([Initial(n)], [], n)
  {
  }

  /** A shutdown call guarantees at its return that nothing is pending anywhere, in every
      history and for any number of shards, if and only if no shutdown call was made before it. */
  lemma ReturnGuaranteesIff(n: nat, call: Call)
    requires n > 0
    ensures (forall rs, actions, m: nat :: Returning(rs, actions, n, m, call) ==> AllDone(rs[m + 1]))
            <==> call == FirstCall
  {
    hide IsHistory, AllDone;
    if call == FirstCall {
      forall rs, actions, m: nat | Returning(rs, actions, n, m, call) ensures AllDone(rs[m + 1]) {
        FirstReturnIsDone(rs, actions, n, m);
      }
    } else {
      var rs, actions, m := LaterReturnTooEarly(n);
    }
  }
}
