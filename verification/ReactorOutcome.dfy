/** How every operation of a run ends: by what happened to it and by nothing else. */
module ReactorOutcome {
  import opened Wrappers
  import opened ReactorShard
  import opened ReactorProtocol
  import opened ReactorRuns
  import opened ReactorExchange

  /** What a step means for an operation, if it concerns it at all. */
  ghost function TouchOf(s: State, l: Label, id: Id): (ts: seq<Touch>)
    requires Enabled(s, l)
    ensures |ts| <= 1
  {
    match l
    case Start(socket, due, k) =>
      if s.worker.batch[0] == id then [Began(id in s.cancelRequested, socket, due, k)] else []
    case HandleEvent(k) =>
      var e := s.worker.events[0];
      if e.OnSocket? && e.fd in s.core.live && s.core.live[e.fd] == id then [Event(e.failed, e.writable, k)] else []
    case Sweep(_, expired, _) => if id in expired then [Overran] else []
    case Refuse(i) => if i == id then [Stopped] else []
    case ScanDone => if id in s.worker.hits then [Stopped] else []
    case FinishLeftovers(rest) => if id in s.shutdown.leftovers || id in rest then [Stopped] else []
    case Clean(rest) => if id in s.worker.batch || id in rest then [Stopped] else []
    case _ => []
  }

  /** What has happened to an operation in the first n steps. */
  ghost function Touches(states: seq<State>, labels: seq<Label>, n: nat, id: Id): seq<Touch>
    requires IsRun(states, labels) && n <= |labels|
  {
    if n == 0 then [] else Touches(states, labels, n - 1, id) + TouchOf(states[n - 1], labels[n - 1], id)
  }

  function Through(ask: Ask, ph: Phase, ts: seq<Touch>): Phase
    requires |ts| <= 1
  {
    if ts == [] then ph else After(ask, ph, ts[0])
  }

  lemma PhaseSnoc(ask: Ask, ts: seq<Touch>, t: seq<Touch>)
    requires |t| <= 1
    ensures PhaseOf(ask, ts + t) == Through(ask, PhaseOf(ask, ts), t)
  {
    hide After;
    if t == [] {
      assert ts + t == ts;
    } else {
      assert (ts + t)[..|ts|] == ts;
    }
  }

  // ---- the other operations ---------------------------------------------------------------------

  /** A step on one operation leaves the phases of all others. */
  lemma OthersShow(c: Core, c': Core, y: Id, fd: int, x: Id, ask: Ask, ph: Phase)
    requires Local(c, c', y, fd) && x != y && Shows(c, x, ask, ph)
    requires c.ops[x].fd >= 0 ==> c.ops[x].fd != fd
    ensures Shows(c', x, ask, ph)
  {
  }

  lemma SocketsApart(c: Core, x: Id, y: Id)
    requires TableOwns(c) && x in c.ops && y in c.ops && x != y && c.ops[x].fd >= 0
    ensures c.ops[x].fd != c.ops[y].fd
  {
  }

  lemma TableOf(c: Core, skip: set<Id>)
    requires Sound(c, skip)
    ensures TableOwns(c) && c.sockets == c.live.Keys
  {
  }

  lemma ShowsKnown(c: Core, id: Id, ask: Ask, ph: Phase)
    requires Shows(c, id, ask, ph)
    ensures id in c.ops && AskOf(c.ops[id]) == ask
    ensures ph.Over? <==> c.ops[id].finished
    ensures ph.Submitted? <==> c.ops[id].fd < 0 && !c.ops[id].finished
  {
  }

  lemma StopOne(c: Core, y: Id, id: Id, ask: Ask, ph: Phase)
    requires TableOwns(c) && y in c.ops && Shows(c, id, ask, ph)
    ensures Shows(Finish(c, y, Cancelled), id, ask, if y == id then AfterStop(ask, ph) else ph)
  {
    hide Shows, Finish, TableOwns, AfterStop;
    ShowsKnown(c, id, ask, ph);
    if y == id {
      StopShows(c, id, ask, ph);
    } else if c.ops[y].finished {
      FinishedStays(c, y, Cancelled);
    } else {
      FinishFacts(c, y, Cancelled);
      if c.ops[id].fd >= 0 {
        SocketsApart(c, id, y);
      }
      OthersShow(c, Finish(c, y, Cancelled), y, c.ops[y].fd, id, ask, ph);
    }
  }

  lemma StopTwice(ask: Ask, ph: Phase)
    ensures AfterStop(ask, AfterStop(ask, ph)) == AfterStop(ask, ph)
  {
  }

  lemma {:induction false} StopAll(c: Core, ids: seq<Id>, id: Id, ask: Ask, ph: Phase)
    requires Valid(c) && Known(c, ids) && Shows(c, id, ask, ph)
    ensures Shows(FinishAll(c, ids), id, ask, if id in ids then AfterStop(ask, ph) else ph)
    decreases |ids|
  {
    if ids != [] {
      hide Shows, Finish, Sound, AtRest, AfterStop;
      var y := ids[0];
      var c1 := Finish(c, y, Cancelled);
      TableOf(c, {});
      hide TableOwns;
      StopOne(c, y, id, ask, ph);
      if c.ops[y].finished {
        FinishedStays(c, y, Cancelled);
      } else {
        EndOne(c, y, Cancelled, {});
      }
      StopAll(c1, ids[1..], id, ask, if y == id then AfterStop(ask, ph) else ph);
      StopTwice(ask, ph);
    }
  }

  lemma ExpireNext(c: Core, y: Id, id: Id, ask: Ask, ph: Phase)
    requires TableOwns(c) && y in c.ops && Shows(c, id, ask, ph) && (y == id ==> !ph.Submitted?)
    requires !c.ops[y].finished ==> Coherent(c.ops[y])
    ensures Shows(Expire(c, y), id, ask, if y == id then AfterOverrun(ask, ph) else ph)
  {
    hide Shows, Finish, TableOwns, AfterOverrun;
    ShowsKnown(c, id, ask, ph);
    if y == id {
      ExpireShows(c, id, ask, ph);
    } else if c.ops[y].finished {
      FinishedStays(c, y, Cancelled);
    } else {
      ExpireLocal(c, y);
      if c.ops[id].fd >= 0 {
        SocketsApart(c, id, y);
      }
      OthersShow(c, Expire(c, y), y, c.ops[y].fd, id, ask, ph);
    }
  }

  lemma ExpireLocal(c: Core, y: Id)
    requires y in c.ops && !c.ops[y].finished && Coherent(c.ops[y])
    ensures Local(c, Expire(c, y), y, c.ops[y].fd)
  {
    hide Finish, Local;
    match c.ops[y].stage
    case Connecting => FinishFacts(c, y, ConnectFailed);
    case TlsHandshake => FinishFacts(c, y, TlsFailed);
    case Sending => FinishFacts(c, y, SendFailed);
    case RecvFirst => FinishFacts(c, y, if c.ops[y].recv == [] then TimedOut else Success);
    case RecvIdle => FinishFacts(c, y, Success);
  }

  lemma OverrunTwice(ask: Ask, ph: Phase)
    requires !ph.Submitted?
    ensures AfterOverrun(ask, ph).Over? && AfterOverrun(ask, AfterOverrun(ask, ph)) == AfterOverrun(ask, ph)
  {
  }

  lemma {:induction false} OverrunAll(c: Core, ids: seq<Id>, skip: set<Id>, id: Id, ask: Ask, ph: Phase)
    requires Sound(c, skip) && AllAtRest(c) && Known(c, ids)
    requires Shows(c, id, ask, ph) && (id in ids ==> !ph.Submitted?)
    ensures Shows(ExpireAll(c, ids), id, ask, if id in ids then AfterOverrun(ask, ph) else ph)
    decreases |ids|
  {
    if ids != [] {
      hide Shows, Expire, Sound, AllAtRest, AfterOverrun, Coherent;
      var y := ids[0];
      var c1 := Expire(c, y);
      TableOf(c, skip);
      hide TableOwns;
      OpCoherent(c, y, skip);
      ExpireNext(c, y, id, ask, ph);
      if c.ops[y].finished {
        FinishedStays(c, y, Cancelled);
      } else {
        ExpireOne(c, y, skip);
      }
      if y == id {
        OverrunTwice(ask, ph);
      }
      OverrunAll(c1, ids[1..], skip, id, ask, if y == id then AfterOverrun(ask, ph) else ph);
    }
  }

  // ---- one step ------------------------------------------------------------------------------------

  lemma SweepShows(c: Core, now: int, expired: seq<Id>, rest: multiset<(int, int)>, id: Id, ask: Ask, ph: Phase)
    requires Valid(c) && Known(c, expired) && Collected(c, now, expired, rest) && Shows(c, id, ask, ph)
    ensures Shows(Swept(c, expired, rest), id, ask, if id in expired then AfterOverrun(ask, ph) else ph)
  {
    var c1, skip := c.(deadlines := rest), set i | i in expired;
    RestExact(c, now, expired, rest);
    OverdueStarted(c, now, expired, rest);
    assert Shows(c1, id, ask, ph);
    ShowsKnown(c, id, ask, ph);
    hide Sound, Shows, ExpireAll, Collected, AfterOverrun;
    OverrunAll(c1, expired, skip, id, ask, ph);
  }

  /** An operation is in some phase. */
  ghost predicate HasPhase(c: Core, id: Id) {
    id in c.ops && exists ph :: Shows(c, id, AskOf(c.ops[id]), ph)
  }

  lemma AdvanceLocal(c: Core, y: Id, t: Touch)
    requires t.Event? && HasPhase(c, y) && c.ops[y].fd >= 0
    ensures Local(c, Advance(c, y, t.failed, t.writable, t.kernel), y, c.ops[y].fd)
  {
    hide Shows, Advance, Local, AfterEvent;
    var ph :| Shows(c, y, AskOf(c.ops[y]), ph);
    AdvanceShows(c, y, AskOf(c.ops[y]), ph, t);
  }

  lemma EntryOf(c: Core, fd: int)
    requires Sound(c, {}) && fd in c.live
    ensures c.live[fd] in c.ops && c.ops[c.live[fd]].fd == fd >= 0
  {
  }

  lemma HandleShows(s: State, k: Kernel, id: Id, ask: Ask, ph: Phase)
    requires Sound(s.core, {}) && Enabled(s, HandleEvent(k)) && Shows(s.core, id, ask, ph)
    requires forall y :: y in s.core.ops ==> HasPhase(s.core, y)
    ensures Shows(HandleNext(s, k).core, id, ask, Through(ask, ph, TouchOf(s, HandleEvent(k), id)))
  {
    hide Shows, Advance, Sound, AfterEvent, HasPhase;
    var c, e := s.core, s.worker.events[0];
    if e.OnSocket? && e.fd in c.live {
      var y, t := c.live[e.fd], Event(e.failed, e.writable, k);
      EntryOf(c, e.fd);
      ShowsKnown(c, id, ask, ph);
      if y == id {
        AdvanceShows(c, id, ask, ph, t);
      } else {
        AdvanceLocal(c, y, t);
        TableOf(c, {});
        if c.ops[id].fd >= 0 {
          SocketsApart(c, id, y);
        }
        OthersShow(c, Advance(c, y, e.failed, e.writable, k), y, e.fd, id, ask, ph);
      }
    }
  }

  lemma BeginLocal(c: Core, y: Id, t: Touch)
    requires t.Began? && HasPhase(c, y) && Unstarted(c, y)
    ensures Local(c, BeginConnect(c, y, t.cancelled, t.socket, t.due, t.kernel), y,
                  if t.socket.Opened? then t.socket.fd else c.ops[y].fd)
  {
    hide Shows, BeginConnect, Local, AfterBegin;
    var ph :| Shows(c, y, AskOf(c.ops[y]), ph);
    ShowsKnown(c, y, AskOf(c.ops[y]), ph);
    BeginShows(c, y, AskOf(c.ops[y]), t);
  }

  lemma NotOpen(c: Core, id: Id, fd: int)
    requires Sound(c, {}) && id in c.ops && c.ops[id].fd >= 0 && (fd < 0 || fd !in c.sockets)
    ensures c.ops[id].fd != fd
  {
  }

  lemma StartShows(s: State, socket: Socket, due: int, k: Kernel, id: Id, ask: Ask, ph: Phase)
    requires Sound(s.core, {}) && HeldOnce(s) && Enabled(s, Start(socket, due, k)) && Shows(s.core, id, ask, ph)
    requires forall y :: y in s.core.ops ==> HasPhase(s.core, y)
    ensures Shows(Next(s, Start(socket, due, k)).core, id, ask, Through(ask, ph, TouchOf(s, Start(socket, due, k), id)))
  {
    BatchFirst(s);
    hide Shows, BeginConnect, Sound, AfterBegin, HasPhase, HeldOnce, Holders;
    var c, y := s.core, s.worker.batch[0];
    var t := Began(y in s.cancelRequested, socket, due, k);
    ShowsKnown(c, id, ask, ph);
    if y == id {
      BeginShows(c, id, ask, t);
    } else {
      BeginLocal(c, y, t);
      var fd := if socket.Opened? then socket.fd else c.ops[y].fd;
      if c.ops[id].fd >= 0 {
        NotOpen(c, id, fd);
      }
      OthersShow(c, BeginConnect(c, y, t.cancelled, socket, due, k), y, fd, id, ask, ph);
    }
  }

  lemma StopTwoLists(c: Core, a: seq<Id>, b: seq<Id>, id: Id, ask: Ask, ph: Phase)
    requires Valid(c) && Known(c, a) && Known(c, b) && Shows(c, id, ask, ph)
    ensures Shows(FinishAll(FinishAll(c, a), b), id, ask, if id in a || id in b then AfterStop(ask, ph) else ph)
  {
    hide Valid, Shows, AfterStop, AllEnded, Shrinks;
    FinishAllGood(c, a);
    StopAll(c, a, id, ask, ph);
    StopAll(FinishAll(c, a), b, id, ask, if id in a then AfterStop(ask, ph) else ph);
    StopTwice(ask, ph);
  }

  lemma PlaceShows(c: Core, y: Id, op: Op, id: Id, ask: Ask, ph: Phase)
    requires y !in c.ops && Shows(c, id, ask, ph)
    ensures Shows(WithOp(c, y, op), id, ask, ph)
  {
  }

  lemma QuietTouches(s: State, l: Label, id: Id)
    requires Enabled(s, l) && (Quiet(l) || l.Place?)
    ensures TouchOf(s, l, id) == []
  {
  }

  /** A step takes an operation to the next phase if it concerns it, and nowhere otherwise. */
  lemma StepShows(s: State, l: Label, id: Id, ask: Ask, ph: Phase)
    requires Inv(s) && Enabled(s, l) && Shows(s.core, id, ask, ph)
    requires forall y :: y in s.core.ops ==> HasPhase(s.core, y)
    ensures Shows(Next(s, l).core, id, ask, Through(ask, ph, TouchOf(s, l, id)))
  {
    hide Lifecycle, EventsOwn, NoLostWakeUp, Sound, Shows, FinishAll, Finish, Swept, BeginConnect, HandleNext, WithOp,
        HeldOnce, HasPhase, AtRest, AfterEvent, AfterStop, AfterOverrun, AfterBegin, Collected, TableOwns;
    if Quiet(l) {
      QuietHeld(s, l);
      QuietTouches(s, l, id);
    } else {
      match l
      case Place(y, tls, size, maxResponse, flagged) =>
        PlaceShows(s.core, y, NewOp(tls, size, maxResponse), id, ask, ph);
      case Refuse(y) =>
        TableOf(s.core, {});
        StopOne(s.core, y, id, ask, ph);
      case FinishLeftovers(rest) => StopTwoLists(s.core, s.shutdown.leftovers, rest, id, ask, ph);
      case HandleEvent(k) => HandleShows(s, k, id, ask, ph);
      case Start(socket, due, k) => StartShows(s, socket, due, k, id, ask, ph);
      case ScanDone => StopAll(s.core, s.worker.hits, id, ask, ph);
      case Sweep(now, expired, later) => SweepShows(s.core, now, expired, later, id, ask, ph);
      case Clean(rest) => StopTwoLists(s.core, s.worker.batch, rest, id, ask, ph);
    }
  }

  // ---- the whole run ---------------------------------------------------------------------------------

  lemma UnknownUntouched(s: State, l: Label, id: Id)
    requires Enabled(s, l) && id !in s.core.ops
    ensures TouchOf(s, l, id) == []
  {
    hide Collected, Gathered, Unstarted;
  }

  lemma {:induction false} NoTouches(states: seq<State>, labels: seq<Label>, n: nat, id: Id)
    requires IsRun(states, labels) && n <= |labels| && id !in states[n].core.ops
    ensures Touches(states, labels, n, id) == []
  {
    hide Next, Enabled, TouchOf, Inv, Advances;
    if n > 0 {
      RunInv(states, labels, n - 1);
      StepAdvances(states[n - 1], labels[n - 1]);
      Known1(states[n - 1].core, states[n].core, id);
      NoTouches(states, labels, n - 1, id);
      UnknownUntouched(states[n - 1], labels[n - 1], id);
    }
  }

  lemma Known1(c: Core, c': Core, id: Id)
    requires Advances(c, c') && id !in c'.ops
    ensures id !in c.ops
  {
  }

  /** A step that makes an operation known submits it. */
  lemma NewlyPlaced(s: State, l: Label, id: Id)
    requires Inv(s) && Enabled(s, l) && id !in s.core.ops && id in Next(s, l).core.ops
    requires forall y :: y in s.core.ops ==> HasPhase(s.core, y)
    ensures Shows(Next(s, l).core, id, AskOf(Next(s, l).core.ops[id]), Submitted)
  {
    hide Lifecycle, EventsOwn, NoLostWakeUp, HeldOnce, Sound, AtRest, Progress, Collected, Gathered, Advance,
        BeginConnect, Finish, FinishAll, Swept, HandleNext, HasPhase;
    if Quiet(l) {
      QuietHeldAt(s, l);
    } else if !l.Place? {
      SameKeys(s, l);
    }
  }

  lemma QuietHeldAt(s: State, l: Label)
    requires Inv(s) && Enabled(s, l) && Quiet(l)
    ensures Next(s, l).core == s.core
  {
    hide Enabled, Next, Valid, Lifecycle, EventsOwn, NoLostWakeUp;
    QuietHeld(s, l);
  }

  lemma FinishKeys(c: Core, y: Id)
    requires y in c.ops
    ensures Finish(c, y, Cancelled).ops.Keys == c.ops.Keys
  {
  }

  lemma LocalKeys(c: Core, c': Core, y: Id, fd: int)
    requires Local(c, c', y, fd)
    ensures c'.ops.Keys == c.ops.Keys
  {
  }

  lemma StartKeys(s: State, socket: Socket, due: int, k: Kernel)
    requires HeldOnce(s) && Enabled(s, Start(socket, due, k))
    requires forall y :: y in s.core.ops ==> HasPhase(s.core, y)
    ensures Next(s, Start(socket, due, k)).core.ops.Keys == s.core.ops.Keys
  {
    BatchFirst(s);
    hide BeginConnect, HeldOnce, Holders, HasPhase, Local;
    var c, y := s.core, s.worker.batch[0];
    var t := Began(y in s.cancelRequested, socket, due, k);
    BeginLocal(c, y, t);
    LocalKeys(c, BeginConnect(c, y, t.cancelled, socket, due, k), y, if socket.Opened? then socket.fd else c.ops[y].fd);
  }

  lemma HandleKeys(s: State, k: Kernel)
    requires Sound(s.core, {}) && Enabled(s, HandleEvent(k))
    requires forall y :: y in s.core.ops ==> HasPhase(s.core, y)
    ensures HandleNext(s, k).core.ops.Keys == s.core.ops.Keys
  {
    hide Sound, Advance, HasPhase, Local;
    var c, e := s.core, s.worker.events[0];
    if e.OnSocket? && e.fd in c.live {
      EntryOf(c, e.fd);
      var y := c.live[e.fd];
      AdvanceLocal(c, y, Event(e.failed, e.writable, k));
      LocalKeys(c, Advance(c, y, e.failed, e.writable, k), y, c.ops[y].fd);
    }
  }

  lemma SameKeys(s: State, l: Label)
    requires Inv(s) && Enabled(s, l) && !Quiet(l) && !l.Place?
    requires forall y :: y in s.core.ops ==> HasPhase(s.core, y)
    ensures Next(s, l).core.ops.Keys == s.core.ops.Keys
  {
    hide Lifecycle, EventsOwn, NoLostWakeUp, Sound, AtRest, HeldOnce, Collected, HasPhase, Finish, BeginConnect,
        HandleNext;
    match l
    case Refuse(y) => FinishKeys(s.core, y);
    case FinishLeftovers(rest) =>
    case HandleEvent(k) => HandleKeys(s, k);
    case Start(socket, due, k) => StartKeys(s, socket, due, k);
    case ScanDone =>
    case Sweep(now, expired, later) =>
    case Clean(rest) =>
  }

  /** What a run says about an operation: the phase that its history leads to. */
  ghost function PhaseAt(states: seq<State>, labels: seq<Label>, n: nat, id: Id): Phase
    requires IsRun(states, labels) && n <= |labels| && id in states[n].core.ops
  {
    PhaseOf(AskOf(states[n].core.ops[id]), Touches(states, labels, n, id))
  }

  ghost predicate AllShow(states: seq<State>, labels: seq<Label>, n: nat)
    requires IsRun(states, labels) && n <= |labels|
  {
    forall id :: id in states[n].core.ops ==>
                   Shows(states[n].core, id, AskOf(states[n].core.ops[id]), PhaseAt(states, labels, n, id))
  }

  lemma AllHavePhases(states: seq<State>, labels: seq<Label>, n: nat)
    requires IsRun(states, labels) && n <= |labels| && AllShow(states, labels, n)
    ensures forall y :: y in states[n].core.ops ==> HasPhase(states[n].core, y)
  {
    hide Next, Enabled, Shows, Touches, PhaseOf;
  }

  lemma ShowsNext(states: seq<State>, labels: seq<Label>, n: nat, id: Id)
    requires IsRun(states, labels) && 0 < n <= |labels| && AllShow(states, labels, n - 1)
    requires id in states[n].core.ops
    ensures Shows(states[n].core, id, AskOf(states[n].core.ops[id]), PhaseAt(states, labels, n, id))
  {
    hide Next, Enabled, Shows, PhaseOf, TouchOf, Inv, HasPhase;
    var s, l := states[n - 1], labels[n - 1];
    RunInv(states, labels, n - 1);
    if id in s.core.ops {
      var ask, ph := AskOf(s.core.ops[id]), PhaseAt(states, labels, n - 1, id);
      AllHavePhases(states, labels, n - 1);
      StepShows(s, l, id, ask, ph);
      ShowsKnown(states[n].core, id, ask, Through(ask, ph, TouchOf(s, l, id)));
      PhaseSnoc(ask, Touches(states, labels, n - 1, id), TouchOf(s, l, id));
    } else {
      AllHavePhases(states, labels, n - 1);
      NewlyPlaced(s, l, id);
      NoTouches(states, labels, n - 1, id);
      UnknownUntouched(s, l, id);
      assert Touches(states, labels, n, id) == [];
      NothingYet(AskOf(states[n].core.ops[id]));
    }
  }

  lemma NothingYet(ask: Ask)
    ensures PhaseOf(ask, []) == Submitted
  {
  }

  lemma {:induction false} RunAllShow(states: seq<State>, labels: seq<Label>, n: nat)
    requires IsRun(states, labels) && n <= |labels|
    ensures AllShow(states, labels, n)
  {
    hide Next, Enabled, Shows, PhaseAt;
    if n > 0 {
      RunAllShow(states, labels, n - 1);
      forall id | id in states[n].core.ops
          ensures Shows(states[n].core, id, AskOf(states[n].core.ops[id]), PhaseAt(states, labels, n, id)) {
        ShowsNext(states, labels, n, id);
      }
    }
  }

  /** At every moment of every run, every operation is where its own history leads: its stage and
      its deadline, what it has sent and received, its outcome, and what its socket is watched for. */
  lemma RunShows(states: seq<State>, labels: seq<Label>, n: nat, id: Id)
    requires IsRun(states, labels) && n <= |labels| && id in states[n].core.ops
    ensures Shows(states[n].core, id, AskOf(states[n].core.ops[id]), PhaseAt(states, labels, n, id))
  {
    hide Next, Enabled, Shows, PhaseAt;
    RunAllShow(states, labels, n);
  }

  // ---- an exchange that succeeds -------------------------------------------------------------------------

  /** Writes of these sizes, one after the other. */
  function TakenOf(ns: seq<nat>): seq<SendAnswer> {
    if ns == [] then [] else [Taken(ns[0])] + TakenOf(ns[1..])
  }

  function Sum(ns: seq<nat>): nat {
    if ns == [] then 0 else ns[0] + Sum(ns[1..])
  }

  /** Reads of these bytes, one after the other. */
  function DataOf(parts: seq<seq<byte>>): seq<RecvAnswer> {
    if parts == [] then [] else [Data(parts[0])] + DataOf(parts[1..])
  }

  function Flat(parts: seq<seq<byte>>): seq<byte> {
    if parts == [] then [] else parts[0] + Flat(parts[1..])
  }

  /** Every write takes something, and over TLS at most 2^20 bytes. */
  ghost predicate WriteSizes(ns: seq<nat>, tls: bool) {
    forall i :: 0 <= i < |ns| ==> ns[i] > 0 && (tls ==> ns[i] <= 0x10_0000)
  }

  /** Every read returns something, at most 4096 bytes. */
  ghost predicate ReadSizes(parts: seq<seq<byte>>) {
    forall i :: 0 <= i < |parts| ==> 0 < |parts[i]| <= 4096
  }

  /** An event whose reads return these parts and then `end`. */
  ghost predicate Round(t: Touch, parts: seq<seq<byte>>, end: RecvAnswer) {
    t.Event? && ReadSizes(parts) && t.kernel.recvs == DataOf(parts) + [end]
  }

  /** Any number of events whose reads deliver the parts, each until a read would block, and
      the last until the peer closes. */
  ghost predicate Rounds(rounds: seq<Touch>, parts: seq<seq<seq<byte>>>, wants: seq<bool>) {
    && |rounds| == |parts| == |wants| && rounds != []
    && (forall i :: 0 <= i < |rounds| - 1 ==>
          Round(rounds[i], parts[i], RecvBlocked(wants[i])) && rounds[i].kernel.armOk)
    && Round(rounds[|rounds| - 1], parts[|rounds| - 1], PeerClosed)
  }

  function Content(parts: seq<seq<seq<byte>>>): seq<byte> {
    if parts == [] then [] else Content(parts[..|parts| - 1]) + Flat(parts[|parts| - 1])
  }

  lemma {:induction false} TakenWrites(ns: seq<nat>, tls: bool)
    requires WriteSizes(ns, tls)
    ensures Writes(tls, TakenOf(ns)) == Sum(ns)
  {
    if ns != [] {
      TakenWrites(ns[1..], tls);
    }
  }

  lemma {:induction false} DataReads(parts: seq<seq<byte>>, end: RecvAnswer, tls: bool)
    requires ReadSizes(parts) && (end.PeerClosed? || end.RecvBlocked?)
    ensures Arrived(tls, DataOf(parts) + [end]) == Flat(parts) && ReadStop(tls, DataOf(parts) + [end]) == end
  {
    if parts == [] {
      assert DataOf(parts) + [end] == [end];
    } else {
      DataReads(parts[1..], end, tls);
      assert (DataOf(parts) + [end])[1..] == DataOf(parts[1..]) + [end];
      assert (DataOf(parts) + [end])[0] == Data(parts[0]) && parts[0] != [];
    }
  }

  /** Reading so far: all of it, or finished at the cap. */
  ghost predicate HasRead(ask: Ask, ph: Phase, d: seq<byte>) {
    if |d| >= ask.cap then ph == Over(Success, ask.size, d[..ask.cap]) else ph.Reading? && ph.got == d
  }

  lemma RoundRead(ask: Ask, ph: Phase, d: seq<byte>, t: Touch, parts: seq<seq<byte>>, end: RecvAnswer)
    requires HasRead(ask, ph, d) && Round(t, parts, end)
    requires (end.RecvBlocked? && t.kernel.armOk) || end.PeerClosed?
    ensures var all, ph' := d + Flat(parts), After(ask, ph, t);
            if end.PeerClosed? then ph' == Over(Success, ask.size, Upto(all, ask.cap)) else HasRead(ask, ph', all)
  {
    DataReads(parts, end, ask.tls);
    var all := d + Flat(parts);
    if |d| >= ask.cap {
      assert all[..ask.cap] == d[..ask.cap];
    }
  }

  lemma {:induction false} RoundsRead(ask: Ask, before: seq<Touch>, rounds: seq<Touch>, parts: seq<seq<seq<byte>>>,
                                      wants: seq<bool>, n: nat)
    requires Rounds(rounds, parts, wants) && n < |rounds|
    requires HasRead(ask, PhaseOf(ask, before), [])
    ensures HasRead(ask, PhaseOf(ask, before + rounds[..n]), Content(parts[..n]))
  {
    hide HasRead, Round, After;
    if n == 0 {
      assert before + rounds[..0] == before;
    } else {
      RoundsRead(ask, before, rounds, parts, wants, n - 1);
      var ts := before + rounds[..n - 1];
      assert before + rounds[..n] == ts + [rounds[n - 1]];
      PhaseSnoc(ask, ts, [rounds[n - 1]]);
      assert Round(rounds[n - 1], parts[n - 1], RecvBlocked(wants[n - 1]));
      RoundRead(ask, PhaseOf(ask, ts), Content(parts[..n - 1]), rounds[n - 1], parts[n - 1], RecvBlocked(wants[n - 1]));
      assert parts[..n][..n - 1] == parts[..n - 1];
    }
  }

  lemma ReadsSucceed(ask: Ask, before: seq<Touch>, rounds: seq<Touch>, parts: seq<seq<seq<byte>>>, wants: seq<bool>)
    requires Rounds(rounds, parts, wants) && HasRead(ask, PhaseOf(ask, before), [])
    ensures PhaseOf(ask, before + rounds) == Over(Success, ask.size, Upto(Content(parts), ask.cap))
  {
    hide HasRead, Round, After;
    var n := |rounds| - 1;
    RoundsRead(ask, before, rounds, parts, wants, n);
    var ts := before + rounds[..n];
    assert before + rounds == ts + [rounds[n]];
    PhaseSnoc(ask, ts, [rounds[n]]);
    RoundRead(ask, PhaseOf(ask, ts), Content(parts[..n]), rounds[n], parts[n], PeerClosed);
  }

  /** The kernel reports no error, the TLS library has a context and completes the handshake,
      the writes take everything, and epoll accepts the socket. */
  ghost predicate Goes(k: Kernel, ask: Ask, ns: seq<nat>) {
    && !k.socketError && (ask.tls ==> k.tlsContext && k.handshake == TlsReady)
    && k.sends == TakenOf(ns) && WriteSizes(ns, ask.tls) && Sum(ns) == ask.size && k.armOk
  }

  lemma GoesOnToRead(ask: Ask, k: Kernel, ns: seq<nat>)
    requires Goes(k, ask, ns)
    ensures AfterConnect(ask, k) == Reading([], k.firstByteDue, false)
  {
    TakenWrites(ns, ask.tls);
  }

  /** What happened up to the end of the sending: a connect that was still in progress and then
      became writable, or one that succeeded at once. */
  function Dialed(fd: nat, inProgress: bool, due: int, k0: Kernel, k: Kernel): seq<Touch> {
    if inProgress then [Began(false, Opened(fd, true), due, k0), Event(false, true, k)]
    else [Began(false, Opened(fd, false), due, k)]
  }

  lemma DialedReads(ask: Ask, fd: nat, inProgress: bool, due: int, k0: Kernel, k: Kernel, ns: seq<nat>)
    requires Goes(k, ask, ns) && k0.armOk && ask.cap > 0
    ensures HasRead(ask, PhaseOf(ask, Dialed(fd, inProgress, due, k0, k)), [])
  {
    GoesOnToRead(ask, k, ns);
    hide AfterConnect;
    NothingYet(ask);
    var b := Began(false, Opened(fd, inProgress), due, if inProgress then k0 else k);
    assert PhaseOf(ask, [b]) == After(ask, Submitted, b) by {
      assert [b][..0] == [];
    }
    if inProgress {
      var e := Event(false, true, k);
      assert [b, e][..1] == [b];
      assert PhaseOf(ask, [b, e]) == After(ask, Dialing(due), e);
    }
  }

  /** An exchange as it should go, plain or TLS, with a connect that finishes at once or later:
      the operation succeeds, has sent everything, and holds what the peer delivered, over any
      number of events, cut at the cap. */
  lemma ExchangeSucceeds(states: seq<State>, labels: seq<Label>, n: nat, id: Id, fd: nat, inProgress: bool, due: int,
                         k0: Kernel, k: Kernel, ns: seq<nat>,
                         rounds: seq<Touch>, parts: seq<seq<seq<byte>>>, wants: seq<bool>)
    requires IsRun(states, labels) && n <= |labels| && id in states[n].core.ops
    requires Touches(states, labels, n, id) == Dialed(fd, inProgress, due, k0, k) + rounds
    requires k0.armOk && Goes(k, AskOf(states[n].core.ops[id]), ns) && Rounds(rounds, parts, wants)
    ensures var op := states[n].core.ops[id];
            var cap := if op.maxResponse > 0 then op.maxResponse else 65536;
            && op.finished && op.result == Success && op.sent == op.size
            && op.recv == (if |Content(parts)| <= cap then Content(parts) else Content(parts)[..cap])
  {
    hide Next, Enabled, Rounds, PhaseOf, Goes, Touches, Content;
    var ask := AskOf(states[n].core.ops[id]);
    DialedReads(ask, fd, inProgress, due, k0, k, ns);
    ReadsSucceed(ask, Dialed(fd, inProgress, due, k0, k), rounds, parts, wants);
    RunShows(states, labels, n, id);
  }

  // ---- other ends ------------------------------------------------------------------------------------------

  /** Nothing in the history cancels the operation. */
  ghost predicate NeverCancelled(ts: seq<Touch>) {
    forall i :: 0 <= i < |ts| ==> !ts[i].Stopped? && (ts[i].Began? ==> !ts[i].cancelled)
  }

  lemma {:induction false} NotCancelled(ask: Ask, ts: seq<Touch>)
    requires NeverCancelled(ts)
    ensures var ph := PhaseOf(ask, ts); !(ph.Over? && ph.result == Cancelled)
  {
    if ts != [] {
      NotCancelled(ask, ts[..|ts| - 1]);
      var t := ts[|ts| - 1];
      assert !t.Stopped? && (t.Began? ==> !t.cancelled);
    }
  }

  /** Only a cancel or the end of the worker or the shard makes an operation end as cancelled. */
  lemma CancelledOnlyIfAsked(states: seq<State>, labels: seq<Label>, n: nat, id: Id)
    requires IsRun(states, labels) && n <= |labels| && id in states[n].core.ops
    requires NeverCancelled(Touches(states, labels, n, id))
    ensures states[n].core.ops[id].result != Cancelled
  {
    hide Next, Enabled, PhaseOf, Touches, NeverCancelled;
    NotCancelled(AskOf(states[n].core.ops[id]), Touches(states, labels, n, id));
    RunShows(states, labels, n, id);
  }

  lemma PendingAndStage(c: Core, id: Id, ask: Ask, ph: Phase)
    requires Shows(c, id, ask, ph) && !c.ops[id].finished && c.ops[id].fd >= 0
    ensures match c.ops[id].stage
            case Connecting => ph.Dialing?
            case TlsHandshake => ph.Shaking?
            case Sending => ph.Writing? && ph.sent == c.ops[id].sent
            case RecvFirst => ph.Reading? && ph.got == [] && c.ops[id].recv == []
            case RecvIdle => ph.Reading? && ph.got == c.ops[id].recv && ph.got != []
            case Done => false
  {
  }

  /** What a time-out means at each stage. */
  ghost predicate TimeOut(op: Op, op': Op) {
    && op'.finished && op'.sent == op.sent && op'.recv == op.recv
    && match op.stage
       case Connecting => op'.result == ConnectFailed
       case TlsHandshake => op'.result == TlsFailed
       case Sending => op'.result == SendFailed
       case RecvFirst => op'.result == TimedOut
       case RecvIdle => op'.result == Success
       case Done => false
  }

  lemma OverrunTimesOut(c: Core, c': Core, id: Id, ask: Ask, ph: Phase)
    requires Shows(c, id, ask, ph) && !c.ops[id].finished && c.ops[id].fd >= 0
    requires Shows(c', id, ask, AfterOverrun(ask, ph))
    ensures TimeOut(c.ops[id], c'.ops[id])
  {
    PendingAndStage(c, id, ask, ph);
  }

  /** An operation whose deadline has passed when the sweep runs ends by its stage. */
  lemma SweepTimesOut(states: seq<State>, labels: seq<Label>, n: nat, id: Id)
    requires IsRun(states, labels) && n < |labels| && labels[n].Sweep? && Overdue(states[n].core, labels[n].now, id)
    ensures id in states[n + 1].core.ops && TimeOut(states[n].core.ops[id], states[n + 1].core.ops[id])
  {
    var s, l, c := states[n], labels[n], states[n].core;
    RunInv(states, labels, n);
    RunShows(states, labels, n, id);
    assert id in l.expired;
    OwnsSocket(c, l.now, id);
    var ask, ph := AskOf(c.ops[id]), PhaseAt(states, labels, n, id);
    hide Shows, AfterOverrun, Sound, Swept, Collected, TimeOut, PhaseAt, Inv;
    assert Valid(c) by {
      InvValid(s);
    }
    SweepShows(c, l.now, l.expired, l.later, id, ask, ph);
    ShowsKnown(states[n + 1].core, id, ask, AfterOverrun(ask, ph));
    OverrunTimesOut(c, states[n + 1].core, id, ask, ph);
  }

  lemma InvValid(s: State)
    requires Inv(s)
    ensures Valid(s.core)
  {
    hide Valid;
  }

  lemma OwnsSocket(c: Core, now: int, id: Id)
    requires Valid(c) && Overdue(c, now, id)
    ensures c.ops[id].fd >= 0 && !c.ops[id].finished
  {
    OpCoherent(c, id, {});
  }

  /** Between two steps every socket is watched, a connect for writing, a plain send for writing
      and a plain receive for reading. */
  lemma WatchedForItsStage(states: seq<State>, labels: seq<Label>, n: nat, id: Id)
    requires IsRun(states, labels) && n <= |labels| && id in states[n].core.ops && states[n].core.ops[id].fd >= 0
    ensures var c, op := states[n].core, states[n].core.ops[id];
            && op.fd in c.armed
            && (op.stage == Connecting ==> c.armed[op.fd])
            && (!op.tls && op.stage == Sending ==> c.armed[op.fd])
            && (!op.tls && (op.stage == RecvFirst || op.stage == RecvIdle) ==> !c.armed[op.fd])
  {
    RunInv(states, labels, n);
    RunShows(states, labels, n, id);
    var c, ask := states[n].core, AskOf(states[n].core.ops[id]);
    OpCoherent(c, id, {});
    PlainInterest(ask, Touches(states, labels, n, id));
    hide Inv, PhaseOf, Touches, IsRun;
  }

  lemma {:induction false} PlainInterest(ask: Ask, ts: seq<Touch>)
    ensures var ph := PhaseOf(ask, ts);
            && (ph.Writing? && !ask.tls ==> ph.wantWrite)
            && (ph.Reading? && !ask.tls ==> !ph.wantWrite)
  {
    if ts != [] {
      PlainInterest(ask, ts[..|ts| - 1]);
    }
  }

  // ---- latency samples -------------------------------------------------------------------------------------

  /** The latency that a step measures: that of a connect that it finds complete. */
  ghost function SampleOf(s: State, l: Label): seq<int>
    requires Enabled(s, l)
  {
    match l
    case HandleEvent(k) =>
      var e := s.worker.events[0];
      if && e.OnSocket? && e.fd in s.core.live && !e.failed && e.writable && !k.socketError
         && s.core.ops[s.core.live[e.fd]].stage == Connecting && !s.core.ops[s.core.live[e.fd]].finished
      then [k.latency] else []
    case Start(socket, _, k) =>
      if s.worker.batch[0] !in s.cancelRequested && socket.Opened? && !socket.inProgress && !k.socketError
      then [k.latency] else []
    case _ => []
  }

  ghost function Samples(states: seq<State>, labels: seq<Label>, n: nat): seq<int>
    requires IsRun(states, labels) && n <= |labels|
  {
    if n == 0 then [] else Samples(states, labels, n - 1) + SampleOf(states[n - 1], labels[n - 1])
  }

  function Last32(s: seq<int>): seq<int> {
    if |s| <= 32 then s else s[|s| - 32..]
  }

  lemma SampledIsLast(s: seq<int>, x: int)
    ensures Sampled(Last32(s), x) == Last32(s + [x])
  {
  }

  lemma {:induction false} SendSamples(c: Core, id: Id, sends: seq<SendAnswer>, k: Kernel)
    requires id in c.ops
    ensures Send(c, id, sends, k).rtt == c.rtt
    decreases |sends|
  {
    hide Finished, Undue, Unfiled, Accepted, Offered;
    var op := c.ops[id];
    if op.sent < op.size && sends != [] {
      if sends[0].Taken? {
        SendSamples(WithOp(c, id, op.(sent := op.sent + Accepted(sends[0].n, Offered(op)))), id, sends[1..], k);
      } else if sends[0].SendInterrupted? && !op.tls {
        SendSamples(c, id, sends[1..], k);
      }
    }
  }

  lemma {:induction false} RecvSamples(c: Core, id: Id, recvs: seq<RecvAnswer>, k: Kernel)
    requires id in c.ops
    ensures Recv(c, id, recvs, k).rtt == c.rtt
    decreases |recvs|
  {
    hide Finished, Undue, Unfiled;
    var op := c.ops[id];
    if |op.recv| < Cap(op) && recvs != [] {
      if recvs[0].Data? && recvs[0].bytes != [] {
        var want := Min(CHUNK, Cap(op) - |op.recv|);
        var bytes := recvs[0].bytes[..Min(|recvs[0].bytes|, want)];
        assert Store(c, id, bytes, k.idleDue).rtt == c.rtt;
        hide Store, Finish, Arm;
        RecvSamples(Store(c, id, bytes, k.idleDue), id, recvs[1..], k);
      } else if recvs[0].RecvInterrupted? && !op.tls {
        RecvSamples(c, id, recvs[1..], k);
      }
    }
  }

  lemma HandshakeSamples(c: Core, id: Id, k: Kernel)
    requires id in c.ops
    ensures Handshake(c, id, k).rtt == c.rtt
    ensures StartSending(c, id, k).rtt == c.rtt
  {
    hide Finished, Undue, Unfiled, Send;
    SendSamples(EnterStage(c, id, c.ops[id].(stage := Sending), k.sendDue), id, k.sends, k);
  }

  lemma ConnectedSamples(c: Core, id: Id, k: Kernel)
    requires id in c.ops
    ensures Connected(c, id, k).rtt == if k.socketError then c.rtt else Sampled(c.rtt, k.latency)
  {
    hide Finished, Undue, Unfiled, Handshake, StartSending, Sampled;
    if !k.socketError {
      var c1, op := c.(rtt := Sampled(c.rtt, k.latency)), c.ops[id];
      if !op.tls {
        HandshakeSamples(c1, id, k);
      } else if k.tlsContext {
        HandshakeSamples(EnterStage(c1, id, op.(secured := true, stage := TlsHandshake), k.handshakeDue), id, k);
      }
    }
  }

  lemma AdvanceSamples(c: Core, id: Id, failed: bool, writable: bool, k: Kernel)
    requires id in c.ops
    ensures var op := c.ops[id];
            Advance(c, id, failed, writable, k).rtt ==
            if !op.finished && op.stage == Connecting && !failed && writable && !k.socketError
            then Sampled(c.rtt, k.latency) else c.rtt
  {
    hide Finished, Undue, Unfiled, Send, Recv, Handshake, Connected, Sampled;
    SendSamples(c, id, k.sends, k);
    RecvSamples(c, id, k.recvs, k);
    HandshakeSamples(c, id, k);
    ConnectedSamples(c, id, k);
  }

  lemma BeginSamples(c: Core, id: Id, cancelled: bool, socket: Socket, due: int, k: Kernel)
    requires id in c.ops
    ensures BeginConnect(c, id, cancelled, socket, due, k).rtt ==
            if !cancelled && socket.Opened? && !socket.inProgress && !k.socketError
            then Sampled(c.rtt, k.latency) else c.rtt
  {
    hide Finished, Undue, Unfiled, Connected, Sampled;
    if !cancelled && socket.Opened? {
      ConnectedSamples(Attach(c, id, socket.fd, due), id, k);
    }
  }

  lemma {:induction false} FinishAllSamples(c: Core, ids: seq<Id>)
    requires Known(c, ids)
    ensures FinishAll(c, ids).rtt == c.rtt
    decreases |ids|
  {
    hide Finished, Undue, Unfiled;
    if ids != [] {
      assert Finish(c, ids[0], Cancelled).rtt == c.rtt;
      hide Finish;
      FinishKeys(c, ids[0]);
      FinishAllSamples(Finish(c, ids[0], Cancelled), ids[1..]);
    }
  }

  lemma {:induction false} ExpireAllSamples(c: Core, ids: seq<Id>)
    requires Known(c, ids)
    ensures ExpireAll(c, ids).rtt == c.rtt
    decreases |ids|
  {
    hide Finished, Undue, Unfiled;
    if ids != [] {
      assert Expire(c, ids[0]).rtt == c.rtt;
      hide Expire, Finish;
      ExpireAllSamples(Expire(c, ids[0]), ids[1..]);
    }
  }

  lemma StepSamples(s: State, l: Label)
    requires Inv(s) && Enabled(s, l)
    ensures Next(s, l).core.rtt == if SampleOf(s, l) == [] then s.core.rtt else Sampled(s.core.rtt, SampleOf(s, l)[0])
    ensures |SampleOf(s, l)| <= 1
  {
    hide Inv, FinishAll, ExpireAll, Advance, BeginConnect, Finish, Collected, Gathered, Sampled;
    match l
    case Refuse(y) => RefuseSamples(s.core, y);
    case FinishLeftovers(rest) =>
      FinishAllSamples(s.core, s.shutdown.leftovers);
      FinishAllSamples(FinishAll(s.core, s.shutdown.leftovers), rest);
    case HandleEvent(k) =>
      var e := s.worker.events[0];
      if e.OnSocket? && e.fd in s.core.live {
        AdvanceSamples(s.core, s.core.live[e.fd], e.failed, e.writable, k);
      }
    case Start(socket, due, k) =>
      var y := s.worker.batch[0];
      BeginSamples(s.core, y, y in s.cancelRequested, socket, due, k);
    case ScanDone => FinishAllSamples(s.core, s.worker.hits);
    case Sweep(_, expired, later) => ExpireAllSamples(s.core.(deadlines := later), expired);
    case Clean(rest) =>
      FinishAllSamples(s.core, s.worker.batch);
      FinishAllSamples(FinishAll(s.core, s.worker.batch), rest);
    case _ =>
  }

  lemma RefuseSamples(c: Core, y: Id)
    requires y in c.ops
    ensures Finish(c, y, Cancelled).rtt == c.rtt
  {
    hide Finished, Undue, Unfiled;
  }

  /** The samples of a shard are the latencies of its last 32 completed connects, in order. */
  lemma {:induction false} SamplesAreLast(states: seq<State>, labels: seq<Label>, n: nat)
    requires IsRun(states, labels) && n <= |labels|
    ensures states[n].core.rtt == Last32(Samples(states, labels, n))
  {
    hide Next, Enabled, SampleOf, Inv, Sampled, Last32;
    if n == 0 {
      NoSamples();
    } else {
      SamplesAreLast(states, labels, n - 1);
      RunInv(states, labels, n - 1);
      StepSamples(states[n - 1], labels[n - 1]);
      var before, x := Samples(states, labels, n - 1), SampleOf(states[n - 1], labels[n - 1]);
      if x == [] {
        assert before + x == before;
      } else {
        SampledIsLast(before, x[0]);
        assert x == [x[0]];
      }
    }
  }

  lemma NoSamples()
    ensures Last32([]) == []
  {
  }
}
