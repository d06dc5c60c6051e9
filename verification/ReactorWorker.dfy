/** The worker's methods, step by step as the worker runs them. */
module ReactorWorker {
  import opened Wrappers
  import opened ReactorShard
  import R = ReactorShard

  /** Part of the passed deadlines have been erased and their operations listed. */
  ghost predicate Collecting(c: Core, now: int, expired: seq<Id>, rest: multiset<(int, int)>) {
    && (forall i, j :: 0 <= i < j < |expired| ==> expired[i] != expired[j])
    && (forall e: (int, int) :: rest[e] == c.deadlines[e] || (rest[e] == 0 && e.0 <= now))
    && (forall id :: id in expired <==> Overdue(c, now, id) && rest[(c.ops[id].deadline.value, c.ops[id].fd)] == 0)
  }

  /** A deadline in the shard is the current deadline of the operation it leads to. */
  lemma DeadlineCurrent(c: Core, e: (int, int))
    requires Valid(c) && c.deadlines[e] > 0
    ensures c.deadlines[e] == 1 && e.1 in c.live && c.live[e.1] in c.ops
    ensures c.ops[c.live[e.1]].deadline == Some(e.0) && c.ops[c.live[e.1]].fd == e.1
  {
    hide OpsCoherent;
    assert IsDeadline(c, e, {});
  }

  lemma OverdueListed(c: Core, now: int, id: Id)
    requires Valid(c) && Overdue(c, now, id)
    ensures c.deadlines[(c.ops[id].deadline.value, c.ops[id].fd)] == 1
  {
    hide OpsCoherent;
    assert IsDeadline(c, (c.ops[id].deadline.value, c.ops[id].fd), {});
  }

  lemma CollectingStart(c: Core, now: int)
    requires Valid(c)
    ensures Collecting(c, now, [], c.deadlines)
  {
    forall id | Overdue(c, now, id) ensures c.deadlines[(c.ops[id].deadline.value, c.ops[id].fd)] != 0 {
      OverdueListed(c, now, id);
    }
    hide Valid;
  }

  lemma CollectOne(c: Core, now: int, expired: seq<Id>, rest: multiset<(int, int)>, e: (int, int))
    requires Valid(c) && Collecting(c, now, expired, rest) && e in rest && e.0 <= now
    ensures e.1 in c.live && c.live[e.1] in c.ops && c.ops[c.live[e.1]].deadline == Some(e.0)
    ensures Collecting(c, now, expired + [c.live[e.1]], rest - multiset{e})
  {
    assert rest[e] == c.deadlines[e];
    DeadlineCurrent(c, e);
    hide Valid;
    var id, rest' := c.live[e.1], rest - multiset{e};
    assert Overdue(c, now, id) && id !in expired;
    var expired' := expired + [id];
    forall i ensures i in expired' <==> Overdue(c, now, i) && rest'[(c.ops[i].deadline.value, c.ops[i].fd)] == 0 {
      if i != id && Overdue(c, now, i) {
        assert c.ops[i].fd != e.1;
      }
    }
  }

  lemma CollectingDone(c: Core, now: int, expired: seq<Id>, rest: multiset<(int, int)>)
    requires Collecting(c, now, expired, rest) && forall e :: e in rest ==> e.0 > now
    ensures Collected(c, now, expired, rest)
  {
    forall id ensures id in expired <==> Overdue(c, now, id) {
      if Overdue(c, now, id) {
        assert rest[(c.ops[id].deadline.value, c.ops[id].fd)] == 0;
      }
    }
    forall e: (int, int) ensures rest[e] == if e.0 <= now then 0 else c.deadlines[e] {
    }
  }

  /** At any time there is a way to sweep. */
  lemma {:induction false} SweepExists(c: Core, now: int, expired: seq<Id>, rest: multiset<(int, int)>)
      returns (expired': seq<Id>, rest': multiset<(int, int)>)
    requires Valid(c) && Collecting(c, now, expired, rest)
    ensures Collected(c, now, expired', rest')
    decreases |rest|
  {
    hide Valid, Collecting, Collected;
    if e :| e in rest && e.0 <= now {
      CollectOne(c, now, expired, rest, e);
      expired', rest' := SweepExists(c, now, expired + [c.live[e.1]], rest - multiset{e});
    } else {
      expired', rest' := expired, rest;
      CollectingDone(c, now, expired, rest);
    }
  }

  lemma SetDeadlineReady(c: Core, id: Id, due: int)
    requires Ready(c, id)
    ensures Sound(R.SetDeadline(c, id, due), {})
  {
    SetDeadlineSound(c, id, due);
  }

  lemma ReadyAdvance(c: Core, id: Id, failed: bool, writable: bool, k: Kernel)
    requires Ready(c, id) && AtRest(c.ops[id])
    ensures GoodStep(c, R.Advance(c, id, failed, writable, k), id)
  {
    hide Sound, GoodStep, R.Advance;
    AdvanceGood(c, id, failed, writable, k);
  }

  /** An operation that may be started, and a descriptor for it that is not open. */
  ghost predicate CanStart(c: Core, id: Id, socket: Socket) {
    && Sound(c, {}) && id in c.ops && c.ops[id].fd < 0 && !c.ops[id].finished
    && (socket.Opened? ==> socket.fd !in c.sockets)
  }

  lemma CanStartGood(c: Core, id: Id, cancelled: bool, socket: Socket, due: int, k: Kernel)
    requires CanStart(c, id, socket)
    ensures GoodStart(c, R.BeginConnect(c, id, cancelled, socket, due, k), id)
  {
    hide Sound, GoodStart, R.BeginConnect;
    BeginConnectGood(c, id, cancelled, socket, due, k);
  }

  lemma DoneIsFinished(op: Op, r: Result, done: Op)
    requires done == op.(finished := true, stage := Done, result := r, secured := false,
                         completions := op.completions + 1, fd := if op.fd >= 0 then -1 else op.fd,
                         closes := if op.fd >= 0 then op.closes + 1 else op.closes)
    ensures done == Finished(op, r)
  {
  }

  class Shard {
    var ops: map<Id, Op>
    var live: map<int, Id>
    var deadlines: multiset<(int, int)>
    var armed: map<int, bool>
    var sockets: set<int>
    var rtt: seq<int>

    ghost function Current(): Core
      reads this
    {
      Core(ops, live, deadlines, armed, sockets, rtt)
    }

    constructor ()
      ensures Current() == EMPTY
    {
      ops, live, deadlines, armed, sockets, rtt := map[], map[], multiset{}, map[], {}, [];
    }

    method Finish(id: Id, r: Result)
      requires id in ops
      modifies this
      ensures Current() == R.Finish(old(Current()), id, r)
    {
      hide Undue, Unfiled;
      var op := ops[id];
      if op.finished {
        return;
      }
      var done := op.(finished := true, stage := Done, result := r, secured := false);
      done := done.(completions := op.completions + 1);
      if op.fd >= 0 {
        live := Unfiled(live, op.fd, id);
        deadlines := Undue(deadlines, op);
        armed, sockets := armed - {op.fd}, sockets - {op.fd};
        done := done.(fd := -1, closes := op.closes + 1);
      }
      DoneIsFinished(op, r, done);
      hide Finished;
      ops := ops[id := done];
    }

    method SetDeadline(id: Id, due: int)
      requires id in ops
      modifies this`ops, this`deadlines
      ensures Current() == R.SetDeadline(old(Current()), id, due)
      ensures Ready(old(Current()), id) ==> Sound(Current(), {})
    {
      hide Ready, Sound;
      if Ready(Current(), id) {
        SetDeadlineReady(Current(), id, due);
      }
      var op := ops[id];
      deadlines := Undue(deadlines, op);
      ops := ops[id := op.(deadline := Some(due))];
      deadlines := deadlines + multiset{(due, op.fd)};
    }

    method Arm(id: Id, wantWrite: bool, ok: bool)
      requires id in ops
      modifies this
      ensures Current() == R.Arm(old(Current()), id, wantWrite, ok)
      ensures Ready(old(Current()), id) && AtRest(old(ops[id])) ==> GoodStep(old(Current()), Current(), id)
    {
      hide Ready, AtRest, GoodStep;
      if Ready(Current(), id) && AtRest(ops[id]) {
        ArmGood(Current(), id, wantWrite, ok);
      }
      if ok {
        armed := armed[ops[id].fd := wantWrite];
        ops := ops[id := ops[id].(registered := true)];
        return;
      }
      match ops[id].stage {
        case Connecting => Finish(id, ConnectFailed);
        case TlsHandshake => Finish(id, TlsFailed);
        case Sending => Finish(id, SendFailed);
        case RecvFirst => Finish(id, if ops[id].recv == [] then TimedOut else Success);
        case RecvIdle => Finish(id, if ops[id].recv == [] then TimedOut else Success);
        case Done =>
      }
    }

    method StepSending(id: Id, k: Kernel)
      requires id in ops
      modifies this
      ensures Current() == R.Send(old(Current()), id, k.sends, k)
      ensures Ready(old(Current()), id) && old(ops[id]).stage == Sending ==> GoodStep(old(Current()), Current(), id)
    {
      hide Ready, GoodStep, R.Arm, R.Finish, R.EnterStage;
      if Ready(Current(), id) && ops[id].stage == Sending {
        SendGood(Current(), id, k.sends, k);
      }
      var i := 0;
      assert k.sends[0..] == k.sends;
      while ops[id].sent < ops[id].size
        invariant i <= |k.sends| && id in ops
        invariant R.Send(Current(), id, k.sends[i..], k) == R.Send(old(Current()), id, k.sends, k)
        decreases |k.sends| - i
      {
        if i == |k.sends| {
          Arm(id, true, k.armOk);
          return;
        }
        match k.sends[i] {
          case Taken(n) =>
            ops := ops[id := ops[id].(sent := ops[id].sent + Accepted(n, Offered(ops[id])))];
          case SendInterrupted =>
            if ops[id].tls {
              Finish(id, SendFailed);
              return;
            }
          case SendBlocked(wantWrite) =>
            Arm(id, wantWrite || !ops[id].tls, k.armOk);
            return;
          case SendBroken =>
            Finish(id, SendFailed);
            return;
        }
        assert k.sends[i..][1..] == k.sends[i + 1..];
        i := i + 1;
      }
      MoveTo(id, ops[id].(stage := RecvFirst), k.firstByteDue);
      Arm(id, false, k.armOk);
    }

    method MoveTo(id: Id, op: Op, due: int)
      requires id in ops
      modifies this`ops, this`deadlines
      ensures Current() == R.EnterStage(old(Current()), id, op, due)
    {
      ops := ops[id := op];
      SetDeadline(id, due);
    }

    method StoreData(id: Id, bytes: seq<byte>, due: int)
      requires id in ops
      modifies this
      ensures Current() == R.Store(old(Current()), id, bytes, due)
    {
      ops := ops[id := ops[id].(recv := ops[id].recv + bytes)];
      if ops[id].stage == RecvFirst {
        ops := ops[id := ops[id].(stage := RecvIdle)];
        SetDeadline(id, due);
      }
    }

    method StepRecv(id: Id, k: Kernel)
      requires id in ops
      modifies this
      ensures Current() == R.Recv(old(Current()), id, k.recvs, k)
      ensures Ready(old(Current()), id) && old(ops[id]).stage in {RecvFirst, RecvIdle} ==>
                      GoodStep(old(Current()), Current(), id)
    {
      hide Ready, GoodStep, R.Arm, R.Finish, R.Store;
      if Ready(Current(), id) && ops[id].stage in {RecvFirst, RecvIdle} {
        RecvGood(Current(), id, k.recvs, k);
      }
      var i := 0;
      assert k.recvs[0..] == k.recvs;
      while |ops[id].recv| < Cap(ops[id])
        invariant i <= |k.recvs| && id in ops
        invariant R.Recv(Current(), id, k.recvs[i..], k) == R.Recv(old(Current()), id, k.recvs, k)
        decreases |k.recvs| - i
      {
        if i == |k.recvs| {
          Arm(id, false, k.armOk);
          return;
        }
        var want := Min(CHUNK, Cap(ops[id]) - |ops[id].recv|);
        match k.recvs[i] {
          case Data(bytes) =>
            if bytes == [] {
              Finish(id, Success);
              return;
            }
            StoreData(id, bytes[..Min(|bytes|, want)], k.idleDue);
          case RecvInterrupted =>
            if ops[id].tls {
              Finish(id, Success);
              return;
            }
          case RecvBlocked(wantWrite) =>
            Arm(id, wantWrite && ops[id].tls, k.armOk);
            return;
          case PeerClosed =>
            Finish(id, Success);
            return;
          case RecvBroken =>
            Finish(id, if ops[id].tls || ops[id].recv != [] then Success else TimedOut);
            return;
        }
        assert k.recvs[i..][1..] == k.recvs[i + 1..];
        i := i + 1;
      }
      Finish(id, Success);
    }

    method StepTlsHandshake(id: Id, k: Kernel)
      requires id in ops
      modifies this
      ensures Current() == R.Handshake(old(Current()), id, k)
      ensures Ready(old(Current()), id) && old(ops[id]).stage == TlsHandshake ==>
                GoodStep(old(Current()), Current(), id)
    {
      hide Ready, GoodStep, R.Send, R.Finish, R.EnterStage, R.Arm;
      if Ready(Current(), id) && ops[id].stage == TlsHandshake {
        HandshakeGood(Current(), id, k);
      }
      match k.handshake {
        case TlsReady =>
          MoveTo(id, ops[id].(stage := Sending), k.sendDue);
          StepSending(id, k);
        case TlsBlocked(wantWrite) => Arm(id, wantWrite, k.armOk);
        case TlsBroken => Finish(id, TlsFailed);
      }
    }

    method StepConnecting(id: Id, k: Kernel)
      requires id in ops
      modifies this
      ensures Current() == R.Connected(old(Current()), id, k)
      ensures Ready(old(Current()), id) && old(ops[id]).stage == Connecting ==> GoodStep(old(Current()), Current(), id)
    {
      hide Ready, GoodStep, R.Send, R.Finish, R.EnterStage, R.Handshake;
      if Ready(Current(), id) && ops[id].stage == Connecting {
        ConnectedGood(Current(), id, k);
      }
      if k.socketError {
        Finish(id, ConnectFailed);
        return;
      }
      rtt := rtt + [k.latency];
      if |rtt| > RTT_WINDOW {
        rtt := rtt[1..];
      }
      if ops[id].tls {
        if !k.tlsContext {
          Finish(id, TlsFailed);
          return;
        }
        MoveTo(id, ops[id].(secured := true, stage := TlsHandshake), k.handshakeDue);
        StepTlsHandshake(id, k);
        return;
      }
      MoveTo(id, ops[id].(stage := Sending), k.sendDue);
      StepSending(id, k);
    }

    method Advance(id: Id, failed: bool, writable: bool, k: Kernel)
      requires id in ops
      modifies this
      ensures Current() == R.Advance(old(Current()), id, failed, writable, k)
      ensures Ready(old(Current()), id) && AtRest(old(ops[id])) ==> GoodStep(old(Current()), Current(), id)
    {
      hide Ready, AtRest, GoodStep, R.Connected, R.Finish, R.Handshake, R.Send, R.Recv;
      if Ready(Current(), id) && AtRest(ops[id]) {
        ReadyAdvance(Current(), id, failed, writable, k);
      }
      if ops[id].finished {
        return;
      }
      match ops[id].stage {
        case Connecting =>
          if failed {
            Finish(id, ConnectFailed);
          } else if writable {
            StepConnecting(id, k);
          }
        case TlsHandshake => StepTlsHandshake(id, k);
        case Sending =>
          if failed {
            Finish(id, SendFailed);
          } else {
            StepSending(id, k);
          }
        case RecvFirst => StepRecv(id, k);
        case RecvIdle => StepRecv(id, k);
        case Done =>
      }
    }

    method Attach(id: Id, fd: nat, due: int)
      requires id in ops
      modifies this
      ensures Current() == R.Attach(old(Current()), id, fd, due)
    {
      hide R.SetDeadline;
      ops := ops[id := ops[id].(fd := fd, stage := Connecting)];
      live := live[fd := id];
      sockets := sockets + {fd};
      SetDeadline(id, due);
    }

    method BeginConnect(id: Id, cancelled: bool, socket: Socket, due: int, k: Kernel)
      requires id in ops
      modifies this
      ensures Current() == R.BeginConnect(old(Current()), id, cancelled, socket, due, k)
      ensures CanStart(old(Current()), id, socket) ==> GoodStart(old(Current()), Current(), id)
    {
      hide CanStart, GoodStart, R.Connected, R.Finish, R.Arm, R.Attach;
      if CanStart(Current(), id, socket) {
        CanStartGood(Current(), id, cancelled, socket, due, k);
      }
      if cancelled {
        Finish(id, Cancelled);
        return;
      }
      match socket {
        case NoSocket => Finish(id, ConnectFailed);
        case Opened(fd, inProgress) =>
          Attach(id, fd, due);
          if inProgress {
            Arm(id, true, k.armOk);
          } else {
            StepConnecting(id, k);
          }
      }
    }

    /** Ends every operation of the table whose cancel has been requested. */
    method ProcessCancellations(requested: set<Id>) returns (hits: seq<Id>)
      requires forall fd :: fd in live ==> live[fd] in ops
      modifies this
      ensures forall id :: id in hits <==> id in requested && exists fd :: fd in old(live) && old(live[fd]) == id
      ensures forall id :: id in hits ==> id in old(ops)
      ensures Current() == R.FinishAll(old(Current()), hits)
    {
      hits := [];
      var todo := live.Keys;
      while exists fd :: fd in todo
        invariant todo <= live.Keys
        invariant forall id :: id in hits <==>
            id in requested && exists fd :: fd in live && fd !in todo && live[fd] == id
        invariant forall id :: id in hits ==> id in ops
        invariant Current() == old(Current())
        decreases |todo|
      {
        var fd :| fd in todo;
        if live[fd] in requested {
          hits := hits + [live[fd]];
        }
        todo := todo - {fd};
      }
      var i := 0;
      while i < |hits|
        invariant i <= |hits|
        invariant forall id :: id in hits ==> id in ops
        invariant R.FinishAll(Current(), hits[i..]) == R.FinishAll(old(Current()), hits)
      {
        assert hits[i..][0] == hits[i] && hits[i..][1..] == hits[i + 1..];
        Finish(hits[i], Cancelled);
        i := i + 1;
      }
    }

    method CollectExpired(now: int) returns (expired: seq<Id>)
      requires Valid(Current())
      modifies this`deadlines
      ensures forall id :: id in expired ==> id in ops
      ensures Collected(old(Current()), now, expired, deadlines)
    {
      hide Valid, Collecting, Collected;
      ghost var c := Current();
      expired := [];
      CollectingStart(c, now);
      while exists e :: e in deadlines && e.0 <= now
        invariant Current() == c.(deadlines := deadlines)
        invariant Collecting(c, now, expired, deadlines)
        invariant forall id :: id in expired ==> id in ops
        decreases |deadlines|
      {
        var e :| e in deadlines && e.0 <= now;
        CollectOne(c, now, expired, deadlines, e);
        if e.1 in live && live[e.1] in ops && ops[live[e.1]].deadline == Some(e.0) {
          expired := expired + [live[e.1]];
        }
        deadlines := deadlines - multiset{e};
      }
      CollectingDone(c, now, expired, deadlines);
    }

    method ExpireListed(expired: seq<Id>)
      requires forall id :: id in expired ==> id in ops
      modifies this
      ensures Current() == R.ExpireAll(old(Current()), expired)
    {
      hide R.Expire;
      var i := 0;
      assert expired[0..] == expired;
      while i < |expired|
        invariant i <= |expired|
        invariant forall id :: id in expired ==> id in ops
        invariant R.ExpireAll(Current(), expired[i..]) == R.ExpireAll(old(Current()), expired)
      {
        assert expired[i..][0] == expired[i] && expired[i..][1..] == expired[i + 1..];
        Expire(expired[i]);
        i := i + 1;
      }
    }

    /** Erases the passed deadlines, then ends their operations, each by its stage. */
    method SweepTimeouts(now: int) returns (expired: seq<Id>)
      requires Valid(Current())
      modifies this
      ensures forall id :: id in expired ==> id in old(ops)
      ensures exists rest ::
                && Collected(old(Current()), now, expired, rest)
                && Current() == Swept(old(Current()), expired, rest)
    {
      hide Valid, Collected, R.ExpireAll;
      expired := CollectExpired(now);
      ghost var rest := deadlines;
      assert Current() == old(Current()).(deadlines := rest);
      ExpireListed(expired);
      assert Current() == Swept(old(Current()), expired, rest);
    }

    method Expire(id: Id)
      requires id in ops
      modifies this
      ensures Current() == R.Expire(old(Current()), id)
    {
      match ops[id].stage {
        case Connecting => Finish(id, ConnectFailed);
        case TlsHandshake => Finish(id, TlsFailed);
        case Sending => Finish(id, SendFailed);
        case RecvFirst => Finish(id, if ops[id].recv == [] then TimedOut else Success);
        case RecvIdle => Finish(id, Success);
        case Done =>
      }
    }
  }
}
