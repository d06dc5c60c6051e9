/** What the answers of the kernel and of the TLS library mean for one operation, told without
    tables, deadlines or epoll: an exchange goes through phases, and each thing that happens to
    it leads to the next phase. */
module ReactorExchange {
  import opened Wrappers
  import opened ReactorShard

  /** What was asked for. */
  datatype Ask = Ask(tls: bool, size: nat, cap: nat)

  function AskOf(op: Op): Ask {
    Ask(op.tls, op.size, if op.maxResponse > 0 then op.maxResponse else 65536)
  }

  /** Where an exchange stands: the bytes it has sent or received, the time at which the phase
      ends, and whether the socket is watched for writing or else for reading. */
  datatype Phase =
    | Submitted
    | Dialing(due: int)
    | Shaking(due: int, wantWrite: bool)
    | Writing(sent: nat, due: int, wantWrite: bool)
    | Reading(got: seq<byte>, due: int, wantWrite: bool)
    | Over(result: Result, sent: nat, got: seq<byte>)

  /** What happens to an operation. */
  datatype Touch =
    | Began(cancelled: bool, socket: Socket, due: int, kernel: Kernel)
    | Event(failed: bool, writable: bool, kernel: Kernel)
    | Overran
    | Stopped

  // ---- lists of answers -------------------------------------------------------------------

  /** A write takes at least one byte, and over TLS at most 2^20. */
  function WriteSize(tls: bool, n: nat): nat {
    if n == 0 then 1 else if tls && n > 0x10_0000 then 0x10_0000 else n
  }

  /** The writes up to the first answer that stops them; a plain write that was interrupted is
      made again. */
  function Writes(tls: bool, sends: seq<SendAnswer>): nat {
    if sends == [] then 0
    else if sends[0].Taken? then WriteSize(tls, sends[0].n) + Writes(tls, sends[1..])
    else if sends[0].SendInterrupted? && !tls then Writes(tls, sends[1..])
    else 0
  }

  function WriteStop(tls: bool, sends: seq<SendAnswer>): SendAnswer {
    if sends == [] then SendBlocked(true)
    else if sends[0].Taken? || (sends[0].SendInterrupted? && !tls) then WriteStop(tls, sends[1..])
    else sends[0]
  }

  /** The bytes of the reads up to the first answer that stops them, at most 4096 for each. */
  function Arrived(tls: bool, recvs: seq<RecvAnswer>): seq<byte> {
    if recvs == [] then []
    else if recvs[0].Data? && recvs[0].bytes != [] then Upto(recvs[0].bytes, 4096) + Arrived(tls, recvs[1..])
    else if recvs[0].RecvInterrupted? && !tls then Arrived(tls, recvs[1..])
    else []
  }

  /** An answer that is data, or that makes a plain read start again. */
  predicate GoesOn(tls: bool, a: RecvAnswer) {
    (a.Data? && a.bytes != []) || (a.RecvInterrupted? && !tls)
  }

  function ReadStop(tls: bool, recvs: seq<RecvAnswer>): RecvAnswer {
    if recvs == [] then RecvBlocked(false)
    else if GoesOn(tls, recvs[0]) then ReadStop(tls, recvs[1..])
    else recvs[0]
  }

  // ---- the phases ---------------------------------------------------------------------------

  function AfterWrites(ask: Ask, sent: nat, due: int, sends: seq<SendAnswer>, k: Kernel): Phase {
    var total, stop := sent + Writes(ask.tls, sends), WriteStop(ask.tls, sends);
    if total >= ask.size then
      if k.armOk then Reading([], k.firstByteDue, false) else Over(TimedOut, ask.size, [])
    else if stop.SendBlocked? && k.armOk then Writing(total, due, stop.wantWrite || !ask.tls)
    else Over(SendFailed, total, [])
  }

  function AfterReads(ask: Ask, got: seq<byte>, due: int, recvs: seq<RecvAnswer>, k: Kernel): Phase {
    var all, stop := got + Arrived(ask.tls, recvs), ReadStop(ask.tls, recvs);
    if |all| >= ask.cap then Over(Success, ask.size, all[..ask.cap])
    else if stop.RecvBlocked? && k.armOk then
      Reading(all, if got == [] && all != [] then k.idleDue else due, stop.wantWrite && ask.tls)
    else if all == [] && (stop.RecvBlocked? || (stop.RecvBroken? && !ask.tls)) then Over(TimedOut, ask.size, [])
    else Over(Success, ask.size, all)
  }

  function AfterHandshake(ask: Ask, due: int, k: Kernel): Phase {
    match k.handshake
    case TlsReady => AfterWrites(ask, 0, k.sendDue, k.sends, k)
    case TlsBlocked(wantWrite) => if k.armOk then Shaking(due, wantWrite) else Over(TlsFailed, 0, [])
    case TlsBroken => Over(TlsFailed, 0, [])
  }

  function AfterConnect(ask: Ask, k: Kernel): Phase {
    if k.socketError then Over(ConnectFailed, 0, [])
    else if !ask.tls then AfterWrites(ask, 0, k.sendDue, k.sends, k)
    else if !k.tlsContext then Over(TlsFailed, 0, [])
    else AfterHandshake(ask, k.handshakeDue, k)
  }

  function AfterBegin(ask: Ask, t: Touch): Phase
    requires t.Began?
  {
    if t.cancelled then Over(Cancelled, 0, [])
    else if t.socket.NoSocket? then Over(ConnectFailed, 0, [])
    else if !t.socket.inProgress then AfterConnect(ask, t.kernel)
    else if t.kernel.armOk then Dialing(t.due)
    else Over(ConnectFailed, 0, [])
  }

  function AfterEvent(ask: Ask, ph: Phase, t: Touch): Phase
    requires t.Event?
  {
    match ph
    case Dialing(_) =>
      if t.failed then Over(ConnectFailed, 0, []) else if t.writable then AfterConnect(ask, t.kernel) else ph
    case Shaking(due, _) => AfterHandshake(ask, due, t.kernel)
    case Writing(sent, due, _) =>
      if t.failed then Over(SendFailed, sent, []) else AfterWrites(ask, sent, due, t.kernel.sends, t.kernel)
    case Reading(got, due, _) => AfterReads(ask, got, due, t.kernel.recvs, t.kernel)
    case _ => ph
  }

  /** What a passed deadline means at each phase. */
  function AfterOverrun(ask: Ask, ph: Phase): Phase {
    match ph
    case Dialing(_) => Over(ConnectFailed, 0, [])
    case Shaking(_, _) => Over(TlsFailed, 0, [])
    case Writing(sent, _, _) => Over(SendFailed, sent, [])
    case Reading(got, _, _) => Over(if got == [] then TimedOut else Success, ask.size, got)
    case _ => ph
  }

  /** A cancelled operation keeps the bytes it has. */
  function AfterStop(ask: Ask, ph: Phase): Phase {
    match ph
    case Over(_, _, _) => ph
    case Writing(sent, _, _) => Over(Cancelled, sent, [])
    case Reading(got, _, _) => Over(Cancelled, ask.size, got)
    case _ => Over(Cancelled, 0, [])
  }

  function After(ask: Ask, ph: Phase, t: Touch): Phase {
    match t
    case Began(_, _, _, _) => if ph.Submitted? then AfterBegin(ask, t) else ph
    case Event(_, _, _) => AfterEvent(ask, ph, t)
    case Overran => AfterOverrun(ask, ph)
    case Stopped => AfterStop(ask, ph)
  }

  /** The phase that a history leads to. */
  function PhaseOf(ask: Ask, ts: seq<Touch>): Phase {
    if ts == [] then Submitted else After(ask, PhaseOf(ask, ts[..|ts| - 1]), ts[|ts| - 1])
  }

  // ---- an operation in a phase ------------------------------------------------------------------

  ghost predicate Underway(op: Op, stage: Stage, fd: int, due: int) {
    op.fd == fd && fd >= 0 && op.stage == stage && op.deadline == Some(due) && !op.finished && op.result == Pending
  }

  ghost predicate Watched(c: Core, fd: int, wantWrite: bool) {
    fd in c.armed && c.armed[fd] == wantWrite
  }

  /** The operation and its socket are as the phase says. */
  ghost predicate Shows(c: Core, id: Id, ask: Ask, ph: Phase) {
    && id in c.ops && AskOf(c.ops[id]) == ask
    && var op := c.ops[id];
       match ph
       case Submitted => op.fd < 0 && !op.finished && op.result == Pending && op.sent == 0 && op.recv == []
       case Dialing(due) =>
         Underway(op, Connecting, op.fd, due) && op.sent == 0 && op.recv == [] && Watched(c, op.fd, true)
       case Shaking(due, wantWrite) =>
         Underway(op, TlsHandshake, op.fd, due) && op.sent == 0 && op.recv == [] && Watched(c, op.fd, wantWrite)
       case Writing(sent, due, wantWrite) =>
         && Underway(op, Sending, op.fd, due) && op.sent == sent && op.recv == [] && Watched(c, op.fd, wantWrite)
         && sent < ask.size
       case Reading(got, due, wantWrite) =>
         && Underway(op, if got == [] then RecvFirst else RecvIdle, op.fd, due)
         && op.sent == ask.size && op.recv == got && |got| < ask.cap && Watched(c, op.fd, wantWrite)
       case Over(result, sent, got) =>
         op.finished && op.stage == Done && op.result == result && op.sent == sent && op.recv == got
  }

  /** Only this operation has changed, and only what epoll knows of its socket. */
  ghost predicate Local(c: Core, c': Core, id: Id, fd: int) {
    && id in c.ops && id in c'.ops && c'.ops == c.ops[id := c'.ops[id]]
    && forall x :: x != fd ==> (x in c'.armed <==> x in c.armed) && (x in c.armed ==> c'.armed[x] == c.armed[x])
  }

  lemma LocalTrans(c: Core, c1: Core, c2: Core, id: Id, fd: int)
    requires Local(c, c1, id, fd) && Local(c1, c2, id, fd)
    ensures Local(c, c2, id, fd)
  {
    assert c2.ops == c.ops[id := c2.ops[id]];
  }

  lemma FinishFacts(c: Core, id: Id, r: Result)
    requires id in c.ops && !c.ops[id].finished
    ensures var c' := Finish(c, id, r); Local(c, c', id, c.ops[id].fd) && c'.ops[id] == Finished(c.ops[id], r)
  {
    hide Undue, Unfiled;
    var c' := Finish(c, id, r);
    assert c'.ops == c.ops[id := c'.ops[id]];
  }

  lemma ArmFacts(c: Core, id: Id, wantWrite: bool, ok: bool)
    requires id in c.ops && !c.ops[id].finished && c.ops[id].stage != Done
    ensures var op, c' := c.ops[id], Arm(c, id, wantWrite, ok);
            && Local(c, c', id, op.fd)
            && c'.ops[id] == (if ok then op.(registered := true) else Finished(op, Failure(op)))
            && (ok ==> Watched(c', op.fd, wantWrite))
  {
    if ok {
      var c' := Arm(c, id, wantWrite, ok);
      assert c'.ops == c.ops[id := c'.ops[id]];
    } else {
      FinishFacts(c, id, Failure(c.ops[id]));
    }
  }

  lemma EnterFacts(c: Core, id: Id, op: Op, due: int, fd: int)
    requires id in c.ops
    ensures var c' := EnterStage(c, id, op, due);
            Local(c, c', id, fd) && c'.ops[id] == op.(deadline := Some(due)) && c'.armed == c.armed
  {
    hide Undue;
    var c' := EnterStage(c, id, op, due);
    assert c'.ops == c.ops[id := c'.ops[id]];
  }

  lemma WithOpFacts(c: Core, id: Id, op: Op, fd: int)
    requires id in c.ops
    ensures var c' := WithOp(c, id, op); Local(c, c', id, fd) && c'.ops[id] == op && c'.armed == c.armed
  {
  }

  // ---- sending --------------------------------------------------------------------------------------

  lemma TakenIs(tls: bool, size: nat, sent: nat, n: nat)
    requires sent < size
    ensures var offered := if tls then Min(size - sent, TLS_WRITE_LIMIT) else size - sent;
            sent + Accepted(n, offered) == Min(size, sent + WriteSize(tls, n))
  {
  }

  /** An operation that is sending, whatever it is armed for. */
  ghost predicate IsSending(c: Core, id: Id, ask: Ask, sent: nat, due: int) {
    && id in c.ops && AskOf(c.ops[id]) == ask && Underway(c.ops[id], Sending, c.ops[id].fd, due)
    && c.ops[id].sent == sent <= ask.size && c.ops[id].recv == []
  }

  lemma SendDone(c: Core, id: Id, ask: Ask, due: int, sends: seq<SendAnswer>, k: Kernel)
    requires IsSending(c, id, ask, ask.size, due)
    ensures var c' := Send(c, id, sends, k);
            && Local(c, c', id, c.ops[id].fd)
            && Shows(c', id, ask, if k.armOk then Reading([], k.firstByteDue, false) else Over(TimedOut, ask.size, []))
  {
    hide EnterStage, Arm;
    var op := c.ops[id].(stage := RecvFirst);
    EnterFacts(c, id, op, k.firstByteDue, op.fd);
    var c1 := EnterStage(c, id, op, k.firstByteDue);
    ArmFacts(c1, id, false, k.armOk);
    LocalTrans(c, c1, Arm(c1, id, false, k.armOk), id, op.fd);
  }

  lemma SendStops(c: Core, id: Id, ask: Ask, sent: nat, due: int, sends: seq<SendAnswer>, k: Kernel)
    requires IsSending(c, id, ask, sent, due) && sent < ask.size
    requires sends == [] || !(sends[0].Taken? || (sends[0].SendInterrupted? && !ask.tls))
    ensures var c' := Send(c, id, sends, k);
            Local(c, c', id, c.ops[id].fd) && Shows(c', id, ask, AfterWrites(ask, sent, due, sends, k))
  {
    hide Arm, Finish;
    if sends == [] || sends[0].SendBlocked? {
      ArmFacts(c, id, sends == [] || sends[0].wantWrite || !ask.tls, k.armOk);
    } else {
      FinishFacts(c, id, SendFailed);
    }
  }

  lemma {:induction false} SendShows(c: Core, id: Id, ask: Ask, sent: nat, due: int, sends: seq<SendAnswer>, k: Kernel)
    requires IsSending(c, id, ask, sent, due)
    ensures var c' := Send(c, id, sends, k);
            Local(c, c', id, c.ops[id].fd) && Shows(c', id, ask, AfterWrites(ask, sent, due, sends, k))
    decreases |sends|
  {
    hide Shows, Local, Arm, Finish, EnterStage, WithOp;
    if sent == ask.size {
      SendDone(c, id, ask, due, sends, k);
    } else if sends == [] || !(sends[0].Taken? || (sends[0].SendInterrupted? && !ask.tls)) {
      SendStops(c, id, ask, sent, due, sends, k);
    } else if sends[0].SendInterrupted? {
      SendShows(c, id, ask, sent, due, sends[1..], k);
    } else {
      var op, n := c.ops[id], sends[0].n;
      var op' := op.(sent := sent + Accepted(n, Offered(op)));
      WithOpFacts(c, id, op', op.fd);
      TakenIs(ask.tls, ask.size, sent, n);
      var c1 := WithOp(c, id, op');
      LocalKnown(c, c1, id, op.fd);
      SendShows(c1, id, ask, op'.sent, due, sends[1..], k);
      LocalTrans(c, c1, Send(c1, id, sends[1..], k), id, op.fd);
    }
  }

  lemma LocalKnown(c: Core, c': Core, id: Id, fd: int)
    requires Local(c, c', id, fd)
    ensures id in c.ops && id in c'.ops
  {
  }

  lemma StartSendingShows(c: Core, id: Id, ask: Ask, k: Kernel)
    requires id in c.ops && AskOf(c.ops[id]) == ask
    requires var op := c.ops[id]; op.fd >= 0 && !op.finished && op.result == Pending && op.sent == 0 && op.recv == []
    ensures var c' := StartSending(c, id, k);
            Local(c, c', id, c.ops[id].fd) && Shows(c', id, ask, AfterWrites(ask, 0, k.sendDue, k.sends, k))
  {
    hide Shows, Send, EnterStage;
    var op := c.ops[id].(stage := Sending);
    EnterFacts(c, id, op, k.sendDue, op.fd);
    var c1 := EnterStage(c, id, op, k.sendDue);
    SendShows(c1, id, ask, 0, k.sendDue, k.sends, k);
    LocalTrans(c, c1, Send(c1, id, k.sends, k), id, op.fd);
  }

  // ---- receiving ------------------------------------------------------------------------------------

  /** An operation that is receiving, whatever it is armed for. */
  ghost predicate IsReading(c: Core, id: Id, ask: Ask, got: seq<byte>, due: int) {
    && id in c.ops && AskOf(c.ops[id]) == ask
    && Underway(c.ops[id], if got == [] then RecvFirst else RecvIdle, c.ops[id].fd, due)
    && c.ops[id].sent == ask.size && c.ops[id].recv == got
  }

  lemma RecvFull(c: Core, id: Id, ask: Ask, got: seq<byte>, due: int, recvs: seq<RecvAnswer>, k: Kernel)
    requires IsReading(c, id, ask, got, due) && |got| == ask.cap
    ensures var c' := Recv(c, id, recvs, k);
            Local(c, c', id, c.ops[id].fd) && Shows(c', id, ask, Over(Success, ask.size, got))
  {
    hide Finish;
    FinishFacts(c, id, Success);
  }

  lemma RecvStops(c: Core, id: Id, ask: Ask, got: seq<byte>, due: int, recvs: seq<RecvAnswer>, k: Kernel)
    requires IsReading(c, id, ask, got, due) && |got| < ask.cap
    requires recvs == [] || !GoesOn(ask.tls, recvs[0])
    ensures var c' := Recv(c, id, recvs, k);
            Local(c, c', id, c.ops[id].fd) && Shows(c', id, ask, AfterReads(ask, got, due, recvs, k))
  {
    hide Arm, Finish;
    assert got + [] == got;
    if recvs == [] || recvs[0].RecvBlocked? {
      ArmFacts(c, id, recvs != [] && recvs[0].wantWrite && ask.tls, k.armOk);
    } else if recvs[0].RecvBroken? && !ask.tls && got == [] {
      FinishFacts(c, id, TimedOut);
    } else {
      FinishFacts(c, id, Success);
    }
  }

  lemma StoreShows(c: Core, id: Id, ask: Ask, got: seq<byte>, due: int, bytes: seq<byte>, idleDue: int)
    requires IsReading(c, id, ask, got, due) && bytes != []
    ensures var c' := Store(c, id, bytes, idleDue);
            && Local(c, c', id, c.ops[id].fd) && c'.ops[id].fd == c.ops[id].fd
            && IsReading(c', id, ask, got + bytes, if got == [] then idleDue else due)
  {
    hide EnterStage, WithOp;
    var op := c.ops[id].(recv := got + bytes);
    if got == [] {
      EnterFacts(c, id, op.(stage := RecvIdle), idleDue, op.fd);
    } else {
      WithOpFacts(c, id, op, op.fd);
    }
  }

  /** Reading what is offered, cut at the chunk and at the cap, amounts to cutting all of it at
      the cap. */
  lemma CutOnce(ask: Ask, got: seq<byte>, due: int, recvs: seq<RecvAnswer>, k: Kernel)
    requires |got| < ask.cap && recvs != [] && recvs[0].Data? && recvs[0].bytes != []
    ensures var bytes := recvs[0].bytes;
            var cut := bytes[..Min(|bytes|, Min(CHUNK, ask.cap - |got|))];
            && cut != [] && |got + cut| <= ask.cap
            && AfterReads(ask, got, due, recvs, k)
               == if |got + cut| == ask.cap then Over(Success, ask.size, got + cut)
                  else AfterReads(ask, got + cut, if got == [] then k.idleDue else due, recvs[1..], k)
  {
    var bytes := recvs[0].bytes;
    var cut := bytes[..Min(|bytes|, Min(CHUNK, ask.cap - |got|))];
    var one, rest := Upto(bytes, 4096), Arrived(ask.tls, recvs[1..]);
    assert got + Arrived(ask.tls, recvs) == got + one + rest;
    if |got + cut| == ask.cap {
      assert cut == one[..|cut|];
      assert (got + one + rest)[..ask.cap] == got + cut;
    } else {
      assert cut == one;
    }
  }

  lemma {:induction false} RecvShows(c: Core, id: Id, ask: Ask, got: seq<byte>, due: int, recvs: seq<RecvAnswer>,
                                     k: Kernel)
    requires IsReading(c, id, ask, got, due) && |got| < ask.cap
    ensures var c' := Recv(c, id, recvs, k);
            Local(c, c', id, c.ops[id].fd) && Shows(c', id, ask, AfterReads(ask, got, due, recvs, k))
    decreases |recvs|
  {
    hide Shows, Local, Arm, Finish, Store;
    if recvs == [] || !GoesOn(ask.tls, recvs[0]) {
      RecvStops(c, id, ask, got, due, recvs, k);
    } else if recvs[0].RecvInterrupted? {
      RecvShows(c, id, ask, got, due, recvs[1..], k);
    } else {
      CutOnce(ask, got, due, recvs, k);
      hide AfterReads;
      var bytes, fd := recvs[0].bytes, c.ops[id].fd;
      var cut := bytes[..Min(|bytes|, Min(CHUNK, ask.cap - |got|))];
      var due' := if got == [] then k.idleDue else due;
      StoreShows(c, id, ask, got, due, cut, k.idleDue);
      var c1 := Store(c, id, cut, k.idleDue);
      LocalKnown(c, c1, id, fd);
      if |got + cut| == ask.cap {
        RecvFull(c1, id, ask, got + cut, due', recvs[1..], k);
      } else {
        RecvShows(c1, id, ask, got + cut, due', recvs[1..], k);
      }
      LocalTrans(c, c1, Recv(c1, id, recvs[1..], k), id, fd);
    }
  }

  // ---- connecting -------------------------------------------------------------------------------------

  /** An operation that has neither sent nor received anything yet. */
  ghost predicate IsFresh(c: Core, id: Id, ask: Ask, stage: Stage, due: int) {
    && id in c.ops && AskOf(c.ops[id]) == ask && Underway(c.ops[id], stage, c.ops[id].fd, due)
    && c.ops[id].sent == 0 && c.ops[id].recv == []
  }

  lemma HandshakeShows(c: Core, id: Id, ask: Ask, due: int, k: Kernel)
    requires IsFresh(c, id, ask, TlsHandshake, due)
    ensures var c' := Handshake(c, id, k);
            Local(c, c', id, c.ops[id].fd) && Shows(c', id, ask, AfterHandshake(ask, due, k))
  {
    hide Arm, Finish, StartSending, AfterWrites;
    match k.handshake
    case TlsReady => StartSendingShows(c, id, ask, k);
    case TlsBlocked(wantWrite) => ArmFacts(c, id, wantWrite, k.armOk);
    case TlsBroken => FinishFacts(c, id, TlsFailed);
  }

  lemma SampleFacts(c: Core, id: Id, rtt: seq<int>, fd: int)
    requires id in c.ops
    ensures var c' := c.(rtt := rtt); Local(c, c', id, fd) && c'.ops[id] == c.ops[id]
  {
    assert c.ops[id := c.ops[id]] == c.ops;
  }

  lemma ConnectedShows(c: Core, id: Id, ask: Ask, due: int, k: Kernel)
    requires IsFresh(c, id, ask, Connecting, due)
    ensures var c' := Connected(c, id, k);
            Local(c, c', id, c.ops[id].fd) && Shows(c', id, ask, AfterConnect(ask, k))
  {
    hide Finish, StartSending, EnterStage, Handshake, AfterWrites, AfterHandshake, Sampled, Local;
    var op, fd := c.ops[id], c.ops[id].fd;
    if k.socketError {
      FinishFacts(c, id, ConnectFailed);
      LocalKnown(c, Finish(c, id, ConnectFailed), id, fd);
    } else {
      var c1 := c.(rtt := Sampled(c.rtt, k.latency));
      SampleFacts(c, id, c1.rtt, fd);
      if !op.tls {
        StartSendingShows(c1, id, ask, k);
        LocalTrans(c, c1, StartSending(c1, id, k), id, fd);
      } else if !k.tlsContext {
        FinishFacts(c1, id, TlsFailed);
        LocalTrans(c, c1, Finish(c1, id, TlsFailed), id, fd);
      } else {
        var op' := op.(secured := true, stage := TlsHandshake);
        EnterFacts(c1, id, op', k.handshakeDue, fd);
        var c2 := EnterStage(c1, id, op', k.handshakeDue);
        HandshakeShows(c2, id, ask, k.handshakeDue, k);
        LocalTrans(c1, c2, Handshake(c2, id, k), id, fd);
        LocalTrans(c, c1, Handshake(c2, id, k), id, fd);
      }
    }
  }

  // ---- what the worker does, phase by phase -----------------------------------------------------------

  /** The reaction to an event leads to the next phase. */
  lemma AdvanceShows(c: Core, id: Id, ask: Ask, ph: Phase, t: Touch)
    requires t.Event? && Shows(c, id, ask, ph) && c.ops[id].fd >= 0
    ensures var c' := Advance(c, id, t.failed, t.writable, t.kernel);
            Local(c, c', id, c.ops[id].fd) && Shows(c', id, ask, AfterEvent(ask, ph, t))
  {
    hide Finish, Connected, Handshake, Send, Recv, AfterConnect, AfterHandshake, AfterWrites, AfterReads;
    match ph
    case Submitted =>
    case Dialing(due) =>
      if t.failed {
        FinishFacts(c, id, ConnectFailed);
      } else if t.writable {
        ConnectedShows(c, id, ask, due, t.kernel);
      } else {
        SampleFacts(c, id, c.rtt, c.ops[id].fd);
      }
    case Shaking(due, _) => HandshakeShows(c, id, ask, due, t.kernel);
    case Writing(sent, due, _) =>
      if t.failed {
        FinishFacts(c, id, SendFailed);
      } else {
        SendShows(c, id, ask, sent, due, t.kernel.sends, t.kernel);
      }
    case Reading(got, due, _) => RecvShows(c, id, ask, got, due, t.kernel.recvs, t.kernel);
    case Over(_, _, _) => SampleFacts(c, id, c.rtt, c.ops[id].fd);
  }

  lemma AttachFacts(c: Core, id: Id, fd: nat, due: int)
    requires id in c.ops
    ensures var op, c' := c.ops[id], Attach(c, id, fd, due);
            && Local(c, c', id, fd) && c'.armed == c.armed
            && c'.ops[id] == op.(fd := fd, stage := Connecting, deadline := Some(due))
  {
    hide Undue;
    var c' := Attach(c, id, fd, due);
    assert c'.ops == c.ops[id := c'.ops[id]];
  }

  /** Starting an operation leads to its first phase. */
  lemma BeginShows(c: Core, id: Id, ask: Ask, t: Touch)
    requires t.Began? && Shows(c, id, ask, Submitted)
    ensures var c' := BeginConnect(c, id, t.cancelled, t.socket, t.due, t.kernel);
            && Local(c, c', id, if t.socket.Opened? then t.socket.fd else c.ops[id].fd)
            && Shows(c', id, ask, AfterBegin(ask, t))
  {
    hide Finish, Attach, Arm, Connected, AfterConnect, Finished;
    if t.cancelled || t.socket.NoSocket? {
      FinishUnstarted(c, id, ask, if t.cancelled then Cancelled else ConnectFailed, t.socket);
    } else {
      var fd := t.socket.fd;
      AttachFacts(c, id, fd, t.due);
      var c1 := Attach(c, id, fd, t.due);
      if t.socket.inProgress {
        ArmFacts(c1, id, true, t.kernel.armOk);
        LocalTrans(c, c1, Arm(c1, id, true, t.kernel.armOk), id, fd);
        FinishedShows(c1, id, ask, ConnectFailed);
      } else {
        ConnectedShows(c1, id, ask, t.due, t.kernel);
        LocalTrans(c, c1, Connected(c1, id, t.kernel), id, fd);
      }
    }
  }

  lemma FinishedShows(c: Core, id: Id, ask: Ask, r: Result)
    requires id in c.ops && AskOf(c.ops[id]) == ask
    ensures var op := Finished(c.ops[id], r);
            && AskOf(op) == ask && op.finished && op.stage == Done && op.result == r
            && op.sent == c.ops[id].sent && op.recv == c.ops[id].recv
  {
  }

  lemma FinishUnstarted(c: Core, id: Id, ask: Ask, r: Result, socket: Socket)
    requires Shows(c, id, ask, Submitted)
    ensures var c' := Finish(c, id, r);
            && Local(c, c', id, if socket.Opened? then socket.fd else c.ops[id].fd)
            && Shows(c', id, ask, Over(r, 0, []))
  {
    var c' := Finish(c, id, r);
    assert c'.ops == c.ops[id := c'.ops[id]];
  }

  /** A passed deadline ends the operation by its phase. */
  lemma ExpireShows(c: Core, id: Id, ask: Ask, ph: Phase)
    requires Shows(c, id, ask, ph) && !ph.Submitted?
    ensures var c' := Expire(c, id);
            Local(c, c', id, c.ops[id].fd) && Shows(c', id, ask, AfterOverrun(ask, ph))
  {
    hide Finish;
    match ph
    case Dialing(_) => FinishFacts(c, id, ConnectFailed);
    case Shaking(_, _) => FinishFacts(c, id, TlsFailed);
    case Writing(_, _, _) => FinishFacts(c, id, SendFailed);
    case Reading(got, _, _) => FinishFacts(c, id, if got == [] then TimedOut else Success);
    case Over(_, _, _) => SampleFacts(c, id, c.rtt, c.ops[id].fd);
  }

  /** A cancelled operation ends with the bytes it has. */
  lemma StopShows(c: Core, id: Id, ask: Ask, ph: Phase)
    requires Shows(c, id, ask, ph)
    ensures var c' := Finish(c, id, Cancelled);
            Local(c, c', id, c.ops[id].fd) && Shows(c', id, ask, AfterStop(ask, ph))
  {
    if ph.Over? {
      SampleFacts(c, id, c.rtt, c.ops[id].fd);
    } else {
      FinishFacts(c, id, Cancelled);
      hide Finish;
    }
  }
}
