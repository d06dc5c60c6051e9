/** What one reactor worker does to the operations of its shard. Every answer of the kernel
    and of the TLS library is an input. */
module ReactorShard {
  import opened Wrappers

  const MAX_RESPONSE: nat := 65536
  const CHUNK: nat := 4096
  const TLS_WRITE_LIMIT: nat := 0x10_0000
  const RTT_WINDOW: nat := 32

  type byte = x: nat | x < 256

  type Id = nat

  datatype Stage = Connecting | TlsHandshake | Sending | RecvFirst | RecvIdle | Done

  datatype Result = Pending | Success | ConnectFailed | TlsFailed | SendFailed | TimedOut | Cancelled

  /** An operation: what was asked, how far it got, and how often it was completed and closed. */
  datatype Op = Op(
    tls: bool, size: nat, maxResponse: nat,
    fd: int, stage: Stage, sent: nat, recv: seq<byte>, deadline: Option<int>, registered: bool, secured: bool,
    finished: bool, result: Result, completions: nat, closes: nat)

  function NewOp(tls: bool, size: nat, maxResponse: nat): Op {
    Op(tls, size, maxResponse, -1, Connecting, 0, [], None, false, false, false, Pending, 0, 0)
  }

  function Cap(op: Op): nat {
    if op.maxResponse > 0 then op.maxResponse else MAX_RESPONSE
  }

  /** The worker's own state: the operations, the table from descriptors to operations, the
      deadlines, the descriptors registered with epoll (for writing or else for reading), the open
      sockets and the latency samples. */
  datatype Core = Core(
    ops: map<Id, Op>, live: map<int, Id>, deadlines: multiset<(int, int)>,
    armed: map<int, bool>, sockets: set<int>, rtt: seq<int>)

  const EMPTY: Core := Core(map[], map[], multiset{}, map[], {}, [])

  // ---- the five ways the state changes ----------------------------------------------------

  function WithOp(c: Core, id: Id, op: Op): Core {
    c.(ops := c.ops[id := op])
  }

  function Finished(op: Op, r: Result): Op {
    op.(finished := true, stage := Done, result := r, completions := op.completions + 1, secured := false,
        fd := if op.fd >= 0 then -1 else op.fd, closes := if op.fd >= 0 then op.closes + 1 else op.closes)
  }

  /** The table without this entry, if it is this operation's. */
  function Unfiled(live: map<int, Id>, fd: int, id: Id): map<int, Id> {
    if fd in live && live[fd] == id then live - {fd} else live
  }

  /** The deadlines without one entry of this operation, if it has a deadline. */
  function Undue(deadlines: multiset<(int, int)>, op: Op): multiset<(int, int)> {
    if op.deadline.Some? then deadlines - multiset{(op.deadline.value, op.fd)} else deadlines
  }

  function Finish(c: Core, id: Id, r: Result): Core
    requires id in c.ops
  {
    var op := c.ops[id];
    if op.finished then c
    else if op.fd < 0 then WithOp(c, id, Finished(op, r))
    else
      Core(c.ops[id := Finished(op, r)],
           Unfiled(c.live, op.fd, id), Undue(c.deadlines, op), c.armed - {op.fd}, c.sockets - {op.fd}, c.rtt)
  }

  function SetDeadline(c: Core, id: Id, due: int): Core
    requires id in c.ops
  {
    var op := c.ops[id];
    WithOp(c, id, op.(deadline := Some(due))).(deadlines := Undue(c.deadlines, op) + multiset{(due, op.fd)})
  }

  /** How an operation ends when epoll refuses its descriptor. */
  function Failure(op: Op): Result {
    match op.stage
    case Connecting => ConnectFailed
    case TlsHandshake => TlsFailed
    case Sending => SendFailed
    case RecvFirst => if op.recv == [] then TimedOut else Success
    case RecvIdle => if op.recv == [] then TimedOut else Success
    case Done => op.result
  }

  function Arm(c: Core, id: Id, wantWrite: bool, ok: bool): Core
    requires id in c.ops
  {
    var op := c.ops[id];
    if ok then WithOp(c, id, op.(registered := true)).(armed := c.armed[op.fd := wantWrite])
    else if op.stage == Done then c
    else Finish(c, id, Failure(op))
  }

  /** The operation moves on and its deadline is set again. */
  function EnterStage(c: Core, id: Id, op: Op, due: int): (c': Core)
    requires id in c.ops
    ensures id in c'.ops
  {
    SetDeadline(WithOp(c, id, op), id, due)
  }

  /** A new socket is filed under its operation. */
  function Attach(c: Core, id: Id, fd: int, due: int): (c': Core)
    requires id in c.ops
    ensures id in c'.ops
  {
    var filed := WithOp(c, id, c.ops[id].(fd := fd, stage := Connecting));
    SetDeadline(filed.(live := c.live[fd := id], sockets := c.sockets + {fd}), id, due)
  }

  // ---- the stages -------------------------------------------------------------------------

  datatype SendAnswer = Taken(n: nat) | SendInterrupted | SendBlocked(wantWrite: bool) | SendBroken

  datatype RecvAnswer =
    | Data(bytes: seq<byte>)
    | RecvInterrupted
    | RecvBlocked(wantWrite: bool)
    | PeerClosed
    | RecvBroken

  datatype TlsAnswer = TlsReady | TlsBlocked(wantWrite: bool) | TlsBroken

  /** The answers to the calls of one step. A list of answers that runs out ends in a call
      that would block. */
  datatype Kernel = Kernel(
    socketError: bool, latency: int, tlsContext: bool, handshake: TlsAnswer,
    sends: seq<SendAnswer>, recvs: seq<RecvAnswer>, armOk: bool,
    handshakeDue: int, sendDue: int, firstByteDue: int, idleDue: int)

  function Min(a: nat, b: nat): nat {
    if a < b then a else b
  }

  /** A successful write takes at least one of the bytes it is offered and no more than all. */
  function Accepted(n: nat, offered: nat): (r: nat)
    ensures r <= offered && (offered > 0 ==> r > 0)
  {
    if n == 0 then Min(1, offered) else Min(n, offered)
  }

  function Offered(op: Op): nat
    requires op.sent <= op.size
  {
    if op.tls then Min(op.size - op.sent, TLS_WRITE_LIMIT) else op.size - op.sent
  }

  function Send(c: Core, id: Id, sends: seq<SendAnswer>, k: Kernel): Core
    requires id in c.ops
    decreases |sends|
  {
    var op := c.ops[id];
    if op.sent >= op.size then
      Arm(EnterStage(c, id, op.(stage := RecvFirst), k.firstByteDue), id, false, k.armOk)
    else if sends == [] then Arm(c, id, true, k.armOk)
    else
      match sends[0]
      case Taken(n) => Send(WithOp(c, id, op.(sent := op.sent + Accepted(n, Offered(op)))), id, sends[1..], k)
      case SendInterrupted => if op.tls then Finish(c, id, SendFailed) else Send(c, id, sends[1..], k)
      case SendBlocked(wantWrite) => Arm(c, id, wantWrite || !op.tls, k.armOk)
      case SendBroken => Finish(c, id, SendFailed)
  }

  /** The bytes that a read returns are stored; the first ones start the idle stage. */
  function Store(c: Core, id: Id, bytes: seq<byte>, due: int): (c': Core)
    requires id in c.ops
    ensures id in c'.ops
  {
    var op := c.ops[id];
    var op' := op.(recv := op.recv + bytes);
    if op.stage == RecvFirst then EnterStage(c, id, op'.(stage := RecvIdle), due)
    else WithOp(c, id, op')
  }

  function Recv(c: Core, id: Id, recvs: seq<RecvAnswer>, k: Kernel): Core
    requires id in c.ops
    decreases |recvs|
  {
    var op := c.ops[id];
    if |op.recv| >= Cap(op) then Finish(c, id, Success)
    else if recvs == [] then Arm(c, id, false, k.armOk)
    else
      var want := Min(CHUNK, Cap(op) - |op.recv|);
      match recvs[0]
      case Data(bytes) =>
        if bytes == [] then Finish(c, id, Success)
        else Recv(Store(c, id, bytes[..Min(|bytes|, want)], k.idleDue), id, recvs[1..], k)
      case RecvInterrupted => if op.tls then Finish(c, id, Success) else Recv(c, id, recvs[1..], k)
      case RecvBlocked(wantWrite) => Arm(c, id, wantWrite && op.tls, k.armOk)
      case PeerClosed => Finish(c, id, Success)
      case RecvBroken => Finish(c, id, if op.tls || op.recv != [] then Success else TimedOut)
  }

  function StartSending(c: Core, id: Id, k: Kernel): Core
    requires id in c.ops
  {
    Send(EnterStage(c, id, c.ops[id].(stage := Sending), k.sendDue), id, k.sends, k)
  }

  function Handshake(c: Core, id: Id, k: Kernel): Core
    requires id in c.ops
  {
    match k.handshake
    case TlsReady => StartSending(c, id, k)
    case TlsBlocked(wantWrite) => Arm(c, id, wantWrite, k.armOk)
    case TlsBroken => Finish(c, id, TlsFailed)
  }

  /** The last samples of the window, the new one included. */
  function Sampled(rtt: seq<int>, sample: int): seq<int> {
    var s := rtt + [sample];
    if |s| > RTT_WINDOW then s[1..] else s
  }

  function Connected(c: Core, id: Id, k: Kernel): Core
    requires id in c.ops
  {
    if k.socketError then Finish(c, id, ConnectFailed)
    else
      var c1 := c.(rtt := Sampled(c.rtt, k.latency));
      var op := c.ops[id];
      if !op.tls then StartSending(c1, id, k)
      else if !k.tlsContext then Finish(c1, id, TlsFailed)
      else Handshake(EnterStage(c1, id, op.(secured := true, stage := TlsHandshake), k.handshakeDue), id, k)
  }

  /** The reaction to an event on the operation's descriptor. */
  function Advance(c: Core, id: Id, failed: bool, writable: bool, k: Kernel): Core
    requires id in c.ops
  {
    var op := c.ops[id];
    if op.finished then c
    else
      match op.stage
      case Connecting => if failed then Finish(c, id, ConnectFailed) else if writable then Connected(c, id, k) else c
      case TlsHandshake => Handshake(c, id, k)
      case Sending => if failed then Finish(c, id, SendFailed) else Send(c, id, k.sends, k)
      case RecvFirst => Recv(c, id, k.recvs, k)
      case RecvIdle => Recv(c, id, k.recvs, k)
      case Done => c
  }

  /** The outcome of opening a socket. */
  datatype Socket = NoSocket | Opened(fd: nat, inProgress: bool)

  function BeginConnect(c: Core, id: Id, cancelled: bool, socket: Socket, due: int, k: Kernel): Core
    requires id in c.ops
  {
    if cancelled then Finish(c, id, Cancelled)
    else
      match socket
      case NoSocket => Finish(c, id, ConnectFailed)
      case Opened(fd, inProgress) =>
        var c' := Attach(c, id, fd, due);
        if inProgress then Arm(c', id, true, k.armOk) else Connected(c', id, k)
  }

  function FinishAll(c: Core, ids: seq<Id>): (c': Core)
    requires forall id :: id in ids ==> id in c.ops
    ensures c'.ops.Keys == c.ops.Keys
    decreases |ids|
  {
    if ids == [] then c else FinishAll(Finish(c, ids[0], Cancelled), ids[1..])
  }

  function Expire(c: Core, id: Id): (c': Core)
    requires id in c.ops
    ensures c'.ops.Keys == c.ops.Keys
  {
    var op := c.ops[id];
    match op.stage
    case Connecting => Finish(c, id, ConnectFailed)
    case TlsHandshake => Finish(c, id, TlsFailed)
    case Sending => Finish(c, id, SendFailed)
    case RecvFirst => Finish(c, id, if op.recv == [] then TimedOut else Success)
    case RecvIdle => Finish(c, id, Success)
    case Done => c
  }

  /** The timed-out operations end one after the other, each by its stage. */
  function ExpireAll(c: Core, ids: seq<Id>): (c': Core)
    requires forall id :: id in ids ==> id in c.ops
    ensures c'.ops.Keys == c.ops.Keys
    decreases |ids|
  {
    if ids == [] then c
    else ExpireAll(Expire(c, ids[0]), ids[1..])
  }

  ghost predicate Overdue(c: Core, now: int, id: Id) {
    && id in c.ops && c.ops[id].fd in c.live && c.live[c.ops[id].fd] == id
    && c.ops[id].deadline.Some? && c.ops[id].deadline.value <= now
  }

  /** `expired` lists, without repetition, the operations whose current deadline has passed;
      `rest` holds the deadlines that have not. */
  ghost predicate Collected(c: Core, now: int, expired: seq<Id>, rest: multiset<(int, int)>) {
    && (forall i, j :: 0 <= i < j < |expired| ==> expired[i] != expired[j])
    && (forall id :: id in expired <==> Overdue(c, now, id))
    && (forall e: (int, int) :: rest[e] == if e.0 <= now then 0 else c.deadlines[e])
  }

  // ---- what always holds -----------------------------------------------------------------

  /** The stage, the progress and the outcome of an operation agree. */
  ghost predicate Coherent(op: Op) {
    && op.sent <= op.size && |op.recv| <= Cap(op)
    && op.completions == (if op.finished then 1 else 0)
    && (op.finished <==> op.result != Pending) && (op.finished <==> op.stage == Done)
    && op.closes <= op.completions
    && (op.fd >= 0 ==> !op.finished && op.deadline.Some?)
    && (op.fd < 0 ==> op.fd == -1 && (!op.finished ==> op.stage == Connecting && op.deadline == None && !op.registered))
    && (op.stage == Connecting ==> op.sent == 0 && op.recv == [] && !op.secured)
    && (op.stage == TlsHandshake ==> op.tls && op.secured && op.sent == 0 && op.recv == [])
    && (op.stage == Sending ==> op.recv == [] && op.tls == op.secured)
    && (op.stage == RecvFirst ==> op.sent == op.size && op.recv == [] && op.tls == op.secured)
    && (op.stage == RecvIdle ==> op.sent == op.size && op.recv != [] && op.tls == op.secured)
    && OutcomeMatches(op)
  }

  ghost predicate OutcomeMatches(op: Op) {
    match op.result
    case Pending => true
    case Success => op.sent == op.size
    case ConnectFailed => op.sent == 0 && op.recv == []
    case TlsFailed => op.tls && op.sent == 0 && op.recv == []
    case SendFailed => op.sent < op.size && op.recv == []
    case TimedOut => op.sent == op.size && op.recv == []
    case Cancelled => true
  }

  /** The results an operation may end with at its present stage. */
  ghost predicate Fits(op: Op, r: Result) {
    match r
    case Pending => false
    case Success => op.stage == RecvFirst || op.stage == RecvIdle
    case ConnectFailed => op.stage == Connecting
    case TlsFailed => op.tls && (op.stage == Connecting || op.stage == TlsHandshake)
    case SendFailed => op.stage == Sending && op.sent < op.size
    case TimedOut => op.stage == RecvFirst
    case Cancelled => true
  }

  /** Between two steps an operation that is sending has something left to send. */
  ghost predicate AtRest(op: Op) {
    op.stage == Sending ==> op.sent < op.size
  }

  ghost predicate OpsCoherent(c: Core) {
    forall id :: id in c.ops ==> Coherent(c.ops[id])
  }

  /** Each entry of the table is an unfinished operation that owns that descriptor, and
      every operation with a descriptor is in the table. */
  ghost predicate TableOwns(c: Core) {
    && (forall fd :: fd in c.live ==> 0 <= fd && c.live[fd] in c.ops && c.ops[c.live[fd]].fd == fd)
    && (forall id :: id in c.ops && c.ops[id].fd >= 0 ==> c.ops[id].fd in c.live && c.live[c.ops[id].fd] == id)
  }

  ghost predicate IsDeadline(c: Core, e: (int, int), skip: set<Id>) {
    e.1 in c.live && c.live[e.1] in c.ops && c.live[e.1] !in skip && c.ops[c.live[e.1]].deadline == Some(e.0)
  }

  /** The deadlines are exactly one entry for each operation in the table, those in `skip` excepted. */
  ghost predicate DeadlinesExact(c: Core, skip: set<Id>) {
    forall e: (int, int) :: c.deadlines[e] == if IsDeadline(c, e, skip) then 1 else 0
  }

  /** The open sockets are exactly those in the table, and epoll watches only those. */
  ghost predicate NoLeaks(c: Core) {
    c.sockets == c.live.Keys && c.armed.Keys <= c.live.Keys && |c.rtt| <= RTT_WINDOW
  }

  ghost predicate Sound(c: Core, skip: set<Id>) {
    OpsCoherent(c) && TableOwns(c) && DeadlinesExact(c, skip) && NoLeaks(c)
  }

  /** The invariant of a shard between two steps of its worker. */
  ghost predicate Valid(c: Core) {
    Sound(c, {}) && forall id :: id in c.ops ==> AtRest(c.ops[id])
  }

  // ---- the five changes keep it ------------------------------------------------------------

  /** Only this operation changes, and in a way that keeps its descriptor and deadline. */
  lemma WithOpSound(c: Core, id: Id, op: Op)
    requires Sound(c, {}) && id in c.ops && Coherent(op)
    requires op.fd == c.ops[id].fd && op.deadline == c.ops[id].deadline
    ensures Sound(WithOp(c, id, op), {})
  {
    hide Coherent;
    var c' := WithOp(c, id, op);
    forall e: (int, int) ensures c'.deadlines[e] == if IsDeadline(c', e, {}) then 1 else 0 {
      assert IsDeadline(c', e, {}) <==> IsDeadline(c, e, {});
    }
  }

  lemma SetDeadlineExact(c: Core, id: Id, due: int)
    requires TableOwns(c) && DeadlinesExact(c, {}) && id in c.ops && c.ops[id].fd >= 0 && c.ops[id].deadline.Some?
    ensures DeadlinesExact(SetDeadline(c, id, due), {})
  {
    var op, c' := c.ops[id], SetDeadline(c, id, due);
    assert IsDeadline(c, (op.deadline.value, op.fd), {});
    forall e: (int, int) ensures c'.deadlines[e] == if IsDeadline(c', e, {}) then 1 else 0 {
      if e.1 == op.fd {
        assert IsDeadline(c, e, {}) <==> e == (op.deadline.value, op.fd);
        assert IsDeadline(c', e, {}) <==> e == (due, op.fd);
      } else {
        assert IsDeadline(c', e, {}) <==> IsDeadline(c, e, {});
      }
    }
  }

  lemma SetDeadlineSound(c: Core, id: Id, due: int)
    requires Sound(c, {}) && id in c.ops && c.ops[id].fd >= 0
    ensures Sound(SetDeadline(c, id, due), {})
  {
    assert Coherent(c.ops[id].(deadline := Some(due)));
    assert c.ops[id].deadline.Some?;
    SetDeadlineExact(c, id, due);
    hide Coherent, DeadlinesExact;
  }

  lemma ArmedSound(c: Core, id: Id, wantWrite: bool)
    requires Sound(c, {}) && id in c.ops && c.ops[id].fd >= 0
    ensures Sound(Arm(c, id, wantWrite, true), {})
  {
    assert Coherent(c.ops[id].(registered := true));
    WithOpSound(c, id, c.ops[id].(registered := true));
    hide Coherent;
    var c1, c' := WithOp(c, id, c.ops[id].(registered := true)), Arm(c, id, wantWrite, true);
    forall e: (int, int) ensures c'.deadlines[e] == if IsDeadline(c', e, {}) then 1 else 0 {
      assert IsDeadline(c', e, {}) <==> IsDeadline(c1, e, {});
    }
  }

  lemma AttachSound(c: Core, id: Id, fd: int, due: int)
    requires Sound(c, {}) && id in c.ops && c.ops[id].fd < 0 && !c.ops[id].finished
    requires fd >= 0 && fd !in c.sockets
    ensures Sound(Attach(c, id, fd, due), {})
  {
    var c' := Attach(c, id, fd, due);
    assert Coherent(c.ops[id]);
    assert Coherent(c'.ops[id]);
    AttachExact(c, id, fd, due);
    hide Coherent, DeadlinesExact;
  }

  lemma AttachExact(c: Core, id: Id, fd: int, due: int)
    requires TableOwns(c) && DeadlinesExact(c, {}) && id in c.ops && c.ops[id].fd < 0 && c.ops[id].deadline == None
    requires fd >= 0 && fd !in c.live
    ensures DeadlinesExact(Attach(c, id, fd, due), {})
  {
    var c' := Attach(c, id, fd, due);
    forall e: (int, int) ensures c'.deadlines[e] == if IsDeadline(c', e, {}) then 1 else 0 {
      if e.1 == fd {
        assert !IsDeadline(c, e, {});
        assert IsDeadline(c', e, {}) <==> e == (due, fd);
      } else {
        assert IsDeadline(c', e, {}) <==> IsDeadline(c, e, {});
      }
    }
  }

  lemma FinishCoherent(op: Op, r: Result)
    requires Coherent(op) && !op.finished && Fits(op, r)
    ensures Coherent(Finished(op, r)) && Progress(op, Finished(op, r))
  {
  }

  lemma FinishExactOpen(c: Core, id: Id, r: Result, skip: set<Id>)
    requires TableOwns(c) && DeadlinesExact(c, skip) && id in c.ops
    requires !c.ops[id].finished && c.ops[id].fd >= 0 && c.ops[id].deadline.Some?
    ensures DeadlinesExact(Finish(c, id, r), skip)
  {
    var op, c' := c.ops[id], Finish(c, id, r);
    forall e: (int, int) ensures c'.deadlines[e] == if IsDeadline(c', e, skip) then 1 else 0 {
      if e.1 == op.fd {
        assert !IsDeadline(c', e, skip);
        assert IsDeadline(c, e, skip) ==> e == (op.deadline.value, op.fd);
      } else {
        assert IsDeadline(c', e, skip) <==> IsDeadline(c, e, skip);
      }
    }
  }

  lemma FinishExactClosed(c: Core, id: Id, r: Result, skip: set<Id>)
    requires TableOwns(c) && DeadlinesExact(c, skip) && id in c.ops && c.ops[id].fd < 0
    ensures DeadlinesExact(Finish(c, id, r), skip)
  {
    var c' := Finish(c, id, r);
    forall e: (int, int) ensures c'.deadlines[e] == if IsDeadline(c', e, skip) then 1 else 0 {
      assert IsDeadline(c', e, skip) <==> IsDeadline(c, e, skip);
    }
  }

  lemma FinishTable(c: Core, id: Id, r: Result)
    requires TableOwns(c) && NoLeaks(c) && id in c.ops
    ensures TableOwns(Finish(c, id, r)) && NoLeaks(Finish(c, id, r))
  {
    var op := c.ops[id];
    assert op.fd >= 0 ==> Unfiled(c.live, op.fd, id) == c.live - {op.fd};
    assert Finished(op, r).fd == if op.fd >= 0 then -1 else op.fd;
    hide Undue, Unfiled, Finished;
  }

  /** Finishing an operation removes every trace of it from the shard. */
  lemma FinishSound(c: Core, id: Id, r: Result, skip: set<Id>)
    requires Sound(c, skip) && id in c.ops && (!c.ops[id].finished ==> Fits(c.ops[id], r))
    ensures Sound(Finish(c, id, r), skip)
  {
    var op, c' := c.ops[id], Finish(c, id, r);
    FinishTable(c, id, r);
    hide DeadlinesExact, TableOwns, NoLeaks;
    assert Coherent(op);
    if !op.finished {
      FinishCoherent(op, r);
      if op.fd >= 0 {
        FinishExactOpen(c, id, r, skip);
      } else {
        FinishExactClosed(c, id, r, skip);
      }
      hide Coherent;
      assert OpsCoherent(c');
    }
  }

  // ---- every step keeps it, and only moves forward -----------------------------------------

  function Rank(s: Stage): nat {
    match s
    case Connecting => 0
    case TlsHandshake => 1
    case Sending => 2
    case RecvFirst => 3
    case RecvIdle => 4
    case Done => 5
  }

  /** Stages only advance, bytes only accumulate, an operation keeps its socket until it
      finishes and closes it then, and a finished operation never changes again. */
  ghost predicate Progress(op: Op, op': Op) {
    && op'.tls == op.tls && op'.size == op.size && op'.maxResponse == op.maxResponse
    && Rank(op.stage) <= Rank(op'.stage)
    && op.sent <= op'.sent && op.recv <= op'.recv
    && op.completions <= op'.completions && op.closes <= op'.closes
    && (op.fd >= 0 && !op.finished ==>
          if op'.finished then op'.closes == op.closes + 1 else op'.fd == op.fd && op'.closes == op.closes)
    && (op.finished ==> op' == op)
  }

  /** One operation progresses, no other changes, and the table gains nothing. */
  ghost predicate Frame(c: Core, c': Core, id: Id) {
    && id in c.ops && id in c'.ops && c'.ops == c.ops[id := c'.ops[id]]
    && Progress(c.ops[id], c'.ops[id])
    && (forall fd :: fd in c'.live ==> fd in c.live && c'.live[fd] == c.live[fd])
  }

  /** The step ends in a sound state, at rest, and has changed this operation only. */
  ghost predicate GoodStep(c: Core, c': Core, id: Id) {
    Sound(c', {}) && Frame(c, c', id) && AtRest(c'.ops[id])
  }

  lemma GoodAfter(c: Core, c1: Core, c2: Core, id: Id)
    requires Frame(c, c1, id) && GoodStep(c1, c2, id)
    ensures GoodStep(c, c2, id)
  {
    hide Sound, Progress, AtRest;
    assert Progress(c.ops[id], c2.ops[id]) by {
      ProgressTrans(c.ops[id], c1.ops[id], c2.ops[id]);
    }
    assert c2.ops == c.ops[id := c2.ops[id]];
  }

  lemma ProgressTrans(a: Op, b: Op, d: Op)
    requires Progress(a, b) && Progress(b, d)
    ensures Progress(a, d)
  {
  }

  ghost predicate Ready(c: Core, id: Id) {
    Sound(c, {}) && id in c.ops && c.ops[id].fd >= 0
  }

  lemma ReadyOp(c: Core, id: Id)
    requires Ready(c, id)
    ensures Coherent(c.ops[id]) && !c.ops[id].finished && c.ops[id].deadline.Some?
  {
  }

  lemma FinishFrame(c: Core, id: Id, r: Result)
    requires id in c.ops && (!c.ops[id].finished ==> Progress(c.ops[id], Finished(c.ops[id], r)))
    ensures Frame(c, Finish(c, id, r), id)
  {
    var c' := Finish(c, id, r);
    assert Progress(c.ops[id], c'.ops[id]);
    hide Progress, Finished;
    assert c'.ops == c.ops[id := c'.ops[id]];
  }

  lemma FinishGood(c: Core, id: Id, r: Result)
    requires Sound(c, {}) && id in c.ops && Fits(c.ops[id], r)
    ensures GoodStep(c, Finish(c, id, r), id)
  {
    FinishSound(c, id, r, {});
    OpCoherent(c, id, {});
    if !c.ops[id].finished {
      FinishCoherent(c.ops[id], r);
    }
    FinishFrame(c, id, r);
    OpCoherent(Finish(c, id, r), id, {});
    hide Sound, Frame;
    FinishRests(c, id, r);
  }

  lemma FinishRests(c: Core, id: Id, r: Result)
    requires id in c.ops && Coherent(c.ops[id])
    ensures id in Finish(c, id, r).ops && AtRest(Finish(c, id, r).ops[id])
  {
  }

  lemma OpCoherent(c: Core, id: Id, skip: set<Id>)
    requires Sound(c, skip) && id in c.ops
    ensures Coherent(c.ops[id])
  {
  }

  lemma ArmGood(c: Core, id: Id, wantWrite: bool, ok: bool)
    requires Ready(c, id) && AtRest(c.ops[id])
    ensures GoodStep(c, Arm(c, id, wantWrite, ok), id)
  {
    ReadyOp(c, id);
    if ok {
      ArmedSound(c, id, wantWrite);
      hide Sound, Coherent;
    } else {
      FinishGood(c, id, Failure(c.ops[id]));
      hide Sound, Coherent;
    }
  }

  /** The operation moves to a later stage and gets a new deadline. */
  lemma EnterStageReady(c: Core, id: Id, op: Op, due: int)
    requires Ready(c, id) && Coherent(op) && Progress(c.ops[id], op)
    requires op.fd == c.ops[id].fd && op.deadline == c.ops[id].deadline
    ensures var c' := EnterStage(c, id, op, due);
            Ready(c', id) && Frame(c, c', id) && c'.ops[id] == op.(deadline := Some(due))
  {
    WithOpSound(c, id, op);
    SetDeadlineSound(WithOp(c, id, op), id, due);
    hide Sound, Coherent;
    var c' := EnterStage(c, id, op, due);
    assert c'.ops == c.ops[id := c'.ops[id]];
  }

  lemma OpSet(c: Core, id: Id, op: Op)
    requires Ready(c, id) && Coherent(op) && Progress(c.ops[id], op)
    requires op.fd == c.ops[id].fd && op.deadline == c.ops[id].deadline
    ensures Ready(WithOp(c, id, op), id) && Frame(c, WithOp(c, id, op), id)
  {
    WithOpSound(c, id, op);
    hide Sound, Coherent;
  }

  lemma {:induction false} SendGood(c: Core, id: Id, sends: seq<SendAnswer>, k: Kernel)
    requires Ready(c, id) && c.ops[id].stage == Sending
    ensures GoodStep(c, Send(c, id, sends, k), id)
    decreases |sends|
  {
    hide Ready, GoodStep, Frame, EnterStage, WithOp, Arm, Finish;
    ReadyOp(c, id);
    ReadySound(c, id);
    var op := c.ops[id];
    if op.sent >= op.size {
      var op' := op.(stage := RecvFirst);
      EnterStageReady(c, id, op', k.firstByteDue);
      var c1 := EnterStage(c, id, op', k.firstByteDue);
      ArmGood(c1, id, false, k.armOk);
      GoodAfter(c, c1, Arm(c1, id, false, k.armOk), id);
    } else if sends == [] || sends[0].SendBlocked? {
      ArmGood(c, id, sends == [] || sends[0].wantWrite || !op.tls, k.armOk);
    } else if sends[0].SendBroken? || (op.tls && sends[0].SendInterrupted?) {
      FinishGood(c, id, SendFailed);
    } else if sends[0].SendInterrupted? {
      SendGood(c, id, sends[1..], k);
    } else {
      var op' := op.(sent := op.sent + Accepted(sends[0].n, Offered(op)));
      OpSet(c, id, op');
      WithOpAt(c, id, op');
      SendGood(WithOp(c, id, op'), id, sends[1..], k);
      GoodAfter(c, WithOp(c, id, op'), Send(WithOp(c, id, op'), id, sends[1..], k), id);
    }
  }

  lemma WithOpAt(c: Core, id: Id, op: Op)
    ensures id in WithOp(c, id, op).ops && WithOp(c, id, op).ops[id] == op
  {
  }

  lemma ReadySound(c: Core, id: Id)
    requires Ready(c, id)
    ensures Sound(c, {}) && id in c.ops
  {
  }

  lemma StoreGood(c: Core, id: Id, bytes: seq<byte>, due: int)
    requires Ready(c, id) && (c.ops[id].stage == RecvFirst || c.ops[id].stage == RecvIdle)
    requires bytes != [] && |c.ops[id].recv| + |bytes| <= Cap(c.ops[id])
    ensures var c' := Store(c, id, bytes, due);
            && Ready(c', id) && Frame(c, c', id)
            && c'.ops[id].stage == RecvIdle && c'.ops[id].recv == c.ops[id].recv + bytes
  {
    hide Ready, Frame, EnterStage, WithOp;
    ReadyOp(c, id);
    ReadySound(c, id);
    var op := c.ops[id].(recv := c.ops[id].recv + bytes);
    if op.stage == RecvFirst {
      EnterStageReady(c, id, op.(stage := RecvIdle), due);
    } else {
      OpSet(c, id, op);
      WithOpAt(c, id, op);
    }
  }

  lemma {:induction false} RecvGood(c: Core, id: Id, recvs: seq<RecvAnswer>, k: Kernel)
    requires Ready(c, id) && (c.ops[id].stage == RecvFirst || c.ops[id].stage == RecvIdle)
    ensures GoodStep(c, Recv(c, id, recvs, k), id)
    decreases |recvs|
  {
    hide Ready, GoodStep, Frame, Store, Arm, Finish;
    ReadyOp(c, id);
    ReadySound(c, id);
    var op := c.ops[id];
    if |op.recv| >= Cap(op) {
      FinishGood(c, id, Success);
    } else if recvs == [] || recvs[0].RecvBlocked? {
      ArmGood(c, id, recvs != [] && recvs[0].wantWrite && op.tls, k.armOk);
    } else if recvs[0].RecvInterrupted? && !op.tls {
      RecvGood(c, id, recvs[1..], k);
    } else if recvs[0].Data? && recvs[0].bytes != [] {
      var bytes := recvs[0].bytes[..Min(|recvs[0].bytes|, Min(CHUNK, Cap(op) - |op.recv|))];
      StoreGood(c, id, bytes, k.idleDue);
      var c1 := Store(c, id, bytes, k.idleDue);
      ReadySound(c1, id);
      RecvGood(c1, id, recvs[1..], k);
      GoodAfter(c, c1, Recv(c1, id, recvs[1..], k), id);
    } else {
      FinishGood(c, id, if recvs[0].RecvBroken? && !op.tls && op.recv == [] then TimedOut else Success);
    }
  }

  lemma StartSendingGood(c: Core, id: Id, k: Kernel)
    requires Ready(c, id) && (if c.ops[id].tls then c.ops[id].stage == TlsHandshake else c.ops[id].stage == Connecting)
    ensures GoodStep(c, StartSending(c, id, k), id)
  {
    hide Ready, GoodStep, Frame, EnterStage, Send;
    ReadyOp(c, id);
    ReadySound(c, id);
    var op := c.ops[id].(stage := Sending);
    EnterStageReady(c, id, op, k.sendDue);
    var c1 := EnterStage(c, id, op, k.sendDue);
    SendGood(c1, id, k.sends, k);
    GoodAfter(c, c1, Send(c1, id, k.sends, k), id);
  }

  lemma HandshakeGood(c: Core, id: Id, k: Kernel)
    requires Ready(c, id) && c.ops[id].stage == TlsHandshake
    ensures GoodStep(c, Handshake(c, id, k), id)
  {
    hide Ready, GoodStep, Frame, StartSending, Arm, Finish;
    ReadyOp(c, id);
    ReadySound(c, id);
    match k.handshake
    case TlsReady => StartSendingGood(c, id, k);
    case TlsBlocked(wantWrite) => ArmGood(c, id, wantWrite, k.armOk);
    case TlsBroken => FinishGood(c, id, TlsFailed);
  }

  lemma SampleReady(c: Core, id: Id, sample: int)
    requires Ready(c, id)
    ensures var c' := c.(rtt := Sampled(c.rtt, sample)); Ready(c', id) && Frame(c, c', id)
  {
    var c' := c.(rtt := Sampled(c.rtt, sample));
    forall e: (int, int) ensures c'.deadlines[e] == if IsDeadline(c', e, {}) then 1 else 0 {
      assert IsDeadline(c', e, {}) <==> IsDeadline(c, e, {});
    }
    assert Progress(c.ops[id], c.ops[id]);
    hide Coherent, Progress;
  }

  lemma ConnectedGood(c: Core, id: Id, k: Kernel)
    requires Ready(c, id) && c.ops[id].stage == Connecting
    ensures GoodStep(c, Connected(c, id, k), id)
  {
    hide Ready, GoodStep, Frame, StartSending, Finish, EnterStage, Handshake, Sampled;
    ReadyOp(c, id);
    ReadySound(c, id);
    if k.socketError {
      FinishGood(c, id, ConnectFailed);
    } else {
      SampleReady(c, id, k.latency);
      var c1, op := c.(rtt := Sampled(c.rtt, k.latency)), c.ops[id];
      ReadySound(c1, id);
      if !op.tls {
        StartSendingGood(c1, id, k);
        GoodAfter(c, c1, StartSending(c1, id, k), id);
      } else if !k.tlsContext {
        FinishGood(c1, id, TlsFailed);
        GoodAfter(c, c1, Finish(c1, id, TlsFailed), id);
      } else {
        var op' := op.(secured := true, stage := TlsHandshake);
        EnterStageReady(c1, id, op', k.handshakeDue);
        var c2 := EnterStage(c1, id, op', k.handshakeDue);
        HandshakeGood(c2, id, k);
        GoodAfter(c1, c2, Handshake(c2, id, k), id);
        GoodAfter(c, c1, Handshake(c2, id, k), id);
      }
    }
  }

  lemma IdleGood(c: Core, id: Id)
    requires Sound(c, {}) && id in c.ops && AtRest(c.ops[id])
    ensures GoodStep(c, c, id)
  {
    hide Sound;
    assert c.ops[id := c.ops[id]] == c.ops;
  }

  /** The reaction to an event keeps the shard sound, whatever the kernel answers. */
  lemma AdvanceGood(c: Core, id: Id, failed: bool, writable: bool, k: Kernel)
    requires Sound(c, {}) && id in c.ops && AtRest(c.ops[id])
    requires c.ops[id].fd >= 0
    ensures GoodStep(c, Advance(c, id, failed, writable, k), id)
  {
    hide GoodStep, Sound, Send, Recv, Finish, Handshake, Connected;
    assert Ready(c, id);
    ReadyOp(c, id);
    match c.ops[id].stage
    case Connecting =>
      if failed {
        FinishGood(c, id, ConnectFailed);
      } else if writable {
        ConnectedGood(c, id, k);
      } else {
        IdleGood(c, id);
      }
    case TlsHandshake => HandshakeGood(c, id, k);
    case Sending =>
      if failed {
        FinishGood(c, id, SendFailed);
      } else {
        SendGood(c, id, k.sends, k);
      }
    case RecvFirst => RecvGood(c, id, k.recvs, k);
    case RecvIdle => RecvGood(c, id, k.recvs, k);
  }

  /** Like `Frame`, for a step that may file a new socket under its operation. */
  ghost predicate FrameNew(c: Core, c': Core, id: Id) {
    && id in c.ops && id in c'.ops && c'.ops == c.ops[id := c'.ops[id]]
    && Progress(c.ops[id], c'.ops[id])
    && (forall fd :: fd in c'.live ==> c'.live[fd] == id || (fd in c.live && c'.live[fd] == c.live[fd]))
  }

  ghost predicate GoodStart(c: Core, c': Core, id: Id) {
    Sound(c', {}) && FrameNew(c, c', id) && AtRest(c'.ops[id])
  }

  lemma StartAfter(c: Core, c1: Core, c2: Core, id: Id)
    requires FrameNew(c, c1, id) && GoodStep(c1, c2, id)
    ensures GoodStart(c, c2, id)
  {
    hide Sound, Progress, AtRest;
    ProgressTrans(c.ops[id], c1.ops[id], c2.ops[id]);
    assert c2.ops == c.ops[id := c2.ops[id]];
  }

  lemma StartOf(c: Core, c': Core, id: Id)
    requires GoodStep(c, c', id)
    ensures GoodStart(c, c', id)
  {
    hide Sound, Progress, AtRest;
  }

  lemma AttachReady(c: Core, id: Id, fd: int, due: int)
    requires Sound(c, {}) && id in c.ops && c.ops[id].fd < 0 && !c.ops[id].finished
    requires fd >= 0 && fd !in c.sockets
    ensures var c' := Attach(c, id, fd, due); Ready(c', id) && FrameNew(c, c', id) && c'.ops[id].stage == Connecting
  {
    AttachSound(c, id, fd, due);
    OpCoherent(c, id, {});
    hide Sound, Coherent;
    var c' := Attach(c, id, fd, due);
    assert c'.ops == c.ops[id := c'.ops[id]];
  }

  /** Starting an operation keeps the shard sound, provided the kernel's descriptor is not
      that of an open socket. */
  lemma BeginConnectGood(c: Core, id: Id, cancelled: bool, socket: Socket, due: int, k: Kernel)
    requires Sound(c, {}) && id in c.ops && c.ops[id].fd < 0 && !c.ops[id].finished
    requires socket.Opened? ==> socket.fd !in c.sockets
    ensures GoodStart(c, BeginConnect(c, id, cancelled, socket, due, k), id)
  {
    hide GoodStart, GoodStep, Sound, Finish, Arm, Connected, Attach, FrameNew, Ready;
    OpCoherent(c, id, {});
    if cancelled || socket.NoSocket? {
      var r := if cancelled then Cancelled else ConnectFailed;
      FinishGood(c, id, r);
      StartOf(c, Finish(c, id, r), id);
    } else {
      AttachReady(c, id, socket.fd, due);
      var c' := Attach(c, id, socket.fd, due);
      ReadySound(c', id);
      if socket.inProgress {
        ArmGood(c', id, true, k.armOk);
        StartAfter(c, c', Arm(c', id, true, k.armOk), id);
      } else {
        ConnectedGood(c', id, k);
        StartAfter(c, c', Connected(c', id, k), id);
      }
    }
  }

  // ---- finishing many ------------------------------------------------------------------

  ghost predicate AllAtRest(c: Core) {
    forall id :: id in c.ops ==> AtRest(c.ops[id])
  }

  /** Operations progress and the table only loses entries. */
  ghost predicate Shrinks(c: Core, c': Core) {
    && c'.ops.Keys == c.ops.Keys
    && (forall id :: id in c.ops ==> Progress(c.ops[id], c'.ops[id]))
    && (forall fd :: fd in c'.live ==> fd in c.live && c'.live[fd] == c.live[fd])
  }

  lemma ShrinksTrans(c: Core, c1: Core, c2: Core)
    requires Shrinks(c, c1) && Shrinks(c1, c2)
    ensures Shrinks(c, c2)
  {
    forall id | id in c.ops ensures Progress(c.ops[id], c2.ops[id]) {
      assert id in c1.ops;
      ProgressTrans(c.ops[id], c1.ops[id], c2.ops[id]);
    }
  }

  lemma ProgressSelf(op: Op)
    ensures Progress(op, op)
  {
  }

  lemma FrameShrinks(c: Core, c': Core, id: Id)
    requires Frame(c, c', id)
    ensures Shrinks(c, c')
  {
    hide Progress;
    forall i | i in c.ops ensures Progress(c.ops[i], c'.ops[i]) {
      ProgressSelf(c.ops[i]);
    }
  }

  /** An end that fits, possibly while some deadlines are already gone. */
  lemma EndOne(c: Core, id: Id, r: Result, skip: set<Id>)
    requires Sound(c, skip) && AllAtRest(c) && id in c.ops && !c.ops[id].finished && Fits(c.ops[id], r)
    ensures var c' := Finish(c, id, r);
            && Sound(c', skip) && AllAtRest(c') && Shrinks(c, c')
            && c'.ops[id].finished && c'.ops == c.ops[id := c'.ops[id]]
  {
    FinishSound(c, id, r, skip);
    OpCoherent(c, id, skip);
    FinishCoherent(c.ops[id], r);
    FinishFrame(c, id, r);
    FinishRests(c, id, r);
    FrameShrinks(c, Finish(c, id, r), id);
    assert Finish(c, id, r).ops[id].finished;
    hide Sound, Shrinks, Coherent, Finished, Finish, AtRest;
  }

  ghost predicate AllEnded(c: Core, c': Core, ids: seq<Id>) {
    && c'.ops.Keys == c.ops.Keys
    && (forall id :: id in ids && id in c.ops ==> c'.ops[id].finished)
    && (forall id :: id in c.ops && id !in ids ==> c'.ops[id] == c.ops[id])
  }

  lemma EndedThen(c: Core, c1: Core, c2: Core, ids: seq<Id>)
    requires ids != [] && ids[0] in c.ops && Shrinks(c1, c2) && AllEnded(c1, c2, ids[1..])
    requires ids[0] in c1.ops && c1.ops == c.ops[ids[0] := c1.ops[ids[0]]] && c1.ops[ids[0]].finished
    ensures AllEnded(c, c2, ids)
  {
    forall id | id in ids && id in c.ops ensures c2.ops[id].finished {
      if id == ids[0] {
        assert Progress(c1.ops[id], c2.ops[id]);
      } else {
        assert id in ids[1..];
      }
    }
  }

  /** Cancelling any operations finishes them all and touches no other. */
  lemma {:induction false} FinishAllGood(c: Core, ids: seq<Id>)
    requires Valid(c) && forall id :: id in ids ==> id in c.ops
    ensures Valid(FinishAll(c, ids)) && Shrinks(c, FinishAll(c, ids)) && AllEnded(c, FinishAll(c, ids), ids)
    decreases |ids|
  {
    hide Sound, Finish, AtRest, Progress;
    if ids == [] {
      forall id | id in c.ops ensures Progress(c.ops[id], c.ops[id]) {
        ProgressSelf(c.ops[id]);
      }
    } else {
      var c1 := Finish(c, ids[0], Cancelled);
      if c.ops[ids[0]].finished {
        FinishedStays(c, ids[0], Cancelled);
        FinishAllGood(c, ids[1..]);
        assert c.ops == c.ops[ids[0] := c.ops[ids[0]]];
        EndedThen(c, c, FinishAll(c, ids), ids);
      } else {
        EndOne(c, ids[0], Cancelled, {});
        FinishAllGood(c1, ids[1..]);
        ShrinksTrans(c, c1, FinishAll(c, ids));
        EndedThen(c, c1, FinishAll(c, ids), ids);
      }
    }
  }

  lemma FinishedStays(c: Core, id: Id, r: Result)
    requires id in c.ops && c.ops[id].finished
    ensures Finish(c, id, r) == c && Expire(c, id) == c
  {
  }

  lemma ExpireOne(c: Core, id: Id, skip: set<Id>)
    requires Sound(c, skip) && AllAtRest(c) && id in c.ops && !c.ops[id].finished
    ensures var c' := Expire(c, id);
            && Sound(c', skip) && AllAtRest(c') && Shrinks(c, c')
            && c'.ops[id].finished && c'.ops == c.ops[id := c'.ops[id]]
  {
    hide Sound, Shrinks, Finish, AllAtRest;
    OpCoherent(c, id, skip);
    assert AtRest(c.ops[id]) by {
      RestsAll(c, id);
    }
    match c.ops[id].stage
    case Connecting => EndOne(c, id, ConnectFailed, skip);
    case TlsHandshake => EndOne(c, id, TlsFailed, skip);
    case Sending => EndOne(c, id, SendFailed, skip);
    case RecvFirst => EndOne(c, id, TimedOut, skip);
    case RecvIdle => EndOne(c, id, Success, skip);
  }

  lemma RestsAll(c: Core, id: Id)
    requires AllAtRest(c) && id in c.ops
    ensures AtRest(c.ops[id])
  {
  }

  lemma {:induction false} ExpireAllGood(c: Core, ids: seq<Id>, skip: set<Id>)
    requires Sound(c, skip) && AllAtRest(c) && (forall id :: id in ids ==> id in c.ops)
    ensures var c' := ExpireAll(c, ids);
            Sound(c', skip) && AllAtRest(c') && Shrinks(c, c') && AllEnded(c, c', ids)
    decreases |ids|
  {
    hide Sound, AllAtRest, Expire, Progress;
    if ids == [] {
      forall id | id in c.ops ensures Progress(c.ops[id], c.ops[id]) {
        ProgressSelf(c.ops[id]);
      }
    } else {
      var c1 := Expire(c, ids[0]);
      if c.ops[ids[0]].finished {
        FinishedStays(c, ids[0], Cancelled);
        ExpireAllGood(c, ids[1..], skip);
        assert c.ops == c.ops[ids[0] := c.ops[ids[0]]];
        EndedThen(c, c, ExpireAll(c, ids), ids);
      } else {
        ExpireOne(c, ids[0], skip);
        ExpireAllGood(c1, ids[1..], skip);
        ShrinksTrans(c, c1, ExpireAll(c, ids));
        EndedThen(c, c1, ExpireAll(c, ids), ids);
      }
    }
  }

  /** The sweep: the passed deadlines are erased, then their operations end. */
  function Swept(c: Core, expired: seq<Id>, rest: multiset<(int, int)>): Core
    requires forall id :: id in expired ==> id in c.ops
  {
    ExpireAll(c.(deadlines := rest), expired)
  }

  lemma RestExact(c: Core, now: int, expired: seq<Id>, rest: multiset<(int, int)>)
    requires Sound(c, {}) && Collected(c, now, expired, rest)
    ensures Sound(c.(deadlines := rest), set id | id in expired)
  {
    hide Coherent;
    var c1, skip := c.(deadlines := rest), set id | id in expired;
    forall e: (int, int) ensures c1.deadlines[e] == if IsDeadline(c1, e, skip) then 1 else 0 {
      assert c.deadlines[e] == if IsDeadline(c, e, {}) then 1 else 0;
      if IsDeadline(c, e, {}) {
        var id := c.live[e.1];
        assert e.1 in c.live && c.ops[id].fd == e.1;
        assert Overdue(c, now, id) <==> e.0 <= now;
      } else {
        assert !IsDeadline(c1, e, skip);
      }
    }
  }

  lemma SkipNothing(c: Core, skip: set<Id>)
    requires Sound(c, skip) && forall id :: id in skip ==> id in c.ops && c.ops[id].finished
    ensures Sound(c, {})
  {
    forall e: (int, int) ensures c.deadlines[e] == if IsDeadline(c, e, {}) then 1 else 0 {
      if IsDeadline(c, e, {}) {
        assert e.1 in c.live && c.ops[c.live[e.1]].fd == e.1;
        OpCoherent(c, c.live[e.1], skip);
        assert c.live[e.1] !in skip;
      }
      assert IsDeadline(c, e, {}) <==> IsDeadline(c, e, skip);
    }
    hide Coherent;
  }

  /** After the sweep the shard is sound again, exactly the overdue operations have ended, and
      no deadline that has passed is left. */
  lemma SweptGood(c: Core, now: int, expired: seq<Id>, rest: multiset<(int, int)>)
    requires Valid(c) && Collected(c, now, expired, rest)
    ensures forall id :: id in expired ==> id in c.ops
    ensures var c' := Swept(c, expired, rest);
            && Valid(c') && Shrinks(c, c') && AllEnded(c, c', expired)
            && (forall id :: id in c'.ops && c'.ops[id].fd >= 0 ==>
                c'.ops[id].deadline.Some? && c'.ops[id].deadline.value > now)
  {
    ExpiredKnown(c, now, expired, rest);
    SweptSound(c, now, expired, rest);
    hide Swept, Sound, Shrinks, Collected;
    var c' := Swept(c, expired, rest);
    forall id | id in c'.ops && c'.ops[id].fd >= 0
        ensures c'.ops[id].deadline.Some? && c'.ops[id].deadline.value > now {
      OpCoherent(c', id, {});
      SweptLate(c, now, expired, rest, id);
    }
  }

  lemma ExpiredKnown(c: Core, now: int, expired: seq<Id>, rest: multiset<(int, int)>)
    requires Collected(c, now, expired, rest)
    ensures forall id :: id in expired ==> id in c.ops
  {
    assert forall id :: id in expired ==> Overdue(c, now, id);
  }

  lemma SweptSound(c: Core, now: int, expired: seq<Id>, rest: multiset<(int, int)>)
    requires Valid(c) && Collected(c, now, expired, rest) && forall id :: id in expired ==> id in c.ops
    ensures var c' := Swept(c, expired, rest); Valid(c') && Shrinks(c, c') && AllEnded(c, c', expired)
  {
    var c1, skip := c.(deadlines := rest), set id | id in expired;
    RestExact(c, now, expired, rest);
    hide Sound, Shrinks, Collected;
    ExpireAllGood(c1, expired, skip);
    SkipNothing(Swept(c, expired, rest), skip);
    SameOps(c1, c, Swept(c, expired, rest));
  }

  lemma SameOps(c1: Core, c: Core, c': Core)
    requires Shrinks(c1, c') && c1.ops == c.ops && c1.live == c.live
    ensures Shrinks(c, c')
  {
  }

  lemma SweptLate(c: Core, now: int, expired: seq<Id>, rest: multiset<(int, int)>, id: Id)
    requires Sound(c, {}) && Collected(c, now, expired, rest)
    requires forall i :: i in expired ==> i in c.ops
    requires AllEnded(c, Swept(c, expired, rest), expired) && id in c.ops && Swept(c, expired, rest).ops[id].fd >= 0
    requires Coherent(Swept(c, expired, rest).ops[id])
    ensures Swept(c, expired, rest).ops[id].deadline.Some? && Swept(c, expired, rest).ops[id].deadline.value > now
  {
    hide ExpireAll, DeadlinesExact, NoLeaks;
    assert id !in expired;
    assert !Overdue(c, now, id);
  }

  // ---- what is received ------------------------------------------------------------------

  /** The bytes that the peer's answers deliver before one that stops the reading. */
  function Delivered(tls: bool, recvs: seq<RecvAnswer>): seq<byte> {
    if recvs == [] then []
    else if recvs[0].Data? && recvs[0].bytes != [] then recvs[0].bytes + Delivered(tls, recvs[1..])
    else if recvs[0].RecvInterrupted? && !tls then Delivered(tls, recvs[1..])
    else []
  }

  function Upto(s: seq<byte>, n: nat): seq<byte> {
    if |s| <= n then s else s[..n]
  }

  lemma FinishKeepsBytes(c: Core, id: Id, r: Result, wantWrite: bool, ok: bool)
    requires id in c.ops
    ensures id in Finish(c, id, r).ops && Finish(c, id, r).ops[id].recv == c.ops[id].recv
    ensures id in Arm(c, id, wantWrite, ok).ops && Arm(c, id, wantWrite, ok).ops[id].recv == c.ops[id].recv
  {
  }

  lemma StoreBytes(c: Core, id: Id, bytes: seq<byte>, due: int)
    requires id in c.ops
    ensures var op := Store(c, id, bytes, due).ops[id];
            op.recv == c.ops[id].recv + bytes && op.tls == c.ops[id].tls && op.maxResponse == c.ops[id].maxResponse
  {
  }

  lemma UptoFits(a: seq<byte>, b: seq<byte>, rest: seq<byte>, n: nat)
    requires |a| <= n
    ensures Upto(a + b[..Min(|b|, n - |a|)] + rest, n) == Upto(a + (b + rest), n)
  {
    var cut := b[..Min(|b|, n - |a|)];
    if |b| <= n - |a| {
      assert a + cut + rest == a + (b + rest);
    } else {
      assert (a + cut + rest)[..n] == a + cut == (a + (b + rest))[..n];
    }
  }

  /** A reading step stores exactly the delivered bytes, in order, up to the cap. */
  lemma {:induction false} ReceivedBytes(c: Core, id: Id, recvs: seq<RecvAnswer>, k: Kernel)
    requires id in c.ops && |c.ops[id].recv| <= Cap(c.ops[id])
    requires forall i :: 0 <= i < |recvs| && recvs[i].Data? ==> |recvs[i].bytes| <= CHUNK
    ensures var op, c' := c.ops[id], Recv(c, id, recvs, k);
            id in c'.ops && c'.ops[id].recv == Upto(op.recv + Delivered(op.tls, recvs), Cap(op))
    decreases |recvs|
  {
    hide Finish, Arm, Store;
    var op := c.ops[id];
    FinishKeepsBytes(c, id, Success, false, k.armOk);
    FinishKeepsBytes(c, id, TimedOut, true, k.armOk);
    if |op.recv| >= Cap(op) || recvs == [] {
    } else if recvs[0].Data? && recvs[0].bytes != [] {
      var bytes := recvs[0].bytes;
      var cut := bytes[..Min(|bytes|, Min(CHUNK, Cap(op) - |op.recv|))];
      assert cut == bytes[..Min(|bytes|, Cap(op) - |op.recv|)];
      StoreBytes(c, id, cut, k.idleDue);
      ReceivedBytes(Store(c, id, cut, k.idleDue), id, recvs[1..], k);
      UptoFits(op.recv, bytes, Delivered(op.tls, recvs[1..]), Cap(op));
    } else if recvs[0].RecvInterrupted? && !op.tls {
      ReceivedBytes(c, id, recvs[1..], k);
    }
  }
}
