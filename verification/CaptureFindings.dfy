/** Which packets a capture reports, with addresses, ports, flags and numbers written out. */
module CaptureFindings {
  import opened Wrappers
  import F = FlowTable
  import D = DedupCache
  import opened NetCapture
  import opened CaptureHistory

  // ---- packets ---------------------------------------------------------------------------

  /** The two paths join the same endpoints in opposite directions. */
  ghost predicate Opposite(a: F.Flow, b: F.Flow) {
    && a.version == b.version
    && a.initiatorIp == b.responderIp && a.initiatorPort == b.responderPort
    && a.responderIp == b.initiatorIp && a.responderPort == b.initiatorPort
  }

  ghost predicate IsSyn(e: Event, flow: F.Flow) {
    IsSegment(e) && e.packet.segment.syn && !e.packet.segment.ack && e.packet.segment.path == flow
  }

  ghost predicate IsSynAck(e: Event, flow: F.Flow) {
    IsSegment(e) && e.packet.segment.syn && e.packet.segment.ack && Opposite(e.packet.segment.path, flow)
  }

  ghost predicate IsReset(e: Event, flow: F.Flow) {
    IsSegment(e) && e.packet.segment.rst && !e.packet.segment.syn && Opposite(e.packet.segment.path, flow)
  }

  /** The acknowledgement number is the sequence number plus one, modulo 2^32. */
  ghost predicate Acknowledges(reply: Event, request: Event)
    requires IsSegment(reply) && IsSegment(request)
  {
    reply.packet.segment.ackNum == (request.packet.segment.seqNum + 1) % 0x1_0000_0000
  }

  ghost predicate ConcernsQuic(o: Options, e: Event) {
    && IsDatagram(e) && o.detectQuic
    && (e.packet.datagram.path.initiatorPort == o.quicPort || e.packet.datagram.path.responderPort == o.quicPort)
  }

  /** A datagram to the QUIC port whose first byte has its top bit set. */
  ghost predicate IsInitial(o: Options, e: Event, flow: F.Flow) {
    && ConcernsQuic(o, e) && e.packet.datagram.path == flow && flow.responderPort == o.quicPort
    && |e.packet.datagram.payload| >= 1 && e.packet.datagram.payload[0] >= 128
  }

  /** A datagram from the QUIC port to another port. */
  ghost predicate IsQuicReply(o: Options, e: Event, flow: F.Flow) {
    && ConcernsQuic(o, e) && Opposite(e.packet.datagram.path, flow)
    && e.packet.datagram.path.responderPort != o.quicPort
  }

  /** A datagram to or from the DNS port, with a whole header, that is not QUIC's. */
  ghost predicate ConcernsDns(o: Options, e: Event) {
    && IsDatagram(e) && !ConcernsQuic(o, e) && o.detectDns && |e.packet.datagram.payload| >= 12
    && (e.packet.datagram.path.initiatorPort == o.dnsPort || e.packet.datagram.path.responderPort == o.dnsPort)
  }

  ghost predicate IsQuery(o: Options, e: Event, flow: F.Flow) {
    && ConcernsDns(o, e) && e.packet.datagram.path == flow && flow.responderPort == o.dnsPort
    && e.packet.datagram.payload[2] < 128
  }

  ghost predicate IsResponse(o: Options, e: Event, flow: F.Flow) {
    && ConcernsDns(o, e) && Opposite(e.packet.datagram.path, flow)
    && e.packet.datagram.path.responderPort != o.dnsPort && e.packet.datagram.payload[2] >= 128
  }

  // ---- requests that wait ------------------------------------------------------------------

  /** A sweep that does not find the request too old. */
  ghost predicate Spares(o: Options, e: Event, request: Event) {
    e.Sweep? ==> e.now - request.now <= o.pendingTimeout
  }

  /** The i-th event is a SYN of the flow that no later event repeats, answers or finds too old. */
  ghost predicate SynWaits(o: Options, es: seq<Event>, i: nat, flow: F.Flow) {
    && i < |es| && IsSyn(es[i], flow)
    && forall j :: i < j < |es| ==>
         && !IsSyn(es[j], flow) && !(IsSynAck(es[j], flow) && Acknowledges(es[j], es[i]))
         && !(IsReset(es[j], flow) && o.reportClosed) && Spares(o, es[j], es[i])
  }

  ghost predicate InitialWaits(o: Options, es: seq<Event>, i: nat, flow: F.Flow) {
    && i < |es| && IsInitial(o, es[i], flow)
    && forall j :: i < j < |es| ==>
         !IsInitial(o, es[j], flow) && !IsQuicReply(o, es[j], flow) && Spares(o, es[j], es[i])
  }

  ghost predicate QueryWaits(o: Options, es: seq<Event>, i: nat, flow: F.Flow) {
    && i < |es| && IsQuery(o, es[i], flow)
    && forall j :: i < j < |es| ==>
         !IsQuery(o, es[j], flow) && !IsResponse(o, es[j], flow) && Spares(o, es[j], es[i])
  }

  lemma TcpLeaves(o: Options, request: Event, e: Event, flow: F.Flow)
    requires IsSyn(request, flow)
    ensures OpOf(o, D.Tcp, request) == F.Open(flow, request.packet.segment.seqNum, request.now)
    ensures F.Leaves(OpOf(o, D.Tcp, request), OpOf(o, D.Tcp, e), o.pendingTimeout) <==>
            && !IsSyn(e, flow) && !(IsSynAck(e, flow) && Acknowledges(e, request))
            && !(IsReset(e, flow) && o.reportClosed) && Spares(o, e, request)
  {
  }

  lemma SynWaitsIff(o: Options, es: seq<Event>, i: nat, flow: F.Flow)
    ensures SynWaits(o, es, i, flow) <==> F.Waits(Ops(o, D.Tcp, es), i, flow, o.pendingTimeout)
  {
    hide F.Leaves, OpOf;
    var ops := Ops(o, D.Tcp, es);
    if i < |es| {
      TcpOpens(o, es[i], flow);
      if IsSyn(es[i], flow) {
        forall j | i < j < |es| ensures F.Leaves(ops[i], ops[j], o.pendingTimeout) <==>
            && !IsSyn(es[j], flow) && !(IsSynAck(es[j], flow) && Acknowledges(es[j], es[i]))
            && !(IsReset(es[j], flow) && o.reportClosed) && Spares(o, es[j], es[i]) {
          TcpLeaves(o, es[i], es[j], flow);
        }
      }
    }
  }

  lemma TcpOpens(o: Options, e: Event, flow: F.Flow)
    ensures var op := OpOf(o, D.Tcp, e); op.Open? && op.flow == flow <==> IsSyn(e, flow)
  {
  }

  lemma QuicLeaves(o: Options, request: Event, e: Event, flow: F.Flow)
    requires IsInitial(o, request, flow)
    ensures OpOf(o, D.Quic, request) == F.Open(flow, 0, request.now)
    ensures F.Leaves(OpOf(o, D.Quic, request), OpOf(o, D.Quic, e), o.pendingTimeout) <==>
            !IsInitial(o, e, flow) && !IsQuicReply(o, e, flow) && Spares(o, e, request)
  {
  }

  lemma QuicOpens(o: Options, e: Event, flow: F.Flow)
    ensures var op := OpOf(o, D.Quic, e); op.Open? && op.flow == flow <==> IsInitial(o, e, flow)
  {
  }

  lemma InitialWaitsIff(o: Options, es: seq<Event>, i: nat, flow: F.Flow)
    ensures InitialWaits(o, es, i, flow) <==> F.Waits(Ops(o, D.Quic, es), i, flow, o.pendingTimeout)
  {
    hide F.Leaves, OpOf;
    var ops := Ops(o, D.Quic, es);
    if i < |es| {
      QuicOpens(o, es[i], flow);
      if IsInitial(o, es[i], flow) {
        forall j | i < j < |es| ensures F.Leaves(ops[i], ops[j], o.pendingTimeout) <==>
            !IsInitial(o, es[j], flow) && !IsQuicReply(o, es[j], flow) && Spares(o, es[j], es[i]) {
          QuicLeaves(o, es[i], es[j], flow);
        }
      }
    }
  }

  lemma DnsLeaves(o: Options, request: Event, e: Event, flow: F.Flow)
    requires IsQuery(o, request, flow)
    ensures OpOf(o, D.Dns, request) == F.Open(flow, 0, request.now)
    ensures F.Leaves(OpOf(o, D.Dns, request), OpOf(o, D.Dns, e), o.pendingTimeout) <==>
            !IsQuery(o, e, flow) && !IsResponse(o, e, flow) && Spares(o, e, request)
  {
  }

  lemma DnsOpens(o: Options, e: Event, flow: F.Flow)
    ensures var op := OpOf(o, D.Dns, e); op.Open? && op.flow == flow <==> IsQuery(o, e, flow)
  {
  }

  lemma QueryWaitsIff(o: Options, es: seq<Event>, i: nat, flow: F.Flow)
    ensures QueryWaits(o, es, i, flow) <==> F.Waits(Ops(o, D.Dns, es), i, flow, o.pendingTimeout)
  {
    hide F.Leaves, OpOf;
    var ops := Ops(o, D.Dns, es);
    if i < |es| {
      DnsOpens(o, es[i], flow);
      if IsQuery(o, es[i], flow) {
        forall j | i < j < |es| ensures F.Leaves(ops[i], ops[j], o.pendingTimeout) <==>
            !IsQuery(o, es[j], flow) && !IsResponse(o, es[j], flow) && Spares(o, es[j], es[i]) {
          DnsLeaves(o, es[i], es[j], flow);
        }
      }
    }
  }

  // ---- what becomes of a finding -------------------------------------------------------------

  /** The event adds this finding, or is counted as a repetition of it. */
  ghost predicate Reported(o: Options, es: seq<Event>, e: Event, key: D.Key) {
    var v, v' := Run(o, es), Run(o, es + [e]);
    || (v'.findings == v.findings + [Finding(key, e.now)]
        && v'.stats.duplicatesSuppressed == v.stats.duplicatesSuppressed)
    || (v'.findings == v.findings && o.dedupWindow > 0
        && v'.stats.duplicatesSuppressed == v.stats.duplicatesSuppressed + 1)
  }

  /** The event adds nothing to the findings and is no repetition. */
  ghost predicate Silent(o: Options, es: seq<Event>, e: Event) {
    var v, v' := Run(o, es), Run(o, es + [e]);
    v'.findings == v.findings && v'.stats.duplicatesSuppressed == v.stats.duplicatesSuppressed
  }

  lemma SightedOutcome(o: Options, v: State, key: Option<D.Key>, now: int, later: int)
    ensures var v' := Sighted(o, v, key, now, later);
            && (key.None? ==> v'.findings == v.findings
                              && v'.stats.duplicatesSuppressed == v.stats.duplicatesSuppressed)
            && (key.Some? ==>
                  || (v'.findings == v.findings + [Finding(key.value, now)]
                      && v'.stats.duplicatesSuppressed == v.stats.duplicatesSuppressed)
                  || (v'.findings == v.findings && o.dedupWindow > 0
                      && v'.stats.duplicatesSuppressed == v.stats.duplicatesSuppressed + 1))
  {
  }

  lemma KeyDecides(o: Options, es: seq<Event>, e: Event)
    ensures var key := KeyOf(o, es, e);
            if key.Some? then Reported(o, es, e, key.value) else Silent(o, es, e)
  {
    hide Run, F.Apply, F.Unexpired, KeyOf, D.Cleaned, TcpKey, UdpKey, TcpOp, QuicOp, DnsOp, Sighted;
    RunEvent(o, es, e);
    var v := Run(o, es);
    if e.Sweep? {
      SweepHasNoKey(o, es, e);
    } else {
      KeyFromTables(o, es, e);
      match e.packet
      case TcpPacket(s) =>
        var (t, hit) := F.Apply(v.pending, TcpOp(o, s, e.now), o.pendingTimeout);
        CountTcpKeeps(o, v.stats, s, hit);
        hide CountTcp;
        SightedOutcome(o, v.(pending := t, stats := CountTcp(o, v.stats, s, hit)), TcpKey(o, s, hit), e.now, e.later);
      case UdpPacket(d) =>
        var (q, quicHit) := F.Apply(v.pendingQuic, QuicOp(o, d, e.now), o.pendingTimeout);
        var (n, dnsHit) := F.Apply(v.pendingDns, DnsOp(o, d, e.now), o.pendingTimeout);
        var st := CountDns(CountQuic(v.stats, QuicOp(o, d, e.now), quicHit), DnsOp(o, d, e.now), dnsHit);
        var v1 := v.(pendingQuic := q, pendingDns := n, stats := st);
        SightedOutcome(o, v1, UdpKey(d, quicHit, dnsHit), e.now, e.later);
    }
  }

  // ---- handshakes ----------------------------------------------------------------------------

  /** A SYN of the flow waits, and `e` acknowledges its sequence number. */
  ghost predicate AcknowledgesWaiting(o: Options, es: seq<Event>, e: Event, flow: F.Flow)
    requires IsSegment(e)
  {
    exists i: nat :: SynWaits(o, es, i, flow) && Acknowledges(e, es[i])
  }

  lemma SynWaitsLife(o: Options, es: seq<Event>, i: nat, flow: F.Flow)
    requires SynWaits(o, es, i, flow)
    ensures F.Alive(Ops(o, D.Tcp, es), flow, o.pendingTimeout) == F.Live(es[i].packet.segment.seqNum, es[i].now)
  {
    hide F.Alive, F.Waits;
    SynWaitsIff(o, es, i, flow);
    F.WaitsIsLive(Ops(o, D.Tcp, es), i, flow, o.pendingTimeout);
    assert Ops(o, D.Tcp, es)[i] == OpOf(o, D.Tcp, es[i]);
  }

  lemma SynAckKey(o: Options, es: seq<Event>, e: Event, flow: F.Flow)
    requires IsSynAck(e, flow)
    ensures var l := F.Alive(Ops(o, D.Tcp, es), flow, o.pendingTimeout);
            KeyOf(o, es, e) ==
            if l.Live? && e.packet.segment.ackNum == (l.token + 1) % 0x1_0000_0000
            then Some(D.Key(D.Tcp, flow, D.PortOpen)) else None
  {
    hide F.Alive, Ops;
    assert Reverse(e.packet.segment.path) == flow;
  }

  lemma LiveSyn(o: Options, es: seq<Event>, flow: F.Flow) returns (i: nat)
    requires F.Alive(Ops(o, D.Tcp, es), flow, o.pendingTimeout).Live?
    ensures SynWaits(o, es, i, flow)
  {
    hide F.Alive, F.Waits, SynWaits;
    F.LiveIff(Ops(o, D.Tcp, es), flow, o.pendingTimeout);
    i :| F.Waits(Ops(o, D.Tcp, es), i, flow, o.pendingTimeout);
    SynWaitsIff(o, es, i, flow);
  }

  /** A SYN-ACK is reported exactly when it acknowledges a SYN of its flow that still waits. */
  lemma SynAckReportedIff(o: Options, es: seq<Event>, e: Event, flow: F.Flow)
    requires IsSynAck(e, flow)
    ensures if AcknowledgesWaiting(o, es, e, flow)
            then Reported(o, es, e, D.Key(D.Tcp, flow, D.PortOpen)) else Silent(o, es, e)
  {
    hide Reported, Silent, F.Alive, Ops, KeyOf;
    KeyDecides(o, es, e);
    SynAckKey(o, es, e, flow);
    if AcknowledgesWaiting(o, es, e, flow) {
      var i: nat :| SynWaits(o, es, i, flow) && Acknowledges(e, es[i]);
      SynWaitsLife(o, es, i, flow);
    } else if F.Alive(Ops(o, D.Tcp, es), flow, o.pendingTimeout).Live? {
      var i := LiveSyn(o, es, flow);
      SynWaitsLife(o, es, i, flow);
    }
  }

  lemma ResetKey(o: Options, es: seq<Event>, e: Event, flow: F.Flow)
    requires IsReset(e, flow)
    ensures KeyOf(o, es, e) ==
            if o.reportClosed && F.Alive(Ops(o, D.Tcp, es), flow, o.pendingTimeout).Live?
            then Some(D.Key(D.Tcp, flow, D.PortClosed)) else None
  {
    hide F.Alive, Ops;
    assert Reverse(e.packet.segment.path) == flow;
  }

  /** A reset is reported exactly when closed ports are asked for and a SYN of its flow waits. */
  lemma ResetReportedIff(o: Options, es: seq<Event>, e: Event, flow: F.Flow)
    requires IsReset(e, flow)
    ensures if o.reportClosed && exists i: nat :: SynWaits(o, es, i, flow)
            then Reported(o, es, e, D.Key(D.Tcp, flow, D.PortClosed)) else Silent(o, es, e)
  {
    hide Reported, Silent, F.Alive, Ops, KeyOf, SynWaits;
    KeyDecides(o, es, e);
    ResetKey(o, es, e, flow);
    if i: nat :| SynWaits(o, es, i, flow) {
      SynWaitsLife(o, es, i, flow);
    } else if F.Alive(Ops(o, D.Tcp, es), flow, o.pendingTimeout).Live? {
      var i := LiveSyn(o, es, flow);
    }
  }

  // ---- QUIC and DNS ----------------------------------------------------------------------------

  lemma QuicLifeIff(o: Options, es: seq<Event>, flow: F.Flow)
    ensures F.Alive(Ops(o, D.Quic, es), flow, o.pendingTimeout).Live? <==>
            exists i: nat :: InitialWaits(o, es, i, flow)
  {
    hide F.Alive, F.Waits, InitialWaits, Ops;
    var ops := Ops(o, D.Quic, es);
    F.LiveIff(ops, flow, o.pendingTimeout);
    if i: nat :| F.Waits(ops, i, flow, o.pendingTimeout) {
      InitialWaitsIff(o, es, i, flow);
    }
    if i: nat :| InitialWaits(o, es, i, flow) {
      InitialWaitsIff(o, es, i, flow);
    }
  }

  lemma QuicKey(o: Options, es: seq<Event>, e: Event, flow: F.Flow)
    requires IsQuicReply(o, e, flow)
    ensures KeyOf(o, es, e) == if F.Alive(Ops(o, D.Quic, es), flow, o.pendingTimeout).Live?
                               then Some(D.Key(D.Quic, flow, D.PortOpen)) else None
  {
    hide F.Alive, Ops;
    assert Reverse(e.packet.datagram.path) == flow;
  }

  /** A datagram from the QUIC port is reported exactly when an initial packet of its flow waits. */
  lemma QuicReportedIff(o: Options, es: seq<Event>, e: Event, flow: F.Flow)
    requires IsQuicReply(o, e, flow)
    ensures if exists i: nat :: InitialWaits(o, es, i, flow)
            then Reported(o, es, e, D.Key(D.Quic, flow, D.PortOpen)) else Silent(o, es, e)
  {
    hide Reported, Silent, F.Alive, Ops, KeyOf, InitialWaits;
    KeyDecides(o, es, e);
    QuicKey(o, es, e, flow);
    QuicLifeIff(o, es, flow);
  }

  lemma DnsLifeIff(o: Options, es: seq<Event>, flow: F.Flow)
    ensures F.Alive(Ops(o, D.Dns, es), flow, o.pendingTimeout).Live? <==> exists i: nat :: QueryWaits(o, es, i, flow)
  {
    hide F.Alive, F.Waits, QueryWaits, Ops;
    var ops := Ops(o, D.Dns, es);
    F.LiveIff(ops, flow, o.pendingTimeout);
    if i: nat :| F.Waits(ops, i, flow, o.pendingTimeout) {
      QueryWaitsIff(o, es, i, flow);
    }
    if i: nat :| QueryWaits(o, es, i, flow) {
      QueryWaitsIff(o, es, i, flow);
    }
  }

  lemma DnsKey(o: Options, es: seq<Event>, e: Event, flow: F.Flow)
    requires IsResponse(o, e, flow)
    ensures KeyOf(o, es, e) == if F.Alive(Ops(o, D.Dns, es), flow, o.pendingTimeout).Live?
                               then Some(D.Key(D.Dns, flow, D.PortOpen)) else None
  {
    hide F.Alive, Ops;
    assert Reverse(e.packet.datagram.path) == flow;
  }

  /** A DNS response is reported exactly when a query of its flow waits. */
  lemma DnsReportedIff(o: Options, es: seq<Event>, e: Event, flow: F.Flow)
    requires IsResponse(o, e, flow)
    ensures if exists i: nat :: QueryWaits(o, es, i, flow)
            then Reported(o, es, e, D.Key(D.Dns, flow, D.PortOpen)) else Silent(o, es, e)
  {
    hide Reported, Silent, F.Alive, Ops, KeyOf, QueryWaits;
    KeyDecides(o, es, e);
    DnsKey(o, es, e, flow);
    DnsLifeIff(o, es, flow);
  }

  // ---- mid-session segments ----------------------------------------------------------------------

  /** A segment of a session whose handshake is over: acknowledging or pushing, no SYN, no reset. */
  ghost predicate IsMidSession(e: Event) {
    IsSegment(e) && !e.packet.segment.syn && !e.packet.segment.rst && (e.packet.segment.ack || e.packet.segment.psh)
  }

  ghost predicate RespondsTo(flow: F.Flow, ip: string, port: nat, otherIp: string, otherPort: nat) {
    && flow.responderIp == ip && flow.responderPort == port
    && flow.initiatorIp == otherIp && flow.initiatorPort == otherPort
  }

  /** The flow has the endpoints of the path. The responder is the one with a port below 1024 if
      the other's is not, else the one with the smaller port, else the receiver. */
  ghost predicate ResponderOf(path: F.Flow, flow: F.Flow) {
    var sender, receiver := path.initiatorPort, path.responderPort;
    var senderResponds := RespondsTo(flow, path.initiatorIp, sender, path.responderIp, receiver);
    var receiverResponds := RespondsTo(flow, path.responderIp, receiver, path.initiatorIp, sender);
    && flow.version == path.version
    && (sender < 1024 <= receiver ==> senderResponds)
    && (receiver < 1024 <= sender ==> receiverResponds)
    && ((sender < 1024 <==> receiver < 1024) && sender < receiver ==> senderResponds)
    && ((sender < 1024 <==> receiver < 1024) && receiver < sender ==> receiverResponds)
    && (sender == receiver ==> receiverResponds)
  }

  /** Every mid-session segment reports its responder's port as open, if that is asked for. */
  lemma MidSessionReported(o: Options, es: seq<Event>, e: Event) returns (flow: F.Flow)
    requires IsMidSession(e)
    ensures ResponderOf(e.packet.segment.path, flow)
    ensures if o.detectEstablished then Reported(o, es, e, D.Key(D.Tcp, flow, D.PortOpen)) else Silent(o, es, e)
  {
    hide Reported, Silent;
    KeyDecides(o, es, e);
    flow := GuessFlow(e.packet.segment.path);
  }

  /** Every other packet is silent: requests, and what is neither a request nor a reply. */
  lemma OthersSilent(o: Options, es: seq<Event>, e: Event)
    requires e.Sweep? || (IsSegment(e) && !e.packet.segment.syn && !e.packet.segment.rst && !IsMidSession(e))
          || (exists flow :: IsSyn(e, flow))
          || (IsDatagram(e) && forall flow :: !IsQuicReply(o, e, flow) && !IsResponse(o, e, flow))
    ensures Silent(o, es, e)
  {
    hide Reported, Silent, F.Alive, Ops;
    KeyDecides(o, es, e);
    if IsDatagram(e) {
      var path := Reverse(e.packet.datagram.path);
      assert !IsQuicReply(o, e, path) && !IsResponse(o, e, path);
    }
  }

  /** Whether a finding is added or counted as a repetition: repeated is what an earlier packet
      amounted to within the window. */
  lemma ReportedUnlessRecent(o: Options, es: seq<Event>, e: Event, key: D.Key)
    requires Chronological(es + [e]) && KeyOf(o, es, e) == Some(key)
    ensures Run(o, es + [e]).findings
         == Run(o, es).findings + if RecentlySighted(o, es, key, e.later) then [] else [Finding(key, e.now)]
  {
    hide Run, KeyOf, RecentlySighted;
    var es' := es + [e];
    assert es'[..|es'| - 1] == es;
    assert Chronological(es) by {
      assert forall i :: 0 <= i < |es| ==> es[i] == es'[i];
    }
    RunReports(o, es);
    RunReports(o, es');
    if e.Sweep? {
      SweepHasNoKey(o, es, e);
    }
  }

  // ---- the counters ----------------------------------------------------------------------------

  datatype Counter =
    | SynSeen | SynAckSeen | ResetSeen | MatchedOpen | MatchedClosed
    | AckSeen | FinAckSeen | PushAckSeen | PushSeen | Established
    | InitialSeen | QuicMatched | QuerySeen | DnsMatched

  function Value(k: Counter, st: Stats): nat {
    match k
    case SynSeen => st.synSeen
    case SynAckSeen => st.synackSeen
    case ResetSeen => st.rstSeen
    case MatchedOpen => st.matchedOpen
    case MatchedClosed => st.matchedClosed
    case AckSeen => st.ackSeen
    case FinAckSeen => st.finackSeen
    case PushAckSeen => st.pshackSeen
    case PushSeen => st.pshSeen
    case Established => st.matchedOpenEstablished
    case InitialSeen => st.quicInitialSeen
    case QuicMatched => st.quicMatchedOpen
    case QuerySeen => st.dnsQuerySeen
    case DnsMatched => st.dnsMatchedOpen
  }

  /** The events that a counter counts. */
  ghost predicate Counted(k: Counter, o: Options, es: seq<Event>, e: Event) {
    var key := KeyOf(o, es, e);
    var mid := IsMidSession(e) && o.detectEstablished;
    match k
    case SynSeen => IsSegment(e) && e.packet.segment.syn && !e.packet.segment.ack
    case SynAckSeen => IsSegment(e) && e.packet.segment.syn && e.packet.segment.ack
    case ResetSeen => IsSegment(e) && e.packet.segment.rst && !e.packet.segment.syn
    case MatchedOpen => IsSegment(e) && e.packet.segment.syn && e.packet.segment.ack && key.Some?
    case MatchedClosed => IsSegment(e) && e.packet.segment.rst && !e.packet.segment.syn && key.Some?
    case AckSeen => mid && e.packet.segment.ack && !e.packet.segment.psh && !e.packet.segment.fin
    case FinAckSeen => mid && e.packet.segment.fin && e.packet.segment.ack
    case PushAckSeen => mid && e.packet.segment.psh && e.packet.segment.ack
    case PushSeen => mid && e.packet.segment.psh && !e.packet.segment.ack
    case Established => mid
    case InitialSeen => IsDatagram(e) && IsInitial(o, e, e.packet.datagram.path)
    case QuicMatched => IsDatagram(e) && key.Some? && key.value.proto == D.Quic
    case QuerySeen => IsDatagram(e) && IsQuery(o, e, e.packet.datagram.path)
    case DnsMatched => IsDatagram(e) && key.Some? && key.value.proto == D.Dns
  }

  ghost function Tally(k: Counter, o: Options, es: seq<Event>): nat {
    if es == [] then 0
    else
      var before := es[..|es| - 1];
      Tally(k, o, before) + if Counted(k, o, before, es[|es| - 1]) then 1 else 0
  }

  lemma SightedKeepsCounters(k: Counter, o: Options, v: State, key: Option<D.Key>, now: int, later: int)
    ensures Value(k, Sighted(o, v, key, now, later).stats) == Value(k, v.stats)
  {
    hide D.Marked;
  }

  lemma TcpCounted(k: Counter, o: Options, es: seq<Event>, e: Event, s: Segment, hit: bool, st: Stats)
    requires IsSegment(e) && e.packet.segment == s && KeyOf(o, es, e) == TcpKey(o, s, hit)
    requires hit ==> TcpOp(o, s, e.now).Close?
    ensures Value(k, CountTcp(o, st, s, hit)) == Value(k, st) + if Counted(k, o, es, e) then 1 else 0
  {
    hide KeyOf, GuessFlow, Reverse;
  }

  lemma UdpCounted(k: Counter, o: Options, es: seq<Event>, e: Event, quicHit: bool, dnsHit: bool, st: Stats)
    requires IsDatagram(e) && KeyOf(o, es, e) == UdpKey(e.packet.datagram, quicHit, dnsHit)
    requires quicHit ==> QuicOp(o, e.packet.datagram, e.now).Close?
    requires dnsHit ==> DnsOp(o, e.packet.datagram, e.now).Close?
    ensures var d := e.packet.datagram;
            Value(k, CountDns(CountQuic(st, QuicOp(o, d, e.now), quicHit), DnsOp(o, d, e.now), dnsHit))
            == Value(k, st) + if Counted(k, o, es, e) then 1 else 0
  {
    hide KeyOf, Reverse;
  }

  lemma StepCounted(k: Counter, o: Options, es: seq<Event>, e: Event)
    ensures Value(k, Run(o, es + [e]).stats) == Value(k, Run(o, es).stats) + if Counted(k, o, es, e) then 1 else 0
  {
    hide Run, F.Remember, F.Take, F.Unexpired, KeyOf, D.Cleaned, TcpKey, UdpKey, TcpOp, QuicOp, DnsOp, Sighted, Value,
        CountTcp, CountQuic, CountDns, Counted;
    RunEvent(o, es, e);
    var v := Run(o, es);
    if e.Sweep? {
      SweepCounted(k, o, es, e);
    } else {
      KeyFromTables(o, es, e);
      match e.packet
      case TcpPacket(s) =>
        var (t, hit) := F.Apply(v.pending, TcpOp(o, s, e.now), o.pendingTimeout);
        TcpCounted(k, o, es, e, s, hit, v.stats);
        var v1 := v.(pending := t, stats := CountTcp(o, v.stats, s, hit));
        SightedKeepsCounters(k, o, v1, TcpKey(o, s, hit), e.now, e.later);
      case UdpPacket(d) =>
        var (q, quicHit) := F.Apply(v.pendingQuic, QuicOp(o, d, e.now), o.pendingTimeout);
        var (n, dnsHit) := F.Apply(v.pendingDns, DnsOp(o, d, e.now), o.pendingTimeout);
        UdpCounted(k, o, es, e, quicHit, dnsHit, v.stats);
        var st := CountDns(CountQuic(v.stats, QuicOp(o, d, e.now), quicHit), DnsOp(o, d, e.now), dnsHit);
        var v1 := v.(pendingQuic := q, pendingDns := n, stats := st);
        SightedKeepsCounters(k, o, v1, UdpKey(d, quicHit, dnsHit), e.now, e.later);
    }
  }

  lemma SweepCounted(k: Counter, o: Options, es: seq<Event>, e: Event)
    requires e.Sweep?
    ensures Value(k, SweepNext(o, Run(o, es), e.now).stats) == Value(k, Run(o, es).stats)
    ensures !Counted(k, o, es, e)
  {
    hide Run, F.Unexpired, D.Cleaned, KeyOf;
  }

  /** Every counter is the number of the events it is named for. */
  lemma {:induction false} CountersAreTallies(k: Counter, o: Options, es: seq<Event>)
    ensures Value(k, Run(o, es).stats) == Tally(k, o, es)
  {
    hide Run, Counted, Value;
    if es == [] {
      NothingCounted(k, o);
    } else {
      var before, e := es[..|es| - 1], es[|es| - 1];
      assert before + [e] == es;
      CountersAreTallies(k, o, before);
      StepCounted(k, o, before, e);
    }
  }

  lemma NothingCounted(k: Counter, o: Options)
    ensures Value(k, Run(o, []).stats) == 0
  {
  }

  // ---- the loop ----------------------------------------------------------------------------------

  /** The packets of a history. */
  function Packets(es: seq<Event>): seq<Event> {
    if es == [] then []
    else Packets(es[..|es| - 1]) + if es[|es| - 1].PacketSeen? then [es[|es| - 1]] else []
  }

  /** The packets that the turns received, with the clock readings of their turns. */
  function Received(turns: seq<Turn>): seq<Event> {
    if turns == [] then []
    else
      var turn := turns[|turns| - 1];
      Received(turns[..|turns| - 1])
      + if turn.packet.Some? then [PacketSeen(turn.packet.value, turn.now, turn.later)] else []
  }

  lemma PacketsSnoc(es: seq<Event>, e: Event)
    ensures Packets(es + [e]) == Packets(es) + if e.PacketSeen? then [e] else []
  {
    assert (es + [e])[..|es|] == es;
  }

  lemma {:induction false} TracePackets(o: Options, turns: seq<Turn>, start: int)
    ensures Packets(Trace(o, turns, start).1) == Received(turns)
  {
    hide Packets;
    if turns == [] {
      NoPackets();
    } else {
      var (lastSweep, es) := Trace(o, turns[..|turns| - 1], start);
      var turn := turns[|turns| - 1];
      TracePackets(o, turns[..|turns| - 1], start);
      var seen := if turn.packet.Some? then [PacketSeen(turn.packet.value, turn.now, turn.later)] else [];
      var es' := es + seen;
      if seen != [] {
        PacketsSnoc(es, seen[0]);
      } else {
        assert es + [] == es;
      }
      if SweepDue(o, turn, lastSweep) {
        PacketsSnoc(es', Sweep(turn.sweptAt));
        assert es + TurnEvents(o, turn, lastSweep) == es' + [Sweep(turn.sweptAt)];
      } else {
        assert es + TurnEvents(o, turn, lastSweep) == es';
      }
    }
  }

  lemma NoPackets()
    ensures Packets([]) == []
  {
  }
}
