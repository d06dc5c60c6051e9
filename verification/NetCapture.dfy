/** The passive correlator: requests wait in three pending tables, replies turn them into
    findings, and a cache suppresses findings that repeat. */
module NetCapture {
  import opened Wrappers
  import F = FlowTable
  import D = DedupCache

  const DNS_HEADER_LEN: nat := 12

  datatype Options = Options(
    pendingTimeout: int,
    sweepInterval: int,
    reportClosed: bool,
    quicPort: nat,
    detectQuic: bool,
    dnsPort: nat,
    detectDns: bool,
    detectEstablished: bool,
    dedupWindow: int)

  type byte = x: nat | x < 256

  /** A decoded TCP header; `path` leads from the sender to the receiver. */
  datatype Segment = Segment(
    path: F.Flow, seqNum: F.word32, ackNum: F.word32,
    syn: bool, ack: bool, rst: bool, fin: bool, psh: bool)

  datatype Datagram = Datagram(path: F.Flow, payload: seq<byte>)

  datatype Packet = TcpPacket(segment: Segment) | UdpPacket(datagram: Datagram)

  datatype Finding = Finding(key: D.Key, observedAt: int)

  datatype Stats = Stats(
    synSeen: nat, synackSeen: nat, rstSeen: nat,
    matchedOpen: nat, matchedClosed: nat, pendingExpired: nat,
    ackSeen: nat, finackSeen: nat, pshackSeen: nat, pshSeen: nat, matchedOpenEstablished: nat,
    quicInitialSeen: nat, quicMatchedOpen: nat, quicPendingExpired: nat,
    dnsQuerySeen: nat, dnsMatchedOpen: nat, dnsPendingExpired: nat,
    duplicatesSuppressed: nat)

  // ---- what a packet means -----------------------------------------------------------------

  function Reverse(path: F.Flow): F.Flow {
    F.Flow(path.version, path.responderIp, path.responderPort, path.initiatorIp, path.initiatorPort)
  }

  /** The acknowledgement number of a bare SYN, in 32-bit arithmetic. */
  function Successor(seqNum: F.word32): F.word32 {
    (seqNum + 1) % 0x1_0000_0000
  }

  /** The one sequence number that an acknowledgement number answers. */
  function Acknowledged(ackNum: F.word32): (r: F.word32)
    ensures forall s: F.word32 :: s == r <==> ackNum == Successor(s)
  {
    if ackNum == 0 then 0xFFFF_FFFF else ackNum - 1
  }

  predicate LooksLikeResponderPort(candidate: nat, other: nat) {
    if (candidate < 1024) != (other < 1024) then candidate < 1024 else candidate < other
  }

  /** The flow that a mid-session segment is filed under. */
  function GuessFlow(path: F.Flow): F.Flow {
    if LooksLikeResponderPort(path.initiatorPort, path.responderPort) then Reverse(path) else path
  }

  /** Both directions of a session are filed under one flow, unless they use one port number
      between two different hosts. */
  lemma GuessFlowSymmetric(path: F.Flow)
    ensures GuessFlow(path) == GuessFlow(Reverse(path)) <==>
            path.initiatorPort != path.responderPort || path.initiatorIp == path.responderIp
  {
    var a, b := path.initiatorPort, path.responderPort;
    assert a != b ==> LooksLikeResponderPort(a, b) != LooksLikeResponderPort(b, a);
    assert Reverse(Reverse(path)) == path;
  }

  /** Two hosts that both use port 179: each direction of the session is a flow of its own. */
  lemma GuessFlowDiffers()
    ensures var path := F.Flow(F.V4, "10.0.0.1", 179, "10.0.0.2", 179); GuessFlow(path) != GuessFlow(Reverse(path))
  {
    var path := F.Flow(F.V4, "10.0.0.1", 179, "10.0.0.2", 179);
    assert path.initiatorIp[7] != path.responderIp[7];
    GuessFlowSymmetric(path);
  }

  function TcpOp(o: Options, s: Segment, now: int): F.Op {
    if s.syn && !s.ack then F.Open(s.path, s.seqNum, now)
    else if s.syn then F.Close(Reverse(s.path), Some(Acknowledged(s.ackNum)))
    else if s.rst && o.reportClosed then F.Close(Reverse(s.path), None)
    else F.Other
  }

  predicate IsQuic(o: Options, d: Datagram) {
    o.detectQuic && (d.path.initiatorPort == o.quicPort || d.path.responderPort == o.quicPort)
  }

  predicate IsDns(o: Options, d: Datagram) {
    !IsQuic(o, d) && o.detectDns && (d.path.initiatorPort == o.dnsPort || d.path.responderPort == o.dnsPort)
  }

  function QuicOp(o: Options, d: Datagram, now: int): F.Op {
    if !IsQuic(o, d) then F.Other
    else if d.path.responderPort != o.quicPort then F.Close(Reverse(d.path), None)
    else if |d.payload| >= 1 && d.payload[0] >= 0x80 then F.Open(d.path, 0, now)
    else F.Other
  }

  function DnsOp(o: Options, d: Datagram, now: int): F.Op {
    if !IsDns(o, d) || |d.payload| < DNS_HEADER_LEN then F.Other
    else if d.path.responderPort == o.dnsPort then
      if d.payload[2] >= 0x80 then F.Other else F.Open(d.path, 0, now)
    else if d.payload[2] >= 0x80 then F.Close(Reverse(d.path), None)
    else F.Other
  }

  /** What a segment reports, given whether it took an entry of the pending table. */
  function TcpKey(o: Options, s: Segment, hit: bool): Option<D.Key> {
    if s.syn then if hit then Some(D.Key(D.Tcp, Reverse(s.path), D.PortOpen)) else None
    else if s.rst then if hit then Some(D.Key(D.Tcp, Reverse(s.path), D.PortClosed)) else None
    else if o.detectEstablished && (s.ack || s.psh) then Some(D.Key(D.Tcp, GuessFlow(s.path), D.PortOpen))
    else None
  }

  function UdpKey(d: Datagram, quicHit: bool, dnsHit: bool): Option<D.Key> {
    if quicHit then Some(D.Key(D.Quic, Reverse(d.path), D.PortOpen))
    else if dnsHit then Some(D.Key(D.Dns, Reverse(d.path), D.PortOpen))
    else None
  }

  // ---- one step of the correlator -------------------------------------------------------------

  datatype State = State(
    pending: F.Table, pendingQuic: F.Table, pendingDns: F.Table,
    reported: D.Cache, stats: Stats, findings: seq<Finding>)

  function Start(): State {
    State([], [], [], [], Stats(0, 0, 0, 0, 0, 0, 0, 0, 0, 0, 0, 0, 0, 0, 0, 0, 0, 0), [])
  }

  /** A packet is read at `now`; if it is a finding, the cache is consulted at `later`. */
  datatype Event = PacketSeen(packet: Packet, now: int, later: int) | Sweep(now: int)

  function Sighted(o: Options, v: State, key: Option<D.Key>, now: int, later: int): State {
    if key.None? then v
    else
      var (c, duplicate) := D.Marked(v.reported, key.value, later, o.dedupWindow);
      if duplicate then v.(reported := c, stats := v.stats.(duplicatesSuppressed := v.stats.duplicatesSuppressed + 1))
      else v.(reported := c, findings := v.findings + [Finding(key.value, now)])
  }

  function CountTcp(o: Options, st: Stats, s: Segment, hit: bool): Stats {
    if s.syn && !s.ack then st.(synSeen := st.synSeen + 1)
    else if s.syn then st.(synackSeen := st.synackSeen + 1, matchedOpen := st.matchedOpen + F.Count(hit))
    else if s.rst then st.(rstSeen := st.rstSeen + 1, matchedClosed := st.matchedClosed + F.Count(hit))
    else if o.detectEstablished && (s.ack || s.psh) then
      st.(ackSeen := st.ackSeen + F.Count(s.ack && !s.psh && !s.fin),
          finackSeen := st.finackSeen + F.Count(s.fin && s.ack),
          pshackSeen := st.pshackSeen + F.Count(s.psh && s.ack),
          pshSeen := st.pshSeen + F.Count(s.psh && !s.ack),
          matchedOpenEstablished := st.matchedOpenEstablished + 1)
    else st
  }

  function CountQuic(st: Stats, op: F.Op, hit: bool): Stats {
    st.(quicInitialSeen := st.quicInitialSeen + F.Count(op.Open?), quicMatchedOpen := st.quicMatchedOpen + F.Count(hit))
  }

  function CountDns(st: Stats, op: F.Op, hit: bool): Stats {
    st.(dnsQuerySeen := st.dnsQuerySeen + F.Count(op.Open?), dnsMatchedOpen := st.dnsMatchedOpen + F.Count(hit))
  }

  function TcpNext(o: Options, v: State, s: Segment, now: int, later: int): State {
    var (t, hit) := F.Apply(v.pending, TcpOp(o, s, now), o.pendingTimeout);
    Sighted(o, v.(pending := t, stats := CountTcp(o, v.stats, s, hit)), TcpKey(o, s, hit), now, later)
  }

  function UdpNext(o: Options, v: State, d: Datagram, now: int, later: int): State {
    var (q, quicHit) := F.Apply(v.pendingQuic, QuicOp(o, d, now), o.pendingTimeout);
    var (n, dnsHit) := F.Apply(v.pendingDns, DnsOp(o, d, now), o.pendingTimeout);
    var st := CountDns(CountQuic(v.stats, QuicOp(o, d, now), quicHit), DnsOp(o, d, now), dnsHit);
    Sighted(o, v.(pendingQuic := q, pendingDns := n, stats := st), UdpKey(d, quicHit, dnsHit), now, later)
  }

  function SweepNext(o: Options, v: State, now: int): State {
    var t := F.Unexpired(v.pending, now, o.pendingTimeout);
    var q := F.Unexpired(v.pendingQuic, now, o.pendingTimeout);
    var n := F.Unexpired(v.pendingDns, now, o.pendingTimeout);
    F.UnexpiredShorter(v.pending, now, o.pendingTimeout);
    F.UnexpiredShorter(v.pendingQuic, now, o.pendingTimeout);
    F.UnexpiredShorter(v.pendingDns, now, o.pendingTimeout);
    var st := v.stats.(pendingExpired := v.stats.pendingExpired + (|v.pending| - |t|),
                       quicPendingExpired := v.stats.quicPendingExpired + (|v.pendingQuic| - |q|),
                       dnsPendingExpired := v.stats.dnsPendingExpired + (|v.pendingDns| - |n|));
    v.(pending := t, pendingQuic := q, pendingDns := n, stats := st,
        reported := D.Cleaned(v.reported, now, o.dedupWindow))
  }

  function Next(o: Options, v: State, e: Event): State {
    if e.Sweep? then SweepNext(o, v, e.now)
    else if e.packet.TcpPacket? then TcpNext(o, v, e.packet.segment, e.now, e.later)
    else UdpNext(o, v, e.packet.datagram, e.now, e.later)
  }

  function Run(o: Options, es: seq<Event>): State {
    if es == [] then Start() else Next(o, Run(o, es[..|es| - 1]), es[|es| - 1])
  }

  class Capture {
    const opts: Options
    var pending: F.Table
    var pendingQuic: F.Table
    var pendingDns: F.Table
    var reported: D.Cache
    var stats: Stats
    var findings: seq<Finding>

    ghost function Current(): State
      reads this
    {
      State(pending, pendingQuic, pendingDns, reported, stats, findings)
    }

    constructor (o: Options)
      ensures opts == o && Current() == Start()
    {
      opts := o;
      pending, pendingQuic, pendingDns, reported := [], [], [], [];
      stats, findings := Start().stats, [];
    }

    method DedupeAndMark(key: D.Key, later: int) returns (duplicate: bool)
      modifies this`reported, this`stats
      ensures (reported, duplicate) == D.Marked(old(reported), key, later, opts.dedupWindow)
      ensures stats == old(stats).(duplicatesSuppressed := old(stats).duplicatesSuppressed + F.Count(duplicate))
    {
      reported, duplicate := D.Mark(reported, key, later, opts.dedupWindow);
      if duplicate {
        stats := stats.(duplicatesSuppressed := stats.duplicatesSuppressed + 1);
      }
    }

    method Report(key: D.Key, now: int, later: int)
      modifies this
      ensures Current() == Sighted(opts, old(Current()), Some(key), now, later)
    {
      var duplicate := DedupeAndMark(key, later);
      if !duplicate {
        findings := findings + [Finding(key, now)];
      }
    }

    method HandleTcp(s: Segment, now: int, later: int)
      modifies this
      ensures Current() == TcpNext(opts, old(Current()), s, now, later)
    {
      if s.syn && !s.ack {
        stats := stats.(synSeen := stats.synSeen + 1);
        pending := F.RememberFlow(pending, s.path, s.seqNum, now);
        return;
      }
      var hit := false;
      if s.syn {
        stats := stats.(synackSeen := stats.synackSeen + 1);
        pending, hit := F.TakeFlow(pending, Reverse(s.path), Some(Acknowledged(s.ackNum)));
        if hit {
          stats := stats.(matchedOpen := stats.matchedOpen + 1);
          Report(D.Key(D.Tcp, Reverse(s.path), D.PortOpen), now, later);
        }
        return;
      }
      if s.rst {
        stats := stats.(rstSeen := stats.rstSeen + 1);
        if !opts.reportClosed {
          return;
        }
        pending, hit := F.TakeFlow(pending, Reverse(s.path), None);
        if hit {
          stats := stats.(matchedClosed := stats.matchedClosed + 1);
          Report(D.Key(D.Tcp, Reverse(s.path), D.PortClosed), now, later);
        }
        return;
      }
      HandleEstablished(s, now, later);
    }

    method HandleEstablished(s: Segment, now: int, later: int)
      requires !s.syn && !s.rst
      modifies this
      ensures Current() == TcpNext(opts, old(Current()), s, now, later)
    {
      if !opts.detectEstablished {
        return;
      }
      var bareAck, finAck := s.ack && !s.psh && !s.fin, s.fin && s.ack;
      var pshAck, barePsh := s.psh && s.ack, s.psh && !s.ack;
      if !(bareAck || finAck || pshAck || barePsh) {
        return;
      }
      stats := stats.(ackSeen := stats.ackSeen + F.Count(bareAck), finackSeen := stats.finackSeen + F.Count(finAck),
                      pshackSeen := stats.pshackSeen + F.Count(pshAck), pshSeen := stats.pshSeen + F.Count(barePsh));
      stats := stats.(matchedOpenEstablished := stats.matchedOpenEstablished + 1);
      Report(D.Key(D.Tcp, GuessFlow(s.path), D.PortOpen), now, later);
    }

    method HandleUdp(d: Datagram, now: int, later: int)
      modifies this
      ensures Current() == UdpNext(opts, old(Current()), d, now, later)
    {
      if opts.detectQuic && (d.path.initiatorPort == opts.quicPort || d.path.responderPort == opts.quicPort) {
        HandleQuic(d, now, later);
      } else if opts.detectDns && (d.path.initiatorPort == opts.dnsPort || d.path.responderPort == opts.dnsPort) {
        HandleDns(d, now, later);
      }
    }

    method HandleQuic(d: Datagram, now: int, later: int)
      requires IsQuic(opts, d)
      modifies this
      ensures Current() == UdpNext(opts, old(Current()), d, now, later)
    {
      if d.path.responderPort == opts.quicPort {
        if |d.payload| < 1 || d.payload[0] < 0x80 {
          return;
        }
        stats := stats.(quicInitialSeen := stats.quicInitialSeen + 1);
        pendingQuic := F.RememberFlow(pendingQuic, d.path, 0, now);
        return;
      }
      var hit;
      pendingQuic, hit := F.TakeFlow(pendingQuic, Reverse(d.path), None);
      if hit {
        stats := stats.(quicMatchedOpen := stats.quicMatchedOpen + 1);
        Report(D.Key(D.Quic, Reverse(d.path), D.PortOpen), now, later);
      }
    }

    method HandleDns(d: Datagram, now: int, later: int)
      requires IsDns(opts, d)
      modifies this
      ensures Current() == UdpNext(opts, old(Current()), d, now, later)
    {
      if d.path.responderPort == opts.dnsPort {
        if |d.payload| < DNS_HEADER_LEN || d.payload[2] >= 0x80 {
          return;
        }
        stats := stats.(dnsQuerySeen := stats.dnsQuerySeen + 1);
        pendingDns := F.RememberFlow(pendingDns, d.path, 0, now);
        return;
      }
      if |d.payload| < DNS_HEADER_LEN || d.payload[2] < 0x80 {
        return;
      }
      var hit;
      pendingDns, hit := F.TakeFlow(pendingDns, Reverse(d.path), None);
      if hit {
        stats := stats.(dnsMatchedOpen := stats.dnsMatchedOpen + 1);
        Report(D.Key(D.Dns, Reverse(d.path), D.PortOpen), now, later);
      }
    }

    method SweepExpired(now: int)
      modifies this
      ensures Current() == SweepNext(opts, old(Current()), now)
    {
      F.UnexpiredShorter(pending, now, opts.pendingTimeout);
      F.UnexpiredShorter(pendingQuic, now, opts.pendingTimeout);
      F.UnexpiredShorter(pendingDns, now, opts.pendingTimeout);
      var before := |pending|;
      pending := F.RemoveExpired(pending, now, opts.pendingTimeout);
      stats := stats.(pendingExpired := stats.pendingExpired + (before - |pending|));
      before := |pendingQuic|;
      pendingQuic := F.RemoveExpired(pendingQuic, now, opts.pendingTimeout);
      stats := stats.(quicPendingExpired := stats.quicPendingExpired + (before - |pendingQuic|));
      before := |pendingDns|;
      pendingDns := F.RemoveExpired(pendingDns, now, opts.pendingTimeout);
      stats := stats.(dnsPendingExpired := stats.dnsPendingExpired + (before - |pendingDns|));
      reported := D.Clean(reported, now, opts.dedupWindow);
    }
  }
}
