/** What a capture reports, stated over its whole history: no table, no cache, no eviction. */
module CaptureHistory {
  import opened Wrappers
  import F = FlowTable
  import D = DedupCache
  import opened NetCapture

  /** An event, as the operation it is on the pending table of a protocol. */
  function OpOf(o: Options, proto: D.Proto, e: Event): F.Op {
    match e
    case Sweep(now) => F.Expire(now)
    case PacketSeen(TcpPacket(s), now, _) => if proto.Tcp? then TcpOp(o, s, now) else F.Other
    case PacketSeen(UdpPacket(d), now, _) =>
      if proto.Quic? then QuicOp(o, d, now) else if proto.Dns? then DnsOp(o, d, now) else F.Other
  }

  function Ops(o: Options, proto: D.Proto, es: seq<Event>): (ops: seq<F.Op>)
    ensures |ops| == |es|
    ensures forall i :: 0 <= i < |es| ==> ops[i] == OpOf(o, proto, es[i])
  {
    seq(|es|, i requires 0 <= i < |es| => OpOf(o, proto, es[i]))
  }

  /** The event answers a request that the history leaves waiting. */
  ghost predicate Answered(o: Options, proto: D.Proto, es: seq<Event>, e: Event) {
    var op := OpOf(o, proto, e);
    op.Close? && F.Answers(op, F.Alive(Ops(o, proto, es), op.flow, o.pendingTimeout))
  }

  /** The finding an event amounts to after a history, repeated or not. */
  ghost function KeyOf(o: Options, es: seq<Event>, e: Event): Option<D.Key> {
    match e
    case Sweep(_) => None
    case PacketSeen(TcpPacket(s), _, _) => TcpKey(o, s, Answered(o, D.Tcp, es, e))
    case PacketSeen(UdpPacket(d), _, _) => UdpKey(d, Answered(o, D.Quic, es, e), Answered(o, D.Dns, es, e))
  }

  ghost predicate RecentlySighted(o: Options, es: seq<Event>, key: D.Key, at: int) {
    && o.dedupWindow > 0
    && exists m ::
         && 0 <= m < |es| && es[m].PacketSeen? && KeyOf(o, es[..m], es[m]) == Some(key)
         && at - es[m].later <= o.dedupWindow
  }

  /** The findings of a history: every sighting that no sighting of the same key precedes within the window. */
  ghost function Reports(o: Options, es: seq<Event>): seq<Finding> {
    if es == [] then []
    else
      var before, e := es[..|es| - 1], es[|es| - 1];
      var key := KeyOf(o, before, e);
      Reports(o, before)
      + if key.Some? && !RecentlySighted(o, before, key.value, e.later) then [Finding(key.value, e.now)] else []
  }

  // ---- the tables ------------------------------------------------------------------------

  lemma OpsSnoc(o: Options, proto: D.Proto, es: seq<Event>, e: Event)
    ensures Ops(o, proto, es + [e]) == Ops(o, proto, es) + [OpOf(o, proto, e)]
  {
  }

  /** The state's tables and counters are those of one tracker for each protocol. */
  ghost predicate Tracks(o: Options, es: seq<Event>, v: State) {
    var t := F.Run(Ops(o, D.Tcp, es), o.pendingTimeout);
    var q := F.Run(Ops(o, D.Quic, es), o.pendingTimeout);
    var n := F.Run(Ops(o, D.Dns, es), o.pendingTimeout);
    && t == F.Tracker(v.pending, v.stats.synSeen, v.stats.matchedOpen + v.stats.matchedClosed, v.stats.pendingExpired)
    && q == F.Tracker(v.pendingQuic, v.stats.quicInitialSeen, v.stats.quicMatchedOpen, v.stats.quicPendingExpired)
    && n == F.Tracker(v.pendingDns, v.stats.dnsQuerySeen, v.stats.dnsMatchedOpen, v.stats.dnsPendingExpired)
  }

  lemma RunSnoc(ops: seq<F.Op>, op: F.Op, timeout: int)
    ensures F.Run(ops + [op], timeout) == F.Step(F.Run(ops, timeout), op, timeout)
  {
    assert (ops + [op])[..|ops|] == ops;
  }

  lemma RunOps(o: Options, proto: D.Proto, es: seq<Event>, e: Event)
    ensures F.Run(Ops(o, proto, es + [e]), o.pendingTimeout)
         == F.Step(F.Run(Ops(o, proto, es), o.pendingTimeout), OpOf(o, proto, e), o.pendingTimeout)
  {
    OpsSnoc(o, proto, es, e);
    RunSnoc(Ops(o, proto, es), OpOf(o, proto, e), o.pendingTimeout);
  }

  lemma TracksTcp(o: Options, es: seq<Event>, v: State, s: Segment, now: int, later: int)
    requires Tracks(o, es, v)
    ensures Tracks(o, es + [PacketSeen(TcpPacket(s), now, later)], TcpNext(o, v, s, now, later))
  {
    hide F.Run, F.Remember, F.Take, F.Unexpired, D.Marked, D.Cleaned, Ops, Reverse, GuessFlow, Acknowledged;
    var e := PacketSeen(TcpPacket(s), now, later);
    RunOps(o, D.Tcp, es, e);
    RunOps(o, D.Quic, es, e);
    RunOps(o, D.Dns, es, e);
  }

  lemma TracksUdp(o: Options, es: seq<Event>, v: State, d: Datagram, now: int, later: int)
    requires Tracks(o, es, v)
    ensures Tracks(o, es + [PacketSeen(UdpPacket(d), now, later)], UdpNext(o, v, d, now, later))
  {
    hide F.Run, F.Remember, F.Take, F.Unexpired, D.Marked, D.Cleaned, Ops, QuicOp, DnsOp;
    var e := PacketSeen(UdpPacket(d), now, later);
    RunOps(o, D.Tcp, es, e);
    RunOps(o, D.Quic, es, e);
    RunOps(o, D.Dns, es, e);
    UdpNeverExpires(o, d, now);
  }

  lemma UdpNeverExpires(o: Options, d: Datagram, now: int)
    ensures !QuicOp(o, d, now).Expire? && !DnsOp(o, d, now).Expire?
  {
  }

  lemma TracksSweep(o: Options, es: seq<Event>, v: State, now: int)
    requires Tracks(o, es, v)
    ensures Tracks(o, es + [Sweep(now)], SweepNext(o, v, now))
  {
    hide F.Run, F.Remember, F.Take, F.Unexpired, D.Marked, D.Cleaned, Ops;
    RunOps(o, D.Tcp, es, Sweep(now));
    RunOps(o, D.Quic, es, Sweep(now));
    RunOps(o, D.Dns, es, Sweep(now));
  }

  lemma {:induction false} RunTracks(o: Options, es: seq<Event>)
    ensures Tracks(o, es, Run(o, es))
  {
    if es != [] {
      var before, e := es[..|es| - 1], es[|es| - 1];
      assert es == before + [e];
      RunTracks(o, before);
      hide Tracks, TcpNext, UdpNext, SweepNext;
      match e
      case PacketSeen(TcpPacket(s), now, later) => TracksTcp(o, before, Run(o, before), s, now, later);
      case PacketSeen(UdpPacket(d), now, later) => TracksUdp(o, before, Run(o, before), d, now, later);
      case Sweep(now) => TracksSweep(o, before, Run(o, before), now);
    }
  }

  /** Every request is refreshed, answered, expired or still waiting; none is counted twice. */
  lemma RequestsConserved(o: Options, es: seq<Event>)
    ensures var v := Run(o, es);
            && v.stats.synSeen == v.stats.matchedOpen + v.stats.matchedClosed + v.stats.pendingExpired + |v.pending|
                                  + F.Refreshed(Ops(o, D.Tcp, es), o.pendingTimeout)
            && v.stats.quicInitialSeen == v.stats.quicMatchedOpen + v.stats.quicPendingExpired + |v.pendingQuic|
                                          + F.Refreshed(Ops(o, D.Quic, es), o.pendingTimeout)
            && v.stats.dnsQuerySeen == v.stats.dnsMatchedOpen + v.stats.dnsPendingExpired + |v.pendingDns|
                                       + F.Refreshed(Ops(o, D.Dns, es), o.pendingTimeout)
  {
    hide F.Run, F.Refreshed, Run;
    RunTracks(o, es);
    F.Conservation(Ops(o, D.Tcp, es), o.pendingTimeout);
    F.Conservation(Ops(o, D.Quic, es), o.pendingTimeout);
    F.Conservation(Ops(o, D.Dns, es), o.pendingTimeout);
  }

  /** The pending tables hold each flow at most once, and exactly the flows their histories leave waiting. */
  lemma PendingIsLive(o: Options, es: seq<Event>)
    ensures F.Represents(Run(o, es).pending, Ops(o, D.Tcp, es), o.pendingTimeout)
    ensures F.Represents(Run(o, es).pendingQuic, Ops(o, D.Quic, es), o.pendingTimeout)
    ensures F.Represents(Run(o, es).pendingDns, Ops(o, D.Dns, es), o.pendingTimeout)
  {
    hide F.Run, F.Represents, Run;
    RunTracks(o, es);
    F.RunRepresents(Ops(o, D.Tcp, es), o.pendingTimeout);
    F.RunRepresents(Ops(o, D.Quic, es), o.pendingTimeout);
    F.RunRepresents(Ops(o, D.Dns, es), o.pendingTimeout);
  }

  // ---- the findings ----------------------------------------------------------------------

  ghost function Matches(st: Stats): nat {
    st.matchedOpen + st.matchedClosed + st.matchedOpenEstablished + st.quicMatchedOpen + st.dnsMatchedOpen
  }

  lemma SightedCounts(o: Options, v: State, key: Option<D.Key>, now: int, later: int)
    ensures var v' := Sighted(o, v, key, now, later);
            && |v'.findings| + v'.stats.duplicatesSuppressed
               == |v.findings| + v.stats.duplicatesSuppressed + F.Count(key.Some?)
            && Matches(v'.stats) == Matches(v.stats)
  {
    hide D.Marked;
  }

  lemma TcpMatches(o: Options, v: State, s: Segment, now: int)
    ensures var hit := F.Apply(v.pending, TcpOp(o, s, now), o.pendingTimeout).1;
            Matches(CountTcp(o, v.stats, s, hit)) == Matches(v.stats) + F.Count(TcpKey(o, s, hit).Some?)
  {
    hide F.Remember, F.Take;
  }

  /** A datagram never answers both a QUIC and a DNS request. */
  lemma UdpMatches(o: Options, v: State, d: Datagram, now: int)
    ensures var quicHit := F.Apply(v.pendingQuic, QuicOp(o, d, now), o.pendingTimeout).1;
            var dnsHit := F.Apply(v.pendingDns, DnsOp(o, d, now), o.pendingTimeout).1;
            && !(quicHit && dnsHit)
            && Matches(CountDns(CountQuic(v.stats, QuicOp(o, d, now), quicHit), DnsOp(o, d, now), dnsHit))
               == Matches(v.stats) + F.Count(UdpKey(d, quicHit, dnsHit).Some?)
  {
    hide F.Remember, F.Take;
  }

  ghost function Balance(v: State): int {
    |v.findings| + v.stats.duplicatesSuppressed - Matches(v.stats)
  }

  lemma BalanceTcp(o: Options, v: State, s: Segment, now: int, later: int)
    ensures Balance(TcpNext(o, v, s, now, later)) == Balance(v)
  {
    hide F.Apply, Sighted, CountTcp, TcpOp, TcpKey, Matches;
    TcpMatches(o, v, s, now);
    var (t, hit) := F.Apply(v.pending, TcpOp(o, s, now), o.pendingTimeout);
    SightedCounts(o, v.(pending := t, stats := CountTcp(o, v.stats, s, hit)), TcpKey(o, s, hit), now, later);
    assert CountTcp(o, v.stats, s, hit).duplicatesSuppressed == v.stats.duplicatesSuppressed by {
      CountTcpKeeps(o, v.stats, s, hit);
    }
  }

  lemma CountTcpKeeps(o: Options, st: Stats, s: Segment, hit: bool)
    ensures CountTcp(o, st, s, hit).duplicatesSuppressed == st.duplicatesSuppressed
  {
  }

  lemma BalanceUdp(o: Options, v: State, d: Datagram, now: int, later: int)
    ensures Balance(UdpNext(o, v, d, now, later)) == Balance(v)
  {
    hide F.Apply, Sighted, QuicOp, DnsOp, UdpKey, Matches;
    UdpMatches(o, v, d, now);
    var (q, quicHit) := F.Apply(v.pendingQuic, QuicOp(o, d, now), o.pendingTimeout);
    var (n, dnsHit) := F.Apply(v.pendingDns, DnsOp(o, d, now), o.pendingTimeout);
    var st := CountDns(CountQuic(v.stats, QuicOp(o, d, now), quicHit), DnsOp(o, d, now), dnsHit);
    SightedCounts(o, v.(pendingQuic := q, pendingDns := n, stats := st), UdpKey(d, quicHit, dnsHit), now, later);
  }

  lemma BalanceSweep(o: Options, v: State, now: int)
    ensures Balance(SweepNext(o, v, now)) == Balance(v)
  {
    hide F.Unexpired, D.Cleaned;
  }

  lemma BalanceNext(o: Options, v: State, e: Event)
    ensures Balance(Next(o, v, e)) == Balance(v)
  {
    hide TcpNext, UdpNext, SweepNext, Balance;
    match e
    case PacketSeen(TcpPacket(s), now, later) => BalanceTcp(o, v, s, now, later);
    case PacketSeen(UdpPacket(d), now, later) => BalanceUdp(o, v, d, now, later);
    case Sweep(now) => BalanceSweep(o, v, now);
  }

  lemma BalanceZero(v: State)
    requires v.findings == [] && v.stats.duplicatesSuppressed == 0
    requires v.stats.matchedOpen == 0 && v.stats.matchedClosed == 0 && v.stats.matchedOpenEstablished == 0
    requires v.stats.quicMatchedOpen == 0 && v.stats.dnsMatchedOpen == 0
    ensures Balance(v) == 0
  {
  }

  lemma {:induction false} RunBalance(o: Options, es: seq<Event>)
    ensures Balance(Run(o, es)) == 0
  {
    hide Next, Balance;
    if es == [] {
      BalanceZero(Run(o, es));
    } else {
      RunBalance(o, es[..|es| - 1]);
      BalanceNext(o, Run(o, es[..|es| - 1]), es[|es| - 1]);
    }
  }

  /** Every sighting is reported or counted as a duplicate. */
  lemma FindingsConserved(o: Options, es: seq<Event>)
    ensures |Run(o, es).findings| + Run(o, es).stats.duplicatesSuppressed == Matches(Run(o, es).stats)
  {
    hide Run;
    RunBalance(o, es);
  }

  function Until(e: Event): int {
    if e.PacketSeen? then e.later else e.now
  }

  ghost predicate Chronological(es: seq<Event>) {
    forall i, j :: 0 <= i <= j < |es| ==> Until(es[i]) <= Until(es[j])
  }

  /** An event, as the cache sees it. */
  ghost function SightingOf(o: Options, es: seq<Event>, e: Event): D.Event {
    if e.Sweep? then D.Swept(e.now)
    else
      var key := KeyOf(o, es, e);
      if key.Some? then D.Seen(key.value, e.later) else D.Idle(e.later)
  }

  ghost function Sightings(o: Options, es: seq<Event>): (ss: seq<D.Event>)
    ensures |ss| == |es|
    ensures forall m :: 0 <= m < |es| ==> ss[m] == SightingOf(o, es[..m], es[m])
  {
    seq(|es|, m requires 0 <= m < |es| => SightingOf(o, es[..m], es[m]))
  }

  lemma SightingsSnoc(o: Options, es: seq<Event>, e: Event)
    ensures Sightings(o, es + [e]) == Sightings(o, es) + [SightingOf(o, es, e)]
  {
    var es' := es + [e];
    forall m | 0 <= m <= |es| ensures Sightings(o, es')[m] == (Sightings(o, es) + [SightingOf(o, es, e)])[m] {
      assert es'[..m] == es[..m];
    }
  }

  lemma SightedRecently(o: Options, es: seq<Event>, key: D.Key, at: int)
    ensures RecentlySighted(o, es, key, at) <==>
        o.dedupWindow > 0 && D.SeenWithin(Sightings(o, es), key, at, o.dedupWindow)
  {
    hide KeyOf;
    var ss := Sightings(o, es);
    assert forall m :: 0 <= m < |es| ==> ss[m] == SightingOf(o, es[..m], es[m]);
    if RecentlySighted(o, es, key, at) {
      var m :| 0 <= m < |es| && es[m].PacketSeen? && KeyOf(o, es[..m], es[m]) == Some(key)
               && at - es[m].later <= o.dedupWindow;
      assert ss[m] == D.Seen(key, es[m].later);
    }
    if D.SeenWithin(ss, key, at, o.dedupWindow) {
      var m :| 0 <= m < |ss| && ss[m].Seen? && ss[m].key == key && at - ss[m].at <= o.dedupWindow;
      assert es[m].PacketSeen? && KeyOf(o, es[..m], es[m]) == Some(key);
    }
  }

  /** A packet is filed as the key its history gives it. */
  lemma KeyFromTables(o: Options, es: seq<Event>, e: Event)
    requires e.PacketSeen?
    ensures var v := Run(o, es);
            && (e.packet.TcpPacket? ==>
                  KeyOf(o, es, e) == TcpKey(o, e.packet.segment,
                      F.Apply(v.pending, TcpOp(o, e.packet.segment, e.now), o.pendingTimeout).1))
            && (e.packet.UdpPacket? ==>
                  KeyOf(o, es, e) == UdpKey(e.packet.datagram,
                    F.Apply(v.pendingQuic, QuicOp(o, e.packet.datagram, e.now), o.pendingTimeout).1,
                    F.Apply(v.pendingDns, DnsOp(o, e.packet.datagram, e.now), o.pendingTimeout).1))
  {
    hide F.Run, Run, F.Apply, F.Answers, TcpOp, QuicOp, DnsOp, TcpKey, UdpKey;
    RunTracks(o, es);
    F.HitIff(Ops(o, D.Tcp, es), OpOf(o, D.Tcp, e), o.pendingTimeout);
    F.HitIff(Ops(o, D.Quic, es), OpOf(o, D.Quic, e), o.pendingTimeout);
    F.HitIff(Ops(o, D.Dns, es), OpOf(o, D.Dns, e), o.pendingTimeout);
  }

  /** One event, seen from the cache and the list of findings. */
  lemma NextReports(o: Options, es: seq<Event>, e: Event)
    ensures var v, v' := Run(o, es), Next(o, Run(o, es), e);
            var key := KeyOf(o, es, e);
            && (key.None? ==>
                  && v'.findings == v.findings
                  && v'.reported == if e.Sweep? then D.Cleaned(v.reported, e.now, o.dedupWindow) else v.reported)
            && (key.Some? ==>
                  var (c, duplicate) := D.Marked(v.reported, key.value, e.later, o.dedupWindow);
                  v'.reported == c && v'.findings == v.findings + if duplicate then [] else [Finding(key.value, e.now)])
  {
    hide Run, F.Apply, F.Unexpired, KeyOf, D.Marked, D.Cleaned, TcpKey, UdpKey, TcpOp, QuicOp, DnsOp, CountTcp,
        CountDns, CountQuic;
    if e.PacketSeen? {
      KeyFromTables(o, es, e);
    } else {
      SweepHasNoKey(o, es, e);
    }
  }

  lemma SweepHasNoKey(o: Options, es: seq<Event>, e: Event)
    requires e.Sweep?
    ensures KeyOf(o, es, e) == None
  {
  }

  lemma {:induction false} CacheIsRun(o: Options, es: seq<Event>)
    ensures Run(o, es).reported == D.Run(Sightings(o, es), o.dedupWindow)
  {
    if es != [] {
      var before, e := es[..|es| - 1], es[|es| - 1];
      assert es == before + [e];
      CacheIsRun(o, before);
      CacheSnoc(o, before, e);
    }
  }

  lemma CacheSnoc(o: Options, es: seq<Event>, e: Event)
    requires Run(o, es).reported == D.Run(Sightings(o, es), o.dedupWindow)
    ensures Run(o, es + [e]).reported == D.Run(Sightings(o, es + [e]), o.dedupWindow)
  {
    hide KeyOf, Next, D.Marked, D.Cleaned, Sightings;
    var es' := es + [e];
    assert es'[..|es'| - 1] == es;
    SightingsSnoc(o, es, e);
    var ss := Sightings(o, es');
    assert ss[..|ss| - 1] == Sightings(o, es);
    NextReports(o, es, e);
    if e.Sweep? {
      SweepHasNoKey(o, es, e);
    }
  }

  /** The correlator reports exactly the findings of the unbounded history: evicting old
      entries from its cache never changes what it reports. */
  lemma {:induction false} RunReports(o: Options, es: seq<Event>)
    requires Chronological(es)
    ensures Run(o, es).findings == Reports(o, es)
  {
    hide KeyOf, Next, D.Marked, Sightings, RecentlySighted, D.SeenWithin, D.Chronological;
    if es != [] {
      var before, e := es[..|es| - 1], es[|es| - 1];
      assert es == before + [e];
      RunReports(o, before);
      NextReports(o, before, e);
      var key := KeyOf(o, before, e);
      if key.Some? {
        SightingsChronological(o, before, e, key.value);
        D.SuppressedIff(Sightings(o, before), key.value, e.later, o.dedupWindow);
        SightedRecently(o, before, key.value, e.later);
        CacheIsRun(o, before);
      }
    }
  }

  lemma SightingsChronological(o: Options, es: seq<Event>, e: Event, key: D.Key)
    requires Chronological(es + [e]) && KeyOf(o, es, e) == Some(key)
    ensures e.PacketSeen? && D.Chronological(Sightings(o, es) + [D.Seen(key, e.later)])
  {
    hide KeyOf;
    if e.Sweep? {
      SweepHasNoKey(o, es, e);
    }
    var es', ss' := es + [e], Sightings(o, es) + [D.Seen(key, e.later)];
    forall i, j | 0 <= i <= j < |ss'| ensures ss'[i].at <= ss'[j].at {
      assert Until(es'[i]) <= Until(es'[j]);
      assert forall m :: 0 <= m < |es| ==> ss'[m] == SightingOf(o, es[..m], es[m]) && es'[m] == es[m];
    }
  }

  // ---- what a handshake finding means ----------------------------------------------------

  /** An answer has an earlier request of its flow that no sweep in between found too old. */
  lemma AnswerSound(o: Options, proto: D.Proto, es: seq<Event>, n: nat) returns (i: nat)
    requires n < |es| && Answered(o, proto, es[..n], es[n])
    ensures i < n && OpOf(o, proto, es[i]).Open? && OpOf(o, proto, es[i]).flow == OpOf(o, proto, es[n]).flow
    ensures var want := OpOf(o, proto, es[n]).want; want.Some? ==> OpOf(o, proto, es[i]).token == want.value
    ensures forall j :: i < j < n && es[j].Sweep? ==> es[j].now - OpOf(o, proto, es[i]).now <= o.pendingTimeout
  {
    hide F.Alive;
    var ops := Ops(o, proto, es);
    assert ops[..n] == Ops(o, proto, es[..n]);
    assert F.MatchAt(ops, n, o.pendingTimeout);
    i := F.MatchSound(ops, n, o.pendingTimeout);
    assert ops[i] == OpOf(o, proto, es[i]);
    forall j | i < j < n && es[j].Sweep? ensures es[j].now - OpOf(o, proto, es[i]).now <= o.pendingTimeout {
      assert ops[j] == F.Expire(es[j].now);
    }
  }

  ghost predicate IsSegment(e: Event) {
    e.PacketSeen? && e.packet.TcpPacket?
  }

  ghost predicate IsDatagram(e: Event) {
    e.PacketSeen? && e.packet.UdpPacket?
  }

  /** No sweep between the two events found the first too old. */
  ghost predicate NotExpired(o: Options, es: seq<Event>, i: nat, n: nat)
    requires i < |es| && n <= |es|
  {
    forall j :: i < j < n && es[j].Sweep? ==> es[j].now - es[i].now <= o.pendingTimeout
  }

  /** A SYN-ACK that is a finding has an earlier SYN of the reversed path with the sequence
      number before its acknowledgement number. */
  lemma SynAckSound(o: Options, es: seq<Event>, n: nat) returns (i: nat)
    requires n < |es| && IsSegment(es[n]) && es[n].packet.segment.syn && es[n].packet.segment.ack
    requires KeyOf(o, es[..n], es[n]).Some?
    ensures i < n && IsSegment(es[i]) && es[i].packet.segment.syn && !es[i].packet.segment.ack
    ensures es[n].packet.segment.path == Reverse(es[i].packet.segment.path)
    ensures es[n].packet.segment.ackNum == Successor(es[i].packet.segment.seqNum)
    ensures KeyOf(o, es[..n], es[n]) == Some(D.Key(D.Tcp, es[i].packet.segment.path, D.PortOpen))
    ensures NotExpired(o, es, i, n)
  {
    i := AnswerSound(o, D.Tcp, es, n);
  }

  /** A reset that is a finding has an earlier SYN of the reversed path, and closed findings
      were asked for. */
  lemma ResetSound(o: Options, es: seq<Event>, n: nat) returns (i: nat)
    requires n < |es| && IsSegment(es[n]) && es[n].packet.segment.rst && !es[n].packet.segment.syn
    requires KeyOf(o, es[..n], es[n]).Some?
    ensures o.reportClosed
    ensures i < n && IsSegment(es[i]) && es[i].packet.segment.syn && !es[i].packet.segment.ack
    ensures es[n].packet.segment.path == Reverse(es[i].packet.segment.path)
    ensures KeyOf(o, es[..n], es[n]) == Some(D.Key(D.Tcp, es[i].packet.segment.path, D.PortClosed))
    ensures NotExpired(o, es, i, n)
  {
    i := AnswerSound(o, D.Tcp, es, n);
  }

  /** A QUIC finding has an earlier long-header datagram to the QUIC port on the reversed path. */
  lemma QuicSound(o: Options, es: seq<Event>, n: nat) returns (i: nat)
    requires n < |es| && IsDatagram(es[n]) && KeyOf(o, es[..n], es[n]).Some?
    requires KeyOf(o, es[..n], es[n]).value.proto == D.Quic
    ensures i < n && IsDatagram(es[i]) && es[i].packet.datagram.path.responderPort == o.quicPort
    ensures |es[i].packet.datagram.payload| >= 1 && es[i].packet.datagram.payload[0] >= 0x80
    ensures es[n].packet.datagram.path == Reverse(es[i].packet.datagram.path)
    ensures KeyOf(o, es[..n], es[n]) == Some(D.Key(D.Quic, es[i].packet.datagram.path, D.PortOpen))
    ensures NotExpired(o, es, i, n)
  {
    i := AnswerSound(o, D.Quic, es, n);
  }

  /** A DNS finding is a response with an earlier query to the DNS port on the reversed path. */
  lemma DnsSound(o: Options, es: seq<Event>, n: nat) returns (i: nat)
    requires n < |es| && IsDatagram(es[n]) && KeyOf(o, es[..n], es[n]).Some?
    requires KeyOf(o, es[..n], es[n]).value.proto == D.Dns
    ensures i < n && IsDatagram(es[i]) && es[i].packet.datagram.path.responderPort == o.dnsPort
    ensures var query, response := es[i].packet.datagram.payload, es[n].packet.datagram.payload;
            && |query| >= DNS_HEADER_LEN && query[2] < 0x80
            && |response| >= DNS_HEADER_LEN && response[2] >= 0x80
    ensures es[n].packet.datagram.path == Reverse(es[i].packet.datagram.path)
    ensures KeyOf(o, es[..n], es[n]) == Some(D.Key(D.Dns, es[i].packet.datagram.path, D.PortOpen))
    ensures NotExpired(o, es, i, n)
  {
    i := AnswerSound(o, D.Dns, es, n);
  }

  /** A request is answered at most once: two answers to one flow are separated by a new request. */
  lemma AnsweredOnce(o: Options, proto: D.Proto, es: seq<Event>, m: nat, n: nat) returns (i: nat)
    requires m < n < |es| && Answered(o, proto, es[..m], es[m]) && Answered(o, proto, es[..n], es[n])
    requires OpOf(o, proto, es[m]).flow == OpOf(o, proto, es[n]).flow
    ensures m < i < n && OpOf(o, proto, es[i]).Open? && OpOf(o, proto, es[i]).flow == OpOf(o, proto, es[n]).flow
  {
    var ops := Ops(o, proto, es);
    assert ops[..m] == Ops(o, proto, es[..m]);
    assert ops[..n] == Ops(o, proto, es[..n]);
    i := F.MatchesSeparated(ops, m, n, o.pendingTimeout);
  }

  // ---- the capture loop ------------------------------------------------------------------

  /** One turn of the loop: what was received, and the clock readings of the turn. */
  datatype Turn = Turn(packet: Option<Packet>, now: int, later: int, after: int, sweptAt: int)

  predicate SweepDue(o: Options, turn: Turn, lastSweep: int) {
    turn.after - lastSweep >= o.sweepInterval
  }

  function TurnEvents(o: Options, turn: Turn, lastSweep: int): seq<Event> {
    (if turn.packet.Some? then [PacketSeen(turn.packet.value, turn.now, turn.later)] else [])
    + (if SweepDue(o, turn, lastSweep) then [Sweep(turn.sweptAt)] else [])
  }

  /** The time of the last sweep and the events after some turns. */
  function Trace(o: Options, turns: seq<Turn>, start: int): (int, seq<Event>) {
    if turns == [] then (start, [])
    else
      var (lastSweep, es) := Trace(o, turns[..|turns| - 1], start);
      var turn := turns[|turns| - 1];
      (if SweepDue(o, turn, lastSweep) then turn.after else lastSweep, es + TurnEvents(o, turn, lastSweep))
  }

  lemma RunEvent(o: Options, es: seq<Event>, e: Event)
    ensures Run(o, es + [e]) == Next(o, Run(o, es), e)
  {
    assert (es + [e])[..|es|] == es;
  }

  method HandleTurn(c: Capture, turn: Turn, lastSweep: int, ghost es: seq<Event>) returns (lastSweep': int)
    requires c.Current() == Run(c.opts, es)
    modifies c
    ensures c.Current() == Run(c.opts, es + TurnEvents(c.opts, turn, lastSweep))
    ensures lastSweep' == if SweepDue(c.opts, turn, lastSweep) then turn.after else lastSweep
  {
    hide Run, TcpNext, UdpNext, SweepNext;
    lastSweep' := lastSweep;
    ghost var done := es;
    if turn.packet.Some? {
      match turn.packet.value {
        case TcpPacket(s) => c.HandleTcp(s, turn.now, turn.later);
        case UdpPacket(d) => c.HandleUdp(d, turn.now, turn.later);
      }
      RunEvent(c.opts, es, PacketSeen(turn.packet.value, turn.now, turn.later));
      done := es + [PacketSeen(turn.packet.value, turn.now, turn.later)];
    }
    if turn.after - lastSweep >= c.opts.sweepInterval {
      c.SweepExpired(turn.sweptAt);
      RunEvent(c.opts, done, Sweep(turn.sweptAt));
      done := done + [Sweep(turn.sweptAt)];
      lastSweep' := turn.after;
    }
    assert done == es + TurnEvents(c.opts, turn, lastSweep);
  }

  /** The whole loop: from a new capture, the findings are those of the history. */
  method RunCapture(o: Options, turns: seq<Turn>, start: int) returns (findings: seq<Finding>)
    ensures Chronological(Trace(o, turns, start).1) ==> findings == Reports(o, Trace(o, turns, start).1)
  {
    hide Run, Reports, Chronological, TurnEvents;
    var c := new Capture(o);
    var lastSweep := start;
    assert Run(o, []) == Start() by {
      RunNothing(o);
    }
    for i := 0 to |turns|
      invariant c.opts == o && c.Current() == Run(o, Trace(o, turns[..i], start).1)
      invariant lastSweep == Trace(o, turns[..i], start).0
      invariant fresh(c)
    {
      assert turns[..i + 1][..i] == turns[..i];
      lastSweep := HandleTurn(c, turns[i], lastSweep, Trace(o, turns[..i], start).1);
    }
    assert turns[..|turns|] == turns;
    findings := c.findings;
    if Chronological(Trace(o, turns, start).1) {
      RunReports(o, Trace(o, turns, start).1);
    }
  }

  lemma RunNothing(o: Options)
    ensures Run(o, []) == Start()
  {
  }
}
