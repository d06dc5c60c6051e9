/** The cache that suppresses repeated findings, and the full history it stands for. */
module DedupCache {
  import opened FlowTable

  datatype Proto = Tcp | Quic | Dns

  datatype PortState = PortOpen | PortClosed

  /** What makes two findings the same. */
  datatype Key = Key(proto: Proto, flow: Flow, state: PortState)

  /** A key and the time it was last seen. */
  datatype Sighting = Sighting(key: Key, at: int)

  type Cache = seq<Sighting>

  function IndexOf(c: Cache, key: Key): (i: nat)
    ensures i <= |c| && (i < |c| ==> c[i].key == key)
    ensures forall j :: 0 <= j < i ==> c[j].key != key
  {
    if c == [] || c[0].key == key then 0
    else
      assert forall j :: 1 <= j < |c| ==> c[j] == c[1..][j - 1];
      1 + IndexOf(c[1..], key)
  }

  /** The cache after a sighting, and whether the sighting is to be suppressed. */
  function Marked(c: Cache, key: Key, now: int, window: int): (Cache, bool) {
    if window <= 0 then (c, false)
    else
      var i := IndexOf(c, key);
      if i < |c| then (c[i := Sighting(key, now)], now - c[i].at <= window)
      else (c + [Sighting(key, now)], false)
  }

  function Kept(c: Cache, now: int, ttl: int): Cache {
    if c == [] then [] else (if now - c[0].at > ttl then [] else [c[0]]) + Kept(c[1..], now, ttl)
  }

  function Cleaned(c: Cache, now: int, window: int): Cache {
    if window > 0 then Kept(c, now, window * 2) else c
  }

  method Mark(c: Cache, key: Key, now: int, window: int) returns (c': Cache, duplicate: bool)
    ensures (c', duplicate) == Marked(c, key, now, window)
  {
    if window <= 0 {
      return c, false;
    }
    for i := 0 to |c|
      invariant forall j :: 0 <= j < i ==> c[j].key != key
    {
      if c[i].key == key {
        assert i == IndexOf(c, key);
        return c[i := Sighting(key, now)], now - c[i].at <= window;
      }
    }
    return c + [Sighting(key, now)], false;
  }

  method Clean(c: Cache, now: int, window: int) returns (c': Cache)
    ensures c' == Cleaned(c, now, window)
  {
    if window <= 0 {
      return c;
    }
    c' := [];
    for i := 0 to |c|
      invariant c' + Kept(c[i..], now, window * 2) == Kept(c, now, window * 2)
    {
      if !(now - c[i].at > window * 2) {
        c' := c' + [c[i]];
      }
    }
  }

  // ---- histories ------------------------------------------------------------------------

  datatype Event = Seen(key: Key, at: int) | Swept(at: int) | Idle(at: int)

  function Run(es: seq<Event>, window: int): Cache {
    if es == [] then []
    else
      var c := Run(es[..|es| - 1], window);
      match es[|es| - 1]
      case Seen(key, at) => Marked(c, key, at, window).0
      case Swept(at) => Cleaned(c, at, window)
      case Idle(_) => c
  }

  ghost predicate Chronological(es: seq<Event>) {
    forall i, j :: 0 <= i <= j < |es| ==> es[i].at <= es[j].at
  }

  /** The whole history holds a sighting of the key that is no older than the window. */
  ghost predicate SeenWithin(es: seq<Event>, key: Key, now: int, window: int) {
    exists m :: 0 <= m < |es| && es[m].Seen? && es[m].key == key && now - es[m].at <= window
  }

  ghost predicate IsLast(es: seq<Event>, key: Key, m: int) {
    && 0 <= m < |es| && es[m].Seen? && es[m].key == key
    && forall j :: m < j < |es| ==> !(es[j].Seen? && es[j].key == key)
  }

  lemma {:induction false} LastExists(es: seq<Event>, key: Key, m: nat) returns (l: nat)
    requires m < |es| && es[m].Seen? && es[m].key == key
    ensures m <= l && IsLast(es, key, l)
    decreases |es| - m
  {
    if j :| m < j < |es| && es[j].Seen? && es[j].key == key {
      l := LastExists(es, key, j);
    } else {
      l := m;
    }
  }

  ghost predicate Distinct(c: Cache) {
    forall i, j :: 0 <= i < j < |c| ==> c[i].key != c[j].key
  }

  /** Every entry is the last sighting of its key, and every last sighting has an entry unless
      it is already older than twice the window. */
  ghost predicate Agrees(c: Cache, es: seq<Event>, window: int) {
    && Distinct(c)
    && (forall i :: 0 <= i < |c| ==> exists m :: IsLast(es, c[i].key, m) && es[m].at == c[i].at)
    && (forall key, m :: IsLast(es, key, m) ==> Sighting(key, es[m].at) in c || es[|es| - 1].at - es[m].at > window * 2)
  }

  lemma {:induction false} KeptMembers(c: Cache, now: int, ttl: int)
    ensures forall s :: s in Kept(c, now, ttl) <==> s in c && !(now - s.at > ttl)
  {
    if c != [] {
      KeptMembers(c[1..], now, ttl);
      assert c == [c[0]] + c[1..];
    }
  }

  lemma {:induction false} KeptUnique(c: Cache, now: int, ttl: int)
    requires Distinct(c)
    ensures Distinct(Kept(c, now, ttl))
  {
    if c != [] {
      KeptUnique(c[1..], now, ttl);
      KeptMembers(c[1..], now, ttl);
      var u := Kept(c[1..], now, ttl);
      forall i | 0 <= i < |u| ensures u[i].key != c[0].key {
        assert u[i] in u;
        assert u[i] in c[1..];
      }
    }
  }

  /** An event of another key, or no sighting at all, leaves the last sightings alone. */
  lemma LastUnchanged(es: seq<Event>, e: Event, key: Key, m: int)
    requires !(e.Seen? && e.key == key)
    ensures IsLast(es + [e], key, m) <==> IsLast(es, key, m)
  {
    var es' := es + [e];
    if IsLast(es, key, m) {
      assert es'[m] == es[m];
    }
    if IsLast(es', key, m) {
      assert m < |es| && es'[m] == es[m];
      forall j | m < j < |es| ensures !(es[j].Seen? && es[j].key == key) {
        assert es'[j] == es[j];
      }
    }
  }

  lemma AgreesSeen(c: Cache, es: seq<Event>, e: Event, window: int)
    requires window > 0 && Agrees(c, es, window) && Chronological(es + [e]) && e.Seen?
    ensures Agrees(Marked(c, e.key, e.at, window).0, es + [e], window)
  {
    var es', c' := es + [e], Marked(c, e.key, e.at, window).0;
    assert IsLast(es', e.key, |es|);
    forall i | 0 <= i < |c'| ensures exists m :: IsLast(es', c'[i].key, m) && es'[m].at == c'[i].at {
      if c'[i].key != e.key {
        var m :| IsLast(es, c[i].key, m) && es[m].at == c[i].at;
        LastUnchanged(es, e, c[i].key, m);
        assert es'[m] == es[m];
      }
    }
    forall key, m | IsLast(es', key, m)
        ensures Sighting(key, es'[m].at) in c' || es'[|es'| - 1].at - es'[m].at > window * 2 {
      var n := IndexOf(c, e.key);
      if key == e.key {
        assert m == |es|;
        assert c'[n] == Sighting(key, e.at);
      } else {
        LastUnchanged(es, e, key, m);
        assert es'[m] == es[m] && es'[|es| - 1] == es[|es| - 1] && es'[|es|] == e;
        if Sighting(key, es[m].at) in c {
          var i :| 0 <= i < |c| && c[i] == Sighting(key, es[m].at);
          assert c'[i] == c[i];
        }
      }
    }
  }

  /** Dropping entries that are older than twice the window keeps the agreement. */
  lemma AgreesDrop(c: Cache, c': Cache, es: seq<Event>, e: Event, window: int)
    requires window > 0 && Agrees(c, es, window) && Chronological(es + [e]) && !e.Seen?
    requires Distinct(c')
    requires forall i :: 0 <= i < |c'| ==> c'[i] in c
    requires forall s :: s in c ==> s in c' || e.at - s.at > window * 2
    ensures Agrees(c', es + [e], window)
  {
    var es' := es + [e];
    forall i | 0 <= i < |c'| ensures exists m :: IsLast(es', c'[i].key, m) && es'[m].at == c'[i].at {
      var k :| 0 <= k < |c| && c[k] == c'[i];
      var m :| IsLast(es, c[k].key, m) && es[m].at == c[k].at;
      LastUnchanged(es, e, c[k].key, m);
      assert es'[m] == es[m];
    }
    forall key, m | IsLast(es', key, m)
        ensures Sighting(key, es'[m].at) in c' || es'[|es'| - 1].at - es'[m].at > window * 2 {
      LastUnchanged(es, e, key, m);
      assert es'[m] == es[m] && es'[|es| - 1] == es[|es| - 1] && es'[|es|] == e;
      assert es'[|es| - 1].at <= es'[|es|].at;
    }
  }

  lemma AgreesOther(c: Cache, es: seq<Event>, e: Event, window: int)
    requires window > 0 && Agrees(c, es, window) && Chronological(es + [e]) && !e.Seen?
    ensures Agrees(if e.Swept? then Cleaned(c, e.at, window) else c, es + [e], window)
  {
    hide Kept;
    var c' := if e.Swept? then Cleaned(c, e.at, window) else c;
    KeptMembers(c, e.at, window * 2);
    KeptUnique(c, e.at, window * 2);
    forall i | 0 <= i < |c'| ensures c'[i] in c {
      assert c'[i] in c';
    }
    AgreesDrop(c, c', es, e, window);
  }

  lemma {:induction false} RunAgrees(es: seq<Event>, window: int)
    requires window > 0 && Chronological(es)
    ensures Agrees(Run(es, window), es, window)
  {
    if es != [] {
      var before, e := es[..|es| - 1], es[|es| - 1];
      assert es == before + [e];
      assert Chronological(before) by {
        forall i, j | 0 <= i <= j < |before| ensures before[i].at <= before[j].at {
          assert before[i] == es[i] && before[j] == es[j];
        }
      }
      RunAgrees(before, window);
      if e.Seen? {
        AgreesSeen(Run(before, window), before, e, window);
      } else {
        AgreesOther(Run(before, window), before, e, window);
      }
    }
  }

  /** The cache, whatever sweeps have removed from it, suppresses exactly the sightings that
      the unbounded history would suppress. With a window of zero or less it suppresses none. */
  lemma SuppressedIff(es: seq<Event>, key: Key, now: int, window: int)
    requires Chronological(es + [Seen(key, now)])
    ensures Marked(Run(es, window), key, now, window).1 <==> window > 0 && SeenWithin(es, key, now, window)
  {
    if window > 0 {
      var es' := es + [Seen(key, now)];
      assert Chronological(es) by {
        forall i, j | 0 <= i <= j < |es| ensures es[i].at <= es[j].at {
          assert es'[i] == es[i] && es'[j] == es[j];
        }
      }
      RunAgrees(es, window);
      var c := Run(es, window);
      var n := IndexOf(c, key);
      if SeenWithin(es, key, now, window) {
        var m :| 0 <= m < |es| && es[m].Seen? && es[m].key == key && now - es[m].at <= window;
        var l := LastExists(es, key, m);
        assert es'[|es| - 1] == es[|es| - 1] && es'[|es|] == Seen(key, now);
        assert es[m].at <= es[l].at;
        var i :| 0 <= i < |c| && c[i] == Sighting(key, es[l].at);
      } else if n < |c| {
        var m :| IsLast(es, c[n].key, m) && es[m].at == c[n].at;
      }
    }
  }
}
