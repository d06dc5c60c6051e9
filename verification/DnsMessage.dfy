/** The position walk over a DNS message: questions are skipped, records are collected. */
module DnsMessage {
  import opened Wrappers
  import opened DnsName

  const HEADER_LENGTH: nat := 12
  const CLASS_IN: nat := 1

  function U16(buf: Bytes, pos: nat): nat
    requires pos + 2 <= |buf|
  {
    var high: nat, low: nat := buf[pos], buf[pos + 1];
    high * 256 + low
  }

  function U32(buf: Bytes, pos: nat): nat
    requires pos + 4 <= |buf|
  {
    U16(buf, pos) * 65536 + U16(buf, pos + 2)
  }

  /** A collected record: its data is the range of the message from `start`. */
  datatype Record = Record(owner: Bytes, rtype: nat, ttl: nat, start: nat, length: nat)

  /** The position after n questions, or none when they run out of the message. */
  function SkipQuestions(buf: Bytes, pos: nat, n: nat): Option<nat>
    decreases n
  {
    if n == 0 then Some(pos)
    else
      var p := Skip(buf, pos) + 4;
      if p > |buf| then None else SkipQuestions(buf, p, n - 1)
  }

  /** The fixed part of a record behind its name, if name, fixed part and data fit. */
  function RecordAt(buf: Bytes, pos: nat): (r: Option<(Record, nat)>)
    ensures r.Some? ==> var (x, c) := r.value; pos + 10 <= x.start <= x.start + x.length <= |buf|
  {
    var d := Decode(buf, pos);
    NextAdvances(buf, pos);
    if d.next + 10 > |buf| then None
    else
      var p := d.next;
      var length := U16(buf, p + 8);
      if p + 10 + length > |buf| then None
      else Some((Record(d.name, U16(buf, p), U32(buf, p + 4), p + 10, length), U16(buf, p + 2)))
  }

  lemma NextAdvances(buf: Bytes, pos: nat)
    ensures Decode(buf, pos).next >= pos
  {
    NextIsSkip(buf, pos);
    SkipAdvances(buf, pos);
  }

  /** The record loop; its counter is a 16-bit word. */
  function ReadRecords(buf: Bytes, pos: nat, i: nat, an: nat, ns: nat, authority: bool): seq<Record>
    decreases |buf| - pos
  {
    if i >= an + ns || (i >= an && !authority) || RecordAt(buf, pos).None? then []
    else
      var (r, rclass) := RecordAt(buf, pos).value;
      (if rclass == CLASS_IN then [r] else [])
      + ReadRecords(buf, r.start + r.length, (i + 1) % 65536, an, ns, authority)
  }

  function Parse(buf: Bytes, authority: bool): seq<Record> {
    if |buf| < HEADER_LENGTH then []
    else
      var pos := SkipQuestions(buf, HEADER_LENGTH, U16(buf, 4));
      if pos.None? then [] else ReadRecords(buf, pos.value, 0, U16(buf, 6), U16(buf, 8), authority)
  }

  method ParseMessage(buf: Bytes, authority: bool) returns (out: seq<Record>)
    ensures out == Parse(buf, authority)
  {
    hide RecordAt, ReadRecords, SkipQuestions;
    out := [];
    if |buf| < HEADER_LENGTH { return; }
    var an, ns := U16(buf, 6), U16(buf, 8);
    var start := WalkQuestions(buf, U16(buf, 4));
    if start.None? { return; }
    var pos, i := start.value, 0;
    while i < an + ns
      invariant out + ReadRecords(buf, pos, i, an, ns, authority) == Parse(buf, authority)
      decreases |buf| - pos
    {
      ReadStep(buf, pos, i, an, ns, authority);
      if i >= an && !authority { return; }
      var r := ReadRecord(buf, pos);
      if r.None? { return; }
      var (record, rclass) := r.value;
      if rclass == CLASS_IN {
        out := out + [record];
      }
      pos := record.start + record.length;
      i := (i + 1) % 65536;
    }
    ReadStep(buf, pos, i, an, ns, authority);
  }

  lemma ReadStep(buf: Bytes, pos: nat, i: nat, an: nat, ns: nat, authority: bool)
    ensures var x, d := RecordAt(buf, pos), ReadRecords(buf, pos, i, an, ns, authority);
            if i >= an + ns || (i >= an && !authority) || x.None? then d == []
            else d == (if x.value.1 == CLASS_IN then [x.value.0] else [])
                    + ReadRecords(buf, x.value.0.start + x.value.0.length, (i + 1) % 65536, an, ns, authority)
  {
    hide RecordAt;
  }

  method WalkQuestions(buf: Bytes, qd: nat) returns (start: Option<nat>)
    ensures start == SkipQuestions(buf, HEADER_LENGTH, qd)
  {
    var pos: nat := HEADER_LENGTH;
    for i := 0 to qd
      invariant SkipQuestions(buf, HEADER_LENGTH, qd) == SkipQuestions(buf, pos, qd - i)
    {
      var p := SkipName(buf, pos);
      pos := p + 4;
      if pos > |buf| { return None; }
    }
    start := Some(pos);
  }

  method ReadRecord(buf: Bytes, pos: nat) returns (r: Option<(Record, nat)>)
    ensures r == RecordAt(buf, pos)
  {
    var p, owner := DecodeName(buf, pos);
    if p + 10 > |buf| { return None; }
    var rtype, rclass, ttl, length := U16(buf, p), U16(buf, p + 2), U32(buf, p + 4), U16(buf, p + 8);
    p := p + 10;
    if p + length > |buf| { return None; }
    r := Some((Record(owner, rtype, ttl, p, length), rclass));
  }

  // ---- any bytes: the collected ranges lie in the message and do not overlap ----------------

  ghost predicate InOrder(rs: seq<Record>, from: nat, end: nat) {
    && (forall i :: 0 <= i < |rs| ==> from + 10 <= rs[i].start && rs[i].start + rs[i].length <= end)
    && forall i, j :: 0 <= i < j < |rs| ==> rs[i].start + rs[i].length + 10 <= rs[j].start
  }

  lemma {:induction false} RecordsInOrder(buf: Bytes, pos: nat, i: nat, an: nat, ns: nat, authority: bool)
    ensures InOrder(ReadRecords(buf, pos, i, an, ns, authority), pos, |buf|)
    decreases |buf| - pos
  {
    if !(i >= an + ns || (i >= an && !authority) || RecordAt(buf, pos).None?) {
      var (r, rclass) := RecordAt(buf, pos).value;
      RecordsInOrder(buf, r.start + r.length, (i + 1) % 65536, an, ns, authority);
    }
  }

  lemma {:induction false} QuestionsAdvance(buf: Bytes, pos: nat, n: nat)
    ensures SkipQuestions(buf, pos, n).Some? ==> pos <= SkipQuestions(buf, pos, n).value
    decreases n
  {
    if n > 0 {
      SkipAdvances(buf, pos);
      QuestionsAdvance(buf, Skip(buf, pos) + 4, n - 1);
    }
  }

  /** Whatever the bytes: every collected record lies behind the header and inside the
      message, and the records do not overlap. */
  lemma ParseInOrder(buf: Bytes, authority: bool)
    ensures InOrder(Parse(buf, authority), HEADER_LENGTH, |buf|)
  {
    if |buf| >= HEADER_LENGTH {
      QuestionsAdvance(buf, HEADER_LENGTH, U16(buf, 4));
      var pos := SkipQuestions(buf, HEADER_LENGTH, U16(buf, 4));
      if pos.Some? {
        RecordsInOrder(buf, pos.value, 0, U16(buf, 6), U16(buf, 8), authority);
      }
    }
  }

  // ---- well-formed messages ---------------------------------------------------------------------

  /** A resource record as written by a server. */
  datatype Resource = Resource(name: seq<Bytes>, rtype: nat, rclass: nat, ttl: nat, data: Bytes)

  ghost predicate QuestionsAt(buf: Bytes, pos: nat, names: seq<seq<Bytes>>, end: nat)
    decreases |names|
  {
    if names == [] then pos == end
    else
      && NameAt(buf, pos, names[0], MAX_HOPS)
      && Skip(buf, pos) + 4 <= |buf|
      && QuestionsAt(buf, Skip(buf, pos) + 4, names[1..], end)
  }

  ghost predicate ResourceAt(buf: Bytes, pos: nat, r: Resource) {
    && NameAt(buf, pos, r.name, MAX_HOPS)
    && var p := Skip(buf, pos);
       && p + 10 + |r.data| <= |buf|
       && U16(buf, p) == r.rtype && U16(buf, p + 2) == r.rclass && U32(buf, p + 4) == r.ttl
       && U16(buf, p + 8) == |r.data| && buf[p + 10..p + 10 + |r.data|] == r.data
  }

  function ResourceEnd(buf: Bytes, pos: nat, r: Resource): nat {
    Skip(buf, pos) + 10 + |r.data|
  }

  ghost predicate ResourcesAt(buf: Bytes, pos: nat, rs: seq<Resource>)
    decreases |rs|
  {
    rs == [] || (ResourceAt(buf, pos, rs[0]) && ResourcesAt(buf, ResourceEnd(buf, pos, rs[0]), rs[1..]))
  }

  /** The records that are collected: those of the Internet class, with the owner as text. */
  ghost predicate Collected(buf: Bytes, out: seq<Record>, rs: seq<Resource>)
    decreases |rs|
  {
    if rs == [] then out == []
    else if rs[0].rclass != CLASS_IN then Collected(buf, out, rs[1..])
    else
      && out != []
      && out[0].owner == Join(rs[0].name) && out[0].rtype == rs[0].rtype && out[0].ttl == rs[0].ttl
      && out[0].start + out[0].length <= |buf|
      && buf[out[0].start..out[0].start + out[0].length] == rs[0].data
      && Collected(buf, out[1..], rs[1..])
  }

  lemma {:induction false} QuestionsSkipped(buf: Bytes, pos: nat, names: seq<seq<Bytes>>, end: nat)
    requires QuestionsAt(buf, pos, names, end)
    ensures SkipQuestions(buf, pos, |names|) == Some(end)
    decreases |names|
  {
    if names != [] {
      QuestionsSkipped(buf, Skip(buf, pos) + 4, names[1..], end);
    }
  }

  lemma RecordIsResource(buf: Bytes, pos: nat, r: Resource)
    requires ResourceAt(buf, pos, r)
    ensures var p := Skip(buf, pos);
            RecordAt(buf, pos) == Some((Record(Join(r.name), r.rtype, r.ttl, p + 10, |r.data|), r.rclass))
  {
    DecodeAnyName(buf, pos, r.name);
  }

  lemma DataOfResource(buf: Bytes, pos: nat, r: Resource)
    requires ResourceAt(buf, pos, r)
    ensures var p := Skip(buf, pos) + 10; p + |r.data| <= |buf| && buf[p..p + |r.data|] == r.data
  {
  }

  function ResourcesEnd(buf: Bytes, pos: nat, rs: seq<Resource>): nat
    decreases |rs|
  {
    if rs == [] then pos else ResourcesEnd(buf, ResourceEnd(buf, pos, rs[0]), rs[1..])
  }

  /** All records from a position on, as far as they fit. */
  function ReadOn(buf: Bytes, pos: nat): seq<Record>
    decreases |buf| - pos
  {
    if RecordAt(buf, pos).None? then []
    else
      var (r, rclass) := RecordAt(buf, pos).value;
      (if rclass == CLASS_IN then [r] else []) + ReadOn(buf, r.start + r.length)
  }

  /** A 16-bit counter never reaches a larger total. */
  lemma {:induction false} CounterWraps(buf: Bytes, pos: nat, i: nat, an: nat, ns: nat)
    requires an + ns > 65535 && i <= 65535
    ensures ReadRecords(buf, pos, i, an, ns, true) == ReadOn(buf, pos)
    decreases |buf| - pos
  {
    hide RecordAt;
    if RecordAt(buf, pos).Some? {
      var r := RecordAt(buf, pos).value.0;
      CounterWraps(buf, r.start + r.length, (i + 1) % 65536, an, ns);
    }
  }

  /** What is read beyond the records that the header counts. */
  function Surplus(buf: Bytes, pos: nat, an: nat, ns: nat, authority: bool): seq<Record> {
    if authority && an + ns > 65535 then ReadOn(buf, pos) else []
  }

  ghost predicate CollectedFirst(buf: Bytes, out: seq<Record>, rs: seq<Resource>, rest: seq<Record>) {
    exists n :: 0 <= n <= |out| && Collected(buf, out[..n], rs) && out[n..] == rest
  }

  lemma CollectedCons(buf: Bytes, r: Record, out: seq<Record>, x: Resource, rs: seq<Resource>, rest: seq<Record>)
    requires CollectedFirst(buf, out, rs, rest)
    requires x.rclass == CLASS_IN ==>
               && r.owner == Join(x.name) && r.rtype == x.rtype && r.ttl == x.ttl
               && r.start + r.length <= |buf| && buf[r.start..r.start + r.length] == x.data
    ensures CollectedFirst(buf, (if x.rclass == CLASS_IN then [r] else []) + out, [x] + rs, rest)
  {
    hide Join;
    var n :| 0 <= n <= |out| && Collected(buf, out[..n], rs) && out[n..] == rest;
    assert ([x] + rs)[1..] == rs;
    if x.rclass == CLASS_IN {
      var out' := [r] + out;
      assert out'[..n + 1] == [r] + out[..n] && ([r] + out[..n])[1..] == out[..n];
      assert out'[n + 1..] == rest;
    } else {
      assert [] + out == out;
    }
  }

  lemma {:induction false} ResourcesRead(buf: Bytes, pos: nat, i: nat, an: nat, ns: nat,
                                            authority: bool, rs: seq<Resource>)
    requires ResourcesAt(buf, pos, rs) && (authority ==> an + ns <= 65535) && an <= 65535
    requires i + |rs| == if authority then an + ns else an
    ensures CollectedFirst(buf, ReadRecords(buf, pos, i, an, ns, authority), rs, [])
    decreases |rs|
  {
    hide RecordAt, ResourceAt, ReadRecords, Join, U16, U32, CollectedFirst;
    ReadStep(buf, pos, i, an, ns, authority);
    if rs == [] {
      NothingCollected(buf, []);
    } else {
      RecordIsResource(buf, pos, rs[0]);
      DataOfResource(buf, pos, rs[0]);
      var end := ResourceEnd(buf, pos, rs[0]);
      ResourcesRead(buf, end, i + 1, an, ns, authority, rs[1..]);
      var r := RecordAt(buf, pos).value.0;
      CollectedCons(buf, r, ReadRecords(buf, end, i + 1, an, ns, authority), rs[0], rs[1..], []);
      assert rs == [rs[0]] + rs[1..];
    }
  }

  lemma NothingCollected(buf: Bytes, rest: seq<Record>)
    ensures CollectedFirst(buf, rest, [], rest)
  {
    assert Collected(buf, rest[..0], []) && rest[0..] == rest;
  }

  lemma {:induction false} ResourcesReadOn(buf: Bytes, pos: nat, rs: seq<Resource>)
    requires ResourcesAt(buf, pos, rs)
    ensures CollectedFirst(buf, ReadOn(buf, pos), rs, ReadOn(buf, ResourcesEnd(buf, pos, rs)))
    decreases |rs|
  {
    hide RecordAt, ResourceAt, Join, U16, U32, CollectedFirst;
    if rs == [] {
      NothingCollected(buf, ReadOn(buf, pos));
    } else {
      RecordIsResource(buf, pos, rs[0]);
      DataOfResource(buf, pos, rs[0]);
      var end := ResourceEnd(buf, pos, rs[0]);
      ResourcesReadOn(buf, end, rs[1..]);
      var r := RecordAt(buf, pos).value.0;
      CollectedCons(buf, r, ReadOn(buf, end), rs[0], rs[1..], ReadOn(buf, ResourcesEnd(buf, pos, rs)));
      assert rs == [rs[0]] + rs[1..];
    }
  }

  function CountIn(rs: seq<Resource>): nat {
    if rs == [] then 0 else (if rs[0].rclass == CLASS_IN then 1 else 0) + CountIn(rs[1..])
  }

  lemma {:induction false} CollectedSize(buf: Bytes, out: seq<Record>, rs: seq<Resource>)
    requires Collected(buf, out, rs)
    ensures |out| == CountIn(rs)
    decreases |rs|
  {
    if rs != [] {
      CollectedSize(buf, if rs[0].rclass == CLASS_IN then out[1..] else out, rs[1..]);
    }
  }

  /** A header and what follows it: as many resources as the two counts announce. */
  ghost predicate WellFormed(buf: Bytes, authority: bool, names: seq<seq<Bytes>>, end: nat, rs: seq<Resource>) {
    && |buf| >= HEADER_LENGTH && U16(buf, 4) == |names|
    && QuestionsAt(buf, HEADER_LENGTH, names, end) && ResourcesAt(buf, end, rs)
    && |rs| == if authority then U16(buf, 6) + U16(buf, 8) else U16(buf, 6)
  }

  /** A well-formed message of any size: its records of the Internet class, in order, and after
      them what the wrapping counter reads on. */
  lemma ParseAnySize(buf: Bytes, authority: bool, names: seq<seq<Bytes>>, end: nat, rs: seq<Resource>)
    requires WellFormed(buf, authority, names, end, rs)
    ensures CollectedFirst(buf, Parse(buf, authority), rs,
                           Surplus(buf, ResourcesEnd(buf, end, rs), U16(buf, 6), U16(buf, 8), authority))
  {
    hide CollectedFirst, ReadRecords, ReadOn;
    var an, ns := U16(buf, 6), U16(buf, 8);
    QuestionsSkipped(buf, HEADER_LENGTH, names, end);
    if authority && an + ns > 65535 {
      CounterWraps(buf, end, 0, an, ns);
      ResourcesReadOn(buf, end, rs);
    } else {
      ResourcesRead(buf, end, 0, an, ns, authority, rs);
    }
  }

  /** Exactly the wanted records are returned if and only if nothing surplus is read. */
  lemma ParseExactIff(buf: Bytes, authority: bool, names: seq<seq<Bytes>>, end: nat, rs: seq<Resource>)
    requires WellFormed(buf, authority, names, end, rs)
    ensures Collected(buf, Parse(buf, authority), rs) <==>
            Surplus(buf, ResourcesEnd(buf, end, rs), U16(buf, 6), U16(buf, 8), authority) == []
  {
    hide Surplus, Parse;
    ParseAnySize(buf, authority, names, end, rs);
    var out := Parse(buf, authority);
    var rest := Surplus(buf, ResourcesEnd(buf, end, rs), U16(buf, 6), U16(buf, 8), authority);
    var n :| 0 <= n <= |out| && Collected(buf, out[..n], rs) && out[n..] == rest;
    CollectedSize(buf, out[..n], rs);
    if rest == [] {
      assert out[..n] == out;
    } else if Collected(buf, out, rs) {
      CollectedSize(buf, out, rs);
    }
  }

  lemma {:induction false} ResourcesFit(buf: Bytes, pos: nat, rs: seq<Resource>)
    requires ResourcesAt(buf, pos, rs) && pos <= |buf|
    ensures pos + 10 * |rs| <= |buf|
    decreases |rs|
  {
    if rs != [] {
      SkipAdvances(buf, pos);
      ResourcesFit(buf, ResourceEnd(buf, pos, rs[0]), rs[1..]);
    }
  }

  lemma {:induction false} QuestionsFit(buf: Bytes, pos: nat, names: seq<seq<Bytes>>, end: nat)
    requires QuestionsAt(buf, pos, names, end) && pos <= |buf|
    ensures end <= |buf|
    decreases |names|
  {
    if names != [] {
      QuestionsFit(buf, Skip(buf, pos) + 4, names[1..], end);
    }
  }

  /** A message laid out by the standard, whose length fits 16 bits, is parsed into exactly its
      records of the Internet class: the answers, and the authority section too when it is
      asked for. Without that section the length does not matter. */
  lemma ParseWellFormed(buf: Bytes, authority: bool, names: seq<seq<Bytes>>, end: nat, rs: seq<Resource>)
    requires WellFormed(buf, authority, names, end, rs)
    requires authority ==> |buf| <= 65535
    ensures Collected(buf, Parse(buf, authority), rs)
  {
    hide Parse, ReadOn, Collected;
    QuestionsFit(buf, HEADER_LENGTH, names, end);
    ResourcesFit(buf, end, rs);
    ParseExactIff(buf, authority, names, end, rs);
  }

  /** The smallest record: the root name, type 1 and class 1, no data. */
  const ROOT_RECORD: Bytes := [0, 0, 1, 0, 1, 0, 0, 0, 0, 0, 0]
  const ROOT_RESOURCE: Resource := Resource([], 1, CLASS_IN, 0, [])

  function RootRecords(n: nat): (b: Bytes)
    ensures |b| == 11 * n
  {
    if n == 0 then [] else ROOT_RECORD + RootRecords(n - 1)
  }

  lemma RootResource(buf: Bytes, pos: nat)
    requires pos + 11 <= |buf| && buf[pos..pos + 11] == ROOT_RECORD
    ensures ResourceAt(buf, pos, ROOT_RESOURCE) && ResourceEnd(buf, pos, ROOT_RESOURCE) == pos + 11
    ensures RecordAt(buf, pos).Some? && RecordAt(buf, pos).value.1 == CLASS_IN
  {
    assert forall k :: 0 <= k < 11 ==> buf[pos + k] == ROOT_RECORD[k];
    assert buf[pos] == 0 && buf[pos + 2] == 1 && buf[pos + 4] == 1;
    assert NameAt(buf, pos, [], MAX_HOPS) && Skip(buf, pos) == pos + 1;
    assert ResourceAt(buf, pos, ROOT_RESOURCE);
    RecordIsResource(buf, pos, ROOT_RESOURCE);
  }

  lemma {:induction false} RootResources(buf: Bytes, pos: nat, n: nat)
    requires pos + 11 * n <= |buf| && buf[pos..pos + 11 * n] == RootRecords(n)
    ensures ResourcesAt(buf, pos, seq(n, _ => ROOT_RESOURCE))
    ensures ResourcesEnd(buf, pos, seq(n, _ => ROOT_RESOURCE)) == pos + 11 * n
    decreases n
  {
    hide ResourceAt, RecordAt, ResourceEnd;
    if n > 0 {
      var rs := seq(n, _ => ROOT_RESOURCE);
      assert rs[1..] == seq(n - 1, _ => ROOT_RESOURCE) && rs[0] == ROOT_RESOURCE;
      assert buf[pos..pos + 11] == buf[pos..pos + 11 * n][..11];
      assert buf[pos + 11..pos + 11 * n] == buf[pos..pos + 11 * n][11..];
      RootResource(buf, pos);
      RootResources(buf, pos + 11, n - 1);
    }
  }

  lemma {:induction false} RootRecordsEnd(n: nat)
    ensures RootRecords(n + 1) == RootRecords(n) + ROOT_RECORD
  {
    if n > 0 {
      RootRecordsEnd(n - 1);
      assert ROOT_RECORD + (RootRecords(n - 1) + ROOT_RECORD) == ROOT_RECORD + RootRecords(n - 1) + ROOT_RECORD;
    }
  }

  /** 65535 answers and one authority record are announced and one record more is sent: the
      counter wraps before it reaches 65536, and the record too many is returned as well. */
  lemma SurplusRead() returns (buf: Bytes, rs: seq<Resource>)
    ensures WellFormed(buf, true, [], HEADER_LENGTH, rs) && !Collected(buf, Parse(buf, true), rs)
  {
    hide ResourceAt, RecordAt, ResourcesAt, ResourcesEnd, Parse, Collected, RootRecords;
    var head: Bytes := [0, 0, 0, 0, 0, 0, 255, 255, 0, 1, 0, 0];
    buf, rs := head + RootRecords(65537), seq(65536, _ => ROOT_RESOURCE);
    RootRecordsEnd(65536);
    var end := HEADER_LENGTH + 11 * 65536;
    assert buf == head + RootRecords(65536) + ROOT_RECORD;
    assert buf[HEADER_LENGTH..end] == RootRecords(65536) && buf[end..end + 11] == ROOT_RECORD;
    RootResources(buf, HEADER_LENGTH, 65536);
    RootResource(buf, end);
    assert ReadOn(buf, end) != [];
    ParseExactIff(buf, true, [], HEADER_LENGTH, rs);
  }
}
