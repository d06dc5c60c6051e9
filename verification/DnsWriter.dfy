/** DNS messages as servers write them (section 4.1 of RFC 1035), and what the parser makes of
    their bytes. */
module DnsWriter {
  import opened DnsName
  import opened DnsMessage

  // ---- numbers in network byte order ------------------------------------------------------

  function Put16(n: nat): (b: Bytes)
    requires n < 0x1_0000
    ensures |b| == 2
  {
    [n / 256, n % 256]
  }

  function Put32(n: nat): Bytes
    requires n < 0x1_0000_0000
  {
    Put16(n / 0x1_0000) + Put16(n % 0x1_0000)
  }

  lemma ReadPut16(buf: Bytes, pos: nat, n: nat)
    requires n < 0x1_0000 && pos + 2 <= |buf| && buf[pos..pos + 2] == Put16(n)
    ensures U16(buf, pos) == n
  {
    assert buf[pos] == buf[pos..pos + 2][0] && buf[pos + 1] == buf[pos..pos + 2][1];
  }

  lemma ReadPut32(buf: Bytes, pos: nat, n: nat)
    requires n < 0x1_0000_0000 && pos + 4 <= |buf| && buf[pos..pos + 4] == Put32(n)
    ensures U32(buf, pos) == n
  {
    hide U16, Put16;
    SliceOf(buf, pos, Put32(n), Put16(n / 0x1_0000), Put16(n % 0x1_0000));
    ReadPut16(buf, pos, n / 0x1_0000);
    ReadPut16(buf, pos + 2, n % 0x1_0000);
  }

  // ---- names ------------------------------------------------------------------------------

  /** An owner name: labels that end there, or that end in a pointer to the first question. */
  datatype Owner = Owner(labels: seq<Bytes>, pointed: bool)

  /** Labels with their length bytes, followed by `end`. */
  function LabelsThen(ls: seq<Bytes>, end: Bytes): Bytes
    requires ValidLabels(ls)
  {
    if ls == [] then end else [|ls[0]|] + ls[0] + LabelsThen(ls[1..], end)
  }

  /** The two bytes of a pointer (section 4.1.4 of RFC 1035). */
  function PointerTo(target: nat): Bytes
    requires target < 0x4000
  {
    [192 + target / 256, target % 256]
  }

  function PutName(o: Owner): Bytes
    requires ValidLabels(o.labels)
  {
    LabelsThen(o.labels, if o.pointed then PointerTo(12) else [0])
  }

  /** The name an owner stands for in a message whose first question asks for `asked`. */
  function Meant(o: Owner, asked: seq<Bytes>): seq<Bytes> {
    if o.pointed then o.labels + asked else o.labels
  }

  lemma PointerElement(buf: Bytes, pos: nat, target: nat)
    requires target < 0x4000 && pos + 2 <= |buf| && buf[pos..pos + 2] == PointerTo(target)
    ensures ElementAt(buf, pos) == Pointer(target) && Skip(buf, pos) == pos + 2
  {
    assert buf[pos] == buf[pos..pos + 2][0] && buf[pos + 1] == buf[pos..pos + 2][1];
  }

  lemma LabelsThenParts(buf: Bytes, pos: nat, ls: seq<Bytes>, end: Bytes)
    requires ValidLabels(ls) && ls != []
    requires var w := LabelsThen(ls, end); pos + |w| <= |buf| && buf[pos..pos + |w|] == w
    ensures var n, t := |ls[0]|, LabelsThen(ls[1..], end);
            && |LabelsThen(ls, end)| == 1 + n + |t|
            && buf[pos] == n && buf[pos + 1..pos + 1 + n] == ls[0] && buf[pos + 1 + n..pos + 1 + n + |t|] == t
  {
    var n, t, w := |ls[0]|, LabelsThen(ls[1..], end), LabelsThen(ls, end);
    assert w == [n] + (ls[0] + t);
    hide LabelsThen;
    assert buf[pos] == buf[pos..pos + |w|][0];
    SliceOf(buf, pos, w, [n], ls[0] + t);
    SliceOf(buf, pos + 1, ls[0] + t, ls[0], t);
  }

  /** Labels as they are written: the decoder finds each of them, and `end` behind the last. */
  lemma {:induction false} LabelsStand(buf: Bytes, pos: nat, ls: seq<Bytes>, end: Bytes)
    requires ValidLabels(ls) && end != []
    requires var w := LabelsThen(ls, end); pos + |w| <= |buf| && buf[pos..pos + |w|] == w
    ensures LabelsAt(buf, pos, ls) && LabelsEnd(pos, ls) + |end| == pos + |LabelsThen(ls, end)|
    ensures buf[LabelsEnd(pos, ls)..LabelsEnd(pos, ls) + |end|] == end
    decreases |ls|
  {
    if ls != [] {
      LabelsThenParts(buf, pos, ls, end);
      hide LabelsThen;
      LabelsStand(buf, pos + 1 + |ls[0]|, ls[1..], end);
    }
  }

  /** A written owner is a name of the message, and the walk goes on right behind it. */
  lemma OwnerStands(buf: Bytes, pos: nat, o: Owner, asked: seq<Bytes>)
    requires ValidLabels(o.labels) && (o.pointed ==> NameAt(buf, 12, asked, 0))
    requires pos + |PutName(o)| <= |buf| && buf[pos..pos + |PutName(o)|] == PutName(o)
    ensures NameAt(buf, pos, Meant(o, asked), MAX_HOPS) && Skip(buf, pos) == pos + |PutName(o)|
  {
    hide Skip;
    var end: Bytes := if o.pointed then PointerTo(12) else [0];
    LabelsStand(buf, pos, o.labels, end);
    SkipLabels(buf, pos, o.labels);
    var p := LabelsEnd(pos, o.labels);
    if o.pointed {
      PointerElement(buf, p, 12);
      assert NameAt(buf, p, asked, 1);
      LabelsThenName(buf, pos, o.labels, asked, 1);
      NameAtMoreHops(buf, pos, o.labels + asked, 1, MAX_HOPS);
    } else {
      EndElement(buf, p);
      LabelsThenName(buf, pos, o.labels, [], 0);
      assert o.labels + [] == o.labels;
      NameAtMoreHops(buf, pos, o.labels, 0, MAX_HOPS);
    }
  }

  lemma EndElement(buf: Bytes, pos: nat)
    requires pos < |buf| && buf[pos..pos + 1] == [0]
    ensures NameAt(buf, pos, [], 0) && Skip(buf, pos) == pos + 1
  {
    assert buf[pos] == buf[pos..pos + 1][0];
  }

  // ---- questions and resources --------------------------------------------------------------

  datatype Question = Question(name: seq<Bytes>, qtype: nat, qclass: nat)

  datatype Entry = Entry(owner: Owner, rtype: nat, rclass: nat, ttl: nat, data: Bytes)

  ghost predicate ValidQuestion(q: Question) {
    ValidLabels(q.name) && q.qtype < 0x1_0000 && q.qclass < 0x1_0000
  }

  /** The fields fit their widths, and a pointer has a question to point to. */
  ghost predicate ValidEntry(e: Entry, qs: seq<Question>) {
    && ValidLabels(e.owner.labels) && (e.owner.pointed ==> qs != [])
    && e.rtype < 0x1_0000 && e.rclass < 0x1_0000 && e.ttl < 0x1_0000_0000 && |e.data| < 0x1_0000
  }

  ghost predicate ValidQuestions(qs: seq<Question>) {
    forall i :: 0 <= i < |qs| ==> ValidQuestion(qs[i])
  }

  ghost predicate ValidEntries(es: seq<Entry>, qs: seq<Question>) {
    forall i :: 0 <= i < |es| ==> ValidEntry(es[i], qs)
  }

  ghost function PutQuestion(q: Question): Bytes
    requires ValidQuestion(q)
  {
    PutName(Owner(q.name, false)) + (Put16(q.qtype) + Put16(q.qclass))
  }

  ghost function PutEntry(e: Entry, qs: seq<Question>): Bytes
    requires ValidEntry(e, qs)
  {
    PutName(e.owner)
    + (Put16(e.rtype) + (Put16(e.rclass) + (Put32(e.ttl) + (Put16(|e.data|) + e.data))))
  }

  ghost function PutQuestions(qs: seq<Question>): Bytes
    requires ValidQuestions(qs)
  {
    if qs == [] then [] else PutQuestion(qs[0]) + PutQuestions(qs[1..])
  }

  ghost function PutEntries(es: seq<Entry>, qs: seq<Question>): Bytes
    requires ValidEntries(es, qs)
  {
    if es == [] then [] else PutEntry(es[0], qs) + PutEntries(es[1..], qs)
  }

  function Names(qs: seq<Question>): seq<seq<Bytes>> {
    seq(|qs|, i requires 0 <= i < |qs| => qs[i].name)
  }

  function Asked(qs: seq<Question>): seq<Bytes> {
    if qs == [] then [] else qs[0].name
  }

  function Meaning(e: Entry, qs: seq<Question>): Resource {
    Resource(Meant(e.owner, Asked(qs)), e.rtype, e.rclass, e.ttl, e.data)
  }

  function Meanings(es: seq<Entry>, qs: seq<Question>): seq<Resource> {
    seq(|es|, i requires 0 <= i < |es| => Meaning(es[i], qs))
  }

  ghost predicate Stands(buf: Bytes, pos: nat, w: Bytes) {
    pos + |w| <= |buf| && buf[pos..pos + |w|] == w
  }

  lemma StandsParts(buf: Bytes, pos: nat, a: Bytes, b: Bytes)
    requires Stands(buf, pos, a + b)
    ensures Stands(buf, pos, a) && Stands(buf, pos + |a|, b)
  {
    SliceOf(buf, pos, a + b, a, b);
  }

  lemma QuestionStands(buf: Bytes, pos: nat, q: Question)
    requires ValidQuestion(q) && Stands(buf, pos, PutQuestion(q))
    ensures NameAt(buf, pos, q.name, MAX_HOPS)
    ensures Skip(buf, pos) + 4 == pos + |PutQuestion(q)| <= |buf|
  {
    hide NameAt, Skip, PutName;
    var o := Owner(q.name, false);
    StandsParts(buf, pos, PutName(o), Put16(q.qtype) + Put16(q.qclass));
    OwnerStands(buf, pos, o, []);
  }

  lemma {:induction false} QuestionsStand(buf: Bytes, pos: nat, qs: seq<Question>)
    requires ValidQuestions(qs) && Stands(buf, pos, PutQuestions(qs))
    ensures QuestionsAt(buf, pos, Names(qs), pos + |PutQuestions(qs)|)
    decreases |qs|
  {
    hide PutQuestion, Stands, NameAt, Skip;
    if qs != [] {
      StandsParts(buf, pos, PutQuestion(qs[0]), PutQuestions(qs[1..]));
      QuestionStands(buf, pos, qs[0]);
      QuestionsStand(buf, pos + |PutQuestion(qs[0])|, qs[1..]);
      assert Names(qs)[1..] == Names(qs[1..]);
    }
  }

  /** The fixed part of a record, behind its owner name. */
  lemma FixedPart(buf: Bytes, p: nat, e: Entry, qs: seq<Question>)
    requires ValidEntry(e, qs)
    requires Stands(buf, p, Put16(e.rtype) + (Put16(e.rclass) + (Put32(e.ttl) + (Put16(|e.data|) + e.data))))
    ensures p + 10 + |e.data| <= |buf|
    ensures U16(buf, p) == e.rtype && U16(buf, p + 2) == e.rclass && U32(buf, p + 4) == e.ttl
    ensures U16(buf, p + 8) == |e.data| && buf[p + 10..p + 10 + |e.data|] == e.data
  {
    StandsParts(buf, p, Put16(e.rtype), Put16(e.rclass) + (Put32(e.ttl) + (Put16(|e.data|) + e.data)));
    StandsParts(buf, p + 2, Put16(e.rclass), Put32(e.ttl) + (Put16(|e.data|) + e.data));
    StandsParts(buf, p + 4, Put32(e.ttl), Put16(|e.data|) + e.data);
    StandsParts(buf, p + 8, Put16(|e.data|), e.data);
    hide U16, U32;
    ReadPut16(buf, p, e.rtype);
    ReadPut16(buf, p + 2, e.rclass);
    ReadPut32(buf, p + 4, e.ttl);
    ReadPut16(buf, p + 8, |e.data|);
  }

  lemma EntryStands(buf: Bytes, pos: nat, e: Entry, qs: seq<Question>)
    requires ValidEntry(e, qs) && (qs != [] ==> NameAt(buf, 12, Asked(qs), 0))
    requires Stands(buf, pos, PutEntry(e, qs))
    ensures ResourceAt(buf, pos, Meaning(e, qs))
    ensures ResourceEnd(buf, pos, Meaning(e, qs)) == pos + |PutEntry(e, qs)|
  {
    hide Skip, NameAt, PutName, Put16, Put32, U16, U32;
    var fixed := Put16(e.rtype) + (Put16(e.rclass) + (Put32(e.ttl) + (Put16(|e.data|) + e.data)));
    StandsParts(buf, pos, PutName(e.owner), fixed);
    OwnerStands(buf, pos, e.owner, Asked(qs));
    FixedPart(buf, pos + |PutName(e.owner)|, e, qs);
    FixedLength(e, qs);
  }

  lemma FixedLength(e: Entry, qs: seq<Question>)
    requires ValidEntry(e, qs)
    ensures |PutEntry(e, qs)| == |PutName(e.owner)| + 10 + |e.data|
  {
  }

  lemma ResourcesCons(buf: Bytes, pos: nat, rs: seq<Resource>)
    requires rs == [] || (ResourceAt(buf, pos, rs[0]) && ResourcesAt(buf, ResourceEnd(buf, pos, rs[0]), rs[1..]))
    ensures ResourcesAt(buf, pos, rs)
  {
  }

  lemma MeaningsCons(es: seq<Entry>, qs: seq<Question>)
    requires es != []
    ensures Meanings(es, qs) == [Meaning(es[0], qs)] + Meanings(es[1..], qs)
  {
    hide Meaning;
  }

  lemma {:induction false} EntriesStand(buf: Bytes, pos: nat, es: seq<Entry>, qs: seq<Question>)
    requires ValidEntries(es, qs) && (qs != [] ==> NameAt(buf, 12, Asked(qs), 0))
    requires Stands(buf, pos, PutEntries(es, qs))
    ensures ResourcesAt(buf, pos, Meanings(es, qs))
    decreases |es|
  {
    hide ResourceAt, ResourceEnd, ResourcesAt, PutEntry, Meaning, Meanings, NameAt, Stands, Asked;
    if es == [] {
      ResourcesCons(buf, pos, []);
      NoMeanings(qs);
    } else {
      StandsParts(buf, pos, PutEntry(es[0], qs), PutEntries(es[1..], qs));
      hide PutEntries;
      EntryStands(buf, pos, es[0], qs);
      EntriesStand(buf, pos + |PutEntry(es[0], qs)|, es[1..], qs);
      MeaningsCons(es, qs);
      ResourcesCons(buf, pos, Meanings(es, qs));
    }
  }

  lemma NoMeanings(qs: seq<Question>)
    ensures Meanings([], qs) == []
  {
  }

  // ---- the round trip --------------------------------------------------------------------------

  /** A message: identification, flags, the four counts, questions, answers, authority records,
      and whatever follows them. */
  datatype Message = Message(id: nat, flags: nat, questions: seq<Question>, answers: seq<Entry>,
                             authority: seq<Entry>, additional: nat, rest: Bytes)

  ghost predicate ValidMessage(m: Message) {
    && m.id < 0x1_0000 && m.flags < 0x1_0000 && m.additional < 0x1_0000
    && |m.questions| < 0x1_0000 && |m.answers| < 0x1_0000 && |m.authority| < 0x1_0000
    && ValidQuestions(m.questions) && ValidEntries(m.answers + m.authority, m.questions)
  }

  ghost function Header(m: Message): (h: Bytes)
    requires ValidMessage(m)
    ensures |h| == 12
  {
    Put16(m.id) + Put16(m.flags) + Put16(|m.questions|) + Put16(|m.answers|) + Put16(|m.authority|)
    + Put16(m.additional)
  }

  ghost function Write(m: Message): Bytes
    requires ValidMessage(m)
  {
    Header(m) + (PutQuestions(m.questions) + (PutEntries(m.answers + m.authority, m.questions) + m.rest))
  }

  /** The records asked for: the answers, and the authority records too when they are wanted. */
  function Wanted(m: Message, authority: bool): seq<Entry> {
    if authority then m.answers + m.authority else m.answers
  }

  /** The entries of the Internet class. */
  function Internet(es: seq<Entry>): seq<Entry> {
    if es == [] then [] else (if es[0].rclass == 1 then [es[0]] else []) + Internet(es[1..])
  }

  lemma HeaderCounts(m: Message, buf: Bytes)
    requires ValidMessage(m) && Stands(buf, 0, Header(m))
    ensures U16(buf, 4) == |m.questions| && U16(buf, 6) == |m.answers| && U16(buf, 8) == |m.authority|
  {
    assert forall i :: 0 <= i < 12 ==> buf[i] == buf[0..0 + |Header(m)|][i];
    ReadPut16(buf, 4, |m.questions|);
    ReadPut16(buf, 6, |m.answers|);
    ReadPut16(buf, 8, |m.authority|);
  }

  lemma FirstQuestion(buf: Bytes, qs: seq<Question>)
    requires ValidQuestions(qs) && qs != [] && Stands(buf, 12, PutQuestions(qs))
    ensures NameAt(buf, 12, Asked(qs), 0)
  {
    var o := Owner(qs[0].name, false);
    StandsParts(buf, 12, PutQuestion(qs[0]), PutQuestions(qs[1..]));
    StandsParts(buf, 12, PutName(o), Put16(qs[0].qtype) + Put16(qs[0].qclass));
    LabelsStand(buf, 12, qs[0].name, [0]);
    EndElement(buf, LabelsEnd(12, qs[0].name));
    LabelsThenName(buf, 12, qs[0].name, [], 0);
    assert qs[0].name + [] == qs[0].name;
  }

  lemma {:induction false} FewerResources(buf: Bytes, pos: nat, rs: seq<Resource>, n: nat)
    requires ResourcesAt(buf, pos, rs) && n <= |rs|
    ensures ResourcesAt(buf, pos, rs[..n])
    decreases |rs|
  {
    if n > 0 {
      FewerResources(buf, ResourceEnd(buf, pos, rs[0]), rs[1..], n - 1);
      assert rs[..n][1..] == rs[1..][..n - 1];
    }
  }

  lemma WrittenIsWellFormed(m: Message, authority: bool)
    requires ValidMessage(m)
    ensures WellFormed(Write(m), authority, Names(m.questions), 12 + |PutQuestions(m.questions)|,
                       Meanings(Wanted(m, authority), m.questions))
    ensures U16(Write(m), 6) == |m.answers| && U16(Write(m), 8) == |m.authority|
  {
    hide PutQuestions, PutEntries, ResourcesAt, QuestionsAt, U16, NameAt, Meaning;
    var buf, qs, es := Write(m), m.questions, m.answers + m.authority;
    assert Stands(buf, 0, buf);
    StandsParts(buf, 0, Header(m), PutQuestions(qs) + (PutEntries(es, qs) + m.rest));
    StandsParts(buf, 12, PutQuestions(qs), PutEntries(es, qs) + m.rest);
    var end := 12 + |PutQuestions(qs)|;
    StandsParts(buf, end, PutEntries(es, qs), m.rest);
    HeaderCounts(m, buf);
    QuestionsStand(buf, 12, qs);
    if qs != [] {
      FirstQuestion(buf, qs);
    }
    EntriesStand(buf, end, es, qs);
    FewerResources(buf, end, Meanings(es, qs), |m.answers|);
    assert Meanings(es, qs)[..|m.answers|] == Meanings(m.answers, qs);
  }

  /** A collected record is the entry: its owner as text, its type, its time to live, and the
      range of the message that holds its data. */
  ghost predicate Returns(buf: Bytes, r: Record, e: Entry, qs: seq<Question>) {
    && r.owner == Join(Meant(e.owner, Asked(qs))) && r.rtype == e.rtype && r.ttl == e.ttl
    && r.start + r.length <= |buf| && buf[r.start..r.start + r.length] == e.data
  }

  lemma {:induction false} CollectedReturns(buf: Bytes, out: seq<Record>, es: seq<Entry>, qs: seq<Question>)
    requires DnsMessage.Collected(buf, out, Meanings(es, qs))
    ensures |out| == |Internet(es)|
    ensures forall i :: 0 <= i < |out| ==> Returns(buf, out[i], Internet(es)[i], qs)
    decreases |es|
  {
    hide Join, Meant;
    if es != [] {
      assert Meanings(es, qs)[1..] == Meanings(es[1..], qs);
      if es[0].rclass == 1 {
        CollectedReturns(buf, out[1..], es[1..], qs);
        assert Returns(buf, out[0], es[0], qs);
        assert forall i :: 0 < i < |out| ==> out[i] == out[1..][i - 1] && Internet(es)[i] == Internet(es[1..])[i - 1];
      } else {
        CollectedReturns(buf, out, es[1..], qs);
        assert Internet(es) == Internet(es[1..]);
      }
    }
  }

  /** Parsing a written message returns exactly its records of the Internet class, in order:
      the answers, and the authority records when wanted. The wanted counts must not add up to
      more than the 16-bit record counter can reach. */
  lemma ParseWrite(m: Message, authority: bool)
    requires ValidMessage(m) && (authority ==> |m.answers| + |m.authority| < 0x1_0000)
    ensures var buf, es := Write(m), Internet(Wanted(m, authority));
            var out := Parse(buf, authority);
            && |out| == |es|
            && forall i :: 0 <= i < |es| ==> Returns(buf, out[i], es[i], m.questions)
  {
    hide Write, Parse, WellFormed, DnsMessage.Collected, Returns, Wanted, U16;
    WrittenIsWellFormed(m, authority);
    var rs := Meanings(Wanted(m, authority), m.questions);
    var end := 12 + |PutQuestions(m.questions)|;
    WellFormedHeader(Write(m), authority, Names(m.questions), end, rs);
    ParseExactIff(Write(m), authority, Names(m.questions), end, rs);
    CollectedReturns(Write(m), Parse(Write(m), authority), Wanted(m, authority), m.questions);
  }

  lemma WellFormedHeader(buf: Bytes, authority: bool, names: seq<seq<Bytes>>, end: nat, rs: seq<Resource>)
    requires WellFormed(buf, authority, names, end, rs)
    ensures |buf| >= HEADER_LENGTH
  {
  }
}
