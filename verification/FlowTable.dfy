/** A table of flows waiting for a reply, and the history it must agree with. */
module FlowTable {
  import opened Wrappers

  datatype IpVersion = V4 | V6

  /** Who asked whom. */
  datatype Flow = Flow(
    version: IpVersion, initiatorIp: string, initiatorPort: nat, responderIp: string, responderPort: nat)

  type word32 = x: nat | x < 0x1_0000_0000

  /** A request that waits for its reply: its sequence number and the time it was last sent. */
  datatype Entry = Entry(flow: Flow, token: word32, sentAt: int)

  type Table = seq<Entry>

  // ---- operations on the table ----------------------------------------------------------

  ghost predicate Accepts(e: Entry, flow: Flow, want: Option<word32>) {
    e.flow == flow && (want.None? || e.token == want.value)
  }

  function FindFlow(t: Table, flow: Flow, want: Option<word32>): (r: Option<nat>)
    ensures r.Some? ==> r.value < |t| && Accepts(t[r.value], flow, want)
    ensures forall i :: 0 <= i < |t| && (r.Some? ==> i < r.value) ==> !Accepts(t[i], flow, want)
  {
    if t == [] then None
    else if t[0].flow == flow && (want.None? || t[0].token == want.value) then Some(0)
    else
      var r := FindFlow(t[1..], flow, want);
      assert forall i :: 1 <= i < |t| ==> t[i] == t[1..][i - 1];
      if r.None? then None else Some(r.value + 1)
  }

  /** A request refreshes the entry of its flow, or adds one. */
  function Remember(t: Table, flow: Flow, token: word32, now: int): Table {
    var r := FindFlow(t, flow, None);
    if r.Some? then t[r.value := Entry(flow, token, now)] else t + [Entry(flow, token, now)]
  }

  /** A reply removes the entry it answers. */
  function Take(t: Table, flow: Flow, want: Option<word32>): (Table, bool) {
    var r := FindFlow(t, flow, want);
    if r.Some? then (t[..r.value] + t[r.value + 1..], true) else (t, false)
  }

  function Unexpired(t: Table, now: int, timeout: int): Table {
    if t == [] then []
    else (if now - t[0].sentAt > timeout then [] else [t[0]]) + Unexpired(t[1..], now, timeout)
  }

  method RememberFlow(t: Table, flow: Flow, token: word32, now: int) returns (t': Table)
    ensures t' == Remember(t, flow, token, now)
  {
    for i := 0 to |t|
      invariant forall j :: 0 <= j < i ==> t[j].flow != flow
    {
      if t[i].flow == flow {
        FindFlowIs(t, flow, None, Some(i));
        return t[i := Entry(flow, token, now)];
      }
    }
    FindFlowIs(t, flow, None, None);
    return t + [Entry(flow, token, now)];
  }

  method TakeFlow(t: Table, flow: Flow, want: Option<word32>) returns (t': Table, hit: bool)
    ensures (t', hit) == Take(t, flow, want)
  {
    for i := 0 to |t|
      invariant forall j :: 0 <= j < i ==> !Accepts(t[j], flow, want)
    {
      if t[i].flow == flow && (want.None? || t[i].token == want.value) {
        FindFlowIs(t, flow, want, Some(i));
        return t[..i] + t[i + 1..], true;
      }
    }
    FindFlowIs(t, flow, want, None);
    return t, false;
  }

  method RemoveExpired(t: Table, now: int, timeout: int) returns (t': Table)
    ensures t' == Unexpired(t, now, timeout)
  {
    t' := [];
    for i := 0 to |t|
      invariant t' + Unexpired(t[i..], now, timeout) == Unexpired(t, now, timeout)
    {
      if !(now - t[i].sentAt > timeout) {
        t' := t' + [t[i]];
      }
    }
  }

  lemma FindFlowIs(t: Table, flow: Flow, want: Option<word32>, r: Option<nat>)
    requires r.Some? ==> r.value < |t| && Accepts(t[r.value], flow, want)
    requires forall i :: 0 <= i < |t| && (r.Some? ==> i < r.value) ==> !Accepts(t[i], flow, want)
    ensures FindFlow(t, flow, want) == r
  {
    var f := FindFlow(t, flow, want);
    if f.Some? && r.Some? {
      assert !(f.value < r.value) && !(r.value < f.value);
    }
  }

  // ---- histories ------------------------------------------------------------------------

  datatype Op =
    | Open(flow: Flow, token: word32, now: int)
    | Close(flow: Flow, want: Option<word32>)
    | Expire(now: int)
    | Other

  /** The table after an operation, and whether the operation took an entry. */
  function Apply(t: Table, op: Op, timeout: int): (Table, bool) {
    match op
    case Open(flow, token, now) => (Remember(t, flow, token, now), false)
    case Close(flow, want) => Take(t, flow, want)
    case Expire(now) => (Unexpired(t, now, timeout), false)
    case Other => (t, false)
  }

  /** The table with its counters. */
  datatype Tracker = Tracker(table: Table, asked: nat, matched: nat, expired: nat)

  function Count(b: bool): nat {
    if b then 1 else 0
  }

  function Step(k: Tracker, op: Op, timeout: int): Tracker {
    var (t, hit) := Apply(k.table, op, timeout);
    UnexpiredShorter(k.table, if op.Expire? then op.now else 0, timeout);
    Tracker(t, k.asked + Count(op.Open?), k.matched + Count(hit), k.expired + if op.Expire? then |k.table| - |t| else 0)
  }

  lemma {:induction false} UnexpiredShorter(t: Table, now: int, timeout: int)
    ensures |Unexpired(t, now, timeout)| <= |t|
  {
    if t != [] {
      UnexpiredShorter(t[1..], now, timeout);
    }
  }

  function Run(ops: seq<Op>, timeout: int): Tracker {
    if ops == [] then Tracker([], 0, 0, 0) else Step(Run(ops[..|ops| - 1], timeout), ops[|ops| - 1], timeout)
  }

  /** The state of one flow, computed from the history of that flow alone. */
  datatype Life = Dead | Live(token: word32, since: int)

  function LifeStep(l: Life, op: Op, flow: Flow, timeout: int): Life {
    match op
    case Open(f, token, now) => if f == flow then Live(token, now) else l
    case Close(f, want) =>
      if f == flow && l.Live? && (want.None? || l.token == want.value) then Dead else l
    case Expire(now) => if l.Live? && now - l.since > timeout then Dead else l
    case Other => l
  }

  function Alive(ops: seq<Op>, flow: Flow, timeout: int): Life {
    if ops == [] then Dead else LifeStep(Alive(ops[..|ops| - 1], flow, timeout), ops[|ops| - 1], flow, timeout)
  }

  ghost predicate Unique(t: Table) {
    forall i, j :: 0 <= i < j < |t| ==> t[i].flow != t[j].flow
  }

  /** The table holds exactly the live flows. */
  ghost predicate Represents(t: Table, ops: seq<Op>, timeout: int) {
    && Unique(t)
    && (forall i :: 0 <= i < |t| ==> Alive(ops, t[i].flow, timeout) == Live(t[i].token, t[i].sentAt))
    && (forall flow :: Alive(ops, flow, timeout).Live? ==> exists i :: 0 <= i < |t| && t[i].flow == flow)
  }

  lemma FindUnique(t: Table, ops: seq<Op>, timeout: int, flow: Flow, want: Option<word32>)
    requires Represents(t, ops, timeout)
    ensures FindFlow(t, flow, want).Some? <==>
            Alive(ops, flow, timeout).Live? && (want.None? || Alive(ops, flow, timeout).token == want.value)
  {
    if Alive(ops, flow, timeout).Live? {
      var i :| 0 <= i < |t| && t[i].flow == flow;
      if want.None? || t[i].token == want.value {
        assert Accepts(t[i], flow, want);
      }
    }
  }

  lemma {:induction false} UnexpiredMembers(t: Table, now: int, timeout: int)
    requires Unique(t)
    ensures Unique(Unexpired(t, now, timeout))
    ensures forall e :: e in Unexpired(t, now, timeout) <==> e in t && !(now - e.sentAt > timeout)
  {
    if t != [] {
      UnexpiredMembers(t[1..], now, timeout);
      assert t == [t[0]] + t[1..];
      var u := Unexpired(t[1..], now, timeout);
      forall i | 0 <= i < |u| ensures u[i].flow != t[0].flow {
        assert u[i] in t[1..];
      }
    }
  }

  lemma RepresentsOpen(t: Table, ops: seq<Op>, timeout: int, flow: Flow, token: word32, now: int)
    requires Represents(t, ops, timeout)
    ensures Represents(Remember(t, flow, token, now), ops + [Open(flow, token, now)], timeout)
  {
    var op := Open(flow, token, now);
    var ops', t' := ops + [op], Remember(t, flow, token, now);
    assert ops'[..|ops'| - 1] == ops;
    FindUnique(t, ops, timeout, flow, None);
    forall g | Alive(ops', g, timeout).Live? ensures exists i :: 0 <= i < |t'| && t'[i].flow == g {
      if g == flow {
        var r := FindFlow(t, flow, None);
        assert t'[if r.Some? then r.value else |t|].flow == flow;
      } else {
        assert Alive(ops, g, timeout).Live?;
        var i :| 0 <= i < |t| && t[i].flow == g;
        assert t'[i].flow == g;
      }
    }
  }

  lemma RepresentsClose(t: Table, ops: seq<Op>, timeout: int, flow: Flow, want: Option<word32>)
    requires Represents(t, ops, timeout)
    ensures Represents(Take(t, flow, want).0, ops + [Close(flow, want)], timeout)
  {
    var ops', t' := ops + [Close(flow, want)], Take(t, flow, want).0;
    assert ops'[..|ops'| - 1] == ops;
    FindUnique(t, ops, timeout, flow, want);
    var r := FindFlow(t, flow, want);
    forall g | Alive(ops', g, timeout).Live? ensures exists i :: 0 <= i < |t'| && t'[i].flow == g {
      assert Alive(ops, g, timeout).Live?;
      var i :| 0 <= i < |t| && t[i].flow == g;
      if r.Some? {
        assert i != r.value;
        assert t'[if i < r.value then i else i - 1].flow == g;
      }
    }
  }

  lemma RepresentsExpire(t: Table, ops: seq<Op>, timeout: int, now: int)
    requires Represents(t, ops, timeout)
    ensures Represents(Unexpired(t, now, timeout), ops + [Expire(now)], timeout)
  {
    var ops', t' := ops + [Expire(now)], Unexpired(t, now, timeout);
    assert ops'[..|ops'| - 1] == ops;
    UnexpiredMembers(t, now, timeout);
    forall i | 0 <= i < |t'| ensures Alive(ops', t'[i].flow, timeout) == Live(t'[i].token, t'[i].sentAt) {
      assert t'[i] in t;
    }
    forall g | Alive(ops', g, timeout).Live? ensures exists i :: 0 <= i < |t'| && t'[i].flow == g {
      assert Alive(ops, g, timeout).Live?;
      var i :| 0 <= i < |t| && t[i].flow == g;
      assert t[i] in t';
    }
  }

  /** The table is the product of independent automata, one for each flow. */
  lemma {:induction false} RunRepresents(ops: seq<Op>, timeout: int)
    ensures Represents(Run(ops, timeout).table, ops, timeout)
  {
    if ops != [] {
      var before, op := ops[..|ops| - 1], ops[|ops| - 1];
      assert before + [op] == ops;
      RunRepresents(before, timeout);
      var t := Run(before, timeout).table;
      match op
      case Open(flow, token, now) => RepresentsOpen(t, before, timeout, flow, token, now);
      case Close(flow, want) => RepresentsClose(t, before, timeout, flow, want);
      case Expire(now) => RepresentsExpire(t, before, timeout, now);
      case Other =>
    }
  }

  // ---- what a match and the counters mean ---------------------------------------------------

  ghost predicate Answers(op: Op, l: Life) {
    op.Close? && l.Live? && (op.want.None? || l.token == op.want.value)
  }

  /** The n-th operation is a reply that matches. */
  ghost predicate MatchAt(ops: seq<Op>, n: nat, timeout: int) {
    n < |ops| && ops[n].Close? && Answers(ops[n], Alive(ops[..n], ops[n].flow, timeout))
  }

  /** An operation takes an entry exactly when it answers a flow that its own history leaves live. */
  lemma HitIff(ops: seq<Op>, op: Op, timeout: int)
    ensures Apply(Run(ops, timeout).table, op, timeout).1 <==> op.Close? && Answers(op, Alive(ops, op.flow, timeout))
  {
    RunRepresents(ops, timeout);
    if op.Close? {
      FindUnique(Run(ops, timeout).table, ops, timeout, op.flow, op.want);
    }
  }

  /** A live flow was opened by one operation and has been live, unchanged, ever since. */
  lemma {:induction false} LiveOrigin(ops: seq<Op>, flow: Flow, timeout: int) returns (i: nat)
    requires Alive(ops, flow, timeout).Live?
    ensures i < |ops| && var l := Alive(ops, flow, timeout); ops[i] == Open(flow, l.token, l.since)
    ensures forall j :: i < j <= |ops| ==> Alive(ops[..j], flow, timeout) == Alive(ops, flow, timeout)
    ensures forall j :: i < j < |ops| ==> !(ops[j].Open? && ops[j].flow == flow)
  {
    var before, op := ops[..|ops| - 1], ops[|ops| - 1];
    assert ops[..|ops|] == ops;
    if op.Open? && op.flow == flow {
      i := |ops| - 1;
    } else {
      i := LiveOrigin(before, flow, timeout);
      forall j | i < j <= |ops| ensures Alive(ops[..j], flow, timeout) == Alive(ops, flow, timeout) {
        if j < |ops| {
          assert ops[..j] == before[..j];
        }
      }
    }
  }

  /** Soundness of a match: an earlier request of the same flow with the wanted token, live
      without interruption until the reply; no sweep in between found it too old. */
  lemma MatchSound(ops: seq<Op>, n: nat, timeout: int) returns (i: nat)
    requires MatchAt(ops, n, timeout)
    ensures i < n && ops[i].Open? && ops[i].flow == ops[n].flow
    ensures ops[n].want.Some? ==> ops[i].token == ops[n].want.value
    ensures forall j :: i < j <= n ==> Alive(ops[..j], ops[n].flow, timeout) == Live(ops[i].token, ops[i].now)
    ensures forall j :: i < j < n && ops[j].Expire? ==> ops[j].now - ops[i].now <= timeout
  {
    i := LiveOrigin(ops[..n], ops[n].flow, timeout);
    forall j | i < j <= n ensures Alive(ops[..j], ops[n].flow, timeout) == Live(ops[i].token, ops[i].now) {
      assert ops[..n][..j] == ops[..j];
    }
    forall j | i < j < n && ops[j].Expire? ensures ops[j].now - ops[i].now <= timeout {
      AliveStep(ops, j, ops[n].flow, timeout);
    }
  }

  lemma AliveStep(ops: seq<Op>, n: nat, flow: Flow, timeout: int)
    requires n < |ops|
    ensures Alive(ops[..n + 1], flow, timeout) == LifeStep(Alive(ops[..n], flow, timeout), ops[n], flow, timeout)
  {
    var o := ops[..n + 1];
    assert o[..|o| - 1] == ops[..n];
  }

  /** The operation neither renews nor answers the request, and does not find it too old. */
  ghost predicate Leaves(request: Op, op: Op, timeout: int)
    requires request.Open?
  {
    match op
    case Open(flow, _, _) => flow != request.flow
    case Close(flow, want) => flow != request.flow || (want.Some? && want.value != request.token)
    case Expire(now) => now - request.now <= timeout
    case Other => true
  }

  /** The i-th operation is a request of the flow, and every later operation leaves it waiting. */
  ghost predicate Waits(ops: seq<Op>, i: nat, flow: Flow, timeout: int) {
    && i < |ops| && ops[i].Open? && ops[i].flow == flow
    && forall j :: i < j < |ops| ==> Leaves(ops[i], ops[j], timeout)
  }

  lemma {:induction false} WaitsIsLive(ops: seq<Op>, i: nat, flow: Flow, timeout: int)
    requires Waits(ops, i, flow, timeout)
    ensures Alive(ops, flow, timeout) == Live(ops[i].token, ops[i].now)
  {
    if i < |ops| - 1 {
      WaitsIsLive(ops[..|ops| - 1], i, flow, timeout);
      assert Leaves(ops[i], ops[|ops| - 1], timeout);
    }
  }

  /** A flow is live exactly when a request of it waits. */
  lemma LiveIff(ops: seq<Op>, flow: Flow, timeout: int)
    ensures Alive(ops, flow, timeout).Live? <==> exists i :: Waits(ops, i, flow, timeout)
  {
    if Alive(ops, flow, timeout).Live? {
      var i := LiveOrigin(ops, flow, timeout);
      forall j | i < j < |ops| ensures Leaves(ops[i], ops[j], timeout) {
        AliveStep(ops, j, flow, timeout);
      }
      assert Waits(ops, i, flow, timeout);
    }
    if i :| Waits(ops, i, flow, timeout) {
      WaitsIsLive(ops, i, flow, timeout);
    }
  }

  /** Every request justifies at most one match: two matches of a flow are separated by a
      new request of it. */
  lemma MatchesSeparated(ops: seq<Op>, m: nat, n: nat, timeout: int) returns (i: nat)
    requires m < n && MatchAt(ops, m, timeout) && MatchAt(ops, n, timeout) && ops[m].flow == ops[n].flow
    ensures m < i < n && ops[i].Open? && ops[i].flow == ops[n].flow
  {
    i := MatchSound(ops, n, timeout);
    var o := ops[..m + 1];
    assert o[..|o| - 1] == ops[..m];
    assert Alive(o, ops[m].flow, timeout) == Dead;
  }

  /** Requests that found their flow already waiting. */
  function Refreshed(ops: seq<Op>, timeout: int): nat {
    if ops == [] then 0
    else
      var before, op := ops[..|ops| - 1], ops[|ops| - 1];
      Refreshed(before, timeout) + if op.Open? && Alive(before, op.flow, timeout).Live? then 1 else 0
  }

  /** Conservation: every request was a refresh, is still waiting, was matched or expired. */
  lemma {:induction false} Conservation(ops: seq<Op>, timeout: int)
    ensures var k := Run(ops, timeout); k.asked == k.matched + k.expired + |k.table| + Refreshed(ops, timeout)
  {
    if ops != [] {
      var before, op := ops[..|ops| - 1], ops[|ops| - 1];
      Conservation(before, timeout);
      RunRepresents(before, timeout);
      if op.Open? {
        FindUnique(Run(before, timeout).table, before, timeout, op.flow, None);
      }
    }
  }
}
