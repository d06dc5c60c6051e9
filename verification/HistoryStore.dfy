/** The two-tier store of score histories: resident targets in recency order, and short
    tails of the targets that were evicted. */
module HistoryStore {
  const SUMMARY_POINTS: nat := 40

  // ---- recency lists ---------------------------------------------------------

  /** The list without its first occurrence of `k` (an erase through an iterator). */
  function Without<K(==)>(s: seq<K>, k: K): seq<K> {
    if s == [] then [] else if s[0] == k then s[1..] else [s[0]] + Without(s[1..], k)
  }

  function LastN<T>(s: seq<T>, n: nat): seq<T> {
    if |s| <= n then s else s[|s| - n..]
  }

  ghost predicate Distinct<K>(s: seq<K>) {
    forall i, j :: 0 <= i < j < |s| ==> s[i] != s[j]
  }

  lemma DistinctCons<K>(x: K, s: seq<K>)
    requires Distinct(s) && x !in s
    ensures Distinct([x] + s)
  {
  }

  lemma {:induction false} WithoutMembers<K>(s: seq<K>, k: K)
    requires Distinct(s)
    ensures Distinct(Without(s, k))
    ensures forall x :: x in Without(s, k) <==> x in s && x != k
    ensures |Without(s, k)| == if k in s then |s| - 1 else |s|
  {
    if s != [] {
      var t := s[1..];
      assert s == [s[0]] + t;
      WithoutMembers(t, k);
      assert s[0] !in t;
      if s[0] != k {
        DistinctCons(s[0], Without(t, k));
      }
    }
  }

  lemma {:induction false} WithoutAbsent<K>(s: seq<K>, k: K)
    requires k !in s
    ensures Without(s, k) == s
  {
    if s != [] {
      WithoutAbsent(s[1..], k);
    }
  }

  lemma {:induction false} WithoutConcat<K>(a: seq<K>, b: seq<K>, k: K)
    ensures Without(a + b, k) == if k in a then Without(a, k) + b else a + Without(b, k)
  {
    if a == [] {
      assert a + b == b;
    } else {
      assert (a + b)[1..] == a[1..] + b;
      WithoutConcat(a[1..], b, k);
    }
  }

  /** A request makes `k` the most recent element. */
  function Touch<K(==)>(s: seq<K>, k: K): seq<K> {
    Without(s, k) + [k]
  }

  lemma TouchDistinct<K>(s: seq<K>, k: K)
    requires Distinct(s)
    ensures Distinct(Touch(s, k)) && |Touch(s, k)| == |s| + (if k in s then 0 else 1)
    ensures forall x :: x in Touch(s, k) <==> x in s || x == k
  {
    WithoutMembers(s, k);
  }

  /** Keeping only the last n elements commutes with requests. */
  lemma LastNTouch<K>(s: seq<K>, k: K, n: nat)
    requires Distinct(s) && n > 0
    ensures LastN(Touch(s, k), n) == LastN(Touch(LastN(s, n), k), n)
  {
    hide Without, Distinct;
    var b := LastN(s, n);
    var a := s[..|s| - |b|];
    assert s == a + b;
    DisjointParts(s, a, b);
    TouchDistinct(b, k);
    WithoutConcat(a, b, k);
    if a == [] {
      assert b == s;
    } else if k in a {
      WithoutAbsent(b, k);
      assert Touch(s, k) == Without(a, k) + Touch(b, k);
      LastNConcat(Without(a, k), Touch(b, k), n);
    } else {
      assert Touch(s, k) == a + Touch(b, k);
      LastNConcat(a, Touch(b, k), n);
    }
  }

  lemma LastNConcat<T>(a: seq<T>, b: seq<T>, n: nat)
    requires |b| >= n
    ensures LastN(a + b, n) == LastN(b, n)
  {
  }

  lemma DisjointParts<K>(s: seq<K>, a: seq<K>, b: seq<K>)
    requires Distinct(s) && s == a + b
    ensures Distinct(a) && Distinct(b)
    ensures forall x :: x in a ==> x !in b
  {
    forall i, j | 0 <= i < |a| && 0 <= j < |b| ensures a[i] != b[j] {
      assert s[i] != s[|a| + j];
    }
    forall i, j | 0 <= i < j < |a| ensures a[i] != a[j] {
      assert s[i] != s[j];
    }
    forall i, j | 0 <= i < j < |b| ensures b[i] != b[j] {
      assert s[|a| + i] != s[|a| + j];
    }
  }

  // ---- the store as a value ----------------------------------------------------

  type Key = string

  datatype Store = Store(index: map<Key, seq<real>>, order: seq<Key>,
                         summaries: map<Key, seq<real>>, summaryOrder: seq<Key>)

  function Empty(): Store {
    Store(map[], [], map[], [])
  }

  /** Keeps the tail of an evicted history. */
  function Snapshot(st: Store, maxSummaries: nat, key: Key, h: seq<real>): Store {
    if h == [] then st
    else
      var full := |st.summaries| >= maxSummaries && st.summaryOrder != [];
      var st' :=
        if key in st.summaries then st.(summaryOrder := Without(st.summaryOrder, key))
        else if full then
          st.(summaries := st.summaries - {st.summaryOrder[0]}, summaryOrder := st.summaryOrder[1..])
        else st;
      st'.(summaryOrder := st'.summaryOrder + [key],
           summaries := if key in st'.summaries then st'.summaries else st'.summaries[key := LastN(h, SUMMARY_POINTS)])
  }

  /** Evicts the least recently used resident when the resident tier is full. */
  function Evict(st: Store, maxTargets: nat, maxSummaries: nat): Store {
    if |st.index| >= maxTargets && st.order != [] then
      var victim := st.order[0];
      var st' := if victim in st.index then Snapshot(st, maxSummaries, victim, st.index[victim]) else st;
      st'.(index := st'.index - {victim}, order := st'.order[1..])
    else st
  }

  /** Takes the summary of a target that comes back, if there is one. */
  function TakeSummary(st: Store, key: Key): (Store, seq<real>) {
    if key in st.summaries then
      (st.(summaries := st.summaries - {key}, summaryOrder := Without(st.summaryOrder, key)), st.summaries[key])
    else (st, [])
  }

  function Get(st: Store, maxTargets: nat, maxSummaries: nat, key: Key): Store {
    if key in st.index then st.(order := Touch(st.order, key))
    else
      var (st1, h) := TakeSummary(st, key);
      var st2 := Evict(st1, maxTargets, maxSummaries);
      st2.(order := st2.order + [key], index := st2.index[key := h])
  }

  /** `push_capped` on the score history of a resident target. */
  function PushCapped(h: seq<real>, x: real, cap: nat): seq<real> {
    var h' := h + [x];
    if |h'| > cap then h'[1..] else h'
  }

  function PushScore(st: Store, key: Key, x: real, cap: nat): Store
    requires key in st.index
  {
    st.(index := st.index[key := PushCapped(st.index[key], x, cap)])
  }

  // ---- the store object ---------------------------------------------------------

  class TargetHistoryStore {
    const maxTargets: nat
    const maxSummaries: nat
    var index: map<Key, seq<real>>
    var order: seq<Key>
    var summaries: map<Key, seq<real>>
    var summaryOrder: seq<Key>

    constructor (maxTargets: nat, maxSummaries: nat := 0)
      ensures View() == Empty()
      ensures this.maxTargets == maxTargets
      ensures this.maxSummaries == SummaryLimit(maxTargets, maxSummaries)
    {
      this.maxTargets := maxTargets;
      this.maxSummaries := if maxSummaries != 0 then maxSummaries else maxTargets * 4;
      index, order, summaries, summaryOrder := map[], [], map[], [];
    }

    function View(): Store
      reads this
    {
      Store(index, order, summaries, summaryOrder)
    }

    /** The history to work on; the target becomes the most recently used resident. */
    method GetTarget(key: Key) returns (hist: seq<real>)
      modifies this
      ensures View() == Get(old(View()), maxTargets, maxSummaries, key)
      ensures key in index && hist == index[key]
    {
      if key in index {
        order := Touch(order, key);
        return index[key];
      }
      hist := [];
      if key in summaries {
        hist := summaries[key];
        summaryOrder := Without(summaryOrder, key);
        summaries := summaries - {key};
      }
      if |index| >= maxTargets && order != [] {
        var victim := order[0];
        if victim in index {
          SnapshotBeforeEvict(victim, index[victim]);
        }
        index := index - {victim};
        order := order[1..];
      }
      order := order + [key];
      index := index[key := hist];
    }

    method SnapshotBeforeEvict(key: Key, h: seq<real>)
      modifies this`summaries, this`summaryOrder
      ensures View() == Snapshot(old(View()), maxSummaries, key, h)
    {
      var take := if |h| < SUMMARY_POINTS then |h| else SUMMARY_POINTS;
      var tail := h[|h| - take..];
      if tail == [] { return; }
      if key in summaries {
        summaryOrder := Without(summaryOrder, key);
      } else if |summaries| >= maxSummaries && summaryOrder != [] {
        summaries := summaries - {summaryOrder[0]};
        summaryOrder := summaryOrder[1..];
      }
      summaryOrder := summaryOrder + [key];
      if key !in summaries {
        summaries := summaries[key := tail];
      }
    }

    method Push(key: Key, x: real, cap: nat)
      requires key in index
      modifies this`index
      ensures View() == PushScore(old(View()), key, x, cap)
      ensures key in index
      ensures old(|index[key]|) <= cap ==> index[key] == LastN(old(index[key]) + [x], cap)
    {
      index := index[key := PushCapped(index[key], x, cap)];
    }
  }

  // ---- requests over a whole run -------------------------------------------------

  /** One analysis of a target: its history is fetched and one score appended. */
  datatype Request = Request(key: Key, score: real)

  datatype Limits = Limits(maxTargets: nat, maxSummaries: nat, historyCap: nat)
  {
    /** An empty tier still accepts one entry before it evicts. */
    function Residents(): nat { if maxTargets == 0 then 1 else maxTargets }
    function Summaries(): nat { if maxSummaries == 0 then 1 else maxSummaries }
    function Capacity(): nat { Residents() + Summaries() }
  }

  function Serve(st: Store, l: Limits, r: Request): Store {
    PushScore(Get(st, l.maxTargets, l.maxSummaries, r.key), r.key, r.score, l.historyCap)
  }

  function ServeAll(l: Limits, t: seq<Request>): Store {
    if t == [] then Empty() else Serve(ServeAll(l, t[..|t| - 1]), l, t[|t| - 1])
  }

  /** The distinct keys of a run, least recently requested first. */
  function Recency(t: seq<Request>): seq<Key> {
    if t == [] then [] else Touch(Recency(t[..|t| - 1]), t[|t| - 1].key)
  }

  /** The scores a target works on when it is requested next: everything while it is
      resident, the last points once it has been summarised, nothing after that. */
  function Start(l: Limits, t: seq<Request>, k: Key): seq<real>
    decreases |t|, 1
  {
    if k in LastN(Recency(t), l.Residents()) then Scores(l, t, k)
    else if k in LastN(Recency(t), l.Capacity()) then LastN(Scores(l, t, k), SUMMARY_POINTS)
    else []
  }

  /** The scores recorded for a target up to its last request. */
  function Scores(l: Limits, t: seq<Request>, k: Key): seq<real>
    decreases |t|, 0
  {
    if t == [] then []
    else
      var t', r := t[..|t| - 1], t[|t| - 1];
      if r.key == k then PushCapped(Start(l, t', k), r.score, l.historyCap) else Scores(l, t', k)
  }

  /** What the two tiers hold after the run `t`. */
  ghost predicate Holds(st: Store, l: Limits, t: seq<Request>) {
    var recent := Recency(t);
    && st.order == LastN(recent, l.Residents())
    && st.summaryOrder + st.order == LastN(recent, l.Capacity())
    && (forall k :: k in st.index <==> k in st.order)
    && (forall k :: k in st.summaries <==> k in st.summaryOrder)
    && (forall k :: k in st.index ==> st.index[k] == Scores(l, t, k))
    && (forall k :: k in st.summaries ==> st.summaries[k] == LastN(Scores(l, t, k), SUMMARY_POINTS))
  }

  lemma {:induction false} RecencyDistinct(t: seq<Request>)
    ensures Distinct(Recency(t))
    ensures forall k :: k in Recency(t) <==> exists i :: 0 <= i < |t| && t[i].key == k
  {
    if t != [] {
      var t', r := t[..|t| - 1], t[|t| - 1];
      RecencyDistinct(t');
      TouchDistinct(Recency(t'), r.key);
      forall k | k in Recency(t) ensures exists i :: 0 <= i < |t| && t[i].key == k {
        if k == r.key {
          assert t[|t| - 1].key == k;
        } else {
          var i :| 0 <= i < |t'| && t'[i].key == k;
          assert t[i].key == k;
        }
      }
      forall i | 0 <= i < |t| ensures t[i].key in Recency(t) {
        if i < |t'| {
          assert t'[i].key == t[i].key;
        }
      }
    }
  }

  /** The two lists after a request, apart from what the tiers hold. */
  function ListStep(order: seq<Key>, summary: seq<Key>, k: Key, l: Limits): (seq<Key>, seq<Key>) {
    if k in order then (Touch(order, k), summary)
    else
      var rest := Without(summary, k);
      if |order| < l.Residents() then (order + [k], rest)
      else (order[1..] + [k], (if |rest| < l.Summaries() then rest else rest[1..]) + [order[0]])
  }

  lemma StepOfResident(order: seq<Key>, summary: seq<Key>, k: Key, l: Limits)
    requires Distinct(summary + order) && |order| <= l.Residents() && |summary| <= l.Summaries() && k in order
    ensures Touch(order, k) == LastN(Touch(order, k), l.Residents())
    ensures summary + Touch(order, k) == LastN(Touch(summary + order, k), l.Capacity())
  {
    DisjointParts(summary + order, summary, order);
    TouchDistinct(order, k);
    WithoutConcat(summary, order, k);
    WithoutAbsent(summary, k);
    hide Distinct, Without;
    assert Touch(summary + order, k) == summary + Touch(order, k);
  }

  lemma StepOfOther(order: seq<Key>, summary: seq<Key>, k: Key, l: Limits)
    requires Distinct(summary + order) && |order| <= l.Residents() && |summary| <= l.Summaries() && k !in order
    requires |order| < l.Residents() ==> summary == []
    ensures var (order', summary') := ListStep(order, summary, k, l);
            && order' == LastN(Touch(order, k), l.Residents())
            && summary' + order' == LastN(Touch(summary + order, k), l.Capacity())
  {
    DisjointParts(summary + order, summary, order);
    WithoutAbsent(order, k);
    WithoutMembers(summary, k);
    TouchSummary(order, summary, k);
    assert Touch(order, k) == order + [k];
    hide Distinct, Touch;
    if |order| >= l.Residents() {
      hide Without;
      ShiftTiers(order, Without(summary, k), k, l);
    }
  }

  /** One request on the lists is one request on a single recency stack. */
  lemma ListStepIsTouch(recent: seq<Key>, order: seq<Key>, summary: seq<Key>, k: Key, l: Limits)
    requires Distinct(recent)
    requires order == LastN(recent, l.Residents()) && summary + order == LastN(recent, l.Capacity())
    ensures var (order', summary') := ListStep(order, summary, k, l);
            && order' == LastN(Touch(recent, k), l.Residents())
            && summary' + order' == LastN(Touch(recent, k), l.Capacity())
  {
    LastNTouch(recent, k, l.Residents());
    LastNTouch(recent, k, l.Capacity());
    StackFacts(recent, order, summary, l);
    hide Distinct, Touch, LastN, Without;
    if k in order {
      StepOfResident(order, summary, k, l);
    } else {
      StepOfOther(order, summary, k, l);
    }
  }

  lemma StackFacts(recent: seq<Key>, order: seq<Key>, summary: seq<Key>, l: Limits)
    requires Distinct(recent)
    requires order == LastN(recent, l.Residents()) && summary + order == LastN(recent, l.Capacity())
    ensures Distinct(summary + order) && |order| <= l.Residents() && |summary| <= l.Summaries()
    ensures |order| < l.Residents() ==> summary == []
  {
    assert |summary| + |order| == |LastN(recent, l.Capacity())|;
  }

  lemma TouchSummary(order: seq<Key>, summary: seq<Key>, k: Key)
    requires k !in order
    ensures Touch(summary + order, k) == Without(summary, k) + (order + [k])
  {
    WithoutConcat(summary, order, k);
    WithoutAbsent(order, k);
    if k !in summary {
      WithoutAbsent(summary, k);
    }
  }

  /** With a full resident tier the oldest resident moves over, and the oldest summary may go. */
  lemma ShiftTiers(order: seq<Key>, rest: seq<Key>, k: Key, l: Limits)
    requires |order| == l.Residents() && |rest| <= l.Summaries()
    ensures order[1..] + [k] == LastN(order + [k], l.Residents())
    ensures (if |rest| < l.Summaries() then rest else rest[1..]) + [order[0]] + (order[1..] + [k])
         == LastN(rest + (order + [k]), l.Capacity())
  {
    assert order == [order[0]] + order[1..];
    var whole := rest + (order + [k]);
    assert whole == rest + [order[0]] + (order[1..] + [k]);
    if |rest| == l.Summaries() {
      assert LastN(whole, l.Capacity()) == whole[1..];
      assert whole[1..] == rest[1..] + [order[0]] + (order[1..] + [k]);
    }
  }

  /** The maps and the lists of both tiers agree, and no resident history is empty. */
  ghost predicate Consistent(st: Store, l: Limits) {
    && Distinct(st.summaryOrder + st.order)
    && |st.order| <= l.Residents() && |st.summaryOrder| <= l.Summaries()
    && (|st.order| < l.Residents() ==> st.summaryOrder == [])
    && (forall k :: k in st.index <==> k in st.order)
    && (forall k :: k in st.summaries <==> k in st.summaryOrder)
    && (forall k :: k in st.index ==> st.index[k] != [])
  }

  lemma {:induction false} MapSize(m: map<Key, seq<real>>, s: seq<Key>)
    requires Distinct(s) && forall k :: k in m <==> k in s
    ensures |m| == |s|
  {
    if s != [] {
      var m' := m - {s[0]};
      assert m.Keys == m'.Keys + {s[0]};
      assert |m.Keys| == |m'.Keys| + 1;
      MapSize(m', s[1..]);
    } else {
      assert m.Keys == {};
    }
  }

  ghost function StartOf(st: Store, k: Key): seq<real> {
    if k in st.index then st.index[k] else if k in st.summaries then st.summaries[k] else []
  }

  /** What a request does to both tiers. */
  ghost predicate Served(st: Store, l: Limits, k: Key, g: Store) {
    && (g.order, g.summaryOrder) == ListStep(st.order, st.summaryOrder, k, l)
    && (forall x :: x in g.index <==> x in g.order)
    && (forall x :: x in g.summaries <==> x in g.summaryOrder)
    && k in g.index && g.index[k] == StartOf(st, k)
    && (forall x :: x in g.index && x != k ==> x in st.index && g.index[x] == st.index[x])
    && (forall x :: x in g.summaries ==>
          || (x in st.summaries && x != k && g.summaries[x] == st.summaries[x])
          || (x in st.index && x != k && g.summaries[x] == LastN(st.index[x], SUMMARY_POINTS)))
  }

  lemma GetServes(st: Store, l: Limits, k: Key)
    requires Consistent(st, l)
    ensures Served(st, l, k, Get(st, l.maxTargets, l.maxSummaries, k))
  {
    if k in st.index {
      DisjointParts(st.summaryOrder + st.order, st.summaryOrder, st.order);
      TouchDistinct(st.order, k);
    } else {
      TakeSummaryServes(st, l, k);
    }
  }

  /** The store once the summary of a returning target is taken out. */
  ghost predicate SummaryTaken(st: Store, k: Key, st1: Store, h: seq<real>) {
    && st1.order == st.order && st1.index == st.index
    && st1.summaryOrder == Without(st.summaryOrder, k)
    && (forall x :: x in st1.summaries <==> x in st.summaries && x != k)
    && (forall x :: x in st1.summaries ==> st1.summaries[x] == st.summaries[x])
    && h == StartOf(st, k)
  }

  lemma TakeSummaryTakes(st: Store, l: Limits, k: Key)
    requires Consistent(st, l) && k !in st.index
    ensures var (st1, h) := TakeSummary(st, k); SummaryTaken(st, k, st1, h)
  {
    DisjointParts(st.summaryOrder + st.order, st.summaryOrder, st.order);
    WithoutAbsentIf(st.summaryOrder, k);
  }

  lemma TakenSizes(st: Store, l: Limits, k: Key, st1: Store, h: seq<real>)
    requires Consistent(st, l) && k !in st.index && SummaryTaken(st, k, st1, h)
    ensures |st1.index| == |st1.order|
    ensures |st1.order| >= l.Residents() ==> FullStore(st1, l)
  {
    DisjointParts(st.summaryOrder + st.order, st.summaryOrder, st.order);
    WithoutMembers(st.summaryOrder, k);
    MapSize(st1.index, st1.order);
    MapSize(st1.summaries, st1.summaryOrder);
  }

  lemma TakeSummaryServes(st: Store, l: Limits, k: Key)
    requires Consistent(st, l) && k !in st.index
    ensures Served(st, l, k, Get(st, l.maxTargets, l.maxSummaries, k))
  {
    hide Evict, TakeSummary, Consistent, FullStore, Served, SummaryTaken;
    TakeSummaryTakes(st, l, k);
    var (st1, h) := TakeSummary(st, k);
    TakenSizes(st, l, k, st1, h);
    if |st1.order| >= l.Residents() {
      EvictServes(st1, l);
      AdmitAfterEvict(st, l, k, st1, h, Evict(st1, l.maxTargets, l.maxSummaries));
    } else {
      RoomLeft(st1, l);
      AdmitWithRoom(st, l, k, st1, h);
    }
  }

  function Admit(st: Store, k: Key, h: seq<real>): Store {
    st.(order := st.order + [k], index := st.index[k := h])
  }

  lemma AdmitWithRoom(st: Store, l: Limits, k: Key, st1: Store, h: seq<real>)
    requires Consistent(st, l) && k !in st.index && SummaryTaken(st, k, st1, h) && |st1.order| < l.Residents()
    ensures Served(st, l, k, Admit(st1, k, h))
  {
    assert st.summaryOrder == [];
  }

  lemma AdmitLists(st: Store, l: Limits, k: Key, st1: Store, h: seq<real>, g: Store)
    requires Consistent(st, l) && k !in st.index && SummaryTaken(st, k, st1, h) && FullStore(st1, l)
    requires Evicted(st1, l, g)
    ensures (g.order + [k], g.summaryOrder) == ListStep(st.order, st.summaryOrder, k, l)
  {
    assert k !in st.order;
  }

  lemma AdmitIndex(st: Store, k: Key, h: seq<real>, g: Store, v: Key)
    requires k !in st.index && g.index == st.index - {v} && forall x :: x in g.index <==> x in g.order
    ensures var g' := Admit(g, k, h);
            && (forall x :: x in g'.index <==> x in g'.order)
            && k in g'.index && g'.index[k] == h
            && (forall x :: x in g'.index && x != k ==> x in st.index && g'.index[x] == st.index[x])
  {
  }

  lemma AdmitSummaries(st: Store, k: Key, st1: Store, h: seq<real>, g: Store)
    requires k !in st.index && SummaryTaken(st, k, st1, h) && st.order != [] && st.order[0] in st.index
    requires forall x :: x in g.summaries ==>
               if x == st.order[0] then g.summaries[x] == LastN(st.index[x], SUMMARY_POINTS)
               else x in st1.summaries && g.summaries[x] == st1.summaries[x]
    ensures forall x :: x in g.summaries ==>
              || (x in st.summaries && x != k && g.summaries[x] == st.summaries[x])
              || (x in st.index && x != k && g.summaries[x] == LastN(st.index[x], SUMMARY_POINTS))
  {
    hide LastN, Without, StartOf;
  }

  lemma AdmitServes(st: Store, l: Limits, k: Key, st1: Store, h: seq<real>, g: Store)
    requires k !in st.index && SummaryTaken(st, k, st1, h) && st.order != [] && st.order[0] in st.index
    requires (g.order + [k], g.summaryOrder) == ListStep(st.order, st.summaryOrder, k, l)
    requires g.index == st.index - {st.order[0]} && (forall x :: x in g.index <==> x in g.order)
    requires forall x :: x in g.summaries <==> x in g.summaryOrder
    requires forall x :: x in g.summaries ==>
               if x == st.order[0] then g.summaries[x] == LastN(st.index[x], SUMMARY_POINTS)
               else x in st1.summaries && g.summaries[x] == st1.summaries[x]
    ensures Served(st, l, k, Admit(g, k, h))
  {
    AdmitIndex(st, k, h, g, st.order[0]);
    AdmitSummaries(st, k, st1, h, g);
    hide ListStep, LastN, Without;
  }

  lemma AdmitAfterEvict(st: Store, l: Limits, k: Key, st1: Store, h: seq<real>, g: Store)
    requires Consistent(st, l) && k !in st.index && SummaryTaken(st, k, st1, h) && FullStore(st1, l)
    requires Evicted(st1, l, g)
    ensures Served(st, l, k, Admit(g, k, h))
  {
    hide ListStep, LastN, Demoted, Distinct, Without, Served;
    AdmitLists(st, l, k, st1, h, g);
    assert st.order[0] in st.order;
    AdmitServes(st, l, k, st1, h, g);
  }

  lemma RoomLeft(st: Store, l: Limits)
    requires |st.order| < l.Residents() && |st.index| == |st.order|
    ensures Evict(st, l.maxTargets, l.maxSummaries) == st
  {
  }

  lemma WithoutAbsentIf(s: seq<Key>, k: Key)
    ensures k !in s ==> Without(s, k) == s
  {
    if k !in s {
      WithoutAbsent(s, k);
    }
  }

  /** Both tiers as `Evict` finds them when the resident tier is full. */
  ghost predicate FullStore(st: Store, l: Limits) {
    && |st.order| == l.Residents() && |st.summaryOrder| <= l.Summaries()
    && Distinct(st.order) && Distinct(st.summaryOrder) && (forall x :: x in st.order ==> x !in st.summaryOrder)
    && (forall k :: k in st.index <==> k in st.order)
    && (forall k :: k in st.summaries <==> k in st.summaryOrder)
    && |st.index| == |st.order| && |st.summaries| == |st.summaryOrder|
    && (forall k :: k in st.index ==> st.index[k] != [])
  }

  /** The summary list after the oldest resident joined it. */
  ghost function Demoted(st: Store, l: Limits): seq<Key>
    requires st.order != []
  {
    (if |st.summaryOrder| < l.Summaries() then st.summaryOrder else st.summaryOrder[1..]) + [st.order[0]]
  }

  /** Eviction moves the oldest resident to the young end of the summaries. */
  ghost predicate Evicted(st: Store, l: Limits, g: Store)
    requires st.order != []
  {
    var v := st.order[0];
    && g.order == st.order[1..]
    && g.summaryOrder == Demoted(st, l)
    && g.index == st.index - {v}
    && (forall x :: x in g.index <==> x in g.order)
    && (forall x :: x in g.summaries <==> x in g.summaryOrder)
    && (forall x :: x in g.summaries ==>
          if x == v then v in st.index && g.summaries[x] == LastN(st.index[v], SUMMARY_POINTS)
          else x in st.summaries && g.summaries[x] == st.summaries[x])
  }

  lemma EvictServes(st: Store, l: Limits)
    requires FullStore(st, l)
    ensures Evicted(st, l, Evict(st, l.maxTargets, l.maxSummaries))
  {
    var v := st.order[0];
    assert v in st.order;
    SnapshotServes(st, l);
    assert st.order == [v] + st.order[1..];
  }

  lemma SnapshotServes(st: Store, l: Limits)
    requires FullStore(st, l) && st.order[0] in st.index
    ensures var v := st.order[0]; var g := Snapshot(st, l.maxSummaries, v, st.index[v]);
            && g.order == st.order && g.index == st.index
            && g.summaryOrder == Demoted(st, l)
            && (forall x :: x in g.summaries <==> x in g.summaryOrder)
            && (forall x :: x in g.summaries ==>
                  if x == v then v in st.index && g.summaries[x] == LastN(st.index[v], SUMMARY_POINTS)
                  else x in st.summaries && g.summaries[x] == st.summaries[x])
  {
    var v := st.order[0];
    assert v in st.order && v !in st.summaries;
    var g := Snapshot(st, l.maxSummaries, v, st.index[v]);
    if |st.summaryOrder| >= l.Summaries() {
      var f := st.summaryOrder[0];
      assert st.summaryOrder == [f] + st.summaryOrder[1..];
      assert g.summaries == (st.summaries - {f})[v := LastN(st.index[v], SUMMARY_POINTS)];
    } else {
      assert g.summaries == st.summaries[v := LastN(st.index[v], SUMMARY_POINTS)];
    }
  }

  // ---- the theorems over runs ------------------------------------------------------

  lemma {:induction false} ScoresNonEmpty(l: Limits, t: seq<Request>, k: Key)
    requires l.historyCap > 0 && k in Recency(t)
    ensures Scores(l, t, k) != []
  {
    var t', r := t[..|t| - 1], t[|t| - 1];
    if r.key != k {
      RecencyDistinct(t');
      TouchDistinct(Recency(t'), r.key);
      ScoresNonEmpty(l, t', k);
    }
  }

  /** No history ever exceeds its cap. */
  lemma {:induction false} ScoresCapped(l: Limits, t: seq<Request>, k: Key)
    ensures |Scores(l, t, k)| <= l.historyCap
  {
    if t != [] {
      ScoresCapped(l, t[..|t| - 1], k);
    }
  }

  lemma HoldsConsistent(st: Store, l: Limits, t: seq<Request>)
    requires Holds(st, l, t) && l.historyCap > 0
    ensures Consistent(st, l)
  {
    RecencyDistinct(t);
    var recent := Recency(t);
    forall k | k in st.index ensures st.index[k] != [] {
      assert k in recent;
      ScoresNonEmpty(l, t, k);
    }
    assert |st.summaryOrder| + |st.order| == |LastN(recent, l.Capacity())|;
  }

  /** The history handed out is the one the run determines. */
  lemma StartIsHeld(st: Store, l: Limits, t: seq<Request>, k: Key)
    requires Holds(st, l, t)
    ensures StartOf(st, k) == Start(l, t, k)
  {
    assert k in st.summaryOrder + st.order <==> k in st.summaryOrder || k in st.order;
  }

  lemma ScoresAfter(l: Limits, t: seq<Request>, r: Request, k: Key)
    ensures Scores(l, t + [r], k) ==
            if r.key == k then PushCapped(Start(l, t, k), r.score, l.historyCap) else Scores(l, t, k)
    ensures Recency(t + [r]) == Touch(Recency(t), r.key)
  {
    hide Start;
    assert (t + [r])[..|t|] == t;
  }

  /** The lists after a request. */
  lemma ServeLists(st: Store, l: Limits, t: seq<Request>, r: Request)
    requires Holds(st, l, t) && l.historyCap > 0
    ensures var (order', summary') := ListStep(st.order, st.summaryOrder, r.key, l);
            && order' == LastN(Recency(t + [r]), l.Residents())
            && summary' + order' == LastN(Recency(t + [r]), l.Capacity())
  {
    RecencyDistinct(t);
    ScoresAfter(l, t, r, r.key);
    hide ListStep, LastN, Touch;
    ListStepIsTouch(Recency(t), st.order, st.summaryOrder, r.key, l);
  }

  /** The resident histories after a request. */
  lemma ServeIndex(st: Store, l: Limits, t: seq<Request>, r: Request, g: Store, x: Key)
    requires Holds(st, l, t) && Served(st, l, r.key, g) && x in g.index
    ensures PushScore(g, r.key, r.score, l.historyCap).index[x] == Scores(l, t + [r], x)
  {
    hide ListStep, LastN, Recency, Scores, Start;
    ScoresAfter(l, t, r, x);
    if x == r.key {
      StartIsHeld(st, l, t, x);
    }
  }

  /** The tails after a request: none of them is the requested target's. */
  lemma ServeSummary(st: Store, l: Limits, t: seq<Request>, r: Request, g: Store, x: Key)
    requires Holds(st, l, t) && Served(st, l, r.key, g) && x in g.summaries
    ensures g.summaries[x] == LastN(Scores(l, t + [r], x), SUMMARY_POINTS)
  {
    hide ListStep, LastN, Recency, Scores, Start;
    ScoresAfter(l, t, r, x);
  }

  lemma ServeHolds(st: Store, l: Limits, t: seq<Request>, r: Request)
    requires Holds(st, l, t) && l.historyCap > 0
    ensures Holds(Serve(st, l, r), l, t + [r])
  {
    ServeLists(st, l, t, r);
    HoldsConsistent(st, l, t);
    GetServes(st, l, r.key);
    var g := Get(st, l.maxTargets, l.maxSummaries, r.key);
    forall x | x in g.index ensures PushScore(g, r.key, r.score, l.historyCap).index[x] == Scores(l, t + [r], x) {
      ServeIndex(st, l, t, r, g, x);
    }
    forall x | x in g.summaries ensures g.summaries[x] == LastN(Scores(l, t + [r], x), SUMMARY_POINTS) {
      ServeSummary(st, l, t, r, g, x);
    }
    ListsHold(st, l, t, r, g);
  }

  lemma ListsHold(st: Store, l: Limits, t: seq<Request>, r: Request, g: Store)
    requires Served(st, l, r.key, g)
    requires var (order', summary') := ListStep(st.order, st.summaryOrder, r.key, l);
             && order' == LastN(Recency(t + [r]), l.Residents())
             && summary' + order' == LastN(Recency(t + [r]), l.Capacity())
    requires forall x :: x in g.index ==>
               PushScore(g, r.key, r.score, l.historyCap).index[x] == Scores(l, t + [r], x)
    requires forall x :: x in g.summaries ==> g.summaries[x] == LastN(Scores(l, t + [r], x), SUMMARY_POINTS)
    ensures Holds(PushScore(g, r.key, r.score, l.historyCap), l, t + [r])
  {
    hide ListStep, LastN, Recency, Scores, Start, PushCapped;
  }

  lemma EmptyHolds(l: Limits)
    ensures Holds(Empty(), l, [])
  {
  }

  lemma {:induction false} RunHolds(l: Limits, t: seq<Request>)
    requires l.historyCap > 0
    ensures Holds(ServeAll(l, t), l, t)
  {
    hide Serve, Holds;
    if t == [] {
      EmptyHolds(l);
    } else {
      RunHolds(l, t[..|t| - 1]);
      ServeHolds(ServeAll(l, t[..|t| - 1]), l, t[..|t| - 1], t[|t| - 1]);
      assert t[..|t| - 1] + [t[|t| - 1]] == t;
    }
  }

  /** Summaries followed by residents are the most recently requested distinct keys, in
      recency order, of a single stack; no key is in both tiers. */
  lemma TwoTiersAreOneStack(l: Limits, t: seq<Request>)
    requires l.historyCap > 0
    ensures var st := ServeAll(l, t);
            && st.summaryOrder + st.order == LastN(Recency(t), l.Capacity())
            && st.order == LastN(Recency(t), l.Residents())
            && Distinct(st.summaryOrder + st.order)
            && st.index.Keys !! st.summaries.Keys
  {
    RunHolds(l, t);
    var st := ServeAll(l, t);
    HoldsConsistent(st, l, t);
    DisjointParts(st.summaryOrder + st.order, st.summaryOrder, st.order);
  }

  /** A requested target continues from what the run says it still holds: the whole history
      while resident, the last min(40, n) scores after an eviction, nothing when forgotten. */
  lemma ReadmissionStart(l: Limits, t: seq<Request>, k: Key)
    requires l.historyCap > 0
    ensures var g := Get(ServeAll(l, t), l.maxTargets, l.maxSummaries, k);
            k in g.index && g.index[k] == Start(l, t, k)
  {
    RunHolds(l, t);
    HoldsConsistent(ServeAll(l, t), l, t);
    GetServes(ServeAll(l, t), l, k);
    StartIsHeld(ServeAll(l, t), l, t, k);
  }

  /** Later in the recency list means requested later. */
  lemma {:induction false} RecencyOrder(t: seq<Request>, i: nat, j: nat)
    requires i < j < |Recency(t)|
    ensures LastRequest(t, Recency(t)[i]) < LastRequest(t, Recency(t)[j])
  {
    var t', k := t[..|t| - 1], t[|t| - 1].key;
    RecencyDistinct(t');
    WithoutMembers(Recency(t'), k);
    assert Recency(t)[i] == Without(Recency(t'), k)[i] && Recency(t)[i] != k;
    if j < |Recency(t)| - 1 {
      assert Recency(t)[j] == Without(Recency(t'), k)[j] && Recency(t)[j] != k;
      var i', j' := WithoutOrder(Recency(t'), k, i, j);
      RecencyOrder(t', i', j');
    }
  }

  /** One past the position of the last request for `k`, zero if there is none. */
  ghost function LastRequest(t: seq<Request>, k: Key): (n: nat)
    ensures n <= |t|
  {
    if t == [] then 0 else if t[|t| - 1].key == k then |t| else LastRequest(t[..|t| - 1], k)
  }

  lemma {:induction false} WithoutOrder(s: seq<Key>, k: Key, i: nat, j: nat) returns (i': nat, j': nat)
    requires i < j < |Without(s, k)|
    ensures i' < j' < |s| && s[i'] == Without(s, k)[i] && s[j'] == Without(s, k)[j]
  {
    if s[0] == k {
      i', j' := i + 1, j + 1;
    } else if i == 0 {
      i' := 0;
      j' := WithoutIndex(s[1..], k, j - 1);
      j' := j' + 1;
    } else {
      i', j' := WithoutOrder(s[1..], k, i - 1, j - 1);
      i', j' := i' + 1, j' + 1;
    }
  }

  lemma {:induction false} WithoutIndex(s: seq<Key>, k: Key, j: nat) returns (j': nat)
    requires j < |Without(s, k)|
    ensures j' < |s| && s[j'] == Without(s, k)[j]
  {
    if s[0] == k {
      j' := j + 1;
    } else if j == 0 {
      j' := 0;
    } else {
      j' := WithoutIndex(s[1..], k, j - 1);
      j' := j' + 1;
    }
  }

  /** A run of n requests for n different keys. */
  function ManyKeys(n: nat): seq<Request> {
    if n == 0 then [] else ManyKeys(n - 1) + [Request(seq(n, _ => 'k'), 0.0)]
  }

  lemma {:induction false} ManyKeysRecency(n: nat)
    ensures |Recency(ManyKeys(n))| == n
    ensures forall k :: k in Recency(ManyKeys(n)) ==> |k| <= n
  {
    if n > 0 {
      var t := ManyKeys(n);
      assert t[..|t| - 1] == ManyKeys(n - 1);
      ManyKeysRecency(n - 1);
      RecencyDistinct(ManyKeys(n - 1));
      TouchDistinct(Recency(ManyKeys(n - 1)), t[|t| - 1].key);
    }
  }

  lemma TierBounds(l: Limits, t: seq<Request>)
    requires l.historyCap > 0
    ensures |ServeAll(l, t).order| <= l.Residents() && |ServeAll(l, t).summaryOrder| <= l.Summaries()
  {
    RunHolds(l, t);
    HoldsConsistent(ServeAll(l, t), l, t);
  }

  lemma TierBoundsReached(l: Limits)
    requires l.historyCap > 0
    ensures var st := ServeAll(l, ManyKeys(l.Capacity()));
            |st.order| == l.Residents() && |st.summaryOrder| == l.Summaries()
  {
    hide ServeAll, ManyKeys, Recency;
    var t := ManyKeys(l.Capacity());
    RunHolds(l, t);
    ManyKeysRecency(l.Capacity());
    var st := ServeAll(l, t);
    assert |st.summaryOrder + st.order| == l.Capacity();
  }

  // ---- the scores of one target, from the requests alone ---------------------------------

  /** The scores of the requests for one target, in order. */
  function Own(t: seq<Request>, k: Key): seq<real> {
    if t == [] then [] else Own(t[..|t| - 1], k) + if t[|t| - 1].key == k then [t[|t| - 1].score] else []
  }

  lemma OwnSnoc(t: seq<Request>, r: Request, k: Key)
    ensures Own(t + [r], k) == if r.key == k then Own(t, k) + [r.score] else Own(t, k)
  {
    assert (t + [r])[..|t|] == t;
  }

  /** A push keeps the newest scores. */
  lemma PushIsLast(s: seq<real>, x: real, cap: nat)
    ensures PushCapped(LastN(s, cap), x, cap) == LastN(s + [x], cap)
  {
  }

  lemma ServedSnoc(l: Limits, t: seq<Request>, r: Request, k: Key)
    requires l.historyCap > 0
    ensures k in ServeAll(l, t + [r]).index ==>
              ServeAll(l, t + [r]).index[k]
              == if r.key == k then PushCapped(StartOf(ServeAll(l, t), k), r.score, l.historyCap) else Scores(l, t, k)
    ensures k in ServeAll(l, t).index ==> ServeAll(l, t).index[k] == Scores(l, t, k)
  {
    hide ServeAll, Scores, Start, Recency, LastN;
    RunHolds(l, t);
    RunHolds(l, t + [r]);
    StartIsHeld(ServeAll(l, t), l, t, k);
    ScoresAfter(l, t, r, k);
  }

  /** The target is resident after every part of the run that has requested it. */
  ghost predicate NeverEvicted(l: Limits, t: seq<Request>, k: Key) {
    forall i :: 0 <= i <= |t| && Own(t[..i], k) != [] ==> k in ServeAll(l, t[..i]).index
  }

  lemma {:induction false} NotRequested(l: Limits, t: seq<Request>, k: Key)
    requires l.historyCap > 0 && Own(t, k) == []
    ensures StartOf(ServeAll(l, t), k) == [] && k !in Recency(t) && Scores(l, t, k) == []
  {
    hide ServeAll;
    if t != [] {
      NotRequested(l, t[..|t| - 1], k);
      RecencyDistinct(t[..|t| - 1]);
      TouchDistinct(Recency(t[..|t| - 1]), t[|t| - 1].key);
    }
    RunHolds(l, t);
    StartIsHeld(ServeAll(l, t), l, t, k);
  }

  /** A target that is never evicted holds the last scores of its own requests, in order. */
  lemma {:induction false} NeverEvictedHistory(l: Limits, t: seq<Request>, k: Key)
    requires l.historyCap > 0 && Own(t, k) != [] && NeverEvicted(l, t, k)
    ensures k in ServeAll(l, t).index && ServeAll(l, t).index[k] == LastN(Own(t, k), l.historyCap)
  {
    hide ServeAll, Scores, PushCapped, LastN;
    var before, r := t[..|t| - 1], t[|t| - 1];
    assert t[..|t|] == t && before + [r] == t;
    ServedSnoc(l, before, r, k);
    OwnSnoc(before, r, k);
    if Own(before, k) == [] {
      NotRequested(l, before, k);
      NoneLast(l.historyCap);
      PushIsLast([], r.score, l.historyCap);
    } else {
      assert NeverEvicted(l, before, k) by {
        forall i | 0 <= i <= |before| && Own(before[..i], k) != [] ensures k in ServeAll(l, before[..i]).index {
          assert before[..i] == t[..i];
        }
      }
      NeverEvictedHistory(l, before, k);
      StartResident(ServeAll(l, before), k);
      PushIsLast(Own(before, k), r.score, l.historyCap);
    }
  }

  lemma NoneLast(n: nat)
    ensures LastN<real>([], n) == []
  {
  }

  /** What an eviction leaves behind: the last 40 points of the history the target had. */
  lemma EvictionKeepsTail(l: Limits, t: seq<Request>, r: Request, k: Key)
    requires l.historyCap > 0 && k in ServeAll(l, t).index && k !in ServeAll(l, t + [r]).index
    ensures k in ServeAll(l, t + [r]).summaries
    ensures ServeAll(l, t + [r]).summaries[k] == LastN(ServeAll(l, t).index[k], 40)
  {
    hide ServeAll, Scores, Start;
    RunHolds(l, t);
    RunHolds(l, t + [r]);
    RecencyDistinct(t);
    ScoresAfter(l, t, r, k);
    var st, st' := ServeAll(l, t), ServeAll(l, t + [r]);
    EvictedIsSummarised(l, Recency(t), r.key, k);
    assert k in st'.summaryOrder + st'.order;
  }

  /** Whoever leaves the resident part of the stack is next in line below it. */
  lemma EvictedIsSummarised(l: Limits, recent: seq<Key>, k: Key, v: Key)
    requires Distinct(recent) && v in LastN(recent, l.Residents()) && v !in LastN(Touch(recent, k), l.Residents())
    ensures v != k && v in LastN(Touch(recent, k), l.Capacity())
  {
    TouchDistinct(recent, k);
    LastNTouch(recent, k, l.Residents());
    LastNTouch(recent, k, l.Capacity());
    var b := LastN(recent, l.Residents());
    assert Distinct(b);
    TouchDistinct(b, k);
    assert v in LastN(recent, l.Capacity());
    assert Distinct(LastN(recent, l.Capacity()));
    TouchDistinct(LastN(recent, l.Capacity()), k);
    WithoutMembers(b, k);
  }

  lemma {:induction false} UnrequestedScores(l: Limits, c: seq<Request>, d: seq<Request>, k: Key)
    requires Own(d, k) == []
    ensures Scores(l, c + d, k) == Scores(l, c, k)
  {
    hide Start;
    if d == [] {
      assert c + d == c;
    } else {
      var d', r := d[..|d| - 1], d[|d| - 1];
      assert (c + d') + [r] == c + d;
      UnrequestedScores(l, c, d', k);
      ScoresAfter(l, c + d', r, k);
    }
  }

  /** A target that comes back: the scores handed out, then those of its own requests. */
  lemma {:induction false} ResumedHistory(l: Limits, a: seq<Request>, b: seq<Request>, k: Key)
    requires l.historyCap > 0 && b != [] && b[0].key == k
    requires forall i :: 0 < i <= |b| ==> k in ServeAll(l, a + b[..i]).index
    ensures k in ServeAll(l, a + b).index
    ensures ServeAll(l, a + b).index[k] == LastN(StartOf(ServeAll(l, a), k) + Own(b, k), l.historyCap)
  {
    hide ServeAll, Scores, Start, StartOf, PushCapped, LastN;
    var b', r := b[..|b| - 1], b[|b| - 1];
    assert b[..|b|] == b && (a + b') + [r] == a + b && b' + [r] == b;
    ServedSnoc(l, a + b', r, k);
    var h := StartOf(ServeAll(l, a), k);
    OwnSnoc(b', r, k);
    if b' == [] {
      assert a + b' == a;
      StartCapped(l, a, k);
      PushIsLast(h, r.score, l.historyCap);
      assert h + Own(b, k) == h + [r.score];
    } else {
      assert forall i :: 0 < i <= |b'| ==> b'[..i] == b[..i];
      ResumedHistory(l, a, b', k);
      PushIsLast(h + Own(b', k), r.score, l.historyCap);
      StartResident(ServeAll(l, a + b'), k);
      assert h + (Own(b', k) + [r.score]) == h + Own(b', k) + [r.score];
      assert b'[..|b'|] == b' && k in ServeAll(l, a + b').index;
    }
  }

  lemma StartResident(st: Store, k: Key)
    requires k in st.index
    ensures StartOf(st, k) == st.index[k]
  {
  }

  lemma StartCapped(l: Limits, t: seq<Request>, k: Key)
    requires l.historyCap > 0
    ensures LastN(StartOf(ServeAll(l, t), k), l.historyCap) == StartOf(ServeAll(l, t), k)
  {
    RunHolds(l, t);
    StartIsHeld(ServeAll(l, t), l, t, k);
    ScoresCapped(l, t, k);
  }

  /** Evicted, summarised and requested again: a target goes on from the last 40 scores of the
      history it had, followed by the scores of its requests since. */
  lemma EvictedHistory(l: Limits, c: seq<Request>, d: seq<Request>, b: seq<Request>, k: Key)
    requires l.historyCap > 0 && k in ServeAll(l, c).index
    requires Own(d, k) == [] && k !in ServeAll(l, c + d).index
    requires b != [] && b[0].key == k
    requires forall i :: 0 < i <= |b| ==> k in ServeAll(l, c + d + b[..i]).index
    ensures var held := if k in ServeAll(l, c + d).summaries then LastN(ServeAll(l, c).index[k], 40) else [];
            var st := ServeAll(l, c + d + b);
            k in st.index && st.index[k] == LastN(held + Own(b, k), l.historyCap)
  {
    hide ServeAll, Scores, Start, Recency, LastN;
    ResumedHistory(l, c + d, b, k);
    UnrequestedScores(l, c, d, k);
    RunHolds(l, c);
    RunHolds(l, c + d);
  }

  /** What the constructor stores as the number of summaries. */
  function SummaryLimit(maxTargets: nat, maxSummaries: nat): nat {
    if maxSummaries != 0 then maxSummaries else maxTargets * 4
  }

  ghost predicate WithinConfigured(l: Limits, st: Store) {
    |st.order| <= l.maxTargets && |st.summaryOrder| <= l.maxSummaries
  }

  /** For all constructor arguments: the tiers stay within the stored sizes in every run
      exactly when the number of targets is not zero. */
  lemma ConfiguredSizesIff(maxTargets: nat, maxSummaries: nat, historyCap: nat)
    requires historyCap > 0
    ensures var l := Limits(maxTargets, SummaryLimit(maxTargets, maxSummaries), historyCap);
            (forall t :: WithinConfigured(l, ServeAll(l, t))) <==> maxTargets > 0
  {
    hide ServeAll, ManyKeys;
    var l := Limits(maxTargets, SummaryLimit(maxTargets, maxSummaries), historyCap);
    if maxTargets > 0 {
      forall t ensures WithinConfigured(l, ServeAll(l, t)) {
        TierBounds(l, t);
      }
    } else {
      TierBoundsReached(l);
      assert !WithinConfigured(l, ServeAll(l, ManyKeys(l.Capacity())));
    }
  }
}
