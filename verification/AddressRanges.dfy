/** Address ranges collected from the registries: union of intervals into a normal form
    and greedy splitting into CIDR blocks. `w` is the address width, 32 or 128. */
module AddressRanges {
  import opened Bits

  /** A closed interval of addresses. */
  datatype Range = Range(lo: nat, hi: nat)

  /** One printed line `addr/prefix`. */
  datatype Cidr = Cidr(addr: nat, prefix: nat)

  ghost predicate ValidRange(w: nat, r: Range) {
    r.lo <= r.hi < Pow2(w)
  }

  ghost predicate ValidRanges(w: nat, v: seq<Range>) {
    forall i :: 0 <= i < |v| ==> ValidRange(w, v[i])
  }

  ghost predicate InRanges(x: int, v: seq<Range>) {
    exists i :: 0 <= i < |v| && v[i].lo <= x <= v[i].hi
  }

  ghost predicate SameAddresses(a: seq<Range>, b: seq<Range>) {
    forall x :: InRanges(x, a) <==> InRanges(x, b)
  }

  /** Sorted, with at least one uncovered address between neighbours. */
  ghost predicate Normal(w: nat, v: seq<Range>) {
    && ValidRanges(w, v)
    && forall i, j :: 0 <= i < j < |v| ==> v[i].hi + 1 < v[j].lo
  }

  ghost predicate IsMergeOf(w: nat, out: seq<Range>, v: seq<Range>) {
    Normal(w, out) && SameAddresses(out, v)
  }

  function Size(w: nat, c: Cidr): nat
    requires c.prefix <= w
  {
    Pow2(w - c.prefix)
  }

  ghost predicate ValidCidr(w: nat, c: Cidr) {
    c.prefix <= w && c.addr % Size(w, c) == 0 && c.addr + Size(w, c) <= Pow2(w)
  }

  ghost predicate InCidr(w: nat, x: int, c: Cidr)
    requires c.prefix <= w
  {
    c.addr <= x < c.addr + Size(w, c)
  }

  ghost predicate ValidCidrs(w: nat, s: seq<Cidr>) {
    forall i :: 0 <= i < |s| ==> ValidCidr(w, s[i])
  }

  ghost predicate InCidrs(w: nat, x: int, s: seq<Cidr>)
    requires ValidCidrs(w, s)
  {
    exists i :: 0 <= i < |s| && InCidr(w, x, s[i])
  }

  /** Pairwise disjoint and in increasing address order. */
  ghost predicate Ascending(w: nat, s: seq<Cidr>)
    requires ValidCidrs(w, s)
  {
    forall i, j :: 0 <= i < j < |s| ==> s[i].addr + Size(w, s[i]) <= s[j].addr
  }

  ghost predicate Inside(w: nat, b: Cidr, c: Cidr)
    requires b.prefix <= w && c.prefix <= w
  {
    c.addr <= b.addr && b.addr + Size(w, b) <= c.addr + Size(w, c)
  }

  /** `s` covers exactly the addresses of `v` with CIDR blocks. */
  ghost predicate ExactCover(w: nat, s: set<Cidr>, v: seq<Range>) {
    && (forall c :: c in s ==> ValidCidr(w, c))
    && (forall x :: (exists c :: c in s && c.prefix <= w && InCidr(w, x, c)) <==> InRanges(x, v))
  }

  // ---- prefixes (discover.cpp:512-522) ------------------------------------

  const V4_BITS: nat := 32
  const V6_BITS: nat := 128
  const WIDE_BITS: nat := 64

  /** The shifted mask of the IPv4 form on `w`-bit words. */
  function PrefixByShift(w: nat, base: nat, len: nat): Range
    requires base < Pow2(w) && 1 <= len <= w
  {
    var mask := ((Pow2(w) - 1) * Pow2(w - len)) % Pow2(w);
    var lo := And(base, mask);
    Range(lo, Or(lo, Not(w, mask)))
  }

  /** The subtracted host mask of the IPv6 form on `w`-bit words. */
  function PrefixByHostMask(w: nat, base: nat, len: nat): Range
    requires base < Pow2(w) && 1 <= len <= w
  {
    var hostMask := Pow2(w - len) - 1;
    Pow2Monotone(w - len, w);
    var lo := And(base, Not(w, hostMask));
    Range(lo, Or(lo, hostMask))
  }

  function V4FromPrefix(base: nat, len: nat): Range
    requires base < Pow2(V4_BITS) && 1 <= len <= V4_BITS
  {
    PrefixByShift(V4_BITS, base, len)
  }

  function V6FromPrefix(base: nat, len: nat): Range
    requires base < Pow2(V6_BITS) && 1 <= len <= V6_BITS
  {
    PrefixByHostMask(V6_BITS, base, len)
  }

  /** The range of a prefix is the aligned block of that prefix containing the base. */
  ghost predicate IsBlockOf(w: nat, r: Range, base: nat, len: nat)
    requires len <= w
  {
    && r.lo % Pow2(w - len) == 0
    && r.hi == r.lo + Pow2(w - len) - 1
    && r.lo <= base <= r.hi < Pow2(w)
  }

  lemma RoundedBlock(w: nat, h: nat, base: nat)
    requires h <= w && base < Pow2(w)
    ensures var lo := base - base % Pow2(h);
            lo % Pow2(h) == 0 && base < lo + Pow2(h) <= Pow2(w)
  {
    var p, t := Pow2(h), Pow2(w - h);
    Pow2Add(h, w - h);
    RoundedMultiple(base, p, t);
  }

  lemma RoundedMultiple(base: nat, p: nat, t: nat)
    requires p > 0 && base < p * t
    ensures (base - base % p) % p == 0 && base < base - base % p + p <= p * t
  {
    var q := base / p;
    assert base - base % p == q * p;
    ModUnique(q * p, p, q, 0);
    RoundUpBelow(q, t, p, base);
  }

  lemma RoundUpBelow(q: nat, t: nat, p: nat, base: nat)
    requires q * p <= base < p * t
    ensures q * p + p <= p * t
  {
    if q >= t {
      MulLess(t, q, p);
    } else {
      MulLess(q + 1, t, p);
      assert (q + 1) * p == q * p + p;
    }
  }

  lemma MulLess(a: int, b: int, p: nat)
    requires a <= b
    ensures a * p <= b * p
  {
    assert b * p - a * p == (b - a) * p;
  }

  /** The shift `0xFFFFFFFF << h` keeps the high bits only. */
  lemma ShiftedMask(w: nat, h: nat)
    requires h < w
    ensures Pow2(h) < Pow2(w)
    ensures ((Pow2(w) - 1) * Pow2(h)) % Pow2(w) == Pow2(w) - Pow2(h)
  {
    Pow2Monotone(h + 1, w);
    ShiftedMaskArithmetic(Pow2(w), Pow2(h));
  }

  lemma ShiftedMaskArithmetic(m: nat, p: nat)
    requires 0 < p < m
    ensures ((m - 1) * p) % m == m - p
  {
    assert (m - 1) * p == (p - 1) * m + (m - p);
    ModUnique((m - 1) * p, m, p - 1, m - p);
  }

  /** Shifting all-ones left and complementing a host mask build the same prefix. */
  lemma PrefixFormsAgree(w: nat, base: nat, len: nat)
    requires base < Pow2(w) && 1 <= len <= w
    ensures PrefixByShift(w, base, len) == PrefixByHostMask(w, base, len)
  {
    ShiftedMask(w, w - len);
    assert Not(w, Pow2(w) - Pow2(w - len)) == Pow2(w - len) - 1;
  }

  lemma HostMaskPrefixIsBlock(w: nat, base: nat, len: nat)
    requires base < Pow2(w) && 1 <= len <= w
    ensures IsBlockOf(w, PrefixByHostMask(w, base, len), base, len)
  {
    var h := w - len;
    AndHighMask(w, h, base);
    RoundedBlock(w, h, base);
    OrLowMask(h, base - base % Pow2(h));
  }

  lemma V4PrefixIsBlock(base: nat, len: nat)
    requires base < Pow2(V4_BITS) && 1 <= len <= V4_BITS
    ensures IsBlockOf(V4_BITS, V4FromPrefix(base, len), base, len)
  {
    PrefixFormsAgree(V4_BITS, base, len);
    HostMaskPrefixIsBlock(V4_BITS, base, len);
  }

  lemma V6PrefixIsBlock(base: nat, len: nat)
    requires base < Pow2(V6_BITS) && 1 <= len <= V6_BITS
    ensures IsBlockOf(V6_BITS, V6FromPrefix(base, len), base, len)
  {
    HostMaskPrefixIsBlock(V6_BITS, base, len);
  }

  // ---- merging (discover.cpp:555-580) --------------------------------------

  ghost predicate SortedByLo(s: seq<Range>) {
    forall i, j :: 0 <= i < j < |s| ==> s[i].lo <= s[j].lo
  }

  function Insert(s: seq<Range>, r: Range): (t: seq<Range>)
  {
    if s == [] then [r]
    else if r.lo <= s[0].lo then [r] + s
    else [s[0]] + Insert(s[1..], r)
  }

  lemma {:induction false} InsertMembers(s: seq<Range>, r: Range)
    ensures multiset(Insert(s, r)) == multiset(s) + multiset{r}
  {
    if s != [] && r.lo > s[0].lo {
      InsertMembers(s[1..], r);
      assert s == [s[0]] + s[1..];
    }
  }

  lemma {:induction false} InsertKeeps(s: seq<Range>, r: Range)
    requires SortedByLo(s)
    ensures SortedByLo(Insert(s, r))
  {
    if s != [] && r.lo > s[0].lo {
      InsertKeeps(s[1..], r);
      InsertMembers(s[1..], r);
      var t := Insert(s[1..], r);
      forall i | 0 <= i < |t| ensures s[0].lo <= t[i].lo {
        assert t[i] in multiset(t);
        assert t[i] in s[1..] || t[i] == r;
      }
    }
  }

  /** Stands for `std::sort`; nothing is promised about the order of equal lower ends. */
  method SortByLo(v: seq<Range>) returns (s: seq<Range>)
    ensures SortedByLo(s) && multiset(s) == multiset(v)
  {
    s := [];
    for i := 0 to |v|
      invariant SortedByLo(s) && multiset(s) == multiset(v[..i])
    {
      InsertKeeps(s, v[i]);
      InsertMembers(s, v[i]);
      s := Insert(s, v[i]);
      assert v[..i + 1] == v[..i] + [v[i]];
    }
    assert v[..|v|] == v;
  }

  lemma PermutationSameAddresses(w: nat, a: seq<Range>, b: seq<Range>)
    requires multiset(a) == multiset(b) && ValidRanges(w, a)
    ensures SameAddresses(a, b) && ValidRanges(w, b)
  {
    forall x | x in b ensures x in a {
      assert x in multiset(b);
    }
    forall i | 0 <= i < |b| ensures ValidRange(w, b[i]) {
      assert b[i] in a;
    }
    forall x | x in a ensures x in b {
      assert x in multiset(a);
    }
    forall x | InRanges(x, a) ensures InRanges(x, b) {
      var i :| 0 <= i < |a| && a[i].lo <= x <= a[i].hi;
      assert a[i] in b;
    }
    forall x | InRanges(x, b) ensures InRanges(x, a) {
      var i :| 0 <= i < |b| && b[i].lo <= x <= b[i].hi;
      assert b[i] in a;
    }
  }

  /** One turn of the merge loop on the already merged prefix. */
  function MergeStep(out: seq<Range>, iv: Range): seq<Range> {
    if out != [] && iv.lo <= out[|out| - 1].hi + 1 then
      out[|out| - 1 := Range(out[|out| - 1].lo, Max(out[|out| - 1].hi, iv.hi))]
    else out + [iv]
  }

  function Max(a: nat, b: nat): nat { if a < b then b else a }

  ghost predicate MergedPrefix(w: nat, out: seq<Range>, s: seq<Range>, i: nat)
    requires i <= |s|
  {
    && IsMergeOf(w, out, s[..i])
    && (out != [] ==> forall j :: i <= j < |s| ==> out[|out| - 1].lo <= s[j].lo)
  }

  lemma AppendRange(v: seq<Range>, r: Range, x: int)
    ensures InRanges(x, v + [r]) <==> InRanges(x, v) || r.lo <= x <= r.hi
  {
    if InRanges(x, v) {
      var i :| 0 <= i < |v| && v[i].lo <= x <= v[i].hi;
      assert (v + [r])[i] == v[i];
    }
    assert (v + [r])[|v|] == r;
  }

  lemma MergeStepKeeps(w: nat, out: seq<Range>, s: seq<Range>, i: nat)
    requires ValidRanges(w, s) && SortedByLo(s)
    requires i < |s| && MergedPrefix(w, out, s, i)
    ensures MergedPrefix(w, MergeStep(out, s[i]), s, i + 1)
  {
    var iv, t := s[i], MergeStep(out, s[i]);
    assert s[..i + 1] == s[..i] + [iv];
    forall x ensures InRanges(x, t) <==> InRanges(x, s[..i + 1]) {
      AppendRange(s[..i], iv, x);
      AppendRange(out, iv, x);
      if t != out + [iv] {
        var n := |out| - 1;
        assert out == out[..n] + [out[n]] && t == out[..n] + [t[n]];
        AppendRange(out[..n], out[n], x);
        AppendRange(out[..n], t[n], x);
      }
    }
  }

  method MergeV4(v: seq<Range>) returns (out: seq<Range>)
    requires ValidRanges(V4_BITS, v)
    ensures IsMergeOf(V4_BITS, out, v)
  {
    var s := SortByLo(v);
    PermutationSameAddresses(V4_BITS, v, s);
    out := [];
    for i := 0 to |s|
      invariant MergedPrefix(V4_BITS, out, s, i)
    {
      var iv := s[i];
      MergeStepKeeps(V4_BITS, out, s, i);
      if |out| > 0 && iv.lo <= out[|out| - 1].hi + 1 {
        out := out[|out| - 1 := out[|out| - 1].(hi := Max(out[|out| - 1].hi, iv.hi))];
      } else {
        out := out + [iv];
      }
    }
    assert s[..|s|] == s;
  }

  /** The join test of the IPv6 form: `hi + 1` wraps, so the top address is tested first. */
  function JoinsWrapped(w: nat, back: Range, iv: Range): bool {
    back.hi == Pow2(w) - 1 || iv.lo <= (back.hi + 1) % Pow2(w)
  }

  lemma WrappedJoin(w: nat, back: Range, iv: Range)
    requires ValidRange(w, back) && ValidRange(w, iv)
    ensures JoinsWrapped(w, back, iv) <==> iv.lo <= back.hi + 1
  {
    if back.hi + 1 < Pow2(w) {
      ModUnique(back.hi + 1, Pow2(w), 0, back.hi + 1);
    }
  }

  method MergeV6(v: seq<Range>) returns (out: seq<Range>)
    requires ValidRanges(V6_BITS, v)
    ensures IsMergeOf(V6_BITS, out, v)
  {
    var s := SortByLo(v);
    PermutationSameAddresses(V6_BITS, v, s);
    out := [];
    for i := 0 to |s|
      invariant MergedPrefix(V6_BITS, out, s, i)
    {
      var iv := s[i];
      MergeStepKeeps(V6_BITS, out, s, i);
      if |out| > 0 {
        WrappedJoin(V6_BITS, out[|out| - 1], iv);
      }
      if |out| > 0 && JoinsWrapped(V6_BITS, out[|out| - 1], iv) {
        out := out[|out| - 1 := out[|out| - 1].(hi := Max(out[|out| - 1].hi, iv.hi))];
      } else {
        out := out + [iv];
      }
    }
    assert s[..|s|] == s;
  }

  /** A normal form is determined by the addresses it denotes. */
  lemma {:induction false} NormalFormUnique(w: nat, a: seq<Range>, b: seq<Range>)
    requires Normal(w, a) && Normal(w, b) && SameAddresses(a, b)
    ensures a == b
  {
    if a == [] {
      if b != [] {
        assert InRanges(b[0].lo, b);
      }
    } else {
      assert InRanges(a[0].lo, a) && InRanges(a[0].hi, a);
      assert b != [];
      assert InRanges(b[0].lo, b) && InRanges(b[0].hi, b);
      assert a[0].lo == b[0].lo;
      FirstEnd(w, a, b);
      FirstEnd(w, b, a);
      forall x ensures InRanges(x, a[1..]) <==> InRanges(x, b[1..]) {
        TailAddresses(w, a, x);
        TailAddresses(w, b, x);
      }
      NormalFormUnique(w, a[1..], b[1..]);
    }
  }

  lemma FirstEnd(w: nat, a: seq<Range>, b: seq<Range>)
    requires Normal(w, a) && Normal(w, b) && SameAddresses(a, b)
    requires a != [] && b != [] && a[0].lo == b[0].lo
    ensures a[0].hi <= b[0].hi
  {
    if b[0].hi < a[0].hi {
      assert InRanges(b[0].hi + 1, a);
    }
  }

  lemma TailAddresses(w: nat, a: seq<Range>, x: int)
    requires Normal(w, a) && a != []
    ensures InRanges(x, a[1..]) <==> InRanges(x, a) && x > a[0].hi
  {
    if InRanges(x, a[1..]) {
      var i :| 0 <= i < |a[1..]| && a[1..][i].lo <= x <= a[1..][i].hi;
      assert a[i + 1].lo <= x <= a[i + 1].hi;
    }
    if InRanges(x, a) && x > a[0].hi {
      var i :| 0 <= i < |a| && a[i].lo <= x <= a[i].hi;
      assert a[1..][i - 1] == a[i];
    }
  }

  /** Merging is canonical: equal outputs are equal address sets, and conversely. */
  lemma MergeCanonical(w: nat, v1: seq<Range>, v2: seq<Range>, out1: seq<Range>, out2: seq<Range>)
    requires IsMergeOf(w, out1, v1) && IsMergeOf(w, out2, v2)
    ensures out1 == out2 <==> SameAddresses(v1, v2)
  {
    if SameAddresses(v1, v2) {
      assert SameAddresses(out1, out2);
      NormalFormUnique(w, out1, out2);
    }
    if out1 == out2 {
      forall x ensures InRanges(x, v1) <==> InRanges(x, v2) {
        assert InRanges(x, out1) <==> InRanges(x, v1);
        assert InRanges(x, out2) <==> InRanges(x, v2);
      }
    }
  }

  // ---- splitting (discover.cpp:582-648) ------------------------------------

  function Min(a: nat, b: nat): nat { if a < b then a else b }

  /** Exponent of the block taken at `cur` with `remaining` addresses left. */
  function TakeBits(w: nat, cur: nat, remaining: nat): nat
    requires remaining > 0
  {
    Min(if cur == 0 then w else Ctz(cur), FloorLog2(remaining))
  }

  lemma TakeBitsFits(w: nat, cur: nat, hi: nat)
    requires cur <= hi < Pow2(w)
    ensures var k := TakeBits(w, cur, hi - cur + 1);
            k <= w && cur % Pow2(k) == 0 && cur + Pow2(k) <= hi + 1
  {
    var n := hi - cur + 1;
    var k := TakeBits(w, cur, n);
    FloorLog2Spec(n);
    Pow2Monotone(k, FloorLog2(n));
    Pow2StrictlyMonotone(FloorLog2(n), w + 1);
    if cur == 0 {
      ModUnique(0, Pow2(k), 0, 0);
    } else {
      CtzSpec(cur);
      SmallerPowerDivides(cur, k, Ctz(cur));
    }
  }

  /** Every aligned block that fits at `cur` is no larger than the one taken. */
  lemma TakeBitsLargest(w: nat, cur: nat, hi: nat, j: nat)
    requires cur <= hi < Pow2(w)
    requires j <= w && cur % Pow2(j) == 0 && cur + Pow2(j) <= hi + 1
    ensures j <= TakeBits(w, cur, hi - cur + 1)
  {
    FloorLog2Largest(hi - cur + 1, j);
    if cur > 0 {
      CtzLargest(cur, j);
    }
  }

  /** The blocks printed from `cur` up to `hi`. */
  function Greedy(w: nat, cur: nat, hi: nat): seq<Cidr>
    requires hi < Pow2(w)
    decreases hi + 1 - cur
  {
    if cur > hi then []
    else
      TakeBitsFits(w, cur, hi);
      var k := TakeBits(w, cur, hi - cur + 1);
      [Cidr(cur, w - k)] + Greedy(w, cur + Pow2(k), hi)
  }

  lemma {:induction false} GreedyValid(w: nat, cur: nat, hi: nat)
    requires hi < Pow2(w)
    ensures ValidCidrs(w, Greedy(w, cur, hi)) && Ascending(w, Greedy(w, cur, hi))
    ensures forall i :: 0 <= i < |Greedy(w, cur, hi)| ==>
              var c := Greedy(w, cur, hi)[i]; cur <= c.addr && c.addr + Size(w, c) <= hi + 1
    decreases hi + 1 - cur
  {
    if cur <= hi {
      TakeBitsFits(w, cur, hi);
      var k := TakeBits(w, cur, hi - cur + 1);
      GreedyValid(w, cur + Pow2(k), hi);
      assert ValidCidr(w, Cidr(cur, w - k));
    }
  }

  lemma {:induction false} GreedyCovers(w: nat, cur: nat, hi: nat, x: int)
    requires hi < Pow2(w) && cur <= x <= hi
    ensures ValidCidrs(w, Greedy(w, cur, hi)) && InCidrs(w, x, Greedy(w, cur, hi))
    decreases hi + 1 - cur
  {
    GreedyValid(w, cur, hi);
    TakeBitsFits(w, cur, hi);
    var k := TakeBits(w, cur, hi - cur + 1);
    var g, t := Greedy(w, cur, hi), Greedy(w, cur + Pow2(k), hi);
    if x < cur + Pow2(k) {
      assert InCidr(w, x, g[0]);
    } else {
      GreedyCovers(w, cur + Pow2(k), hi, x);
      var i :| 0 <= i < |t| && InCidr(w, x, t[i]);
      assert g[i + 1] == t[i];
    }
  }

  /** Aligned blocks are nested: a smaller one that starts inside a larger one ends inside it. */
  lemma AlignedNested(a: nat, j: nat, c: nat, k: nat)
    requires a % Pow2(j) == 0 && c % Pow2(k) == 0 && j <= k && c <= a < c + Pow2(k)
    ensures a + Pow2(j) <= c + Pow2(k)
  {
    SmallerPowerDivides(c, j, k);
    Pow2Add(j, k - j);
    MultiplesNested(a, c, Pow2(j), Pow2(k - j));
  }

  lemma MultiplesNested(a: nat, c: nat, p: nat, t: nat)
    requires p > 0 && a % p == 0 && c % p == 0 && a < c + p * t
    ensures a + p <= c + p * t
  {
    var m, n := a / p, c / p;
    assert a == m * p && c == n * p;
    assert n * p + p * t == (n + t) * p;
    StepBelow(m, n + t, p);
  }

  lemma StepBelow(m: nat, n: nat, p: nat)
    requires m * p < n * p
    ensures m * p + p <= n * p
  {
    if m >= n {
      MulLess(n, m, p);
    } else {
      MulLess(m + 1, n, p);
      assert (m + 1) * p == m * p + p;
    }
  }

  lemma AlignedStart(a: nat, j: nat, c: nat, k: nat)
    requires a % Pow2(j) == 0 && c % Pow2(k) == 0 && k <= j && c <= a < c + Pow2(k)
    ensures a == c
  {
    SmallerPowerDivides(a, k, j);
    var p := Pow2(k);
    var m, n := a / p, c / p;
    assert a == m * p && c == n * p;
    if n * p < m * p {
      StepBelow(n, m, p);
    }
  }

  /** Every aligned block within the interval lies inside one printed block. */
  lemma {:induction false} GreedyMaximal(w: nat, cur: nat, hi: nat, b: Cidr) returns (i: nat)
    requires hi < Pow2(w) && ValidCidr(w, b)
    requires cur <= b.addr && b.addr + Size(w, b) <= hi + 1
    ensures ValidCidrs(w, Greedy(w, cur, hi))
    ensures i < |Greedy(w, cur, hi)| && Inside(w, b, Greedy(w, cur, hi)[i])
    decreases hi + 1 - cur
  {
    GreedyValid(w, cur, hi);
    TakeBitsFits(w, cur, hi);
    var k, j := TakeBits(w, cur, hi - cur + 1), w - b.prefix;
    if b.addr >= cur + Pow2(k) {
      var i' := GreedyMaximal(w, cur + Pow2(k), hi, b);
      i := i' + 1;
    } else {
      if j > k {
        AlignedStart(b.addr, j, cur, k);
        TakeBitsLargest(w, cur, hi, j);
      }
      AlignedNested(b.addr, j, cur, k);
      i := 0;
    }
  }

  /** The lines printed for a list of intervals. */
  function GreedyAll(w: nat, v: seq<Range>): seq<Cidr>
    requires forall i :: 0 <= i < |v| ==> v[i].hi < Pow2(w)
  {
    if v == [] then [] else Greedy(w, v[0].lo, v[0].hi) + GreedyAll(w, v[1..])
  }

  lemma {:induction false} GreedyAllValid(w: nat, v: seq<Range>)
    requires Normal(w, v)
    ensures ValidCidrs(w, GreedyAll(w, v)) && Ascending(w, GreedyAll(w, v))
    ensures forall i :: 0 <= i < |GreedyAll(w, v)| ==> v != [] && v[0].lo <= GreedyAll(w, v)[i].addr
  {
    if v != [] {
      GreedyValid(w, v[0].lo, v[0].hi);
      GreedyAllValid(w, v[1..]);
    }
  }

  lemma {:induction false} GreedyAllCovers(w: nat, v: seq<Range>, x: int)
    requires Normal(w, v)
    ensures ValidCidrs(w, GreedyAll(w, v))
    ensures InCidrs(w, x, GreedyAll(w, v)) <==> InRanges(x, v)
  {
    GreedyAllValid(w, v);
    if v != [] {
      var g, t := Greedy(w, v[0].lo, v[0].hi), GreedyAll(w, v[1..]);
      GreedyValid(w, v[0].lo, v[0].hi);
      GreedyAllCovers(w, v[1..], x);
      TailAddresses(w, v, x);
      ConcatCovers(w, x, g, t);
      if v[0].lo <= x <= v[0].hi {
        GreedyCovers(w, v[0].lo, v[0].hi, x);
      }
    }
  }

  lemma ConcatCovers(w: nat, x: int, a: seq<Cidr>, b: seq<Cidr>)
    requires ValidCidrs(w, a) && ValidCidrs(w, b)
    ensures ValidCidrs(w, a + b)
    ensures InCidrs(w, x, a + b) <==> InCidrs(w, x, a) || InCidrs(w, x, b)
  {
    if InCidrs(w, x, a) {
      var i :| 0 <= i < |a| && InCidr(w, x, a[i]);
      assert (a + b)[i] == a[i];
    }
    if InCidrs(w, x, b) {
      var i :| 0 <= i < |b| && InCidr(w, x, b[i]);
      assert (a + b)[|a| + i] == b[i];
    }
  }

  /** A block is connected, so one inside the union lies inside one interval of a normal form. */
  lemma {:induction false} BlockInOneRange(w: nat, v: seq<Range>, b: Cidr) returns (r: nat)
    requires Normal(w, v) && ValidCidr(w, b)
    requires forall x :: InCidr(w, x, b) ==> InRanges(x, v)
    ensures r < |v| && v[r].lo <= b.addr && b.addr + Size(w, b) <= v[r].hi + 1
  {
    assert InCidr(w, b.addr, b);
    var i :| 0 <= i < |v| && v[i].lo <= b.addr <= v[i].hi;
    if b.addr + Size(w, b) > v[i].hi + 1 {
      assert InCidr(w, v[i].hi + 1, b);
    }
    r := i;
  }

  lemma {:induction false} GreedyAllMaximal(w: nat, v: seq<Range>, b: Cidr, r: nat) returns (i: nat)
    requires Normal(w, v) && ValidCidr(w, b)
    requires r < |v| && v[r].lo <= b.addr && b.addr + Size(w, b) <= v[r].hi + 1
    ensures ValidCidrs(w, GreedyAll(w, v))
    ensures i < |GreedyAll(w, v)| && Inside(w, b, GreedyAll(w, v)[i])
  {
    GreedyAllValid(w, v);
    var g := Greedy(w, v[0].lo, v[0].hi);
    if r == 0 {
      i := GreedyMaximal(w, v[0].lo, v[0].hi, b);
      assert GreedyAll(w, v)[i] == g[i];
    } else {
      var i' := GreedyAllMaximal(w, v[1..], b, r - 1);
      i := |g| + i';
      assert GreedyAll(w, v)[i] == GreedyAll(w, v[1..])[i'];
    }
  }

  /** Any exact cover has a member inside the `i`-th printed block. */
  lemma CoverMemberInside(w: nat, v: seq<Range>, s: set<Cidr>, i: nat) returns (c: Cidr)
    requires Normal(w, v) && ExactCover(w, s, v)
    requires ValidCidrs(w, GreedyAll(w, v)) && i < |GreedyAll(w, v)|
    ensures c in s && c.prefix <= w && Inside(w, c, GreedyAll(w, v)[i])
  {
    var g := GreedyAll(w, v);
    GreedyAllValid(w, v);
    var x := g[i].addr;
    GreedyAllCovers(w, v, x);
    assert InCidr(w, x, g[i]);
    c :| c in s && c.prefix <= w && InCidr(w, x, c);
    var r := BlockInOneRange(w, v, c);
    var j := GreedyAllMaximal(w, v, c, r);
    assert InCidr(w, x, g[j]);
    assert i == j;
  }

  lemma {:induction false} CoverMembers(w: nat, v: seq<Range>, s: set<Cidr>, n: nat) returns (d: set<Cidr>)
    requires Normal(w, v) && ExactCover(w, s, v)
    requires ValidCidrs(w, GreedyAll(w, v)) && n <= |GreedyAll(w, v)|
    ensures d <= s && |d| == n
    ensures forall c :: c in d ==> c.prefix <= w && exists i :: 0 <= i < n && Inside(w, c, GreedyAll(w, v)[i])
  {
    if n == 0 {
      d := {};
    } else {
      var g := GreedyAll(w, v);
      GreedyAllValid(w, v);
      var d' := CoverMembers(w, v, s, n - 1);
      var c := CoverMemberInside(w, v, s, n - 1);
      assert c !in d';
      d := d' + {c};
    }
  }

  /** No set of CIDR blocks with the same union has fewer members than the printed list. */
  lemma GreedyAllMinimal(w: nat, v: seq<Range>, s: set<Cidr>)
    requires Normal(w, v) && ExactCover(w, s, v)
    ensures |GreedyAll(w, v)| <= |s|
  {
    GreedyAllValid(w, v);
    var d := CoverMembers(w, v, s, |GreedyAll(w, v)|);
    SubsetSize(d, s);
  }

  lemma {:induction false} SubsetSize<T>(a: set<T>, b: set<T>)
    requires a <= b
    ensures |a| <= |b|
  {
    assert b == a + (b - a);
  }

  // ---- the emit loops -------------------------------------------------------

  /** `align` and `fit` of the IPv4 loop on `wide`-bit words, 64 in the source. */
  function AlignV4(w: nat, wide: nat, cur: nat): nat
    requires cur < Pow2(wide)
  {
    if cur != 0 then And(cur, (Not(wide, cur) + 1) % Pow2(wide)) else Pow2(w)
  }

  lemma AlignV4IsLowestBit(w: nat, wide: nat, cur: nat)
    requires cur < Pow2(wide)
    ensures AlignV4(w, wide, cur) == Pow2(if cur == 0 then w else Ctz(cur))
  {
    if cur != 0 {
      LowestSetBit(wide, cur);
      ModUnique(Not(wide, cur) + 1, Pow2(wide), 0, Not(wide, cur) + 1);
    }
  }

  lemma SizeV4IsTaken(w: nat, wide: nat, cur: nat, remaining: nat)
    requires cur < Pow2(wide) && remaining > 0
    ensures Min(AlignV4(w, wide, cur), Pow2(FloorLog2(remaining))) == Pow2(TakeBits(w, cur, remaining))
    ensures Ctz(Pow2(TakeBits(w, cur, remaining))) == TakeBits(w, cur, remaining)
  {
    AlignV4IsLowestBit(w, wide, cur);
    var a, f := if cur == 0 then w else Ctz(cur), FloorLog2(remaining);
    if a <= f {
      Pow2Monotone(a, f);
    } else {
      Pow2Monotone(f, a);
    }
    CtzOfPow2(TakeBits(w, cur, remaining));
  }

  /** The sample of a line: the second address of its block, or the only one. */
  ghost predicate IsSample(w: nat, line: Cidr, sample: nat) {
    && line.prefix <= w && InCidr(w, sample, line)
    && sample == line.addr + if line.prefix < w then 1 else 0
  }

  ghost predicate SamplesOf(w: nat, lines: seq<Cidr>, samples: seq<nat>) {
    |samples| == |lines| && forall i :: 0 <= i < |lines| ==> IsSample(w, lines[i], samples[i])
  }

  /** One printed line takes one block off the front of what is still to be printed. */
  lemma GreedyUnfold(w: nat, lines: seq<Cidr>, cur: nat, hi: nat, k: nat)
    requires cur <= hi < Pow2(w) && k == TakeBits(w, cur, hi - cur + 1)
    ensures k <= w && cur + Pow2(k) <= hi + 1
    ensures lines + Greedy(w, cur, hi) == (lines + [Cidr(cur, w - k)]) + Greedy(w, cur + Pow2(k), hi)
  {
    TakeBitsFits(w, cur, hi);
  }

  lemma ExtendSamples(w: nat, lines: seq<Cidr>, samples: seq<nat>, cur: nat, k: nat)
    requires SamplesOf(w, lines, samples) && k <= w
    ensures SamplesOf(w, lines + [Cidr(cur, w - k)], samples + [cur + if Pow2(k) > 1 then 1 else 0])
    ensures Pow2(k) > 1 <==> k > 0
  {
    if k > 0 {
      Pow2Monotone(1, k);
      assert Pow2(1) == 2;
    }
  }

  /** The IPv4 loop; the source runs it with `w` = 32 on `wide` = 64 bit words. */
  method EmitV4(w: nat, wide: nat, iv: Range) returns (lines: seq<Cidr>, samples: seq<nat>)
    requires ValidRange(w, iv) && w <= wide
    ensures lines == Greedy(w, iv.lo, iv.hi)
    ensures SamplesOf(w, lines, samples)
  {
    lines, samples := [], [];
    var cur, end := iv.lo, iv.hi;
    Pow2Monotone(w, wide);
    while cur <= end
      invariant cur <= end + 1
      invariant lines + Greedy(w, cur, end) == Greedy(w, iv.lo, iv.hi)
      invariant SamplesOf(w, lines, samples)
      decreases end + 1 - cur
    {
      var remaining := end - cur + 1;
      ghost var k := TakeBits(w, cur, remaining);
      SizeV4IsTaken(w, wide, cur, remaining);
      GreedyUnfold(w, lines, cur, end, k);
      ExtendSamples(w, lines, samples, cur, k);
      var align := AlignV4(w, wide, cur);
      var fit := Pow2(FloorLog2(remaining));
      var size := Min(align, fit);
      var prefix := w - Ctz(size);
      lines := lines + [Cidr(cur, prefix)];
      samples := samples + [cur + if size > 1 then 1 else 0];
      cur := cur + size;
    }
  }

  /** The 128-bit builtins are assembled from 64-bit halves. */
  function CtzHalves(half: nat, x: nat): nat
    requires x > 0
  {
    var lo := x % Pow2(half);
    if lo != 0 then Ctz(lo) else (HighHalfPositive(half, x); half + Ctz(x / Pow2(half)))
  }

  function FloorLog2Halves(half: nat, x: nat): nat
    requires x > 0
  {
    var hi := x / Pow2(half);
    if hi != 0 then half + FloorLog2(hi) else FloorLog2(x)
  }

  lemma HighHalfPositive(half: nat, x: nat)
    requires x > 0 && x % Pow2(half) == 0
    ensures x / Pow2(half) > 0
  {
  }

  lemma {:induction false} CtzHalvesCorrect(half: nat, x: nat)
    requires x > 0
    ensures CtzHalves(half, x) == Ctz(x)
  {
    if half > 0 {
      HalvesStep(half, x);
      if x % 2 == 0 {
        CtzHalvesCorrect(half - 1, x / 2);
      }
    }
  }

  lemma HalvesStep(half: nat, x: nat)
    requires half > 0
    ensures x % Pow2(half) == 2 * ((x / 2) % Pow2(half - 1)) + x % 2
    ensures x / Pow2(half) == (x / 2) / Pow2(half - 1)
  {
    var m, n := Pow2(half - 1), x / 2;
    var q, r := n / m, n % m;
    assert x == 2 * n + x % 2 && n == q * m + r;
    assert q * (2 * m) == 2 * (q * m);
    ModUnique(x, 2 * m, q, 2 * r + x % 2);
  }

  lemma {:induction false} FloorLog2HalvesCorrect(half: nat, x: nat)
    requires x > 0
    ensures FloorLog2Halves(half, x) == FloorLog2(x)
  {
    if half > 0 {
      if x > 1 {
        var hi := x / Pow2(half);
        assert hi == (x / 2) / Pow2(half - 1) by { HalvesStep(half, x); }
        FloorLog2HalvesCorrect(half - 1, x / 2);
      } else {
        HalvesStep(half, 1);
        ModUnique(0, Pow2(half - 1), 0, 0);
      }
    }
  }

  /** Exponent chosen by the IPv6 loop, with its guard for the full range. */
  function TakeV6(w: nat, half: nat, cur: nat, end: nat): nat
    requires cur <= end < Pow2(w)
  {
    if cur == 0 && end == Pow2(w) - 1 then w
    else
      var remaining := (end - cur + 1) % Pow2(w);
      RemainingNoWrap(w, cur, end);
      Min(if cur == 0 then w else CtzHalves(half, cur), FloorLog2Halves(half, remaining))
  }

  lemma RemainingNoWrap(w: nat, cur: nat, end: nat)
    requires cur <= end < Pow2(w) && !(cur == 0 && end == Pow2(w) - 1)
    ensures (end - cur + 1) % Pow2(w) == end - cur + 1
  {
    ModUnique(end - cur + 1, Pow2(w), 0, end - cur + 1);
  }

  lemma {:induction false} FloorLog2OfPow2(k: nat)
    ensures FloorLog2(Pow2(k)) == k
  {
    if k > 0 {
      FloorLog2OfPow2(k - 1);
    }
  }

  lemma TakeV6IsTaken(w: nat, half: nat, cur: nat, end: nat)
    requires cur <= end < Pow2(w)
    ensures TakeV6(w, half, cur, end) == TakeBits(w, cur, end - cur + 1)
  {
    if cur == 0 && end == Pow2(w) - 1 {
      FloorLog2OfPow2(w);
    } else {
      RemainingNoWrap(w, cur, end);
      FloorLog2HalvesCorrect(half, end - cur + 1);
      if cur != 0 {
        CtzHalvesCorrect(half, cur);
      }
    }
  }

  lemma NoSamples(w: nat)
    ensures SamplesOf(w, [], [])
  {
  }

  /** The last line of an interval. */
  lemma GreedyLast(w: nat, cur: nat, hi: nat)
    requires cur <= hi < Pow2(w) && TakeBits(w, cur, hi - cur + 1) <= w
    requires hi - cur < Pow2(TakeBits(w, cur, hi - cur + 1))
    ensures Greedy(w, cur, hi) == [Cidr(cur, w - TakeBits(w, cur, hi - cur + 1))]
  {
    TakeBitsFits(w, cur, hi);
  }

  /** The IPv6 loop; the source runs it with `w` = 128 and `half` = 64. */
  method EmitV6(w: nat, half: nat, iv: Range) returns (lines: seq<Cidr>, samples: seq<nat>)
    requires ValidRange(w, iv)
    ensures lines == Greedy(w, iv.lo, iv.hi)
    ensures SamplesOf(w, lines, samples)
  {
    hide TakeV6, TakeBits, SamplesOf;
    lines, samples := [], [];
    assert SamplesOf(w, lines, samples) by {
      NoSamples(w);
    }
    var cur, end := iv.lo, iv.hi;
    while true
      invariant cur <= end
      invariant lines + Greedy(w, cur, end) == Greedy(w, iv.lo, iv.hi)
      invariant SamplesOf(w, lines, samples)
      decreases end - cur
    {
      TakeV6IsTaken(w, half, cur, end);
      var take := TakeV6(w, half, cur, end);
      GreedyUnfold(w, lines, cur, end, take);
      ExtendSamples(w, lines, samples, cur, take);
      lines := lines + [Cidr(cur, w - take)];
      samples := samples + [cur + if take > 0 then 1 else 0];
      if take >= w {
        GreedyLast(w, cur, end);
        break;
      }
      var step := Pow2(take);
      if end - cur < step {
        GreedyLast(w, cur, end);
        break;
      }
      WrappedAdd(w, cur, step);
      cur := (cur + step) % Pow2(w);
      if cur > end || cur == 0 { break; }
    }
  }

  lemma WrappedAdd(w: nat, cur: nat, step: nat)
    requires cur + step < Pow2(w)
    ensures (cur + step) % Pow2(w) == cur + step
  {
    ModUnique(cur + step, Pow2(w), 0, cur + step);
  }

  // ---- the whole pipeline (discover.cpp:2325-2332) -------------------------

  /** What the printed list owes the collected ranges. */
  ghost predicate Compressed(w: nat, lines: seq<Cidr>, v: seq<Range>) {
    && ValidCidrs(w, lines)
    && Ascending(w, lines)
    && (forall x :: InCidrs(w, x, lines) <==> InRanges(x, v))
    && (forall s: set<Cidr> :: ExactCover(w, s, v) ==> |lines| <= |s|)
  }

  lemma GreedyAllCompressed(w: nat, merged: seq<Range>, v: seq<Range>)
    requires IsMergeOf(w, merged, v)
    ensures Compressed(w, GreedyAll(w, merged), v)
  {
    GreedyAllValid(w, merged);
    forall x ensures InCidrs(w, x, GreedyAll(w, merged)) <==> InRanges(x, v) {
      GreedyAllCovers(w, merged, x);
    }
    forall s: set<Cidr> | ExactCover(w, s, v) ensures |GreedyAll(w, merged)| <= |s| {
      assert ExactCover(w, s, merged);
      GreedyAllMinimal(w, merged, s);
    }
  }

  lemma {:induction false} GreedyAllAppend(w: nat, v: seq<Range>, r: Range)
    requires forall i :: 0 <= i < |v| ==> v[i].hi < Pow2(w)
    requires r.hi < Pow2(w)
    ensures GreedyAll(w, v + [r]) == GreedyAll(w, v) + Greedy(w, r.lo, r.hi)
  {
    if v != [] {
      GreedyAllAppend(w, v[1..], r);
      assert (v + [r])[1..] == v[1..] + [r];
    }
  }

  lemma GreedyAllPrefix(w: nat, v: seq<Range>, i: nat)
    requires ValidRanges(w, v) && i < |v|
    ensures GreedyAll(w, v[..i + 1]) == GreedyAll(w, v[..i]) + Greedy(w, v[i].lo, v[i].hi)
  {
    assert v[..i + 1] == v[..i] + [v[i]];
    GreedyAllAppend(w, v[..i], v[i]);
  }

  method CompressV4(v: seq<Range>) returns (lines: seq<Cidr>)
    requires ValidRanges(V4_BITS, v)
    ensures Compressed(V4_BITS, lines, v)
  {
    var merged := MergeV4(v);
    lines := [];
    for i := 0 to |merged|
      invariant lines == GreedyAll(V4_BITS, merged[..i])
    {
      var block, _ := EmitV4(V4_BITS, WIDE_BITS, merged[i]);
      GreedyAllPrefix(V4_BITS, merged, i);
      lines := lines + block;
    }
    assert merged[..|merged|] == merged;
    GreedyAllCompressed(V4_BITS, merged, v);
  }

  method CompressV6(v: seq<Range>) returns (lines: seq<Cidr>)
    requires ValidRanges(V6_BITS, v)
    ensures Compressed(V6_BITS, lines, v)
  {
    var merged := MergeV6(v);
    lines := [];
    for i := 0 to |merged|
      invariant lines == GreedyAll(V6_BITS, merged[..i])
    {
      var block, _ := EmitV6(V6_BITS, WIDE_BITS, merged[i]);
      GreedyAllPrefix(V6_BITS, merged, i);
      lines := lines + block;
    }
    assert merged[..|merged|] == merged;
    GreedyAllCompressed(V6_BITS, merged, v);
  }
}
