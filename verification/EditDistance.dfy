/** Fuzzy matching of names: the three-row distance with transpositions and an early cut-off,
    and the search for the closest substring. */
module EditDistance {

  const EDIT_MAX: nat := 64

  /** One edit of a right-to-left alignment of two strings. */
  datatype Edit = Keep | Replace | Delete | Insert | Swap

  function DropLast(s: string, n: nat := 1): string
    requires n <= |s|
  {
    s[..|s| - n]
  }

  ghost predicate CanSwap(a: string, b: string) {
    |a| > 1 && |b| > 1 && a[|a| - 1] == b[|b| - 2] && a[|a| - 2] == b[|b| - 1]
  }

  /** The script `e` turns `a` into `b`; no character takes part in two edits. */
  ghost predicate Transforms(e: seq<Edit>, a: string, b: string) {
    if e == [] then a == "" && b == ""
    else
      var rest := e[..|e| - 1];
      match e[|e| - 1]
      case Keep => a != "" && b != "" && a[|a| - 1] == b[|b| - 1] && Transforms(rest, DropLast(a), DropLast(b))
      case Replace => a != "" && b != "" && Transforms(rest, DropLast(a), DropLast(b))
      case Delete => a != "" && Transforms(rest, DropLast(a), b)
      case Insert => b != "" && Transforms(rest, a, DropLast(b))
      case Swap => CanSwap(a, b) && Transforms(rest, DropLast(a, 2), DropLast(b, 2))
  }

  ghost function Cost(e: seq<Edit>): nat {
    if e == [] then 0 else Cost(e[..|e| - 1]) + if e[|e| - 1] == Keep then 0 else 1
  }

  function Min(a: int, b: int): int { if a < b then a else b }

  /** Edit distance; with `swaps` also a transposition of neighbours costs one
      (optimal string alignment), without it this is Levenshtein distance. */
  ghost function Dist(swaps: bool, a: string, b: string): int
    decreases |a| + |b|
  {
    if a == "" then |b|
    else if b == "" then |a|
    else
      var v := Min(Min(Dist(swaps, DropLast(a), b) + 1, Dist(swaps, a, DropLast(b)) + 1),
                   Dist(swaps, DropLast(a), DropLast(b)) + if a[|a| - 1] == b[|b| - 1] then 0 else 1);
      if swaps && CanSwap(a, b) then Min(v, Dist(swaps, DropLast(a, 2), DropLast(b, 2)) + 1) else v
  }

  ghost predicate Allowed(swaps: bool, e: seq<Edit>) {
    swaps || Swap !in e
  }

  // ---- Dist is the cheapest script ------------------------------------------

  lemma {:induction false} DistLowerBound(swaps: bool, e: seq<Edit>, a: string, b: string)
    requires Allowed(swaps, e) && Transforms(e, a, b)
    ensures Dist(swaps, a, b) <= Cost(e)
    decreases |e|
  {
    if e != [] {
      var rest := e[..|e| - 1];
      match e[|e| - 1]
      case Keep => DistLowerBound(swaps, rest, DropLast(a), DropLast(b));
      case Replace => DistLowerBound(swaps, rest, DropLast(a), DropLast(b));
      case Delete => DistLowerBound(swaps, rest, DropLast(a), b); DeleteStep(swaps, a, b);
      case Insert => DistLowerBound(swaps, rest, a, DropLast(b)); InsertStep(swaps, a, b);
      case Swap => DistLowerBound(swaps, rest, DropLast(a, 2), DropLast(b, 2));
    }
  }

  lemma DeleteStep(swaps: bool, a: string, b: string)
    requires a != ""
    ensures Dist(swaps, a, b) <= Dist(swaps, DropLast(a), b) + 1
  {
  }

  lemma InsertStep(swaps: bool, a: string, b: string)
    requires b != ""
    ensures Dist(swaps, a, b) <= Dist(swaps, a, DropLast(b)) + 1
  {
    if a != "" && |b| == 1 {
      assert DropLast(b) == "";
    }
  }

  lemma {:induction false} DistAttained(swaps: bool, a: string, b: string) returns (e: seq<Edit>)
    ensures Allowed(swaps, e) && Transforms(e, a, b) && Cost(e) == Dist(swaps, a, b)
    decreases |a| + |b|
  {
    if a == "" && b == "" {
      e := [];
    } else {
      var x, y, last;
      if a == "" || (b != "" && Dist(swaps, a, b) == Dist(swaps, a, DropLast(b)) + 1) {
        x, y, last := a, DropLast(b), Insert;
      } else if b == "" || Dist(swaps, a, b) == Dist(swaps, DropLast(a), b) + 1 {
        x, y, last := DropLast(a), b, Delete;
      } else if swaps && CanSwap(a, b) && Dist(swaps, a, b) == Dist(swaps, DropLast(a, 2), DropLast(b, 2)) + 1 {
        x, y, last := DropLast(a, 2), DropLast(b, 2), Swap;
      } else {
        x, y, last := DropLast(a), DropLast(b), if a[|a| - 1] == b[|b| - 1] then Keep else Replace;
      }
      var r := DistAttained(swaps, x, y);
      e := r + [last];
      assert e[..|e| - 1] == r;
    }
  }

  ghost predicate CheapestScript(swaps: bool, d: int, a: string, b: string) {
    && (exists e :: Allowed(swaps, e) && Transforms(e, a, b) && Cost(e) == d)
    && (forall e :: Allowed(swaps, e) && Transforms(e, a, b) ==> d <= Cost(e))
  }

  /** The recursion computes the cost of the cheapest edit script. */
  lemma DistIsCheapest(swaps: bool, a: string, b: string)
    ensures CheapestScript(swaps, Dist(swaps, a, b), a, b)
  {
    var e := DistAttained(swaps, a, b);
    forall e' | Allowed(swaps, e') && Transforms(e', a, b) ensures Dist(swaps, a, b) <= Cost(e') {
      DistLowerBound(swaps, e', a, b);
    }
  }

  lemma {:induction false} DistAtLeastLengthGap(swaps: bool, a: string, b: string)
    ensures |a| - |b| <= Dist(swaps, a, b) && |b| - |a| <= Dist(swaps, a, b)
    ensures Dist(swaps, a, b) >= 0
    decreases |a| + |b|
  {
    if a != "" && b != "" {
      DistAtLeastLengthGap(swaps, DropLast(a), b);
      DistAtLeastLengthGap(swaps, a, DropLast(b));
      DistAtLeastLengthGap(swaps, DropLast(a), DropLast(b));
      if CanSwap(a, b) {
        DistAtLeastLengthGap(swaps, DropLast(a, 2), DropLast(b, 2));
      }
    }
  }

  // ---- the cut-off -----------------------------------------------------------

  /** Table entry of the dynamic program: distance of the prefixes of lengths i and j. */
  ghost function Entry(swaps: bool, a: string, b: string, i: nat, j: nat): int
    requires i <= |a| && j <= |b|
  {
    Dist(swaps, a[..i], b[..j])
  }

  ghost predicate RowAtLeast(a: string, b: string, i: nat, m: int)
    requires i <= |a|
  {
    forall j :: 0 <= j <= |b| ==> Entry(true, a, b, i, j) >= m
  }

  /** Unfolding of an inner table entry. */
  lemma EntryStep(swaps: bool, a: string, b: string, i: nat, j: nat)
    requires 0 < i <= |a| && 0 < j <= |b|
    ensures var v := Min(Min(Entry(swaps, a, b, i - 1, j) + 1, Entry(swaps, a, b, i, j - 1) + 1),
                         Entry(swaps, a, b, i - 1, j - 1) + if a[i - 1] == b[j - 1] then 0 else 1);
            Entry(swaps, a, b, i, j) ==
            if swaps && i > 1 && j > 1 && a[i - 1] == b[j - 2] && a[i - 2] == b[j - 1]
            then Min(v, Entry(swaps, a, b, i - 2, j - 2) + 1) else v
  {
    var x, y := a[..i], b[..j];
    assert DropLast(x) == a[..i - 1] && DropLast(y) == b[..j - 1];
    if i > 1 && j > 1 {
      assert DropLast(x, 2) == a[..i - 2] && DropLast(y, 2) == b[..j - 2];
    }
  }

  lemma EntryEdge(swaps: bool, a: string, b: string, i: nat)
    ensures i <= |a| ==> Entry(swaps, a, b, i, 0) == i
    ensures i <= |b| ==> Entry(swaps, a, b, 0, i) == i
  {
  }

  /** If a whole row is at least m, so is every entry of the next one: a transposition
      that jumps over the row costs no less than the replacement it jumps over. */
  lemma {:induction false} NextRowAtLeast(a: string, b: string, i: nat, j: nat, m: int)
    requires i < |a| && j <= |b| && RowAtLeast(a, b, i, m)
    ensures Entry(true, a, b, i + 1, j) >= m
  {
    assert Entry(true, a, b, i, j) >= m;
    if j == 0 {
      EntryEdge(true, a, b, i);
      EntryEdge(true, a, b, i + 1);
    } else {
      EntryStep(true, a, b, i + 1, j);
      NextRowAtLeast(a, b, i, j - 1, m);
      assert Entry(true, a, b, i, j - 1) >= m;
      if i > 0 && j > 1 {
        EntryStep(true, a, b, i, j - 1);
      }
    }
  }

  lemma NextRowAll(a: string, b: string, i: nat, m: int)
    requires i < |a| && RowAtLeast(a, b, i, m)
    ensures RowAtLeast(a, b, i + 1, m)
  {
    var i' := i + 1;
    forall j | 0 <= j <= |b| ensures Entry(true, a, b, i', j) >= m {
      NextRowAtLeast(a, b, i, j, m);
    }
  }

  lemma {:induction false} RowBoundsResult(a: string, b: string, i: nat, m: int)
    requires i <= |a| && RowAtLeast(a, b, i, m)
    ensures Dist(true, a, b) >= m
    decreases |a| - i
  {
    if i == |a| {
      assert a[..i] == a && b[..|b|] == b;
      assert Entry(true, a, b, i, |b|) >= m;
    } else {
      NextRowAll(a, b, i, m);
      RowBoundsResult(a, b, i + 1, m);
    }
  }

  ghost predicate RowHolds(swaps: bool, row: seq<int>, a: string, b: string, i: nat, upto: nat)
    requires i <= |a|
  {
    upto <= |row| && upto <= |b| + 1 && forall j :: 0 <= j < upto ==> row[j] == Entry(swaps, a, b, i, j)
  }

  /** The distance with the cut-off: exact up to `limit`, and above `limit` otherwise. */
  method EditDistance(a: string, b: string, limit: int) returns (d: int)
    ensures |a| > EDIT_MAX || |b| > EDIT_MAX ==> d == limit + 1
    ensures |a| <= EDIT_MAX && |b| <= EDIT_MAX ==>
              && (d <= limit <==> Dist(true, a, b) <= limit)
              && (d == Dist(true, a, b) || (d == limit + 1 && limit < Dist(true, a, b)))
  {
    var la, lb := |a|, |b|;
    DistAtLeastLengthGap(true, a, b);
    if (if la < lb then lb - la else la - lb) > limit || la > EDIT_MAX || lb > EDIT_MAX { return limit + 1; }
    var pp, p, c := new int[EDIT_MAX + 1], new int[EDIT_MAX + 1], new int[EDIT_MAX + 1];
    for j := 0 to lb + 1
      invariant RowHolds(true, p[..], a, b, 0, j)
    {
      p[j] := j;
      EntryEdge(true, a, b, j);
    }
    for i := 1 to la + 1
      invariant pp != p && p != c && pp != c
      invariant pp.Length == p.Length == c.Length == EDIT_MAX + 1
      invariant fresh(pp) && fresh(p) && fresh(c)
      invariant RowHolds(true, p[..], a, b, i - 1, lb + 1)
      invariant i > 1 ==> RowHolds(true, pp[..], a, b, i - 2, lb + 1)
    {
      var rowMin := FillRow(pp, p, c, a, b, i);
      if rowMin > limit {
        forall j | 0 <= j <= |b| ensures Entry(true, a, b, i, j) >= limit + 1 {
          assert c[..][j] >= rowMin;
        }
        RowBoundsResult(a, b, i, limit + 1);
        return limit + 1;
      }
      pp, p, c := p, c, pp;
    }
    assert a[..la] == a && b[..lb] == b;
    assert p[..][lb] == Entry(true, a, b, la, lb);
    return p[lb];
  }

  /** One row of the table, with its minimum. */
  method FillRow(pp: array<int>, p: array<int>, c: array<int>, a: string, b: string, i: nat) returns (rowMin: int)
    requires pp != c && p != c && |b| < pp.Length == p.Length == c.Length
    requires 1 <= i <= |a|
    requires RowHolds(true, p[..], a, b, i - 1, |b| + 1)
    requires i > 1 ==> RowHolds(true, pp[..], a, b, i - 2, |b| + 1)
    modifies c
    ensures RowHolds(true, c[..], a, b, i, |b| + 1)
    ensures forall j :: 0 <= j <= |b| ==> rowMin <= c[..][j]
    ensures exists j :: 0 <= j <= |b| && rowMin == c[..][j]
  {
    c[0] := i;
    rowMin := c[0];
    EntryEdge(true, a, b, i);
    for j := 1 to |b| + 1
      invariant RowHolds(true, c[..], a, b, i, j)
      invariant forall k :: 0 <= k < j ==> rowMin <= c[..][k]
      invariant exists k :: 0 <= k < j && rowMin == c[..][k]
    {
      ghost var before := c[..];
      var cost := if a[i - 1] == b[j - 1] then 0 else 1;
      var v := Min(Min(p[j] + 1, c[j - 1] + 1), p[j - 1] + cost);
      if i > 1 && j > 1 && a[i - 1] == b[j - 2] && a[i - 2] == b[j - 1] {
        v := Min(v, pp[j - 2] + 1);
      }
      EntryFromRows(pp[..], p[..], c[..], a, b, i, j);
      c[j] := v;
      rowMin := Min(rowMin, v);
      assert c[..] == before[j := v];
    }
  }

  lemma EntryFromRows(pp: seq<int>, p: seq<int>, c: seq<int>, a: string, b: string, i: nat, j: nat)
    requires 1 <= i <= |a| && 1 <= j <= |b|
    requires RowHolds(true, p, a, b, i - 1, |b| + 1) && RowHolds(true, c, a, b, i, j)
    requires i > 1 ==> RowHolds(true, pp, a, b, i - 2, |b| + 1)
    ensures var v := Min(Min(p[j] + 1, c[j - 1] + 1), p[j - 1] + if a[i - 1] == b[j - 1] then 0 else 1);
            Entry(true, a, b, i, j) ==
            if i > 1 && j > 1 && a[i - 1] == b[j - 2] && a[i - 2] == b[j - 1] then Min(v, pp[j - 2] + 1) else v
  {
    EntryStep(true, a, b, i, j);
  }

  // ---- closest substring -----------------------------------------------------

  ghost function SubDist(p: string, text: string, s: nat, e: nat): int
    requires s <= e <= |text|
  {
    Dist(false, p, text[s..e])
  }

  /** `v` is the least distance between `p` and the substrings of `text` that end at `e`. */
  ghost predicate LeastEndingAt(v: int, p: string, text: string, e: nat)
    requires e <= |text|
  {
    && (exists s :: 0 <= s <= e && SubDist(p, text, s, e) == v)
    && (forall s :: 0 <= s <= e ==> v <= SubDist(p, text, s, e))
  }

  /** `v` is the least distance between `p` and any substring of `text`, empty ones included. */
  ghost predicate LeastSubstring(v: int, p: string, text: string) {
    && (exists s, e :: 0 <= s <= e <= |text| && SubDist(p, text, s, e) == v)
    && (forall s, e :: 0 <= s <= e <= |text| ==> v <= SubDist(p, text, s, e))
  }

  /** Sellers' recurrence for one cell of the column of end e. */
  function Cell(pat: string, text: string, i: nat, e: nat, left: int, diag: int, up: int): int
    requires 0 < i <= |pat| && 0 < e <= |text|
  {
    Min(Min(left + 1, up + 1), diag + if pat[i - 1] == text[e - 1] then 0 else 1)
  }

  lemma SubDistStep(pat: string, text: string, i: nat, e: nat, s: nat)
    requires 0 < i <= |pat| && 0 < e <= |text| && s <= e
    ensures s < e ==>
              SubDist(pat[..i], text, s, e) ==
              Cell(pat, text, i, e, SubDist(pat[..i], text, s, e - 1), SubDist(pat[..i - 1], text, s, e - 1),
                   SubDist(pat[..i - 1], text, s, e))
    ensures s == e ==> SubDist(pat[..i], text, s, e) == SubDist(pat[..i - 1], text, s, e) + 1
  {
    var x, y := pat[..i], text[s..e];
    assert DropLast(x) == pat[..i - 1];
    if s < e {
      assert DropLast(y) == text[s..e - 1];
    } else {
      assert y == "";
    }
  }

  lemma CellIsLeast(pat: string, text: string, i: nat, e: nat, left: int, diag: int, up: int)
    requires 0 < i <= |pat| && 0 < e <= |text|
    requires LeastEndingAt(left, pat[..i], text, e - 1)
    requires LeastEndingAt(diag, pat[..i - 1], text, e - 1)
    requires LeastEndingAt(up, pat[..i - 1], text, e)
    ensures LeastEndingAt(Cell(pat, text, i, e, left, diag, up), pat[..i], text, e)
  {
    var v, e', p, q := Cell(pat, text, i, e, left, diag, up), e - 1, pat[..i], pat[..i - 1];
    forall s | 0 <= s <= e ensures v <= SubDist(p, text, s, e) {
      SubDistStep(pat, text, i, e, s);
      assert up <= SubDist(q, text, s, e);
      if s < e {
        assert left <= SubDist(p, text, s, e') && diag <= SubDist(q, text, s, e');
      }
    }
    var s;
    if v == up + 1 {
      s :| 0 <= s <= e && SubDist(q, text, s, e) == up;
    } else if v == left + 1 {
      s :| 0 <= s <= e' && SubDist(p, text, s, e') == left;
    } else {
      s :| 0 <= s <= e' && SubDist(q, text, s, e') == diag;
    }
    SubDistStep(pat, text, i, e, s);
    assert SubDist(p, text, s, e) == v;
  }

  ghost predicate ColumnHolds(col: seq<int>, pat: string, text: string, e: nat, upto: nat)
    requires e <= |text|
  {
    upto <= |col| && upto <= |pat| + 1 && forall k :: 0 <= k < upto ==> LeastEndingAt(col[k], pat[..k], text, e)
  }

  method FillColumn(prev: array<int>, cur: array<int>, pat: string, text: string, e: nat)
    requires prev != cur && |pat| < prev.Length == cur.Length && 0 < e <= |text|
    requires ColumnHolds(prev[..], pat, text, e - 1, |pat| + 1)
    modifies cur
    ensures ColumnHolds(cur[..], pat, text, e, |pat| + 1)
  {
    cur[0] := 0;
    EmptyPattern(text, e);
    for i := 1 to |pat| + 1
      invariant ColumnHolds(cur[..], pat, text, e, i)
    {
      ghost var before := cur[..];
      assert LeastEndingAt(prev[..][i], pat[..i], text, e - 1) &&
          LeastEndingAt(prev[..][i - 1], pat[..i - 1], text, e - 1);
      assert LeastEndingAt(before[i - 1], pat[..i - 1], text, e);
      CellIsLeast(pat, text, i, e, prev[i], prev[i - 1], cur[i - 1]);
      var cost := if pat[i - 1] == text[e - 1] then 0 else 1;
      cur[i] := Min(Min(prev[i] + 1, cur[i - 1] + 1), prev[i - 1] + cost);
      assert cur[..] == before[i := cur[i]];
    }
  }

  lemma EmptyPattern(text: string, e: nat)
    requires e <= |text|
    ensures LeastEndingAt(0, "", text, e)
  {
    assert SubDist("", text, e, e) == 0;
  }

  lemma EmptyText(pat: string, text: string, i: nat)
    requires i <= |pat|
    ensures LeastEndingAt(i, pat[..i], text, 0)
  {
    assert SubDist(pat[..i], text, 0, 0) == i;
  }

  /** `best` is the least distance over the ends seen so far. */
  ghost predicate LeastUpTo(best: int, pat: string, text: string, e: nat)
    requires e <= |text|
  {
    && (exists s, e' :: 0 <= s <= e' <= e && SubDist(pat, text, s, e') == best)
    && (forall s, e' :: 0 <= s <= e' <= e ==> best <= SubDist(pat, text, s, e'))
  }

  lemma ExtendBest(best: int, v: int, pat: string, text: string, e: nat)
    requires 0 < e <= |text| && LeastUpTo(best, pat, text, e - 1) && LeastEndingAt(v, pat, text, e)
    ensures LeastUpTo(Min(best, v), pat, text, e)
  {
    if best < v {
      var s, e' :| 0 <= s <= e' <= e - 1 && SubDist(pat, text, s, e') == best;
    } else {
      var s :| 0 <= s <= e && SubDist(pat, text, s, e) == v;
    }
  }

  /** A best distance of zero cannot be improved by reading on. */
  lemma ZeroIsLeast(pat: string, text: string, e: nat, best: int)
    requires e <= |text| && LeastUpTo(best, pat, text, e) && (e == |text| || best <= 0)
    ensures LeastSubstring(best, pat, text)
  {
    forall s, e | 0 <= s <= e <= |text| ensures best <= SubDist(pat, text, s, e) {
      DistAtLeastLengthGap(false, pat, text[s..e]);
    }
  }

  lemma CopiedColumn(prev: seq<int>, cur: seq<int>, pat: string, text: string, e: nat)
    requires e <= |text| && ColumnHolds(cur, pat, text, e, |pat| + 1) && |prev| == |cur|
    requires forall k :: 0 <= k <= |pat| ==> prev[k] == cur[k]
    ensures ColumnHolds(prev, pat, text, e, |pat| + 1)
  {
  }

  method InitColumn(prev: array<int>, pat: string, text: string)
    requires |pat| < prev.Length
    modifies prev
    ensures ColumnHolds(prev[..], pat, text, 0, |pat| + 1)
  {
    for i := 0 to |pat| + 1
      invariant ColumnHolds(prev[..], pat, text, 0, i)
    {
      prev[i] := i;
      EmptyText(pat, text, i);
    }
  }

  /** Fills `cur` and copies it over `prev`; `last` is the bottom cell. */
  method AdvanceColumn(prev: array<int>, cur: array<int>, pat: string, text: string, e: nat) returns (last: int)
    requires prev != cur && |pat| < prev.Length == cur.Length && 0 < e <= |text|
    requires ColumnHolds(prev[..], pat, text, e - 1, |pat| + 1)
    modifies prev, cur
    ensures ColumnHolds(prev[..], pat, text, e, |pat| + 1)
    ensures LeastEndingAt(last, pat, text, e)
  {
    FillColumn(prev, cur, pat, text, e);
    last := cur[|pat|];
    assert pat[..|pat|] == pat;
    assert LeastEndingAt(cur[..][|pat|], pat[..|pat|], text, e);
    forall k | 0 <= k <= |pat| { prev[k] := cur[k]; }
    CopiedColumn(prev[..], cur[..], pat, text, e);
  }

  lemma InitialBest(col: seq<int>, pat: string, text: string)
    requires ColumnHolds(col, pat, text, 0, |pat| + 1)
    ensures LeastUpTo(col[|pat|], pat, text, 0)
  {
    assert pat[..|pat|] == pat;
    assert LeastEndingAt(col[|pat|], pat[..|pat|], text, 0);
  }

  method ApproxSub(pat: string, text: string, limit: int) returns (best: int)
    ensures |pat| == 0 || |pat| > EDIT_MAX ==> best == limit + 1
    ensures 1 <= |pat| <= EDIT_MAX ==> LeastSubstring(best, pat, text)
  {
    var m := |pat|;
    if m == 0 || m > EDIT_MAX { return limit + 1; }
    var prev, cur := new int[EDIT_MAX + 1], new int[EDIT_MAX + 1];
    InitColumn(prev, pat, text);
    best := prev[m];
    InitialBest(prev[..], pat, text);
    hide ColumnHolds, LeastUpTo, LeastEndingAt, LeastSubstring;
    var j := 0;
    while j < |text| && best > 0
      invariant 0 <= j <= |text|
      invariant ColumnHolds(prev[..], pat, text, j, m + 1)
      invariant LeastUpTo(best, pat, text, j)
    {
      var last := AdvanceColumn(prev, cur, pat, text, j + 1);
      ExtendBest(best, last, pat, text, j + 1);
      best := Min(best, last);
      j := j + 1;
    }
    ZeroIsLeast(pat, text, j, best);
  }
}
