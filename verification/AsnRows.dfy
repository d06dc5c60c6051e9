/** Rows of an AS listing page: the incremental scanner fed by the network in chunks,
    and the batch parser it must agree with. `parse` turns the text of one row into a
    record, or rejects it. */
module AsnRows {
  import opened Wrappers
  import opened HtmlTags

  const MAX_ROWS_PER_PAGE: nat := 200000
  const MAX_ASN_ROW_BYTES: nat := 262144
  const STREAM_TAIL: nat := 16

  datatype State = Pre | Body | Done

  /** What has been collected: rows before any table body are provisional. */
  datatype Acc<Row> = Acc(state: State, pre: seq<Row>, rows: seq<Row>)

  /** The fields of the scanner. */
  datatype Scan<Row> = Scan(acc: Acc<Row>, carry: string)

  /** Where the kept tail of a text without a row starts. */
  function Tail(sv: string, pos: nat): nat {
    if |sv| > STREAM_TAIL && |sv| - STREAM_TAIL > pos then |sv| - STREAM_TAIL else pos
  }

  /** The text before the next row, in which the table body may start or end. */
  function Region(sv: string, pos: nat): string {
    var tr := FirstOpen(sv, "tr", pos);
    if tr.None? then sv else sv[..tr.value]
  }

  function StartsBody(sv: string, pos: nat): Option<nat> {
    FirstOpen(Region(sv, pos), "tbody", pos)
  }

  predicate EndsBody(sv: string, pos: nat) {
    FirstClose(Region(sv, pos), "tbody", pos).Some?
  }

  /** What the scanner meets next: the table body, a complete row, or the end of the
      usable text, of which the part from `cut` on is kept. */
  datatype Next = Enter(at: nat) | RowAt(from: nat, to: nat) | Stop(done: bool, cut: nat)

  function Look(sv: string, pos: nat, state: State): (x: Next)
    requires pos <= |sv| && state != Done
    ensures x.Enter? ==> state == Pre && pos < x.at <= |sv|
    ensures x.RowAt? ==> pos <= x.from <= x.to <= |sv| - 4
    ensures x.Stop? ==> pos <= x.cut <= |sv| && (x.done ==> x.cut == |sv|)
  {
    var tr := FirstOpen(sv, "tr", pos);
    if state == Pre && StartsBody(sv, pos).Some? then Enter(StartsBody(sv, pos).value + 6)
    else if state == Body && EndsBody(sv, pos) then Stop(true, |sv|)
    else if tr.None? then Stop(false, Tail(sv, pos))
    else
      var end := FirstClose(sv, "tr", tr.value);
      if end.None? then Stop(false, tr.value) else RowAt(tr.value, end.value)
  }

  /** Collects one parsed row; a full page ends the scan. */
  function AddRow<Row>(a: Acc<Row>, r: Option<Row>): Acc<Row> {
    if r.None? then a
    else if |if a.state == Pre then a.pre else a.rows| >= MAX_ROWS_PER_PAGE then a.(state := Done)
    else if a.state == Pre then a.(pre := a.pre + [r.value])
    else a.(rows := a.rows + [r.value])
  }

  /** The scanning loop on the text `sv` from `pos`. */
  function Run<Row>(parse: string -> Option<Row>, sv: string, pos: nat, a: Acc<Row>): Scan<Row>
    requires pos <= |sv|
    decreases |sv| - pos
  {
    if a.state == Done then Scan(a, "")
    else
      match Look(sv, pos, a.state)
      case Enter(p) => Run(parse, sv, p, Acc(Body, [], a.rows))
      case Stop(done, k) => Scan(if done then a.(state := Done) else a, sv[k..])
      case RowAt(from, to) => Run(parse, sv, to + 4, AddRow(a, parse(sv[from..to])))
  }

  function Feed<Row>(parse: string -> Option<Row>, s: Scan<Row>, chunk: string): Scan<Row> {
    if s.acc.state == Done then s else Run(parse, s.carry + chunk, 0, s.acc)
  }

  /** The rows reported once the page has ended; an unclosed last row counts. */
  function Finish<Row>(parse: string -> Option<Row>, s: Scan<Row>): seq<Row> {
    if s.acc.state == Done then s.acc.rows
    else
      var tr := FirstOpen(s.carry, "tr", 0);
      var last := if tr.None? then [] else ParseOpt(parse, s.carry[tr.value..]);
      (if s.acc.state == Pre then s.acc.pre else s.acc.rows) + last
  }

  function ParseOpt<Row>(parse: string -> Option<Row>, row: string): seq<Row> {
    var r := parse(row);
    if r.None? then [] else [r.value]
  }

  function FeedAll<Row>(parse: string -> Option<Row>, s: Scan<Row>, chunks: seq<string>): Scan<Row>
    decreases |chunks|
  {
    if chunks == [] then s else FeedAll(parse, Feed(parse, s, chunks[0]), chunks[1..])
  }

  function Flatten(chunks: seq<string>): string {
    if chunks == [] then "" else chunks[0] + Flatten(chunks[1..])
  }

  function Initial<Row>(): Scan<Row> {
    Scan(Acc(Pre, [], []), "")
  }

  /** One turn of the scanning loop. */
  lemma RunStep<Row>(parse: string -> Option<Row>, sv: string, pos: nat, a: Acc<Row>)
    requires pos <= |sv| && a.state != Done
    ensures match Look(sv, pos, a.state)
            case Enter(p) => Run(parse, sv, pos, a) == Run(parse, sv, p, Acc(Body, [], a.rows))
            case Stop(done, k) => Run(parse, sv, pos, a) == Scan(if done then a.(state := Done) else a, sv[k..])
            case RowAt(from, to) =>
              var a' := AddRow(a, parse(sv[from..to]));
              && Run(parse, sv, pos, a) == Run(parse, sv, to + 4, a')
              && (a'.state == Done ==> Run(parse, sv, pos, a) == Scan(a', ""))
  {
    hide Look;
  }

  // ---- the scanner object ----------------------------------------------------

  class AsnRowStream<Row> {
    const parse: string -> Option<Row>
    var state: State
    var carry: string
    var preRows: seq<Row>
    var rows: seq<Row>

    constructor (parse: string -> Option<Row>)
      ensures View() == Initial() && this.parse == parse
    {
      this.parse := parse;
      state, carry, preRows, rows := Pre, "", [], [];
    }

    function View(): Scan<Row>
      reads this
    {
      Scan(Acc(state, preRows, rows), carry)
    }

    /** Consumes one chunk; false when the unfinished row has grown too large. */
    method FeedChunk(chunk: string) returns (ok: bool)
      modifies this
      ensures View() == Feed(parse, old(View()), chunk)
      ensures ok == (state == Done || |carry| <= MAX_ASN_ROW_BYTES)
    {
      hide Look, Run;
      ghost var goal := Feed(parse, View(), chunk);
      if state == Done { return true; }
      carry := carry + chunk;
      var sv := carry;
      var pos := 0;
      while true
        invariant pos <= |sv| && state != Done && carry == sv
        invariant Run(parse, sv, pos, View().acc) == goal
        decreases |sv| - pos
      {
        RunStep(parse, sv, pos, View().acc);
        var x := LookAhead(sv, pos);
        match x
        case Enter(p) =>
          state := Body;
          preRows := [];
          pos := p;
        case Stop(done, k) =>
          if done {
            state := Done;
            carry := "";
            return true;
          }
          carry := carry[k..];
          return |carry| <= MAX_ASN_ROW_BYTES;
        case RowAt(from, to) =>
          var full := Collect(parse(sv[from..to]));
          if full {
            state := Done;
            carry := "";
            return true;
          }
          pos := to + 4;
      }
    }

    /** The searches of one turn of the loop. */
    method LookAhead(sv: string, pos: nat) returns (x: Next)
      requires pos <= |sv| && state != Done
      ensures x == Look(sv, pos, state)
    {
      var tr := FindOpenTag(sv, "tr", pos);
      var region := if tr.None? then sv else sv[..tr.value];
      if state == Pre {
        var tb := FindOpenTag(region, "tbody", pos);
        if tb.Some? { return Enter(tb.value + 6); }
      }
      if state == Body {
        var te := FindCloseTag(region, "tbody", pos);
        if te.Some? { return Stop(true, |sv|); }
      }
      if tr.None? { return Stop(false, Tail(sv, pos)); }
      var end := FindCloseTag(sv, "tr", tr.value);
      x := if end.None? then Stop(false, tr.value) else RowAt(tr.value, end.value);
    }

    /** Keeps a parsed row, unless the page already holds the most rows it may. */
    method Collect(r: Option<Row>) returns (full: bool)
      requires state != Done
      modifies this`preRows, this`rows
      ensures if full then unchanged(this) && AddRow(View().acc, r) == View().acc.(state := Done)
              else View().acc == AddRow(old(View().acc), r)
    {
      if r.Some? {
        if |if state == Pre then preRows else rows| >= MAX_ROWS_PER_PAGE { return true; }
        if state == Pre { preRows := preRows + [r.value]; } else { rows := rows + [r.value]; }
      }
      return false;
    }

    /** Ends the page. */
    method FinishPage()
      modifies this
      ensures rows == Finish(parse, old(View()))
      ensures carry == ""
    {
      if state != Done && carry != "" {
        var tr := FindOpenTag(carry, "tr", 0);
        if tr.Some? {
          var r := parse(carry[tr.value..]);
          if r.Some? {
            if state == Pre { preRows := preRows + [r.value]; } else { rows := rows + [r.value]; }
          }
        }
      }
      if state == Pre { rows, preRows := preRows, rows; }
      carry := "";
    }
  }

  // ---- independence of the chunk boundaries ----------------------------------

  ghost predicate ClosedTags(doc: string) {
    ClosedNames(doc, "tr") && ClosedNames(doc, "tbody")
  }

  lemma ClosedTagsShift(doc: string, k: nat)
    requires k <= |doc| && ClosedTags(doc)
    ensures ClosedTags(doc[k..])
  {
    ClosedNamesShift(doc, "tr", k);
    ClosedNamesShift(doc, "tbody", k);
  }

  lemma PlainNames()
    ensures Plain("tr") && Plain("tbody")
  {
  }

  function ShiftNext(x: Next, k: nat): Next
    requires match x case Enter(p) => k <= p case RowAt(f, t) => k <= f && k <= t case Stop(_, c) => k <= c
  {
    match x
    case Enter(p) => Enter(p - k)
    case RowAt(f, t) => RowAt(f - k, t - k)
    case Stop(d, c) => Stop(d, c - k)
  }

  /** Looking ahead does not look behind `pos`. */
  lemma LookShift(s: string, k: nat, pos: nat, state: State)
    requires k <= pos <= |s| && state != Done
    ensures Look(s[k..], pos - k, state) == ShiftNext(Look(s, pos, state), k)
  {
    RegionShift(s, k, pos);
    FirstOpenShift(Region(s, pos), "tbody", k, pos);
    FirstCloseShift(Region(s, pos), "tbody", k, pos);
    var tr := FirstOpen(s, "tr", pos);
    if tr.Some? {
      FirstCloseShift(s, "tr", k, tr.value);
    }
  }

  lemma RegionShift(s: string, k: nat, pos: nat)
    requires k <= pos <= |s|
    ensures FirstOpen(s[k..], "tr", pos - k) ==
            var tr := FirstOpen(s, "tr", pos); if tr.Some? then Some(tr.value - k) else None
    ensures k <= |Region(s, pos)| && Region(s[k..], pos - k) == Region(s, pos)[k..]
  {
    FirstOpenShift(s, "tr", k, pos);
  }

  lemma {:induction false} RunShift<Row>(parse: string -> Option<Row>, s: string, k: nat, pos: nat, a: Acc<Row>)
    requires k <= pos <= |s|
    ensures Run(parse, s[k..], pos - k, a) == Run(parse, s, pos, a)
    decreases |s| - pos
  {
    hide Look;
    if a.state != Done {
      LookShift(s, k, pos, a.state);
      match Look(s, pos, a.state)
      case Enter(p) => RunShift(parse, s, k, p, Acc(Body, [], a.rows));
      case Stop(_, c) => assert s[k..][c - k..] == s[c..];
      case RowAt(from, to) =>
        assert s[k..][from - k..to - k] == s[from..to];
        RunShift(parse, s, k, to + 4, AddRow(a, parse(s[from..to])));
    }
  }

  /** No tag that matters in `state` starts in [pos, k). */
  ghost predicate Quiet(s: string, pos: nat, k: nat, state: State) {
    forall p :: pos <= p < k ==>
      && !OpenAt(s, "tr", p)
      && (state == Pre ==> !OpenAt(s, "tbody", p))
      && (state == Body ==> !CloseNameAt(s, "tbody", p))
  }

  /** Quiet text can be dropped, as long as the kept tail is not cut into. */
  lemma LookSkip(s: string, pos: nat, k: nat, state: State)
    requires pos <= k <= |s| && state != Done && Quiet(s, pos, k, state)
    requires k == pos || k + STREAM_TAIL <= |s|
    ensures Look(s, pos, state) == Look(s, k, state)
  {
    var tr := FirstOpen(s, "tr", k);
    FirstOpenIs(s, "tr", pos, tr);
    var region := Region(s, k);
    assert region == Region(s, pos);
    forall p | pos <= p < k
      ensures state == Pre ==> !OpenAt(region, "tbody", p)
      ensures state == Body ==> !CloseAt(region, "tbody", p)
    {
      OpenAtCut(s, "tbody", |region|, p);
      CloseAtCut(s, "tbody", |region|, p);
    }
    if state == Pre {
      FirstOpenIs(region, "tbody", pos, FirstOpen(region, "tbody", k));
    } else {
      FirstCloseIs(region, "tbody", pos, FirstClose(region, "tbody", k));
    }
  }

  /** Looking may resume at the row it stopped at. */
  lemma LookAtRow(s: string, pos: nat, state: State)
    requires pos <= |s| && state != Done && FirstOpen(s, "tr", pos).Some?
    requires !(state == Pre && StartsBody(s, pos).Some?) && !(state == Body && EndsBody(s, pos))
    ensures Look(s, pos, state) == Look(s, FirstOpen(s, "tr", pos).value, state)
  {
    var tr := FirstOpen(s, "tr", pos).value;
    FirstOpenIs(s, "tr", tr, Some(tr));
    assert Region(s, tr) == Region(s, pos) == s[..tr];
    FirstOpenIs(s[..tr], "tbody", tr, None);
    FirstCloseIs(s[..tr], "tbody", tr, None);
  }

  /** A row found in a prefix is the row found in the whole text. */
  lemma RowStable(s: string, n: nat, pos: nat)
    requires n <= |s| && FirstOpen(s[..n], "tr", pos).Some?
    ensures FirstOpen(s, "tr", pos) == FirstOpen(s[..n], "tr", pos)
    ensures Region(s, pos) == Region(s[..n], pos)
  {
    var tr := FirstOpen(s[..n], "tr", pos);
    forall p | pos <= p <= tr.value ensures OpenAt(s, "tr", p) <==> OpenAt(s[..n], "tr", p) {
      OpenAtCut(s, "tr", n, p);
    }
    FirstOpenIs(s, "tr", pos, tr);
    assert s[..n][..tr.value] == s[..tr.value];
  }

  /** If a prefix has no row, the text before the next row covers almost the whole prefix. */
  lemma RegionWithoutRow(s: string, n: nat, pos: nat) returns (e: nat)
    requires n <= |s| && FirstOpen(s[..n], "tr", pos).None?
    ensures e <= |s| && n <= e + 3 && Region(s, pos) == s[..e]
    ensures n <= e || OpenAt(s, "tr", e)
  {
    var tr := FirstOpen(s, "tr", pos);
    if tr.Some? {
      e := tr.value;
      OpenAtCut(s, "tr", n, e);
    } else {
      e := |s|;
    }
  }

  /** A body start seen in a prefix without rows is the one seen in the whole text. */
  lemma BodyStartStable(s: string, n: nat, pos: nat)
    requires n <= |s| && FirstOpen(s[..n], "tr", pos).None? && StartsBody(s[..n], pos).Some?
    ensures StartsBody(s, pos) == StartsBody(s[..n], pos)
  {
    var e := RegionWithoutRow(s, n, pos);
    var tb := StartsBody(s[..n], pos);
    PlainNames();
    OpenAtCut(s, "tbody", n, tb.value);
    if e <= tb.value + 6 {
      NoMarkInside(s, "tbody", tb.value, e);
    }
    forall p | pos <= p <= tb.value ensures OpenAt(s[..e], "tbody", p) <==> OpenAt(s[..n], "tbody", p) {
      OpenAtCut(s, "tbody", e, p);
      OpenAtCut(s, "tbody", n, p);
    }
    FirstOpenIs(s[..e], "tbody", pos, tb);
  }

  lemma BodyEndStable(s: string, n: nat, pos: nat)
    requires n <= |s| && ClosedTags(s) && FirstOpen(s[..n], "tr", pos).None? && EndsBody(s[..n], pos)
    ensures EndsBody(s, pos)
  {
    var e := RegionWithoutRow(s, n, pos);
    var te := FirstClose(s[..n], "tbody", pos).value;
    PlainNames();
    CloseAtCut(s, "tbody", n, te);
    if e < te + 7 {
      NoMarkInside(s, "tbody", te, e);
    }
    CloseAtCut(s, "tbody", e, te);
    assert CloseAt(s[..e], "tbody", te);
  }

  /** What a prefix without rows and body tags leaves behind is quiet in the whole text. */
  lemma LeftoverQuiet(s: string, n: nat, pos: nat, state: State)
    requires pos <= n <= |s| && ClosedTags(s) && FirstOpen(s[..n], "tr", pos).None?
    requires state == Pre ==> StartsBody(s[..n], pos).None?
    requires state == Body ==> !EndsBody(s[..n], pos)
    ensures Quiet(s, pos, Tail(s[..n], pos), state)
  {
    forall p | pos <= p < Tail(s[..n], pos)
      ensures !OpenAt(s, "tr", p)
      ensures state == Pre ==> !OpenAt(s, "tbody", p)
      ensures state == Body ==> !CloseNameAt(s, "tbody", p)
    {
      OpenAtCut(s, "tr", n, p);
      OpenAtCut(s, "tbody", n, p);
      CloseAtCut(s, "tbody", n, p);
    }
  }

  lemma RowEndStable(s: string, n: nat, tr: nat)
    requires n <= |s| && ClosedTags(s) && FirstClose(s[..n], "tr", tr).Some?
    ensures FirstClose(s, "tr", tr) == FirstClose(s[..n], "tr", tr)
  {
    var end := FirstClose(s[..n], "tr", tr);
    forall p | tr <= p <= end.value ensures CloseAt(s, "tr", p) <==> CloseAt(s[..n], "tr", p) {
      CloseAtCut(s, "tr", n, p);
    }
    FirstCloseIs(s, "tr", tr, end);
  }

  /** A prefix shows the same next thing as the whole text, or nothing yet. */
  lemma LookPrefix(s: string, n: nat, pos: nat, state: State)
    requires pos <= n <= |s| && state != Done && ClosedTags(s)
    ensures var x, y := Look(s[..n], pos, state), Look(s, pos, state);
            match x
            case Enter(_) => y == x
            case RowAt(_, _) => y == x
            case Stop(done, k) => if done then y == Stop(true, |s|) else y == Look(s, k, state)
  {
    if FirstOpen(s[..n], "tr", pos).None? {
      LookPrefixNoRow(s, n, pos, state);
    } else {
      RowStable(s, n, pos);
      var tr := FirstOpen(s, "tr", pos).value;
      if FirstClose(s[..n], "tr", tr).Some? {
        RowEndStable(s, n, tr);
      } else if !(state == Pre && StartsBody(s, pos).Some?) && !(state == Body && EndsBody(s, pos)) {
        LookAtRow(s, pos, state);
      }
    }
  }

  lemma LookPrefixNoRow(s: string, n: nat, pos: nat, state: State)
    requires pos <= n <= |s| && state != Done && ClosedTags(s)
    requires FirstOpen(s[..n], "tr", pos).None?
    ensures var x, y := Look(s[..n], pos, state), Look(s, pos, state);
            match x
            case Enter(_) => y == x
            case RowAt(_, _) => false
            case Stop(done, k) => if done then y == Stop(true, |s|) else y == Look(s, k, state)
  {
    if state == Pre && StartsBody(s[..n], pos).Some? {
      BodyStartStable(s, n, pos);
    } else if state == Body && EndsBody(s[..n], pos) {
      BodyEndStable(s, n, pos);
    } else {
      LeftoverQuiet(s, n, pos, state);
      LookSkip(s, pos, Tail(s[..n], pos), state);
    }
  }

  /** Scanning a prefix and then feeding the rest is scanning the whole text. */
  lemma {:induction false} RunSplit<Row>(parse: string -> Option<Row>, s: string, n: nat, pos: nat, a: Acc<Row>)
    requires pos <= n <= |s| && ClosedTags(s)
    ensures Run(parse, s, pos, a) == Feed(parse, Run(parse, s[..n], pos, a), s[n..])
    decreases n - pos
  {
    hide Look;
    if a.state != Done {
      LookPrefix(s, n, pos, a.state);
      match Look(s[..n], pos, a.state)
      case Enter(p) => RunSplit(parse, s, n, p, Acc(Body, [], a.rows));
      case RowAt(from, to) =>
        assert s[..n][from..to] == s[from..to];
        RunSplit(parse, s, n, to + 4, AddRow(a, parse(s[from..to])));
      case Stop(done, k) =>
        assert s[..n][k..] + s[n..] == s[k..];
        if !done {
          RunShift(parse, s, k, k, a);
        }
    }
  }

  /** The unconsumed text is a suffix of what was scanned. */
  lemma {:induction false} CarryIsSuffix<Row>(parse: string -> Option<Row>, sv: string, pos: nat, a: Acc<Row>)
    returns (k: nat)
    requires pos <= |sv|
    ensures k <= |sv| && Run(parse, sv, pos, a).carry == sv[k..]
    decreases |sv| - pos
  {
    hide Look;
    k := |sv|;
    if a.state != Done {
      match Look(sv, pos, a.state)
      case Enter(p) => k := CarryIsSuffix(parse, sv, p, Acc(Body, [], a.rows));
      case RowAt(from, to) => k := CarryIsSuffix(parse, sv, to + 4, AddRow(a, parse(sv[from..to])));
      case Stop(_, c) => k := c;
    }
  }

  lemma {:induction false} FeedAllIsFeedOnce<Row>(parse: string -> Option<Row>, s: Scan<Row>, chunks: seq<string>)
    requires chunks != [] && ClosedTags(s.carry + Flatten(chunks))
    ensures FeedAll(parse, s, chunks) == Feed(parse, s, Flatten(chunks))
    decreases |chunks|
  {
    hide Run;
    var c, rest := chunks[0], chunks[1..];
    if rest == [] {
      assert Flatten(chunks) == c + "" == c;
    } else if s.acc.state == Done {
      FeedAllDone(parse, s, chunks);
    } else {
      var text, n := s.carry + Flatten(chunks), |s.carry + c|;
      assert text[..n] == s.carry + c && text[n..] == Flatten(rest);
      RunSplit(parse, text, n, 0, s.acc);
      var s1 := Feed(parse, s, c);
      var k := CarryIsSuffix(parse, s.carry + c, 0, s.acc);
      assert s1.carry + Flatten(rest) == text[k..];
      ClosedTagsShift(text, k);
      FeedAllIsFeedOnce(parse, s1, rest);
    }
  }

  lemma {:induction false} FeedAllDone<Row>(parse: string -> Option<Row>, s: Scan<Row>, chunks: seq<string>)
    requires s.acc.state == Done
    ensures FeedAll(parse, s, chunks) == s
    decreases |chunks|
  {
    if chunks != [] {
      FeedAllDone(parse, s, chunks[1..]);
    }
  }

  lemma ChunksAreOnePage<Row>(parse: string -> Option<Row>, chunks: seq<string>)
    requires ClosedTags(Flatten(chunks))
    ensures Finish(parse, FeedAll(parse, Initial(), chunks)) == Finish(parse, Feed(parse, Initial(), Flatten(chunks)))
  {
    var init: Scan<Row> := Initial();
    if chunks == [] {
      assert Feed(parse, init, "") == init;
    } else {
      assert init.carry + Flatten(chunks) == Flatten(chunks);
      FeedAllIsFeedOnce(parse, init, chunks);
    }
  }

  /** The rows of a page do not depend on how the page was cut into chunks. */
  lemma ChunkIndependence<Row>(parse: string -> Option<Row>, c1: seq<string>, c2: seq<string>)
    requires Flatten(c1) == Flatten(c2) && ClosedTags(Flatten(c1))
    ensures Finish(parse, FeedAll(parse, Initial(), c1)) == Finish(parse, FeedAll(parse, Initial(), c2))
  {
    ChunksAreOnePage(parse, c1);
    ChunksAreOnePage(parse, c2);
  }

  // ---- agreement with the batch parser ----------------------------------------

  /** One row of the batch parser and where it resumes. */
  datatype RowSpan = RowSpan(from: nat, to: nat, next: nat)

  function NextRow(scope: string, pos: nat): (r: Option<RowSpan>)
    requires pos <= |scope|
    ensures r.Some? ==> pos <= r.value.from <= r.value.to <= r.value.next <= |scope| && r.value.from < r.value.next
  {
    var tr := FirstOpen(scope, "tr", pos);
    if tr.None? then None
    else
      var end := FirstClose(scope, "tr", tr.value);
      Some(if end.None? then RowSpan(tr.value, |scope|, |scope|) else RowSpan(tr.value, end.value, end.value + 4))
  }

  function Batch<Row>(parse: string -> Option<Row>, scope: string, pos: nat, acc: seq<Row>): seq<Row>
    requires pos <= |scope|
    decreases |scope| - pos
  {
    if |acc| >= MAX_ROWS_PER_PAGE then acc
    else
      match NextRow(scope, pos)
      case None => acc
      case Some(r) => Batch(parse, scope, r.next, acc + ParseOpt(parse, scope[r.from..r.to]))
  }

  /** The table body, or the whole page when there is none. */
  function Scope(body: string): string {
    var tb := FirstOpen(body, "tbody", 0);
    if tb.None? then body
    else
      var te := FirstClose(body, "tbody", tb.value);
      if te.None? then body[tb.value..] else body[tb.value..te.value]
  }

  lemma BatchStep<Row>(parse: string -> Option<Row>, scope: string, pos: nat, acc: seq<Row>)
    requires pos <= |scope|
    ensures Batch(parse, scope, pos, acc) ==
            if |acc| >= MAX_ROWS_PER_PAGE || NextRow(scope, pos).None? then acc
            else var r := NextRow(scope, pos).value;
                 Batch(parse, scope, r.next, acc + ParseOpt(parse, scope[r.from..r.to]))
  {
    hide NextRow;
  }

  method ParseAsnRows<Row>(parse: string -> Option<Row>, body: string) returns (rows: seq<Row>)
    ensures rows == Batch(parse, Scope(body), 0, [])
  {
    hide Batch, NextRow;
    var scope := FindScope(body);
    rows := [];
    var pos := 0;
    while |rows| < MAX_ROWS_PER_PAGE
      invariant pos <= |scope|
      invariant Batch(parse, scope, pos, rows) == Batch(parse, scope, 0, [])
      decreases |scope| - pos
    {
      BatchStep(parse, scope, pos, rows);
      var r := FindRow(scope, pos);
      if r.None? { return; }
      pos := r.value.next;
      rows := rows + ParseOpt(parse, scope[r.value.from..r.value.to]);
    }
    BatchStep(parse, scope, pos, rows);
  }

  method FindScope(body: string) returns (scope: string)
    ensures scope == Scope(body)
  {
    scope := body;
    var tb := FindOpenTag(body, "tbody", 0);
    if tb.Some? {
      var te := FindCloseTag(body, "tbody", tb.value);
      scope := if te.None? then body[tb.value..] else body[tb.value..te.value];
    }
  }

  method FindRow(scope: string, pos: nat) returns (r: Option<RowSpan>)
    requires pos <= |scope|
    ensures r == NextRow(scope, pos)
  {
    var tr := FindOpenTag(scope, "tr", pos);
    if tr.None? { return None; }
    var end := FindCloseTag(scope, "tr", tr.value);
    r := Some(RowSpan(tr.value, if end.None? then |scope| else end.value,
                      if end.None? then |scope| else end.value + 4));
  }

  function CountRows(s: string, from: nat): nat
    decreases |s| - from
  {
    if from >= |s| then 0 else (if OpenAt(s, "tr", from) then 1 else 0) + CountRows(s, from + 1)
  }

  lemma {:induction false} CountRowsBetween(s: string, a: nat, b: nat)
    requires a <= b
    ensures CountRows(s, b) <= CountRows(s, a)
    ensures forall p :: a <= p < b && OpenAt(s, "tr", p) ==> CountRows(s, b) < CountRows(s, a)
    decreases b - a
  {
    if a < b && a < |s| {
      CountRowsBetween(s, a + 1, b);
    }
  }

  /** Where the row that starts at `p` ends. */
  function RowEnd(s: string, p: nat): nat {
    var end := FirstClose(s, "tr", p);
    if end.None? then |s| else end.value
  }

  /** Names of closing tags are complete, table bodies neither start nor end within a row,
      and the page has no more rows than are kept. */
  ghost predicate WellFormedPage(doc: string) {
    && ClosedTags(doc)
    && (forall p: nat, q: nat :: OpenAt(doc, "tr", p) && p <= q < RowEnd(doc, p) ==>
          !OpenAt(doc, "tbody", q) && !CloseNameAt(doc, "tbody", q))
    && CountRows(doc, 0) <= MAX_ROWS_PER_PAGE
  }

  /** `e` ends the text whose rows count, seen from `pos`. */
  ghost predicate ScopeEnd(doc: string, pos: nat, e: nat, state: State) {
    && pos <= e <= |doc|
    && (state == Pre ==> e == |doc| && forall q :: pos <= q ==> !OpenAt(doc, "tbody", q))
    && (state == Body ==>
          && (e == |doc| || CloseNameAt(doc, "tbody", e))
          && forall q :: pos <= q && (e < |doc| ==> q < e) ==> !CloseNameAt(doc, "tbody", q))
  }

  /** Two different tags start at different places and do not overlap. */
  lemma TagsApart(s: string, p: nat, q: nat)
    ensures OpenAt(s, "tbody", p) && p < q && q < |s| && s[q] == '<' ==> p + 6 < q
    ensures CloseNameAt(s, "tbody", p) && p < q && q < |s| && s[q] == '<' ==> p + 7 <= q
    ensures OpenAt(s, "tr", p) && p < q && q < |s| && s[q] == '<' ==> p + 3 < q
    ensures CloseNameAt(s, "tr", p) && p < q && q < |s| && s[q] == '<' ==> p + 4 <= q
  {
    PlainNames();
    if p < q < |s| && s[q] == '<' {
      if OpenAt(s, "tbody", p) && q <= p + 6 { NoMarkInside(s, "tbody", p, q); }
      if CloseNameAt(s, "tbody", p) && q < p + 7 { NoMarkInside(s, "tbody", p, q); }
      if OpenAt(s, "tr", p) && q <= p + 3 { NoMarkInside(s, "tr", p, q); }
      if CloseNameAt(s, "tr", p) && q < p + 4 { NoMarkInside(s, "tr", p, q); }
    }
  }

  lemma TagsDiffer(s: string, p: nat)
    ensures OpenAt(s, "tbody", p) ==> !OpenAt(s, "tr", p) && !CloseNameAt(s, "tr", p) && !CloseNameAt(s, "tbody", p)
    ensures OpenAt(s, "tr", p) ==> !CloseNameAt(s, "tr", p) && !CloseNameAt(s, "tbody", p)
    ensures CloseNameAt(s, "tbody", p) ==> !CloseNameAt(s, "tr", p)
  {
    FirstLetter(s, p, "tr");
    FirstLetter(s, p, "tbody");
  }

  lemma FirstLetter(s: string, p: nat, name: string)
    requires name == "tr" || name == "tbody"
    ensures OpenAt(s, name, p) ==> Lower(s[p + 1]) == name[0] && Lower(s[p + 2]) == name[1]
    ensures CloseNameAt(s, name, p) ==> s[p + 1] == '/' && Lower(s[p + 2]) == name[0] && Lower(s[p + 3]) == name[1]
  {
    if OpenAt(s, name, p) {
      assert Lower(s[p + 1 + 0]) == name[0] && Lower(s[p + 1 + 1]) == name[1];
    }
    if CloseNameAt(s, name, p) {
      assert Lower(s[p + 2 + 0]) == name[0] && Lower(s[p + 2 + 1]) == name[1];
    }
  }

  lemma CloseBeforeRow(doc: string, e: nat, tr: nat)
    requires ClosedTags(doc) && CloseNameAt(doc, "tbody", e) && OpenAt(doc, "tr", tr) && e < tr
    ensures CloseAt(doc[..tr], "tbody", e)
  {
    TagsApart(doc, e, tr);
    CloseAtCut(doc, "tbody", tr, e);
  }

  /** The end of the body is not before the next row, unless the scanner sees it. */
  lemma ScopeEndAfterRow(doc: string, pos: nat, e: nat, state: State, tr: nat)
    requires WellFormedPage(doc) && state != Done && ScopeEnd(doc, pos, e, state)
    requires FirstOpen(doc, "tr", pos) == Some(tr) && !(state == Body && EndsBody(doc, pos))
    ensures RowEnd(doc, tr) <= e && (RowEnd(doc, tr) < |doc| ==> RowEnd(doc, tr) + 4 <= e)
  {
    if state == Body && e < |doc| {
      TagsApart(doc, e, tr);
      if e < tr {
        CloseBeforeRow(doc, e, tr);
      }
      TagsDiffer(doc, tr);
      var t := RowEnd(doc, tr);
      assert !(tr <= e < t);
      TagsDiffer(doc, e);
      TagsApart(doc, t, e);
    }
  }

  /** The next row of the cut text is the next row of the page. */
  lemma NextRowInScope(doc: string, pos: nat, e: nat, tr: nat)
    requires ClosedTags(doc) && pos <= e <= |doc|
    requires FirstOpen(doc, "tr", pos) == Some(tr)
    requires RowEnd(doc, tr) <= e && (RowEnd(doc, tr) < |doc| ==> RowEnd(doc, tr) + 4 <= e)
    ensures NextRow(doc[..e], pos) ==
            Some(RowSpan(tr, RowEnd(doc, tr), if RowEnd(doc, tr) == |doc| then |doc| else RowEnd(doc, tr) + 4))
  {
    var t, scope := RowEnd(doc, tr), doc[..e];
    if t < |doc| {
      TagsDiffer(doc, tr);
      TagsApart(doc, tr, t);
    } else {
      assert scope == doc;
    }
    forall p: nat ensures OpenAt(scope, "tr", p) <==> OpenAt(doc, "tr", p) && p + 3 < e {
      OpenAtCut(doc, "tr", e, p);
    }
    FirstOpenIs(scope, "tr", pos, Some(tr));
    forall p | tr <= p && CloseAt(scope, "tr", p) ensures CloseAt(doc, "tr", p) {
      CloseAtCut(doc, "tr", e, p);
    }
    if t < |doc| {
      CloseAtCut(doc, "tr", e, t);
      FirstCloseIs(scope, "tr", tr, Some(t));
    } else {
      FirstCloseIs(scope, "tr", tr, None);
    }
  }

  lemma NoRowInScope(doc: string, pos: nat, e: nat)
    requires pos <= e <= |doc|
    requires FirstOpen(doc, "tr", pos).Some? ==> e <= FirstOpen(doc, "tr", pos).value
    ensures NextRow(doc[..e], pos).None?
  {
    forall p | pos <= p ensures !OpenAt(doc[..e], "tr", p) {
      OpenAtCut(doc, "tr", e, p);
    }
    FirstOpenIs(doc[..e], "tr", pos, None);
  }

  /** Scanner and batch parser see the same next row. */
  ghost predicate SameNext(doc: string, e: nat, state: State, x: Next, y: Option<RowSpan>)
    requires x.Stop? ==> x.cut <= |doc|
  {
    match x
    case Enter(_) => false
    case RowAt(from, to) => to + 4 <= e && y == Some(RowSpan(from, to, to + 4)) && OpenAt(doc, "tr", from)
    case Stop(done, k) =>
      && (done ==> state == Body)
      && if done || FirstOpen(doc[k..], "tr", 0).None? then y.None?
         else e == |doc| && FirstOpen(doc[k..], "tr", 0) == Some(0) && y == Some(RowSpan(k, |doc|, |doc|)) &&
              OpenAt(doc, "tr", k)
  }

  lemma NoBodyStarts(doc: string, pos: nat, e: nat)
    requires ScopeEnd(doc, pos, e, Pre)
    ensures StartsBody(doc, pos).None?
  {
    forall p: nat | pos <= p ensures !OpenAt(Region(doc, pos), "tbody", p) {
      OpenAtCut(doc, "tbody", |Region(doc, pos)|, p);
    }
  }

  lemma LookMatchesBatch(doc: string, pos: nat, e: nat, state: State)
    requires WellFormedPage(doc) && state != Done && ScopeEnd(doc, pos, e, state)
    ensures SameNext(doc, e, state, Look(doc, pos, state), NextRow(doc[..e], pos))
  {
    var tr := FirstOpen(doc, "tr", pos);
    if state == Pre {
      NoBodyStarts(doc, pos, e);
    }
    if state == Body && EndsBody(doc, pos) {
      var te := FirstClose(Region(doc, pos), "tbody", pos).value;
      CloseAtCut(doc, "tbody", |Region(doc, pos)|, te);
      NoRowInScope(doc, pos, e);
    } else if tr.None? {
      NoRowInScope(doc, pos, e);
      var k := Tail(doc, pos);
      FirstOpenIs(doc, "tr", k, None);
      FirstOpenShift(doc, "tr", k, k);
    } else {
      LookMatchesBatchAtRow(doc, pos, e, state, tr.value);
    }
  }

  lemma LookMatchesBatchAtRow(doc: string, pos: nat, e: nat, state: State, tr: nat)
    requires WellFormedPage(doc) && state != Done && ScopeEnd(doc, pos, e, state)
    requires FirstOpen(doc, "tr", pos) == Some(tr)
    requires !(state == Pre && StartsBody(doc, pos).Some?) && !(state == Body && EndsBody(doc, pos))
    ensures SameNext(doc, e, state, Look(doc, pos, state), NextRow(doc[..e], pos))
  {
    hide NextRow;
    ScopeEndAfterRow(doc, pos, e, state, tr);
    NextRowInScope(doc, pos, e, tr);
    FirstOpenIs(doc, "tr", tr, Some(tr));
    FirstOpenShift(doc, "tr", tr, tr);
  }

  function Collected<Row>(a: Acc<Row>): seq<Row> {
    if a.state == Pre then a.pre else a.rows
  }

  /** From a point on which both agree, the scanner reports what the batch parser reports. */
  lemma {:induction false} RowsPhase<Row>(parse: string -> Option<Row>, doc: string, pos: nat, e: nat, a: Acc<Row>)
    requires WellFormedPage(doc) && a.state != Done && ScopeEnd(doc, pos, e, a.state)
    requires |Collected(a)| + CountRows(doc, pos) <= MAX_ROWS_PER_PAGE
    ensures Finish(parse, Run(parse, doc, pos, a)) == Batch(parse, doc[..e], pos, Collected(a))
    decreases |doc| - pos
  {
    hide Look, NextRow, Run, Batch;
    LookMatchesBatch(doc, pos, e, a.state);
    RunStep(parse, doc, pos, a);
    BatchStep(parse, doc[..e], pos, Collected(a));
    match Look(doc, pos, a.state)
    case Enter(_) =>
    case RowAt(from, to) =>
      CountRowsBetween(doc, pos, to + 4);
      assert doc[..e][from..to] == doc[from..to];
      CollectRow(parse, a, doc[from..to]);
      RowsPhase(parse, doc, to + 4, e, AddRow(a, parse(doc[from..to])));
    case Stop(done, k) =>
      if !done && FirstOpen(doc[k..], "tr", 0).Some? {
        CountRowsBetween(doc, pos, k + 1);
        assert doc[k..][0..] == doc[..e][k..|doc|];
        BatchAtEnd(parse, doc[..e], Collected(a) + ParseOpt(parse, doc[k..]));
      }
  }

  lemma CollectRow<Row>(parse: string -> Option<Row>, a: Acc<Row>, row: string)
    requires a.state != Done && |Collected(a)| < MAX_ROWS_PER_PAGE
    ensures var a' := AddRow(a, parse(row));
            a'.state == a.state && Collected(a') == Collected(a) + ParseOpt(parse, row)
  {
  }

  lemma BatchAtEnd<Row>(parse: string -> Option<Row>, scope: string, acc: seq<Row>)
    ensures Batch(parse, scope, |scope|, acc) == acc
  {
  }

  /** Rows before the table body leave no trace. */
  lemma {:induction false} PrePhase<Row>(parse: string -> Option<Row>, doc: string, pos: nat, tb: nat, a: Acc<Row>)
    requires WellFormedPage(doc) && a.state == Pre && pos <= tb && FirstOpen(doc, "tbody", pos) == Some(tb)
    requires |a.pre| + CountRows(doc, pos) <= MAX_ROWS_PER_PAGE
    ensures Run(parse, doc, pos, a) == Run(parse, doc, tb + 6, Acc(Body, [], a.rows))
    decreases |doc| - pos
  {
    hide Look, NextRow, Run;
    LookBeforeBody(doc, pos, tb);
    RunStep(parse, doc, pos, a);
    match Look(doc, pos, Pre)
    case Enter(_) =>
    case RowAt(from, to) =>
      CountRowsBetween(doc, pos, to + 4);
      FirstOpenIs(doc, "tbody", to + 4, Some(tb));
      PrePhase(parse, doc, to + 4, tb, AddRow(a, parse(doc[from..to])));
  }

  lemma LookBeforeBody(doc: string, pos: nat, tb: nat)
    requires WellFormedPage(doc) && pos <= tb && FirstOpen(doc, "tbody", pos) == Some(tb)
    ensures match Look(doc, pos, Pre)
            case Enter(p) => p == tb + 6
            case RowAt(from, to) => OpenAt(doc, "tr", from) && to + 4 <= tb
            case Stop(_, _) => false
  {
    var tr, r := FirstOpen(doc, "tr", pos), Region(doc, pos);
    forall p: nat ensures OpenAt(r, "tbody", p) <==> OpenAt(doc, "tbody", p) && p + 6 < |r| {
      OpenAtCut(doc, "tbody", |r|, p);
    }
    if tr.Some? {
      TagsApart(doc, tb, tr.value);
      TagsDiffer(doc, tb);
      var t := RowEnd(doc, tr.value);
      TagsApart(doc, t, tb);
      assert tb < tr.value || tb >= t;
    }
    if StartsBody(doc, pos).Some? {
      FirstOpenIs(r, "tbody", pos, Some(tb));
    }
  }

  lemma {:induction false} BatchShift<Row>(parse: string -> Option<Row>, s: string, k: nat, pos: nat, acc: seq<Row>)
    requires k <= pos <= |s|
    ensures Batch(parse, s[k..], pos - k, acc) == Batch(parse, s, pos, acc)
    decreases |s| - pos
  {
    hide NextRow;
    NextRowShift(s, k, pos);
    match NextRow(s, pos)
    case None =>
    case Some(r) =>
      assert s[k..][r.from - k..r.to - k] == s[r.from..r.to];
      BatchShift(parse, s, k, r.next, acc + ParseOpt(parse, s[r.from..r.to]));
  }

  lemma NextRowShift(s: string, k: nat, pos: nat)
    requires k <= pos <= |s|
    ensures NextRow(s[k..], pos - k) ==
            var r := NextRow(s, pos);
            if r.None? then None else Some(RowSpan(r.value.from - k, r.value.to - k, r.value.next - k))
  {
    FirstOpenShift(s, "tr", k, pos);
    var tr := FirstOpen(s, "tr", pos);
    if tr.Some? {
      FirstCloseShift(s, "tr", k, tr.value);
    }
  }

  /** The opening tag of the body holds no row. */
  lemma BatchEntersBody<Row>(parse: string -> Option<Row>, s: string, tb: nat, acc: seq<Row>)
    requires tb + 6 <= |s| && OpenAt(s, "tbody", tb)
    ensures Batch(parse, s, tb, acc) == Batch(parse, s, tb + 6, acc)
  {
    hide Batch;
    forall p | tb <= p < tb + 6 ensures !OpenAt(s, "tr", p) {
      TagsApart(s, tb, p);
      TagsDiffer(s, tb);
    }
    FirstOpenIs(s, "tr", tb, FirstOpen(s, "tr", tb + 6));
    assert NextRow(s, tb) == NextRow(s, tb + 6);
    BatchStep(parse, s, tb, acc);
    BatchStep(parse, s, tb + 6, acc);
  }

  /** On a well-formed page the streamed rows are the rows of the batch parser, however
      the page was cut into chunks. */
  lemma StreamMatchesBatch<Row>(parse: string -> Option<Row>, chunks: seq<string>)
    requires WellFormedPage(Flatten(chunks))
    ensures Finish(parse, FeedAll(parse, Initial(), chunks)) == Batch(parse, Scope(Flatten(chunks)), 0, [])
  {
    ChunksAreOnePage(parse, chunks);
    OnePageMatchesBatch(parse, Flatten(chunks));
  }

  lemma OnePageMatchesBatch<Row>(parse: string -> Option<Row>, doc: string)
    requires WellFormedPage(doc)
    ensures Finish(parse, Feed(parse, Initial(), doc)) == Batch(parse, Scope(doc), 0, [])
  {
    hide Run, Batch, Finish, WellFormedPage;
    assert Feed(parse, Initial(), doc) == Run(parse, doc, 0, Acc(Pre, [], [])) by {
      assert "" + doc == doc;
    }
    var tb := FirstOpen(doc, "tbody", 0);
    if tb.None? {
      PageWithoutBody(parse, doc);
    } else {
      PageWithBody(parse, doc, tb.value, RowsEnd(doc, tb.value));
      assert Scope(doc) == doc[tb.value..RowsEnd(doc, tb.value)];
    }
  }

  /** Where the body that starts at `tb` ends. */
  function RowsEnd(doc: string, tb: nat): nat {
    var te := FirstClose(doc, "tbody", tb);
    if te.None? then |doc| else te.value
  }

  lemma PageWithoutBody<Row>(parse: string -> Option<Row>, doc: string)
    requires WellFormedPage(doc) && FirstOpen(doc, "tbody", 0).None?
    ensures Finish(parse, Run(parse, doc, 0, Acc(Pre, [], []))) == Batch(parse, doc, 0, [])
  {
    hide Run, Batch, Finish;
    assert doc[..|doc|] == doc;
    RowsPhase(parse, doc, 0, |doc|, Acc(Pre, [], []));
  }

  lemma PageWithBody<Row>(parse: string -> Option<Row>, doc: string, tb: nat, e: nat)
    requires WellFormedPage(doc) && FirstOpen(doc, "tbody", 0) == Some(tb) && e == RowsEnd(doc, tb)
    ensures tb <= e <= |doc|
    ensures Finish(parse, Run(parse, doc, 0, Acc(Pre, [], []))) == Batch(parse, doc[tb..e], 0, [])
  {
    hide Run, Batch, Finish;
    BodyEnd(doc, tb, e);
    CountRowsBetween(doc, 0, tb + 6);
    PrePhase(parse, doc, 0, tb, Acc(Pre, [], []));
    RowsPhase(parse, doc, tb + 6, e, Acc(Body, [], []));
    OpenAtCut(doc, "tbody", e, tb);
    BatchEntersBody<Row>(parse, doc[..e], tb, []);
    assert doc[..e][tb..] == doc[tb..e];
    BatchShift<Row>(parse, doc[..e], tb, tb, []);
  }

  lemma BodyEnd(doc: string, tb: nat, e: nat)
    requires ClosedTags(doc) && OpenAt(doc, "tbody", tb)
    requires e == RowsEnd(doc, tb)
    ensures tb + 6 < e && ScopeEnd(doc, tb + 6, e, Body)
  {
    if e < |doc| {
      TagsDiffer(doc, tb);
      TagsApart(doc, tb, e);
    }
  }
}
