/** Domain names on the wire (section 3.1 and section 4.1.4 of RFC 1035). */
module DnsName {
  import opened Wrappers

  type Byte = x: int | 0 <= x < 256
  type Bytes = seq<Byte>

  const DOT: Byte := 46
  const MAX_HOPS: nat := 128

  // ---- encoding --------------------------------------------------------------------------

  function FindDot(h: Bytes, from: nat): (r: Option<nat>)
    ensures r.Some? ==> from <= r.value < |h| && h[r.value] == DOT
    ensures forall i :: from <= i < |h| && (r.Some? ==> i < r.value) ==> h[i] != DOT
    decreases |h| - from
  {
    if from >= |h| then None else if h[from] == DOT then Some(from) else FindDot(h, from + 1)
  }

  function Min(a: nat, b: nat): nat { if a < b then a else b }

  /** The length of the label that starts at `start`, cut at 63 bytes. */
  function LabelLength(h: Bytes, start: nat): (n: nat)
    requires start < |h|
    ensures n <= 63 && start + n <= |h|
  {
    var dot := FindDot(h, start);
    Min(63, if dot.None? then |h| - start else dot.value - start)
  }

  /** The length byte and the bytes of the label that starts at `start`. */
  function LabelBytes(h: Bytes, start: nat): Bytes
    requires start < |h|
  {
    [LabelLength(h, start) as Byte] + h[start..start + LabelLength(h, start)]
  }

  /** The labels of `h` from `start` on. */
  function EncodeFrom(h: Bytes, start: nat): Bytes
    decreases |h| - start
  {
    if start >= |h| then [0]
    else
      var dot := FindDot(h, start);
      LabelBytes(h, start) + if dot.None? then [0] else EncodeFrom(h, dot.value + 1)
  }

  /** One trailing dot is dropped. */
  function StripDot(host: Bytes): Bytes {
    if host != [] && host[|host| - 1] == DOT then host[..|host| - 1] else host
  }

  function Encode(host: Bytes): Bytes {
    EncodeFrom(StripDot(host), 0)
  }

  method EncodeName(host: Bytes, prefix: Bytes) returns (out: Bytes)
    ensures out == prefix + Encode(host)
  {
    hide LabelBytes;
    out := prefix;
    var start := 0;
    var h := StripDot(host);
    while start < |h|
      invariant out + EncodeFrom(h, start) == prefix + Encode(host)
      decreases |h| - start
    {
      var dot := FindDot(h, start);
      out := AppendLabelBytes(h, start, dot, out);
      if dot.None? {
        out := out + [0];
        return;
      }
      start := dot.value + 1;
    }
    out := out + [0];
  }

  method AppendLabelBytes(h: Bytes, start: nat, dot: Option<nat>, before: Bytes) returns (out: Bytes)
    requires start < |h| && dot == FindDot(h, start)
    ensures out == before + LabelBytes(h, start)
  {
    var len := if dot.None? then |h| - start else dot.value - start;
    if len > 63 { len := 63; }
    out := before + [len as Byte];
    for i := 0 to len
      invariant out == before + [len as Byte] + h[start..start + i]
    {
      out := out + [h[start + i]];
      assert h[start..start + i + 1] == h[start..start + i] + [h[start + i]];
    }
  }

  // ---- names as labels ---------------------------------------------------------------------

  /** Labels separated by dots. */
  function Join(ls: seq<Bytes>): Bytes {
    if ls == [] then [] else if |ls| == 1 then ls[0] else ls[0] + [DOT] + Join(ls[1..])
  }

  ghost predicate ValidLabel(l: Bytes) {
    1 <= |l| <= 63
  }

  ghost predicate ValidLabels(ls: seq<Bytes>) {
    forall i :: 0 <= i < |ls| ==> ValidLabel(ls[i])
  }

  /** The labels contain no dot, so that the text form can be split again. */
  ghost predicate DotFree(ls: seq<Bytes>) {
    forall i :: 0 <= i < |ls| ==> DOT !in ls[i]
  }

  /** The uncompressed wire form. */
  function Wire(ls: seq<Bytes>): Bytes
    requires forall i :: 0 <= i < |ls| ==> |ls[i]| < 256
  {
    if ls == [] then [0] else [|ls[0]| as Byte] + ls[0] + Wire(ls[1..])
  }

  lemma EncodeStep(h: Bytes, start: nat)
    ensures EncodeFrom(h, start) ==
            if start >= |h| then [0]
            else
              var dot := FindDot(h, start);
              LabelBytes(h, start) + (if dot.None? then [0] else EncodeFrom(h, dot.value + 1))
  {
    hide LabelBytes, FindDot;
  }

  lemma {:induction false} EncodeFromShift(h: Bytes, k: nat, start: nat)
    requires k <= start && k <= |h|
    ensures EncodeFrom(h, start) == EncodeFrom(h[k..], start - k)
    decreases |h| - start
  {
    hide LabelBytes, FindDot, EncodeFrom;
    EncodeStep(h, start);
    EncodeStep(h[k..], start - k);
    if start < |h| {
      FindDotShift(h, k, start);
      LabelBytesShift(h, k, start);
      var dot := FindDot(h, start);
      if dot.Some? {
        EncodeFromShift(h, k, dot.value + 1);
      }
    }
  }

  lemma LabelBytesShift(h: Bytes, k: nat, start: nat)
    requires k <= start < |h|
    ensures LabelBytes(h[k..], start - k) == LabelBytes(h, start)
  {
    FindDotShift(h, k, start);
    var len := LabelLength(h, start);
    assert h[start..start + len] == h[k..][start - k..start - k + len];
  }

  lemma FindDotShift(h: Bytes, k: nat, from: nat)
    requires k <= from <= |h|
    ensures FindDot(h[k..], from - k) == var d := FindDot(h, from); if d.None? then None else Some(d.value - k)
  {
    var d, e := FindDot(h, from), FindDot(h[k..], from - k);
    if d.Some? {
      assert h[k..][d.value - k] == DOT;
    }
    if e.Some? {
      assert h[k + e.value] == DOT;
    }
  }

  /** A label as it is written: at most 63 of its bytes. */
  function Cut(l: Bytes): (c: Bytes)
    ensures |c| <= 63
  {
    if |l| <= 63 then l else l[..63]
  }

  function CutAll(ls: seq<Bytes>): (cs: seq<Bytes>)
    ensures |cs| == |ls| && forall i :: 0 <= i < |cs| ==> cs[i] == Cut(ls[i])
  {
    if ls == [] then [] else [Cut(ls[0])] + CutAll(ls[1..])
  }

  /** A label that reaches the end is written with its length. */
  lemma EncodeLast(l: Bytes)
    requires DOT !in l && l != []
    ensures EncodeFrom(l, 0) == [|Cut(l)|] + Cut(l) + [0]
  {
    assert FindDot(l, 0).None?;
    assert l[0..|Cut(l)|] == Cut(l);
  }

  lemma LabelBeforeDot(l: Bytes, rest: Bytes)
    requires DOT !in l
    ensures FindDot(l + [DOT] + rest, 0) == Some(|l|)
    ensures LabelBytes(l + [DOT] + rest, 0) == [|Cut(l)|] + Cut(l)
  {
    var h := l + [DOT] + rest;
    assert h[|l|] == DOT;
    assert FindDot(h, 0) == Some(|l|) by {
      assert forall i :: 0 <= i < |l| ==> h[i] == l[i] && l[i] in l;
    }
    assert h[0..|Cut(l)|] == Cut(l);
  }

  /** So is a label that a dot follows. */
  lemma EncodeLabel(l: Bytes, rest: Bytes)
    requires DOT !in l
    ensures EncodeFrom(l + [DOT] + rest, 0) == [|Cut(l)|] + Cut(l) + EncodeFrom(rest, 0)
  {
    var h := l + [DOT] + rest;
    hide FindDot, EncodeFrom, LabelBytes, Cut;
    LabelBeforeDot(l, rest);
    EncodeStep(h, 0);
    EncodeFromShift(h, |l| + 1, |l| + 1);
    assert h[|l| + 1..] == rest;
  }

  lemma {:induction false} EncodeJoin(ls: seq<Bytes>)
    requires DotFree(ls) && (ls != [] ==> ls[|ls| - 1] != [])
    ensures EncodeFrom(Join(ls), 0) == Wire(CutAll(ls))
  {
    if ls != [] {
      assert CutAll(ls)[1..] == CutAll(ls[1..]);
      if |ls| > 1 {
        EncodeLabel(ls[0], Join(ls[1..]));
        EncodeJoin(ls[1..]);
      } else {
        EncodeLast(ls[0]);
        assert Wire(CutAll(ls[1..])) == [0];
      }
    }
  }

  lemma {:induction false} JoinEndsWithoutDot(ls: seq<Bytes>)
    requires DotFree(ls) && ls != [] && ls[|ls| - 1] != []
    ensures Join(ls) != [] && Join(ls)[|Join(ls)| - 1] != DOT
  {
    if |ls| > 1 {
      JoinEndsWithoutDot(ls[1..]);
    }
  }

  /** The encoder writes the labels between the dots, with or without a trailing dot, each
      with its length and cut to 63 bytes; an empty label is written too. */
  lemma EncodeIsWire(ls: seq<Bytes>)
    requires DotFree(ls) && (ls != [] ==> ls[|ls| - 1] != [])
    ensures Encode(Join(ls)) == Wire(CutAll(ls)) && Encode(Join(ls) + [DOT]) == Wire(CutAll(ls))
  {
    EncodeJoin(ls);
    if ls != [] {
      JoinEndsWithoutDot(ls);
    }
    assert StripDot(Join(ls) + [DOT]) == Join(ls);
  }

  // ---- decoding --------------------------------------------------------------------------------

  datatype Decoded = Decoded(next: nat, name: Bytes)

  /** What the decoder finds at `pos`. */
  datatype Element = End | Pointer(target: nat) | Label(text: Bytes) | Broken

  function ElementAt(buf: Bytes, pos: nat): (e: Element)
    requires pos < |buf|
    ensures e.Label? ==> 1 <= |e.text| < 192 && pos + 1 + |e.text| <= |buf|
  {
    var b: int := buf[pos];
    if b == 0 then End
    else if b >= 192 then
      if pos + 1 >= |buf| then Broken else Pointer((b - 192) * 256 + buf[pos + 1])
    else if pos + 1 + b > |buf| then Broken
    else Label(buf[pos + 1..pos + 1 + b])
  }

  function AppendLabel(out: Bytes, l: Bytes): Bytes {
    if out == [] then l else out + [DOT] + l
  }

  /** The decoding loop: `after` is where the caller goes on once a pointer was followed,
      and the start position until then. */
  function DecodeFrom(buf: Bytes, pos: nat, hops: nat, jumped: bool, after: nat, out: Bytes): Decoded
    requires hops <= MAX_HOPS
    decreases MAX_HOPS - hops, |buf| - pos
  {
    if pos >= |buf| then Decoded(if jumped then after else pos, out)
    else
      match ElementAt(buf, pos)
      case End => Decoded(if jumped then after else pos + 1, out)
      case Broken => Decoded(after, out)
      case Pointer(target) =>
        var after' := if jumped then after else pos + 2;
        if hops + 1 > MAX_HOPS then Decoded(after', out)
        else DecodeFrom(buf, target, hops + 1, true, after', out)
      case Label(l) => DecodeFrom(buf, pos + 1 + |l|, hops, jumped, after, AppendLabel(out, l))
  }

  function Decode(buf: Bytes, pos: nat): Decoded {
    DecodeFrom(buf, pos, 0, false, pos, [])
  }

  method DecodeName(buf: Bytes, start: nat) returns (next: nat, out: Bytes)
    ensures Decoded(next, out) == Decode(buf, start)
  {
    hide DecodeFrom;
    out := [];
    var pos: nat, originalPos: nat, jumped, hops: nat := start, start, false, 0;
    while pos < |buf|
      invariant hops <= MAX_HOPS
      invariant DecodeFrom(buf, pos, hops, jumped, originalPos, out) == Decode(buf, start)
      decreases MAX_HOPS - hops, |buf| - pos
    {
      DecodeStep(buf, pos, hops, jumped, originalPos, out);
      var b: int := buf[pos];
      if b == 0 {
        pos := pos + 1;
        return if jumped then originalPos else pos, out;
      }
      if b >= 192 {
        if pos + 1 >= |buf| { return originalPos, out; }
        var target := (b - 192) * 256 + buf[pos + 1];
        if !jumped { originalPos, jumped := pos + 2, true; }
        pos := target;
        if hops + 1 > MAX_HOPS { return originalPos, out; }
        hops := hops + 1;
        continue;
      }
      var len := b;
      pos := pos + 1;
      if pos + len > |buf| { return originalPos, out; }
      ghost var longer := AppendLabel(out, buf[pos..pos + len]);
      if out != [] { out := out + [DOT]; }
      out := out + buf[pos..pos + len];
      assert out == longer;
      pos := pos + len;
    }
    DecodeEnd(buf, pos, hops, jumped, originalPos, out);
    return if jumped then originalPos else pos, out;
  }

  lemma DecodeEnd(buf: Bytes, pos: nat, hops: nat, jumped: bool, after: nat, out: Bytes)
    requires hops <= MAX_HOPS && pos >= |buf|
    ensures DecodeFrom(buf, pos, hops, jumped, after, out) == Decoded(if jumped then after else pos, out)
  {
  }

  /** The position after a name, without decoding it. */
  function Skip(buf: Bytes, pos: nat): nat
    decreases |buf| - pos
  {
    if pos >= |buf| then pos
    else if buf[pos] == 0 then pos + 1
    else if buf[pos] >= 192 then pos + 2
    else Skip(buf, pos + 1 + buf[pos])
  }

  method SkipName(buf: Bytes, start: nat) returns (next: nat)
    ensures next == Skip(buf, start)
  {
    var pos: nat := start;
    while pos < |buf|
      invariant Skip(buf, pos) == Skip(buf, start)
      decreases |buf| - pos
    {
      var b := buf[pos];
      if b == 0 { return pos + 1; }
      if b >= 192 { return pos + 2; }
      pos := pos + 1 + b;
    }
    return pos;
  }

  /** One turn of the decoding loop. */
  lemma DecodeStep(buf: Bytes, pos: nat, hops: nat, jumped: bool, after: nat, out: Bytes)
    requires hops <= MAX_HOPS && pos < |buf|
    ensures var e, d := ElementAt(buf, pos), DecodeFrom(buf, pos, hops, jumped, after, out);
            && (e.End? ==> d == Decoded(if jumped then after else pos + 1, out))
            && (e.Broken? ==> d == Decoded(after, out))
            && (e.Pointer? && hops == MAX_HOPS ==> d == Decoded(if jumped then after else pos + 2, out))
            && (e.Pointer? && hops < MAX_HOPS ==>
                  d == DecodeFrom(buf, e.target, hops + 1, true, if jumped then after else pos + 2, out))
            && (e.Label? ==> d == DecodeFrom(buf, pos + 1 + |e.text|, hops, jumped, after, AppendLabel(out, e.text)))
  {
    hide ElementAt;
  }

  // ---- both walks agree exactly when the name ends inside the message ---------------------------

  lemma {:induction false} SkipAdvances(buf: Bytes, pos: nat)
    ensures Skip(buf, pos) >= pos && (pos < |buf| ==> Skip(buf, pos) > pos)
    decreases |buf| - pos
  {
    if pos < |buf| && buf[pos] != 0 && buf[pos] < 192 {
      SkipAdvances(buf, pos + 1 + buf[pos]);
    }
  }

  lemma {:induction false} JumpedNext(buf: Bytes, pos: nat, hops: nat, after: nat, out: Bytes)
    requires hops <= MAX_HOPS
    ensures DecodeFrom(buf, pos, hops, true, after, out).next == after
    decreases MAX_HOPS - hops, |buf| - pos
  {
    if pos < |buf| {
      hide DecodeFrom, ElementAt;
      DecodeStep(buf, pos, hops, true, after, out);
      match ElementAt(buf, pos)
      case End =>
      case Broken =>
      case Pointer(target) =>
        if hops < MAX_HOPS { JumpedNext(buf, target, hops + 1, after, out); }
      case Label(l) => JumpedNext(buf, pos + 1 + |l|, hops, after, AppendLabel(out, l));
    }
  }

  lemma SkipStep(buf: Bytes, pos: nat)
    requires pos < |buf|
    ensures var e := ElementAt(buf, pos);
            && (e.End? ==> Skip(buf, pos) == pos + 1)
            && (e.Pointer? ==> Skip(buf, pos) == pos + 2 && pos + 2 <= |buf|)
            && (e.Label? ==> Skip(buf, pos) == Skip(buf, pos + 1 + |e.text|))
            && (e.Broken? ==> Skip(buf, pos) > |buf|)
  {
    SkipAdvances(buf, pos);
    if 0 < buf[pos] < 192 {
      SkipAdvances(buf, pos + 1 + buf[pos]);
    }
  }

  lemma {:induction false} WalkNext(buf: Bytes, pos: nat, start: nat, out: Bytes)
    requires start < |buf|
    ensures DecodeFrom(buf, pos, 0, false, start, out).next ==
            if Skip(buf, pos) <= |buf| || pos > |buf| then Skip(buf, pos) else start
    decreases |buf| - pos
  {
    if pos >= |buf| {
    } else {
      hide DecodeFrom, Skip, ElementAt, AppendLabel;
      DecodeStep(buf, pos, 0, false, start, out);
      SkipStep(buf, pos);
      match ElementAt(buf, pos)
      case End =>
      case Broken =>
      case Pointer(target) => JumpedNext(buf, target, 1, pos + 2, out);
      case Label(l) => WalkNext(buf, pos + 1 + |l|, start, AppendLabel(out, l));
    }
  }

  /** On any bytes: decoding and skipping stop at the same position, except that a name that
      runs out of the message makes the decoder report its own start. */
  lemma NextIsSkip(buf: Bytes, pos: nat)
    ensures Decode(buf, pos).next == if Skip(buf, pos) <= |buf| || pos >= |buf| then Skip(buf, pos) else pos
  {
    if pos < |buf| {
      WalkNext(buf, pos, pos, []);
    }
  }

  /** The two positions differ exactly on names that run out of the message. */
  lemma SameNextIff(buf: Bytes, pos: nat)
    ensures Decode(buf, pos).next == Skip(buf, pos) <==> Skip(buf, pos) <= |buf| || pos >= |buf|
  {
    NextIsSkip(buf, pos);
    SkipAdvances(buf, pos);
  }

  /** A label that claims five bytes and has none: decoding stays at 0, skipping goes to 6. */
  lemma NextDiffers()
    ensures Decode([5], 0).next == 0 && Skip([5], 0) == 6
  {
    assert Skip([5], 6) == 6;
    NextIsSkip([5], 0);
  }

  // ---- names in a message, compressed or not ------------------------------------------------------

  /** The name `ls` is written at `pos`, following at most `hops` pointers. */
  ghost predicate NameAt(buf: Bytes, pos: nat, ls: seq<Bytes>, hops: nat)
    decreases hops, |ls|
  {
    && pos < |buf|
    && match ElementAt(buf, pos)
       case End => ls == []
       case Broken => false
       case Pointer(target) => hops > 0 && NameAt(buf, target, ls, hops - 1)
       case Label(l) => ls != [] && ls[0] == l && NameAt(buf, pos + 1 + |l|, ls[1..], hops)
  }

  function AppendAll(out: Bytes, ls: seq<Bytes>): Bytes
    decreases |ls|
  {
    if ls == [] then out else AppendAll(AppendLabel(out, ls[0]), ls[1..])
  }

  lemma {:induction false} AppendAllIsJoin(out: Bytes, ls: seq<Bytes>)
    requires out != [] && ls != []
    ensures AppendAll(out, ls) == out + [DOT] + Join(ls)
    decreases |ls|
  {
    if |ls| == 1 {
      assert ls[1..] == [];
    } else {
      AppendAllIsJoin(AppendLabel(out, ls[0]), ls[1..]);
    }
  }

  lemma AppendAllFromEmpty(ls: seq<Bytes>)
    requires forall i :: 0 <= i < |ls| ==> ls[i] != []
    ensures AppendAll([], ls) == Join(ls)
  {
    if |ls| == 1 {
      assert ls[1..] == [];
    } else if |ls| > 1 {
      AppendAllIsJoin(ls[0], ls[1..]);
    }
  }

  lemma {:induction false} DecodeNameAt(buf: Bytes, pos: nat, ls: seq<Bytes>, left: nat, hops: nat,
                                        jumped: bool, after: nat, out: Bytes)
    requires NameAt(buf, pos, ls, left) && left + hops <= MAX_HOPS
    ensures DecodeFrom(buf, pos, hops, jumped, after, out).name == AppendAll(out, ls)
    ensures forall i :: 0 <= i < |ls| ==> ls[i] != []
    decreases left, |ls|
  {
    match ElementAt(buf, pos)
    case End =>
    case Pointer(target) =>
      DecodeNameAt(buf, target, ls, left - 1, hops + 1, true, if jumped then after else pos + 2, out);
    case Label(l) =>
      DecodeNameAt(buf, pos + 1 + |l|, ls[1..], left, hops, jumped, after, AppendLabel(out, l));
  }

  lemma {:induction false} SkipNameAt(buf: Bytes, pos: nat, ls: seq<Bytes>, hops: nat)
    requires NameAt(buf, pos, ls, hops)
    ensures Skip(buf, pos) <= |buf|
    decreases |ls|
  {
    match ElementAt(buf, pos)
    case End =>
    case Pointer(target) =>
    case Label(l) => SkipNameAt(buf, pos + 1 + |l|, ls[1..], hops);
  }

  /** Any name that takes no more hops than allowed is decoded to its text, and both walks
      continue behind it. */
  lemma DecodeAnyName(buf: Bytes, pos: nat, ls: seq<Bytes>)
    requires NameAt(buf, pos, ls, MAX_HOPS)
    ensures Decode(buf, pos) == Decoded(Skip(buf, pos), Join(ls))
  {
    DecodeNameAt(buf, pos, ls, MAX_HOPS, 0, false, pos, []);
    AppendAllFromEmpty(ls);
    SkipNameAt(buf, pos, ls, MAX_HOPS);
    NextIsSkip(buf, pos);
  }

  /** More hops than needed do no harm. */
  lemma {:induction false} NameAtMoreHops(buf: Bytes, pos: nat, ls: seq<Bytes>, h: nat, h': nat)
    requires NameAt(buf, pos, ls, h) && h <= h'
    ensures NameAt(buf, pos, ls, h')
    decreases h, |ls|
  {
    match ElementAt(buf, pos)
    case End =>
    case Pointer(target) => NameAtMoreHops(buf, target, ls, h - 1, h' - 1);
    case Label(l) => NameAtMoreHops(buf, pos + 1 + |l|, ls[1..], h, h');
  }

  /** Labels written at `pos`, not yet ended. */
  ghost predicate LabelsAt(buf: Bytes, pos: nat, ls: seq<Bytes>)
    decreases |ls|
  {
    if ls == [] then pos < |buf|
    else pos < |buf| && ElementAt(buf, pos) == Label(ls[0]) && LabelsAt(buf, pos + 1 + |ls[0]|, ls[1..])
  }

  function LabelsEnd(pos: nat, ls: seq<Bytes>): nat
    decreases |ls|
  {
    if ls == [] then pos else LabelsEnd(pos + 1 + |ls[0]|, ls[1..])
  }

  /** Labels followed by a name are the longer name. */
  lemma {:induction false} LabelsThenName(buf: Bytes, pos: nat, ls: seq<Bytes>, tail: seq<Bytes>, hops: nat)
    requires LabelsAt(buf, pos, ls) && NameAt(buf, LabelsEnd(pos, ls), tail, hops)
    ensures NameAt(buf, pos, ls + tail, hops)
    decreases |ls|
  {
    if ls == [] {
      assert ls + tail == tail;
    } else {
      LabelsThenName(buf, pos + 1 + |ls[0]|, ls[1..], tail, hops);
      assert (ls + tail)[1..] == ls[1..] + tail;
    }
  }

  /** Compression is transparent: labels that end in a pointer to another name decode to the
      labels followed by that name, and the walk continues behind the pointer. */
  lemma CompressedSuffix(buf: Bytes, pos: nat, ls: seq<Bytes>, target: nat, tail: seq<Bytes>, hops: nat)
    requires LabelsAt(buf, pos, ls)
    requires LabelsEnd(pos, ls) < |buf| && ElementAt(buf, LabelsEnd(pos, ls)) == Pointer(target)
    requires NameAt(buf, target, tail, hops) && hops < 128
    ensures Decode(buf, target).name == Join(tail)
    ensures Decode(buf, pos) == Decoded(LabelsEnd(pos, ls) + 2, Join(ls + tail))
  {
    var end := LabelsEnd(pos, ls);
    assert NameAt(buf, end, tail, hops + 1);
    LabelsThenName(buf, pos, ls, tail, hops + 1);
    NameAtMoreHops(buf, pos, ls + tail, hops + 1, MAX_HOPS);
    NameAtMoreHops(buf, target, tail, hops, MAX_HOPS);
    DecodeAnyName(buf, pos, ls + tail);
    DecodeAnyName(buf, target, tail);
    SkipLabels(buf, pos, ls);
  }

  lemma {:induction false} SkipLabels(buf: Bytes, pos: nat, ls: seq<Bytes>)
    requires LabelsAt(buf, pos, ls)
    ensures Skip(buf, pos) == Skip(buf, LabelsEnd(pos, ls))
    decreases |ls|
  {
    if ls != [] {
      SkipLabels(buf, pos + 1 + |ls[0]|, ls[1..]);
    }
  }

  lemma SliceOf(buf: Bytes, pos: nat, w: Bytes, a: Bytes, b: Bytes)
    requires pos + |w| <= |buf| && buf[pos..pos + |w|] == w == a + b
    ensures buf[pos..pos + |a|] == a && buf[pos + |a|..pos + |w|] == b
  {
    assert buf[pos..pos + |a|] == buf[pos..pos + |w|][..|a|];
    assert buf[pos + |a|..pos + |w|] == buf[pos..pos + |w|][|a|..];
  }

  lemma WireCons(ls: seq<Bytes>)
    requires ValidLabels(ls) && ls != []
    ensures Wire(ls) == [|ls[0]| as Byte] + (ls[0] + Wire(ls[1..]))
  {
  }

  lemma WireParts(buf: Bytes, pos: nat, ls: seq<Bytes>)
    requires ValidLabels(ls) && ls != []
    requires pos + |Wire(ls)| <= |buf| && buf[pos..pos + |Wire(ls)|] == Wire(ls)
    ensures var n, t := |ls[0]|, Wire(ls[1..]);
            && |Wire(ls)| == 1 + n + |t| && buf[pos] == n && buf[pos + 1..pos + 1 + n] == ls[0]
            && buf[pos + 1 + n..pos + 1 + n + |t|] == t
  {
    WireCons(ls);
    hide Wire;
    var n, t, w := |ls[0]|, Wire(ls[1..]), Wire(ls);
    assert buf[pos] == buf[pos..pos + |w|][0];
    SliceOf(buf, pos, w, [n as Byte], ls[0] + t);
    SliceOf(buf, pos + 1, ls[0] + t, ls[0], t);
  }

  /** The wire form is a name wherever it stands in a message. */
  lemma {:induction false} WireIsName(buf: Bytes, pos: nat, ls: seq<Bytes>)
    requires ValidLabels(ls)
    requires pos + |Wire(ls)| <= |buf| && buf[pos..pos + |Wire(ls)|] == Wire(ls)
    ensures NameAt(buf, pos, ls, 0) && Skip(buf, pos) == pos + |Wire(ls)|
    decreases |ls|
  {
    if ls == [] {
      assert buf[pos] == buf[pos..pos + |Wire(ls)|][0] == 0;
    } else {
      WireParts(buf, pos, ls);
      hide Wire;
      WireIsName(buf, pos + 1 + |ls[0]|, ls[1..]);
    }
  }

  lemma ValidLabelsUncut(ls: seq<Bytes>)
    requires ValidLabels(ls)
    ensures CutAll(ls) == ls && (ls != [] ==> ls[|ls| - 1] != [])
  {
    assert forall i :: 0 <= i < |ls| ==> CutAll(ls)[i] == Cut(ls[i]) && ValidLabel(ls[i]);
  }

  /** Decoding inverts encoding at every message offset. */
  lemma DecodeEncode(ls: seq<Bytes>, before: Bytes, behind: Bytes)
    requires ValidLabels(ls) && DotFree(ls)
    ensures var msg := before + Encode(Join(ls)) + behind;
            && Decode(msg, |before|) == Decoded(|before| + |Encode(Join(ls))|, Join(ls))
            && Skip(msg, |before|) == |before| + |Encode(Join(ls))|
  {
    ValidLabelsUncut(ls);
    EncodeIsWire(ls);
    var msg := before + Encode(Join(ls)) + behind;
    assert msg[|before|..|before| + |Wire(ls)|] == Wire(ls);
    WireIsName(msg, |before|, ls);
    NameAtMoreHops(msg, |before|, ls, 0, MAX_HOPS);
    DecodeAnyName(msg, |before|, ls);
  }

  /** Decoding ends on every buffer; a pointer to itself is followed until the hops are used up,
      names nothing, and leaves the walk behind it. */
  lemma SelfPointer(buf: Bytes, pos: nat)
    requires pos + 1 < |buf| && buf[pos] == 192 + pos / 256 && buf[pos + 1] == pos % 256
    ensures Decode(buf, pos) == Decoded(pos + 2, [])
  {
    hide DecodeFrom;
    DecodeStep(buf, pos, 0, false, pos, []);
    PointerLoop(buf, pos, 1, pos + 2);
  }

  lemma {:induction false} PointerLoop(buf: Bytes, pos: nat, hops: nat, after: nat)
    requires pos < |buf| && ElementAt(buf, pos) == Pointer(pos) && hops <= MAX_HOPS
    ensures DecodeFrom(buf, pos, hops, true, after, []) == Decoded(after, [])
    decreases MAX_HOPS - hops
  {
    hide DecodeFrom, ElementAt;
    DecodeStep(buf, pos, hops, true, after, []);
    if hops < MAX_HOPS {
      PointerLoop(buf, pos, hops + 1, after);
    }
  }
}
