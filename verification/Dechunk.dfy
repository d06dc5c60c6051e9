/** Decoding of chunked HTTP bodies (section 7.1 of RFC 9112). Bytes are characters. */
module Dechunk {
  import opened Wrappers

  // ---- the size line -------------------------------------------------------------------

  function HexDigit(c: char): Option<nat> {
    if '0' <= c <= '9' then Some((c - '0') as nat)
    else if 'a' <= c <= 'f' then Some((c - 'a') as nat + 10)
    else if 'A' <= c <= 'F' then Some((c - 'A') as nat + 10)
    else None
  }

  /** The longest prefix of hexadecimal digits. */
  function HexPrefix(s: string): string {
    if s == "" || HexDigit(s[0]).None? then "" else [s[0]] + HexPrefix(s[1..])
  }

  predicate AllHex(s: string) {
    forall i :: 0 <= i < |s| ==> HexDigit(s[i]).Some?
  }

  function HexValue(s: string): nat
    requires AllHex(s)
  {
    if s == "" then 0 else 16 * HexValue(s[..|s| - 1]) + HexDigit(s[|s| - 1]).value
  }

  lemma {:induction false} HexPrefixAllHex(s: string)
    ensures AllHex(HexPrefix(s))
  {
    if s != "" && HexDigit(s[0]).Some? {
      HexPrefixAllHex(s[1..]);
    }
  }

  /** `strtoul` in base 16 on plain digits; no digits is an error. */
  function ParseHex(s: string): Option<nat> {
    HexPrefixAllHex(s);
    if HexPrefix(s) == "" then None else Some(HexValue(HexPrefix(s)))
  }

  predicate IsSpace(c: char) {
    c == ' ' || c == '\t' || c == '\n' || c == '\r' || c == 11 as char || c == 12 as char
  }

  function TrimRight(s: string): string {
    if s != "" && IsSpace(s[|s| - 1]) then TrimRight(s[..|s| - 1]) else s
  }

  /** The part of a line before the first semicolon. */
  function BeforeSemicolon(s: string): string {
    if s == "" || s[0] == ';' then "" else [s[0]] + BeforeSemicolon(s[1..])
  }

  function SizeField(line: string): string {
    TrimRight(BeforeSemicolon(line))
  }

  predicate CrLfAt(s: string, i: nat) {
    i + 1 < |s| && s[i] == '\r' && s[i + 1] == '\n'
  }

  /** The position of the first line break. */
  function LineEnd(s: string): Option<nat> {
    if |s| < 2 then None
    else if CrLfAt(s, 0) then Some(0)
    else
      var r := LineEnd(s[1..]);
      if r.None? then None else Some(r.value + 1)
  }

  lemma {:induction false} LineEndSpec(s: string)
    ensures match LineEnd(s)
            case Some(i) => CrLfAt(s, i) && forall j :: 0 <= j < i ==> !CrLfAt(s, j)
            case None => forall j: nat :: !CrLfAt(s, j)
  {
    if |s| >= 2 && !CrLfAt(s, 0) {
      LineEndSpec(s[1..]);
      forall j: nat | j > 0 ensures CrLfAt(s, j) <==> CrLfAt(s[1..], j - 1) {
      }
    }
  }

  lemma LineEndIs(s: string, r: Option<nat>)
    requires match r
             case Some(i) => CrLfAt(s, i) && forall j :: 0 <= j < i ==> !CrLfAt(s, j)
             case None => forall j: nat :: !CrLfAt(s, j)
    ensures LineEnd(s) == r
  {
    LineEndSpec(s);
    var e := LineEnd(s);
    if e.Some? && r.Some? {
      assert !(e.value < r.value) && !(r.value < e.value);
    }
  }

  // ---- the decoder ---------------------------------------------------------------------

  /** What the decoder does at the start of `s`. */
  datatype Step = Halt | Partial(start: nat) | Whole(start: nat, end: nat, next: nat)

  function Look(s: string): (x: Step)
    ensures x.Partial? ==> x.start <= |s|
    ensures x.Whole? ==> 0 < x.start < x.end <= x.next <= |s|
  {
    var line := LineEnd(s);
    LineEndSpec(s);
    if line.None? then Halt
    else
      var size := ParseHex(SizeField(s[..line.value]));
      var start := line.value + 2;
      if size.None? || size.value == 0 then Halt
      else if start + size.value > |s| then Partial(start)
      else
        var end := start + size.value;
        Whole(start, end, if CrLfAt(s, end) then end + 2 else end)
  }

  function Decode(s: string): string {
    match Look(s)
    case Halt => ""
    case Partial(start) => s[start..]
    case Whole(start, end, next) => s[start..end] + Decode(s[next..])
  }

  lemma DecodeStep(s: string)
    ensures var x := Look(s);
            && (x.Halt? ==> Decode(s) == "")
            && (x.Partial? ==> Decode(s) == s[x.start..])
            && (x.Whole? ==> Decode(s) == s[x.start..x.end] + Decode(s[x.next..]))
  {
    hide Look;
  }

  method DechunkBody(body: string) returns (out: string)
    ensures out == Decode(body)
  {
    hide Look, Decode;
    out := "";
    var pos := 0;
    assert body[0..] == body;
    while pos < |body|
      invariant 0 <= pos <= |body|
      invariant out + Decode(body[pos..]) == Decode(body)
      decreases |body| - pos
    {
      var x := LookAhead(body, pos);
      DecodeStep(body[pos..]);
      match x
      case Halt => return;
      case Partial(start) =>
        assert body[pos..][start..] == body[pos + start..];
        out := out + body[pos + start..];
        return;
      case Whole(start, end, next) =>
        TakeChunk(body, pos, start, end, next, out);
        out := out + body[pos + start..pos + end];
        pos := pos + next;
    }
    assert body[pos..] == "";
    ShortDecode("");
  }

  lemma TakeChunk(body: string, pos: nat, start: nat, end: nat, next: nat, out: string)
    requires pos <= |body| && start <= end <= next <= |body| - pos
    ensures out + (body[pos..][start..end] + Decode(body[pos..][next..]))
         == (out + body[pos + start..pos + end]) + Decode(body[pos + next..])
  {
    assert body[pos..][start..end] == body[pos + start..pos + end];
    assert body[pos..][next..] == body[pos + next..];
  }

  lemma ShortDecode(s: string)
    requires |s| <= 1
    ensures Decode(s) == ""
  {
  }

  /** One turn of the loop: the size line and the extent of the data, from `pos`. */
  method LookAhead(body: string, pos: nat) returns (x: Step)
    requires pos < |body|
    ensures x == Look(body[pos..])
  {
    var lineEnd := FindLineEnd(body, pos);
    if lineEnd + 1 >= |body| { return Halt; }
    assert body[pos..][..lineEnd - pos] == body[pos..lineEnd];
    var size := ParseHex(SizeField(body[pos..lineEnd]));
    if size.None? { return Halt; }
    var dataStart := lineEnd + 2;
    if size.value == 0 { return Halt; }
    if dataStart + size.value > |body| { return Partial(dataStart - pos); }
    var next := dataStart + size.value;
    if next + 1 < |body| && body[next] == '\r' && body[next + 1] == '\n' { next := next + 2; }
    x := Whole(dataStart - pos, dataStart + size.value - pos, next - pos);
  }

  /** The scan for the line break; it stops at the last byte when there is none. */
  method FindLineEnd(body: string, pos: nat) returns (lineEnd: nat)
    requires pos < |body|
    ensures pos <= lineEnd < |body|
    ensures LineEnd(body[pos..]) == if lineEnd + 1 < |body| then Some(lineEnd - pos) else None
  {
    lineEnd := pos;
    while lineEnd + 1 < |body| && !(body[lineEnd] == '\r' && body[lineEnd + 1] == '\n')
      invariant pos <= lineEnd < |body|
      invariant forall j :: 0 <= j < lineEnd - pos ==> !CrLfAt(body[pos..], j)
    {
      lineEnd := lineEnd + 1;
    }
    LineEndIs(body[pos..], if lineEnd + 1 < |body| then Some(lineEnd - pos) else None);
  }

  // ---- the encoding ----------------------------------------------------------------------

  /** The digit of a value below 16, in either case. */
  ghost predicate IsDigit(c: char, d: nat) {
    d < 16 && (c == "0123456789abcdef"[d] || c == "0123456789ABCDEF"[d])
  }

  /** The digits spell the number in base 16; leading zeros are allowed. */
  ghost predicate Spells(s: string, n: nat) {
    && s != "" && IsDigit(s[|s| - 1], n % 16)
    && if |s| == 1 then n < 16 else Spells(s[..|s| - 1], n / 16)
  }

  lemma DigitValue(c: char, d: nat)
    ensures IsDigit(c, d) <==> HexDigit(c) == Some(d)
  {
    if d < 16 {
      assert "0123456789abcdef"[d] == if d < 10 then '0' + d as char else 'a' + (d - 10) as char;
      assert "0123456789ABCDEF"[d] == if d < 10 then '0' + d as char else 'A' + (d - 10) as char;
    }
  }

  lemma LastDigit(t: string, c: char)
    ensures AllHex(t + [c]) <==> AllHex(t) && HexDigit(c).Some?
    ensures AllHex(t + [c]) ==> HexValue(t + [c]) == 16 * HexValue(t) + HexDigit(c).value
  {
    var s := t + [c];
    assert s[..|s| - 1] == t && s[|s| - 1] == c;
    assert forall i :: 0 <= i < |t| ==> s[i] == t[i];
  }

  /** The value of a digit string is the number it spells, and it spells no other. */
  lemma {:induction false} SpellsIff(s: string, n: nat)
    ensures Spells(s, n) <==> s != "" && AllHex(s) && HexValue(s) == n
  {
    hide AllHex, HexDigit, IsDigit;
    if s != "" {
      var t, c := s[..|s| - 1], s[|s| - 1];
      assert s == t + [c];
      LastDigit(t, c);
      DigitValue(c, n % 16);
      DigitBelow16(c);
      if t == "" {
        NoDigits();
      } else {
        SpellsIff(t, n / 16);
      }
    }
  }

  lemma DigitBelow16(c: char)
    ensures HexDigit(c).Some? ==> HexDigit(c).value < 16
  {
  }

  lemma NoDigits()
    ensures AllHex("") && HexValue("") == 0
  {
  }

  /** One chunk: hexadecimal size, optional blanks and extension, and the data. */
  datatype Chunk = Chunk(size: string, blanks: string, extension: string, data: string)

  function Header(c: Chunk): string {
    c.size + c.blanks + c.extension
  }

  /** A size line that announces n bytes. */
  ghost predicate ValidHeader(c: Chunk, n: nat) {
    && Spells(c.size, n)
    && (forall i :: 0 <= i < |c.blanks| ==> c.blanks[i] == ' ' || c.blanks[i] == '\t')
    && (c.extension == "" || c.extension[0] == ';') && '\r' !in c.extension
  }

  ghost predicate ValidChunk(c: Chunk) {
    ValidHeader(c, |c.data|) && c.data != ""
  }

  ghost predicate ValidChunks(cs: seq<Chunk>) {
    forall i :: 0 <= i < |cs| ==> ValidChunk(cs[i])
  }

  ghost predicate ValidLast(c: Chunk) {
    ValidHeader(c, 0)
  }

  function EncodeChunk(c: Chunk): string {
    Header(c) + "\r\n" + c.data + "\r\n"
  }

  /** The chunks, the zero-sized last chunk and whatever trailer follows it. */
  function Encode(cs: seq<Chunk>, last: Chunk, trailer: string): string {
    if cs == [] then Header(last) + "\r\n" + trailer else EncodeChunk(cs[0]) + Encode(cs[1..], last, trailer)
  }

  function Body(cs: seq<Chunk>): string {
    if cs == [] then "" else cs[0].data + Body(cs[1..])
  }

  lemma {:induction false} HexPrefixWhole(s: string)
    requires AllHex(s)
    ensures HexPrefix(s) == s
  {
    if s != "" {
      HexPrefixWhole(s[1..]);
    }
  }

  lemma {:induction false} BeforeSemicolonConcat(a: string, b: string)
    requires ';' !in a && (b == "" || b[0] == ';')
    ensures BeforeSemicolon(a + b) == a
  {
    if a != "" {
      assert (a + b)[1..] == a[1..] + b;
      BeforeSemicolonConcat(a[1..], b);
    }
  }

  lemma {:induction false} TrimBlanks(a: string, blanks: string)
    requires a != "" && !IsSpace(a[|a| - 1])
    requires forall i :: 0 <= i < |blanks| ==> IsSpace(blanks[i])
    ensures TrimRight(a + blanks) == a
  {
    if blanks == "" {
      assert a + blanks == a;
    } else {
      var t := a + blanks;
      assert t[..|t| - 1] == a + blanks[..|blanks| - 1];
      TrimBlanks(a, blanks[..|blanks| - 1]);
    }
  }

  /** The size is read back from a valid header. */
  lemma HeaderSize(c: Chunk, n: nat)
    requires ValidHeader(c, n)
    ensures ParseHex(SizeField(Header(c))) == Some(n)
    ensures '\r' !in Header(c)
  {
    SpellsIff(c.size, n);
    BeforeSemicolonConcat(c.size + c.blanks, c.extension);
    assert HexDigit(c.size[|c.size| - 1]).Some?;
    TrimBlanks(c.size, c.blanks);
    HexPrefixWhole(c.size);
  }

  /** A header followed by a line break ends there. */
  lemma HeaderLineEnd(h: string, rest: string)
    requires '\r' !in h
    ensures LineEnd(h + "\r\n" + rest) == Some(|h|)
    ensures (h + "\r\n" + rest)[..|h|] == h
  {
    LineEndIs(h + "\r\n" + rest, Some(|h|));
  }

  /** What the decoder sees of a chunk of which `have` bytes after the header line arrived. */
  lemma LookAtChunk(c: Chunk, rest: string)
    requires ValidChunk(c)
    ensures var s, start := Header(c) + "\r\n" + rest, |Header(c)| + 2;
            Look(s) == if |rest| < |c.data| then Partial(start)
                       else Whole(start, start + |c.data|,
                                  start + |c.data| + if CrLfAt(s, start + |c.data|) then 2 else 0)
  {
    HeaderSize(c, |c.data|);
    HeaderLineEnd(Header(c), rest);
  }

  /** An incomplete header line stops the decoder. */
  lemma LookAtPartialLine(h: string, n: nat)
    requires '\r' !in h && n < |h| + 2
    ensures Look((h + "\r\n")[..n]) == Halt
  {
    LineEndIs((h + "\r\n")[..n], None);
  }

  lemma LookAtLast(c: Chunk, rest: string)
    requires ValidLast(c)
    ensures Look(Header(c) + "\r\n" + rest) == Halt
  {
    HeaderSize(c, 0);
    HeaderLineEnd(Header(c), rest);
  }

  /** How many bytes of the body are among the first n bytes of the encoding. */
  function Received(cs: seq<Chunk>, n: nat): (r: nat)
    ensures r <= |Body(cs)|
  {
    if cs == [] || n <= |Header(cs[0])| + 2 then 0
    else
      var after := n - |Header(cs[0])| - 2;
      if after <= |cs[0].data| then after
      else if after <= |cs[0].data| + 2 then |cs[0].data|
      else |cs[0].data| + Received(cs[1..], after - |cs[0].data| - 2)
  }

  /** Of a truncated encoding the decoder returns exactly the body bytes that arrived. */
  lemma {:induction false} DecodeTruncated(cs: seq<Chunk>, last: Chunk, trailer: string, n: nat)
    requires ValidChunks(cs) && ValidLast(last) && n <= |Encode(cs, last, trailer)|
    ensures Decode(Encode(cs, last, trailer)[..n]) == Body(cs)[..Received(cs, n)]
    decreases |cs|, 1
  {
    hide Decode, Look;
    var e := Encode(cs, last, trailer);
    var s := e[..n];
    if cs == [] {
      HeaderSize(last, 0);
      if n < |Header(last)| + 2 {
        assert s == (Header(last) + "\r\n")[..n];
        LookAtPartialLine(Header(last), n);
        DecodeStep(s);
      } else {
        assert s == Header(last) + "\r\n" + trailer[..n - |Header(last)| - 2];
        LookAtLast(last, trailer[..n - |Header(last)| - 2]);
        DecodeStep(s);
      }
    } else {
      var c, tail := cs[0], Encode(cs[1..], last, trailer);
      var h := Header(c);
      HeaderSize(c, |c.data|);
      if n < |h| + 2 {
        assert s == (h + "\r\n")[..n];
        LookAtPartialLine(h, n);
        DecodeStep(s);
      } else {
        var after := n - |h| - 2;
        var rest := (c.data + "\r\n" + tail)[..after];
        assert s == h + "\r\n" + rest;
        DecodeTruncatedData(cs, last, trailer, n, rest, after);
      }
    }
  }

  /** The data part: cut in the data, cut in the closing line break, or complete. */
  lemma {:induction false} DecodeTruncatedData(cs: seq<Chunk>, last: Chunk, trailer: string, n: nat,
                                               rest: string, after: nat)
    requires cs != [] && ValidChunks(cs) && ValidLast(last) && n <= |Encode(cs, last, trailer)|
    requires n == |Header(cs[0])| + 2 + after
    requires after <= |cs[0].data| + 2 + |Encode(cs[1..], last, trailer)|
    requires rest == (cs[0].data + "\r\n" + Encode(cs[1..], last, trailer))[..after]
    ensures Decode(Header(cs[0]) + "\r\n" + rest) == Body(cs)[..Received(cs, n)]
    decreases |cs|, 0
  {
    hide Decode, Look, Encode, Header, ValidChunk;
    var c, tail := cs[0], Encode(cs[1..], last, trailer);
    if after < |c.data| {
      CutInData(c, rest, after);
      assert rest == c.data[..after];
      assert Body(cs)[..after] == c.data[..after];
    } else if after < |c.data| + 2 {
      CutInBreak(c, rest);
      assert Body(cs)[..|c.data|] == c.data;
    } else {
      var m := after - |c.data| - 2;
      CutLater(c.data, tail, after);
      WholeChunk(c, tail[..m]);
      DecodeTruncated(cs[1..], last, trailer, m);
      assert Body(cs)[..|c.data| + Received(cs[1..], m)] == c.data + Body(cs[1..])[..Received(cs[1..], m)];
    }
  }

  lemma CutLater(data: string, tail: string, after: nat)
    requires |data| + 2 <= after <= |data| + 2 + |tail|
    ensures (data + "\r\n" + tail)[..after] == data + "\r\n" + tail[..after - |data| - 2]
  {
  }

  lemma CutInData(c: Chunk, rest: string, after: nat)
    requires ValidChunk(c) && |rest| == after < |c.data|
    ensures Decode(Header(c) + "\r\n" + rest) == rest
  {
    hide Decode, Look;
    LookAtChunk(c, rest);
    DecodeStep(Header(c) + "\r\n" + rest);
  }

  lemma CutInBreak(c: Chunk, rest: string)
    requires ValidChunk(c) && |c.data| <= |rest| < |c.data| + 2 && rest[..|c.data|] == c.data
    ensures Decode(Header(c) + "\r\n" + rest) == c.data
  {
    hide Decode, Look, Header, ValidChunk;
    var s, start := Header(c) + "\r\n" + rest, |Header(c)| + 2;
    LookAtChunk(c, rest);
    DecodeStep(s);
    assert s[start..start + |c.data|] == rest[..|c.data|];
    assert |s[start + |c.data|..]| <= 1;
    ShortDecode(s[start + |c.data|..]);
  }

  lemma WholeChunk(c: Chunk, more: string)
    requires ValidChunk(c)
    ensures Decode(Header(c) + "\r\n" + (c.data + "\r\n" + more)) == c.data + Decode(more)
  {
    hide Decode, Look;
    var rest := c.data + "\r\n" + more;
    var s, start := Header(c) + "\r\n" + rest, |Header(c)| + 2;
    LookAtChunk(c, rest);
    DecodeStep(s);
    assert s[start..start + |c.data|] == c.data;
    assert CrLfAt(s, start + |c.data|);
    assert s[start + |c.data| + 2..] == more;
  }

  lemma {:induction false} AllReceived(cs: seq<Chunk>, last: Chunk, trailer: string)
    requires ValidChunks(cs)
    ensures Received(cs, |Encode(cs, last, trailer)|) == |Body(cs)| && |Encode(cs, last, trailer)| >= 2
  {
    hide Header, ValidChunk;
    if cs != [] {
      AllReceived(cs[1..], last, trailer);
      var c, e := cs[0], Encode(cs[1..], last, trailer);
      assert |Encode(cs, last, trailer)| == |Header(c)| + 2 + |c.data| + 2 + |e|;
    }
  }

  /** Decoding inverts encoding, for every split into non-empty chunks and every valid
      spelling of the headers. */
  lemma DecodeEncode(cs: seq<Chunk>, last: Chunk, trailer: string)
    requires ValidChunks(cs) && ValidLast(last)
    ensures Decode(Encode(cs, last, trailer)) == Body(cs)
  {
    var e := Encode(cs, last, trailer);
    DecodeTruncated(cs, last, trailer, |e|);
    AllReceived(cs, last, trailer);
    assert e[..|e|] == e && Body(cs)[..|Body(cs)|] == Body(cs);
  }

  // ---- every split has an encoding ---------------------------------------------------------

  function DigitChar(d: nat): (c: char)
    requires d < 16
    ensures IsDigit(c, d)
  {
    if d < 10 then '0' + d as char else 'a' + (d - 10) as char
  }

  function Hex(n: nat): (s: string)
    ensures Spells(s, n)
  {
    if n < 16 then [DigitChar(n)]
    else
      var s := Hex(n / 16) + [DigitChar(n % 16)];
      assert s[..|s| - 1] == Hex(n / 16);
      s
  }

  function Plain(data: string): (c: Chunk)
    ensures ValidHeader(c, |data|) && c.data == data
  {
    Chunk(Hex(|data|), "", "", data)
  }

  function PlainChunks(parts: seq<string>): (cs: seq<Chunk>)
    ensures |cs| == |parts| && forall i :: 0 <= i < |parts| ==> cs[i] == Plain(parts[i])
  {
    seq(|parts|, i requires 0 <= i < |parts| => Plain(parts[i]))
  }

  function Join(parts: seq<string>): string {
    if parts == [] then "" else parts[0] + Join(parts[1..])
  }

  lemma {:induction false} PlainBody(parts: seq<string>)
    ensures Body(PlainChunks(parts)) == Join(parts)
  {
    if parts != [] {
      assert PlainChunks(parts)[1..] == PlainChunks(parts[1..]);
      PlainBody(parts[1..]);
    }
  }

  /** Any split of a body into non-empty parts survives the plain chunked encoding, and a cut
      connection yields a prefix of the body. */
  lemma SplitRoundTrip(parts: seq<string>, n: nat)
    requires forall i :: 0 <= i < |parts| ==> parts[i] != ""
    requires n <= |Encode(PlainChunks(parts), Plain(""), "\r\n")|
    ensures Decode(Encode(PlainChunks(parts), Plain(""), "\r\n")) == Join(parts)
    ensures Decode(Encode(PlainChunks(parts), Plain(""), "\r\n")[..n]) <= Join(parts)
  {
    PlainBody(parts);
    DecodeEncode(PlainChunks(parts), Plain(""), "\r\n");
    DecodeTruncated(PlainChunks(parts), Plain(""), "\r\n", n);
  }
}
