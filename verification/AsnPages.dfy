/** Listing pages as they are written: text, rows and table bodies, with every letter and every
    tag-ending character spelled out, and the rows that the parsers find in them. */
module AsnPages {
  import opened Wrappers
  import opened HtmlTags
  import opened AsnRows

  // ---- tag names, letter by letter ----------------------------------------------------------

  /** The characters that may follow a tag name. */
  const ENDS: set<char> := {'>', ' ', '\t', '\r', '\n', '/'}

  /** The two letters of `tr`, in either case. */
  ghost predicate RowName(s: string, i: nat) {
    i + 2 <= |s| && s[i] in {'t', 'T'} && s[i + 1] in {'r', 'R'}
  }

  /** The five letters of `tbody`, in either case. */
  ghost predicate BodyName(s: string, i: nat) {
    && i + 5 <= |s| && s[i] in {'t', 'T'} && s[i + 1] in {'b', 'B'} && s[i + 2] in {'o', 'O'}
    && s[i + 3] in {'d', 'D'} && s[i + 4] in {'y', 'Y'}
  }

  lemma LowerIs(c: char, low: char, up: char)
    requires 'a' <= low <= 'z' && low as int == up as int + 32
    ensures Lower(c) == low <==> c == low || c == up
  {
  }

  lemma StartsRow(s: string, p: nat)
    ensures CiStarts(s, p, "tr") <==> RowName(s, p)
  {
    if p + 2 <= |s| {
      LowerIs(s[p], 't', 'T');
      LowerIs(s[p + 1], 'r', 'R');
      assert CiStarts(s, p, "tr") <==> Lower(s[p + 0]) == "tr"[0] && Lower(s[p + 1]) == "tr"[1];
    }
  }

  lemma StartsBodyName(s: string, p: nat)
    ensures CiStarts(s, p, "tbody") <==> BodyName(s, p)
  {
    if p + 5 <= |s| {
      LowerIs(s[p], 't', 'T');
      LowerIs(s[p + 1], 'b', 'B');
      LowerIs(s[p + 2], 'o', 'O');
      LowerIs(s[p + 3], 'd', 'D');
      LowerIs(s[p + 4], 'y', 'Y');
      assert CiStarts(s, p, "tbody") <==>
             && Lower(s[p + 0]) == "tbody"[0] && Lower(s[p + 1]) == "tbody"[1] && Lower(s[p + 2]) == "tbody"[2]
             && Lower(s[p + 3]) == "tbody"[3] && Lower(s[p + 4]) == "tbody"[4];
    }
  }

  /** What the searches take for a tag. */
  lemma TagsSpelledOut(s: string, p: nat)
    ensures OpenAt(s, "tr", p) <==> p + 3 < |s| && s[p] == '<' && RowName(s, p + 1) && s[p + 3] in ENDS
    ensures OpenAt(s, "tbody", p) <==> p + 6 < |s| && s[p] == '<' && BodyName(s, p + 1) && s[p + 6] in ENDS
    ensures CloseNameAt(s, "tr", p) <==> p + 4 <= |s| && s[p] == '<' && s[p + 1] == '/' && RowName(s, p + 2)
    ensures CloseNameAt(s, "tbody", p) <==> p + 7 <= |s| && s[p] == '<' && s[p + 1] == '/' && BodyName(s, p + 2)
    ensures CloseAt(s, "tr", p) <==> CloseNameAt(s, "tr", p) && (p + 4 == |s| || s[p + 4] in ENDS)
    ensures CloseAt(s, "tbody", p) <==> CloseNameAt(s, "tbody", p) && (p + 7 == |s| || s[p + 7] in ENDS)
  {
    StartsRow(s, p + 1);
    StartsRow(s, p + 2);
    StartsBodyName(s, p + 1);
    StartsBodyName(s, p + 2);
    hide CiStarts, RowName, BodyName;
  }

  // ---- text without row or body tags ----------------------------------------------------------

  /** What begins at `i` is no row or body tag: a name that begins like one goes on. */
  ghost predicate OtherTag(t: string, i: nat) {
    && (RowName(t, i + 1) ==> i + 3 < |t| && t[i + 3] !in ENDS)
    && (BodyName(t, i + 1) ==> i + 6 < |t| && t[i + 6] !in ENDS)
    && (i + 1 < |t| && t[i + 1] == '/' && RowName(t, i + 2) ==> i + 4 < |t| && t[i + 4] !in ENDS)
    && (i + 1 < |t| && t[i + 1] == '/' && BodyName(t, i + 2) ==> i + 7 < |t| && t[i + 7] !in ENDS)
  }

  /** No `<` in the text begins a row or body tag. */
  ghost predicate Harmless(t: string) {
    forall i :: 0 <= i < |t| && t[i] == '<' ==> OtherTag(t, i)
  }

  /** No closing tag in the text begins like that of a row or a body. */
  ghost predicate Tidy(t: string) {
    forall i :: 0 <= i < |t| - 1 && t[i] == '<' && t[i + 1] == '/' ==> !RowName(t, i + 2) && !BodyName(t, i + 2)
  }

  ghost predicate NoTagAt(s: string, p: nat) {
    !OpenAt(s, "tr", p) && !OpenAt(s, "tbody", p) && !CloseAt(s, "tr", p) && !CloseAt(s, "tbody", p)
  }

  /** Neither a row nor a body starts or ends in [a, b). */
  ghost predicate Nothing(s: string, a: nat, b: nat) {
    forall p: nat :: a <= p < b ==> NoTagAt(s, p)
  }

  lemma NoMark(s: string, p: nat)
    requires p >= |s| || s[p] != '<'
    ensures NoTagAt(s, p) && !CloseNameAt(s, "tr", p) && !CloseNameAt(s, "tbody", p)
  {
  }

  /** The text stands at `pos`, and a tag or the end of the page follows it. */
  ghost predicate Placed(s: string, pos: nat, w: string) {
    && pos + |w| <= |s| && s[pos..pos + |w|] == w
    && (pos + |w| == |s| || s[pos + |w|] == '<')
  }

  lemma PlacedChar(s: string, pos: nat, w: string, i: nat)
    requires Placed(s, pos, w) && i < |w|
    ensures s[pos + i] == w[i]
  {
    assert s[pos..pos + |w|][i] == w[i];
  }

  /** A name does not reach beyond the text that it starts in. */
  lemma NameInside(s: string, pos: nat, w: string, i: nat)
    requires Placed(s, pos, w) && i <= |w|
    ensures RowName(s, pos + i) <==> RowName(w, i)
    ensures BodyName(s, pos + i) <==> BodyName(w, i)
  {
    forall k | i <= k < |w| ensures s[pos + k] == w[k] {
      PlacedChar(s, pos, w, k);
    }
    if i + 2 <= |w| {
      assert s[pos + i] == w[i] && s[pos + i + 1] == w[i + 1];
    }
    if i + 5 <= |w| {
      assert s[pos + i + 2] == w[i + 2] && s[pos + i + 3] == w[i + 3] && s[pos + i + 4] == w[i + 4];
    }
  }

  lemma HarmlessAt(s: string, pos: nat, w: string, i: nat)
    requires Placed(s, pos, w) && Harmless(w) && i < |w|
    ensures NoTagAt(s, pos + i)
  {
    PlacedChar(s, pos, w, i);
    if w[i] == '<' {
      HarmlessMark(s, pos, w, i);
    } else {
      NoMark(s, pos + i);
    }
  }

  lemma HarmlessOpen(s: string, pos: nat, w: string, i: nat)
    requires Placed(s, pos, w) && Harmless(w) && i < |w| && w[i] == '<'
    ensures !OpenAt(s, "tr", pos + i) && !OpenAt(s, "tbody", pos + i)
  {
    assert OtherTag(w, i);
    TagsSpelledOut(s, pos + i);
    NameInside(s, pos, w, i + 1);
    hide OpenAt, RowName, BodyName, Harmless;
    if i + 3 < |w| { PlacedChar(s, pos, w, i + 3); }
    if i + 6 < |w| { PlacedChar(s, pos, w, i + 6); }
  }

  lemma HarmlessClose(s: string, pos: nat, w: string, i: nat)
    requires Placed(s, pos, w) && Harmless(w) && i < |w| && w[i] == '<'
    ensures !CloseAt(s, "tr", pos + i) && !CloseAt(s, "tbody", pos + i)
  {
    assert OtherTag(w, i);
    TagsSpelledOut(s, pos + i);
    hide CloseAt, CloseNameAt, RowName, BodyName, Harmless;
    if i + 1 < |w| {
      PlacedChar(s, pos, w, i + 1);
      NameInside(s, pos, w, i + 2);
    }
    if i + 4 < |w| { PlacedChar(s, pos, w, i + 4); }
    if i + 7 < |w| { PlacedChar(s, pos, w, i + 7); }
  }

  lemma HarmlessMark(s: string, pos: nat, w: string, i: nat)
    requires Placed(s, pos, w) && Harmless(w) && i < |w| && w[i] == '<'
    ensures NoTagAt(s, pos + i)
  {
    hide Placed, Harmless, OpenAt, CloseAt;
    HarmlessOpen(s, pos, w, i);
    HarmlessClose(s, pos, w, i);
  }

  lemma HarmlessText(s: string, pos: nat, w: string)
    requires Placed(s, pos, w) && Harmless(w)
    ensures Nothing(s, pos, pos + |w|)
  {
    hide Harmless, Placed, NoTagAt;
    forall p: nat | pos <= p < pos + |w| ensures NoTagAt(s, p) {
      HarmlessAt(s, pos, w, p - pos);
    }
  }

  // ---- pages --------------------------------------------------------------------------------------

  /** A tag with what follows it up to the next tag of a row or a body. */
  datatype Piece =
    | Row(name: string, attributes: string, text: string, closing: string, after: string)
    | BodyStart(name: string, attributes: string, text: string)
    | BodyEnd(name: string, after: string)

  ghost predicate IsRowName(name: string) {
    |name| == 2 && RowName(name, 0)
  }

  ghost predicate IsBodyName(name: string) {
    |name| == 5 && BodyName(name, 0)
  }

  /** Attributes are separated from the name by a blank, a line break or a slash. */
  ghost predicate ValidAttributes(attributes: string) {
    attributes == "" || attributes[0] in {' ', '\t', '\r', '\n', '/'}
  }

  ghost predicate ValidAfter(after: string) {
    after != "" && after[0] in ENDS && Harmless(after)
  }

  ghost predicate ValidPiece(p: Piece) {
    match p
    case Row(name, attributes, text, closing, after) =>
      && IsRowName(name) && ValidAttributes(attributes) && Harmless(attributes + ">" + text)
      && IsRowName(closing) && ValidAfter(after)
    case BodyStart(name, attributes, text) =>
      IsBodyName(name) && ValidAttributes(attributes) && Harmless(attributes + ">" + text)
    case BodyEnd(name, after) =>
      IsBodyName(name) && ValidAfter(after)
  }

  ghost predicate ValidPieces(ps: seq<Piece>) {
    forall i :: 0 <= i < |ps| ==> ValidPiece(ps[i])
  }

  /** The text of a row, from its tag up to its closing tag. */
  function RowText(p: Piece): string
    requires p.Row?
  {
    "<" + p.name + (p.attributes + ">" + p.text)
  }

  function Show(p: Piece): (s: string)
    ensures s != "" && s[0] == '<'
  {
    match p
    case Row(_, _, _, closing, after) => RowText(p) + ("</" + closing + after)
    case BodyStart(name, attributes, text) => "<" + name + (attributes + ">" + text)
    case BodyEnd(name, after) => "</" + name + after
  }

  function ShowAll(ps: seq<Piece>): (s: string)
    ensures s == "" || s[0] == '<'
  {
    if ps == [] then "" else Show(ps[0]) + ShowAll(ps[1..])
  }

  /** A page: text, and then the pieces. */
  function Page(lead: string, ps: seq<Piece>): string {
    lead + ShowAll(ps)
  }

  function RowsOf(ps: seq<Piece>): (rows: seq<Piece>)
    ensures forall i :: 0 <= i < |rows| ==> rows[i].Row?
  {
    if ps == [] then [] else (if ps[0].Row? then [ps[0]] else []) + RowsOf(ps[1..])
  }

  /** The pieces before the first end of a body. */
  function UpToEnd(ps: seq<Piece>): seq<Piece> {
    if ps == [] || ps[0].BodyEnd? then [] else [ps[0]] + UpToEnd(ps[1..])
  }

  /** The pieces from the first end of a body on. */
  function FromEnd(ps: seq<Piece>): seq<Piece> {
    if ps == [] || ps[0].BodyEnd? then ps else FromEnd(ps[1..])
  }

  /** The pieces from the first start of a body on. */
  function FromBody(ps: seq<Piece>): seq<Piece> {
    if ps == [] || ps[0].BodyStart? then ps else FromBody(ps[1..])
  }

  /** The rows of the first table body, or of the whole page when it has none. */
  function RowsOfPage(ps: seq<Piece>): (rows: seq<Piece>)
    ensures forall i :: 0 <= i < |rows| ==> rows[i].Row?
  {
    if FromBody(ps) == [] then RowsOf(ps) else RowsOf(UpToEnd(FromBody(ps)))
  }

  function ParsedRows<T>(parse: string -> Option<T>, rows: seq<Piece>): seq<T>
    requires forall i :: 0 <= i < |rows| ==> rows[i].Row?
  {
    if rows == [] then []
    else
      var r := parse(RowText(rows[0]));
      (if r.Some? then [r.value] else []) + ParsedRows(parse, rows[1..])
  }

  function FirstN<T>(s: seq<T>, n: nat): seq<T> {
    if |s| <= n then s else s[..n]
  }

  // ---- pieces on a page -----------------------------------------------------------------------------

  lemma PlacedParts(s: string, pos: nat, a: string, b: string)
    requires Placed(s, pos, a + b) && (b == "" || b[0] == '<')
    ensures Placed(s, pos, a) && Placed(s, pos + |a|, b)
  {
    var w := a + b;
    assert s[pos..pos + |a|] == s[pos..pos + |w|][..|a|];
    assert s[pos + |a|..pos + |w|] == s[pos..pos + |w|][|a|..];
    if b != "" {
      assert s[pos + |a|] == s[pos..pos + |w|][|a|];
    }
  }

  lemma PlacedTail(s: string, pos: nat, a: string, b: string)
    requires Placed(s, pos, a + b)
    ensures Placed(s, pos + |a|, b)
    ensures forall i :: 0 <= i < |a| ==> s[pos + i] == a[i]
  {
    var w := a + b;
    assert s[pos + |a|..pos + |w|] == s[pos..pos + |w|][|a|..];
    forall i | 0 <= i < |a| ensures s[pos + i] == a[i] {
      PlacedChar(s, pos, w, i);
    }
  }

  /** No tag within the name, which holds no `<` after its first character. */
  lemma NothingInName(s: string, pos: nat, w: string, rest: string)
    requires Placed(s, pos, w + rest) && Harmless(rest) && w != ""
    requires forall i :: 0 < i < |w| ==> w[i] != '<'
    ensures Nothing(s, pos + 1, pos + |w| + |rest|)
  {
    PlacedTail(s, pos, w, rest);
    HarmlessText(s, pos + |w|, rest);
    hide Harmless, Placed, NoTagAt;
    forall p: nat | pos + 1 <= p < pos + |w| ensures NoTagAt(s, p) {
      assert s[p] == w[p - pos];
      NoMark(s, p);
    }
  }

  /** The tag of a row and the text behind it. */
  lemma RowTagPlaced(s: string, pos: nat, name: string, rest: string)
    requires Placed(s, pos, "<" + name + rest) && IsRowName(name) && rest != "" && rest[0] in ENDS && Harmless(rest)
    ensures OpenAt(s, "tr", pos) && !OpenAt(s, "tbody", pos)
    ensures !CloseNameAt(s, "tr", pos) && !CloseNameAt(s, "tbody", pos)
    ensures Nothing(s, pos + 1, pos + 3 + |rest|)
  {
    var w := "<" + name;
    NothingInName(s, pos, w, rest);
    PlacedTail(s, pos, w, rest);
    PlacedChar(s, pos + 3, rest, 0);
    hide Harmless, Placed, OpenAt, CloseAt, CloseNameAt, Nothing;
    assert s[pos] == w[0] && s[pos + 1] == w[1] && s[pos + 2] == w[2];
    TagsSpelledOut(s, pos);
  }

  lemma RowEndPlaced(s: string, pos: nat, name: string, rest: string)
    requires Placed(s, pos, "</" + name + rest) && IsRowName(name) && rest != "" && rest[0] in ENDS && Harmless(rest)
    ensures CloseAt(s, "tr", pos) && !CloseNameAt(s, "tbody", pos) && !OpenAt(s, "tr", pos) && !OpenAt(s, "tbody", pos)
    ensures Nothing(s, pos + 1, pos + 4 + |rest|)
  {
    var w := "</" + name;
    NothingInName(s, pos, w, rest);
    PlacedTail(s, pos, w, rest);
    PlacedChar(s, pos + 4, rest, 0);
    hide Harmless, Placed, OpenAt, CloseAt, CloseNameAt, Nothing;
    assert s[pos] == w[0] && s[pos + 1] == w[1] && s[pos + 2] == w[2] && s[pos + 3] == w[3];
    TagsSpelledOut(s, pos);
  }

  lemma BodyTagPlaced(s: string, pos: nat, name: string, rest: string)
    requires Placed(s, pos, "<" + name + rest) && IsBodyName(name) && rest != "" && rest[0] in ENDS && Harmless(rest)
    ensures OpenAt(s, "tbody", pos) && !OpenAt(s, "tr", pos)
    ensures !CloseNameAt(s, "tr", pos) && !CloseNameAt(s, "tbody", pos)
    ensures Nothing(s, pos + 1, pos + 6 + |rest|)
  {
    var w := "<" + name;
    NothingInName(s, pos, w, rest);
    PlacedTail(s, pos, w, rest);
    PlacedChar(s, pos + 6, rest, 0);
    hide Harmless, Placed, OpenAt, CloseAt, CloseNameAt, Nothing;
    assert s[pos] == w[0] && s[pos + 1] == w[1] && s[pos + 2] == w[2] && s[pos + 3] == w[3];
    assert s[pos + 4] == w[4] && s[pos + 5] == w[5];
    TagsSpelledOut(s, pos);
  }

  lemma BodyEndPlaced(s: string, pos: nat, name: string, rest: string)
    requires Placed(s, pos, "</" + name + rest) && IsBodyName(name) && rest != "" && rest[0] in ENDS && Harmless(rest)
    ensures CloseAt(s, "tbody", pos) && !CloseNameAt(s, "tr", pos) && !OpenAt(s, "tr", pos) && !OpenAt(s, "tbody", pos)
    ensures Nothing(s, pos + 1, pos + 7 + |rest|)
  {
    var w := "</" + name;
    NothingInName(s, pos, w, rest);
    PlacedTail(s, pos, w, rest);
    PlacedChar(s, pos + 7, rest, 0);
    hide Harmless, Placed, OpenAt, CloseAt, CloseNameAt, Nothing;
    assert s[pos] == w[0] && s[pos + 1] == w[1] && s[pos + 2] == w[2] && s[pos + 3] == w[3];
    assert s[pos + 4] == w[4] && s[pos + 5] == w[5] && s[pos + 6] == w[6];
    TagsSpelledOut(s, pos);
  }

  /** Where the text of a row ends that starts at `pos`. */
  function TextEnd(pos: nat, p: Piece): nat
    requires p.Row?
  {
    pos + |RowText(p)|
  }

  function After(pos: nat, p: Piece): nat {
    pos + |Show(p)|
  }

  /** The tag of a row, and no other tag up to its end. */
  ghost predicate RowOpens(s: string, pos: nat, p: Piece)
    requires p.Row?
  {
    var c := TextEnd(pos, p);
    && pos + 3 < c <= |s| && s[pos..c] == RowText(p)
    && OpenAt(s, "tr", pos) && !OpenAt(s, "tbody", pos)
    && !CloseNameAt(s, "tr", pos) && !CloseNameAt(s, "tbody", pos) && Nothing(s, pos + 1, c)
  }

  /** The closing tag of a row, and no other tag up to the next piece. */
  ghost predicate RowCloses(s: string, pos: nat, p: Piece)
    requires p.Row?
  {
    var c, e := TextEnd(pos, p), After(pos, p);
    && c + 4 < e <= |s|
    && CloseAt(s, "tr", c) && !CloseNameAt(s, "tbody", c) && !OpenAt(s, "tr", c) && !OpenAt(s, "tbody", c)
    && Nothing(s, c + 1, e)
  }

  ghost predicate RowStands(s: string, pos: nat, p: Piece)
    requires p.Row?
  {
    RowOpens(s, pos, p) && RowCloses(s, pos, p)
  }

  lemma RowParts(s: string, pos: nat, p: Piece)
    requires p.Row? && Placed(s, pos, Show(p))
    ensures Placed(s, pos, RowText(p))
    ensures Placed(s, TextEnd(pos, p), "</" + p.closing + p.after)
    ensures After(pos, p) == TextEnd(pos, p) + |"</" + p.closing + p.after|
  {
    hide Placed, RowText;
    PlacedParts(s, pos, RowText(p), "</" + p.closing + p.after);
  }

  lemma RowOpensPlaced(s: string, pos: nat, p: Piece)
    requires p.Row? && ValidPiece(p) && Placed(s, pos, RowText(p))
    ensures RowOpens(s, pos, p)
  {
    RowTagPlaced(s, pos, p.name, p.attributes + ">" + p.text);
    hide OpenAt, CloseAt, CloseNameAt, Nothing, Harmless, RowName;
  }

  lemma RowClosesPlaced(s: string, pos: nat, p: Piece)
    requires p.Row? && ValidPiece(p) && Placed(s, TextEnd(pos, p), "</" + p.closing + p.after)
    requires After(pos, p) == TextEnd(pos, p) + |"</" + p.closing + p.after|
    ensures RowCloses(s, pos, p)
  {
    hide RowText, Show;
    RowEndPlaced(s, TextEnd(pos, p), p.closing, p.after);
    hide OpenAt, CloseAt, CloseNameAt, Nothing, Harmless, RowName;
  }

  lemma RowPlaced(s: string, pos: nat, p: Piece)
    requires p.Row? && ValidPiece(p) && Placed(s, pos, Show(p))
    ensures RowStands(s, pos, p)
  {
    hide RowOpens, RowCloses, Placed, ValidPiece;
    RowParts(s, pos, p);
    RowOpensPlaced(s, pos, p);
    RowClosesPlaced(s, pos, p);
  }

  /** The start of a body, and no other tag up to the next piece. */
  lemma BodyStartPlaced(s: string, pos: nat, p: Piece)
    requires p.BodyStart? && ValidPiece(p) && Placed(s, pos, Show(p))
    ensures OpenAt(s, "tbody", pos) && !OpenAt(s, "tr", pos)
    ensures !CloseNameAt(s, "tr", pos) && !CloseNameAt(s, "tbody", pos)
    ensures Nothing(s, pos + 1, After(pos, p))
  {
    BodyTagPlaced(s, pos, p.name, p.attributes + ">" + p.text);
  }

  lemma BodyEndStands(s: string, pos: nat, p: Piece)
    requires p.BodyEnd? && ValidPiece(p) && Placed(s, pos, Show(p))
    ensures CloseAt(s, "tbody", pos) && !CloseNameAt(s, "tr", pos) && !OpenAt(s, "tr", pos) && !OpenAt(s, "tbody", pos)
    ensures Nothing(s, pos + 1, After(pos, p))
  {
    BodyEndPlaced(s, pos, p.name, p.after);
  }

  // ---- the batch parser on a page ---------------------------------------------------------------------

  ghost predicate NoRows(s: string, a: nat, b: nat) {
    forall p: nat :: a <= p < b ==> !OpenAt(s, "tr", p)
  }

  ghost predicate NoBodies(s: string, a: nat, b: nat) {
    forall p: nat :: a <= p < b ==> !OpenAt(s, "tbody", p)
  }

  ghost predicate NoEnds(s: string, a: nat, b: nat) {
    forall p: nat :: a <= p < b ==> !CloseAt(s, "tbody", p)
  }

  lemma NothingOfEach(s: string, a: nat, b: nat)
    requires Nothing(s, a, b)
    ensures NoRows(s, a, b) && NoBodies(s, a, b) && NoEnds(s, a, b)
  {
    hide OpenAt, CloseAt;
    forall p: nat | a <= p < b ensures !OpenAt(s, "tr", p) && !OpenAt(s, "tbody", p) && !CloseAt(s, "tbody", p) {
      assert NoTagAt(s, p);
    }
  }

  lemma ShowFirst(s: string, pos: nat, ps: seq<Piece>)
    requires ps != [] && Placed(s, pos, ShowAll(ps))
    ensures Placed(s, pos, Show(ps[0])) && Placed(s, After(pos, ps[0]), ShowAll(ps[1..]))
    ensures After(pos, ps[0]) + |ShowAll(ps[1..])| == pos + |ShowAll(ps)|
  {
    hide Show, Placed;
    PlacedParts(s, pos, Show(ps[0]), ShowAll(ps[1..]));
  }

  /** Which tags a piece does not hold. */
  lemma PieceHolds(s: string, pos: nat, p: Piece)
    requires ValidPiece(p) && Placed(s, pos, Show(p))
    ensures !p.Row? ==> NoRows(s, pos, After(pos, p))
    ensures !p.BodyStart? ==> NoBodies(s, pos, After(pos, p))
    ensures !p.BodyEnd? ==> NoEnds(s, pos, After(pos, p))
    ensures p.BodyStart? ==> OpenAt(s, "tbody", pos)
    ensures p.BodyEnd? ==> CloseAt(s, "tbody", pos)
  {
    hide OpenAt, CloseNameAt, Nothing, ValidPiece, Placed, Show;
    match p
    case Row(_, _, _, _, _) =>
      RowPlaced(s, pos, p);
      NothingOfEach(s, pos + 1, TextEnd(pos, p));
      NothingOfEach(s, TextEnd(pos, p) + 1, After(pos, p));
    case BodyStart(_, _, _) =>
      BodyStartPlaced(s, pos, p);
      NothingOfEach(s, pos + 1, After(pos, p));
    case BodyEnd(_, _) =>
      BodyEndStands(s, pos, p);
      NothingOfEach(s, pos + 1, After(pos, p));
  }

  /** The next row found is the one that stands there. */
  lemma NextRowStands(s: string, pos: nat, q: nat, p: Piece)
    requires p.Row? && ValidPiece(p) && pos <= q && NoRows(s, pos, q) && Placed(s, q, Show(p))
    ensures RowStands(s, q, p)
    ensures NextRow(s, pos) == Some(RowSpan(q, TextEnd(q, p), TextEnd(q, p) + 4))
    ensures NoRows(s, TextEnd(q, p) + 4, After(q, p))
  {
    hide OpenAt, Nothing, ValidPiece, Placed, Show, CloseNameAt;
    RowPlaced(s, q, p);
    var c := TextEnd(q, p);
    FirstOpenIs(s, "tr", pos, Some(q));
    RowClosed(s, q, p);
    FirstCloseIs(s, "tr", q, Some(c));
    NothingOfEach(s, c + 1, After(q, p));
  }

  lemma RowClosed(s: string, q: nat, p: Piece)
    requires p.Row? && RowStands(s, q, p)
    ensures forall i :: q <= i < TextEnd(q, p) ==> !CloseAt(s, "tr", i)
  {
    hide OpenAt, CloseNameAt;
    forall i: nat | q <= i < TextEnd(q, p) ensures !CloseAt(s, "tr", i) {
      if i > q {
        assert NoTagAt(s, i);
      }
    }
  }

  lemma FirstNFull<T>(acc: seq<T>, more: seq<T>, n: nat)
    requires |acc| == n
    ensures FirstN(acc + more, n) == acc
  {
    if |more| > 0 {
      assert (acc + more)[..n] == acc;
    } else {
      assert acc + more == acc;
    }
  }

  lemma {:induction false} BatchPage<T>(parse: string -> Option<T>, s: string, pos: nat, q: nat,
                                        ps: seq<Piece>, acc: seq<T>)
    requires pos <= q && NoRows(s, pos, q) && ValidPieces(ps) && |acc| <= MAX_ROWS_PER_PAGE
    requires Placed(s, q, ShowAll(ps)) && q + |ShowAll(ps)| == |s|
    ensures Batch(parse, s, pos, acc) == FirstN(acc + ParsedRows(parse, RowsOf(ps)), MAX_ROWS_PER_PAGE)
    decreases |ps|
  {
    hide NextRow, Batch, Show, ValidPiece, Placed, NoRows, FirstN;
    BatchStep(parse, s, pos, acc);
    if |acc| == MAX_ROWS_PER_PAGE {
      FirstNFull(acc, ParsedRows(parse, RowsOf(ps)), MAX_ROWS_PER_PAGE);
    } else if ps == [] {
      NoRowLeft(s, pos, q);
      assert acc + ParsedRows(parse, []) == acc;
      FirstNShort(acc, MAX_ROWS_PER_PAGE);
    } else {
      var p := ps[0];
      ShowFirst(s, q, ps);
      if p.Row? {
        NextRowStands(s, pos, q, p);
        var r := ParseOpt(parse, RowText(p));
        BatchPage(parse, s, TextEnd(q, p) + 4, After(q, p), ps[1..], acc + r);
        RowsCons(parse, ps, acc);
      } else {
        PieceHolds(s, q, p);
        NoRowsJoin(s, pos, q, After(q, p));
        BatchPage(parse, s, pos, After(q, p), ps[1..], acc);
        assert RowsOf(ps) == RowsOf(ps[1..]);
      }
    }
  }

  lemma RowsCons<T>(parse: string -> Option<T>, ps: seq<Piece>, acc: seq<T>)
    requires ps != [] && ps[0].Row?
    ensures acc + ParsedRows(parse, RowsOf(ps))
         == acc + ParseOpt(parse, RowText(ps[0])) + ParsedRows(parse, RowsOf(ps[1..]))
  {
    hide RowText;
    assert RowsOf(ps)[1..] == RowsOf(ps[1..]);
  }

  lemma NoRowLeft(s: string, pos: nat, q: nat)
    requires pos <= q && NoRows(s, pos, q) && q == |s|
    ensures NextRow(s, pos) == None
  {
    FirstOpenIs(s, "tr", pos, None);
  }

  lemma FirstNShort<T>(acc: seq<T>, n: nat)
    requires |acc| <= n
    ensures FirstN(acc, n) == acc
  {
  }

  lemma NoRowsJoin(s: string, a: nat, b: nat, c: nat)
    requires NoRows(s, a, b) && NoRows(s, b, c)
    ensures NoRows(s, a, c)
  {
  }

  /** The first body tag found is that of the first body. */
  lemma {:induction false} BodyFound(s: string, pos: nat, q: nat, ps: seq<Piece>)
    requires pos <= q && NoBodies(s, pos, q) && ValidPieces(ps)
    requires Placed(s, q, ShowAll(ps)) && q + |ShowAll(ps)| == |s|
    ensures |ShowAll(FromBody(ps))| <= |s| - q
    ensures FirstOpen(s, "tbody", pos) ==
            if FromBody(ps) == [] then None else Some(|s| - |ShowAll(FromBody(ps))|)
    decreases |ps|
  {
    hide Show, ValidPiece, Placed, OpenAt;
    if ps == [] {
      BeyondEnd(s, |s|);
      FirstOpenIs(s, "tbody", pos, None);
    } else {
      ShowFirst(s, q, ps);
      PieceHolds(s, q, ps[0]);
      if ps[0].BodyStart? {
        FirstOpenIs(s, "tbody", pos, Some(q));
      } else {
        BodyFound(s, pos, After(q, ps[0]), ps[1..]);
      }
    }
  }

  lemma BeyondEnd(s: string, n: nat)
    requires n == |s|
    ensures forall p :: n <= p ==> !OpenAt(s, "tbody", p) && !CloseAt(s, "tbody", p)
  {
  }

  lemma {:induction false} EndFound(s: string, pos: nat, q: nat, ps: seq<Piece>)
    requires pos <= q && NoEnds(s, pos, q) && ValidPieces(ps)
    requires Placed(s, q, ShowAll(ps)) && q + |ShowAll(ps)| == |s|
    ensures |ShowAll(FromEnd(ps))| <= |s| - q
    ensures FirstClose(s, "tbody", pos) == if FromEnd(ps) == [] then None else Some(|s| - |ShowAll(FromEnd(ps))|)
    decreases |ps|
  {
    hide Show, ValidPiece, Placed, CloseAt;
    if ps == [] {
      BeyondEnd(s, |s|);
      FirstCloseIs(s, "tbody", pos, None);
    } else {
      ShowFirst(s, q, ps);
      PieceHolds(s, q, ps[0]);
      if ps[0].BodyEnd? {
        FirstCloseIs(s, "tbody", pos, Some(q));
      } else {
        EndFound(s, pos, After(q, ps[0]), ps[1..]);
      }
    }
  }

  lemma {:induction false} ShowUpToEnd(ps: seq<Piece>)
    ensures ShowAll(ps) == ShowAll(UpToEnd(ps)) + ShowAll(FromEnd(ps))
  {
    hide Show;
    if ps != [] && !ps[0].BodyEnd? {
      ShowUpToEnd(ps[1..]);
      assert UpToEnd(ps)[1..] == UpToEnd(ps[1..]);
    }
  }

  lemma {:induction false} PartsValid(ps: seq<Piece>)
    requires ValidPieces(ps)
    ensures ValidPieces(UpToEnd(ps)) && ValidPieces(FromBody(ps))
  {
    hide ValidPiece;
    if ps != [] {
      PartsValid(ps[1..]);
    }
  }

  lemma {:induction false} ShowFromBody(ps: seq<Piece>)
    ensures |ShowAll(FromBody(ps))| <= |ShowAll(ps)|
    ensures ShowAll(ps)[|ShowAll(ps)| - |ShowAll(FromBody(ps))|..] == ShowAll(FromBody(ps))
  {
    hide Show;
    if ps != [] && !ps[0].BodyStart? {
      ShowFromBody(ps[1..]);
      var a, b := |Show(ps[0])|, |ShowAll(ps[1..])| - |ShowAll(FromBody(ps))|;
      assert ShowAll(ps)[a..] == ShowAll(ps[1..]);
      assert ShowAll(ps)[a + b..] == ShowAll(ps)[a..][b..];
    }
  }

  lemma PagePlaced(lead: string, ps: seq<Piece>)
    requires Harmless(lead)
    ensures var s := Page(lead, ps);
            Placed(s, |lead|, ShowAll(ps)) && |lead| + |ShowAll(ps)| == |s| && Nothing(s, 0, |lead|)
  {
    hide ShowAll, Harmless;
    var s := Page(lead, ps);
    assert s[|lead|..|lead| + |ShowAll(ps)|] == ShowAll(ps);
    assert Placed(s, 0, lead);
    HarmlessText(s, 0, lead);
  }

  /** From the tag of the first body on, the page is written like this. */
  lemma BodyPlaced(lead: string, ps: seq<Piece>)
    requires Harmless(lead)
    ensures var s, bs := Page(lead, ps), FromBody(ps);
            |ShowAll(bs)| <= |s| && Placed(s, |s| - |ShowAll(bs)|, ShowAll(bs))
  {
    hide ShowAll, FromBody;
    var s, bs := Page(lead, ps), FromBody(ps);
    ShowFromBody(ps);
    var k := |ShowAll(ps)| - |ShowAll(bs)|;
    assert s[|lead|..] == ShowAll(ps);
    assert s[|lead| + k..] == s[|lead|..][k..];
  }

  lemma ScopeText(s: string, tb: nat, bs: seq<Piece>)
    requires tb + |ShowAll(bs)| == |s| && Placed(s, tb, ShowAll(bs))
    ensures |ShowAll(FromEnd(bs))| <= |s| - tb
    ensures s[tb..|s| - |ShowAll(FromEnd(bs))|] == ShowAll(UpToEnd(bs))
  {
    hide ShowAll, UpToEnd, FromEnd;
    ShowUpToEnd(bs);
    var te := |s| - |ShowAll(FromEnd(bs))|;
    assert s[tb..te] == s[tb..tb + |ShowAll(bs)|][..te - tb];
  }

  /** The scope is the first body as it is written, or the whole page. */
  lemma ScopeOfPage(lead: string, ps: seq<Piece>)
    requires Harmless(lead) && ValidPieces(ps)
    ensures Scope(Page(lead, ps)) ==
            if FromBody(ps) == [] then Page(lead, ps) else ShowAll(UpToEnd(FromBody(ps)))
  {
    hide Harmless, ValidPieces, Nothing, NoBodies, NoEnds, Show, ShowAll, FromBody, FromEnd, UpToEnd, Placed, Page;
    var s, bs := Page(lead, ps), FromBody(ps);
    PagePlaced(lead, ps);
    NothingOfEach(s, 0, |lead|);
    BodyFound(s, 0, |lead|, ps);
    if bs != [] {
      var tb := |s| - |ShowAll(bs)|;
      BodyPlaced(lead, ps);
      PartsValid(ps);
      NothingHere(s, tb);
      EndFound(s, tb, tb, bs);
      ScopeText(s, tb, bs);
      NothingAfter(bs);
    }
  }

  lemma NothingAfter(bs: seq<Piece>)
    ensures FromEnd(bs) == [] ==> ShowAll(FromEnd(bs)) == ""
  {
  }

  lemma NothingHere(s: string, p: nat)
    ensures NoEnds(s, p, p)
  {
  }

  /** The batch parser returns the parsed rows of the first table body, or of the whole page when
      it has none, in order, up to the most rows that a page may have. */
  lemma BatchRowsOfPage<T>(parse: string -> Option<T>, lead: string, ps: seq<Piece>)
    requires Harmless(lead) && ValidPieces(ps)
    ensures Batch(parse, Scope(Page(lead, ps)), 0, []) == FirstN(ParsedRows(parse, RowsOfPage(ps)), 200000)
  {
    hide Harmless, ValidPieces, Batch, Nothing, NoRows, FirstN, Scope;
    ScopeOfPage(lead, ps);
    var none: seq<T>, s := [], Scope(Page(lead, ps));
    if FromBody(ps) == [] {
      PagePlaced(lead, ps);
      NothingOfEach(s, 0, |lead|);
      BatchPage(parse, s, 0, |lead|, ps, none);
      assert none + ParsedRows(parse, RowsOf(ps)) == ParsedRows(parse, RowsOf(ps));
    } else {
      var qs := UpToEnd(FromBody(ps));
      PartsValid(ps);
      PartsValid(FromBody(ps));
      assert s[0..0 + |s|] == s;
      NoRowsHere(s);
      BatchPage(parse, s, 0, 0, qs, none);
      assert none + ParsedRows(parse, RowsOf(qs)) == ParsedRows(parse, RowsOf(qs));
    }
  }

  lemma NoRowsHere(s: string)
    ensures NoRows(s, 0, 0)
  {
  }

  // ---- the scanner on a page --------------------------------------------------------------------------

  ghost predicate TidyPiece(p: Piece) {
    match p
    case Row(_, attributes, text, _, after) => Tidy(attributes + ">" + text) && Tidy(after)
    case BodyStart(_, attributes, text) => Tidy(attributes + ">" + text)
    case BodyEnd(_, after) => Tidy(after)
  }

  ghost predicate TidyPieces(ps: seq<Piece>) {
    forall i :: 0 <= i < |ps| ==> TidyPiece(ps[i])
  }

  /** Not even the name of a closing tag starts at `p`. */
  ghost predicate NoNameAt(s: string, p: nat) {
    !CloseNameAt(s, "tr", p) && !CloseNameAt(s, "tbody", p)
  }

  ghost predicate NoNames(s: string, a: nat, b: nat) {
    forall p: nat :: a <= p < b ==> NoNameAt(s, p)
  }

  lemma TidyAt(s: string, pos: nat, w: string, i: nat)
    requires Placed(s, pos, w) && Tidy(w) && i < |w|
    ensures NoNameAt(s, pos + i)
  {
    PlacedChar(s, pos, w, i);
    if w[i] != '<' {
      NoMark(s, pos + i);
    } else {
      TagsSpelledOut(s, pos + i);
      hide CloseNameAt, RowName, BodyName;
      if i + 1 < |w| {
        PlacedChar(s, pos, w, i + 1);
        NameInside(s, pos, w, i + 2);
      }
    }
  }

  lemma TidyText(s: string, pos: nat, w: string)
    requires Placed(s, pos, w) && Tidy(w)
    ensures NoNames(s, pos, pos + |w|)
  {
    hide Tidy, Placed, NoNameAt;
    forall p: nat | pos <= p < pos + |w| ensures NoNameAt(s, p) {
      TidyAt(s, pos, w, p - pos);
    }
  }

  lemma TidyBehindName(s: string, pos: nat, w: string, rest: string)
    requires Placed(s, pos, w + rest) && Tidy(rest) && w != ""
    requires forall i :: 0 < i < |w| ==> w[i] != '<'
    ensures NoNames(s, pos + 1, pos + |w| + |rest|)
  {
    PlacedTail(s, pos, w, rest);
    TidyText(s, pos + |w|, rest);
    hide Tidy, Placed, NoNameAt;
    forall p: nat | pos + 1 <= p < pos + |w| ensures NoNameAt(s, p) {
      assert s[p] == w[p - pos];
      NoMark(s, p);
    }
  }

  /** A row that starts at `p` holds no tag of a body. */
  ghost predicate BodyFree(s: string, p: nat) {
    forall q: nat :: p <= q < RowEnd(s, p) ==> !OpenAt(s, "tbody", q) && !CloseNameAt(s, "tbody", q)
  }

  ghost predicate TagOk(s: string, p: nat) {
    && (CloseNameAt(s, "tr", p) ==> CloseAt(s, "tr", p))
    && (CloseNameAt(s, "tbody", p) ==> CloseAt(s, "tbody", p))
    && (OpenAt(s, "tr", p) ==> BodyFree(s, p))
  }

  ghost predicate AllOk(s: string, a: nat, b: nat) {
    forall p: nat :: a <= p < b ==> TagOk(s, p)
  }

  lemma QuietOk(s: string, a: nat, b: nat)
    requires Nothing(s, a, b) && NoNames(s, a, b)
    ensures AllOk(s, a, b)
  {
    hide OpenAt, CloseAt, CloseNameAt, BodyFree;
    forall p: nat | a <= p < b ensures TagOk(s, p) {
      assert NoTagAt(s, p) && NoNameAt(s, p);
    }
  }

  lemma OkJoin(s: string, a: nat, b: nat, c: nat)
    requires AllOk(s, a, b) && AllOk(s, b, c)
    ensures AllOk(s, a, c)
  {
    hide TagOk;
  }

  lemma OkOne(s: string, a: nat, b: nat)
    requires TagOk(s, a) && AllOk(s, a + 1, b)
    ensures AllOk(s, a, b)
  {
    hide TagOk;
  }

  lemma {:induction false} CountSkip(s: string, a: nat, b: nat)
    requires a <= b <= |s| && NoRows(s, a, b)
    ensures CountRows(s, a) == CountRows(s, b)
    decreases b - a
  {
    hide OpenAt;
    if a < b {
      CountSkip(s, a + 1, b);
    }
  }

  lemma RowBodyFree(s: string, pos: nat, p: Piece)
    requires p.Row? && RowStands(s, pos, p) && NoNames(s, pos + 1, TextEnd(pos, p))
    ensures BodyFree(s, pos)
  {
    hide OpenAt, CloseNameAt, CloseAt;
    RowClosed(s, pos, p);
    FirstCloseIs(s, "tr", pos, Some(TextEnd(pos, p)));
    forall q: nat | pos <= q < RowEnd(s, pos) ensures !OpenAt(s, "tbody", q) && !CloseNameAt(s, "tbody", q) {
      if q > pos {
        assert NoTagAt(s, q) && NoNameAt(s, q);
      }
    }
  }

  lemma RowOk(s: string, pos: nat, p: Piece)
    requires p.Row? && ValidPiece(p) && TidyPiece(p) && Placed(s, pos, Show(p))
    ensures AllOk(s, pos, After(pos, p)) && CountRows(s, pos) == 1 + CountRows(s, After(pos, p))
  {
    var rest, c := p.attributes + ">" + p.text, TextEnd(pos, p);
    RowParts(s, pos, p);
    RowPlaced(s, pos, p);
    TidyBehindName(s, pos, "<" + p.name, rest);
    TidyBehindName(s, c, "</" + p.closing, p.after);
    hide Placed, Show, RowText, ValidPiece, TidyPiece, Nothing, NoNames, BodyFree, OpenAt, CloseAt, CloseNameAt,
        RowName, BodyName, Tidy, Harmless, AllOk;
    RowBodyFree(s, pos, p);
    QuietOk(s, pos + 1, c);
    QuietOk(s, c + 1, After(pos, p));
    CloseNames(s, c);
    OkOne(s, c, After(pos, p));
    OkOne(s, pos, c);
    OkJoin(s, pos, c, After(pos, p));
    RowCount(s, pos, p);
  }

  lemma CloseNames(s: string, c: nat)
    ensures CloseAt(s, "tr", c) ==> CloseNameAt(s, "tr", c)
    ensures CloseAt(s, "tbody", c) ==> CloseNameAt(s, "tbody", c)
  {
  }

  lemma RowCount(s: string, pos: nat, p: Piece)
    requires p.Row? && RowStands(s, pos, p)
    ensures CountRows(s, pos) == 1 + CountRows(s, After(pos, p))
  {
    hide OpenAt, CloseAt, CloseNameAt, Nothing, NoRows, RowText, Show;
    var c, e := TextEnd(pos, p), After(pos, p);
    NothingOfEach(s, pos + 1, c);
    NothingOfEach(s, c + 1, e);
    CountSkip(s, pos + 1, c);
    CountSkip(s, c + 1, e);
    assert CountRows(s, c) == CountRows(s, c + 1);
  }

  lemma BodyStartTidy(s: string, pos: nat, p: Piece)
    requires p.BodyStart? && ValidPiece(p) && TidyPiece(p) && Placed(s, pos, Show(p))
    ensures NoNames(s, pos + 1, After(pos, p))
  {
    hide Placed, NoNames, Tidy, Harmless;
    TidyBehindName(s, pos, "<" + p.name, p.attributes + ">" + p.text);
  }

  lemma BodyEndTidy(s: string, pos: nat, p: Piece)
    requires p.BodyEnd? && ValidPiece(p) && TidyPiece(p) && Placed(s, pos, Show(p))
    ensures NoNames(s, pos + 1, After(pos, p))
  {
    hide Placed, NoNames, Tidy, Harmless;
    TidyBehindName(s, pos, "</" + p.name, p.after);
  }

  lemma BodyTagOk(s: string, pos: nat, p: Piece)
    requires !p.Row? && ValidPiece(p) && TidyPiece(p) && Placed(s, pos, Show(p))
    ensures AllOk(s, pos, After(pos, p)) && CountRows(s, pos) == CountRows(s, After(pos, p))
  {
    assert After(pos, p) <= |s|;
    hide Placed, Show, ValidPiece, TidyPiece, Nothing, NoNames, BodyFree, OpenAt, CloseAt, CloseNameAt, NoRows, AllOk;
    PieceHolds(s, pos, p);
    CountSkip(s, pos, After(pos, p));
    if p.BodyStart? {
      BodyStartPlaced(s, pos, p);
      BodyStartTidy(s, pos, p);
    } else {
      BodyEndStands(s, pos, p);
      BodyEndTidy(s, pos, p);
    }
    QuietOk(s, pos + 1, After(pos, p));
    OkOne(s, pos, After(pos, p));
  }

  lemma {:induction false} PiecesOk(s: string, pos: nat, ps: seq<Piece>)
    requires ValidPieces(ps) && TidyPieces(ps)
    requires Placed(s, pos, ShowAll(ps)) && pos + |ShowAll(ps)| == |s|
    ensures AllOk(s, pos, |s|) && CountRows(s, pos) == |RowsOf(ps)|
    decreases |ps|
  {
    hide Placed, Show, ValidPiece, TidyPiece, AllOk, CountRows;
    if ps == [] {
      NothingLeft(s);
    } else {
      ShowFirst(s, pos, ps);
      var p, next := ps[0], After(pos, ps[0]);
      if p.Row? {
        RowOk(s, pos, p);
      } else {
        BodyTagOk(s, pos, p);
      }
      PiecesOk(s, next, ps[1..]);
      OkJoin(s, pos, next, |s|);
    }
  }

  lemma NothingLeft(s: string)
    ensures AllOk(s, |s|, |s|) && CountRows(s, |s|) == 0
  {
  }

  /** The page as it is written has all that the agreement of the two parsers asks for. */
  lemma WrittenIsWellFormed(lead: string, ps: seq<Piece>)
    requires Harmless(lead) && Tidy(lead) && ValidPieces(ps) && TidyPieces(ps) && |RowsOf(ps)| <= MAX_ROWS_PER_PAGE
    ensures WellFormedPage(Page(lead, ps))
  {
    var s, n := Page(lead, ps), |lead|;
    PagePlaced(lead, ps);
    assert Placed(s, 0, lead) by {
      assert s[0..0 + n] == lead;
    }
    TidyText(s, 0, lead);
    QuietOk(s, 0, n);
    PiecesOk(s, n, ps);
    NothingOfEach(s, 0, n);
    CountSkip(s, 0, n);
    hide Placed, Page, AllOk, ShowAll, NoRows, NoNames, Nothing, Harmless, Tidy, ValidPieces, TidyPieces, CountRows;
    OkJoin(s, 0, n, |s|);
    OkIsWellFormed(s);
  }

  lemma OkIsWellFormed(s: string)
    requires AllOk(s, 0, |s|) && CountRows(s, 0) <= MAX_ROWS_PER_PAGE
    ensures WellFormedPage(s)
  {
    hide OpenAt, CloseAt, CountRows, RowEnd;
    assert ClosedTags(s) by {
      forall p: nat | CloseNameAt(s, "tr", p) ensures CloseAt(s, "tr", p) {
        assert TagOk(s, p);
      }
      forall p: nat | CloseNameAt(s, "tbody", p) ensures CloseAt(s, "tbody", p) {
        assert TagOk(s, p);
      }
    }
    forall p: nat, q: nat | OpenAt(s, "tr", p) && p <= q < RowEnd(s, p)
      ensures !OpenAt(s, "tbody", q) && !CloseNameAt(s, "tbody", q) {
      OpenInside(s, p);
      assert TagOk(s, p) && BodyFree(s, p);
    }
  }

  lemma OpenInside(s: string, p: nat)
    requires OpenAt(s, "tr", p)
    ensures p < |s|
  {
  }

  /** The scanner, whatever the chunks, reports the same parsed rows. */
  lemma StreamRowsOfPage<T>(parse: string -> Option<T>, lead: string, ps: seq<Piece>, chunks: seq<string>)
    requires Harmless(lead) && Tidy(lead) && ValidPieces(ps) && TidyPieces(ps) && |RowsOf(ps)| <= 200000
    requires Flatten(chunks) == Page(lead, ps)
    ensures Finish(parse, FeedAll(parse, Initial(), chunks)) == FirstN(ParsedRows(parse, RowsOfPage(ps)), 200000)
  {
    hide Harmless, Tidy, ValidPieces, TidyPieces, Batch, Finish, FeedAll, WellFormedPage, FirstN, Page;
    WrittenIsWellFormed(lead, ps);
    StreamMatchesBatch(parse, chunks);
    BatchRowsOfPage(parse, lead, ps);
  }
}
