/** Case-insensitive search for opening and closing tags in a page. */
module HtmlTags {
  import opened Wrappers

  function Lower(c: char): char {
    if 'A' <= c <= 'Z' then c - 'A' + 'a' else c
  }

  predicate CiStarts(s: string, pos: nat, lit: string) {
    pos + |lit| <= |s| && forall i :: 0 <= i < |lit| ==> Lower(s[pos + i]) == lit[i]
  }

  predicate TagBoundary(c: char) {
    c == '>' || c == ' ' || c == '\t' || c == '\r' || c == '\n' || c == '/'
  }

  /** A complete opening tag name starts at `p`. */
  predicate OpenAt(s: string, name: string, p: nat) {
    p + 1 + |name| < |s| && s[p] == '<' && CiStarts(s, p + 1, name) && TagBoundary(s[p + 1 + |name|])
  }

  predicate CloseNameAt(s: string, name: string, p: nat) {
    p + 2 + |name| <= |s| && s[p] == '<' && s[p + 1] == '/' && CiStarts(s, p + 2, name)
  }

  /** A closing tag name starts at `p`; the end of the text also ends the name. */
  predicate CloseAt(s: string, name: string, p: nat) {
    CloseNameAt(s, name, p) && (p + 2 + |name| == |s| || TagBoundary(s[p + 2 + |name|]))
  }

  /** The first opening tag at or after `from`. */
  function FirstOpen(s: string, name: string, from: nat): (r: Option<nat>)
    ensures r.Some? ==> from <= r.value && OpenAt(s, name, r.value)
    ensures forall p :: from <= p && (r.Some? ==> p < r.value) ==> !OpenAt(s, name, p)
    decreases |s| - from
  {
    if from >= |s| then None
    else if OpenAt(s, name, from) then Some(from)
    else FirstOpen(s, name, from + 1)
  }

  /** The first closing tag at or after `from`. */
  function FirstClose(s: string, name: string, from: nat): (r: Option<nat>)
    ensures r.Some? ==> from <= r.value && CloseAt(s, name, r.value)
    ensures forall p :: from <= p && (r.Some? ==> p < r.value) ==> !CloseAt(s, name, p)
    decreases |s| - from
  {
    if from >= |s| then None
    else if CloseAt(s, name, from) then Some(from)
    else FirstClose(s, name, from + 1)
  }

  lemma FirstOpenIs(s: string, name: string, from: nat, r: Option<nat>)
    requires r.Some? ==> from <= r.value && OpenAt(s, name, r.value)
    requires forall p :: from <= p && (r.Some? ==> p < r.value) ==> !OpenAt(s, name, p)
    ensures FirstOpen(s, name, from) == r
  {
    var f := FirstOpen(s, name, from);
    if f.Some? && r.Some? {
      assert !(f.value < r.value) && !(r.value < f.value);
    }
  }

  lemma FirstCloseIs(s: string, name: string, from: nat, r: Option<nat>)
    requires r.Some? ==> from <= r.value && CloseAt(s, name, r.value)
    requires forall p :: from <= p && (r.Some? ==> p < r.value) ==> !CloseAt(s, name, p)
    ensures FirstClose(s, name, from) == r
  {
    var f := FirstClose(s, name, from);
    if f.Some? && r.Some? {
      assert !(f.value < r.value) && !(r.value < f.value);
    }
  }

  /** `std::string_view::find` of a character. */
  function FindChar(s: string, c: char, from: nat): (r: Option<nat>)
    ensures r.Some? ==> from <= r.value < |s| && s[r.value] == c
    ensures forall p :: from <= p < |s| && (r.Some? ==> p < r.value) ==> s[p] != c
    decreases |s| - from
  {
    if from >= |s| then None
    else if s[from] == c then Some(from)
    else FindChar(s, c, from + 1)
  }

  /** `std::string_view::find` of the two characters that begin a closing tag. */
  function FindCloseMark(s: string, from: nat): (r: Option<nat>)
    ensures r.Some? ==> from <= r.value < |s| - 1 && s[r.value] == '<' && s[r.value + 1] == '/'
    ensures forall p :: from <= p < |s| - 1 && (r.Some? ==> p < r.value) ==> !(s[p] == '<' && s[p + 1] == '/')
    decreases |s| - from
  {
    if from + 1 >= |s| then None
    else if s[from] == '<' && s[from + 1] == '/' then Some(from)
    else FindCloseMark(s, from + 1)
  }

  method FindOpenTag(s: string, name: string, start: nat) returns (r: Option<nat>)
    ensures r == FirstOpen(s, name, start)
  {
    var from := start;
    while true
      invariant start <= from
      invariant forall p :: start <= p < from ==> !OpenAt(s, name, p)
      decreases |s| - from
    {
      var f := FindChar(s, '<', from);
      if f.None? {
        FirstOpenIs(s, name, start, None);
        return None;
      }
      var p := f.value;
      if CiStarts(s, p + 1, name) {
        var after := p + 1 + |name|;
        if after >= |s| {
          FirstOpenIs(s, name, start, None);
          return None;
        }
        if TagBoundary(s[after]) {
          FirstOpenIs(s, name, start, f);
          return f;
        }
      }
      from := p + 1;
    }
  }

  method FindCloseTag(s: string, name: string, start: nat) returns (r: Option<nat>)
    ensures r == FirstClose(s, name, start)
  {
    var from := start;
    while true
      invariant start <= from
      invariant forall p :: start <= p < from ==> !CloseAt(s, name, p)
      decreases |s| - from
    {
      var f := FindCloseMark(s, from);
      if f.None? {
        FirstCloseIs(s, name, start, None);
        return None;
      }
      var p := f.value;
      if CiStarts(s, p + 2, name) {
        var after := p + 2 + |name|;
        if after >= |s| || TagBoundary(s[after]) {
          FirstCloseIs(s, name, start, f);
          return f;
        }
      }
      from := p + 2;
    }
  }

  // ---- how the searches react to cutting, extending and shifting the text ----

  /** A name with no tag punctuation in it. */
  ghost predicate Plain(name: string) {
    forall i :: 0 <= i < |name| ==> name[i] != '<' && name[i] != '/'
  }

  /** Within a tag no other tag starts. */
  lemma NoMarkInside(s: string, name: string, p: nat, q: nat)
    requires Plain(name)
    requires (OpenAt(s, name, p) && p < q <= p + 1 + |name|) || (CloseNameAt(s, name, p) && p < q < p + 2 + |name|)
    ensures s[q] != '<'
  {
    if OpenAt(s, name, p) && p < q < p + 1 + |name| {
      var i := q - (p + 1);
      assert Lower(s[p + 1 + i]) == name[i];
    } else if CloseNameAt(s, name, p) && p + 2 <= q < p + 2 + |name| {
      var i := q - (p + 2);
      assert Lower(s[p + 2 + i]) == name[i];
    }
  }

  /** Every closing tag name is followed by a tag boundary or ends the text. */
  ghost predicate ClosedNames(s: string, name: string) {
    forall p :: CloseNameAt(s, name, p) ==> CloseAt(s, name, p)
  }

  lemma OpenAtShift(s: string, name: string, k: nat, p: nat)
    requires k <= |s|
    ensures OpenAt(s[k..], name, p) <==> OpenAt(s, name, k + p)
  {
    CiStartsShift(s, name, k, p + 1);
  }

  lemma CiStartsShift(s: string, lit: string, k: nat, p: nat)
    requires k <= |s|
    ensures CiStarts(s[k..], p, lit) <==> CiStarts(s, k + p, lit)
  {
    if p + |lit| <= |s[k..]| {
      assert s[k..][p..p + |lit|] == s[k + p..k + p + |lit|];
    }
  }

  lemma CloseAtShift(s: string, name: string, k: nat, p: nat)
    requires k <= |s|
    ensures CloseNameAt(s[k..], name, p) <==> CloseNameAt(s, name, k + p)
    ensures CloseAt(s[k..], name, p) <==> CloseAt(s, name, k + p)
  {
    CiStartsShift(s, name, k, p + 2);
  }

  /** Tags that end before the cut are seen with and without it. */
  lemma OpenAtCut(s: string, name: string, n: nat, p: nat)
    requires n <= |s|
    ensures OpenAt(s[..n], name, p) <==> OpenAt(s, name, p) && p + 1 + |name| < n
  {
  }

  lemma CloseAtCut(s: string, name: string, n: nat, p: nat)
    requires n <= |s|
    ensures CloseNameAt(s[..n], name, p) <==> CloseNameAt(s, name, p) && p + 2 + |name| <= n
    ensures p + 2 + |name| < n ==> (CloseAt(s[..n], name, p) <==> CloseAt(s, name, p))
  {
  }

  lemma ClosedNamesShift(s: string, name: string, k: nat)
    requires k <= |s| && ClosedNames(s, name)
    ensures ClosedNames(s[k..], name)
  {
    forall p | CloseNameAt(s[k..], name, p) ensures CloseAt(s[k..], name, p) {
      CloseAtShift(s, name, k, p);
    }
  }

  lemma FirstOpenShift(s: string, name: string, k: nat, from: nat)
    requires k <= |s| && k <= from
    ensures FirstOpen(s[k..], name, from - k) ==
            var f := FirstOpen(s, name, from); if f.Some? then Some(f.value - k) else None
  {
    var f := FirstOpen(s, name, from);
    forall p ensures OpenAt(s[k..], name, p) <==> OpenAt(s, name, k + p) {
      OpenAtShift(s, name, k, p);
    }
    FirstOpenIs(s[k..], name, from - k, if f.Some? then Some(f.value - k) else None);
  }

  lemma FirstCloseShift(s: string, name: string, k: nat, from: nat)
    requires k <= |s| && k <= from
    ensures FirstClose(s[k..], name, from - k) ==
            var f := FirstClose(s, name, from); if f.Some? then Some(f.value - k) else None
  {
    var f := FirstClose(s, name, from);
    forall p ensures CloseAt(s[k..], name, p) <==> CloseAt(s, name, k + p) {
      CloseAtShift(s, name, k, p);
    }
    FirstCloseIs(s[k..], name, from - k, if f.Some? then Some(f.value - k) else None);
  }
}
