/**
 * The text index behind anchored comments (doc-vault/docvault.py, `buildIndex` and `findRange` of the
 * page script): whitespace-collapsed text with a map back to positions in the document's text nodes.
 */
module QuoteIndex {
  import Text

  /** A character of a text node. */
  datatype Pos = Pos(node: nat, offset: nat)

  /** A DOM range: from `start` up to but excluding `end`. */
  datatype Range = NoRange | Range(start: Pos, end: Pos)

  /** The characters the index collapses. */
  const BLANKS: set<char> := {' ', '\t', '\n', '\r', '\U{0C}', '\U{A0}'}

  /** The further characters that `\s` matches in a quote. */
  const OTHER_BLANKS: set<char> := {
    '\U{0B}', '\U{1680}', '\U{2000}', '\U{2001}', '\U{2002}', '\U{2003}', '\U{2004}', '\U{2005}', '\U{2006}', '\U{2007}',
    '\U{2008}', '\U{2009}', '\U{200A}', '\U{2028}', '\U{2029}', '\U{202F}', '\U{205F}', '\U{3000}', '\U{FEFF}'}

  // --------------------------------------------------------------------
  // Collapsing whitespace
  // --------------------------------------------------------------------

  /** Whether character `c` adds to collapsed text `norm`: not a blank at the start or after a blank. */
  predicate Adds(norm: string, c: char, blanks: set<char>) {
    c in blanks ==> norm != "" && norm[|norm| - 1] != ' '
  }

  /** The first `k` characters of `s`, leading blanks dropped and every run of blanks made one space. */
  function Collapse(s: string, k: nat, blanks: set<char>): string {
    if k == 0 || k > |s| then ""
    else
      var norm, c := Collapse(s, k - 1, blanks), s[k - 1];
      if !Adds(norm, c, blanks) then norm else norm + [if c in blanks then ' ' else c]
  }

  /** For each character of the collapsed text, where in `s` it comes from. */
  function Sources(s: string, k: nat, blanks: set<char>): seq<nat> {
    if k == 0 || k > |s| then []
    else
      var source := Sources(s, k - 1, blanks);
      if !Adds(Collapse(s, k - 1, blanks), s[k - 1], blanks) then source else source + [k - 1]
  }

  function Collapsed(s: string): string {
    Collapse(s, |s|, BLANKS)
  }

  /** The index agrees with the text: as many sources as characters, strictly increasing, each of that character. */
  ghost predicate Agrees(s: string, norm: string, source: seq<nat>, blanks: set<char>) {
    && |source| == |norm|
    && (forall i :: 0 <= i < |source| ==> source[i] < |s|)
    && (forall i, j :: 0 <= i < j < |source| ==> source[i] < source[j])
    && (forall i :: 0 <= i < |source| && source[i] < |s| ==>
          norm[i] == if s[source[i]] in blanks then ' ' else s[source[i]])
  }

  ghost predicate AgreesBelow(s: string, norm: string, source: seq<nat>, k: nat, blanks: set<char>) {
    Agrees(s, norm, source, blanks) && forall i :: 0 <= i < |source| ==> source[i] < k
  }

  lemma {:induction false} SourcesAgreeBelow(s: string, k: nat, blanks: set<char>)
    requires k <= |s|
    ensures AgreesBelow(s, Collapse(s, k, blanks), Sources(s, k, blanks), k, blanks)
  {
    if k == 0 {
      NothingAgrees(s, blanks);
    } else {
      hide *;
      SourcesAgreeBelow(s, k - 1, blanks);
      AgreesGrows(s, Collapse(s, k - 1, blanks), Sources(s, k - 1, blanks), k - 1, blanks);
      CollapseStep(s, k - 1, blanks);
    }
  }

  lemma NothingAgrees(s: string, blanks: set<char>)
    ensures AgreesBelow(s, Collapse(s, 0, blanks), Sources(s, 0, blanks), 0, blanks)
  {
  }

  lemma SourcesAgree(s: string, k: nat, blanks: set<char>)
    requires k <= |s|
    ensures Agrees(s, Collapse(s, k, blanks), Sources(s, k, blanks), blanks)
    ensures forall i :: 0 <= i < |Sources(s, k, blanks)| ==> Sources(s, k, blanks)[i] < k
  {
    hide Collapse, Sources, Agrees;
    SourcesAgreeBelow(s, k, blanks);
  }

  lemma CollapseStep(s: string, k: nat, blanks: set<char>)
    requires k < |s|
    ensures var norm, c := Collapse(s, k, blanks), s[k];
            if Adds(norm, c, blanks) then
              && Collapse(s, k + 1, blanks) == norm + [if c in blanks then ' ' else c]
              && Sources(s, k + 1, blanks) == Sources(s, k, blanks) + [k]
            else
              Collapse(s, k + 1, blanks) == norm && Sources(s, k + 1, blanks) == Sources(s, k, blanks)
  {
  }

  lemma AgreesGrows(s: string, norm: string, source: seq<nat>, k: nat, blanks: set<char>)
    requires AgreesBelow(s, norm, source, k, blanks) && k < |s|
    ensures AgreesBelow(s, norm, source, k + 1, blanks)
    ensures AgreesBelow(s, norm + [if s[k] in blanks then ' ' else s[k]], source + [k], k + 1, blanks)
  {
  }

  lemma {:induction false} CollapseGrows(s: string, j: nat, k: nat, blanks: set<char>)
    requires j <= k <= |s|
    ensures Collapse(s, j, blanks) <= Collapse(s, k, blanks)
  {
    hide Adds;
    if j >= k {
    } else {
      CollapseGrows(s, j, k - 1, blanks);
    }
  }

  /** Up to the source of its `i`-th character the collapsed text has `i` characters; with it, one more. */
  lemma {:induction false} SourceSplits(s: string, k: nat, i: nat, blanks: set<char>)
    requires k <= |s| && i < |Sources(s, k, blanks)|
    ensures var m := Sources(s, k, blanks)[i];
            && m < k
            && |Collapse(s, m, blanks)| == i
            && |Collapse(s, m + 1, blanks)| == i + 1
  {
    hide Adds;
    if k == 0 {
    } else {
      AsManySources(s, k - 1, blanks);
      if i < |Sources(s, k - 1, blanks)| {
        SourceSplits(s, k - 1, i, blanks);
      }
    }
  }

  lemma AsManySources(s: string, k: nat, blanks: set<char>)
    requires k <= |s|
    ensures |Sources(s, k, blanks)| == |Collapse(s, k, blanks)|
  {
    SourcesAgree(s, k, blanks);
  }

  lemma AddsToTail(norm: string, a: nat, c: char, d: char, blanks: set<char>)
    requires a < |norm|
    ensures Adds(norm[a..], c, blanks) == Adds(norm, c, blanks)
    ensures (norm + [d])[a..] == norm[a..] + [d]
  {
    assert norm[a..][|norm| - a - 1] == norm[|norm| - 1];
  }

  /** Collapsing commutes with cutting at a character that is not blank. */
  lemma {:induction false} CollapseOfSlice(s: string, x: nat, y: nat, blanks: set<char>)
    requires x < y <= |s| && s[x] !in blanks
    ensures var a := |Collapse(s, x, blanks)|;
            a < |Collapse(s, y, blanks)| && Collapse(s, y, blanks)[a..] == Collapse(s[x..y], y - x, blanks)
    decreases y
  {
    hide Adds, Collapse;
    var a, part := |Collapse(s, x, blanks)|, s[x..y];
    if y == x + 1 {
      FirstSolid(s, x, blanks);
    } else {
      CollapseOfSlice(s, x, y - 1, blanks);
      assert part[..y - 1 - x] == s[x..y - 1][..y - 1 - x];
      CollapseOfPrefix(part, s[x..y - 1], y - 1 - x, blanks);
      CollapseStep(s, y - 1, blanks);
      CollapseStep(part, y - 1 - x, blanks);
      var c := s[y - 1];
      assert part[y - 1 - x] == c;
      AddsToTail(Collapse(s, y - 1, blanks), a, c, if c in blanks then ' ' else c, blanks);
    }
  }

  lemma FirstSolid(s: string, x: nat, blanks: set<char>)
    requires x < |s| && s[x] !in blanks
    ensures Collapse(s, x + 1, blanks) == Collapse(s, x, blanks) + [s[x]]
    ensures Collapse(s[x..x + 1], 1, blanks) == [s[x]]
  {
    assert Collapse(s[x..x + 1], 0, blanks) == "";
  }

  lemma {:induction false} CollapseOfPrefix(s: string, t: string, k: nat, blanks: set<char>)
    requires k <= |s| && k <= |t| && s[..k] == t[..k]
    ensures Collapse(s, k, blanks) == Collapse(t, k, blanks)
  {
    hide Adds;
    if k == 0 {
    } else {
      assert s[..k - 1] == s[..k][..k - 1] && t[..k - 1] == t[..k][..k - 1];
      assert s[k - 1] == s[..k][k - 1] && t[k - 1] == t[..k][k - 1];
      CollapseOfPrefix(s, t, k - 1, blanks);
    }
  }

  /** A stretch of the collapsed text that does not start with a space is the collapse of its raw range. */
  lemma StretchIsCollapse(s: string, at: nat, len: nat, blanks: set<char>)
    requires len > 0 && at + len <= |Collapse(s, |s|, blanks)| && Collapse(s, |s|, blanks)[at] != ' '
    ensures var norm, source := Collapse(s, |s|, blanks), Sources(s, |s|, blanks);
            && |source| == |norm|
            && source[at] <= source[at + len - 1] < |s|
            && var part := s[source[at]..source[at + len - 1] + 1];
               Collapse(part, |part|, blanks) == norm[at..at + len]
  {
    hide Collapse, Sources;
    SourcesAgree(s, |s|, blanks);
    var norm, source := Collapse(s, |s|, blanks), Sources(s, |s|, blanks);
    var x, y := source[at], source[at + len - 1] + 1;
    assert s[x] !in blanks;
    assert at == at + len - 1 || source[at] < source[at + len - 1];
    SourceSplits(s, |s|, at, blanks);
    SourceSplits(s, |s|, at + len - 1, blanks);
    CollapseGrows(s, y, |s|, blanks);
    CollapseOfSlice(s, x, y, blanks);
    assert Collapse(s, y, blanks) == norm[..at + len];
    assert norm[..at + len][at..] == norm[at..at + len];
  }

  /** Any stretch of the text that starts with a character that is not blank stands, collapsed, at its place in the index. */
  lemma TakenTextOccurs(s: string, x: nat, y: nat)
    requires x < y <= |s| && s[x] !in BLANKS
    ensures Text.OccursAt(Collapsed(s), Collapsed(s[x..y]), |Collapse(s, x, BLANKS)|)
  {
    hide Collapse, Text.OccursAt;
    CollapseOfSlice(s, x, y, BLANKS);
    CollapseGrows(s, y, |s|, BLANKS);
    var at, norm, upTo := |Collapse(s, x, BLANKS)|, Collapsed(s), Collapse(s, y, BLANKS);
    assert upTo == norm[..|upTo|];
    TailOccurs(norm, upTo, at);
    assert |s[x..y]| == y - x;
  }

  lemma TailOccurs(norm: string, upTo: string, at: nat)
    requires upTo <= norm && at <= |upTo|
    ensures Text.OccursAt(norm, upTo[at..], at)
  {
    assert norm[at..|upTo|] == upTo[at..];
  }

  // --------------------------------------------------------------------
  // Text nodes
  // --------------------------------------------------------------------

  /** The text of the first `k` nodes. */
  function TextTo(nodes: seq<string>, k: nat): string {
    if k == 0 || k > |nodes| then "" else TextTo(nodes, k - 1) + nodes[k - 1]
  }

  function RawText(nodes: seq<string>): string {
    TextTo(nodes, |nodes|)
  }

  /** How far into the document's text a position is. */
  function Depth(nodes: seq<string>, p: Pos): nat {
    |TextTo(nodes, p.node)| + p.offset
  }

  predicate InDocument(nodes: seq<string>, p: Pos) {
    p.node < |nodes| && p.offset < |nodes[p.node]|
  }

  predicate Precedes(p: Pos, q: Pos) {
    p.node < q.node || (p.node == q.node && p.offset < q.offset)
  }

  lemma {:induction false} TextToGrows(nodes: seq<string>, j: nat, k: nat)
    requires j <= k <= |nodes|
    ensures TextTo(nodes, j) <= TextTo(nodes, k)
  {
    if j >= k {
    } else {
      TextToGrows(nodes, j, k - 1);
    }
  }

  lemma CharacterAt(nodes: seq<string>, p: Pos)
    requires InDocument(nodes, p)
    ensures Depth(nodes, p) < |RawText(nodes)| && RawText(nodes)[Depth(nodes, p)] == nodes[p.node][p.offset]
  {
    TextToGrows(nodes, p.node + 1, |nodes|);
    assert TextTo(nodes, p.node + 1) == TextTo(nodes, p.node) + nodes[p.node];
    assert TextTo(nodes, p.node + 1)[Depth(nodes, p)] == nodes[p.node][p.offset];
  }

  lemma DeeperIsLater(nodes: seq<string>, p: Pos, q: Pos)
    requires InDocument(nodes, p) && InDocument(nodes, q) && Depth(nodes, p) < Depth(nodes, q)
    ensures Precedes(p, q)
  {
    if q.node < p.node {
      TextToGrows(nodes, q.node + 1, p.node);
    }
  }

  // --------------------------------------------------------------------
  // Building the index
  // --------------------------------------------------------------------

  /** The map leads from each collapsed character to the position of its source. */
  ghost predicate MapsTo(nodes: seq<string>, places: seq<Pos>, source: seq<nat>) {
    |places| == |source| && forall i :: 0 <= i < |places| ==> InDocument(nodes, places[i]) && Depth(nodes, places[i]) == source[i]
  }

  method BuildIndex(nodes: seq<string>) returns (norm: string, places: seq<Pos>)
    ensures norm == Collapsed(RawText(nodes)) && |places| == |norm|
    ensures MapsTo(nodes, places, Sources(RawText(nodes), |RawText(nodes)|, BLANKS))
    ensures forall i, j :: 0 <= i < j < |places| ==> Precedes(places[i], places[j])
    ensures forall i :: 0 <= i < |places| ==>
              && InDocument(nodes, places[i])
              && norm[i] == var c := nodes[places[i].node][places[i].offset]; if c in BLANKS then ' ' else c
  {
    hide InDocument, Adds;
    ghost var raw := RawText(nodes);
    norm, places := "", [];
    var n := 0;
    while n < |nodes|
      invariant n <= |nodes|
      invariant |TextTo(nodes, n)| <= |raw|
      invariant norm == Collapse(raw, |TextTo(nodes, n)|, BLANKS)
      invariant MapsTo(nodes, places, Sources(raw, |TextTo(nodes, n)|, BLANKS))
    {
      var v := nodes[n];
      TextToGrows(nodes, n + 1, |nodes|);
      var i := 0;
      while i < |v|
        invariant i <= |v|
        invariant norm == Collapse(raw, |TextTo(nodes, n)| + i, BLANKS)
        invariant MapsTo(nodes, places, Sources(raw, |TextTo(nodes, n)| + i, BLANKS))
      {
        var c := v[i];
        OneCharacter(nodes, norm, places, Pos(n, i));
        if c in {' ', '\t', '\n', '\r', '\U{0C}', '\U{A0}'} {
          if |norm| > 0 && norm[|norm| - 1] != ' ' {
            norm := norm + " ";
            places := places + [Pos(n, i)];
          }
        } else {
          norm := norm + [c];
          places := places + [Pos(n, i)];
        }
        i := i + 1;
      }
      n := n + 1;
    }
    IndexAgrees(nodes, norm, places);
  }

  lemma OneCharacter(nodes: seq<string>, norm: string, places: seq<Pos>, p: Pos)
    requires p.node < |nodes| && p.offset < |nodes[p.node]|
    requires norm == Collapse(RawText(nodes), Depth(nodes, p), BLANKS)
    requires MapsTo(nodes, places, Sources(RawText(nodes), Depth(nodes, p), BLANKS))
    ensures var raw, k, c := RawText(nodes), Depth(nodes, p) + 1, nodes[p.node][p.offset];
            if c in BLANKS && (norm == "" || norm[|norm| - 1] == ' ') then
              Collapse(raw, k, BLANKS) == norm && MapsTo(nodes, places, Sources(raw, k, BLANKS))
            else
              && Collapse(raw, k, BLANKS) == norm + [if c in BLANKS then ' ' else c]
              && MapsTo(nodes, places + [p], Sources(raw, k, BLANKS))
  {
    CharacterAt(nodes, p);
  }

  lemma IndexAgrees(nodes: seq<string>, norm: string, places: seq<Pos>)
    requires norm == Collapsed(RawText(nodes))
    requires MapsTo(nodes, places, Sources(RawText(nodes), |RawText(nodes)|, BLANKS))
    ensures |places| == |norm|
    ensures forall i, j :: 0 <= i < j < |places| ==> Precedes(places[i], places[j])
    ensures forall i :: 0 <= i < |places| ==>
              && InDocument(nodes, places[i])
              && norm[i] == var c := nodes[places[i].node][places[i].offset]; if c in BLANKS then ' ' else c
  {
    var raw := RawText(nodes);
    SourcesAgree(raw, |raw|, BLANKS);
    forall i, j | 0 <= i < j < |places| ensures Precedes(places[i], places[j]) {
      DeeperIsLater(nodes, places[i], places[j]);
    }
    forall i | 0 <= i < |places| ensures raw[Depth(nodes, places[i])] == nodes[places[i].node][places[i].offset] {
      CharacterAt(nodes, places[i]);
    }
  }

  // --------------------------------------------------------------------
  // Finding a quote
  // --------------------------------------------------------------------

  /** `trim`, on text where only single spaces can be at the end. */
  function Trimmed(s: string): string {
    if s != "" && s[|s| - 1] == ' ' then s[..|s| - 1] else s
  }

  /** What is looked for: the quote with every run of white space made one space, and trimmed. */
  function Wanted(quote: string): string {
    Trimmed(Collapse(quote, |quote|, BLANKS + OTHER_BLANKS))
  }

  /** The raw text that a range covers. */
  function Covered(nodes: seq<string>, r: Range): string
    requires r.Range?
  {
    var source, to := Depth(nodes, r.start), Depth(nodes, r.end);
    if source <= to <= |RawText(nodes)| then RawText(nodes)[source..to] else ""
  }

  /** Finds the quote, or failing that its first 24 characters. A range returned covers just that, collapsed. */
  method FindRange(nodes: seq<string>, quote: string) returns (r: Range)
    ensures var norm, want := Collapsed(RawText(nodes)), Wanted(quote);
            && (r.NoRange? <==> want == "" || !Text.Contains(norm, Head(want)))
            && (r.Range? && Text.Contains(norm, want) ==> Collapsed(Covered(nodes, r)) == want)
            && (r.Range? && !Text.Contains(norm, want) ==> Collapsed(Covered(nodes, r)) == Head(want))
    ensures r.Range? ==> Precedes(r.start, r.end) && InDocument(nodes, r.start)
    ensures r.Range? ==> StartsAtFirst(nodes, Wanted(quote), r.start)
  {
    hide Collapsed, RawText, Wanted, Covered, MapsTo, SourceAt, Text.OccursAt, Text.Contains;
    var norm, places := BuildIndex(nodes);
    var want := Wanted(quote);
    if want == "" {
      return NoRange;
    }
    WantedStartsSolid(quote);
    HeadContained(norm, want);
    var at := Text.Find(norm, want);
    if at < 0 {
      want := if |want| > 24 then want[..24] else want;
      at := Text.Find(norm, want);
      if at < 0 {
        return NoRange;
      }
    }
    OccurrenceFits(norm, want, at);
    var s, e := places[at], places[at + |want| - 1];
    r := Range(s, Pos(e.node, e.offset + 1));
    RangeCovers(nodes, norm, places, want, at);
    MapGivesSource(nodes, places, at);
  }

  /** The position is where the first occurrence of the quote, or else of its head, comes from. */
  ghost predicate StartsAtFirst(nodes: seq<string>, want: string, p: Pos) {
    var norm := Collapsed(RawText(nodes));
    SourceAt(nodes, Text.Find(norm, if Text.Contains(norm, want) then want else Head(want)), p)
  }

  ghost predicate SourceAt(nodes: seq<string>, at: int, p: Pos) {
    var source := Sources(RawText(nodes), |RawText(nodes)|, BLANKS);
    0 <= at < |source| && Depth(nodes, p) == source[at]
  }

  function Head(want: string): string {
    if |want| > 24 then want[..24] else want
  }

  lemma OccurrenceFits(norm: string, want: string, at: int)
    requires Text.OccursAt(norm, want, at)
    ensures 0 <= at && at + |want| <= |norm| && norm[at..at + |want|] == want
    ensures want != "" ==> norm[at] == want[0]
  {
  }

  /** A text that has a quote has its head. */
  lemma HeadContained(norm: string, want: string)
    ensures Text.Contains(norm, want) ==> Text.Contains(norm, Head(want))
  {
    if !Text.Contains(norm, want) {
      return;
    }
    var i :| 0 <= i <= |norm| && Text.OccursAt(norm, want, i);
    assert norm[i..i + |Head(want)|] == norm[i..i + |want|][..|Head(want)|];
    assert Text.OccursAt(norm, Head(want), i);
  }

  lemma {:induction false} CollapseStartsSolid(s: string, k: nat, blanks: set<char>)
    requires ' ' in blanks
    ensures Collapse(s, k, blanks) != "" ==> Collapse(s, k, blanks)[0] != ' '
  {
    if 0 < k <= |s| {
      CollapseStartsSolid(s, k - 1, blanks);
    }
  }

  lemma WantedStartsSolid(quote: string)
    ensures Wanted(quote) != "" ==> Wanted(quote)[0] != ' '
  {
    CollapseStartsSolid(quote, |quote|, BLANKS + OTHER_BLANKS);
  }

  lemma MapGivesSource(nodes: seq<string>, places: seq<Pos>, at: nat)
    requires MapsTo(nodes, places, Sources(RawText(nodes), |RawText(nodes)|, BLANKS)) && at < |places|
    ensures SourceAt(nodes, at, places[at])
  {
  }

  lemma RangeCovers(nodes: seq<string>, norm: string, places: seq<Pos>, want: string, at: nat)
    requires norm == Collapsed(RawText(nodes)) && |places| == |norm|
    requires MapsTo(nodes, places, Sources(RawText(nodes), |RawText(nodes)|, BLANKS))
    requires want != "" && want[0] != ' ' && at + |want| <= |norm| && norm[at..at + |want|] == want
    ensures var e := places[at + |want| - 1];
            var r := Range(places[at], Pos(e.node, e.offset + 1));
            Collapsed(Covered(nodes, r)) == want && Precedes(r.start, r.end) && InDocument(nodes, r.start)
  {
    hide Collapse, Sources, RawText, TextTo, InDocument, Precedes;
    assert norm[at] == norm[at..at + |want|][0] == want[0];
    StretchIsCollapse(RawText(nodes), at, |want|, BLANKS);
    RangeIsForward(nodes, places[at], places[at + |want| - 1]);
  }

  /** A range from one character up to and including one not before it is not empty. */
  lemma RangeIsForward(nodes: seq<string>, s: Pos, e: Pos)
    requires InDocument(nodes, s) && InDocument(nodes, e) && Depth(nodes, s) <= Depth(nodes, e)
    ensures Precedes(s, Pos(e.node, e.offset + 1))
  {
    hide TextTo;
    if Depth(nodes, s) < Depth(nodes, e) {
      DeeperIsLater(nodes, s, e);
    } else {
      SamePlace(nodes, s, e);
    }
  }

  lemma SamePlace(nodes: seq<string>, p: Pos, q: Pos)
    requires InDocument(nodes, p) && InDocument(nodes, q) && Depth(nodes, p) == Depth(nodes, q)
    ensures p == q
  {
    if p.node < q.node {
      TextToGrows(nodes, p.node + 1, q.node);
    } else if q.node < p.node {
      TextToGrows(nodes, q.node + 1, p.node);
    }
  }

  // --------------------------------------------------------------------
  // Quotes taken from the document
  // --------------------------------------------------------------------

  lemma {:induction false} SameBlanks(s: string, k: nat, blanks: set<char>, more: set<char>)
    requires k <= |s| && forall i :: 0 <= i < k ==> s[i] !in more
    ensures Collapse(s, k, blanks + more) == Collapse(s, k, blanks)
  {
    if k == 0 {
    } else {
      SameBlanks(s, k - 1, blanks, more);
    }
  }

  /** Of the blanks only the space is left in collapsed text. */
  lemma {:induction false} OnlySpacesAreLeft(s: string, k: nat, blanks: set<char>)
    requires k <= |s|
    ensures forall c :: c in Collapse(s, k, blanks) && c in blanks ==> c == ' '
  {
    hide Adds;
    if k == 0 {
    } else {
      OnlySpacesAreLeft(s, k - 1, blanks);
    }
  }

  /** Text that ends in a character that is not blank collapses to text that ends in it. */
  lemma EndsSolid(s: string, blanks: set<char>)
    requires s != "" && s[|s| - 1] !in blanks && ' ' in blanks
    ensures var n := |s|;
            && Collapse(s, n, blanks) == Collapse(s, n - 1, blanks) + [s[n - 1]]
            && Trimmed(Collapse(s, n, blanks)) == Collapse(s, n, blanks)
  {
  }

  lemma OtherBlanksAreKept()
    ensures BLANKS !! OTHER_BLANKS && ' ' in BLANKS
  {
  }

  /**
   * Where the quote has a blank that only the search collapses, the quote as searched for and the quote as
   * indexed differ, at a place both have.
   */
  lemma SearchAndIndexDiffer(quote: string, p: nat, blanks: set<char>, more: set<char>)
    requires blanks !! more && ' ' in blanks
    requires p < |quote| - 1 && quote[p] in more && forall i :: 0 <= i < p ==> quote[i] !in more
    requires quote[|quote| - 1] !in blanks + more
    ensures var wanted, indexed := Collapse(quote, |quote|, blanks + more), Collapse(quote, |quote|, blanks);
            var j := |Collapse(quote, p, blanks)|;
            j < |wanted| && j < |indexed| && wanted[j] != indexed[j]
  {
    hide Collapse;
    var n, j := |quote|, |Collapse(quote, p, blanks)|;
    SameBlanks(quote, p, blanks, more);
    CollapseStep(quote, p, blanks);
    CollapseGrows(quote, p + 1, n, blanks);
    CollapseGrows(quote, p, n - 1, blanks + more);
    EndsSolid(quote, blanks + more);
    OnlySpacesAreLeft(quote, n, blanks + more);
    var wanted := Collapse(quote, n, blanks + more);
    assert wanted[j] in wanted;
  }

  /** Whether nothing in the quote is collapsed by the search alone. */
  predicate NoOtherBlank(quote: string) {
    forall c :: c in quote ==> c !in OTHER_BLANKS
  }

  lemma FirstOtherBlank(quote: string) returns (p: nat)
    requires !NoOtherBlank(quote)
    ensures p < |quote| && quote[p] in OTHER_BLANKS && forall i :: 0 <= i < p ==> quote[i] !in OTHER_BLANKS
  {
    p := 0;
    while quote[p] !in OTHER_BLANKS
      invariant exists i :: p <= i < |quote| && quote[i] in OTHER_BLANKS
      invariant forall i :: 0 <= i < p ==> quote[i] !in OTHER_BLANKS
      decreases |quote| - p
    {
      p := p + 1;
    }
  }

  /** A quote with solid ends is searched for as it is indexed exactly when it has none of the further blanks. */
  lemma WantedIsIndexedExactly(quote: string)
    requires quote != "" && quote[|quote| - 1] !in BLANKS + OTHER_BLANKS
    ensures NoOtherBlank(quote) ==> Wanted(quote) == Collapsed(quote) != ""
    ensures !NoOtherBlank(quote) ==>
              exists j :: 0 <= j < |Wanted(quote)| && j < |Collapsed(quote)| && Wanted(quote)[j] != Collapsed(quote)[j]
  {
    hide Collapse;
    OtherBlanksAreKept();
    EndsSolid(quote, BLANKS + OTHER_BLANKS);
    if NoOtherBlank(quote) {
      assert forall i :: 0 <= i < |quote| ==> quote[i] in quote;
      SameBlanks(quote, |quote|, BLANKS, OTHER_BLANKS);
    } else {
      var p := FirstOtherBlank(quote);
      SearchAndIndexDiffer(quote, p, BLANKS, OTHER_BLANKS);
      var j := |Collapse(quote, p, BLANKS)|;
      assert Wanted(quote)[j] != Collapsed(quote)[j];
    }
  }

  /**
   * A quote taken from the document, with both ends solid, stands collapsed at its own place in the index.
   * The search recognises it there exactly when it has no white space but what the index collapses.
   */
  lemma QuotesAreRecognisedExactly(nodes: seq<string>, x: nat, y: nat)
    requires x < y <= |RawText(nodes)|
    requires RawText(nodes)[x] !in BLANKS + OTHER_BLANKS && RawText(nodes)[y - 1] !in BLANKS + OTHER_BLANKS
    ensures var raw := RawText(nodes);
            var quote, norm, at := raw[x..y], Collapsed(raw), |Collapse(raw, x, BLANKS)|;
            && Text.OccursAt(norm, Collapsed(quote), at)
            && (Wanted(quote) == Collapsed(quote) <==> NoOtherBlank(quote))
            && (Text.OccursAt(norm, Wanted(quote), at) <==> NoOtherBlank(quote))
  {
    hide Collapse, Wanted, Collapsed, NoOtherBlank;
    var raw := RawText(nodes);
    var quote, norm, at := raw[x..y], Collapsed(raw), |Collapse(raw, x, BLANKS)|;
    TakenTextOccurs(raw, x, y);
    WantedIsIndexedExactly(quote);
    if !NoOtherBlank(quote) {
      var j :| 0 <= j < |Wanted(quote)| && j < |Collapsed(quote)| && Wanted(quote)[j] != Collapsed(quote)[j];
      assert norm[at..at + |Collapsed(quote)|][j] == norm[at + j];
      Text.DiffersAt(norm, Wanted(quote), at, j);
    }
  }

  /** So every such quote without further blanks is found in full: the range covers the same words. */
  lemma TakenQuotesAreFound(nodes: seq<string>, x: nat, y: nat)
    requires x < y <= |RawText(nodes)|
    requires RawText(nodes)[x] !in BLANKS && RawText(nodes)[y - 1] !in BLANKS
    requires NoOtherBlank(RawText(nodes)[x..y])
    ensures var quote := RawText(nodes)[x..y];
            && Wanted(quote) == Collapsed(quote) != ""
            && Text.Contains(Collapsed(RawText(nodes)), Wanted(quote))
  {
    hide Collapse, Wanted, Collapsed, RawText;
    var raw := RawText(nodes);
    var quote := raw[x..y];
    assert quote[0] == raw[x] && quote[|quote| - 1] == raw[y - 1];
    assert quote[0] in quote && quote[|quote| - 1] in quote;
    WantedIsIndexedExactly(quote);
    TakenTextOccurs(raw, x, y);
  }

  // --------------------------------------------------------------------
  // What happens to the others
  // --------------------------------------------------------------------

  /** Text without leading or doubled spaces and without other blanks is its own collapse. */
  lemma {:induction false} TidyTextIsKept(s: string, k: nat, blanks: set<char>)
    requires k <= |s| && forall i :: 0 <= i < |s| && s[i] in blanks ==> s[i] == ' ' && i > 0 && s[i - 1] != ' '
    ensures Collapse(s, k, blanks) == s[..k]
  {
    if k == 0 {
    } else {
      TidyTextIsKept(s, k - 1, blanks);
      assert s[..k] == s[..k - 1] + [s[k - 1]];
    }
  }

  lemma OneNode(text: string)
    ensures RawText([text]) == text
  {
    assert TextTo([text], 0) == "";
  }

  /** Such a quote can be lost: here the quote is the whole document, and not even its head is found. */
  lemma SeparatorsHideQuotes(quote: string)
    requires |quote| == 3 && quote[1] in OTHER_BLANKS
    requires quote[0] !in BLANKS + OTHER_BLANKS && quote[2] !in BLANKS + OTHER_BLANKS
    ensures var norm := Collapsed(RawText([quote]));
            && Wanted(quote) == [quote[0], ' ', quote[2]]
            && !Text.Contains(norm, Wanted(quote))
            && !Text.Contains(norm, Head(Wanted(quote)))
  {
    hide Collapse, Text.Contains;
    OtherBlanksAreKept();
    OneNode(quote);
    CollapseOfThree(quote, BLANKS + OTHER_BLANKS);
    TidyTextIsKept(quote, 3, BLANKS);
    assert quote[..3] == quote;
    assert quote[1] != ' ' && [quote[0], ' ', quote[2]][1] == ' ';
    NotContained(quote, [quote[0], ' ', quote[2]]);
  }

  /** And it can be misplaced: here the words also stand later, with a plain space, and are found there. */
  lemma SeparatorsMisplaceQuotes(a: char, separator: char, b: char)
    requires separator in OTHER_BLANKS && a !in BLANKS + OTHER_BLANKS && b !in BLANKS + OTHER_BLANKS
    ensures var text, quote := [a, separator, b, ' ', a, ' ', b], [a, separator, b];
            var norm := Collapsed(RawText([text]));
            && text[0..3] == quote
            && Text.Contains(norm, Wanted(quote))
            && Text.Find(norm, Wanted(quote)) > 0
  {
    hide Collapse, RawText, Text.OccursAt, Text.Contains;
    var text, quote := [a, separator, b, ' ', a, ' ', b], [a, separator, b];
    OtherBlanksAreKept();
    OneNode(text);
    TidyTextIsKept(text, 7, BLANKS);
    assert text[..7] == text;
    CollapseOfThree(quote, BLANKS + OTHER_BLANKS);
    OnlyLater(text, [a, ' ', b]);
  }

  lemma OnlyLater(s: string, part: string)
    requires |s| == 7 && |part| == 3 && s[4..7] == part && s[1] != part[1]
    ensures Text.Contains(s, part) && Text.Find(s, part) > 0
  {
    assert Text.OccursAt(s, part, 4);
    Text.DiffersAt(s, part, 0, 1);
  }

  lemma NotContained(s: string, part: string)
    requires |s| == |part| && s != part
    ensures !Text.Contains(s, part)
  {
  }

  lemma CollapseOfThree(s: string, blanks: set<char>)
    requires |s| == 3 && s[0] !in blanks && s[2] !in blanks && ' ' in blanks
    ensures Collapse(s, 3, blanks) == [s[0], if s[1] in blanks then ' ' else s[1], s[2]]
  {
    assert Collapse(s, 1, blanks) == [s[0]] by {
      assert Collapse(s, 0, blanks) == "";
    }
    assert Collapse(s, 2, blanks) == [s[0], if s[1] in blanks then ' ' else s[1]];
  }
}
