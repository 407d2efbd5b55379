/**
 * The chapter tree of a parsed document: heading lines cut the text into segments, and every heading hangs under the
 * heading whose number is its own without the last part.
 */
module ChapterTree {
  import opened Lists
  import opened Text
  import opened Forest
  import opened ClauseIds

  datatype Page = Page(pageNo: int, lines: seq<string>)

  /** A non-blank line with its place. */
  datatype Line = Line(page: int, lineNo: int, text: string)

  datatype Heading = Heading(id: string, title: string, page: int, lineNo: int, depth: nat)

  datatype ChapterNode = ChapterNode(heading: Heading, text: string, parent: Option<string>, children: seq<nat>)

  datatype ChapterTree = ChapterTree(nodes: seq<ChapterNode>, roots: seq<nat>, maxDepth: nat)

  /** The text heuristics: pages to skip, how a line reads as a heading, which titles are noise. */
  datatype Recogniser = Recogniser(noisePage: int -> bool, matchHeading: string -> Option<(string, string)>,
                                   noisyTitle: string -> bool)

  const MAX_BODY_LINES: nat := 120
  const MAX_FALLBACK_LINES: nat := 60
  const MAX_FALLBACK_TITLE: nat := 80

  // ---------- lines ----------

  function PageLines(page: int, lines: seq<string>): seq<Line> {
    if lines == [] then []
    else
      var n := |lines| - 1;
      var text := Strip(lines[n]);
      PageLines(page, lines[..n]) + if text == "" then [] else [Line(page, n + 1, text)]
  }

  function AllLines(pages: seq<Page>): seq<Line> {
    if pages == [] then []
    else
      var n := |pages| - 1;
      AllLines(pages[..n]) + PageLines(pages[n].pageNo, pages[n].lines)
  }

  // ---------- which lines are headings ----------

  /** One to five numbers: the first is not zero, alone at most 20, and the others at most 300. */
  predicate IsPlausible(id: string) {
    var parts := Split(id);
    && |parts| <= 5 && AllDigits(parts)
    && assert parts[0] in parts; Value(parts[0]) != 0
    && (|parts| == 1 ==> Value(parts[0]) <= 20)
    && forall p | p in parts[1..] :: assert p in parts; Value(p) <= 300
  }

  predicate Contains(s: string, word: string) {
    word <= s || (s != "" && Contains(s[1..], word))
  }

  /** Words that make a short unnumbered title read like a requirement. */
  const REQUIREMENT_WORDS: seq<string> :=
    ["\U{5E94}", "\U{4E0D}\U{5F97}", "\U{91C7}\U{7528}", "\U{8FDB}\U{884C}", "\U{7B26}\U{5408}", "\U{89C4}\U{5B9A}",
     "\U{5E94}\U{5F53}", "\U{6BCF}", "\U{81F3}\U{5C11}", "\U{6309}", "\U{4E3A}", "\U{4E0E}"]

  predicate IsCodeChar(c: char) {
    IsLetter(c) || IsDigit(c) || c == '_' || c == '-'
  }

  /** A single number in front of a long or requirement-like title, or close below a deeper heading. */
  predicate IsLikelyListItem(id: string, title: string, accepted: seq<Heading>, page: int, lineNo: int)
    requires IsPlausible(id)
  {
    if '.' in id then false
    else
      var compact := DropSpaces(title);
      if |compact| >= 10 then true
      else if |compact| >= 6 && exists w | w in REQUIREMENT_WORDS :: Contains(compact, w) then true
      else if (assert Split(id)[0] in Split(id); Value(Split(id)[0]) >= 10) && 2 <= |compact| <= 6
          && AllChars(compact, IsCodeChar) then true
      else if accepted == [] then false
      else
        var prev := accepted[|accepted| - 1];
        prev.page == page && prev.depth >= 2 && lineNo - prev.lineNo <= 6
  }

  /** The heading a line opens, given those accepted before it. */
  function HeadingOf(r: Recogniser, line: Line, accepted: seq<Heading>): (h: Option<Heading>)
    ensures h.Some? ==>
      IsPlausible(h.value.id) && h.value.depth == |Split(h.value.id)| &&
      h.value.page == line.page && h.value.lineNo == line.lineNo && !r.noisePage(line.page)
  {
    if r.noisePage(line.page) then None
    else
      var matched := r.matchHeading(line.text);
      if matched.None? then None
      else
        var (id, title) := matched.value;
        if !IsPlausible(id) || r.noisyTitle(title) || IsLikelyListItem(id, title, accepted, line.page, line.lineNo)
        then None
        else Some(Heading(id, title, line.page, line.lineNo, |Split(id)|))
  }

  function Ids(hs: seq<Heading>): (r: seq<string>)
    ensures |r| == |hs| && forall i :: 0 <= i < |hs| ==> r[i] == hs[i].id
  {
    seq(|hs|, i requires 0 <= i < |hs| => hs[i].id)
  }

  /** Headings and the positions of their lines. */
  datatype Scan = Scan(headings: seq<Heading>, at: seq<nat>)

  /** The scan of a list of lines: a line opens a segment if it reads as a heading with a new id. */
  ghost function Scanned(r: Recogniser, lines: seq<Line>): Scan {
    if lines == [] then Scan([], [])
    else
      var n := |lines| - 1;
      var s := Scanned(r, lines[..n]);
      var h := HeadingOf(r, lines[n], s.headings);
      if h.None? || h.value.id in Ids(s.headings) then s else Scan(s.headings + [h.value], s.at + [n])
  }

  /** What a scan guarantees: rising positions, distinct plausible ids, places taken from the lines. */
  ghost predicate ScanOk(r: Recogniser, lines: seq<Line>, s: Scan) {
    && |s.headings| == |s.at| && NoDup(Ids(s.headings))
    && (forall i :: 0 <= i < |s.at| ==> s.at[i] < |lines|)
    && (forall i, j :: 0 <= i < j < |s.at| ==> s.at[i] < s.at[j])
    && (forall i :: 0 <= i < |s.at| ==>
          var h, line := s.headings[i], lines[s.at[i]];
          IsPlausible(h.id) && h.depth == |Split(h.id)| && h.page == line.page && h.lineNo == line.lineNo &&
          !r.noisePage(line.page))
  }

  lemma {:induction false} ScannedOk(r: Recogniser, lines: seq<Line>)
    ensures ScanOk(r, lines, Scanned(r, lines))
  {
    if lines != [] {
      ScannedOk(r, lines[..|lines| - 1]);
      hide HeadingOf, IsPlausible, Split;
      var s := Scanned(r, lines[..|lines| - 1]);
      var t := Scanned(r, lines);
      if t != s {
        assert Ids(t.headings) == Ids(s.headings) + [t.headings[|s.headings|].id];
      }
    }
  }

  /** The scanning loop. */
  method ScanHeadings(r: Recogniser, lines: seq<Line>) returns (headings: seq<Heading>, at: seq<nat>)
    ensures Scan(headings, at) == Scanned(r, lines)
    ensures ScanOk(r, lines, Scan(headings, at))
  {
    hide ScanOk, HeadingOf;
    headings, at := [], [];
    var seen: set<string> := {};
    for k := 0 to |lines|
      invariant Scan(headings, at) == Scanned(r, lines[..k])
      invariant forall id :: id in seen <==> id in Ids(headings)
    {
      assert lines[..k + 1][..k] == lines[..k];
      var h := HeadingOf(r, lines[k], headings);
      if h.None? || h.value.id in seen {
        continue;
      }
      seen := seen + {h.value.id};
      assert Ids(headings + [h.value]) == Ids(headings) + [h.value.id];
      headings, at := headings + [h.value], at + [k];
    }
    assert lines[..|lines|] == lines;
    ScannedOk(r, lines);
  }

  // ---------- segments ----------

  function End(lines: seq<Line>, at: seq<nat>, i: nat): nat
    requires i < |at|
  {
    if i + 1 < |at| then at[i + 1] else |lines|
  }

  ghost predicate Rising(lines: seq<Line>, at: seq<nat>) {
    && (forall i :: 0 <= i < |at| ==> at[i] < |lines|)
    && (forall i, j :: 0 <= i < j < |at| ==> at[i] < at[j])
  }

  /** The uncut text below heading `i`, up to the next heading. */
  function Body(lines: seq<Line>, at: seq<nat>, i: nat): seq<Line>
    requires Rising(lines, at) && i < |at|
  {
    lines[at[i] + 1..End(lines, at, i)]
  }

  /** Heading lines and bodies of the first `n` segments, put together again. */
  ghost function Reassembled(lines: seq<Line>, at: seq<nat>, n: nat): seq<Line>
    requires Rising(lines, at) && n <= |at|
  {
    if n == 0 then []
    else Reassembled(lines, at, n - 1) + [lines[at[n - 1]]] + Body(lines, at, n - 1)
  }

  lemma {:induction false} PrefixReassembled(lines: seq<Line>, at: seq<nat>, n: nat)
    requires Rising(lines, at) && 1 <= n <= |at|
    ensures at[0] < End(lines, at, n - 1) <= |lines|
    ensures Reassembled(lines, at, n) == lines[at[0]..End(lines, at, n - 1)]
  {
    if n > 1 {
      PrefixReassembled(lines, at, n - 1);
      assert at[0] < at[n - 1];
    }
  }

  /** Nothing is lost and nothing is repeated from the first heading on. */
  lemma SegmentsPartitionTheText(lines: seq<Line>, at: seq<nat>)
    requires Rising(lines, at) && at != []
    ensures at[0] < |lines| && Reassembled(lines, at, |at|) == lines[at[0]..]
  {
    PrefixReassembled(lines, at, |at|);
  }

  function TextOf(lines: seq<Line>): seq<string> {
    seq(|lines|, i requires 0 <= i < |lines| => lines[i].text)
  }

  function JoinLines(texts: seq<string>): string {
    if texts == [] then "" else if |texts| == 1 then texts[0] else texts[0] + "\n" + JoinLines(texts[1..])
  }

  function Take<T>(xs: seq<T>, n: nat): seq<T> {
    if |xs| <= n then xs else xs[..n]
  }

  // ---------- parents ----------

  /** `_find_parent_id`: the longest non-empty join of a proper prefix of the parts. */
  function FindParentId(id: string): Option<string> {
    if '.' !in id then None else LongestNonEmpty(Split(id), |Split(id)| - 1)
  }

  function LongestNonEmpty(parts: seq<string>, n: nat): Option<string>
    requires n <= |parts|
  {
    if n == 0 then None else if Join(parts[..n]) != "" then Some(Join(parts[..n])) else LongestNonEmpty(parts, n - 1)
  }

  lemma {:induction false} DotSplits(s: string)
    ensures '.' in s <==> |Split(s)| >= 2
  {
    if s != "" {
      DotSplits(s[1..]);
      assert '.' in s <==> s[0] == '.' || '.' in s[1..];
    }
  }

  lemma JoinHead(parts: seq<string>)
    requires parts != [] && parts[0] != ""
    ensures Join(parts) != ""
  {
  }

  /** The parent of a plausible id is always the id without its last part, one level higher. */
  lemma ParentIsImmediatePrefix(id: string)
    requires IsPlausible(id)
    ensures var n := |Split(id)|;
            && (n == 1 ==> FindParentId(id) == None)
            && (n >= 2 ==> FindParentId(id) == Some(Prefix(id, n - 1)) && |Split(Prefix(id, n - 1))| == n - 1)
  {
    DotSplits(id);
    var parts := Split(id);
    var n := |parts|;
    if n >= 2 {
      assert parts[0] in parts && parts[..n - 1][0] == parts[0];
      JoinHead(parts[..n - 1]);
      SplitDotFree(id);
      assert DotFree(parts[..n - 1]) by {
        forall p | p in parts[..n - 1] ensures p in parts {}
      }
      SplitJoin(parts[..n - 1]);
    }
  }

  /** Following parents from a plausible id shortens it by one part at a time, until one part is left. */
  ghost function Chain(id: string, n: nat): Option<string> {
    if n == 0 then Some(id)
    else
      var up := Chain(id, n - 1);
      if up.None? then None else FindParentId(up.value)
  }

  lemma {:induction false} ChainEnds(id: string, n: nat)
    requires IsPlausible(id) && n < |Split(id)|
    ensures Chain(id, n) == Some(Prefix(id, |Split(id)| - n)) && Chain(id, |Split(id)|) == None
  {
    ChainPrefix(id, n);
    ChainPrefix(id, |Split(id)| - 1);
    var parts := Split(id);
    assert parts[0] in parts && parts[..1] == [parts[0]];
    SplitDotFree(id);
    assert '.' !in Prefix(id, 1);
  }

  lemma {:induction false} ChainPrefix(id: string, n: nat)
    requires IsPlausible(id) && n < |Split(id)|
    ensures Chain(id, n) == Some(Prefix(id, |Split(id)| - n))
  {
    if n == 0 {
      assert Split(id)[..|Split(id)|] == Split(id);
      JoinSplit(id);
    } else {
      ChainPrefix(id, n - 1);
      hide IsPlausible, FindParentId, Prefix;
      PrefixStep(id, |Split(id)| - n);
    }
  }

  lemma FirstPartFilled(id: string)
    requires IsPlausible(id)
    ensures Split(id)[0] != ""
  {
    assert Split(id)[0] in Split(id);
  }

  lemma DotFreeFront(parts: seq<string>, m: nat)
    requires DotFree(parts) && m <= |parts|
    ensures DotFree(parts[..m])
  {
    forall p | p in parts[..m] ensures p in parts {}
  }

  lemma FindParentOfJoin(parts: seq<string>, m: nat)
    requires DotFree(parts) && 1 <= m < |parts| && parts[0] != ""
    ensures FindParentId(Join(parts[..m + 1])) == Some(Join(parts[..m]))
  {
    hide Join, Split, DotFree;
    DotFreeFront(parts, m + 1);
    SplitJoin(parts[..m + 1]);
    DotSplits(Join(parts[..m + 1]));
    assert parts[..m + 1][..m] == parts[..m];
    JoinHead(parts[..m]);
  }

  lemma PrefixStep(id: string, m: nat)
    requires IsPlausible(id) && 1 <= m < |Split(id)|
    ensures FindParentId(Prefix(id, m + 1)) == Some(Prefix(id, m))
  {
    hide IsPlausible, Split, Join, FindParentId, DotFree;
    FirstPartFilled(id);
    SplitDotFree(id);
    FindParentOfJoin(Split(id), m);
  }

  // ---------- nodes ----------

  /** Positions of the headings' parents, as far as they are headings themselves. */
  function ParentAt(ids: seq<string>, i: nat): (r: Option<nat>)
    requires i < |ids|
    ensures r.Some? ==> r.value < |ids| && FindParentId(ids[i]) == Some(ids[r.value])
    ensures r.None? ==> FindParentId(ids[i]).None? || FindParentId(ids[i]).value !in ids
  {
    var p := FindParentId(ids[i]);
    if p.None? then None else Find(ids, p.value)
  }

  function Find(ids: seq<string>, id: string): (r: Option<nat>)
    ensures r.Some? ==> r.value < |ids| && ids[r.value] == id
    ensures r.None? ==> id !in ids
  {
    if ids == [] then None
    else
      var n := |ids| - 1;
      assert ids == ids[..n] + [ids[n]];
      if ids[n] == id then Some(n) else Find(ids[..n], id)
  }

  function ParentLinks(ids: seq<string>): (r: Links)
    ensures |r| == |ids|
  {
    seq(|ids|, i requires 0 <= i < |ids| => ParentAt(ids, i))
  }

  function Levels(ids: seq<string>): seq<nat> {
    seq(|ids|, i requires 0 <= i < |ids| => |Split(ids[i])|)
  }

  lemma HeadingsFormForest(ids: seq<string>)
    requires forall id :: id in ids ==> IsPlausible(id)
    ensures IsForest(ParentLinks(ids), Levels(ids)) && Bounded(Levels(ids), 6)
  {
    forall i: nat | i < |ids| ensures |Split(ids[i])| <= 5 &&
      (ParentAt(ids, i).Some? ==> |Split(ids[ParentAt(ids, i).value])| < |Split(ids[i])|)
    {
      assert ids[i] in ids;
      ParentIsImmediatePrefix(ids[i]);
    }
  }

  /** Every heading is a root or the child of one other heading, and walking down meets each exactly once. */
  lemma HeadingsVisitedOnce(r: Recogniser, lines: seq<Line>)
    ensures var ids := Ids(Scanned(r, lines).headings);
            && IsForest(ParentLinks(ids), Levels(ids)) && Bounded(Levels(ids), 6)
            && VisitsEachOnce(ParentLinks(ids), Levels(ids), 6)
  {
    ScannedOk(r, lines);
    hide IsPlausible, Scanned, ParentLinks, Levels;
    var s := Scanned(r, lines);
    var ids := Ids(s.headings);
    forall id | id in ids ensures IsPlausible(id) {
      var i :| 0 <= i < |ids| && ids[i] == id;
      assert s.headings[i].id == id;
    }
    HeadingsFormForest(ids);
    WalkVisitsEachOnce(ParentLinks(ids), Levels(ids), 6);
  }

  /** Text, parent id and children of one node. */
  ghost predicate NodeOk(lines: seq<Line>, headings: seq<Heading>, at: seq<nat>, i: nat, node: ChapterNode)
    requires Rising(lines, at) && i < |at| == |headings|
  {
    && node.heading == headings[i]
    && node.text == Strip(JoinLines(TextOf(Take(Body(lines, at, i), MAX_BODY_LINES))))
    && node.parent == FindParentId(headings[i].id)
    && node.children == Below(ParentLinks(Ids(headings)), Some(i), |headings|)
  }

  method MakeNodes(lines: seq<Line>, headings: seq<Heading>, at: seq<nat>) returns (nodes: seq<ChapterNode>)
    requires |headings| == |at| && Rising(lines, at)
    ensures |nodes| == |headings|
    ensures forall i :: 0 <= i < |nodes| ==>
              nodes[i] == ChapterNode(headings[i], Strip(JoinLines(TextOf(Take(Body(lines, at, i), MAX_BODY_LINES)))),
                                      FindParentId(headings[i].id), [])
  {
    hide Strip, JoinLines, TextOf, FindParentId;
    nodes := [];
    for i := 0 to |headings|
      invariant |nodes| == i
      invariant forall j :: 0 <= j < i ==>
                  nodes[j] == ChapterNode(headings[j],
                                          Strip(JoinLines(TextOf(Take(Body(lines, at, j), MAX_BODY_LINES)))),
                                          FindParentId(headings[j].id), [])
    {
      var start, end := at[i] + 1, if i + 1 < |at| then at[i + 1] else |lines|;
      var body := lines[start..end];
      assert body == Body(lines, at, i);
      nodes := nodes + [ChapterNode(headings[i], Strip(JoinLines(TextOf(Take(body, MAX_BODY_LINES)))),
                                    FindParentId(headings[i].id), [])];
    }
  }

  /** Hang each node under the node its parent id names, or make it a root. */
  method HangNodes(bare: seq<ChapterNode>, ids: seq<string>) returns (nodes: seq<ChapterNode>, roots: seq<nat>)
    requires |bare| == |ids| && forall i :: 0 <= i < |bare| ==> bare[i].children == []
    ensures |nodes| == |bare|
    ensures forall i :: 0 <= i < |bare| ==> nodes[i] == bare[i].(children := Below(ParentLinks(ids), Some(i), |ids|))
    ensures roots == Below(ParentLinks(ids), None, |ids|)
  {
    hide ParentAt, Below;
    var links := ParentLinks(ids);
    nodes, roots := bare, [];
    BelowStart(links);
    for k := 0 to |ids|
      invariant |nodes| == |bare|
      invariant forall i :: 0 <= i < |bare| ==> nodes[i] == bare[i].(children := Below(links, Some(i), k))
      invariant roots == Below(links, None, k)
    {
      BelowNext(links, k);
      var parent := ParentAt(ids, k);
      assert links[k] == parent;
      if parent.Some? {
        var j := parent.value;
        nodes := nodes[j := nodes[j].(children := nodes[j].children + [k])];
      } else {
        roots := roots + [k];
      }
    }
  }

  function MaxDepth(hs: seq<Heading>): (d: nat)
    ensures forall h :: h in hs ==> h.depth <= d
    ensures hs != [] ==> exists h :: h in hs && h.depth == d
  {
    if hs == [] then 0
    else
      var n := |hs| - 1;
      assert hs == hs[..n] + [hs[n]];
      var d := MaxDepth(hs[..n]);
      if n == 0 || hs[n].depth > d then hs[n].depth else d
  }

  function Fallback(page: Page): ChapterNode {
    var lines := TextOf(PageLines(page.pageNo, page.lines));
    ChapterNode(Heading(PageId(page.pageNo), Take(if lines != [] then lines[0] else "Page " + Int(page.pageNo),
                                                  MAX_FALLBACK_TITLE),
                        page.pageNo, 1, 1),
                JoinLines(Take(lines, MAX_FALLBACK_LINES)), None, [])
  }

  function Int(n: int): string {
    if n < 0 then "-" + Decimal(-n) else Decimal(n)
  }

  function PageId(pageNo: int): string {
    "page." + Int(pageNo)
  }

  /** A document without headings becomes one root per page. */
  ghost predicate IsFallback(pages: seq<Page>, tree: ChapterTree) {
    && |tree.nodes| == |pages| && tree.maxDepth == 1
    && (forall i :: 0 <= i < |pages| ==> tree.nodes[i] == Fallback(pages[i]))
    && tree.roots == seq(|pages|, i => i)
  }

  method BuildChapterTree(r: Recogniser, pages: seq<Page>) returns (tree: ChapterTree)
    ensures var s := Scanned(r, AllLines(pages));
            && ScanOk(r, AllLines(pages), s)
            && (s.headings == [] ==> IsFallback(pages, tree))
            && (s.headings != [] ==>
                  && |tree.nodes| == |s.headings|
                  && (forall i :: 0 <= i < |s.headings| ==> NodeOk(AllLines(pages), s.headings, s.at, i, tree.nodes[i]))
                  && tree.roots == Below(ParentLinks(Ids(s.headings)), None, |s.headings|)
                  && (exists h :: h in s.headings && h.depth == tree.maxDepth)
                  && (forall h :: h in s.headings ==> h.depth <= tree.maxDepth))
  {
    hide Scanned, AllLines, ParentLinks, Fallback, IsPlausible, Split, FindParentId, Strip, JoinLines, TextOf;
    var lines := AllLines(pages);
    var headings, at := ScanHeadings(r, lines);
    if headings == [] {
      var nodes := seq(|pages|, i requires 0 <= i < |pages| => Fallback(pages[i]));
      return ChapterTree(nodes, seq(|pages|, i => i), 1);
    }
    var bare := MakeNodes(lines, headings, at);
    var nodes, roots := HangNodes(bare, Ids(headings));
    tree := ChapterTree(nodes, roots, MaxDepth(headings));
  }
}
