/**
 * Which lines open a segment, what text a segment gets, and what stands in for headings where there are none, told by
 * the lines of the pages alone.
 */
module ChapterMeaning {
  import opened Lists
  import opened Text
  import opened ClauseIds
  import opened ClauseShapes
  import opened ChapterTree

  // ---------- lines ----------

  /** Page `p` has the non-blank line `l` at position `n`. */
  ghost predicate HasLine(p: Page, n: nat, l: Line) {
    n < |p.lines| && Strip(p.lines[n]) != "" && l == Line(p.pageNo, n + 1, Strip(p.lines[n]))
  }

  lemma PageLinesNext(p: Page, m: nat, l: Line)
    requires m < |p.lines|
    ensures l in PageLines(p.pageNo, p.lines[..m + 1]) <==>
            l in PageLines(p.pageNo, p.lines[..m]) || HasLine(p, m, l)
  {
    hide Strip;
    assert p.lines[..m + 1][..m] == p.lines[..m];
  }

  lemma {:induction false} PageLinesAre(p: Page, m: nat, l: Line)
    requires m <= |p.lines|
    ensures l in PageLines(p.pageNo, p.lines[..m]) ==> exists n: nat :: n < m && HasLine(p, n, l)
    ensures forall n: nat :: n < m && HasLine(p, n, l) ==> l in PageLines(p.pageNo, p.lines[..m])
  {
    if m > 0 {
      hide HasLine, PageLines;
      PageLinesAre(p, m - 1, l);
      PageLinesNext(p, m - 1, l);
    } else {
      assert p.lines[..0] == [];
    }
  }

  /** Some page has this line. */
  ghost predicate Somewhere(pages: seq<Page>, l: Line) {
    exists i, n: nat :: 0 <= i < |pages| && HasLine(pages[i], n, l)
  }

  lemma SomewhereSnoc(pages: seq<Page>, p: Page, l: Line)
    ensures Somewhere(pages + [p], l) <==> Somewhere(pages, l) || exists n: nat :: HasLine(p, n, l)
  {
    hide HasLine;
    var all := pages + [p];
    if i, n: nat :| 0 <= i < |all| && HasLine(all[i], n, l) {
      if i < |pages| { assert HasLine(pages[i], n, l); }
    }
    if i, n: nat :| 0 <= i < |pages| && HasLine(pages[i], n, l) {
      assert HasLine(all[i], n, l);
    }
    if n: nat :| HasLine(p, n, l) {
      assert HasLine(all[|pages|], n, l);
    }
  }

  lemma HasLineInPage(p: Page, l: Line)
    ensures l in PageLines(p.pageNo, p.lines) <==> exists n: nat :: HasLine(p, n, l)
  {
    assert p.lines[..|p.lines|] == p.lines;
    PageLinesAre(p, |p.lines|, l);
    assert forall n: nat :: HasLine(p, n, l) ==> n < |p.lines|;
    hide HasLine, PageLines;
  }

  /** The lines of a document are the non-blank lines of its pages, trimmed and numbered. */
  lemma {:induction false} LinesAre(pages: seq<Page>, l: Line)
    ensures l in AllLines(pages) <==> Somewhere(pages, l)
  {
    if pages != [] {
      hide HasLine, PageLines, Somewhere;
      var m := |pages| - 1;
      assert pages == pages[..m] + [pages[m]];
      LinesAre(pages[..m], l);
      HasLineInPage(pages[m], l);
      SomewhereSnoc(pages[..m], pages[m], l);
    }
  }

  lemma PageLinesSnoc(p: Page, m: nat)
    requires m < |p.lines|
    ensures PageLines(p.pageNo, p.lines[..m + 1]) ==
            PageLines(p.pageNo, p.lines[..m]) +
            if Strip(p.lines[m]) == "" then [] else [Line(p.pageNo, m + 1, Strip(p.lines[m]))]
  {
    hide Strip;
    assert p.lines[..m + 1][..m] == p.lines[..m];
  }

  lemma {:induction false} PageLinesOrdered(p: Page, m: nat, k: nat, n: nat, a: Line, b: Line)
    requires k < n < m <= |p.lines| && HasLine(p, k, a) && HasLine(p, n, b)
    ensures Before(PageLines(p.pageNo, p.lines[..m]), a, b)
  {
    hide Before, Strip, PageLines;
    PageLinesSnoc(p, m - 1);
    PageLinesAre(p, m - 1, a);
    var front := PageLines(p.pageNo, p.lines[..m - 1]);
    if n < m - 1 {
      PageLinesOrdered(p, m - 1, k, n, a, b);
      if Strip(p.lines[m - 1]) != "" {
        BeforeGrows(front, Line(p.pageNo, m, Strip(p.lines[m - 1])), a, b);
      } else {
        assert front + [] == front;
      }
    } else {
      BeforeGrows(front, b, a, b);
    }
  }

  lemma BeforeConcat(xs: seq<Line>, ys: seq<Line>, a: Line, b: Line)
    requires Before(xs, a, b) || Before(ys, a, b) || (a in xs && b in ys)
    ensures Before(xs + ys, a, b)
  {
    if i, j :| 0 <= i < j < |xs| && xs[i] == a && xs[j] == b {
      assert (xs + ys)[i] == a && (xs + ys)[j] == b;
    } else if i, j :| 0 <= i < j < |ys| && ys[i] == a && ys[j] == b {
      assert (xs + ys)[|xs| + i] == a && (xs + ys)[|xs| + j] == b;
    } else {
      var i :| 0 <= i < |xs| && xs[i] == a;
      var j :| 0 <= j < |ys| && ys[j] == b;
      assert (xs + ys)[i] == a && (xs + ys)[|xs| + j] == b;
    }
  }

  lemma OrderedInLast(front: seq<Page>, last: Page, i: nat, k: nat, n: nat, a: Line, b: Line)
    requires i <= |front| && (i == |front| ==> k < n) && HasLine((front + [last])[i], k, a) && HasLine(last, n, b)
    ensures Before(AllLines(front) + PageLines(last.pageNo, last.lines), a, b)
  {
    HasLineSize(last, n, b);
    hide HasLine, PageLines, Before, AllLines;
    HasLineInPage(last, b);
    if i < |front| {
      assert HasLine(front[i], k, a);
      LinesAre(front, a);
    } else {
      PageLinesOrdered(last, |last.lines|, k, n, a, b);
      assert last.lines[..|last.lines|] == last.lines;
    }
    BeforeConcat(AllLines(front), PageLines(last.pageNo, last.lines), a, b);
  }

  /** They stand page by page, and within a page in the order of the page. */
  lemma {:induction false} LinesOrdered(pages: seq<Page>, i: nat, k: nat, j: nat, n: nat, a: Line, b: Line)
    requires i <= j < |pages| && (i == j ==> k < n) && HasLine(pages[i], k, a) && HasLine(pages[j], n, b)
    ensures Before(AllLines(pages), a, b)
  {
    hide HasLine, PageLines, Before;
    var m := |pages| - 1;
    var front, last := pages[..m], pages[m];
    assert pages == front + [last];
    if j < m {
      LinesOrdered(front, i, k, j, n, a, b);
      BeforeConcat(AllLines(front), PageLines(last.pageNo, last.lines), a, b);
    } else {
      OrderedInLast(front, last, i, k, n, a, b);
    }
  }

  lemma HasLineSize(p: Page, n: nat, l: Line)
    requires HasLine(p, n, l)
    ensures n < |p.lines|
  {
  }

  // ---------- headings ----------

  /** One to five numbers: the first from 1, and alone to 20, the others to 300. */
  ghost predicate PlausibleShape(id: string, parts: seq<string>) {
    && NumberShape(id, parts) && |parts| <= 5
    && (forall i :: 0 <= i < |parts| ==> AllChars(parts[i], IsDigit))
    && Value(parts[0]) >= 1 && (|parts| == 1 ==> Value(parts[0]) <= 20)
    && forall i :: 1 <= i < |parts| ==> Value(parts[i]) <= 300
  }

  lemma PlausibleExactly(id: string)
    ensures IsPlausible(id) <==> PlausibleShape(id, Split(id))
    ensures forall parts :: PlausibleShape(id, parts) ==> parts == Split(id)
  {
    NumericExactly(id);
    NumbersAreDigits(Split(id));
    var parts := Split(id);
    hide Split, Value;
    if IsPlausible(id) {
      forall i | 0 <= i < |parts| ensures AllChars(parts[i], IsDigit) {
        assert parts[i] in parts;
      }
      forall i | 1 <= i < |parts| ensures Value(parts[i]) <= 300 {
        assert parts[1..][i - 1] == parts[i];
      }
    }
    if PlausibleShape(id, parts) {
      assert parts[0] in parts;
      forall p | p in parts[1..] ensures p in parts && AllChars(p, IsDigit) && Value(p) <= 300 {
        var i :| 0 <= i < |parts| - 1 && parts[1..][i] == p;
        assert parts[i + 1] == p;
      }
    }
  }

  /** A word stands somewhere in the text. */
  ghost predicate Occurs(word: string, text: string) {
    exists before: string, after: string :: text == before + word + after
  }

  lemma OccursBehind(text: string, word: string)
    requires text != "" && !(word <= text)
    ensures Occurs(word, text) <==> Occurs(word, text[1..])
  {
    if before: string, after: string :| text[1..] == before + word + after {
      assert text == [text[0]] + text[1..];
      assert text == ([text[0]] + before) + word + after;
    }
    if before: string, after: string :| text == before + word + after {
      assert before == "" ==> text == word + after;
      assert text[1..] == before[1..] + word + after;
    }
  }

  lemma {:induction false} ContainsExactly(text: string, word: string)
    ensures Contains(text, word) <==> Occurs(word, text)
  {
    if word <= text {
      assert text == "" + word + text[|word|..];
    } else if text != "" {
      hide Occurs;
      OccursBehind(text, word);
      ContainsExactly(text[1..], word);
    }
  }

  /** The twelve words of a requirement. */
  ghost predicate RequirementWord(w: string) {
    w in ["\U{5E94}", "\U{4E0D}\U{5F97}", "\U{91C7}\U{7528}", "\U{8FDB}\U{884C}", "\U{7B26}\U{5408}",
          "\U{89C4}\U{5B9A}", "\U{5E94}\U{5F53}", "\U{6BCF}", "\U{81F3}\U{5C11}", "\U{6309}", "\U{4E3A}",
          "\U{4E0E}"]
  }

  /**
   * A single number reads as a list item before a title of ten characters or more, or of six with a requirement word;
   * from ten on before two to six letters, digits, underscores or dashes; and up to six lines below a deeper heading.
   */
  ghost predicate ReadsAsItem(id: string, title: string, above: seq<Heading>, page: int, lineNo: int) {
    AllChars(id, IsDigit) &&
    var compact := DropSpaces(title);
    || |compact| >= 10
    || (|compact| >= 6 && exists w :: RequirementWord(w) && Occurs(w, compact))
    || (Value(id) >= 10 && 2 <= |compact| <= 6 &&
        forall c :: c in compact ==>
          'A' <= c <= 'Z' || 'a' <= c <= 'z' || '0' <= c <= '9' || c == '_' || c == '-')
    || (above != [] &&
        var last := above[|above| - 1];
        last.page == page && last.depth >= 2 && lineNo - last.lineNo <= 6)
  }

  lemma WordsAre(w: string)
    ensures w in REQUIREMENT_WORDS <==> RequirementWord(w)
  {
  }

  lemma OnePart(id: string)
    requires IsPlausible(id) && '.' !in id
    ensures Split(id) == [id] && AllChars(id, IsDigit)
  {
    SplitOne(id);
    assert Split(id)[0] in Split(id);
  }

  lemma DottedIsNoDigit(id: string)
    requires '.' in id
    ensures !AllChars(id, IsDigit)
  {
  }

  lemma ItemExactly(id: string, title: string, above: seq<Heading>, page: int, lineNo: int)
    requires IsPlausible(id)
    ensures IsLikelyListItem(id, title, above, page, lineNo) <==> ReadsAsItem(id, title, above, page, lineNo)
  {
    if '.' in id {
      DottedIsNoDigit(id);
    } else {
      OnePart(id);
      var compact := DropSpaces(title);
      forall w ensures w in REQUIREMENT_WORDS && Contains(compact, w) <==> RequirementWord(w) && Occurs(w, compact) {
        WordsAre(w);
        ContainsExactly(compact, w);
      }
      hide IsPlausible, Split, Contains, Occurs, RequirementWord, DropSpaces, Value, REQUIREMENT_WORDS;
      assert AllChars(compact, IsCodeChar) <==> forall c :: c in compact ==>
        'A' <= c <= 'Z' || 'a' <= c <= 'z' || '0' <= c <= '9' || c == '_' || c == '-';
    }
  }

  /** The line opens a segment, given the headings above it: it reads as a numbered heading with a new id. */
  ghost predicate Opens(r: Recogniser, line: Line, above: seq<Heading>, h: Heading) {
    && !r.noisePage(line.page)
    && r.matchHeading(line.text) == Some((h.id, h.title))
    && (exists parts :: PlausibleShape(h.id, parts) && h.depth == |parts|)
    && !r.noisyTitle(h.title) && !ReadsAsItem(h.id, h.title, above, line.page, line.lineNo)
    && (forall g :: g in above ==> g.id != h.id)
    && h.page == line.page && h.lineNo == line.lineNo
  }

  lemma NewId(above: seq<Heading>, id: string)
    ensures id in Ids(above) <==> exists g :: g in above && g.id == id
  {
    if id in Ids(above) {
      var i :| 0 <= i < |above| && Ids(above)[i] == id;
      assert above[i] in above;
    }
    if g :| g in above && g.id == id {
      var i :| 0 <= i < |above| && above[i] == g;
      assert Ids(above)[i] == id;
    }
  }

  lemma OpensExactly(r: Recogniser, line: Line, above: seq<Heading>, h: Heading)
    ensures Opens(r, line, above, h) <==> HeadingOf(r, line, above) == Some(h) && h.id !in Ids(above)
  {
    NewId(above, h.id);
    PlausibleExactly(h.id);
    if IsPlausible(h.id) {
      ItemExactly(h.id, h.title, above, line.page, line.lineNo);
      assert PlausibleShape(h.id, Split(h.id));
    }
    hide PlausibleShape, IsPlausible, Split, ReadsAsItem, IsLikelyListItem, Ids;
    if Opens(r, line, above, h) {
      var parts :| PlausibleShape(h.id, parts) && h.depth == |parts|;
      assert HeadingOf(r, line, above) == Some(h);
    }
    if HeadingOf(r, line, above) == Some(h) {
      var m := r.matchHeading(line.text);
      assert m.value.0 == h.id && m.value.1 == h.title;
      assert m == Some((h.id, h.title));
    }
  }

  /** The segments opened on a list of lines: `at` are all the positions that open one, given those before. */
  ghost predicate OpensAll(r: Recogniser, lines: seq<Line>, s: Scan) {
    && |s.headings| == |s.at|
    && (forall i :: 0 <= i < |s.at| ==>
          s.at[i] < |lines| && Opens(r, lines[s.at[i]], s.headings[..i], s.headings[i]))
    && forall i, k: nat, h :: Between(s.at, i, k, |lines|) ==> !Opens(r, lines[k], s.headings[..i], h)
  }

  /** The line `k` lies between the opening lines `i - 1` and `i`. */
  ghost predicate Between(at: seq<nat>, i: int, k: nat, n: nat) {
    0 <= i <= |at| && k < n && (i > 0 ==> at[i - 1] < k) && (i < |at| ==> k < at[i])
  }

  lemma OpensNext(r: Recogniser, lines: seq<Line>, line: Line, s: Scan, h: Heading)
    requires ScanOk(r, lines, s) && OpensAll(r, lines, s) && Opens(r, line, s.headings, h)
    ensures OpensAll(r, lines + [line], Scan(s.headings + [h], s.at + [|lines|]))
  {
    hide Opens;
    var all, t := lines + [line], Scan(s.headings + [h], s.at + [|lines|]);
    forall i | 0 <= i < |t.at| ensures t.at[i] < |all| && Opens(r, all[t.at[i]], t.headings[..i], t.headings[i]) {
      if i < |s.at| {
        assert t.headings[..i] == s.headings[..i];
      } else {
        assert t.headings[..i] == s.headings;
      }
    }
    forall i, k: nat, g | Between(t.at, i, k, |all|) ensures !Opens(r, all[k], t.headings[..i], g) {
      assert i <= |s.at| && k < |lines|;
      assert Between(s.at, i, k, |lines|);
      assert t.headings[..i] == s.headings[..i];
    }
  }

  lemma OpensNothing(r: Recogniser, lines: seq<Line>, line: Line, s: Scan)
    requires ScanOk(r, lines, s) && OpensAll(r, lines, s) && forall h :: !Opens(r, line, s.headings, h)
    ensures OpensAll(r, lines + [line], s)
  {
    hide Opens;
    var all := lines + [line];
    forall i, k: nat, g | Between(s.at, i, k, |all|) ensures !Opens(r, all[k], s.headings[..i], g) {
      if k < |lines| {
        assert Between(s.at, i, k, |lines|);
      } else {
        assert s.headings[..i] == s.headings;
      }
    }
  }

  /** Exactly the lines that open a segment are headings, whatever the document. */
  lemma {:induction false} HeadingsExactly(r: Recogniser, lines: seq<Line>)
    ensures OpensAll(r, lines, Scanned(r, lines))
  {
    hide OpensAll, HeadingOf, Opens, ScanOk;
    if lines == [] {
      NothingOpens(r);
    } else {
      var front, line := lines[..|lines| - 1], lines[|lines| - 1];
      var s := Scanned(r, front);
      assert lines == front + [line];
      HeadingsExactly(r, front);
      ScannedOk(r, front);
      forall h ensures Opens(r, line, s.headings, h) <==>
          HeadingOf(r, line, s.headings) == Some(h) && h.id !in Ids(s.headings) {
        OpensExactly(r, line, s.headings, h);
      }
      var h := HeadingOf(r, line, s.headings);
      if h.Some? && h.value.id !in Ids(s.headings) {
        OpensNext(r, front, line, s, h.value);
      } else {
        OpensNothing(r, front, line, s);
      }
    }
  }

  lemma NothingOpens(r: Recogniser)
    ensures OpensAll(r, [], Scan([], []))
  {
  }

  // ---------- the text of a segment ----------

  /** At most 120 of the lines behind an opening line, up to the next one. */
  ghost predicate BodyTexts(lines: seq<Line>, at: seq<nat>, i: nat, texts: seq<string>)
    requires Rising(lines, at) && i < |at|
  {
    var end := if i + 1 < |at| then at[i + 1] else |lines|;
    && |texts| == (if end - at[i] - 1 <= 120 then end - at[i] - 1 else 120)
    && forall j :: 0 <= j < |texts| ==> at[i] + 1 + j < |lines| && texts[j] == lines[at[i] + 1 + j].text
  }

  /** The texts, one under the other. */
  ghost predicate Stacked(texts: seq<string>, s: string) {
    if texts == [] then s == ""
    else if |texts| == 1 then s == texts[0]
    else exists front: string ::
      Stacked(texts[..|texts| - 1], front) && s == front + "\n" + texts[|texts| - 1]
  }

  lemma {:induction false} JoinLinesSnoc(texts: seq<string>, x: string)
    requires texts != []
    ensures JoinLines(texts + [x]) == JoinLines(texts) + "\n" + x
  {
    assert (texts + [x])[1..] == texts[1..] + [x];
    if |texts| > 1 {
      JoinLinesSnoc(texts[1..], x);
    }
  }

  lemma {:induction false} JoinLinesStacks(texts: seq<string>)
    ensures Stacked(texts, JoinLines(texts))
  {
    if |texts| >= 2 {
      var n := |texts| - 1;
      assert texts == texts[..n] + [texts[n]];
      JoinLinesStacks(texts[..n]);
      JoinLinesSnoc(texts[..n], texts[n]);
    }
  }

  /** A node's text is made of the lines of its segment, cut to 120, one under the other and trimmed. */
  lemma NodeTextMeans(lines: seq<Line>, headings: seq<Heading>, at: seq<nat>, i: nat, node: ChapterNode)
    requires Rising(lines, at) && i < |at| == |headings| && NodeOk(lines, headings, at, i, node)
    ensures exists texts, whole ::
              BodyTexts(lines, at, i, texts) && Stacked(texts, whole) && node.text == Strip(whole)
  {
    var texts := TextOf(Take(Body(lines, at, i), MAX_BODY_LINES));
    JoinLinesStacks(texts);
    hide Stacked, JoinLines, Strip;
    assert BodyTexts(lines, at, i, texts);
  }

  // ---------- pages instead of headings ----------

  /** A page as a node: its first line or its number cut to 80 characters, and its first 60 lines. */
  lemma FallbackMeans(p: Page)
    ensures var node := Fallback(p); var texts := TextOf(PageLines(p.pageNo, p.lines));
            && node.heading.id == "page." + Int(p.pageNo) && node.heading.page == p.pageNo
            && node.heading.lineNo == 1 && node.heading.depth == 1 && node.parent == None && node.children == []
            && (var name := if texts == [] then "Page " + Int(p.pageNo) else texts[0];
                node.heading.title == if |name| <= 80 then name else name[..80])
            && Stacked(if |texts| <= 60 then texts else texts[..60], node.text)
  {
    var texts := TextOf(PageLines(p.pageNo, p.lines));
    JoinLinesStacks(if |texts| <= 60 then texts else texts[..60]);
    hide Stacked, JoinLines, PageLines, Int;
  }
}
