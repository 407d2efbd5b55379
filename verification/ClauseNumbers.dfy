/** How section numbers are read: the same id for all its spellings, and a made-up id for what is no clause number. */
module ClauseNumbers {
  import opened Lists
  import opened Text
  import opened ClauseIds

  /** The character `c` of an id may be written `w`: full-width signs stand for dots. */
  ghost predicate WrittenAs(c: char, w: char) {
    w == c || (c == '.' && (w == '\U{FF0E}' || w == '\U{3002}'))
  }

  /** The text writes the id, with blanks anywhere. */
  ghost predicate Spells(text: string, id: string) {
    if text == "" then id == ""
    else if IsSpace(text[0]) then Spells(text[1..], id)
    else id != "" && WrittenAs(id[0], text[0]) && Spells(text[1..], id[1..])
  }

  function Plain(s: string): string {
    DropSpaces(Translate(s))
  }

  lemma PlainHead(s: string)
    requires s != ""
    ensures Plain(s) == (if IsSpace(s[0]) then "" else [Halfwidth(s[0])]) + Plain(s[1..])
  {
    assert Translate(s)[1..] == Translate(s[1..]);
    assert IsSpace(Halfwidth(s[0])) <==> IsSpace(s[0]);
  }

  lemma EmptyIsPlain()
    ensures Plain("") == ""
  {
  }

  lemma {:induction false} PlainConcat(a: string, b: string)
    ensures Plain(a + b) == Plain(a) + Plain(b)
  {
    EmptyIsPlain();
    hide Plain, IsSpace, Halfwidth;
    if a == "" {
      assert a + b == b;
    } else {
      PlainConcat(a[1..], b);
      assert (a + b)[1..] == a[1..] + b;
      PlainHead(a);
      PlainHead(a + b);
    }
  }

  lemma {:induction false} PlainOfSpaces(s: string)
    requires forall c :: c in s ==> IsSpace(c)
    ensures Plain(s) == ""
  {
    if s != "" {
      assert s[0] in s;
      PlainOfSpaces(s[1..]);
      PlainHead(s);
    }
  }

  lemma OnlySpaces(s: string, i: nat, j: nat)
    requires i <= j <= |s| && forall k :: 0 <= k < i || j <= k < |s| ==> IsSpace(s[k])
    ensures forall c :: c in s[..i] || c in s[j..] ==> IsSpace(c)
  {
    hide IsSpace;
    forall c | c in s[j..] ensures IsSpace(c) {
      var k :| 0 <= k < |s| - j && s[j..][k] == c;
      assert s[j + k] == c;
    }
  }

  lemma PlainOfStrip(s: string)
    ensures Plain(Strip(s)) == Plain(s)
  {
    hide Plain, Strip, IsSpace;
    var i, j := StripMeans(s);
    OnlySpaces(s, i, j);
    assert s == s[..i] + (s[i..j] + s[j..]);
    PlainConcat(s[..i], s[i..j] + s[j..]);
    PlainConcat(s[i..j], s[j..]);
    PlainOfSpaces(s[..i]);
    PlainOfSpaces(s[j..]);
  }

  lemma {:induction false} PlainOfSpelling(text: string, id: string)
    requires Spells(text, id) && IdText(id)
    ensures Plain(text) == id
  {
    if text != "" {
      PlainHead(text);
      if IsSpace(text[0]) {
        PlainOfSpelling(text[1..], id);
      } else {
        assert id[0] in id && id == [id[0]] + id[1..];
        PlainOfSpelling(text[1..], id[1..]);
        assert Halfwidth(text[0]) == id[0];
      }
    }
  }

  /** Whatever the spelling of a recognised id, and with a colon behind it or not, the section gets that id. */
  lemma EverySpellingIsRead(text: string, id: string, colon: string, index: nat)
    requires Spells(text, id) && Recognised(id) && (colon == "" || colon == ":" || colon == "\U{FF1A}")
    ensures NormalizeClauseId(text + colon, index) == id
  {
    RecognisedText(id);
    EndsOfText(id);
    PlainOfSpelling(text, id);
    PlainConcat(text, colon);
    PlainOfStrip(text + colon);
    PlainOfColon(colon);
    hide Recognised, Strip, Translate, DropSpaces, IdText, Trimmed, Spells;
    var plain := Plain(text + colon);
    assert plain == if colon == "" then id else id + ":";
    assert DropColon(plain) == id;
    EmptyIsPlain();
  }

  lemma PlainOfColon(colon: string)
    requires colon == "" || colon == ":" || colon == "\U{FF1A}"
    ensures Plain(colon) == if colon == "" then "" else ":"
  {
    if colon != "" {
      PlainHead(colon);
      assert colon[1..] == "";
    }
  }

  lemma {:induction false} NothingLeft(text: string)
    requires forall c :: c in text ==> IsSpace(c)
    ensures StripLeft(text) == ""
  {
    if text != "" {
      assert text[0] in text;
      NothingLeft(text[1..]);
    }
  }

  /** A blank section number is named by its place in the document. */
  lemma BlankIsNumbered(text: string, index: nat)
    requires forall c :: c in text ==> IsSpace(c)
    ensures NormalizeClauseId(text, index) == "auto." + Decimal(index)
  {
    NothingLeft(text);
  }

  /** The place is written in decimal, without leading zeros. */
  lemma {:induction false} DecimalReads(n: nat)
    ensures Digits(Decimal(n)) && Value(Decimal(n)) == n
    ensures n > 0 ==> Decimal(n)[0] != '0'
  {
    var s := Decimal(n);
    if n < 10 {
      assert s[..0] == "";
    } else {
      DecimalReads(n / 10);
      DecimalReads(n % 10);
      var front := Decimal(n / 10);
      assert s == front + [('0' as int + n % 10) as char];
      assert s[..|s| - 1] == front;
      forall c | c in s ensures IsDigit(c) {
        assert c in front || c == s[|s| - 1];
      }
    }
  }

  // ---------- what is no clause number ----------

  ghost predicate WordChar(c: char) {
    '0' <= c <= '9' || 'A' <= c <= 'Z' || 'a' <= c <= 'z'
  }

  ghost predicate Word(w: string) {
    w != "" && forall c :: c in w ==> WordChar(c)
  }

  ghost predicate Gap(g: string) {
    forall c :: c in g ==> !WordChar(c)
  }

  /** Words with something else before, between and behind them; between two words there is something. */
  ghost predicate Apart(words: seq<string>, gaps: seq<string>) {
    && |gaps| == |words| + 1
    && (forall i :: 0 <= i < |words| ==> Word(words[i])) && (forall i :: 0 <= i < |gaps| ==> Gap(gaps[i]))
    && forall i :: 0 < i < |words| ==> gaps[i] != ""
  }

  ghost function Spaced(words: seq<string>, gaps: seq<string>): string
    requires |gaps| == |words| + 1
  {
    if words == [] then gaps[0] else gaps[0] + words[0] + Spaced(words[1..], gaps[1..])
  }

  ghost function Small(w: string): (r: string)
    ensures |r| == |w|
    ensures forall i :: 0 <= i < |w| ==>
              if 'A' <= w[i] <= 'Z' then r[i] as int == w[i] as int - 'A' as int + 'a' as int else r[i] == w[i]
  {
    seq(|w|, i requires 0 <= i < |w| => if 'A' <= w[i] <= 'Z' then (w[i] as int - 65 + 97) as char else w[i])
  }

  /** The words in small letters, joined by dashes. */
  ghost function Hyphenated(words: seq<string>): string {
    if words == [] then "" else if |words| == 1 then Small(words[0]) else Small(words[0]) + "-" + Hyphenated(words[1..])
  }

  lemma {:induction false} DashedGap(g: string, rest: string, open: bool)
    requires Gap(g)
    ensures Dashed(g + rest, open) == (if open && g != "" then "-" else "") + Dashed(rest, open && g == "")
  {
    if g == "" {
      assert g + rest == rest;
    } else {
      assert (g + rest)[1..] == g[1..] + rest;
      assert g[0] in g && forall c :: c in g[1..] ==> c in g;
      DashedGap(g[1..], rest, false);
    }
  }

  lemma DashedChar(c: char, rest: string, open: bool)
    requires WordChar(c)
    ensures Dashed([c] + rest, open) == [Lower(c)] + Dashed(rest, true)
  {
    assert ([c] + rest)[1..] == rest;
  }

  lemma SmallHead(w: string)
    requires w != ""
    ensures Small(w) == [Lower(w[0])] + Small(w[1..])
  {
  }

  lemma WordNext(w: string)
    requires Word(w)
    ensures w != "" && WordChar(w[0]) && (|w| > 1 ==> Word(w[1..]))
  {
    hide WordChar;
    assert w[0] in w;
  }

  lemma {:induction false} DashedWord(w: string, rest: string, open: bool)
    requires Word(w)
    ensures Dashed(w + rest, open) == Small(w) + Dashed(rest, true)
  {
    hide Dashed, Small, WordChar, Word;
    WordNext(w);
    SmallHead(w);
    DashedChar(w[0], w[1..] + rest, open);
    assert w + rest == [w[0]] + (w[1..] + rest);
    if |w| == 1 {
      assert w[1..] + rest == rest && Small(w[1..]) == "";
    } else {
      DashedWord(w[1..], rest, true);
      var dashed := Dashed(rest, true);
      assert ([Lower(w[0])] + Small(w[1..])) + dashed == [Lower(w[0])] + (Small(w[1..]) + dashed);
    }
  }

  /** The trailing gap leaves a dash. */
  ghost function Trail(gaps: seq<string>): string
    requires gaps != []
  {
    if gaps[|gaps| - 1] == "" then "" else "-"
  }

  /** What the dashes and words of `Spaced(words, gaps)` are. */
  ghost function Expected(words: seq<string>, gaps: seq<string>, open: bool): string
    requires gaps != []
  {
    (if open && gaps[0] != "" then "-" else "") + if words == [] then "" else Hyphenated(words) + Trail(gaps)
  }

  lemma ExpectedNext(words: seq<string>, gaps: seq<string>, open: bool)
    requires words != [] && Apart(words, gaps)
    ensures Expected(words, gaps, open) ==
            (if open && gaps[0] != "" then "-" else "") + (Small(words[0]) + Expected(words[1..], gaps[1..], true))
  {
    hide Small, Word, Gap;
    var lead := if open && gaps[0] != "" then "-" else "";
    if |words| == 1 {
      assert Expected(words[1..], gaps[1..], true) == Trail(gaps);
    } else {
      var more := Hyphenated(words[1..]);
      assert gaps[1] != "" && Trail(gaps[1..]) == Trail(gaps);
      assert (Small(words[0]) + "-" + more) + Trail(gaps) == Small(words[0]) + ("-" + (more + Trail(gaps)));
    }
  }

  lemma ApartNext(words: seq<string>, gaps: seq<string>)
    requires words != [] && Apart(words, gaps)
    ensures Apart(words[1..], gaps[1..]) && Word(words[0]) && Gap(gaps[0])
  {
    hide Word, Gap;
  }

  lemma {:induction false} DashedSpaced(words: seq<string>, gaps: seq<string>, open: bool)
    requires Apart(words, gaps)
    ensures Dashed(Spaced(words, gaps), open) == Expected(words, gaps, open)
  {
    hide Dashed, Word, Gap, Small;
    if words == [] {
      DashedGap(gaps[0], "", open);
      assert gaps[0] + "" == gaps[0];
      NothingDashed();
    } else {
      ApartNext(words, gaps);
      ExpectedNext(words, gaps, open);
      hide Expected, Apart;
      var rest := Spaced(words[1..], gaps[1..]);
      assert gaps[0] + words[0] + rest == gaps[0] + (words[0] + rest);
      DashedGap(gaps[0], words[0] + rest, open);
      DashedWord(words[0], rest, open && gaps[0] == "");
      DashedSpaced(words[1..], gaps[1..], true);
    }
  }

  lemma NothingDashed()
    ensures Dashed("", true) == "" && Dashed("", false) == ""
  {
  }

  lemma {:induction false} NoDashAtEnd(words: seq<string>)
    requires words != [] && forall i :: 0 <= i < |words| ==> Word(words[i])
    ensures Hyphenated(words) != "" && Hyphenated(words)[|Hyphenated(words)| - 1] != '-'
  {
    if |words| == 1 {
      var w := words[0];
      assert w[|w| - 1] in w;
    } else {
      NoDashAtEnd(words[1..]);
    }
  }

  lemma DashDropped(s: string, trail: string)
    requires s != "" && s[|s| - 1] != '-' && (trail == "" || trail == "-")
    ensures DropLastDash(s + trail) == s
  {
    if trail == "" { assert s + trail == s; }
  }

  /** A slug is made of the words of a text in small letters, joined by dashes, or "unknown" if there are none. */
  lemma SlugMeans(words: seq<string>, gaps: seq<string>)
    requires Apart(words, gaps)
    ensures Slug(Spaced(words, gaps)) == if words == [] then "unknown" else Hyphenated(words)
  {
    hide Dashed, Spaced, Hyphenated, Word, Gap, DropLastDash;
    DashedSpaced(words, gaps, false);
    if words != [] {
      NoDashAtEnd(words);
      DashDropped(Hyphenated(words), Trail(gaps));
      assert "" + (Hyphenated(words) + Trail(gaps)) == Hyphenated(words) + Trail(gaps);
    } else {
      NothingDropped();
    }
  }

  lemma NothingDropped()
    ensures DropLastDash("" + "") == ""
  {
  }

  /** A section number of no recognised shape is named after its words and its place. */
  lemma OtherIsNamed(text: string, index: nat, words: seq<string>, gaps: seq<string>)
    requires Plain(text) != "" && !Recognised(DropColon(Plain(text)))
    requires Apart(words, gaps) && DropColon(Plain(text)) == Spaced(words, gaps)
    ensures NormalizeClauseId(text, index) ==
            "id." + (if words == [] then "unknown" else Hyphenated(words)) + "." + Decimal(index)
  {
    hide Strip, Recognised, Slug, Decimal, DropSpaces, Translate, Spaced, Hyphenated, Apart;
    SlugMeans(words, gaps);
    PlainOfStrip(text);
    EmptyIsPlain();
  }
}
