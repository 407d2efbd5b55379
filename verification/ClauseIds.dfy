/** Clause identifiers of a norm: how a section number becomes an id, how deep it lies, which ids are its prefixes. */
module ClauseIds {
  import opened Lists
  import opened Text

  // ---------- splitting at dots ----------

  /** `s.split(".")` */
  function Split(s: string): (r: seq<string>)
    ensures r != []
  {
    if s == "" then [""]
    else
      var rest := Split(s[1..]);
      if s[0] == '.' then [""] + rest else [[s[0]] + rest[0]] + rest[1..]
  }

  /** `".".join(parts)` */
  function Join(parts: seq<string>): string {
    if parts == [] then "" else if |parts| == 1 then parts[0] else parts[0] + "." + Join(parts[1..])
  }

  ghost predicate DotFree(parts: seq<string>) {
    forall p :: p in parts ==> '.' !in p
  }

  lemma {:induction false} SplitDotFree(s: string)
    ensures DotFree(Split(s))
  {
    if s != "" {
      SplitDotFree(s[1..]);
    }
  }

  lemma {:induction false} SplitOne(p: string)
    requires '.' !in p
    ensures Split(p) == [p]
  {
    if p != "" {
      SplitOne(p[1..]);
      assert [p[0]] + p[1..] == p;
    }
  }

  lemma {:induction false} SplitDot(p: string, rest: string)
    requires '.' !in p
    ensures Split(p + "." + rest) == [p] + Split(rest)
  {
    var s := p + "." + rest;
    if p == "" {
      assert s[1..] == rest;
    } else {
      SplitDot(p[1..], rest);
      assert s[1..] == p[1..] + "." + rest;
      assert ([p[1..]] + Split(rest))[1..] == Split(rest);
      assert [p[0]] + p[1..] == p;
    }
  }

  /** Splitting undoes joining. */
  lemma {:induction false} SplitJoin(parts: seq<string>)
    requires parts != [] && DotFree(parts)
    ensures Split(Join(parts)) == parts
  {
    assert parts[0] in parts;
    if |parts| == 1 {
      SplitOne(parts[0]);
    } else {
      assert DotFree(parts[1..]) by {
        forall p | p in parts[1..] ensures p in parts {}
      }
      SplitJoin(parts[1..]);
      SplitDot(parts[0], Join(parts[1..]));
    }
  }

  /** Joining undoes splitting. */
  lemma {:induction false} JoinSplit(s: string)
    ensures Join(Split(s)) == s
  {
    if s != "" {
      JoinSplit(s[1..]);
      var rest := Split(s[1..]);
      if s[0] == '.' {
        assert ([""] + rest)[1..] == rest;
        assert "" + "." + s[1..] == s;
      } else {
        var parts := [[s[0]] + rest[0]] + rest[1..];
        assert parts[1..] == rest[1..];
        if |rest| == 1 {
          assert [s[0]] + rest[0] == s;
        } else {
          assert ([s[0]] + rest[0]) + "." + Join(rest[1..]) == [s[0]] + (rest[0] + "." + Join(rest[1..]));
        }
      }
    }
  }

  // ---------- the recognised shapes ----------

  predicate IsDigit(c: char) { '0' <= c <= '9' }

  predicate IsLetter(c: char) { 'A' <= c <= 'Z' || 'a' <= c <= 'z' }

  predicate IsHan(c: char) { '\U{4E00}' <= c <= '\U{9FFF}' }

  const ANNEX_MARK: char := '\U{9644}'
  const APPENDIX_MARK: string := "\U{9644}\U{5F55}"
  const CLAUSE_MARK: char := '\U{7B2C}'
  const CHAPTER: char := '\U{7AE0}'
  const SECTION: char := '\U{8282}'
  const ARTICLE: char := '\U{6761}'
  const PARAGRAPH: char := '\U{6B3E}'

  predicate AllChars(s: string, ok: char -> bool) {
    forall c | c in s :: ok(c)
  }

  predicate Digits(s: string) {
    s != "" && AllChars(s, IsDigit)
  }

  /** The number that digits write. */
  function Value(digits: string): nat
    requires AllChars(digits, IsDigit)
  {
    if digits == "" then 0
    else
      var n := |digits| - 1;
      assert digits[n] in digits;
      assert forall c :: c in digits[..n] ==> c in digits;
      Value(digits[..n]) * 10 + (digits[n] as int - '0' as int)
  }

  predicate AllDigits(parts: seq<string>) {
    forall p | p in parts :: Digits(p)
  }

  /** One to three letters, perhaps behind the annex mark. */
  predicate AnnexHead(p: string) {
    var letters := if p != "" && p[0] == ANNEX_MARK then p[1..] else p;
    1 <= |letters| <= 3 && AllChars(letters, IsLetter)
  }

  predicate IsNumeric(s: string) {
    AllDigits(Split(s))
  }

  predicate IsAnnex(s: string) {
    var parts := Split(s);
    |parts| >= 2 && AnnexHead(parts[0]) && AllDigits(parts[1..])
  }

  predicate IsUnit(c: char) {
    c == CHAPTER || c == SECTION || c == ARTICLE || c == PARAGRAPH
  }

  predicate IsSerialChar(c: char) {
    IsHan(c) || IsDigit(c) || c == '\U{3007}'
  }

  /** A Chinese unit with its serial: the mark, at least one serial character, the unit. */
  predicate IsCnClause(s: string) {
    && |s| >= 3 && s[0] == CLAUSE_MARK && IsUnit(s[|s| - 1])
    && AllChars(s[1..|s| - 1], IsSerialChar)
  }

  predicate IsAppendix(s: string) {
    && 3 <= |s| <= 10 && APPENDIX_MARK <= s
    && AllChars(s[2..], c => IsLetter(c) || IsDigit(c) || IsHan(c))
  }

  predicate Recognised(s: string) {
    IsNumeric(s) || IsAnnex(s) || IsCnClause(s) || IsAppendix(s)
  }

  /** `_parse_cn_clause`: the unit of a Chinese clause id. */
  function CnUnit(s: string): (r: Option<char>)
    ensures r.Some? ==> IsUnit(r.value)
  {
    if IsCnClause(s) then Some(s[|s| - 1]) else None
  }

  function UnitDepth(unit: char): nat {
    if unit == CHAPTER then 1 else if unit == SECTION then 2 else if unit == ARTICLE then 3
    else if unit == PARAGRAPH then 4 else 1
  }

  function Depth(id: string): (d: nat)
    ensures d >= 1
  {
    if IsNumeric(id) then |Split(id)|
    else if IsAnnex(id) then |Split(id)|
    else if IsAppendix(id) then 1
    else if CnUnit(id).Some? then UnitDepth(CnUnit(id).value)
    else 1
  }

  // ---------- normalising a section number ----------

  function Decimal(n: nat): string {
    if n < 10 then [('0' as int + n) as char] else Decimal(n / 10) + Decimal(n % 10)
  }

  function Halfwidth(c: char): char {
    if c == '\U{FF1A}' then ':' else if c == '\U{FF0E}' || c == '\U{3002}' then '.' else if c == '\U{FF0F}' then '/'
    else if c == '\U{FF0D}' then '-' else if c == '\U{FF08}' then '(' else if c == '\U{FF09}' then ')'
    else if c == '\U{3000}' then ' ' else c
  }

  function Translate(s: string): string {
    if s == "" then "" else [Halfwidth(s[0])] + Translate(s[1..])
  }

  function DropSpaces(s: string): string {
    if s == "" then "" else if IsSpace(s[0]) then DropSpaces(s[1..]) else [s[0]] + DropSpaces(s[1..])
  }

  function DropColon(s: string): string {
    if s != "" && s[|s| - 1] == ':' then s[..|s| - 1] else s
  }

  function Lower(c: char): char {
    if 'A' <= c <= 'Z' then (c as int + 32) as char else c
  }

  /** Runs of other characters become one dash. */
  function Dashed(s: string, open: bool): string {
    if s == "" then ""
    else
      var c := Lower(s[0]);
      if IsDigit(c) || 'a' <= c <= 'z' then [c] + Dashed(s[1..], true)
      else if open then "-" + Dashed(s[1..], false)
      else Dashed(s[1..], false)
  }

  function DropLastDash(s: string): string {
    if s != "" && s[|s| - 1] == '-' then s[..|s| - 1] else s
  }

  function Slug(s: string): string {
    var r := DropLastDash(Dashed(s, false));
    if r == "" then "unknown" else r
  }

  /** `_normalize_clause_id`: spaces and a trailing colon go, full-width signs become plain ones. */
  function NormalizeClauseId(sectionNo: string, index: nat): string {
    var text := Strip(sectionNo);
    if text == "" then "auto." + Decimal(index)
    else
      var id := DropColon(DropSpaces(Translate(text)));
      if Recognised(id) then id else "id." + Slug(id) + "." + Decimal(index)
  }

  // ---------- prefixes ----------

  /** The ids that are proper prefixes of `id`, cut at dots: the first `n` parts. */
  function Prefix(id: string, n: nat): string
    requires n <= |Split(id)|
  {
    Join(Split(id)[..n])
  }

  predicate HasPrefixes(id: string) {
    (IsNumeric(id) && |Split(id)| >= 2) || (IsAnnex(id) && |Split(id)| >= 3)
  }

  /** The longest of the prefixes with at most `n` parts that `existing` holds. */
  function LongestPrefix(id: string, n: nat, existing: set<string>): (r: Option<string>)
    requires n < |Split(id)|
    ensures r.Some? ==>
              && r.value in existing
              && (exists k :: 1 <= k <= n && r.value == Prefix(id, k) && forall j :: k < j <= n ==>
                    Prefix(id, j) !in existing)
    ensures r.None? ==> forall k :: 1 <= k <= n ==> Prefix(id, k) !in existing
  {
    if n == 0 then None
    else if Prefix(id, n) in existing then Some(Prefix(id, n))
    else LongestPrefix(id, n - 1, existing)
  }

  /** `_find_numeric_parent` */
  function FindNumericParent(id: string, existing: set<string>): Option<string> {
    if HasPrefixes(id) then LongestPrefix(id, |Split(id)| - 1, existing) else None
  }

  lemma HeadDepth(p: string)
    requires AnnexHead(p) && '.' !in p
    ensures Depth(p) == 1
  {
    SplitOne(p);
    assert p[0] in p;
    assert CnUnit(p).None?;
  }

  /** A prefix lies as deep as it has parts, so every proper prefix lies less deep than the id. */
  lemma PrefixDepth(id: string, k: nat)
    requires HasPrefixes(id) && 1 <= k < |Split(id)|
    ensures Depth(Prefix(id, k)) == k < Depth(id)
  {
    var parts := Split(id);
    SplitDotFree(id);
    assert DotFree(parts[..k]) by {
      forall p | p in parts[..k] ensures p in parts {}
    }
    SplitJoin(parts[..k]);
    if IsNumeric(id) {
      assert AllDigits(parts[..k]) by {
        forall p | p in parts[..k] ensures p in parts {}
      }
    } else {
      assert parts[..k][0] == parts[0];
      if k == 1 {
        assert parts[0] in parts;
        HeadDepth(parts[0]);
        assert Prefix(id, 1) == parts[0];
      } else {
        AnnexPrefix(id, k);
      }
    }
  }

  lemma AnnexPrefix(id: string, k: nat)
    requires IsAnnex(id) && 2 <= k < |Split(id)| && Split(Prefix(id, k)) == Split(id)[..k]
    ensures IsAnnex(Prefix(id, k)) && !IsNumeric(Prefix(id, k))
  {
    var parts := Split(id);
    assert parts[..k][0] == parts[0];
    assert parts[..k][1..] == parts[1..k];
    forall p | p in parts[1..k] ensures Digits(p) {
      assert p in parts[1..];
    }
    HeadNotDigits(parts[0]);
    assert parts[..k][0] in parts[..k];
  }

  lemma HeadNotDigits(p: string)
    requires AnnexHead(p)
    ensures !Digits(p)
  {
    if p[0] != ANNEX_MARK {
      assert p[0] in p;
    } else {
      assert p[0] in p;
    }
  }

  // ---------- recognised ids are fixed points ----------

  ghost predicate IdChar(c: char) {
    IsDigit(c) || IsLetter(c) || IsHan(c) || c == '.' || c == '\U{3007}'
  }

  ghost predicate IdText(s: string) {
    forall c :: c in s ==> IdChar(c)
  }

  lemma {:induction false} SplitCoversText(s: string)
    requires forall p :: p in Split(s) ==> IdText(p)
    ensures IdText(s)
  {
    if s != "" {
      var rest := Split(s[1..]);
      forall p | p in rest ensures IdText(p) {
        if s[0] == '.' {
          assert p in [""] + rest;
        } else if p in rest[1..] {
          assert p in [[s[0]] + rest[0]] + rest[1..];
        } else {
          var head := [s[0]] + rest[0];
          assert head in Split(s);
          forall c | c in rest[0] ensures IdChar(c) { assert c in head; }
        }
      }
      SplitCoversText(s[1..]);
      if s[0] != '.' {
        var head := [s[0]] + rest[0];
        assert head in Split(s) && s[0] in head;
      }
    }
  }

  lemma RecognisedText(s: string)
    requires Recognised(s)
    ensures IdText(s) && s != ""
  {
    if IsNumeric(s) {
      SplitCoversText(s);
      assert Split(s)[0] in Split(s);
    } else if IsAnnex(s) {
      forall p | p in Split(s) ensures IdText(p) {
        if p !in Split(s)[1..] {
          assert p == Split(s)[0];
        }
      }
      SplitCoversText(s);
    } else if IsCnClause(s) {
      forall c | c in s ensures IdChar(c) {
        var k :| 0 <= k < |s| && s[k] == c;
        if 0 < k < |s| - 1 {
          assert s[1..|s| - 1][k - 1] == c;
          assert IsSerialChar(c);
        }
      }
    } else {
      forall c | c in s ensures IdChar(c) {
        var k :| 0 <= k < |s| && s[k] == c;
        if k >= 2 {
          assert s[2..][k - 2] == c;
          assert c in s[2..];
        } else {
          assert APPENDIX_MARK[k] == c;
        }
      }
    }
  }

  lemma {:induction false} TextUntouched(s: string)
    requires IdText(s)
    ensures Translate(s) == s && DropSpaces(s) == s
  {
    if s != "" {
      TextUntouched(s[1..]);
      assert s[0] in s && [s[0]] + s[1..] == s;
    }
  }

  lemma EndsOfText(s: string)
    requires IdText(s) && s != ""
    ensures Trimmed(s) && DropColon(s) == s
  {
    assert s[0] in s && s[|s| - 1] in s;
  }

  /** Normalising an id that is already of a recognised shape changes nothing, wherever it stands. */
  lemma NormalizeRecognised(id: string, index: nat)
    requires Recognised(id)
    ensures NormalizeClauseId(id, index) == id
  {
    RecognisedText(id);
    hide Recognised, Strip, Translate, DropSpaces;
    TextUntouched(id);
    EndsOfText(id);
    hide IdText, Trimmed;
    StripOfTrimmed(id);
  }
}
