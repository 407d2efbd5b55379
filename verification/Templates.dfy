/** Looking up stored templates for a translation task, and choosing what to do with the best of them. */
module Templates {
  import opened Lists
  import S = Sorting
  import Text

  datatype Template = Template(id: string, norm: string, clause: string, category: string, workItem: string,
                               measured: string, uses: int)

  datatype Query = Query(norm: string, clause: string, category: string, workItem: string, measured: string)

  datatype Match = Match(template: Template, score: real)

  datatype Action = DirectUse | BasedGenerate | Ignore

  datatype Strategy = Auto | Always(action: Action)

  datatype Choice = Choice(action: Action, id: string)

  // ---------- matching ----------

  /** Texts are compared in lower case without blanks, dashes, underscores and slashes. */
  function Key(text: string, lower: string -> string): string {
    Filter(lower(text), c => !Text.IsSpace(c) && c !in "-_/")
  }

  ghost predicate Ignored(c: char) {
    Text.IsSpace(c) || c == '-' || c == '_' || c == '/'
  }

  lemma {:induction false} KeptTwice(s: string, t: string)
    ensures Filter(s + t, c => !Text.IsSpace(c) && c !in "-_/") ==
            Filter(s, c => !Text.IsSpace(c) && c !in "-_/") + Filter(t, c => !Text.IsSpace(c) && c !in "-_/")
  {
    if t == "" {
      assert s + t == s;
    } else {
      assert (s + t)[..|s + t| - 1] == s + t[..|t| - 1];
      KeptTwice(s, t[..|t| - 1]);
    }
  }

  /** One ignored character more or less, wherever it stands, leaves the key as it is. */
  lemma KeyIgnores(text: string, other: string, lower: string -> string, u: string, c: char, v: string)
    requires lower(text) == u + [c] + v && lower(other) == u + v && Ignored(c)
    ensures Key(text, lower) == Key(other, lower)
  {
    KeptTwice(u + [c], v);
    KeptTwice(u, [c]);
    KeptTwice(u, v);
    assert [c][..0] == "";
  }

  /** A text without ignored characters is its own key, in lower case. */
  lemma KeyKeeps(text: string, lower: string -> string)
    requires forall c :: c in lower(text) ==> !Ignored(c)
    ensures Key(text, lower) == lower(text)
  {
    FilterAll(lower(text), c => !Text.IsSpace(c) && c !in "-_/");
  }

  predicate Same(a: string, b: string, lower: string -> string) {
    Key(a, lower) != "" && Key(a, lower) == Key(b, lower)
  }

  predicate FullMatch(q: Query, t: Template, lower: string -> string) {
    Same(q.norm, t.norm, lower) && Same(q.clause, t.clause, lower) && Same(q.measured, t.measured, lower)
  }

  predicate WorkMatch(q: Query, t: Template, lower: string -> string) {
    Same(q.category, t.category, lower) && Same(q.workItem, t.workItem, lower) && Same(q.measured, t.measured, lower)
  }

  predicate NormMatch(q: Query, t: Template, lower: string -> string) {
    Same(q.norm, t.norm, lower) && Same(q.measured, t.measured, lower)
  }

  function Score(q: Query, t: Template, lower: string -> string): real {
    if FullMatch(q, t, lower) then 0.95
    else if WorkMatch(q, t, lower) then 0.85
    else if NormMatch(q, t, lower) then 0.80
    else 0.0
  }

  function Matches(ts: seq<Template>, q: Query, lower: string -> string): seq<Match> {
    if ts == [] then []
    else
      var n := |ts| - 1;
      var rest := Matches(ts[..n], q, lower);
      if Score(q, ts[n], lower) > 0.0 then rest + [Match(ts[n], Score(q, ts[n], lower))] else rest
  }

  /** `x` is listed in front of `y`: the higher score, then the more frequent use. */
  predicate Ahead(x: Match, y: Match) {
    x.score > y.score || (x.score == y.score && x.template.uses >= y.template.uses)
  }

  function Recommendations(ts: seq<Template>, q: Query, lower: string -> string): seq<Match> {
    S.Sort(Matches(ts, q, lower), Ahead)
  }

  lemma MatchesStep(ts: seq<Template>, i: nat, q: Query, lower: string -> string)
    requires i < |ts|
    ensures Matches(ts[..i + 1], q, lower) ==
            if Score(q, ts[i], lower) > 0.0 then Matches(ts[..i], q, lower) + [Match(ts[i], Score(q, ts[i], lower))]
            else Matches(ts[..i], q, lower)
  {
    TakeNext(ts, i);
  }

  method FindSimilarTemplates(ts: seq<Template>, q: Query, lower: string -> string) returns (r: seq<Match>)
    ensures r == Recommendations(ts, q, lower)
  {
    hide Key;
    var norm, clause, measured := Key(q.norm, lower), Key(q.clause, lower), Key(q.measured, lower);
    var category, workItem := Key(q.category, lower), Key(q.workItem, lower);
    var results := [];
    for i := 0 to |ts|
      invariant results == Matches(ts[..i], q, lower)
    {
      var t := ts[i];
      var tNorm, tClause, tMeasured := Key(t.norm, lower), Key(t.clause, lower), Key(t.measured, lower);
      var tCategory, tWorkItem := Key(t.category, lower), Key(t.workItem, lower);
      var score := 0.0;
      if norm != "" && clause != "" && measured != "" && tNorm == norm && tClause == clause && tMeasured == measured {
        score := 0.95;
      } else if category != "" && workItem != "" && measured != "" && tCategory == category && tWorkItem == workItem
          && tMeasured == measured {
        score := 0.85;
      } else if norm != "" && measured != "" && tNorm == norm && tMeasured == measured {
        score := 0.80;
      }
      MatchesStep(ts, i, q, lower);
      if score <= 0.0 {
        continue;
      }
      results := results + [Match(t, score)];
    }
    assert ts[..|ts|] == ts;
    r := S.Sort(results, Ahead);
  }

  // ---------- what the list holds ----------

  /** The entry of one template. */
  function EntryOf(q: Query, t: Template, lower: string -> string): Match {
    Match(t, Score(q, t, lower))
  }

  lemma {:induction false} MatchesInOrder(ts: seq<Template>, q: Query, lower: string -> string, i: nat, j: nat)
    requires i < j < |ts| && Score(q, ts[i], lower) > 0.0 && Score(q, ts[j], lower) > 0.0
    ensures Before(Matches(ts, q, lower), EntryOf(q, ts[i], lower), EntryOf(q, ts[j], lower))
  {
    hide Score;
    var n := |ts| - 1;
    var rest := Matches(ts[..n], q, lower);
    assert ts[..n][i] == ts[i];
    if j < n {
      assert ts[..n][j] == ts[j];
      MatchesInOrder(ts[..n], q, lower, i, j);
      var a, b :| 0 <= a < b < |rest| && rest[a] == EntryOf(q, ts[i], lower) && rest[b] == EntryOf(q, ts[j], lower);
      assert Matches(ts, q, lower)[a] == rest[a] && Matches(ts, q, lower)[b] == rest[b];
    } else {
      AllListed(ts[..n], q, lower);
      var a :| 0 <= a < |rest| && rest[a] == EntryOf(q, ts[i], lower);
      assert Matches(ts, q, lower)[a] == rest[a] && Matches(ts, q, lower)[|rest|] == EntryOf(q, ts[j], lower);
    }
  }

  /** How many templates of the list match. */
  function Matching(ts: seq<Template>, q: Query, lower: string -> string): nat {
    if ts == [] then 0
    else Matching(ts[..|ts| - 1], q, lower) + if Score(q, ts[|ts| - 1], lower) > 0.0 then 1 else 0
  }

  lemma {:induction false} MatchesCount(ts: seq<Template>, q: Query, lower: string -> string)
    ensures |Matches(ts, q, lower)| == Matching(ts, q, lower)
    ensures forall m :: m in Matches(ts, q, lower) ==>
              m.template in ts && m.score == Score(q, m.template, lower) > 0.0
  {
    hide Score;
    if ts != [] {
      var front := ts[..|ts| - 1];
      MatchesCount(front, q, lower);
      assert forall t :: t in front ==> t in ts;
    }
  }

  /**
   * The list holds exactly the matching templates, as many entries as there are matches, ordered by tier and then by
   * use; of two templates that agree in both the one stored first comes first.
   */
  lemma RecommendationsMean(ts: seq<Template>, q: Query, lower: string -> string)
    ensures var r := Recommendations(ts, q, lower);
            && S.SortedBy(r, Ahead) && |r| == Matching(ts, q, lower)
            && (forall m :: m in r <==> m.template in ts && m.score == Score(q, m.template, lower) > 0.0)
    ensures forall i, j ::
              0 <= i < j < |ts| && Score(q, ts[i], lower) > 0.0 && Score(q, ts[j], lower) > 0.0 &&
              Ahead(EntryOf(q, ts[i], lower), EntryOf(q, ts[j], lower)) ==>
                Before(Recommendations(ts, q, lower), EntryOf(q, ts[i], lower), EntryOf(q, ts[j], lower))
  {
    hide Score, Matches, Before, S.SortedBy, S.TotalPreorder;
    AheadIsTotal();
    S.SortSorted(Matches(ts, q, lower), Ahead);
    S.SortElems(Matches(ts, q, lower), Ahead);
    MatchesCount(ts, q, lower);
    AllListed(ts, q, lower);
    forall i, j | 0 <= i < j < |ts| && Score(q, ts[i], lower) > 0.0 && Score(q, ts[j], lower) > 0.0 &&
                  Ahead(EntryOf(q, ts[i], lower), EntryOf(q, ts[j], lower))
      ensures Before(Recommendations(ts, q, lower), EntryOf(q, ts[i], lower), EntryOf(q, ts[j], lower))
    {
      MatchesInOrder(ts, q, lower, i, j);
      S.SortStable(Matches(ts, q, lower), Ahead, EntryOf(q, ts[i], lower), EntryOf(q, ts[j], lower));
    }
  }

  // ---------- choosing ----------

  function Choose(recommendations: seq<Match>, strategy: Strategy, id: Option<string>): Choice {
    match strategy
    case Always(Ignore) => Choice(Ignore, "")
    case Always(action) =>
      var asked := if id.Some? then id.value else "";
      var first := if recommendations != [] then recommendations[0].template.id else "";
      Choice(action, Text.Strip(if asked != "" then asked else first))
    case Auto =>
      if recommendations == [] then Choice(Ignore, "")
      else
        var top := recommendations[0];
        if top.score >= 0.95 then Choice(DirectUse, top.template.id)
        else if top.score >= 0.80 then Choice(BasedGenerate, top.template.id)
        else Choice(Ignore, "")
  }

  // ---------- what the automatic choice means ----------

  /** `ts[k]` matches the query at least as well as every template, and better than every earlier one. */
  ghost predicate FirstBest(ts: seq<Template>, q: Query, lower: string -> string, k: nat) {
    && k < |ts| && Score(q, ts[k], lower) > 0.0
    && (forall j :: 0 <= j < |ts| ==> Ahead(Match(ts[k], Score(q, ts[k], lower)), Match(ts[j], Score(q, ts[j], lower))))
    && (forall j :: 0 <= j < k ==> !Ahead(Match(ts[j], Score(q, ts[j], lower)), Match(ts[k], Score(q, ts[k], lower))))
  }

  ghost predicate IsFirstBest(ts: seq<Template>, q: Query, lower: string -> string, id: string) {
    exists k :: 0 <= k < |ts| && FirstBest(ts, q, lower, k) && id == ts[k].id
  }

  ghost predicate AnyFullMatch(ts: seq<Template>, q: Query, lower: string -> string) {
    exists t :: t in ts && FullMatch(q, t, lower)
  }

  ghost predicate AnyMatch(ts: seq<Template>, q: Query, lower: string -> string) {
    exists t :: t in ts && (FullMatch(q, t, lower) || WorkMatch(q, t, lower) || NormMatch(q, t, lower))
  }

  lemma AheadIsTotal()
    ensures S.TotalPreorder(Ahead)
  {
  }

  /** The entries are the templates with a positive score, in order. */
  lemma {:induction false} Origin(ts: seq<Template>, q: Query, lower: string -> string, m: nat) returns (k: nat)
    requires m < |Matches(ts, q, lower)|
    ensures k < |ts| && Score(q, ts[k], lower) > 0.0
    ensures Matches(ts, q, lower)[m] == Match(ts[k], Score(q, ts[k], lower))
    ensures forall j :: 0 <= j < k && Score(q, ts[j], lower) > 0.0 ==>
                          Match(ts[j], Score(q, ts[j], lower)) in Matches(ts, q, lower)[..m]
  {
    hide Score;
    var n := |ts| - 1;
    var rest := Matches(ts[..n], q, lower);
    if m < |rest| {
      k := Origin(ts[..n], q, lower, m);
      assert Matches(ts, q, lower)[..m] == rest[..m];
      assert forall j :: 0 <= j < k ==> ts[..n][j] == ts[j];
    } else {
      k := n;
      AllListed(ts[..n], q, lower);
      assert Matches(ts, q, lower)[..m] == rest;
      assert forall j :: 0 <= j < k ==> ts[..n][j] == ts[j];
    }
  }

  lemma {:induction false} AllListed(ts: seq<Template>, q: Query, lower: string -> string)
    ensures forall j :: 0 <= j < |ts| && Score(q, ts[j], lower) > 0.0 ==>
                          Match(ts[j], Score(q, ts[j], lower)) in Matches(ts, q, lower)
  {
    hide Score;
    if ts != [] {
      var n := |ts| - 1;
      AllListed(ts[..n], q, lower);
      assert forall j :: 0 <= j < n ==> ts[..n][j] == ts[j];
    }
  }

  lemma ListedFirst(ts: seq<Template>, q: Query, lower: string -> string) returns (k: nat)
    requires Matches(ts, q, lower) != []
    ensures FirstBest(ts, q, lower, k)
    ensures Recommendations(ts, q, lower)[0] == Match(ts[k], Score(q, ts[k], lower))
  {
    hide Score, Matches;
    AheadIsTotal();
    var m := S.SortHead(Matches(ts, q, lower), Ahead);
    k := Origin(ts, q, lower, m);
    AllListed(ts, q, lower);
    ScoreNotNegative(q, lower);
  }

  lemma ScoreNotNegative(q: Query, lower: string -> string)
    ensures forall t :: Score(q, t, lower) >= 0.0
  {
  }

  lemma NothingListed(ts: seq<Template>, q: Query, lower: string -> string)
    ensures Matches(ts, q, lower) == [] <==> Recommendations(ts, q, lower) == []
    ensures Matches(ts, q, lower) == [] ==> forall t :: t in ts ==> Score(q, t, lower) <= 0.0
  {
    hide Score, Matches;
    AllListed(ts, q, lower);
  }

  /** The keys of the two texts agree and are not empty. */
  ghost predicate Agree(a: string, b: string, lower: string -> string) {
    Key(a, lower) == Key(b, lower) != ""
  }

  /**
   * The tiers: norm, clause and measured item; category, work item and measured item; norm and measured item; nothing.
   */
  lemma ScoreExactly(q: Query, t: Template, lower: string -> string)
    ensures var norm, clause := Agree(q.norm, t.norm, lower), Agree(q.clause, t.clause, lower);
            var category, workItem := Agree(q.category, t.category, lower), Agree(q.workItem, t.workItem, lower);
            Score(q, t, lower) ==
            if !Agree(q.measured, t.measured, lower) then 0.0
            else if norm && clause then 0.95
            else if category && workItem then 0.85
            else if norm then 0.80
            else 0.0
  {
    hide Key;
  }

  /** Each tier in terms of the score. */
  lemma ScoreTiers(q: Query, t: Template, lower: string -> string)
    ensures Score(q, t, lower) >= 0.95 <==> FullMatch(q, t, lower)
    ensures Score(q, t, lower) > 0.0 <==> FullMatch(q, t, lower) || WorkMatch(q, t, lower) || NormMatch(q, t, lower)
    ensures Score(q, t, lower) > 0.0 ==> Score(q, t, lower) >= 0.80
  {
  }

  /**
   * The automatic choice reuses a template exactly when one matches in norm, clause and measured item, starts from one
   * exactly when none does but one matches more weakly, and ignores the library exactly when nothing matches. The
   * template is the best match there is: best tier, then most used, then first.
   */
  lemma AutoChoice(ts: seq<Template>, q: Query, lower: string -> string, id: Option<string>)
    ensures var c := Choose(Recommendations(ts, q, lower), Auto, id);
            && (c.action == DirectUse <==> AnyFullMatch(ts, q, lower))
            && (c.action == BasedGenerate <==> !AnyFullMatch(ts, q, lower) && AnyMatch(ts, q, lower))
            && (c.action == Ignore <==> !AnyMatch(ts, q, lower))
            && (if c.action == Ignore then c.id == "" else IsFirstBest(ts, q, lower, c.id))
  {
    NothingListed(ts, q, lower);
    TiersInLibrary(ts, q, lower);
    hide Score, Matches, Recommendations, AnyFullMatch, AnyMatch;
    if Matches(ts, q, lower) != [] {
      var k := ListedFirst(ts, q, lower);
      FirstBestHasBestTier(ts, q, lower, k);
    }
  }

  lemma TiersInLibrary(ts: seq<Template>, q: Query, lower: string -> string)
    ensures AnyFullMatch(ts, q, lower) <==> exists t :: t in ts && Score(q, t, lower) >= 0.95
    ensures AnyMatch(ts, q, lower) <==> exists t :: t in ts && Score(q, t, lower) > 0.0
    ensures AnyFullMatch(ts, q, lower) ==> AnyMatch(ts, q, lower)
    ensures forall t :: t in ts && Score(q, t, lower) > 0.0 ==> Score(q, t, lower) >= 0.80
  {
    forall t | t in ts
      ensures Score(q, t, lower) >= 0.95 <==> FullMatch(q, t, lower)
      ensures Score(q, t, lower) > 0.0 <==> FullMatch(q, t, lower) || WorkMatch(q, t, lower) || NormMatch(q, t, lower)
      ensures Score(q, t, lower) > 0.0 ==> Score(q, t, lower) >= 0.80
    {
      ScoreTiers(q, t, lower);
    }
    hide Score, FullMatch, WorkMatch, NormMatch;
  }

  lemma FirstBestHasBestTier(ts: seq<Template>, q: Query, lower: string -> string, k: nat)
    requires FirstBest(ts, q, lower, k)
    ensures ts[k] in ts && forall t :: t in ts ==> Score(q, t, lower) <= Score(q, ts[k], lower)
  {
    hide Score;
    forall t | t in ts ensures Score(q, t, lower) <= Score(q, ts[k], lower) {
      var j :| 0 <= j < |ts| && ts[j] == t;
      assert Ahead(Match(ts[k], Score(q, ts[k], lower)), Match(ts[j], Score(q, ts[j], lower)));
    }
  }

  /** A named template wins over the recommendations; without a name the first best match is taken, if there is one. */
  lemma AskedChoice(ts: seq<Template>, q: Query, lower: string -> string, action: Action, id: Option<string>)
    requires action != Ignore
    ensures var c := Choose(Recommendations(ts, q, lower), Always(action), id);
            && c.action == action
            && (id.Some? && id.value != "" ==> c.id == Text.Strip(id.value))
            && (id.None? || id.value == "" ==>
                  if AnyMatch(ts, q, lower)
                  then exists best :: IsFirstBest(ts, q, lower, best) && c.id == Text.Strip(best)
                  else c.id == "")
  {
    NothingListed(ts, q, lower);
    TiersInLibrary(ts, q, lower);
    hide Score, Matches, Recommendations, AnyFullMatch, AnyMatch, Text.Strip;
    BlankStrip();
    if Matches(ts, q, lower) != [] {
      var k := ListedFirst(ts, q, lower);
      assert IsFirstBest(ts, q, lower, ts[k].id);
      FirstBestHasBestTier(ts, q, lower, k);
    }
  }

  lemma BlankStrip()
    ensures Text.Strip("") == ""
  {
  }
}
