/** The constraint-aware generator prototype: at most three cleaned synonyms, and the
    four queries of the backend with the synonyms joined into the titles group. */
module Main4 {
  import opened Text
  import opened BooleanQuery
  import opened Generation
  import opened Cleaning
  import Server

  // ------------------------------------------------------------ get_synonyms_from_llm

  /** Synonyms kept, so that the titles group has at most four phrases. */
  const MaxSynonyms: nat := 3

  function Min(a: int, b: int): int
  {
    if a <= b then a else b
  }

  /** `get_synonyms_from_llm(job_title, generator)`, given what the generator call gives:
      at most three of the distinct cleaned candidates; nothing when the call raises. */
  method GetSynonymsFromLlm(jobTitle: string, reply: Reply) returns (synonyms: seq<string>)
    ensures reply.Raised? ==> synonyms == []
    ensures Distinct(synonyms) && |synonyms| <= MaxSynonyms
    ensures reply.Generated? ==>
      && (forall s :: s in synonyms ==> s in Kept(Candidates(reply.text), jobTitle))
      && |synonyms| == Min(MaxSynonyms, |Elements(Kept(Candidates(reply.text), jobTitle))|)
  {
    if reply.Raised? {
      return [];
    }
    var kept := CleanCandidates(Candidates(reply.text), jobTitle);
    var unique := ListOfSet(Elements(kept));
    if |unique| <= MaxSynonyms {
      synonyms := unique;
    } else {
      synonyms := unique[..MaxSynonyms];
      assert forall s :: s in synonyms ==> s in unique;
    }
  }

  /** A sample generator reply: from "Software Engineer, , Backend Engineer\nSoftware
      Engineer," followed by an over-long sentence, for the title "Software Engineer",
      only "Backend Engineer" is returned. */
  method Example(sentence: string, jobTitle: string, synonym: string) returns (synonyms: seq<string>)
    requires NoSeparator(sentence, {',', '\n'}) && |Strip(sentence)| > MaxSynonymLength
    requires jobTitle == "Software Engineer" && synonym == "Backend Engineer"
    ensures synonyms == [synonym]
  {
    var text := ExampleText(sentence);
    ExampleKept(sentence, jobTitle);
    var kept := Kept(Candidates(text), jobTitle);
    assert kept == [synonym];
    assert Elements(kept) == {synonym};
    synonyms := GetSynonymsFromLlm(jobTitle, Generated(text));
    assert |synonyms| == 1;
    assert synonyms[0] in kept;
  }

  // ------------------------------------------------------------ build_boolean_queries

  const ActionPhrases: seq<string> := ["hiring", "recruiting", "join our team", "looking for"]
  const ExclusionPhrases: seq<string> := ["internship", "contract"]

  /** `[main_title.title()] + synonyms`: only the main title is title-cased. */
  function TitlesPart(mainTitle: string, synonyms: seq<string>): Query
  {
    AnyOf([Title(mainTitle)] + synonyms)
  }

  function MainTitlePart(mainTitle: string): Query
  {
    Phrase(Title(mainTitle))
  }

  /** The four queries, in the order they are appended, over the action phrases
      `actions` and the exclusion phrases `exclusions`. */
  function QueryPlan(mainTitle: string, synonyms: seq<string>, actions: seq<string>, exclusions: seq<string>)
    : seq<Query>
  {
    var main := MainTitlePart(mainTitle);
    var titles := TitlesPart(mainTitle, synonyms);
    [ And(main, AnyOf(actions)),
      And(titles, Phrase("hiring")),
      And(titles, Phrase("recruiting")),
      And(And(main, AnyOf(actions)), Not(AnyOf(exclusions))) ]
  }

  /** The four query templates, filled in. */
  function Queries(mainTitle: string, synonyms: seq<string>, actions: seq<string>, exclusions: seq<string>)
    : seq<string>
  {
    var plan := QueryPlan(mainTitle, synonyms, actions, exclusions);
    seq(|plan|, k requires 0 <= k < |plan| => Render(plan[k]))
  }

  /** `build_boolean_queries(main_title, synonyms)` */
  function BuildBooleanQueries(mainTitle: string, synonyms: seq<string>): (queries: seq<string>)
    ensures |queries| == 4 && queries[0] <= queries[3]
    ensures forall k :: 0 <= k < |queries| ==> IsSubstring(Quote(Title(mainTitle)), queries[k])
  {
    QueriesOutline(mainTitle, synonyms, ActionPhrases, ExclusionPhrases);
    Queries(mainTitle, synonyms, ActionPhrases, ExclusionPhrases)
  }

  /** The fourth query extends the first, and every query quotes the main title. */
  lemma QueriesOutline(mainTitle: string, synonyms: seq<string>, actions: seq<string>, exclusions: seq<string>)
    ensures var q := Queries(mainTitle, synonyms, actions, exclusions);
      && |q| == 4 && q[0] <= q[3]
      && forall k :: 0 <= k < |q| ==> IsSubstring(Quote(Title(mainTitle)), q[k])
  {
    QueriesShape(mainTitle, synonyms, actions, exclusions);
    EveryQueryQuotesTitle(mainTitle, synonyms, actions, exclusions);
  }

  /** Four queries: main title with the actions; the titles group with "hiring", then
      with "recruiting"; and the first query again with the exclusion group added. */
  lemma QueriesShape(mainTitle: string, synonyms: seq<string>, actions: seq<string>, exclusions: seq<string>)
    ensures var q := Queries(mainTitle, synonyms, actions, exclusions);
      var titles := Render(TitlesPart(mainTitle, synonyms));
      && |q| == 4
      && q[0] == Quote(Title(mainTitle)) + " AND " + Render(AnyOf(actions))
      && q[1] == titles + " AND " + Quote("hiring")
      && q[2] == titles + " AND " + Quote("recruiting")
      && q[3] == q[0] + " AND " + Render(Not(AnyOf(exclusions)))
  {
    var q, plan := Queries(mainTitle, synonyms, actions, exclusions), QueryPlan(mainTitle, synonyms, actions, exclusions);
    assert q[0] == Render(plan[0]) && q[3] == Render(plan[3]);
    assert q[1] == Render(plan[1]) && q[2] == Render(plan[2]);
    assert Render(MainTitlePart(mainTitle)) == Quote(Title(mainTitle));
    assert Render(Phrase("hiring")) == Quote("hiring");
    assert Render(Phrase("recruiting")) == Quote("recruiting");
  }

  /** The same phrase lists as the backend. */
  lemma SamePhrases()
    ensures ActionPhrases == Server.ActionPhrases && ExclusionPhrases == Server.ExclusionPhrases
  {
  }

  /** The same templates as the backend: without synonyms the queries are the backend's,
      and with synonyms the first and last queries still are. */
  lemma {:induction false} SameTemplatesAsServer(mainTitle: string, synonyms: seq<string>)
    ensures BuildBooleanQueries(mainTitle, []) == Server.BuildBooleanQueries(mainTitle)
    ensures var q, s := BuildBooleanQueries(mainTitle, synonyms), Server.BuildBooleanQueries(mainTitle);
      q[0] == s[0] && q[3] == s[3]
  {
    SamePhrases();
    var plan := QueryPlan(mainTitle, [], ActionPhrases, ExclusionPhrases);
    var splan := Server.QueryPlan(mainTitle, Server.ActionPhrases, Server.ExclusionPhrases);
    assert [Title(mainTitle)] + [] == [Title(mainTitle)];
    assert plan == splan;
    var q, s := BuildBooleanQueries(mainTitle, synonyms), Server.BuildBooleanQueries(mainTitle);
    QueriesShape(mainTitle, synonyms, ActionPhrases, ExclusionPhrases);
    Server.QueriesShape(mainTitle, Server.ActionPhrases, Server.ExclusionPhrases);
  }

  /** Every query quotes the title-cased main title. */
  lemma {:induction false} EveryQueryQuotesTitle(mainTitle: string, synonyms: seq<string>, actions: seq<string>,
                                                 exclusions: seq<string>)
    ensures var q := Queries(mainTitle, synonyms, actions, exclusions);
      forall k :: 0 <= k < |q| ==> IsSubstring(Quote(Title(mainTitle)), q[k])
  {
    var plan := QueryPlan(mainTitle, synonyms, actions, exclusions);
    assert ([Title(mainTitle)] + synonyms)[0] == Title(mainTitle);
    forall k | 0 <= k < |plan|
      ensures IsSubstring(Quote(Title(mainTitle)), Queries(mainTitle, synonyms, actions, exclusions)[k])
    {
      assert HasPhrase(plan[k], Title(mainTitle));
      RenderedPhrase(plan[k], Title(mainTitle));
    }
  }

  /** The operator counts are 4, one more than the synonyms twice, and 7; with at most
      three synonyms the titles group has at most four phrases and the second and third
      queries at most 4 operators. */
  lemma PlanOperators(mainTitle: string, synonyms: seq<string>)
    ensures var plan := QueryPlan(mainTitle, synonyms, ActionPhrases, ExclusionPhrases);
      && OperatorTotal(plan[0]) == 4
      && OperatorTotal(plan[1]) == OperatorTotal(plan[2]) == |synonyms| + 1
      && OperatorTotal(plan[3]) == 7
      && (|synonyms| <= MaxSynonyms ==>
            |TitlesPart(mainTitle, synonyms).phrases| <= 4 && OperatorTotal(plan[1]) <= 4)
  {
    var actions, exclusions := AnyOf(ActionPhrases), Not(AnyOf(ExclusionPhrases));
    var titles := TitlesPart(mainTitle, synonyms);
    assert |ActionPhrases| == 4 && |ExclusionPhrases| == 2;
    assert OR in Operators && AND in Operators && NOT in Operators;
    assert OperatorTotal(actions) == 3;
    assert Ops(AnyOf(ExclusionPhrases), Operators) == 1;
    assert OperatorTotal(exclusions) == 2;
    assert OperatorTotal(titles) == |synonyms|;
    assert OperatorTotal(MainTitlePart(mainTitle)) == 0;
    assert OperatorTotal(Phrase("hiring")) == 0 && OperatorTotal(Phrase("recruiting")) == 0;
  }

  /** The first and fourth queries have the backend's lengths; the second and third grow
      with the synonyms, six characters apiece beyond their own. So the comment that calls
      the fourth query the longest holds only while the synonyms' widths stay within 85
      for the third query, and within 89 for the second. */
  lemma QueryLengths(mainTitle: string, synonyms: seq<string>)
    ensures var q := BuildBooleanQueries(mainTitle, synonyms);
      && |q[0]| == |mainTitle| + 69
      && |q[1]| == |mainTitle| + 17 + GroupWidth(synonyms)
      && |q[2]| == |mainTitle| + 21 + GroupWidth(synonyms)
      && |q[3]| == |mainTitle| + 106
      && (|q[2]| > |q[3]| <==> GroupWidth(synonyms) > 85)
      && (|q[1]| > |q[3]| <==> GroupWidth(synonyms) > 89)
  {
    SameTemplatesAsServer(mainTitle, synonyms);
    Server.QueryLengths(mainTitle);
    QueriesShape(mainTitle, synonyms, ActionPhrases, ExclusionPhrases);
    GroupLength([Title(mainTitle)] + synonyms);
    GroupWidthCons(Title(mainTitle), synonyms);
  }

  /** Three synonyms of 25 characters each, which the cleaner lets through, make the
      second and third queries longer than the fourth. */
  lemma FourthNotLongest(mainTitle: string, synonyms: seq<string>)
    requires |synonyms| == MaxSynonyms
    requires forall i :: 0 <= i < |synonyms| ==> |synonyms[i]| == 25
    ensures var q := BuildBooleanQueries(mainTitle, synonyms);
      |q[1]| > |q[3]| && |q[2]| > |q[3]|
  {
    QueryLengths(mainTitle, synonyms);
    assert GroupWidth(synonyms[2..]) == 31;
    assert GroupWidth(synonyms[1..]) == 62 by { assert synonyms[1..][1..] == synonyms[2..]; }
    assert GroupWidth(synonyms) == 93;
  }
}
