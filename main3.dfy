/** The first generator prototype: synonyms cleaned out of generated text, and six
    queries over the title and its synonyms. */
module Main3 {
  import opened Text
  import opened BooleanQuery
  import opened Generation
  import opened Cleaning

  // ------------------------------------------------------------ get_synonyms_from_llm

  /** `get_synonyms_from_llm(job_title, generator)`, given what the generator call gives:
      the cleaned candidates of the generated text, each once; nothing when the call
      raises. */
  method GetSynonymsFromLlm(jobTitle: string, reply: Reply) returns (synonyms: seq<string>)
    ensures reply.Raised? ==> synonyms == []
    ensures Distinct(synonyms)
    ensures reply.Generated? ==>
      forall s :: s in synonyms <==> s in Kept(Candidates(reply.text), jobTitle)
  {
    if reply.Raised? {
      return [];
    }
    var kept := CleanCandidates(Candidates(reply.text), jobTitle);
    synonyms := ListOfSet(Elements(kept));
  }

  // ------------------------------------------------------------ build_boolean_queries

  const ActionPhrases: seq<string> :=
    ["hiring", "we're hiring", "is hiring", "join our team", "looking for"]
  const ExclusionPhrases: seq<string> :=
    ["intern", "internship", "course", "bootcamp", "trainee", "senior", "sr."]

  /** The OR group over `[main_title] + synonyms`, each title-cased. */
  function TitlesPart(mainTitle: string, synonyms: seq<string>): Query
  {
    AnyOf(TitleEach([mainTitle] + synonyms))
  }

  function MainTitlePart(mainTitle: string): Query
  {
    Phrase(Title(mainTitle))
  }

  /** The six queries, in the order they are appended, over the action phrases
      `actions` and the exclusion phrases `exclusions`. */
  function QueryPlan(mainTitle: string, synonyms: seq<string>, actions: seq<string>, exclusions: seq<string>)
    : seq<Query>
  {
    var titles := TitlesPart(mainTitle, synonyms);
    var main := MainTitlePart(mainTitle);
    [ And(titles, AnyOf(actions)),
      And(And(titles, AnyOf(actions)), Not(AnyOf(exclusions))),
      And(And(main, AnyOf(actions)), Not(AnyOf(exclusions))),
      And(titles, Phrase("hiring")),
      And(main, Phrase("hiring")),
      titles ]
  }

  /** The six query templates, filled in. */
  function Queries(mainTitle: string, synonyms: seq<string>, actions: seq<string>, exclusions: seq<string>)
    : seq<string>
  {
    var plan := QueryPlan(mainTitle, synonyms, actions, exclusions);
    seq(|plan|, k requires 0 <= k < |plan| => Render(plan[k]))
  }

  /** `build_boolean_queries(main_title, synonyms)` */
  function BuildBooleanQueries(mainTitle: string, synonyms: seq<string>): (queries: seq<string>)
    ensures |queries| == 6 && queries[0] <= queries[1]
    ensures forall k :: 0 <= k < |queries| ==> IsSubstring(Quote(Title(mainTitle)), queries[k])
  {
    QueriesOutline(mainTitle, synonyms, ActionPhrases, ExclusionPhrases);
    Queries(mainTitle, synonyms, ActionPhrases, ExclusionPhrases)
  }

  /** The second query extends the first, and every query quotes the main title. */
  lemma QueriesOutline(mainTitle: string, synonyms: seq<string>, actions: seq<string>, exclusions: seq<string>)
    ensures var q := Queries(mainTitle, synonyms, actions, exclusions);
      && |q| == 6 && q[0] <= q[1]
      && forall k :: 0 <= k < |q| ==> IsSubstring(Quote(Title(mainTitle)), q[k])
  {
    QueriesShape(mainTitle, synonyms, actions, exclusions);
    EveryQueryQuotesTitle(mainTitle, synonyms, actions, exclusions);
  }

  /** Six queries; the second is the first with the exclusion group added; the last is
      the titles group alone. */
  lemma QueriesShape(mainTitle: string, synonyms: seq<string>, actions: seq<string>, exclusions: seq<string>)
    ensures var q := Queries(mainTitle, synonyms, actions, exclusions);
      var titles := Render(TitlesPart(mainTitle, synonyms));
      && |q| == 6
      && q[0] == titles + " AND " + Render(AnyOf(actions))
      && q[1] == q[0] + " AND " + Render(Not(AnyOf(exclusions)))
      && q[0] <= q[1]
      && q[5] == titles
  {
    var q, plan := Queries(mainTitle, synonyms, actions, exclusions), QueryPlan(mainTitle, synonyms, actions, exclusions);
    assert q[0] == Render(plan[0]) && q[1] == Render(plan[1]) && q[5] == Render(plan[5]);
    assert q[1] == q[0] + (" AND " + Render(Not(AnyOf(exclusions))));
  }

  /** The third and fifth queries put the quoted main title where the second and fourth
      have the titles group; the fourth and fifth end in "hiring". */
  lemma FocusedQueries(mainTitle: string, synonyms: seq<string>, actions: seq<string>, exclusions: seq<string>)
    ensures var q := Queries(mainTitle, synonyms, actions, exclusions);
      var titles := Render(TitlesPart(mainTitle, synonyms));
      && q[2] == Quote(Title(mainTitle)) + " AND " + Render(AnyOf(actions)) + " AND " + Render(Not(AnyOf(exclusions)))
      && q[3] == titles + " AND " + Quote("hiring")
      && q[4] == Quote(Title(mainTitle)) + " AND " + Quote("hiring")
  {
    var q, plan := Queries(mainTitle, synonyms, actions, exclusions), QueryPlan(mainTitle, synonyms, actions, exclusions);
    assert q[2] == Render(plan[2]) && q[3] == Render(plan[3]) && q[4] == Render(plan[4]);
    assert Render(MainTitlePart(mainTitle)) == Quote(Title(mainTitle));
    assert Render(And(MainTitlePart(mainTitle), AnyOf(actions)))
      == Quote(Title(mainTitle)) + " AND " + Render(AnyOf(actions));
    assert Render(Phrase("hiring")) == Quote("hiring");
  }

  /** Every query quotes the title-cased main title. */
  lemma {:induction false} EveryQueryQuotesTitle(mainTitle: string, synonyms: seq<string>, actions: seq<string>,
                                                 exclusions: seq<string>)
    ensures var q := Queries(mainTitle, synonyms, actions, exclusions);
      forall k :: 0 <= k < |q| ==> IsSubstring(Quote(Title(mainTitle)), q[k])
  {
    var plan := QueryPlan(mainTitle, synonyms, actions, exclusions);
    assert TitleEach([mainTitle] + synonyms)[0] == Title(mainTitle);
    forall k | 0 <= k < |plan|
      ensures IsSubstring(Quote(Title(mainTitle)), Queries(mainTitle, synonyms, actions, exclusions)[k])
    {
      assert HasPhrase(plan[k], Title(mainTitle));
      RenderedPhrase(plan[k], Title(mainTitle));
    }
  }

  /** The operator counts: 4 ORs among the actions, 6 ORs and a NOT in the exclusions,
      and one OR per synonym in the titles group. */
  lemma PlanOperators(mainTitle: string, synonyms: seq<string>)
    ensures var plan := QueryPlan(mainTitle, synonyms, ActionPhrases, ExclusionPhrases);
      && OperatorTotal(plan[0]) == |synonyms| + 5
      && OperatorTotal(plan[1]) == |synonyms| + 13
      && OperatorTotal(plan[2]) == 13
      && OperatorTotal(plan[3]) == |synonyms| + 1
      && OperatorTotal(plan[4]) == 1
      && OperatorTotal(plan[5]) == |synonyms|
  {
    var titles := TitlesPart(mainTitle, synonyms);
    var actions, exclusions := AnyOf(ActionPhrases), Not(AnyOf(ExclusionPhrases));
    assert |titles.phrases| == |synonyms| + 1;
    assert |ActionPhrases| == 5 && |ExclusionPhrases| == 7;
    assert OR in Operators && AND in Operators && NOT in Operators;
    assert OperatorTotal(titles) == |synonyms|;
    assert OperatorTotal(actions) == 4;
    assert Ops(AnyOf(ExclusionPhrases), Operators) == 6;
    assert OperatorTotal(exclusions) == 7;
    assert OperatorTotal(MainTitlePart(mainTitle)) == 0 && OperatorTotal(Phrase("hiring")) == 0;
    assert OperatorTotal(And(titles, actions)) == |synonyms| + 5;
    assert OperatorTotal(And(MainTitlePart(mainTitle), actions)) == 5;
  }
}
