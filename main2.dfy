/** The dictionary prototype: synonyms from a fixed table, and five queries over the
    title and its synonyms. */
module Main2 {
  import opened Text
  import opened BooleanQuery

  datatype Option<T> = None | Some(value: T)

  // ------------------------------------------------------------ get_synonyms

  /** `SYNONYM_MAP`, in the order of its entries (the order in which `items()` visits
      them). */
  const SynonymTable: seq<(string, seq<string>)> := [
    ("software engineer", ["Software Developer", "Backend Engineer", "Full Stack Developer", "Developer", "Programmer"]),
    ("python developer", ["Python Engineer", "Backend Engineer", "Software Engineer (Python)", "Data Engineer"]),
    ("python engineer", ["Python Developer", "Backend Engineer", "Software Engineer (Python)", "Data Engineer"]),
    ("data scientist", ["Data Analyst", "Machine Learning Engineer", "ML Engineer", "Business Intelligence Analyst"]),
    ("data engineer", ["Data Architect", "Pipeline Developer", "ETL Developer", "Big Data Engineer"]),
    ("frontend developer", ["Frontend Engineer", "UI Developer", "React Developer", "Web Developer"]),
    ("backend developer", ["Backend Engineer", "Software Engineer", "Python Developer", "Java Developer"]),
    ("full stack developer", ["Full Stack Engineer", "Software Engineer", "Web Developer"]),
    ("machine learning engineer", ["ML Engineer", "Data Scientist", "AI Engineer", "Computer Vision Engineer"]),
    ("devops engineer", ["SRE", "Site Reliability Engineer", "Platform Engineer", "Cloud Engineer"]),
    ("product manager", ["PM", "Technical Product Manager", "Product Owner"])
  ]

  /** No key occurs twice, as in any dictionary. */
  predicate DistinctKeys(table: seq<(string, seq<string>)>)
  {
    forall i, j :: 0 <= i < j < |table| ==> table[i].0 != table[j].0
  }

  /** `table[key]` when `key in table`. */
  function Exact(table: seq<(string, seq<string>)>, key: string): (found: Option<seq<string>>)
    ensures found.Some? ==> exists i :: 0 <= i < |table| && table[i].0 == key && found.value == table[i].1
    decreases |table|
  {
    if table == [] then None
    else if table[0].0 == key then Some(table[0].1)
    else Exact(table[1..], key)
  }

  /** The loop over `items()` that returns the entry of the first key contained in `key`. */
  function Partial(table: seq<(string, seq<string>)>, key: string): (found: Option<seq<string>>)
    ensures found.Some? ==> exists i :: 0 <= i < |table| && IsSubstring(table[i].0, key) && found.value == table[i].1
    decreases |table|
  {
    if table == [] then None
    else if IsSubstring(table[0].0, key) then Some(table[0].1)
    else Partial(table[1..], key)
  }

  /** `get_synonyms(job_title)` over the dictionary `table`. */
  function Lookup(table: seq<(string, seq<string>)>, jobTitle: string): (synonyms: seq<string>)
    ensures synonyms == [] || exists i :: 0 <= i < |table| && synonyms == table[i].1
  {
    var key := Strip(Lower(jobTitle));
    match Exact(table, key)
    case Some(synonyms) => synonyms
    case None =>
      match Partial(table, key)
      case Some(synonyms) => synonyms
      case None => []
  }

  /** `get_synonyms(job_title)` */
  function GetSynonyms(jobTitle: string): (synonyms: seq<string>)
    ensures synonyms == [] || exists i :: 0 <= i < |SynonymTable| && synonyms == SynonymTable[i].1
  {
    Lookup(SynonymTable, jobTitle)
  }

  lemma SynonymTableKeysDistinct()
    ensures DistinctKeys(SynonymTable)
  {
  }

  /** The exact lookup finds the entry whose key is `key`, and finds nothing exactly when
      no key is `key`. */
  lemma {:induction false} ExactFinds(table: seq<(string, seq<string>)>, key: string, i: nat)
    requires DistinctKeys(table)
    requires i < |table| && table[i].0 == key
    ensures Exact(table, key) == Some(table[i].1)
    decreases |table|
  {
    if i > 0 {
      assert table[0].0 != key;
      ExactFinds(table[1..], key, i - 1);
    }
  }

  lemma {:induction false} ExactMisses(table: seq<(string, seq<string>)>, key: string)
    ensures Exact(table, key) == None <==> forall i :: 0 <= i < |table| ==> table[i].0 != key
    decreases |table|
  {
    if table != [] {
      ExactMisses(table[1..], key);
      if forall i :: 0 <= i < |table[1..]| ==> table[1..][i].0 != key {
        forall i | 0 < i < |table| ensures table[i].0 != key {
          assert table[i] == table[1..][i - 1];
        }
      }
    }
  }

  /** The partial lookup returns the entry of the first key, in table order, that occurs
      in `key`. */
  lemma {:induction false} PartialFindsFirst(table: seq<(string, seq<string>)>, key: string, i: nat)
    requires i < |table| && IsSubstring(table[i].0, key)
    requires forall j :: 0 <= j < i ==> !IsSubstring(table[j].0, key)
    ensures Partial(table, key) == Some(table[i].1)
    decreases |table|
  {
    if i > 0 {
      assert !IsSubstring(table[0].0, key);
      forall j | 0 <= j < i - 1 ensures !IsSubstring(table[1..][j].0, key) {
        assert table[1..][j] == table[j + 1];
      }
      PartialFindsFirst(table[1..], key, i - 1);
    }
  }

  lemma {:induction false} PartialMisses(table: seq<(string, seq<string>)>, key: string)
    ensures Partial(table, key) == None <==> forall i :: 0 <= i < |table| ==> !IsSubstring(table[i].0, key)
    decreases |table|
  {
    if table != [] {
      PartialMisses(table[1..], key);
      if forall i :: 0 <= i < |table[1..]| ==> !IsSubstring(table[1..][i].0, key) {
        forall i | 0 < i < |table| ensures !IsSubstring(table[i].0, key) {
          assert table[i] == table[1..][i - 1];
        }
      }
    }
  }

  /** A normalised title that is a key gets exactly that key's list. */
  lemma LookupExact(table: seq<(string, seq<string>)>, jobTitle: string, i: nat)
    requires DistinctKeys(table)
    requires i < |table| && table[i].0 == Strip(Lower(jobTitle))
    ensures Lookup(table, jobTitle) == table[i].1
  {
    ExactFinds(table, Strip(Lower(jobTitle)), i);
  }

  /** For the prototype's own table: a title whose normalised form is a key gets that
      key's list. */
  lemma GetSynonymsExact(jobTitle: string, i: nat)
    requires i < |SynonymTable| && SynonymTable[i].0 == Strip(Lower(jobTitle))
    ensures GetSynonyms(jobTitle) == SynonymTable[i].1
  {
    SynonymTableKeysDistinct();
    LookupExact(SynonymTable, jobTitle, i);
  }

  /** Otherwise the title gets the list of the first key that occurs in it. */
  lemma LookupPartial(table: seq<(string, seq<string>)>, jobTitle: string, i: nat)
    requires forall j :: 0 <= j < |table| ==> table[j].0 != Strip(Lower(jobTitle))
    requires i < |table| && IsSubstring(table[i].0, Strip(Lower(jobTitle)))
    requires forall j :: 0 <= j < i ==> !IsSubstring(table[j].0, Strip(Lower(jobTitle)))
    ensures Lookup(table, jobTitle) == table[i].1
  {
    ExactMisses(table, Strip(Lower(jobTitle)));
    PartialFindsFirst(table, Strip(Lower(jobTitle)), i);
  }

  /** A title that matches no key, exactly or in part, gets the empty list. */
  lemma LookupNone(table: seq<(string, seq<string>)>, jobTitle: string)
    requires forall j :: 0 <= j < |table| ==> !IsSubstring(table[j].0, Strip(Lower(jobTitle)))
    ensures Lookup(table, jobTitle) == []
  {
    var key := Strip(Lower(jobTitle));
    assert IsSubstring(key, key);
    ExactMisses(table, key);
    PartialMisses(table, key);
  }

  // ------------------------------------------------------------ build_boolean_queries

  const ActionPhrases: seq<string> :=
    ["hiring", "we're hiring", "is hiring", "recruiting", "join our team", "looking for"]
  const ExclusionPhrases: seq<string> :=
    ["intern", "internship", "course", "bootcamp", "trainee", "senior", "sr."]

  /** The OR group over `[main_title] + synonyms`, each title-cased. */
  function TitlesPart(mainTitle: string, synonyms: seq<string>): Query
  {
    AnyOf(TitleEach([mainTitle] + synonyms))
  }

  function MainTitlePart(mainTitle: string): Query
  {
    Phrase(Title(mainTitle))
  }

  /** The five queries, in the order they are appended, over the action phrases
      `actions`. The exclusion group over `exclusions` is built but no query uses it. */
  function QueryPlan(mainTitle: string, synonyms: seq<string>, actions: seq<string>, exclusions: seq<string>)
    : seq<Query>
  {
    var titles := TitlesPart(mainTitle, synonyms);
    var unused := Not(AnyOf(exclusions));
    [ And(titles, AnyOf(actions)),
      And(titles, AnyOf(actions)),
      And(titles, Phrase("hiring")),
      And(MainTitlePart(mainTitle), Phrase("hiring")),
      titles ]
  }

  /** The five query templates, filled in. */
  function Queries(mainTitle: string, synonyms: seq<string>, actions: seq<string>, exclusions: seq<string>)
    : seq<string>
  {
    var plan := QueryPlan(mainTitle, synonyms, actions, exclusions);
    seq(|plan|, k requires 0 <= k < |plan| => Render(plan[k]))
  }

  /** `build_boolean_queries(main_title, synonyms)` */
  function BuildBooleanQueries(mainTitle: string, synonyms: seq<string>): (queries: seq<string>)
    ensures |queries| == 5 && queries[0] == queries[1]
    ensures forall k :: 0 <= k < |queries| ==> IsSubstring(Quote(Title(mainTitle)), queries[k])
  {
    QueriesOutline(mainTitle, synonyms, ActionPhrases, ExclusionPhrases);
    Queries(mainTitle, synonyms, ActionPhrases, ExclusionPhrases)
  }

  /** The first two queries are the same, and every query quotes the main title. */
  lemma QueriesOutline(mainTitle: string, synonyms: seq<string>, actions: seq<string>, exclusions: seq<string>)
    ensures var q := Queries(mainTitle, synonyms, actions, exclusions);
      && |q| == 5 && q[0] == q[1]
      && forall k :: 0 <= k < |q| ==> IsSubstring(Quote(Title(mainTitle)), q[k])
  {
    QueriesShape(mainTitle, synonyms, actions, exclusions);
    EveryQueryQuotesTitle(mainTitle, synonyms, actions, exclusions);
  }

  /** Five queries; the first two are the same; the fourth is the quoted main title with
      "hiring"; the last is the titles group alone. */
  lemma QueriesShape(mainTitle: string, synonyms: seq<string>, actions: seq<string>, exclusions: seq<string>)
    ensures var q := Queries(mainTitle, synonyms, actions, exclusions);
      var titles := Render(TitlesPart(mainTitle, synonyms));
      && |q| == 5
      && q[0] == q[1] == titles + " AND " + Render(AnyOf(actions))
      && q[2] == titles + " AND " + Quote("hiring")
      && q[3] == Quote(Title(mainTitle)) + " AND " + Quote("hiring")
      && q[4] == titles
  {
    var q, plan := Queries(mainTitle, synonyms, actions, exclusions), QueryPlan(mainTitle, synonyms, actions, exclusions);
    assert q[0] == Render(plan[0]) && q[1] == Render(plan[1]) && q[2] == Render(plan[2]);
    assert q[3] == Render(plan[3]) && q[4] == Render(plan[4]);
    assert Render(Phrase("hiring")) == Quote("hiring");
  }

  /** The titles group quotes the title-cased main title first, then each title-cased
      synonym, with one OR between neighbours: as many ORs as synonyms. */
  lemma TitlesGroup(mainTitle: string, synonyms: seq<string>)
    ensures var t := TitlesPart(mainTitle, synonyms);
      && |t.phrases| == |synonyms| + 1
      && t.phrases[0] == Title(mainTitle)
      && (forall k :: 0 <= k < |synonyms| ==> t.phrases[k + 1] == Title(synonyms[k]))
      && OperatorTotal(t) == |synonyms|
      && "(" + Quote(Title(mainTitle)) <= Render(t)
  {
    var all := [mainTitle] + synonyms;
    assert all[0] == mainTitle;
    assert forall k :: 0 <= k < |synonyms| ==> all[k + 1] == synonyms[k];
    assert OR in Operators;
    GroupStartsWith(Title(mainTitle), TitleEach(all)[1..]);
    assert [Title(mainTitle)] + TitleEach(all)[1..] == TitleEach(all);
  }

  /** Every query quotes the title-cased main title. */
  lemma {:induction false} EveryQueryQuotesTitle(mainTitle: string, synonyms: seq<string>, actions: seq<string>,
                                                 exclusions: seq<string>)
    ensures var q := Queries(mainTitle, synonyms, actions, exclusions);
      forall k :: 0 <= k < |q| ==> IsSubstring(Quote(Title(mainTitle)), q[k])
  {
    var plan := QueryPlan(mainTitle, synonyms, actions, exclusions);
    assert TitleEach([mainTitle] + synonyms)[0] == Title(mainTitle);
    forall k | 0 <= k < |plan|
      ensures IsSubstring(Quote(Title(mainTitle)), Queries(mainTitle, synonyms, actions, exclusions)[k])
    {
      assert HasPhrase(plan[k], Title(mainTitle));
      RenderedPhrase(plan[k], Title(mainTitle));
    }
  }

  /** No query uses the exclusion group, nor any NOT. */
  lemma NoExclusions(mainTitle: string, synonyms: seq<string>, actions: seq<string>, exclusions: seq<string>)
    ensures var plan := QueryPlan(mainTitle, synonyms, actions, exclusions);
      forall k :: 0 <= k < |plan| ==> !HasPart(plan[k], Not(AnyOf(exclusions))) && Ops(plan[k], {NOT}) == 0
  {
    var titles, excluded := TitlesPart(mainTitle, synonyms), Not(AnyOf(exclusions));
    assert OR != NOT && AND != NOT;
    assert !HasPart(titles, excluded) && !HasPart(AnyOf(actions), excluded);
    assert !HasPart(MainTitlePart(mainTitle), excluded) && !HasPart(Phrase("hiring"), excluded);
  }

  /** The operator counts: 5 ORs among the actions, and one OR per synonym in the titles
      group. */
  lemma PlanOperators(mainTitle: string, synonyms: seq<string>)
    ensures var plan := QueryPlan(mainTitle, synonyms, ActionPhrases, ExclusionPhrases);
      && OperatorTotal(plan[0]) == OperatorTotal(plan[1]) == |synonyms| + 6
      && OperatorTotal(plan[2]) == |synonyms| + 1
      && OperatorTotal(plan[3]) == 1
      && OperatorTotal(plan[4]) == |synonyms|
  {
    TitlesGroup(mainTitle, synonyms);
    assert |ActionPhrases| == 6;
    assert OR in Operators && AND in Operators;
    assert OperatorTotal(AnyOf(ActionPhrases)) == 5;
    assert OperatorTotal(MainTitlePart(mainTitle)) == 0 && OperatorTotal(Phrase("hiring")) == 0;
  }

  /** The group is free of double quotes when the titles are. */
  lemma TitlesQuoteFree(mainTitle: string, synonyms: seq<string>)
    requires '"' !in mainTitle && forall k :: 0 <= k < |synonyms| ==> '"' !in synonyms[k]
    ensures QuoteFree(TitlesPart(mainTitle, synonyms))
  {
    var all := [mainTitle] + synonyms;
    forall k | 0 <= k < |all| ensures '"' !in TitleEach(all)[k] {
      assert '"' !in all[k];
      TitleKeepsNonLetter(all[k], '"');
    }
  }

  /** Read off the text, no query holds a NOT, as long as no title holds a double quote. */
  lemma {:induction false} NoNotInText(mainTitle: string, synonyms: seq<string>)
    requires '"' !in mainTitle && forall k :: 0 <= k < |synonyms| ==> '"' !in synonyms[k]
    ensures var q := BuildBooleanQueries(mainTitle, synonyms);
      forall k :: 0 <= k < |q| ==> OperatorCount(q[k], {NOT}) == 0
  {
    var plan := QueryPlan(mainTitle, synonyms, ActionPhrases, ExclusionPhrases);
    NoExclusions(mainTitle, synonyms, ActionPhrases, ExclusionPhrases);
    TitlesQuoteFree(mainTitle, synonyms);
    TitleKeepsNonLetter(mainTitle, '"');
    ActionPhrasesQuoteFree();
    var titles := TitlesPart(mainTitle, synonyms);
    assert QuoteFree(AnyOf(ActionPhrases)) && QuoteFree(titles) && QuoteFree(MainTitlePart(mainTitle));
    assert QuoteFree(plan[0]) && QuoteFree(plan[1]) && QuoteFree(plan[2]) && QuoteFree(plan[3]) && QuoteFree(plan[4]);
    forall k | 0 <= k < |plan|
      ensures OperatorCount(BuildBooleanQueries(mainTitle, synonyms)[k], {NOT}) == 0
    {
      RenderedOperators(plan[k], {NOT});
    }
  }

  lemma ActionPhrasesQuoteFree()
    ensures forall k :: 0 <= k < |ActionPhrases| ==> '"' !in ActionPhrases[k]
    ensures '"' !in "hiring"
  {
  }
}
