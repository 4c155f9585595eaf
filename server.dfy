/** The FastAPI backend: the four-query builder, the comma-list parser of the generator's
    reply, the cache-aside synonym lookup over the key-value store, and the `/data`
    endpoint that combines them. */
module Server {
  import opened Text
  import opened BooleanQuery
  import opened Generation

  // ------------------------------------------------------------ build_boolean_queries

  /** Kept to at most four entries so that no OR group has more than three ORs. */
  const ActionPhrases: seq<string> := ["hiring", "recruiting", "join our team", "looking for"]
  const ExclusionPhrases: seq<string> := ["internship", "contract"]

  /** `f'"{main_title.title()}"'` */
  function MainTitlePart(mainTitle: string): Query
  {
    Phrase(Title(mainTitle))
  }

  /** The OR group over `[main_title.title()]`; the synonyms are not added. */
  function TitlesPart(mainTitle: string): Query
  {
    AnyOf([Title(mainTitle)])
  }

  /** The four queries, in the order they are appended, over the action phrases
      `actions` and the exclusion phrases `exclusions`. */
  function QueryPlan(mainTitle: string, actions: seq<string>, exclusions: seq<string>): seq<Query>
  {
    var main := MainTitlePart(mainTitle);
    var titles := TitlesPart(mainTitle);
    [ And(main, AnyOf(actions)),
      And(titles, Phrase("hiring")),
      And(titles, Phrase("recruiting")),
      And(And(main, AnyOf(actions)), Not(AnyOf(exclusions))) ]
  }

  /** The four query templates, filled in. */
  function Queries(mainTitle: string, actions: seq<string>, exclusions: seq<string>): seq<string>
  {
    var plan := QueryPlan(mainTitle, actions, exclusions);
    seq(|plan|, k requires 0 <= k < |plan| => Render(plan[k]))
  }

  /** `build_boolean_queries(main_title)` */
  function BuildBooleanQueries(mainTitle: string): (queries: seq<string>)
    ensures |queries| == 4 && queries[0] <= queries[3]
    ensures forall k :: 0 <= k < |queries| ==> IsSubstring(Quote(Title(mainTitle)), queries[k])
  {
    QueriesOutline(mainTitle, ActionPhrases, ExclusionPhrases);
    Queries(mainTitle, ActionPhrases, ExclusionPhrases)
  }

  /** The fourth query extends the first, and every query quotes the main title. */
  lemma QueriesOutline(mainTitle: string, actions: seq<string>, exclusions: seq<string>)
    ensures var q := Queries(mainTitle, actions, exclusions);
      && |q| == 4 && q[0] <= q[3]
      && forall k :: 0 <= k < |q| ==> IsSubstring(Quote(Title(mainTitle)), q[k])
  {
    QueriesShape(mainTitle, actions, exclusions);
    EveryQueryQuotesTitle(mainTitle, actions, exclusions);
  }

  /** Four queries: main title with the actions; the titles group with "hiring", then
      with "recruiting" (the same prefix each time); and the first query again with the
      exclusion group added at its end. */
  lemma QueriesShape(mainTitle: string, actions: seq<string>, exclusions: seq<string>)
    ensures var q := Queries(mainTitle, actions, exclusions);
      && |q| == 4
      && q[0] == Quote(Title(mainTitle)) + " AND " + Render(AnyOf(actions))
      && q[1] == Render(TitlesPart(mainTitle)) + " AND " + Quote("hiring")
      && q[2] == Render(TitlesPart(mainTitle)) + " AND " + Quote("recruiting")
      && q[3] == q[0] + " AND " + Render(Not(AnyOf(exclusions)))
  {
    var q, plan := Queries(mainTitle, actions, exclusions), QueryPlan(mainTitle, actions, exclusions);
    assert q[0] == Render(plan[0]) && q[3] == Render(plan[3]);
    assert q[1] == Render(plan[1]) && q[2] == Render(plan[2]);
    assert Render(MainTitlePart(mainTitle)) == Quote(Title(mainTitle));
    assert Render(Phrase("hiring")) == Quote("hiring");
    assert Render(Phrase("recruiting")) == Quote("recruiting");
  }

  /** Every query quotes the title-cased main title. */
  lemma {:induction false} EveryQueryQuotesTitle(mainTitle: string, actions: seq<string>, exclusions: seq<string>)
    ensures forall k :: 0 <= k < |Queries(mainTitle, actions, exclusions)| ==>
      IsSubstring(Quote(Title(mainTitle)), Queries(mainTitle, actions, exclusions)[k])
  {
    var plan := QueryPlan(mainTitle, actions, exclusions);
    forall k | 0 <= k < |plan|
      ensures IsSubstring(Quote(Title(mainTitle)), Queries(mainTitle, actions, exclusions)[k])
    {
      assert HasPhrase(plan[k], Title(mainTitle));
      RenderedPhrase(plan[k], Title(mainTitle));
    }
  }

  /** The operator counts are 4, 1, 1 and 7, all within the limit of 9. */
  lemma PlanOperators(mainTitle: string)
    ensures var plan := QueryPlan(mainTitle, ActionPhrases, ExclusionPhrases);
      && OperatorTotal(plan[0]) == 4
      && OperatorTotal(plan[1]) == 1
      && OperatorTotal(plan[2]) == 1
      && OperatorTotal(plan[3]) == 7
      && forall k :: 0 <= k < |plan| ==> OperatorTotal(plan[k]) <= 9
  {
    var actions, exclusions := AnyOf(ActionPhrases), Not(AnyOf(ExclusionPhrases));
    assert |ActionPhrases| == 4 && |ExclusionPhrases| == 2;
    assert OR in Operators && AND in Operators && NOT in Operators;
    assert OperatorTotal(actions) == 3;
    assert Ops(AnyOf(ExclusionPhrases), Operators) == 1;
    assert OperatorTotal(exclusions) == 2;
    assert OperatorTotal(TitlesPart(mainTitle)) == 0;
    assert OperatorTotal(MainTitlePart(mainTitle)) == 0;
    assert OperatorTotal(Phrase("hiring")) == 0 && OperatorTotal(Phrase("recruiting")) == 0;
  }

  /** The lengths of the four queries over any non-empty phrase lists: each OR group
      prints as the widths of its phrases, six characters apiece, less two. */
  lemma QueriesLengths(mainTitle: string, actions: seq<string>, exclusions: seq<string>)
    requires actions != [] && exclusions != []
    ensures var q := Queries(mainTitle, actions, exclusions);
      && |q| == 4
      && |q[0]| == |mainTitle| + 5 + GroupWidth(actions)
      && |q[1]| == |mainTitle| + 17
      && |q[2]| == |mainTitle| + 21
      && |q[3]| == |q[0]| + 7 + GroupWidth(exclusions)
  {
    QueriesShape(mainTitle, actions, exclusions);
    GroupLength(actions);
    GroupLength(exclusions);
    GroupLength([Title(mainTitle)]);
    assert GroupWidth([Title(mainTitle)]) == |mainTitle| + 6;
  }

  /** The comment on the fourth query calls it the longest, under 250 characters. It is
      the longest for every title, and under 250 characters exactly when the title has
      fewer than 144. */
  lemma QueryLengths(mainTitle: string)
    ensures var q := BuildBooleanQueries(mainTitle);
      && |q[0]| == |mainTitle| + 69
      && |q[1]| == |mainTitle| + 17
      && |q[2]| == |mainTitle| + 21
      && |q[3]| == |mainTitle| + 106
      && (forall k :: 0 <= k < |q| ==> |q[k]| <= |q[3]|)
      && (|q[3]| < 250 <==> |mainTitle| < 144)
  {
    QueriesLengths(mainTitle, ActionPhrases, ExclusionPhrases);
    PhraseWidths();
  }

  /** The action group prints as 62 characters and the exclusion group as 28. */
  lemma PhraseWidths()
    ensures GroupWidth(ActionPhrases) == 64 && GroupWidth(ExclusionPhrases) == 30
  {
  }

  /** None of the fixed phrases holds a double quote. */
  lemma PhrasesQuoteFree()
    ensures forall k :: 0 <= k < |ActionPhrases| ==> '"' !in ActionPhrases[k]
    ensures forall k :: 0 <= k < |ExclusionPhrases| ==> '"' !in ExclusionPhrases[k]
    ensures '"' !in "hiring" && '"' !in "recruiting"
  {
  }

  /** The same counts are what a search engine reads off the rendered text, as long as the
      title has no double quote of its own. */
  lemma {:induction false} QueriesOperators(mainTitle: string)
    requires '"' !in mainTitle
    ensures var q := BuildBooleanQueries(mainTitle);
      && OperatorCount(q[0], Operators) == 4
      && OperatorCount(q[1], Operators) == 1
      && OperatorCount(q[2], Operators) == 1
      && OperatorCount(q[3], Operators) == 7
  {
    var plan := QueryPlan(mainTitle, ActionPhrases, ExclusionPhrases);
    TitleKeepsNonLetter(mainTitle, '"');
    assert '"' !in Title(mainTitle);
    assert [Title(mainTitle)][0] == Title(mainTitle);
    assert QuoteFree(TitlesPart(mainTitle)) && QuoteFree(MainTitlePart(mainTitle));
    PhrasesQuoteFree();
    PlanOperators(mainTitle);
    forall k | 0 <= k < 4
      ensures OperatorCount(BuildBooleanQueries(mainTitle)[k], Operators) == OperatorTotal(plan[k])
    {
      assert QuoteFree(AnyOf(ActionPhrases)) && QuoteFree(Not(AnyOf(ExclusionPhrases)));
      assert QuoteFree(plan[0]) && QuoteFree(plan[1]) && QuoteFree(plan[2]) && QuoteFree(plan[3]);
      RenderedOperators(plan[k], Operators);
    }
  }

  /** Building from the lower-cased title, as the endpoint does, gives the same queries. */
  lemma {:induction false} QueriesIgnoreCase(mainTitle: string)
    ensures BuildBooleanQueries(Lower(mainTitle)) == BuildBooleanQueries(mainTitle)
  {
    TitleOfLower(mainTitle);
  }

  // ------------------------------------------------------------ llm_call

  const PromptOpening: string :=
    "\n    Strictly list only 4 alternative professional job titles or synonyms that mean the same as "
  const PromptClosing: string :=
    ".\n    Focus on realistic variations used in job postings.\n    Output them as a comma-separated list.\n    "

  /** The prompt sent to the generator for `title`: the title in single quotes inside a
      fixed request for four comma-separated alternatives. */
  function Prompt(title: string): (prompt: string)
    ensures IsSubstring("'" + title + "'", prompt)
  {
    QuotedInFrame(PromptOpening, title, PromptClosing);
    PromptOpening + "'" + title + "'" + PromptClosing
  }

  /** A title put in single quotes between two texts occurs, quoted, in the result. */
  lemma QuotedInFrame(opening: string, title: string, closing: string)
    ensures IsSubstring("'" + title + "'", opening + "'" + title + "'" + closing)
  {
    assert opening + "'" + title + "'" + closing == opening + ("'" + title + "'") + closing;
    IsSubstringMiddle(opening, "'" + title + "'", closing);
  }

  /** `[s.strip() for s in pieces if s.strip()]` */
  function Trimmed(pieces: seq<string>): (items: seq<string>)
    ensures |items| <= |pieces|
  {
    if pieces == [] then []
    else (if Strip(pieces[0]) != [] then [Strip(pieces[0])] else []) + Trimmed(pieces[1..])
  }

  /** `[s.strip() for s in text.strip().split(",") if s.strip()]`: every element is
      non-empty, has no surrounding whitespace and no comma. */
  function ParseList(text: string): (items: seq<string>)
    ensures forall x :: x in items ==> IsItem(x)
  {
    PiecesCommaFree(Strip(text));
    TrimmedItems(Split(Strip(text), {','}));
    Trimmed(Split(Strip(text), {','}))
  }

  /** What `strip()` keeps of a piece without commas has no comma either. */
  lemma StripKeepsNoComma(s: string)
    requires ',' !in s
    ensures ',' !in Strip(s)
  {
    var i, j := StripInfix(s);
    forall c | c in s[i..j]
      ensures c in s
    {
      var k :| 0 <= k < j - i && s[i..j][k] == c;
      assert s[i + k] == c;
    }
  }

  /** Items a list may hold: not empty, without surrounding whitespace, without a comma. */
  predicate IsItem(x: string)
  {
    x != [] && !IsSpace(x[0]) && !IsSpace(x[|x| - 1]) && ',' !in x
  }

  /** A piece without commas that does not strip to nothing strips to an item. */
  lemma StrippedPieceIsItem(piece: string)
    requires ',' !in piece && Strip(piece) != []
    ensures IsItem(Strip(piece))
  {
    StripKeepsNoComma(piece);
  }

  lemma {:induction false} TrimmedItems(pieces: seq<string>)
    requires forall p :: p in pieces ==> ',' !in p
    ensures forall x :: x in Trimmed(pieces) ==> IsItem(x)
    decreases |pieces|
  {
    if pieces != [] {
      var rest := Trimmed(pieces[1..]);
      assert forall q :: q in pieces[1..] ==> q in pieces;
      TrimmedItems(pieces[1..]);
      assert pieces[0] in pieces;
      forall x | x in Trimmed(pieces)
        ensures IsItem(x)
      {
        if x !in rest {
          StrippedPieceIsItem(pieces[0]);
        }
      }
    }
  }

  /** No piece of `s.split(",")` holds a comma. */
  lemma PiecesCommaFree(s: string)
    ensures forall p :: p in Split(s, {','}) ==> ',' !in p
  {
    SplitPiecesHaveNoSeparator(s, {','});
    forall p | p in Split(s, {','}) ensures ',' !in p {
      assert NoSeparator(p, {','});
    }
  }

  lemma {:induction false} TrimmedKeepsItems(xs: seq<string>)
    requires forall k :: 0 <= k < |xs| ==> IsItem(xs[k])
    ensures Trimmed(xs) == xs
    decreases |xs|
  {
    if xs != [] {
      TrimmedKeepsItems(xs[1..]);
      assert IsItem(xs[0]);
    }
  }

  /** A join of non-empty parts starts with the first part's first character and ends
      with the last part's last character. */
  lemma {:induction false} JoinEnds(sep: string, xs: seq<string>)
    requires xs != [] && forall k :: 0 <= k < |xs| ==> xs[k] != []
    ensures var j := Join(sep, xs);
      j != [] && j[0] == xs[0][0] && j[|j| - 1] == xs[|xs| - 1][|xs[|xs| - 1]| - 1]
    decreases |xs|
  {
    if |xs| > 1 {
      JoinEnds(sep, xs[1..]);
    }
  }

  /** The parser keeps the order of the list it reads: a comma-joined list of items
      parses back to itself. */
  lemma ParseJoined(xs: seq<string>)
    requires forall k :: 0 <= k < |xs| ==> IsItem(xs[k])
    ensures ParseList(Join(",", xs)) == xs
  {
    var text := Join(",", xs);
    if xs == [] {
      assert Strip(text) == [];
    } else {
      assert IsItem(xs[0]) && IsItem(xs[|xs| - 1]);
      JoinedItemsStripped(xs);
      assert "," == [','];
      SplitJoin(xs, ',', {','});
    }
    TrimmedKeepsItems(xs);
  }

  /** A comma-joined list of non-empty parts whose first and last are items has no
      surrounding whitespace. */
  lemma JoinedItemsStripped(xs: seq<string>)
    requires xs != [] && forall k :: 0 <= k < |xs| ==> xs[k] != []
    requires IsItem(xs[0]) && IsItem(xs[|xs| - 1])
    ensures Strip(Join(",", xs)) == Join(",", xs)
  {
    JoinEnds(",", xs);
    StripStripped(Join(",", xs));
  }

  /** `llm_call(title)`: the reply to the prompt, parsed; a raising call propagates. */
  function LlmCall(title: string, llm: string -> Reply): (r: Outcome<seq<string>>)
    ensures r.Failed? <==> llm(Prompt(title)).Raised?
    ensures r.Ok? ==> forall x :: x in r.value ==> IsItem(x)
  {
    match llm(Prompt(title))
    case Raised => Failed
    case Generated(text) => Ok(ParseList(text))
  }

  // ------------------------------------------------------------ get_synonyms

  /** `jobTitle.strip().lower()`, the key both the store and the generator see. */
  function NormalizedKey(jobTitle: string): (key: string)
    ensures |key| <= |jobTitle|
    ensures key == [] || (!IsSpace(key[0]) && !IsSpace(key[|key| - 1]))
    ensures Lower(key) == key
  {
    LowerIdempotent(Strip(jobTitle));
    Lower(Strip(jobTitle))
  }

  /** Lower-casing the title before the lookup, as the endpoint does, changes nothing. */
  lemma {:induction false} NormalizedKeyIgnoresCase(jobTitle: string)
    ensures NormalizedKey(Lower(jobTitle)) == NormalizedKey(jobTitle)
  {
    LowerStripCommute(jobTitle);
    LowerIdempotent(Strip(jobTitle));
    LowerStripCommute(Lower(jobTitle));
    LowerIdempotent(jobTitle);
  }

  /** The outcome of one lookup: what it returns, the store afterwards, and whether it
      called the generator. */
  datatype Resolution = Resolution(result: Outcome<seq<string>>, store: map<string, seq<string>>, generated: bool)

  /** `get_synonyms(jobTitle)` against `store`. Any stored list is a hit, even an empty
      one, because the stored JSON text `"[]"` is not empty. A miss calls the generator
      and stores its list under the key; a raising call propagates and stores nothing. */
  function Resolve(store: map<string, seq<string>>, jobTitle: string, llm: string -> Reply): (r: Resolution)
    ensures r.generated <==> NormalizedKey(jobTitle) !in store
    ensures r.result.Ok? ==> r.store == store[NormalizedKey(jobTitle) := r.result.value]
    ensures r.result.Failed? ==> r.store == store
  {
    ResolveKey(store, NormalizedKey(jobTitle), llm)
  }

  /** The lookup once the key is normalised. */
  function ResolveKey(store: map<string, seq<string>>, key: string, llm: string -> Reply): (r: Resolution)
    ensures r.generated <==> key !in store
    ensures r.result.Ok? ==> r.store == store[key := r.result.value]
    ensures r.result.Failed? ==> r.store == store
  {
    if key in store then Resolution(Ok(store[key]), store, false)
    else
      match LlmCall(key, llm)
      case Failed => Resolution(Failed, store, true)
      case Ok(synonyms) => Resolution(Ok(synonyms), store[key := synonyms], true)
  }

  /** A hit returns the stored list for the normalised key and does not generate: the
      outcome is the same whatever the generator `llm'` would answer. */
  lemma ResolveHit(store: map<string, seq<string>>, jobTitle: string, llm: string -> Reply, llm': string -> Reply)
    requires NormalizedKey(jobTitle) in store
    ensures var r := Resolve(store, jobTitle, llm);
      && r.result == Ok(store[NormalizedKey(jobTitle)]) && r.store == store && !r.generated
      && Resolve(store, jobTitle, llm') == r
  {
  }

  /** A miss generates once; on success the list is returned and stored under the key,
      and every other entry is kept; on failure nothing is written. */
  lemma ResolveMiss(store: map<string, seq<string>>, jobTitle: string, llm: string -> Reply)
    requires NormalizedKey(jobTitle) !in store
    ensures var r := Resolve(store, jobTitle, llm);
      var key := NormalizedKey(jobTitle);
      && r.generated && r.result == LlmCall(key, llm)
      && (r.result.Ok? ==> r.store == store[key := r.result.value])
      && (r.result.Failed? ==> r.store == store && llm(Prompt(key)).Raised?)
  {
  }

  /** Only the normalised key of the title can change. */
  lemma ResolveFrame(store: map<string, seq<string>>, jobTitle: string, llm: string -> Reply, other: string)
    requires other != NormalizedKey(jobTitle)
    ensures var r := Resolve(store, jobTitle, llm);
      (other in r.store <==> other in store) && (other in store ==> r.store[other] == store[other])
  {
    if NormalizedKey(jobTitle) in store {
      ResolveHit(store, jobTitle, llm, llm);
    } else {
      ResolveMiss(store, jobTitle, llm);
    }
  }

  /** After a lookup that returned a list, any title with the same key (the same title
      in another case or with other surrounding whitespace) is a hit that returns the
      same list without generating, whatever the generator would do. */
  lemma {:induction false} ResolveTwice(store: map<string, seq<string>>, jobTitle: string, llm: string -> Reply,
                                        again: string, llm': string -> Reply)
    requires Resolve(store, jobTitle, llm).result.Ok?
    requires NormalizedKey(again) == NormalizedKey(jobTitle)
    ensures var first := Resolve(store, jobTitle, llm);
      Resolve(first.store, again, llm') == Resolution(first.result, first.store, false)
  {
    var key := NormalizedKey(jobTitle);
    var first := Resolve(store, jobTitle, llm);
    if key in store {
      ResolveHit(store, jobTitle, llm, llm);
    } else {
      ResolveMiss(store, jobTitle, llm);
    }
    assert key in first.store && first.store[key] == first.result.value;
    ResolveHit(first.store, again, llm', llm');
  }

  /** The endpoint's lower-casing of the title does not change the lookup. */
  lemma ResolveIgnoresCase(store: map<string, seq<string>>, jobTitle: string, llm: string -> Reply)
    ensures Resolve(store, Lower(jobTitle), llm) == Resolve(store, jobTitle, llm)
  {
    NormalizedKeyIgnoresCase(jobTitle);
  }

  /** The key-value store, reduced to the map of decoded lists it holds. */
  class SynonymCache {
    var store: map<string, seq<string>>
    /** The titles the generator has been asked about so far. */
    ghost var asked: seq<string>

    constructor ()
      ensures store == map[] && asked == []
    {
      store := map[];
      asked := [];
    }

    /** `get_synonyms(jobTitle)` */
    method GetSynonyms(jobTitle: string, llm: string -> Reply) returns (result: Outcome<seq<string>>)
      modifies this
      ensures var r := Resolve(old(store), jobTitle, llm);
        result == r.result && store == r.store
        && asked == old(asked) + (if r.generated then [NormalizedKey(jobTitle)] else [])
    {
      var key := NormalizedKey(jobTitle);
      if key in store {
        ResolveHit(store, jobTitle, llm, llm);
        result := Ok(store[key]);
        return;
      }
      ResolveMiss(store, jobTitle, llm);
      asked := asked + [key];
      result := LlmCall(key, llm);
      if result.Ok? {
        store := store[key := result.value];
      }
    }

    /** The entry for `key` reaches its time to live and is dropped. */
    method Expire(key: string)
      modifies this
      ensures store == old(store) - {key} && asked == old(asked)
    {
      store := store - {key};
    }
  }

  // ------------------------------------------------------------ generate_smart_queries

  /** The JSON body the endpoint answers with. */
  datatype Response = Response(message: string, data: seq<string>, additionalJobTitles: seq<string>)

  const Received: string := "Form received successfully!"

  /** `POST /data`: the queries for the lower-cased title and its synonyms. A raising
      generator call is not caught here, so the request fails. */
  method GenerateSmartQueries(cache: SynonymCache, jobTitle: string, llm: string -> Reply)
    returns (response: Outcome<Response>)
    modifies cache
    ensures var r := Resolve(old(cache.store), jobTitle, llm);
      && cache.store == r.store
      && cache.asked == old(cache.asked) + (if r.generated then [NormalizedKey(jobTitle)] else [])
      && (r.result.Ok? ==> response == Ok(Response(Received, BuildBooleanQueries(jobTitle), r.result.value)))
      && (r.result.Failed? ==> response == Failed)
  {
    var title := Lower(jobTitle);
    var queries := BuildBooleanQueries(title);
    QueriesIgnoreCase(jobTitle);
    ResolveIgnoresCase(old(cache.store), jobTitle, llm);
    NormalizedKeyIgnoresCase(jobTitle);
    var synonyms := cache.GetSynonyms(title, llm);
    if synonyms.Failed? {
      response := Failed;
    } else {
      response := Ok(Response(Received, queries, synonyms.value));
    }
  }
}
