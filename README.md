# Smart job query generator, modelled in Dafny

The repository turns a job title into a short list of boolean search strings for a
job-posting search box. The strings look like `"Software Engineer" AND ("hiring" OR
"recruiting")`. They are built from the title-cased title, optional synonyms, and fixed
lists of action and exclusion phrases. Synonyms come from one of three sources:

- a fixed dictionary (`backend/main2.py`);
- a text generator whose reply is cleaned up (`backend/main3.py`, `backend/main4.py`);
- a key-value cache in front of a generator (`backend/server.py`, the FastAPI backend).

This project models each backend file's version of that logic, as the file has it:

- `text.dfy` (module `Text`): ASCII models of the Python string operations used. These are
  `strip()`, `lower()`, `title()` (CPython's "previous character is cased" rule), `split`,
  `re.split(r'[,\n]', ...)`, `join` and the substring test `a in b`.
- `query.dfy` (module `BooleanQuery`): a query tree (quoted phrase, parenthesised OR group,
  AND, NOT) and its rendering in exactly the f-string layout of the builders. It also has:
  - `Ops`, which counts operators on the tree;
  - `OperatorCount`, which reads the rendered text and counts operator words outside
    double quotes, as a search engine would.
  `RenderedOperators` proves the two counts agree.
- `generation.dfy`:
  - module `Generation`: what a generator call gives back (text, or an exception);
  - module `Cleaning`: the cleaning rules of `get_synonyms_from_llm`. The loop is the method
    `CleanCandidates`, proved against the specification function `Kept`; `list(set(...))`
    is the method `ListOfSet`.
- `server.dfy` (module `Server`): the four-query builder, the prompt and the comma-list
  parser of `llm_call`, the cache-aside `get_synonyms`, and the `/data` endpoint.
  - The cache is the class `SynonymCache`, whose map field the methods update.
  - The lookup is specified by the function `Resolve`.
- `main2.dfy`, `main3.dfy`, `main4.dfy` (modules `Main2`, `Main3`, `Main4`): each
  prototype's synonym source and query builder.

Each builder's query list is given as a plan of query trees over the action and
exclusion phrase lists (`QueryPlan`), rendered one by one (`Queries`);
`BuildBooleanQueries` fills in the file's own phrase lists.

The comment on the fourth query in `backend/server.py` and `backend/main4.py` calls it
the longest, under 250 characters. In `backend/server.py` it is the longest for every
title, and under 250 characters only for titles shorter than 144 characters. In
`backend/main4.py` the synonyms make the second and third queries longer than the fourth
once their widths pass 89 and 85 characters (`Main4.QueryLengths`, `Main4.FourthNotLongest`).

In `backend/server.py` none of `llm_call`, `get_synonyms` and `generate_smart_queries`
catches the generator's exception, so a failing call fails the request;
`Server.GenerateSmartQueries` then returns `Failed`.

## Model

| member | source | states |
|---|---|---|
| Text.Lower | backend/server.py:82 | `lower()` keeps the length, lower-cases each character, and leaves no upper-case letter |
| Text.Strip | backend/server.py:82 | `strip()` is never longer than its input, and the result is empty or starts and ends with a non-whitespace character |
| Text.StripInfix | backend/server.py:82 | `strip()` returns the infix `s[i..j]`; everything before `i` and from `j` on is whitespace |
| Text.StripEmptyIff | backend/server.py:108 | a piece strips to the empty string (and is dropped by `if s.strip()`) exactly when it is all whitespace |
| Text.StripStripped | backend/server.py:108 | a string with no whitespace at either end is its own `strip()` |
| Text.LowerIdempotent | backend/server.py:175 | lower-casing twice is lower-casing once |
| Text.LowerStripCommute | backend/main2.py:45 | `lower().strip()` and `strip().lower()` agree |
| Text.Title | backend/main3.py:60 | `title()` keeps the length (what it does at each position: `Text.TitleAt`) |
| Text.TitleAt | backend/main3.py:60 | `title()` changes only the case of letters: a letter stays a letter, and any other character is kept |
| Text.TitleOfLower | backend/server.py:120 | `title()` of the lower-cased title is `title()` of the title |
| Text.TitleIdempotent | backend/main3.py:60 | title-casing twice is title-casing once |
| Text.LowerOfTitle | backend/main3.py:67 | lower-casing a title-cased string gives the lower-cased original |
| Text.TitleKeepsNonLetter | backend/server.py:120 | `title()` neither adds nor removes a given non-letter such as `"` |
| Text.TitleEach | backend/main2.py:67 | the title-cased list has the same length, each element title-cased |
| Text.Split | backend/main3.py:57 | a split always yields at least one piece, even for empty text |
| Text.SplitPiecesHaveNoSeparator | backend/main3.py:57 | no piece of a split holds a separator |
| Text.SplitRejoin | backend/main3.py:57 | a split has one piece more than there are separators, and putting the separators back between the pieces gives back the text |
| Text.SplitNone | backend/main3.py:57 | text without separators splits into itself alone |
| Text.SplitAt | backend/main3.py:57 | a split cuts at the first separator and goes on with the rest |
| Text.JoinSplit | backend/server.py:108 | joining the pieces of `s.split(c)` with `c` gives back `s` |
| Text.SplitJoin | backend/server.py:108 | splitting a `c`-join of separator-free parts gives back the parts, in order |
| Text.IsSubstringIff | backend/main2.py:53 | `a in b` holds exactly when `a` occurs in `b` at some offset |
| BooleanQuery.QuoteEach | backend/server.py:125 | every phrase is wrapped in double quotes, in order |
| BooleanQuery.RenderedOperators | backend/server.py:136-150 | for a query whose phrases hold no `"`, the operator words read off the text are exactly the operators of the query tree |
| BooleanQuery.RenderedPhrase | backend/server.py:120-125 | every phrase of a query appears, quoted, in its text |
| BooleanQuery.GroupStartsWith | backend/main2.py:66-68 | an OR group's text opens with `(` and its first phrase quoted |
| Cleaning.Candidates | backend/main3.py:57 | `re.split` always yields at least one piece |
| Cleaning.CleanedForm | backend/main3.py:60-68 | `s.strip().title()` is no longer than the piece, has no surrounding whitespace, is already title-cased, and equals the stripped piece once both are lower-cased, so the filter on the input title at lines 67-68 drops a piece exactly when the stripped piece equals the title ignoring case |
| Cleaning.Kept | backend/main3.py:59-70 | every collected synonym is non-empty, at most 35 characters, and not the input title ignoring case |
| Cleaning.KeptSound | backend/main3.py:57-60 | every collected synonym is the stripped, title-cased form of some candidate |
| Cleaning.KeptComplete | backend/main3.py:59-70 | every candidate whose cleaned form passes the three filters is collected |
| Cleaning.CleanCandidates | backend/main3.py:54-70 | the cleaning loop collects exactly `Kept(candidates, jobTitle)` |
| Cleaning.ListOfSet | backend/main3.py:72 | `list(set(xs))` has no duplicates, holds exactly the elements of the set, and has as many elements as the set |
| Cleaning.ExampleSplit | backend/main4.py:46 | a sample reply, split the way this line splits, gives five pieces: the title, a blank, the synonym, the title again and the sentence |
| Cleaning.SentenceDropped | backend/main4.py:52 | a piece whose stripped text is over 35 characters is dropped |
| Cleaning.ExampleKept | backend/main4.py:46-55 | run through this cleaning loop, a sample reply for "Software Engineer" yields only "Backend Engineer" |
| Server.BuildBooleanQueries | backend/server.py:111-161 | `build_boolean_queries` returns four queries, the fourth extending the first, and every query contains the title-cased main title in double quotes |
| Server.QueriesShape | backend/server.py:137-161 | four queries, in this order: the quoted main title AND the action group; the titles group AND `"hiring"`; the same group AND `"recruiting"`; the first query AND the `NOT (...)` exclusion group |
| Server.EveryQueryQuotesTitle | backend/server.py:120-150 | every query contains the title-cased main title in double quotes |
| Server.QueriesLengths | backend/server.py:119-150 | for any non-empty action and exclusion lists: the first query is the title's length plus 5 plus the action group's width; the second is the title's length plus 17; the third is the title's length plus 21; the fourth is the first's length plus 7 plus the exclusion group's width |
| Server.QueryLengths | backend/server.py:147-150 | the queries have the title's length plus 69, 17, 21 and 106 characters; the fourth is the longest for every title, as the comment says, and is under 250 characters exactly when the title has fewer than 144 |
| Server.PhraseWidths | backend/server.py:39-50 | the action group prints as 62 characters and the exclusion group as 28 |
| Server.PlanOperators | backend/server.py:39-50 | the queries use 4, 1, 1 and 7 operators, all within the limit of 9 |
| Server.PhrasesQuoteFree | backend/server.py:40-50 | none of the fixed phrases holds a double quote |
| Server.QueriesOperators | backend/server.py:136-150 | read off the rendered text, the four queries hold 4, 1, 1 and 7 operator words, when the title has no double quote |
| Server.QueriesIgnoreCase | backend/server.py:175 | building from the lower-cased title gives the same queries as building from the title |
| Server.Prompt | backend/server.py:99-103 | the prompt holds the title in single quotes |
| Server.Trimmed | backend/server.py:108 | the comprehension keeps at most as many elements as there are pieces |
| Server.StripKeepsNoComma | backend/server.py:108 | stripping a piece without commas leaves no comma |
| Server.PiecesCommaFree | backend/server.py:108 | no piece of `s.split(",")` holds a comma |
| Server.TrimmedItems | backend/server.py:108 | every element kept from comma-free pieces is non-empty, has no surrounding whitespace and no comma |
| Server.ParseList | backend/server.py:106-108 | every element of the parsed reply is non-empty, has no surrounding whitespace and no comma |
| Server.ParseJoined | backend/server.py:106-108 | a comma-joined list of such elements parses back to the same list, in the same order |
| Server.LlmCall | backend/server.py:93-109 | the call fails exactly when the generator raises on the prompt; otherwise every returned element is non-empty, trimmed and comma-free |
| Server.NormalizedKey | backend/server.py:82 | `jobTitle.strip().lower()` is no longer than the title, has no surrounding whitespace and no upper-case letter (lower-casing it again changes nothing) |
| Server.NormalizedKeyIgnoresCase | backend/server.py:82 | normalising the lower-cased title gives the same key as normalising the title |
| Server.Resolve | backend/server.py:74-91 | `get_synonyms` against a store: the generator is called exactly when the normalised key is missing; a returned list is stored under the key (a hit leaves the store as it is); a raising call leaves the store unchanged |
| Server.ResolveKey | backend/server.py:84-91 | the same, once the key is normalised |
| Server.ResolveHit | backend/server.py:82-87 | on a hit the stored list for the normalised key is returned, the store is unchanged, the generator is not called, and the outcome is the same whatever the generator would answer |
| Server.ResolveMiss | backend/server.py:88-91 | on a miss the generator is called once; its list is returned and stored under the key, and if it raises nothing is written |
| Server.ResolveFrame | backend/server.py:84-90 | no entry but the normalised key of the title is added, removed or changed |
| Server.ResolveTwice | backend/server.py:82-91 | after a lookup that returned a list, a second lookup of any title with the same normalised key (the title in another case, or with other surrounding whitespace) is a hit that returns the same list, whatever the generator would do |
| Server.ResolveIgnoresCase | backend/server.py:178 | looking up the lower-cased title is looking up the title |
| Server.SynonymCache.constructor | backend/server.py:28 | the model starts from an empty store (entries left by an earlier run: see "## Left out") |
| Server.SynonymCache.GetSynonyms | backend/server.py:74-91 | the result and the new store are those of `Resolve`; the generator is asked about the normalised key exactly when the key was missing |
| Server.SynonymCache.Expire | backend/server.py:90 | when the time to live ends, only that key's entry is dropped |
| Server.GenerateSmartQueries | backend/server.py:163-188 | the store and the record of generator calls are updated as by the lookup of the title (the generator is asked about the normalised key exactly on a miss); on success the answer is the fixed message, the four queries for the title and the looked-up synonyms; a raising generator makes the request fail |
| Main2.Lookup | backend/main2.py:41-56 | `get_synonyms` over a table returns the empty list or the list of one of its entries |
| Main2.GetSynonyms | backend/main2.py:41-56 | the same for the file's own table |
| Main2.Exact | backend/main2.py:47-49 | the exact lookup finds only the list of an entry whose key equals the normalised title |
| Main2.Partial | backend/main2.py:51-54 | the partial lookup finds only the list of an entry whose key occurs in the normalised title |
| Main2.SynonymTableKeysDistinct | backend/main2.py:5-17 | the synonym table has no key twice |
| Main2.ExactFinds | backend/main2.py:48-49 | the exact lookup returns the entry of the key that equals the normalised title |
| Main2.ExactMisses | backend/main2.py:48 | the exact lookup finds nothing exactly when no key equals the normalised title |
| Main2.PartialFindsFirst | backend/main2.py:52-54 | the partial lookup returns the entry of the first key, in table order, that occurs in the normalised title |
| Main2.PartialMisses | backend/main2.py:52-54 | the partial lookup finds nothing exactly when no key occurs in the normalised title |
| Main2.LookupExact | backend/main2.py:45-49 | a title whose normalised form is a key gets exactly that key's list |
| Main2.GetSynonymsExact | backend/main2.py:45-49 | the same for the file's own table |
| Main2.LookupPartial | backend/main2.py:52-54 | otherwise the title gets the list of the first key, in table order, that occurs in its normalised form |
| Main2.LookupNone | backend/main2.py:56 | a title that matches no key, exactly or in part, gets the empty list |
| Main2.BuildBooleanQueries | backend/main2.py:60-106 | `build_boolean_queries` returns five queries, the first two the same, and every query contains the title-cased main title in double quotes |
| Main2.QueriesShape | backend/main2.py:79-106 | five queries: the first two are the same (the titles group AND the action group), then the titles group AND `"hiring"`, the quoted main title AND `"hiring"`, and the titles group alone |
| Main2.TitlesGroup | backend/main2.py:66-68 | the titles group lists the title-cased main title first, then each title-cased synonym, with as many ORs as synonyms |
| Main2.EveryQueryQuotesTitle | backend/main2.py:66-104 | every query contains the title-cased main title in double quotes |
| Main2.NoExclusions | backend/main2.py:75-104 | no query contains the exclusion group or any NOT, although the group is built |
| Main2.PlanOperators | backend/main2.py:66-104 | the queries use n+6, n+6, n+1, 1 and n operators for n synonyms |
| Main2.TitlesQuoteFree | backend/main2.py:66-68 | the titles group has no double quote inside a phrase when the titles have none |
| Main2.ActionPhrasesQuoteFree | backend/main2.py:20-27 | none of the action phrases holds a double quote |
| Main2.NoNotInText | backend/main2.py:75-104 | read off the rendered text, no query holds the word NOT, when no title holds a double quote |
| Main3.GetSynonymsFromLlm | backend/main3.py:35-76 | a raising generator gives `[]`; otherwise the result has no duplicates and holds exactly the collected synonyms |
| Main3.BuildBooleanQueries | backend/main3.py:80-108 | `build_boolean_queries` returns six queries, the second extending the first, and every query contains the title-cased main title in double quotes |
| Main3.QueriesShape | backend/main3.py:100-108 | six queries; the first is the titles group AND the action group, the second is the first AND the `NOT (...)` exclusion group (so the first is a prefix of it), the last is the titles group alone |
| Main3.FocusedQueries | backend/main3.py:103-105 | the third query is the quoted main title AND the actions AND the exclusions; the fourth and fifth are the titles group and the quoted main title, each AND `"hiring"` |
| Main3.EveryQueryQuotesTitle | backend/main3.py:87-106 | every query contains the title-cased main title in double quotes |
| Main3.PlanOperators | backend/main3.py:86-106 | the queries use n+5, n+13, 13, n+1, 1 and n operators for n synonyms |
| Main4.GetSynonymsFromLlm | backend/main4.py:29-64 | a raising generator gives `[]`; otherwise at most 3 distinct collected synonyms, as many as there are distinct collected synonyms up to 3 |
| Main4.Example | backend/main4.py:46-60 | given a sample reply and the title "Software Engineer", this code returns exactly `["Backend Engineer"]` |
| Main4.BuildBooleanQueries | backend/main4.py:68-117 | `build_boolean_queries` returns four queries, the fourth extending the first, and every query contains the title-cased main title in double quotes |
| Main4.QueriesShape | backend/main4.py:93-117 | four queries, in this order: the quoted main title AND the action group; the titles group (main title title-cased, synonyms as given) AND `"hiring"`; the same group AND `"recruiting"`; the first query AND the `NOT (...)` exclusion group |
| Main4.SamePhrases | backend/main4.py:15-25 | the action and exclusion phrases are the backend's |
| Main4.SameTemplatesAsServer | backend/main4.py:68-117 | without synonyms the queries are the backend's; with synonyms the first and last still are |
| Main4.EveryQueryQuotesTitle | backend/main4.py:77-106 | every query contains the title-cased main title in double quotes |
| Main4.QueryLengths | backend/main4.py:79-106 | the first and fourth queries have the title's length plus 69 and 106 characters; the second and third have the title's length plus 17 and 21, each plus the synonyms' width (every synonym's length plus 6); so the third is longer than the fourth exactly when that width exceeds 85, and the second exactly when it exceeds 89 |
| Main4.FourthNotLongest | backend/main4.py:103-105 | three synonyms of 25 characters each, within the caps of 3 synonyms and 35 characters, make the second and third queries longer than the fourth, against the comment that calls the fourth the longest |
| BooleanQuery.GroupLength | backend/main4.py:81 | an OR group prints as six characters per phrase plus the phrases' lengths, less two |
| Main4.PlanOperators | backend/main4.py:79-101 | the queries use 4, n+1, n+1 and 7 operators for n synonyms; with at most 3 synonyms the titles group has at most 4 phrases and queries 2 and 3 at most 4 operators |

## Left out

- The FastAPI application, the CORS middleware, uvicorn, dotenv and the generator's API key
  set-up: transport and configuration only.
- The Redis connection and its wall-clock time to live: the store is a map, and
  `SynonymCache.Expire` stands for an entry reaching its time to live.
- Server.SynonymCache.constructor: starts from an empty store, whereas the Redis server
  may still hold entries an earlier run wrote within their 24-hour time to live. No
  lemma depends on the empty start: `Resolve` and every lemma about it hold for any
  store.
- `json.dumps` and `json.loads`: taken to round-trip a list of strings exactly, so the store
  holds the lists themselves.
- The Gemini and Hugging Face model calls and `load_model`. A call's reply is an input:
  - in `Server`, a function from prompt to reply;
  - in `Main3` and `Main4`, the reply to the one call.
  An exception raised by the call, or while reading `outputs[0]['generated_text']`, is the
  reply `Raised`.
- The prompts of `backend/main3.py` and `backend/main4.py`: the reply does not depend on them
  in the model.
- The Streamlit user interface, `st.error` and `print(synonyms)`: output only.
- `ROLE_SYNONYMS` in `backend/server.py`: only commented-out code uses it.
- The commented-out queries and the unused `Form` flags.
- The React form under `frontend/`: user interface and network only.
- Characters outside ASCII: `lower()`, `title()` and `isspace()` are modelled on ASCII only.
- Main3.GetSynonymsFromLlm, Main4.GetSynonymsFromLlm: the order of `list(set(...))` is left
  open, as Python leaves it, so which 3 synonyms `[:3]` keeps is stated only as a count
  and as membership.
- Server.QueriesOperators, Main2.NoNotInText: the operator counts read off the text are stated only for
  titles without double quotes; a title with a `"` would open a quoted stretch early.
