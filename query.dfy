/** The boolean search queries the builders produce, as a small syntax tree, the
    f-string templates that print them, and the number of boolean operators in them
    (the quantity the search engine limits). */
module BooleanQuery {
  import opened Text

  /** A query as the templates assemble it. */
  datatype Query =
    | Phrase(text: string)            // "text"
    | AnyOf(phrases: seq<string>)     // ("a" OR "b" OR ...), `f"({' OR '.join(...)})"`
    | And(left: Query, right: Query)  // left AND right
    | Not(operand: Query)             // NOT operand

  const AND: string := "AND"
  const OR: string := "OR"
  const NOT: string := "NOT"

  /** The words the search engine reads as boolean operators. */
  const Operators: set<string> := {AND, OR, NOT}

  /** `f'"{t}"'` */
  function Quote(t: string): (r: string)
    ensures |r| == |t| + 2 && r[0] == '"' && r[|r| - 1] == '"' && r[1..|r| - 1] == t
  {
    "\"" + t + "\""
  }

  /** `[f'"{t}"' for t in ts]` */
  function QuoteEach(ts: seq<string>): (r: seq<string>)
    ensures |r| == |ts|
    ensures forall k :: 0 <= k < |ts| ==> r[k] == Quote(ts[k])
  {
    if ts == [] then [] else [Quote(ts[0])] + QuoteEach(ts[1..])
  }

  /** The text of a query, as the source's f-strings print it. */
  function Render(q: Query): string
  {
    match q
    case Phrase(t) => Quote(t)
    case AnyOf(ts) => "(" + Join(" OR ", QuoteEach(ts)) + ")"
    case And(l, r) => Render(l) + " AND " + Render(r)
    case Not(x) => "NOT " + Render(x)
  }

  /** How many of the operators in `counted` the query uses: an OR group of n phrases
      has n - 1 ORs, each And one AND, each Not one NOT. */
  function Ops(q: Query, counted: set<string>): nat
  {
    match q
    case Phrase(_) => 0
    case AnyOf(ts) => if OR in counted && ts != [] then |ts| - 1 else 0
    case And(l, r) => Ops(l, counted) + (if AND in counted then 1 else 0) + Ops(r, counted)
    case Not(x) => (if NOT in counted then 1 else 0) + Ops(x, counted)
  }

  /** Every boolean operator of the query. */
  function OperatorTotal(q: Query): nat
  {
    Ops(q, Operators)
  }

  /** Every phrase of the query is free of double quotes, so that its text cannot be
      mistaken for query syntax. */
  predicate QuoteFree(q: Query)
  {
    match q
    case Phrase(t) => '"' !in t
    case AnyOf(ts) => forall k :: 0 <= k < |ts| ==> '"' !in ts[k]
    case And(l, r) => QuoteFree(l) && QuoteFree(r)
    case Not(x) => QuoteFree(x)
  }

  /** The query quotes the phrase `p` somewhere. */
  predicate HasPhrase(q: Query, p: string)
  {
    match q
    case Phrase(t) => t == p
    case AnyOf(ts) => p in ts
    case And(l, r) => HasPhrase(l, p) || HasPhrase(r, p)
    case Not(x) => HasPhrase(x, p)
  }

  /** The query contains `sub` as a sub-query. */
  predicate HasPart(q: Query, sub: Query)
  {
    q == sub ||
    match q
    case Phrase(_) => false
    case AnyOf(_) => false
    case And(l, r) => HasPart(l, sub) || HasPart(r, sub)
    case Not(x) => HasPart(x, sub)
  }

  // ------------------------------------------------------------ reading the text back

  /** A reader of the rendered text that counts operator words the way a boolean search
      engine sees them: a word is a run of letters outside double quotes, and it is an
      operator when it is one of `counted`. Text between quotes is skipped. */
  datatype ScanState = Outside(word: string) | Inside

  function WordCount(w: string, counted: set<string>): nat
  {
    if w != "" && w in counted then 1 else 0
  }

  /** One character of input: the next state, and whether a word just ended that is
      one of `counted`. */
  function Step(st: ScanState, c: char, counted: set<string>): (ScanState, nat)
  {
    match st
    case Inside => (if c == '"' then Outside("") else Inside, 0)
    case Outside(w) =>
      if IsLetter(c) then (Outside(w + [c]), 0)
      else (if c == '"' then Inside else Outside(""), WordCount(w, counted))
  }

  /** The counted words that end within `s`, read from state `st`. */
  function Scan(s: string, st: ScanState, counted: set<string>): nat
    decreases |s|
  {
    if s == [] then 0
    else Step(st, s[0], counted).1 + Scan(s[1..], Step(st, s[0], counted).0, counted)
  }

  /** The state after reading `s` from state `st`. */
  function After(s: string, st: ScanState, counted: set<string>): ScanState
    decreases |s|
  {
    if s == [] then st else After(s[1..], Step(st, s[0], counted).0, counted)
  }

  /** The number of operator words from `counted` in the text `s`, read from its start;
      a word still open at the end counts as well. */
  function OperatorCount(s: string, counted: set<string>): nat
  {
    Scan(s, Outside(""), counted) +
      match After(s, Outside(""), counted)
      case Outside(w) => WordCount(w, counted)
      case Inside => 0
  }

  lemma {:induction false} ScanAppend(a: string, b: string, st: ScanState, counted: set<string>)
    ensures Scan(a + b, st, counted) == Scan(a, st, counted) + Scan(b, After(a, st, counted), counted)
    ensures After(a + b, st, counted) == After(b, After(a, st, counted), counted)
    decreases |a|
  {
    if a == [] {
      assert a + b == b;
    } else {
      assert (a + b)[0] == a[0] && (a + b)[1..] == a[1..] + b;
      ScanAppend(a[1..], b, Step(st, a[0], counted).0, counted);
    }
  }

  /** Inside quotes nothing is counted and, without a closing quote, the reader stays
      inside. */
  lemma {:induction false} ScanQuoted(t: string, counted: set<string>)
    requires '"' !in t
    ensures Scan(t, Inside, counted) == 0 && After(t, Inside, counted) == Inside
    decreases |t|
  {
    if t != [] {
      ScanQuoted(t[1..], counted);
    }
  }

  lemma ScanQuote(t: string, counted: set<string>)
    requires '"' !in t
    ensures Scan(Quote(t), Outside(""), counted) == 0
    ensures After(Quote(t), Outside(""), counted) == Outside("")
  {
    ScanQuoted(t, counted);
    ScanAppend("\"", t, Outside(""), counted);
    ScanAppend("\"" + t, "\"", Outside(""), counted);
  }

  /** A run of letters outside quotes only extends the current word. */
  lemma {:induction false} ScanLetters(w: string, word: string, counted: set<string>)
    requires forall k :: 0 <= k < |w| ==> IsLetter(w[k])
    ensures Scan(w, Outside(word), counted) == 0
    ensures After(w, Outside(word), counted) == Outside(word + w)
    decreases |w|
  {
    if w != [] {
      ScanLetters(w[1..], word + [w[0]], counted);
      assert word + [w[0]] + w[1..] == word + w;
    }
  }

  /** A space, a word and a space, read from a word boundary: the word is counted when
      it is an operator of `counted`, and the reader ends at a word boundary. */
  lemma ScanSpacedWord(w: string, counted: set<string>)
    requires forall k :: 0 <= k < |w| ==> IsLetter(w[k])
    ensures Scan(" " + w + " ", Outside(""), counted) == WordCount(w, counted)
    ensures After(" " + w + " ", Outside(""), counted) == Outside("")
  {
    ScanLetters(w, "", counted);
    assert "" + w == w;
    ScanAppend(" ", w, Outside(""), counted);
    ScanAppend(" " + w, " ", Outside(""), counted);
  }

  lemma ScanOrSeparator(counted: set<string>)
    ensures Scan(" OR ", Outside(""), counted) == WordCount(OR, counted)
    ensures After(" OR ", Outside(""), counted) == Outside("")
  {
    ScanSpacedWord(OR, counted);
    assert " " + OR + " " == " OR ";
  }

  lemma ScanAndSeparator(counted: set<string>)
    ensures Scan(" AND ", Outside(""), counted) == WordCount(AND, counted)
    ensures After(" AND ", Outside(""), counted) == Outside("")
  {
    ScanSpacedWord(AND, counted);
    assert " " + AND + " " == " AND ";
  }

  lemma ScanNotPrefix(counted: set<string>)
    ensures Scan("NOT ", Outside(""), counted) == WordCount(NOT, counted)
    ensures After("NOT ", Outside(""), counted) == Outside("")
  {
    ScanLetters(NOT, "", counted);
    assert "" + NOT == NOT;
    ScanAppend(NOT, " ", Outside(""), counted);
    assert NOT + " " == "NOT ";
  }

  lemma {:induction false} ScanOrList(ts: seq<string>, counted: set<string>)
    requires forall k :: 0 <= k < |ts| ==> '"' !in ts[k]
    ensures Scan(Join(" OR ", QuoteEach(ts)), Outside(""), counted)
            == if OR in counted && ts != [] then |ts| - 1 else 0
    ensures After(Join(" OR ", QuoteEach(ts)), Outside(""), counted) == Outside("")
    decreases |ts|
  {
    if |ts| == 1 {
      ScanQuote(ts[0], counted);
    } else if |ts| > 1 {
      var qs := QuoteEach(ts);
      assert qs[1..] == QuoteEach(ts[1..]);
      var tail := Join(" OR ", qs[1..]);
      ScanOrList(ts[1..], counted);
      ScanQuote(ts[0], counted);
      ScanOrSeparator(counted);
      ScanAppend(Quote(ts[0]), " OR ", Outside(""), counted);
      ScanAppend(Quote(ts[0]) + " OR ", tail, Outside(""), counted);
    }
  }

  lemma {:induction false} ScanRender(q: Query, counted: set<string>)
    requires QuoteFree(q)
    ensures Scan(Render(q), Outside(""), counted) == Ops(q, counted)
    ensures After(Render(q), Outside(""), counted) == Outside("")
  {
    match q
    case Phrase(t) =>
      ScanQuote(t, counted);
    case AnyOf(ts) =>
      var body := Join(" OR ", QuoteEach(ts));
      ScanOrList(ts, counted);
      ScanAppend("(", body, Outside(""), counted);
      ScanAppend("(" + body, ")", Outside(""), counted);
    case And(l, r) =>
      ScanRender(l, counted);
      ScanRender(r, counted);
      ScanAndSeparator(counted);
      ScanAppend(Render(l), " AND ", Outside(""), counted);
      ScanAppend(Render(l) + " AND ", Render(r), Outside(""), counted);
    case Not(x) =>
      ScanRender(x, counted);
      ScanNotPrefix(counted);
      ScanAppend("NOT ", Render(x), Outside(""), counted);
  }

  /** Reading a rendered query back finds exactly the operators of the tree, provided no
      phrase contains a double quote. This is what lets an operator count stated on the
      tree speak about the text the search engine receives. */
  lemma RenderedOperators(q: Query, counted: set<string>)
    requires QuoteFree(q)
    ensures OperatorCount(Render(q), counted) == Ops(q, counted)
  {
    ScanRender(q, counted);
  }

  /** Every phrase of the tree appears quoted in its text. */
  lemma {:induction false} RenderedPhrase(q: Query, p: string)
    requires HasPhrase(q, p)
    ensures IsSubstring(Quote(p), Render(q))
  {
    match q
    case Phrase(t) =>
      IsSubstringMiddle("", Quote(p), "");
      assert "" + Quote(p) + "" == Render(q);
    case AnyOf(ts) =>
      RenderedGroupPhrase(ts, p);
    case And(l, r) =>
      if HasPhrase(l, p) {
        RenderedPhrase(l, p);
        SubstringExtend(Quote(p), Render(l), "", " AND " + Render(r));
        assert "" + Render(l) + (" AND " + Render(r)) == Render(q);
      } else {
        RenderedPhrase(r, p);
        SubstringExtend(Quote(p), Render(r), Render(l) + " AND ", "");
        assert Render(l) + " AND " + Render(r) + "" == Render(q);
      }
    case Not(x) =>
      RenderedPhrase(x, p);
      SubstringExtend(Quote(p), Render(x), "NOT ", "");
      assert "NOT " + Render(x) + "" == Render(q);
  }

  lemma RenderedGroupPhrase(ts: seq<string>, p: string)
    requires p in ts
    ensures IsSubstring(Quote(p), Render(AnyOf(ts)))
  {
    var k :| 0 <= k < |ts| && ts[k] == p;
    var joined := Join(" OR ", QuoteEach(ts));
    var before, after := JoinedPart(" OR ", QuoteEach(ts), k);
    assert QuoteEach(ts)[k] == Quote(p);
    IsSubstringMiddle(before, Quote(p), after);
    SubstringExtend(Quote(p), joined, "(", ")");
  }

  /** An OR group opens with its first phrase. */
  lemma GroupStartsWith(x: string, ys: seq<string>)
    ensures "(" + Quote(x) <= Render(AnyOf([x] + ys))
  {
    var parts := QuoteEach([x] + ys);
    assert parts[0] == Quote(x);
    var rest := if |parts| == 1 then "" else " OR " + Join(" OR ", parts[1..]);
    assert Join(" OR ", parts) == Quote(x) + rest;
    assert Render(AnyOf([x] + ys)) == ("(" + Quote(x)) + (rest + ")");
  }

  /** Each part of a join sits between some prefix and suffix of the joined text. */
  lemma {:induction false} JoinedPart(sep: string, parts: seq<string>, k: nat)
    returns (before: string, after: string)
    requires k < |parts|
    ensures Join(sep, parts) == before + parts[k] + after
    decreases |parts|
  {
    if |parts| == 1 {
      before, after := "", "";
    } else if k == 0 {
      before, after := "", sep + Join(sep, parts[1..]);
    } else {
      var b, a := JoinedPart(sep, parts[1..], k - 1);
      before, after := parts[0] + sep + b, a;
    }
  }

  lemma SubstringExtend(sub: string, s: string, a: string, b: string)
    requires IsSubstring(sub, s)
    ensures IsSubstring(sub, a + s + b)
  {
    var i := SubstringOffset(sub, s);
    assert (a + s + b)[|a| + i..|a| + i + |sub|] == s[i..i + |sub|];
    OffsetSubstring(sub, a + s + b, |a| + i);
  }

  // ---------------------------------------------------------------- lengths

  /** Each phrase of an OR group takes its own length, two quotes and one " OR " (the
      group's parentheses stand in for the " OR " the last phrase lacks). */
  function GroupWidth(ts: seq<string>): nat
  {
    if ts == [] then 0 else |ts[0]| + 6 + GroupWidth(ts[1..])
  }

  /** An OR group of at least one phrase prints as `GroupWidth(ts) - 2` characters. */
  lemma {:induction false} GroupLength(ts: seq<string>)
    requires ts != []
    ensures |Render(AnyOf(ts))| + 2 == GroupWidth(ts)
  {
    JoinedQuotesLength(ts);
  }

  lemma {:induction false} JoinedQuotesLength(ts: seq<string>)
    requires ts != []
    ensures |Join(" OR ", QuoteEach(ts))| + 4 == GroupWidth(ts)
    decreases |ts|
  {
    if |ts| > 1 {
      JoinedQuotesLength(ts[1..]);
      assert QuoteEach(ts)[1..] == QuoteEach(ts[1..]);
    }
  }

  /** Putting a phrase in front of a group widens it by the phrase and its quoting. */
  lemma GroupWidthCons(x: string, ts: seq<string>)
    ensures GroupWidth([x] + ts) == |x| + 6 + GroupWidth(ts)
  {
  }
}
