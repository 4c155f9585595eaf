/** The text generator the prototypes consult for synonyms, seen from the caller: a
    call either gives generated text or raises. */
module Generation {

  /** What one call of the generator gives back. */
  datatype Reply = Raised | Generated(text: string)

  /** A value, or the exception of a call that raised. */
  datatype Outcome<T> = Ok(value: T) | Failed
}

/** The cleaning rules that `get_synonyms_from_llm` applies to generated text, as
    specification functions shared by both copies of that function. */
module Cleaning {
  import opened Text

  /** Longest synonym kept; longer pieces are taken to be sentences. */
  const MaxSynonymLength: nat := 35

  /** `re.split(r'[,\n]', raw_text)` */
  function Candidates(rawText: string): (candidates: seq<string>)
    ensures |candidates| >= 1
  {
    Split(rawText, {',', '\n'})
  }

  /** `s.strip().title()` */
  function Cleaned(candidate: string): string
  {
    Title(Strip(candidate))
  }

  /** A cleaned piece is no longer than the piece, has no surrounding whitespace, is
      already title-cased, and equals the stripped piece once both are lower-cased: the
      filter on the input title does not depend on title-casing. */
  lemma CleanedForm(candidate: string)
    ensures var synonym := Cleaned(candidate);
      && |synonym| <= |candidate|
      && (synonym == [] || (!IsSpace(synonym[0]) && !IsSpace(synonym[|synonym| - 1])))
      && Title(synonym) == synonym
      && Lower(synonym) == Lower(Strip(candidate))
  {
    var s := Strip(candidate);
    LowerOfTitle(s);
    TitleIdempotent(s);
    if s != [] {
      TitleAt(s, 0);
      TitleAt(s, |s| - 1);
    }
  }

  /** The three filters of the cleaning loop: not empty, at most 35 characters, and not
      the input title again when both are compared in lower case. */
  predicate Passes(synonym: string, jobTitle: string)
  {
    synonym != [] && |synonym| <= MaxSynonymLength && Lower(synonym) != Lower(jobTitle)
  }

  /** The list the cleaning loop appends to, before duplicates are removed: the cleaned
      candidates that pass the filters, in order. */
  function Kept(candidates: seq<string>, jobTitle: string): (kept: seq<string>)
    ensures forall k :: 0 <= k < |kept| ==> Passes(kept[k], jobTitle)
    decreases |candidates|
  {
    if candidates == [] then []
    else
      var init := candidates[..|candidates| - 1];
      var last := Cleaned(candidates[|candidates| - 1]);
      Kept(init, jobTitle) + (if Passes(last, jobTitle) then [last] else [])
  }

  /** Nothing else is kept: every element is the cleaned form of some candidate. */
  lemma {:induction false} KeptSound(candidates: seq<string>, jobTitle: string, s: string)
    requires s in Kept(candidates, jobTitle)
    ensures exists j :: 0 <= j < |candidates| && s == Cleaned(candidates[j])
    decreases |candidates|
  {
    var init := candidates[..|candidates| - 1];
    var last := Cleaned(candidates[|candidates| - 1]);
    if s in Kept(init, jobTitle) {
      KeptSound(init, jobTitle, s);
      var j :| 0 <= j < |init| && s == Cleaned(init[j]);
      assert candidates[j] == init[j];
    } else {
      assert s == last;
    }
  }

  /** Nothing that passes is lost: every candidate whose cleaned form passes the filters
      is in the list. */
  lemma {:induction false} KeptComplete(candidates: seq<string>, jobTitle: string, j: nat)
    requires j < |candidates|
    requires Passes(Cleaned(candidates[j]), jobTitle)
    ensures Cleaned(candidates[j]) in Kept(candidates, jobTitle)
    decreases |candidates|
  {
    if j < |candidates| - 1 {
      var init := candidates[..|candidates| - 1];
      assert init[j] == candidates[j];
      KeptComplete(init, jobTitle, j);
    }
  }

  /** The cleaning loop of `get_synonyms_from_llm`: each candidate is stripped and
      title-cased, and kept when it passes the three filters. */
  method CleanCandidates(candidates: seq<string>, jobTitle: string) returns (kept: seq<string>)
    ensures kept == Kept(candidates, jobTitle)
  {
    kept := [];
    for i := 0 to |candidates|
      invariant kept == Kept(candidates[..i], jobTitle)
    {
      assert candidates[..i + 1][..i] == candidates[..i];
      var synonym := Title(Strip(candidates[i]));
      if synonym == [] {
        continue;
      }
      if |synonym| > MaxSynonymLength {
        continue;
      }
      if Lower(synonym) == Lower(jobTitle) {
        continue;
      }
      kept := kept + [synonym];
    }
    assert candidates[..|candidates|] == candidates;
  }

  /** No element occurs twice. */
  predicate Distinct(xs: seq<string>)
  {
    forall i, j :: 0 <= i < j < |xs| ==> xs[i] != xs[j]
  }

  function Elements(xs: seq<string>): set<string>
  {
    set x | x in xs
  }

  /** `list(set(xs))`: the distinct elements in an order Python leaves unspecified; the
      choice of each next element is left open. */
  method ListOfSet(items: set<string>) returns (r: seq<string>)
    ensures Distinct(r)
    ensures forall x :: x in r <==> x in items
    ensures |r| == |items|
  {
    r := [];
    var rest := items;
    while rest != {}
      invariant rest <= items
      invariant forall x :: x in r <==> x in items && x !in rest
      invariant Distinct(r)
      invariant |r| + |rest| == |items|
      decreases |rest|
    {
      var x :| x in rest;
      r := r + [x];
      rest := rest - {x};
    }
  }

  // ------------------------------------------------------------ a sample generator reply

  /** Generated text with a repeat of the title, an empty piece, one usable title and a
      final `sentence`: "Software Engineer, , Backend Engineer\nSoftware Engineer,<sentence>". */
  function ExampleText(sentence: string): string
  {
    "Software Engineer" + "," + " " + "," + " Backend Engineer" + "\n" + "Software Engineer" + "," + sentence
  }

  /** Neither literal piece of the example holds a separator. */
  lemma ExamplePiecesUnseparated(t: string, b: string, seps: set<char>)
    requires t == "Software Engineer" && b == " Backend Engineer" && seps == {',', '\n'}
    ensures NoSeparator(t, seps) && NoSeparator(b, seps) && NoSeparator(" ", seps)
  {
  }

  /** The example text splits into five candidates. */
  lemma ExampleSplit(sentence: string, t: string, b: string)
    requires NoSeparator(sentence, {',', '\n'})
    requires t == "Software Engineer" && b == " Backend Engineer"
    ensures Candidates(ExampleText(sentence)) == [t, " ", b, t, sentence]
  {
    var seps: set<char> := {',', '\n'};
    ExamplePiecesUnseparated(t, b, seps);
    var tail3 := t + [','] + sentence;
    var tail2 := b + ['\n'] + tail3;
    var tail1 := " " + [','] + tail2;
    assert ExampleText(sentence) == t + [','] + tail1;
    SplitAt(t, ',', tail1, seps);
    SplitAt(" ", ',', tail2, seps);
    SplitAt(b, '\n', tail3, seps);
    SplitAt(t, ',', sentence, seps);
    SplitNone(sentence, seps);
  }

  /** A piece whose stripped text is longer than 35 characters is dropped as a sentence. */
  lemma SentenceDropped(sentence: string, jobTitle: string)
    requires |Strip(sentence)| > MaxSynonymLength
    ensures !Passes(Cleaned(sentence), jobTitle)
  {
  }

  /** The title itself is dropped by the self filter. */
  lemma ExampleRepeatDropped(s: string, jobTitle: string)
    requires s == "Software Engineer" && jobTitle == "Software Engineer"
    ensures !Passes(Cleaned(s), jobTitle)
  {
    StripStripped(s);
    LowerOfTitle(s);
  }

  /** A piece of spaces is dropped as empty. */
  lemma ExampleBlankDropped(s: string, jobTitle: string)
    requires s == " "
    ensures !Passes(Cleaned(s), jobTitle)
  {
    StripEmptyIff(s);
  }

  /** A word of lower-case letters after a cased letter keeps its case. */
  lemma {:induction false} TitleOfLowerRun(w: string)
    requires forall c :: c in w ==> IsLower(c)
    ensures TitleFrom(w, true) == w
    decreases |w|
  {
    if w != [] {
      assert w[0] in w;
      assert forall c :: c in w[1..] ==> c in w;
      TitleOfLowerRun(w[1..]);
      assert [LowerChar(w[0])] + w[1..] == w;
    }
  }

  lemma ExampleFirstWordTitled(a: string)
    requires a == "Backend"
    ensures TitleFrom(a, false) == a
  {
    assert a == ['B'] + "ackend";
    TitleOfLowerRun("ackend");
    assert a[1..] == "ackend";
  }

  lemma ExampleSecondWordTitled(b: string)
    requires b == " Engineer"
    ensures TitleFrom(b, true) == b
  {
    assert b == [' '] + (['E'] + "ngineer");
    TitleOfLowerRun("ngineer");
    assert b[1..][1..] == "ngineer";
  }

  lemma ExampleWordsTitled(a: string, b: string)
    requires a == "Backend" && b == " Engineer"
    ensures Title(a + b) == a + b
  {
    ExampleFirstWordTitled(a);
    ExampleSecondWordTitled(b);
    TitleFromAppend(a, b, false);
    assert a[|a| - 1] == 'd';
  }

  lemma ExampleSynonymTitled(w: string)
    requires w == "Backend Engineer"
    ensures Title(w) == w
  {
    ExampleWordsTitled("Backend", " Engineer");
    assert "Backend" + " Engineer" == w;
  }

  lemma ExampleSynonymStripped(s: string, w: string)
    requires s == " Backend Engineer" && w == "Backend Engineer"
    ensures Strip(s) == w
  {
    assert s[0] == ' ' && s[1..] == w;
    assert w[0] == 'B' && w[|w| - 1] == 'r';
    StripStripped(w);
    assert StripLeft(w) == w;
    assert StripLeft(s) == w;
  }

  /** The synonym is short, and differs from the title already in its first letter. */
  lemma ExampleSynonymPasses(w: string, jobTitle: string)
    requires w == "Backend Engineer" && jobTitle == "Software Engineer"
    ensures Passes(w, jobTitle)
  {
    assert Lower(w)[0] == 'b';
    assert Lower(jobTitle)[0] == 's';
  }

  /** The one usable piece survives, stripped and title-cased. */
  lemma ExampleSynonymKept(s: string, jobTitle: string)
    requires s == " Backend Engineer" && jobTitle == "Software Engineer"
    ensures Cleaned(s) == "Backend Engineer"
    ensures Passes(Cleaned(s), jobTitle)
  {
    var w := "Backend Engineer";
    ExampleSynonymStripped(s, w);
    ExampleSynonymTitled(w);
    ExampleSynonymPasses(w, jobTitle);
  }

  /** The cleaning loop over five candidates of which only the third passes. */
  lemma KeptOnlyThird(c: seq<string>, jobTitle: string)
    requires |c| == 5
    requires !Passes(Cleaned(c[0]), jobTitle) && !Passes(Cleaned(c[1]), jobTitle)
    requires Passes(Cleaned(c[2]), jobTitle)
    requires !Passes(Cleaned(c[3]), jobTitle) && !Passes(Cleaned(c[4]), jobTitle)
    ensures Kept(c, jobTitle) == [Cleaned(c[2])]
  {
    assert c[..4][..3][..2][..1][..0] == [];
    assert Kept(c[..1], jobTitle) == [];
    assert c[..2][..1] == c[..1];
    assert Kept(c[..2], jobTitle) == [];
    assert c[..3][..2] == c[..2];
    assert Kept(c[..3], jobTitle) == [Cleaned(c[2])];
    assert c[..4][..3] == c[..3];
    assert Kept(c[..4], jobTitle) == [Cleaned(c[2])];
    assert c[..4] == c[..|c| - 1];
  }

  /** The five example candidates leave only the cleaned synonym. */
  lemma ExampleCandidatesKept(sentence: string, t: string, blank: string, b: string, jobTitle: string)
    requires |Strip(sentence)| > MaxSynonymLength
    requires t == "Software Engineer" && blank == " " && b == " Backend Engineer" && jobTitle == t
    ensures Kept([t, blank, b, t, sentence], jobTitle) == [Cleaned(b)]
  {
    ExampleRepeatDropped(t, jobTitle);
    ExampleBlankDropped(blank, jobTitle);
    ExampleSynonymKept(b, jobTitle);
    SentenceDropped(sentence, jobTitle);
    var c := [t, blank, b, t, sentence];
    assert c[0] == t && c[1] == blank && c[2] == b && c[3] == t && c[4] == sentence;
    KeptOnlyThird(c, jobTitle);
  }

  /** On the example text only "Backend Engineer" survives, whatever over-long sentence
      ends it: the empty piece, both repeats of the title and the sentence are dropped. */
  lemma ExampleKept(sentence: string, jobTitle: string)
    requires NoSeparator(sentence, {',', '\n'}) && |Strip(sentence)| > MaxSynonymLength
    requires jobTitle == "Software Engineer"
    ensures Kept(Candidates(ExampleText(sentence)), jobTitle) == ["Backend Engineer"]
  {
    var t, b := "Software Engineer", " Backend Engineer";
    ExampleCandidatesKept(sentence, t, " ", b, jobTitle);
    ExampleSynonymKept(b, jobTitle);
    ExampleSplit(sentence, t, b);
  }
}
