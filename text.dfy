/** ASCII models of the Python string operations the query generator relies on:
    `str.strip()`, `str.lower()`, `str.title()`, `str.split(sep)`, `re.split(r'[,\n]', s)`,
    `sep.join(parts)` and the substring test `a in b`. Characters outside ASCII are
    left unchanged by the case mappings. */
module Text {

  // ---------------------------------------------------------------- characters

  /** The ASCII characters for which Python's `str.isspace()` holds:
      tab, line feed, vertical tab, form feed, carriage return, the four
      information separators 0x1C-0x1F, and space. */
  predicate IsSpace(c: char) {
    ('\t' <= c <= '\r') || ('\U{1C}' <= c <= '\U{1F}') || c == ' '
  }

  predicate IsUpper(c: char) { 'A' <= c <= 'Z' }

  predicate IsLower(c: char) { 'a' <= c <= 'z' }

  /** The cased characters of ASCII: exactly the letters. */
  predicate IsLetter(c: char) { IsUpper(c) || IsLower(c) }

  function LowerChar(c: char): (d: char)
    ensures IsLetter(c) <==> IsLetter(d)
    ensures !IsUpper(d)
    ensures IsSpace(c) <==> IsSpace(d)
  {
    if IsUpper(c) then (c as int + 32) as char else c
  }

  function UpperChar(c: char): (d: char)
    ensures IsLetter(c) <==> IsLetter(d)
    ensures !IsLower(d)
    ensures LowerChar(d) == LowerChar(c)
  {
    if IsLower(c) then (c as int - 32) as char else c
  }

  // ---------------------------------------------------------------- lower()

  /** Python's `s.lower()` on ASCII: every upper-case letter mapped to lower case. */
  function Lower(s: string): (r: string)
    ensures |r| == |s|
    ensures forall i :: 0 <= i < |s| ==> r[i] == LowerChar(s[i])
    ensures forall i :: 0 <= i < |r| ==> !IsUpper(r[i])
  {
    seq(|s|, i requires 0 <= i < |s| => LowerChar(s[i]))
  }

  lemma LowerIdempotent(s: string)
    ensures Lower(Lower(s)) == Lower(s)
  {
  }

  // ---------------------------------------------------------------- strip()

  /** `s.lstrip()`: drops leading whitespace. */
  function StripLeft(s: string): (r: string)
    ensures |r| <= |s| && r == s[|s| - |r|..]
    ensures r == [] || !IsSpace(r[0])
    decreases |s|
  {
    if s != [] && IsSpace(s[0]) then StripLeft(s[1..]) else s
  }

  /** What `lstrip()` drops is whitespace. */
  lemma {:induction false} StripLeftDropsSpace(s: string)
    ensures forall i :: 0 <= i < |s| - |StripLeft(s)| ==> IsSpace(s[i])
    decreases |s|
  {
    if s != [] && IsSpace(s[0]) {
      StripLeftDropsSpace(s[1..]);
      forall i | 1 <= i < |s| - |StripLeft(s)|
        ensures IsSpace(s[i])
      {
        assert s[i] == s[1..][i - 1];
      }
    }
  }

  /** `s.rstrip()`: drops trailing whitespace. */
  function StripRight(s: string): (r: string)
    ensures |r| <= |s| && r == s[..|r|]
    ensures r == [] || !IsSpace(r[|r| - 1])
    decreases |s|
  {
    if s != [] && IsSpace(s[|s| - 1]) then StripRight(s[..|s| - 1]) else s
  }

  /** What `rstrip()` drops is whitespace. */
  lemma {:induction false} StripRightDropsSpace(s: string)
    ensures forall i :: |StripRight(s)| <= i < |s| ==> IsSpace(s[i])
    decreases |s|
  {
    if s != [] && IsSpace(s[|s| - 1]) {
      StripRightDropsSpace(s[..|s| - 1]);
      forall i | |StripRight(s)| <= i < |s| - 1
        ensures IsSpace(s[i])
      {
        assert s[i] == s[..|s| - 1][i];
      }
    }
  }

  /** Python's `s.strip()`: `s` without its leading and trailing whitespace. */
  function Strip(s: string): (r: string)
    ensures |r| <= |s|
    ensures r == [] || (!IsSpace(r[0]) && !IsSpace(r[|r| - 1]))
  {
    StripRight(StripLeft(s))
  }

  /** `strip()` keeps the text between its leading and its trailing whitespace. */
  lemma StripKeepsMiddle(s: string)
    ensures var i := |s| - |StripLeft(s)|;
      i + |Strip(s)| <= |s| && Strip(s) == s[i..i + |Strip(s)|]
  {
    var l := StripLeft(s);
    var r := StripRight(l);
    var i := |s| - |l|;
    calc {
      Strip(s);
      r;
      l[..|r|];
      s[i..][..|r|];
      { SliceOfSuffix(s, i, |r|); }
      s[i..i + |r|];
    }
  }

  lemma SliceOfSuffix(s: string, i: nat, n: nat)
    requires i + n <= |s|
    ensures s[i..][..n] == s[i..i + n]
  {
  }

  /** Everything after the kept text is whitespace. */
  lemma StripDropsTrailing(s: string)
    ensures var j := |s| - |StripLeft(s)| + |Strip(s)|;
      forall k :: j <= k < |s| ==> IsSpace(s[k])
  {
    var l := StripLeft(s);
    var i := |s| - |l|;
    StripRightDropsSpace(l);
    forall k | i + |Strip(s)| <= k < |s|
      ensures IsSpace(s[k])
    {
      assert s[k] == l[k - i];
    }
  }

  /** What `strip()` removes is whitespace on either side: its result is the infix
      `s[i..j]`, and everything before `i` and from `j` on is whitespace. */
  lemma StripInfix(s: string) returns (i: nat, j: nat)
    ensures i <= j <= |s| && Strip(s) == s[i..j]
    ensures forall k :: 0 <= k < i ==> IsSpace(s[k])
    ensures forall k :: j <= k < |s| ==> IsSpace(s[k])
  {
    i := |s| - |StripLeft(s)|;
    j := i + |Strip(s)|;
    StripKeepsMiddle(s);
    assert Strip(s) == s[i..j];
    StripDropsTrailing(s);
    StripLeftDropsSpace(s);
  }

  /** A string without surrounding whitespace is its own strip. */
  lemma StripStripped(s: string)
    requires s == [] || (!IsSpace(s[0]) && !IsSpace(s[|s| - 1]))
    ensures Strip(s) == s
  {
  }

  /** Whitespace is only ever removed: a string with a non-space character strips to a
      non-empty string, and an all-space string strips to the empty string. */
  lemma StripEmptyIff(s: string)
    ensures Strip(s) == [] <==> forall k :: 0 <= k < |s| ==> IsSpace(s[k])
  {
    var i, j := StripInfix(s);
    if Strip(s) != [] {
      assert !IsSpace(s[i]);
    }
  }

  lemma {:induction false} LowerStripLeft(s: string)
    ensures Lower(StripLeft(s)) == StripLeft(Lower(s))
    decreases |s|
  {
    if s != [] && IsSpace(s[0]) {
      assert Lower(s)[1..] == Lower(s[1..]);
      LowerStripLeft(s[1..]);
    }
  }

  lemma {:induction false} LowerStripRight(s: string)
    ensures Lower(StripRight(s)) == StripRight(Lower(s))
    decreases |s|
  {
    if s != [] && IsSpace(s[|s| - 1]) {
      assert Lower(s)[..|s| - 1] == Lower(s[..|s| - 1]);
      LowerStripRight(s[..|s| - 1]);
    }
  }

  /** The two normalisations used by the repository, `s.strip().lower()` and
      `s.lower().strip()`, agree. */
  lemma LowerStripCommute(s: string)
    ensures Lower(Strip(s)) == Strip(Lower(s))
  {
    LowerStripLeft(s);
    LowerStripRight(StripLeft(s));
  }

  // ---------------------------------------------------------------- title()

  /** Python's `s.title()` as CPython computes it: one pass that remembers whether the
      previous character was cased; a letter after a cased character is lowered, any
      other letter is upper-cased, and non-letters are copied. */
  function TitleFrom(s: string, previousIsCased: bool): (r: string)
    ensures |r| == |s|
    decreases |s|
  {
    if s == [] then []
    else
      var c := if previousIsCased then LowerChar(s[0]) else UpperChar(s[0]);
      [c] + TitleFrom(s[1..], IsLetter(s[0]))
  }

  function Title(s: string): (r: string)
    ensures |r| == |s|
  {
    TitleFrom(s, false)
  }

  /** The character `title()` puts at position `i`, stated without the running flag:
      a letter is upper-cased exactly when it starts a word (it is first, or follows a
      non-letter), other letters are lowered, and every other character is kept. */
  function TitleCharAt(s: string, i: nat, previousIsCased: bool): char
    requires i < |s|
  {
    var wordStart := if i == 0 then !previousIsCased else !IsLetter(s[i - 1]);
    if wordStart then UpperChar(s[i]) else LowerChar(s[i])
  }

  lemma {:induction false} TitleFromAt(s: string, p: bool, i: nat)
    requires i < |s|
    ensures TitleFrom(s, p)[i] == TitleCharAt(s, i, p)
    decreases i
  {
    if i > 0 {
      TitleFromAt(s[1..], IsLetter(s[0]), i - 1);
    }
  }

  lemma TitleAt(s: string, i: nat)
    requires i < |s|
    ensures Title(s)[i] == TitleCharAt(s, i, false)
    ensures IsLetter(s[i]) <==> IsLetter(Title(s)[i])
    ensures !IsLetter(s[i]) ==> Title(s)[i] == s[i]
    ensures LowerChar(Title(s)[i]) == LowerChar(s[i])
  {
    TitleFromAt(s, false, i);
  }

  /** `title()` works left to right: the second part is cased according to whether the
      first part ends in a letter. */
  lemma {:induction false} TitleFromAppend(a: string, b: string, p: bool)
    ensures TitleFrom(a + b, p)
            == TitleFrom(a, p) + TitleFrom(b, if a == [] then p else IsLetter(a[|a| - 1]))
    decreases |a|
  {
    if a == [] {
      assert a + b == b;
    } else {
      assert (a + b)[0] == a[0] && (a + b)[1..] == a[1..] + b;
      TitleFromAppend(a[1..], b, IsLetter(a[0]));
    }
  }

  /** `[t.title() for t in ts]` */
  function TitleEach(ts: seq<string>): (r: seq<string>)
    ensures |r| == |ts|
    ensures forall k :: 0 <= k < |ts| ==> r[k] == Title(ts[k])
  {
    if ts == [] then [] else [Title(ts[0])] + TitleEach(ts[1..])
  }

  /** Lower-casing before title-casing changes nothing, so
      `build_boolean_queries(jobTitle.lower())` quotes the same title as
      `build_boolean_queries(jobTitle)`. */
  lemma TitleOfLower(s: string)
    ensures Title(Lower(s)) == Title(s)
  {
    forall i | 0 <= i < |s| ensures Title(Lower(s))[i] == Title(s)[i] {
      TitleAt(s, i);
      TitleAt(Lower(s), i);
    }
  }

  /** `title()` is idempotent. */
  lemma TitleIdempotent(s: string)
    ensures Title(Title(s)) == Title(s)
  {
    forall i | 0 <= i < |s| ensures Title(Title(s))[i] == Title(s)[i] {
      TitleAt(s, i);
      TitleAt(Title(s), i);
      if i > 0 { TitleAt(s, i - 1); }
    }
  }

  /** Comparing in lower case cannot tell a title-cased string from its source. */
  lemma LowerOfTitle(s: string)
    ensures Lower(Title(s)) == Lower(s)
  {
    forall i | 0 <= i < |s| ensures Lower(Title(s))[i] == Lower(s)[i] {
      TitleAt(s, i);
    }
  }

  /** `title()` neither adds nor removes a given non-letter, such as the double quote. */
  lemma TitleKeepsNonLetter(s: string, c: char)
    requires !IsLetter(c)
    ensures c in Title(s) <==> c in s
  {
    if c in s {
      var i :| 0 <= i < |s| && s[i] == c;
      TitleAt(s, i);
    }
    if c in Title(s) {
      var i :| 0 <= i < |s| && Title(s)[i] == c;
      TitleAt(s, i);
    }
  }

  // ---------------------------------------------------------------- split()

  /** Split `s` at every character of `seps`, keeping empty pieces, as both
      `s.split(",")` and `re.split(r'[,\n]', s)` do. There is always one more
      piece than there are separators. */
  function Split(s: string, seps: set<char>): (pieces: seq<string>)
    ensures |pieces| >= 1
    decreases |s|
  {
    if s == [] then [""]
    else
      var rest := Split(s[1..], seps);
      if s[0] in seps then [""] + rest
      else [[s[0]] + rest[0]] + rest[1..]
  }

  /** The separators found in `s`, in order. */
  function SeparatorsIn(s: string, seps: set<char>): (found: string)
    ensures forall c :: c in found ==> c in seps
    decreases |s|
  {
    if s == [] then []
    else (if s[0] in seps then [s[0]] else []) + SeparatorsIn(s[1..], seps)
  }

  /** Put the pieces back together with the given separator characters between them. */
  function Rejoin(pieces: seq<string>, between: string): string
    requires |pieces| == |between| + 1
    decreases |between|
  {
    if between == [] then pieces[0]
    else pieces[0] + [between[0]] + Rejoin(pieces[1..], between[1..])
  }

  /** No character of `piece` is a separator. */
  predicate NoSeparator(piece: string, seps: set<char>) {
    forall c :: c in piece ==> c !in seps
  }

  /** No piece of `Split` contains a separator. */
  lemma {:induction false} SplitPiecesHaveNoSeparator(s: string, seps: set<char>)
    ensures forall k :: 0 <= k < |Split(s, seps)| ==> NoSeparator(Split(s, seps)[k], seps)
    decreases |s|
  {
    if s != [] {
      SplitPiecesHaveNoSeparator(s[1..], seps);
      var rest := Split(s[1..], seps);
      if s[0] !in seps {
        assert NoSeparator([s[0]] + rest[0], seps);
      }
    }
  }

  /** There is one piece per separator, plus one, and putting the pieces back between
      the separators that were found gives back `s`. With the lemma above this fixes
      the pieces uniquely. */
  lemma {:induction false} SplitRejoin(s: string, seps: set<char>)
    ensures |Split(s, seps)| == |SeparatorsIn(s, seps)| + 1
    ensures Rejoin(Split(s, seps), SeparatorsIn(s, seps)) == s
    decreases |s|
  {
    if s != [] {
      SplitRejoin(s[1..], seps);
      var rest := Split(s[1..], seps);
      var between := SeparatorsIn(s[1..], seps);
      if s[0] in seps {
        assert SeparatorsIn(s, seps) == [s[0]] + between;
        RejoinAfterSeparator(s[0], rest, between);
      } else {
        assert SeparatorsIn(s, seps) == between;
        RejoinIntoFirst(s[0], rest, between);
      }
      assert s == [s[0]] + s[1..];
    }
  }

  /** A separator in front adds an empty piece. */
  lemma RejoinAfterSeparator(c: char, rest: seq<string>, between: string)
    requires |rest| == |between| + 1
    ensures Rejoin([""] + rest, [c] + between) == [c] + Rejoin(rest, between)
  {
    assert ([""] + rest)[1..] == rest;
    assert ([c] + between)[1..] == between;
  }

  /** A character that is not a separator joins the first piece. */
  lemma RejoinIntoFirst(c: char, rest: seq<string>, between: string)
    requires |rest| == |between| + 1
    ensures Rejoin([[c] + rest[0]] + rest[1..], between) == [c] + Rejoin(rest, between)
  {
    var pieces := [[c] + rest[0]] + rest[1..];
    assert pieces[1..] == rest[1..];
  }


  /** A string without separators is a single piece. */
  lemma {:induction false} SplitNone(s: string, seps: set<char>)
    requires forall c :: c in s ==> c !in seps
    ensures Split(s, seps) == [s]
    decreases |s|
  {
    if s != [] {
      SplitNone(s[1..], seps);
      assert [s[0]] + s[1..] == s;
    }
  }

  /** Splitting distributes over a separator: what comes before the first separator is
      the first piece, and the rest is split on its own. */
  lemma {:induction false} SplitAt(a: string, c: char, b: string, seps: set<char>)
    requires forall x :: x in a ==> x !in seps
    requires c in seps
    ensures Split(a + [c] + b, seps) == [a] + Split(b, seps)
    decreases |a|
  {
    var s := a + [c] + b;
    if a == [] {
      assert s[0] == c && s[1..] == b;
    } else {
      assert s[0] == a[0] && s[1..] == a[1..] + [c] + b;
      SplitAt(a[1..], c, b, seps);
      assert [a[0]] + a[1..] == a;
    }
  }

  // ---------------------------------------------------------------- join()

  /** Python's `sep.join(parts)`. */
  function Join(sep: string, parts: seq<string>): string
    decreases |parts|
  {
    if parts == [] then ""
    else if |parts| == 1 then parts[0]
    else parts[0] + sep + Join(sep, parts[1..])
  }

  /** `s.split(c)` undone by `c.join(...)`: with a single separator the separators found
      are all `c`, so rejoining is joining. */
  lemma {:induction false} JoinSplit(s: string, c: char)
    ensures Join([c], Split(s, {c})) == s
    decreases |s|
  {
    SplitRejoin(s, {c});
    RejoinIsJoin(Split(s, {c}), SeparatorsIn(s, {c}), c);
  }

  lemma {:induction false} RejoinIsJoin(pieces: seq<string>, between: string, c: char)
    requires |pieces| == |between| + 1
    requires forall x :: x in between ==> x == c
    ensures Rejoin(pieces, between) == Join([c], pieces)
    decreases |between|
  {
    if between != [] {
      assert between[0] in between;
      assert forall x :: x in between[1..] ==> x in between;
      RejoinIsJoin(pieces[1..], between[1..], c);
    }
  }

  /** `sep.join(...)` undone by `split`: joining separator-free parts with a
      one-character separator and splitting there gives the parts back. */
  lemma {:induction false} SplitJoin(parts: seq<string>, c: char, seps: set<char>)
    requires |parts| >= 1
    requires c in seps
    requires forall k :: 0 <= k < |parts| ==> forall x :: x in parts[k] ==> x !in seps
    ensures Split(Join([c], parts), seps) == parts
    decreases |parts|
  {
    if |parts| == 1 {
      SplitNone(parts[0], seps);
    } else {
      SplitJoin(parts[1..], c, seps);
      SplitAt(parts[0], c, Join([c], parts[1..]), seps);
    }
  }

  // ---------------------------------------------------------------- substring

  /** Python's `sub in s` for strings. */
  predicate IsSubstring(sub: string, s: string)
    decreases |s|
  {
    sub <= s || (s != [] && IsSubstring(sub, s[1..]))
  }

  /** `sub` occurs in `s` starting at offset `i`. */
  predicate OccursAt(sub: string, s: string, i: int) {
    0 <= i <= |s| - |sub| && s[i..i + |sub|] == sub
  }

  /** A successful substring test has an offset where `sub` occurs. */
  lemma {:induction false} SubstringOffset(sub: string, s: string) returns (i: int)
    requires IsSubstring(sub, s)
    ensures OccursAt(sub, s, i)
    decreases |s|
  {
    if sub <= s {
      i := 0;
      assert s[..|sub|] == sub;
    } else {
      var i' := SubstringOffset(sub, s[1..]);
      assert s[1..][i'..i' + |sub|] == s[i' + 1..i' + 1 + |sub|];
      i := i' + 1;
    }
  }

  /** An occurrence at any offset makes the substring test succeed. */
  lemma {:induction false} OffsetSubstring(sub: string, s: string, i: int)
    requires OccursAt(sub, s, i)
    ensures IsSubstring(sub, s)
    decreases i
  {
    if i == 0 {
      assert sub <= s;
    } else {
      assert s[1..][i - 1..i - 1 + |sub|] == s[i..i + |sub|];
      OffsetSubstring(sub, s[1..], i - 1);
    }
  }

  /** The substring test holds exactly when `sub` occurs at some offset of `s`. */
  lemma IsSubstringIff(sub: string, s: string)
    ensures IsSubstring(sub, s) <==> exists i :: OccursAt(sub, s, i)
  {
    if IsSubstring(sub, s) {
      var i := SubstringOffset(sub, s);
    }
    if exists i :: OccursAt(sub, s, i) {
      var i :| OccursAt(sub, s, i);
      OffsetSubstring(sub, s, i);
    }
  }

  /** A string occurs in anything built around it. */
  lemma {:induction false} IsSubstringMiddle(a: string, sub: string, b: string)
    ensures IsSubstring(sub, a + sub + b)
    decreases |a|
  {
    if a == [] {
      assert sub <= a + sub + b;
    } else {
      assert (a + sub + b)[1..] == a[1..] + sub + b;
      IsSubstringMiddle(a[1..], sub, b);
    }
  }
}
