/** Scope lists: parsing free text into scopes, the rule a valid list obeys, and
    the canonical key under which equal scope sets are found. */
module Scopes {
  import opened Common
  import opened Ordering

  const MAX_SCOPE_LENGTH := 255
  const MAX_SCOPES := 50

  /** White space as a regular expression's \s, or a comma. */
  predicate IsSeparator(c: char) {
    || c == ',' || c == ' ' || c == '\t' || c == '\n' || c == '\r'
    || c == '\U{000B}' || c == '\U{000C}' || c == '\U{00A0}' || c == '\U{1680}'
    || '\U{2000}' <= c <= '\U{200A}' || c == '\U{2028}' || c == '\U{2029}'
    || c == '\U{202F}' || c == '\U{205F}' || c == '\U{3000}' || c == '\U{FEFF}'
  }

  /** Every character that separates scopes, one by one. */
  const SEPARATORS: set<char> := {
    ',', ' ', '\t', '\n', '\r', '\U{000B}', '\U{000C}', '\U{00A0}', '\U{1680}', '\U{2000}', '\U{2001}', '\U{2002}',
    '\U{2003}', '\U{2004}', '\U{2005}', '\U{2006}', '\U{2007}', '\U{2008}', '\U{2009}', '\U{200A}', '\U{2028}',
    '\U{2029}', '\U{202F}', '\U{205F}', '\U{3000}', '\U{FEFF}'
  }

  lemma SeparatorsAre(c: char)
    ensures IsSeparator(c) <==> c in SEPARATORS
  {
    if '\U{2000}' <= c <= '\U{200A}' {
      var k := c as int - 0x2000;
      assert c == (0x2000 + k) as char;
    }
  }

  /** Non-empty and free of separators. */
  predicate IsWord(s: string) {
    s != "" && forall i :: 0 <= i < |s| ==> !IsSeparator(s[i])
  }

  datatype ScopeProblem = TooMany | EmptyScope | HasSeparator(scope: string) | TooLong(scope: string)

  function ProblemOf(scope: string): Option<ScopeProblem> {
    if scope == "" then Some(EmptyScope)
    else if !IsWord(scope) then Some(HasSeparator(scope))
    else if |scope| > MAX_SCOPE_LENGTH then Some(TooLong(scope))
    else None
  }

  function FirstProblem(scopes: seq<string>): (r: Option<ScopeProblem>)
    ensures r.None? <==> forall s :: s in scopes ==> IsWord(s) && |s| <= MAX_SCOPE_LENGTH
  {
    if scopes == [] then None else
    assert scopes == [scopes[0]] + scopes[1..];
    if ProblemOf(scopes[0]).Some? then ProblemOf(scopes[0]) else FirstProblem(scopes[1..])
  }

  function ScopeProblemOf(scopes: seq<string>): Option<ScopeProblem> {
    if |scopes| > MAX_SCOPES then Some(TooMany) else FirstProblem(scopes)
  }

  method FindScopeProblem(scopes: seq<string>) returns (r: Option<ScopeProblem>)
    ensures r == ScopeProblemOf(scopes)
    ensures r.None? <==> |scopes| <= MAX_SCOPES && forall s :: s in scopes ==> IsWord(s) && |s| <= MAX_SCOPE_LENGTH
  {
    if |scopes| > MAX_SCOPES {
      return Some(TooMany);
    }
    var i := 0;
    while i < |scopes|
      invariant 0 <= i <= |scopes|
      invariant FirstProblem(scopes) == FirstProblem(scopes[i..])
    {
      assert scopes[i..][1..] == scopes[i + 1..];
      r := ProblemOf(scopes[i]);
      if r.Some? {
        return;
      }
      i := i + 1;
    }
    return None;
  }

  // ---- parseScopes ---------------------------------------------------------

  /** Length of the leading run of characters that are, or are not, separators. */
  function RunLength(s: string, separators: bool): (n: nat)
    ensures n <= |s|
    ensures forall i :: 0 <= i < n ==> IsSeparator(s[i]) == separators
    ensures n < |s| ==> IsSeparator(s[n]) != separators
  {
    if s == "" || IsSeparator(s[0]) != separators then 0 else 1 + RunLength(s[1..], separators)
  }

  /** split(SCOPE_SEPARATOR): cut at every maximal run of separators. */
  function SplitRuns(s: string): seq<string>
    decreases |s|
  {
    var n := RunLength(s, false);
    if n == |s| then [s] else
    var m := RunLength(s[n..], true);
    [s[..n]] + SplitRuns(s[n + m..])
  }

  function Pieces(items: seq<string>): seq<string> {
    if items == [] then [] else SplitRuns(items[0]) + Pieces(items[1..])
  }

  function NonEmpty(pieces: seq<string>): seq<string> {
    Filter(p => p != "", pieces)
  }

  function ParseScopes(items: seq<string>): seq<string> {
    AddAll([], NonEmpty(Pieces(items)))
  }

  lemma {:induction false} SplitGivesWords(s: string)
    ensures forall p :: p in SplitRuns(s) && p != "" ==> IsWord(p)
    decreases |s|
  {
    var n := RunLength(s, false);
    if n < |s| {
      SplitGivesWords(s[n + RunLength(s[n..], true)..]);
    }
  }

  lemma {:induction false} PiecesAreWords(items: seq<string>)
    ensures forall p :: p in Pieces(items) && p != "" ==> IsWord(p)
  {
    if items != [] {
      SplitGivesWords(items[0]);
      PiecesAreWords(items[1..]);
    }
  }

  /** parseScopes yields distinct words, whatever it is given. */
  lemma ParsedAreWords(items: seq<string>)
    ensures NoDup(ParseScopes(items)) && forall s :: s in ParseScopes(items) ==> IsWord(s)
  {
    PiecesAreWords(items);
  }

  lemma {:induction false} PiecesOfWords(words: seq<string>)
    requires forall s :: s in words ==> IsWord(s)
    ensures Pieces(words) == words
  {
    if words != [] {
      assert words == [words[0]] + words[1..];
      assert words[0] in words;
      PiecesOfWords(words[1..]);
    }
  }

  lemma {:induction false} NonEmptyOfWords(words: seq<string>)
    requires forall s :: s in words ==> IsWord(s)
    ensures NonEmpty(words) == words
  {
    if words != [] {
      assert words == [words[0]] + words[1..];
      assert words[0] in words;
      NonEmptyOfWords(words[1..]);
    }
  }

  lemma WordsParseToThemselves(words: seq<string>)
    requires NoDup(words) && forall s :: s in words ==> IsWord(s)
    ensures ParseScopes(words) == words
  {
    PiecesOfWords(words);
    NonEmptyOfWords(words);
    assert [] + words == words;
    AddAllNew([], words);
  }

  lemma ParseIsIdempotent(items: seq<string>)
    ensures ParseScopes(ParseScopes(items)) == ParseScopes(items)
  {
    ParsedAreWords(items);
    WordsParseToThemselves(ParseScopes(items));
  }

  // ---- Keys ----------------------------------------------------------------

  function Join(words: seq<string>): string {
    if words == [] then ""
    else if |words| == 1 then words[0]
    else words[0] + " " + Join(words[1..])
  }

  lemma {:induction false} SplitOfJoin(words: seq<string>)
    requires words != [] && forall s :: s in words ==> IsWord(s)
    ensures SplitRuns(Join(words)) == words
    ensures Join(words) != "" && !IsSeparator(Join(words)[0])
  {
    var w := words[0];
    assert w in words && words == [w] + words[1..];
    if |words| > 1 {
      SplitOfJoin(words[1..]);
      SplitFirstWord(w, Join(words[1..]));
    }
  }

  lemma SplitFirstWord(w: string, rest: string)
    requires IsWord(w) && rest != "" && !IsSeparator(rest[0])
    ensures SplitRuns(w + " " + rest) == [w] + SplitRuns(rest)
  {
    var tail := " " + rest;
    RunOfWord(w, tail);
    assert w + " " + rest == w + tail;
    assert (w + tail)[|w|..] == tail && (w + tail)[..|w|] == w;
    assert tail[1..] == rest;
    assert RunLength(rest, true) == 0;
    assert (w + tail)[|w| + 1..] == rest;
  }

  lemma {:induction false} RunOfWord(w: string, rest: string)
    requires forall i :: 0 <= i < |w| ==> !IsSeparator(w[i])
    requires rest != "" && IsSeparator(rest[0])
    ensures RunLength(w + rest, false) == |w|
  {
    if w != "" {
      assert (w + rest)[1..] == w[1..] + rest;
      RunOfWord(w[1..], rest);
    } else {
      assert w + rest == rest;
    }
  }

  /** Space-joining a valid list and parsing it back is the identity. */
  lemma ParseUndoesJoin(words: seq<string>)
    requires NoDup(words) && forall s :: s in words ==> IsWord(s)
    ensures ParseScopes([Join(words)]) == words
  {
    assert Pieces([Join(words)]) == SplitRuns(Join(words)) + Pieces([]);
    if words == [] {
      assert Pieces([""]) == [""];
    } else {
      SplitOfJoin(words);
      assert Pieces([Join(words)]) == words;
      NonEmptyOfWords(words);
      assert [] + words == words;
      AddAllNew([], words);
    }
  }

  function NormalizeScopes(scopes: seq<string>): (r: seq<string>)
    ensures forall s :: s in r <==> s in scopes
  {
    Sort(LexLess, AddAll([], scopes))
  }

  function ScopeKey(scopes: seq<string>): string {
    Join(NormalizeScopes(scopes))
  }

  lemma NormalizedIsSorted(scopes: seq<string>)
    ensures Sorted(LexLess, NormalizeScopes(scopes)) && NoDup(NormalizeScopes(scopes))
  {
    LexOrders(AddAll([], scopes));
    SortSorts(LexLess, AddAll([], scopes));
    LexOrders(NormalizeScopes(scopes));
    SortedNoDup(LexLess, NormalizeScopes(scopes));
  }

  /** The key decides set equality for scopes without separators. */
  lemma KeyDecidesSetEquality(a: seq<string>, b: seq<string>)
    requires ScopeProblemOf(a).None? && ScopeProblemOf(b).None?
    ensures ScopeKey(a) == ScopeKey(b) <==> Elems(a) == Elems(b)
  {
    var na, nb := NormalizeScopes(a), NormalizeScopes(b);
    NormalizedIsSorted(a);
    NormalizedIsSorted(b);
    if ScopeKey(a) == ScopeKey(b) {
      ParseUndoesJoin(na);
      ParseUndoesJoin(nb);
      assert forall s :: s in a <==> s in b;
    }
    if Elems(a) == Elems(b) {
      assert forall s :: s in na <==> s in Elems(a);
      assert forall s :: s in nb <==> s in Elems(b);
      LexOrders(na);
      SortedUnique(LexLess, na, nb);
    }
  }
}
