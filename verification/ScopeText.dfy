/** What parseScopes reads: words with any white space and commas around them. */
module ScopeText {
  import opened Common
  import opened Scopes

  /** A text laid out as words, each with the gap after it, and a gap before them all. */
  datatype Line = Line(lead: string, words: seq<string>, gaps: seq<string>)

  /** White space and commas only. */
  predicate Blank(s: string) {
    forall i :: 0 <= i < |s| ==> s[i] in SEPARATORS
  }

  /** Not empty, and without white space or comma. */
  predicate Word(s: string) {
    s != "" && forall i :: 0 <= i < |s| ==> s[i] !in SEPARATORS
  }

  /** Words are words, gaps are blank, and between two words there is one. */
  predicate LaidOut(words: seq<string>, gaps: seq<string>) {
    && |gaps| == |words|
    && (forall i :: 0 <= i < |words| ==> Word(words[i]) && Blank(gaps[i]))
    && (forall i :: 0 <= i < |words| - 1 ==> gaps[i] != "")
  }

  predicate Proper(line: Line) {
    Blank(line.lead) && LaidOut(line.words, line.gaps)
  }

  function Spread(words: seq<string>, gaps: seq<string>): string
    requires |gaps| == |words|
  {
    if words == [] then "" else words[0] + gaps[0] + Spread(words[1..], gaps[1..])
  }

  function Text(line: Line): string
    requires Proper(line)
  {
    line.lead + Spread(line.words, line.gaps)
  }

  // ---- One line ------------------------------------------------------------------------

  lemma BlankIs(s: string)
    ensures Blank(s) <==> forall i :: 0 <= i < |s| ==> IsSeparator(s[i])
  {
    forall i | 0 <= i < |s| ensures s[i] in SEPARATORS <==> IsSeparator(s[i]) {
      SeparatorsAre(s[i]);
    }
  }

  lemma WordIs(s: string)
    ensures Word(s) <==> IsWord(s)
  {
    forall i | 0 <= i < |s| ensures s[i] in SEPARATORS <==> IsSeparator(s[i]) {
      SeparatorsAre(s[i]);
    }
  }

  lemma {:induction false} RunOf(s: string, rest: string, separators: bool)
    requires forall i :: 0 <= i < |s| ==> IsSeparator(s[i]) == separators
    requires rest == "" || IsSeparator(rest[0]) != separators
    ensures RunLength(s + rest, separators) == |s|
  {
    if s != "" {
      assert (s + rest)[1..] == s[1..] + rest;
      RunOf(s[1..], rest, separators);
    } else {
      assert s + rest == rest;
    }
  }

  lemma SplitOfBlank(gap: string, rest: string)
    requires gap != "" && Blank(gap) && (rest == "" || !IsSeparator(rest[0]))
    ensures SplitRuns(gap + rest) == [""] + SplitRuns(rest)
  {
    BlankIs(gap);
    assert (gap + rest)[0] == gap[0];
    assert RunLength(gap + rest, false) == 0;
    assert (gap + rest)[0..] == gap + rest && (gap + rest)[..0] == "";
    RunOf(gap, rest, true);
    assert (gap + rest)[|gap|..] == rest;
  }

  lemma SplitOfWord(word: string, gap: string, rest: string)
    requires Word(word) && Blank(gap) && gap != "" && (rest == "" || !IsSeparator(rest[0]))
    ensures SplitRuns(word + gap + rest) == [word] + SplitRuns(rest)
  {
    var s := word + gap + rest;
    WordIs(word);
    BlankIs(gap);
    assert s == word + (gap + rest);
    assert (gap + rest)[0] == gap[0];
    RunOf(word, gap + rest, false);
    assert s[|word|..] == gap + rest && s[..|word|] == word;
    RunOf(gap, rest, true);
    assert s[|word| + |gap|..] == rest;
  }

  lemma SplitOfOne(word: string)
    requires Word(word)
    ensures SplitRuns(word) == [word]
  {
    WordIs(word);
    RunOf(word, "", false);
    assert word + "" == word;
  }

  lemma SpreadStarts(words: seq<string>, gaps: seq<string>)
    requires LaidOut(words, gaps)
    ensures Spread(words, gaps) == "" || !IsSeparator(Spread(words, gaps)[0])
  {
    if words != [] {
      WordIs(words[0]);
      assert Spread(words, gaps)[0] == words[0][0];
    }
  }

  lemma NonEmptyAfter(piece: string, pieces: seq<string>)
    ensures NonEmpty([piece] + pieces) == if piece == "" then NonEmpty(pieces) else [piece] + NonEmpty(pieces)
  {
    assert ([piece] + pieces)[1..] == pieces;
  }

  lemma {:induction false} SpreadSplits(words: seq<string>, gaps: seq<string>)
    requires LaidOut(words, gaps)
    ensures NonEmpty(SplitRuns(Spread(words, gaps))) == words
    decreases words
  {
    if words == [] {
      assert SplitRuns("") == [""];
      NonEmptyAfter("", []);
      assert [""] + [] == [""];
    } else {
      var word, gap, rest := words[0], gaps[0], Spread(words[1..], gaps[1..]);
      assert Word(word) && Blank(gap);
      SpreadSplits(words[1..], gaps[1..]);
      SpreadStarts(words[1..], gaps[1..]);
      if gap == "" {
        assert |words| == 1 && word + gap + rest == word;
        SplitOfOne(word);
        NonEmptyAfter(word, []);
        assert [word] + [] == [word];
      } else {
        SplitOfWord(word, gap, rest);
        NonEmptyAfter(word, SplitRuns(rest));
        assert words == [word] + words[1..];
      }
    }
  }

  lemma LineSplits(line: Line)
    requires Proper(line)
    ensures NonEmpty(SplitRuns(Text(line))) == line.words
  {
    SpreadSplits(line.words, line.gaps);
    SpreadStarts(line.words, line.gaps);
    var rest := Spread(line.words, line.gaps);
    if line.lead == "" {
      assert Text(line) == rest;
    } else {
      SplitOfBlank(line.lead, rest);
      NonEmptyAfter("", SplitRuns(rest));
    }
  }

  // ---- All that is given -----------------------------------------------------------------

  function AllWords(lines: seq<Line>): seq<string> {
    if lines == [] then [] else lines[0].words + AllWords(lines[1..])
  }

  function Texts(lines: seq<Line>): seq<string>
    requires forall line :: line in lines ==> Proper(line)
  {
    seq(|lines|, i requires 0 <= i < |lines| => assert lines[i] in lines; Text(lines[i]))
  }

  lemma {:induction false} PiecesOfLines(lines: seq<Line>)
    requires forall line :: line in lines ==> Proper(line)
    ensures NonEmpty(Pieces(Texts(lines))) == AllWords(lines)
  {
    if lines != [] {
      assert lines == [lines[0]] + lines[1..] && lines[0] in lines;
      PiecesOfLines(lines[1..]);
      LineSplits(lines[0]);
      assert Texts(lines)[0] == Text(lines[0]) && Texts(lines)[1..] == Texts(lines[1..]);
      FilterConcat(p => p != "", SplitRuns(Text(lines[0])), Pieces(Texts(lines[1..])));
      assert Pieces(Texts(lines)) == SplitRuns(Text(lines[0])) + Pieces(Texts(lines[1..]));
    }
  }

  /** Each word where it is first seen. */
  function FirstSeen(words: seq<string>): seq<string> {
    if words == [] then []
    else if words[|words| - 1] in words[..|words| - 1] then FirstSeen(words[..|words| - 1])
    else FirstSeen(words[..|words| - 1]) + [words[|words| - 1]]
  }

  lemma {:induction false} AddOneMore(known: seq<string>, words: seq<string>, word: string)
    ensures AddAll(known, words + [word])
         == var r := AddAll(known, words); if word in r then r else r + [word]
    decreases words
  {
    if words == [] {
      assert words + [word] == [word] && [word][1..] == [];
    } else {
      assert (words + [word])[1..] == words[1..] + [word];
      AddOneMore(if words[0] in known then known else known + [words[0]], words[1..], word);
    }
  }

  lemma {:induction false} FirstSeenIs(words: seq<string>)
    ensures AddAll([], words) == FirstSeen(words)
  {
    if words != [] {
      var init, last := words[..|words| - 1], words[|words| - 1];
      FirstSeenIs(init);
      assert words == init + [last];
      AddOneMore([], init, last);
    }
  }

  /** parseScopes gives the words of what it is given, each where it is first seen. */
  lemma ParsedAre(lines: seq<Line>)
    requires forall line :: line in lines ==> Proper(line)
    ensures ParseScopes(Texts(lines)) == FirstSeen(AllWords(lines))
  {
    PiecesOfLines(lines);
    FirstSeenIs(AllWords(lines));
  }

  lemma CutAtRun(s: string, separators: bool) returns (head: string, rest: string)
    ensures s == head + rest
    ensures forall i :: 0 <= i < |head| ==> IsSeparator(head[i]) == separators
    ensures rest == "" || IsSeparator(rest[0]) != separators
    ensures s != "" && IsSeparator(s[0]) == separators ==> head != ""
  {
    var n := RunLength(s, separators);
    head, rest := s[..n], s[n..];
  }

  lemma HeadOf(s: string) returns (lead: string, word: string, rest: string)
    ensures s == lead + (word + rest) && Blank(lead)
    ensures word == "" ==> rest == ""
    ensures word != "" ==> Word(word)
    ensures rest == "" || IsSeparator(rest[0])
    ensures s != "" && IsSeparator(s[0]) ==> lead != ""
  {
    var tail;
    lead, tail := CutAtRun(s, true);
    word, rest := CutAtRun(tail, false);
    BlankIs(lead);
    WordIs(word);
  }

  /** And there is no text that is not so laid out. */
  lemma {:induction false} EveryTextIsLaidOut(s: string) returns (line: Line)
    ensures Proper(line) && Text(line) == s
    ensures s != "" && IsSeparator(s[0]) ==> line.lead != ""
    decreases |s|
  {
    var lead, word, rest := HeadOf(s);
    if word == "" {
      line := Line(lead, [], []);
    } else {
      var more := EveryTextIsLaidOut(rest);
      MoreStarts(more);
      OneMoreWord(word, more);
      line := Line(lead, [word] + more.words, [more.lead] + more.gaps);
    }
  }

  lemma MoreStarts(more: Line)
    requires Proper(more) && (Text(more) != "" && IsSeparator(Text(more)[0]) ==> more.lead != "")
    requires Text(more) == "" || IsSeparator(Text(more)[0])
    ensures more.words != [] ==> more.lead != ""
  {
    if more.words != [] {
      assert Word(more.words[0]);
    }
  }

  lemma OneMoreWord(word: string, more: Line)
    requires Word(word) && Proper(more) && (more.words != [] ==> more.lead != "")
    ensures LaidOut([word] + more.words, [more.lead] + more.gaps)
    ensures Spread([word] + more.words, [more.lead] + more.gaps) == word + Text(more)
  {
    assert ([word] + more.words)[1..] == more.words && ([more.lead] + more.gaps)[1..] == more.gaps;
    assert word + more.lead + Spread(more.words, more.gaps) == word + Text(more);
  }
}
