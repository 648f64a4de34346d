/** The agent search as SQL sees it: LIKE with an escape character (section 8.5 of
    SQL-92), against plain substring search under the same case fold. */
module Search {
  import opened Common

  /** ASCII lower case. */
  function Lower(c: char): char {
    if 'A' <= c <= 'Z' then c - 'A' + 'a' else c
  }

  predicate StartsFolded(fold: char -> char, text: string, q: string) {
    |q| <= |text| && forall j :: 0 <= j < |q| ==> fold(text[j]) == fold(q[j])
  }

  predicate ContainsFolded(fold: char -> char, text: string, q: string) {
    exists i :: 0 <= i <= |text| && StartsFolded(fold, text[i..], q)
  }

  // ---- LIKE -------------------------------------------------------------------

  predicate IsSpecial(c: char) {
    c == '\\' || c == '%' || c == '_'
  }

  function EscapeLikePattern(term: string): string {
    if term == "" then ""
    else (if IsSpecial(term[0]) then ['\\', term[0]] else [term[0]]) + EscapeLikePattern(term[1..])
  }

  datatype Specifier = AnyRun | OneChar | Exactly(c: char)

  /** The specifiers of a pattern; none when the escape character is misused. */
  function Specifiers(pattern: string): Option<seq<Specifier>> {
    if pattern == "" then Some([])
    else if pattern[0] == '\\' then
      if |pattern| < 2 || !IsSpecial(pattern[1]) then None
      else Prepend(Exactly(pattern[1]), Specifiers(pattern[2..]))
    else
      Prepend(if pattern[0] == '%' then AnyRun else if pattern[0] == '_' then OneChar else Exactly(pattern[0]),
              Specifiers(pattern[1..]))
  }

  function Prepend(s: Specifier, rest: Option<seq<Specifier>>): Option<seq<Specifier>> {
    match rest case None => None case Some(r) => Some([s] + r)
  }

  /** The text splits into one piece per specifier. */
  ghost predicate Splits(fold: char -> char, specs: seq<Specifier>, text: string) {
    if specs == [] then text == ""
    else match specs[0]
      case AnyRun => exists k :: 0 <= k <= |text| && Splits(fold, specs[1..], text[k..])
      case OneChar => text != "" && Splits(fold, specs[1..], text[1..])
      case Exactly(c) => text != "" && fold(text[0]) == fold(c) && Splits(fold, specs[1..], text[1..])
  }

  ghost predicate Like(fold: char -> char, text: string, pattern: string) {
    Specifiers(pattern).Some? && Splits(fold, Specifiers(pattern).value, text)
  }

  function Literally(q: string, tail: seq<Specifier>): seq<Specifier> {
    if q == "" then tail else [Exactly(q[0])] + Literally(q[1..], tail)
  }

  lemma OneLiteral(c: char, rest: string)
    ensures Specifiers((if IsSpecial(c) then ['\\', c] else [c]) + rest) == Prepend(Exactly(c), Specifiers(rest))
  {
  }

  lemma {:induction false} EscapedIsLiteral(q: string, tail: string)
    requires Specifiers(tail).Some?
    ensures Specifiers(EscapeLikePattern(q) + tail) == Some(Literally(q, Specifiers(tail).value))
  {
    if q == "" {
      assert EscapeLikePattern(q) + tail == tail;
    } else {
      EscapedIsLiteral(q[1..], tail);
      var rest := EscapeLikePattern(q[1..]) + tail;
      OneLiteral(q[0], rest);
      assert EscapeLikePattern(q) + tail == (if IsSpecial(q[0]) then ['\\', q[0]] else [q[0]]) + rest;
    }
  }

  lemma {:induction false} LiteralThenAny(fold: char -> char, q: string, text: string)
    ensures Splits(fold, Literally(q, [AnyRun]), text) <==> StartsFolded(fold, text, q)
  {
    var specs := Literally(q, [AnyRun]);
    if q == "" {
      assert specs == [AnyRun] && specs[1..] == [];
      assert text[|text|..] == "" && Splits(fold, specs[1..], text[|text|..]);
    } else {
      assert specs[0] == Exactly(q[0]) && specs[1..] == Literally(q[1..], [AnyRun]);
      if text != "" {
        LiteralThenAny(fold, q[1..], text[1..]);
        assert StartsFolded(fold, text, q)
               <==> fold(text[0]) == fold(q[0]) && StartsFolded(fold, text[1..], q[1..]) by {
          StartsFromHead(fold, text, q);
        }
      }
    }
  }

  lemma StartsFromHead(fold: char -> char, text: string, q: string)
    requires q != "" && text != ""
    ensures StartsFolded(fold, text, q) <==> fold(text[0]) == fold(q[0]) && StartsFolded(fold, text[1..], q[1..])
  {
  }

  /** A search term between two percent signs, escaped, matches exactly the texts
      that hold it literally, whatever the case fold and whatever it contains. */
  lemma EscapedLikeIsSubstring(fold: char -> char, text: string, q: string)
    ensures Like(fold, text, "%" + EscapeLikePattern(q) + "%") <==> ContainsFolded(fold, text, q)
  {
    var inner := EscapeLikePattern(q) + "%";
    var pattern := "%" + EscapeLikePattern(q) + "%";
    assert pattern == "%" + inner && pattern[1..] == inner;
    assert "%"[1..] == "" && Specifiers("") == Some([]);
    assert Specifiers("%") == Prepend(AnyRun, Specifiers("")) && [AnyRun] + [] == [AnyRun];
    EscapedIsLiteral(q, "%");
    var specs := [AnyRun] + Literally(q, [AnyRun]);
    assert Specifiers(pattern) == Prepend(AnyRun, Specifiers(inner)) == Some(specs);
    assert specs[1..] == Literally(q, [AnyRun]);
    forall k | 0 <= k <= |text|
      ensures Splits(fold, specs[1..], text[k..]) <==> StartsFolded(fold, text[k..], q)
    {
      LiteralThenAny(fold, q, text[k..]);
    }
  }

  // ---- toLowerCase and includes --------------------------------------------------

  function AsciiLower(s: string): (r: string)
    ensures |r| == |s| && forall i :: 0 <= i < |s| ==> r[i] == Lower(s[i])
  {
    seq(|s|, i requires 0 <= i < |s| => Lower(s[i]))
  }

  /** String.includes. */
  predicate Includes(text: string, q: string) {
    exists i :: 0 <= i <= |text| && q <= text[i..]
  }

  /** Lower-casing leaves every character outside ASCII as it is: the whole effect is
      that of the ASCII fold. */
  predicate Plain(lower: string -> string, s: string) {
    lower(s) == AsciiLower(s)
  }

  /** A character outside ASCII that lower-casing changes. */
  predicate Foreign(lower: string -> string, c: char) {
    c >= '\U{0080}' && lower([c]) != [c]
  }

  /** What toLowerCase promises: its results are in lower case and no shorter, and
      beyond ASCII it acts only where there is a character it changes, leaving none. */
  ghost predicate LowerCases(lower: string -> string) {
    && (forall s :: lower(lower(s)) == lower(s) && AsciiLower(lower(s)) == lower(s) && |lower(s)| >= |s|)
    && (forall s :: (forall c :: c in s ==> !Foreign(lower, c)) ==> Plain(lower, s))
    && (forall s, c :: c in lower(s) ==> !Foreign(lower, c))
  }

  predicate Ascii(s: string) {
    forall c :: c in s ==> c < '\U{0080}'
  }

  lemma AsciiIsPlain(lower: string -> string, s: string)
    requires LowerCases(lower) && Ascii(s)
    ensures Plain(lower, s)
  {
    assert forall c :: c in s ==> !Foreign(lower, c);
  }

  lemma FoldedIsIncludes(text: string, q: string)
    ensures ContainsFolded(Lower, text, q) <==> Includes(AsciiLower(text), AsciiLower(q))
  {
    forall i | 0 <= i <= |text|
      ensures StartsFolded(Lower, text[i..], q) <==> AsciiLower(q) <= AsciiLower(text)[i..]
    {
      var rest := AsciiLower(text)[i..];
      assert forall j :: 0 <= j < |rest| ==> rest[j] == Lower(text[i..][j]);
      if StartsFolded(Lower, text[i..], q) {
        assert AsciiLower(q) == rest[..|q|];
      }
      if AsciiLower(q) <= rest {
        assert forall j :: 0 <= j < |q| ==> Lower(q[j]) == AsciiLower(q)[j] == rest[j];
      }
    }
  }

  lemma IncludesFacts(text: string, q: string)
    ensures text == q ==> Includes(text, q)
    ensures Includes(text, q) && |q| >= |text| ==> text == q
    ensures Includes(text, q) ==> forall c :: c in q ==> c in text
  {
    assert text[0..] == text;
    if Includes(text, q) {
      var i :| 0 <= i <= |text| && q <= text[i..];
      assert forall j :: 0 <= j < |q| ==> q[j] == text[i..][j] == text[i + j];
    }
  }

  lemma ForeignStays(s: string, c: char)
    requires c in s && c >= '\U{0080}'
    ensures c in AsciiLower(s)
  {
    var k :| 0 <= k < |s| && s[k] == c;
    assert AsciiLower(s)[k] == c;
  }

  /** SQLite's LIKE folds ASCII; the in-memory driver lower-cases both sides. */
  ghost predicate SearchesAgree(lower: string -> string, name: string, q: string) {
    Like(Lower, name, "%" + EscapeLikePattern(q) + "%") <==> Includes(lower(name), lower(q))
  }

  lemma PlainSearchesAgree(lower: string -> string, name: string, q: string)
    requires Plain(lower, name) && Plain(lower, q)
    ensures SearchesAgree(lower, name, q)
  {
    EscapedLikeIsSubstring(Lower, name, q);
    FoldedIsIncludes(name, q);
  }

  /** In particular every ASCII term finds every ASCII name alike. */
  lemma AsciiSearchesAgree(lower: string -> string, name: string, q: string)
    requires LowerCases(lower) && Ascii(name) && Ascii(q)
    ensures SearchesAgree(lower, name, q)
  {
    AsciiIsPlain(lower, name);
    AsciiIsPlain(lower, q);
    PlainSearchesAgree(lower, name, q);
  }

  /** The two searches find a name alike, for every plain term, exactly when the name
      is plain, as every ASCII name is. */
  lemma NameSearchesAgreeIff(lower: string -> string, name: string)
    requires LowerCases(lower)
    ensures (forall q :: Plain(lower, q) ==> SearchesAgree(lower, name, q)) <==> Plain(lower, name)
  {
    if Plain(lower, name) {
      forall q | Plain(lower, q) ensures SearchesAgree(lower, name, q) {
        PlainSearchesAgree(lower, name, q);
      }
    } else {
      var q := lower(name);
      EscapedLikeIsSubstring(Lower, name, q);
      FoldedIsIncludes(name, q);
      IncludesFacts(lower(name), q);
      IncludesFacts(AsciiLower(name), q);
      assert !SearchesAgree(lower, name, q);
    }
  }

  /** And a term finds the plain names alike exactly when it is plain. */
  lemma TermSearchesAgreeIff(lower: string -> string, q: string)
    requires LowerCases(lower)
    ensures (forall name :: Plain(lower, name) ==> SearchesAgree(lower, name, q)) <==> Plain(lower, q)
  {
    if Plain(lower, q) {
      forall name | Plain(lower, name) ensures SearchesAgree(lower, name, q) {
        PlainSearchesAgree(lower, name, q);
      }
    } else {
      var name := lower(q);
      EscapedLikeIsSubstring(Lower, name, q);
      FoldedIsIncludes(name, q);
      IncludesFacts(lower(name), lower(q));
      IncludesFacts(name, AsciiLower(q));
      var c :| c in q && Foreign(lower, c);
      ForeignStays(q, c);
      assert !SearchesAgree(lower, name, q);
    }
  }

  // ---- Where they differ ------------------------------------------------------------

  const UPPER_E_ACUTE := '\U{00C9}'
  const LOWER_E_ACUTE := '\U{00E9}'

  /** An agent named with a capital E acute is found under the small one by the
      in-memory driver and not by SQLite. */
  lemma AcuteIsMissed(lower: string -> string)
    requires lower([UPPER_E_ACUTE]) == [LOWER_E_ACUTE] == lower([LOWER_E_ACUTE])
    ensures !SearchesAgree(lower, [UPPER_E_ACUTE], [LOWER_E_ACUTE])
  {
    var name, q := [UPPER_E_ACUTE], [LOWER_E_ACUTE];
    EscapedLikeIsSubstring(Lower, name, q);
    assert forall i :: 0 <= i <= 1 ==> !StartsFolded(Lower, name[i..], q);
    assert lower(q) <= lower(name)[0..];
  }

  /** A lower-casing that knows one letter beyond ASCII. */
  function AcuteLower(s: string): (r: string)
    ensures |r| == |s| && forall i :: 0 <= i < |s| ==> r[i] == AcuteChar(s[i])
  {
    seq(|s|, i requires 0 <= i < |s| => AcuteChar(s[i]))
  }

  function AcuteChar(c: char): char {
    if c == UPPER_E_ACUTE then LOWER_E_ACUTE else Lower(c)
  }

  /** It does all that toLowerCase promises, so what is promised does not help. */
  lemma AcuteLowerCases()
    ensures LowerCases(AcuteLower)
    ensures !SearchesAgree(AcuteLower, [UPPER_E_ACUTE], [LOWER_E_ACUTE])
  {
    forall s ensures AcuteLower(AcuteLower(s)) == AcuteLower(s) && AsciiLower(AcuteLower(s)) == AcuteLower(s) {
    }
    assert forall c :: Foreign(AcuteLower, c) <==> c == UPPER_E_ACUTE by {
      forall c ensures AcuteLower([c]) == [c] <==> AcuteChar(c) == c {
        assert AcuteLower([c])[0] == AcuteChar(c);
      }
    }
    forall s | forall c :: c in s ==> !Foreign(AcuteLower, c) ensures Plain(AcuteLower, s) {
      assert forall i :: 0 <= i < |s| ==> s[i] in s;
    }
    assert AcuteLower([UPPER_E_ACUTE]) == [LOWER_E_ACUTE] == AcuteLower([LOWER_E_ACUTE]);
    AcuteIsMissed(AcuteLower);
  }
}
