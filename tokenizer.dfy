/** The regex pre-tokenizer of GPT-2 (`'s|'t|'re|'ve|'m|'ll|'d| ?\p{L}+| ?\p{N}+|
    ?[^\s\p{L}\p{N}]+|\s+(?!\S)|\s+`) as a scanner over a string, the whitespace
    strip applied to each segment, and the token count built on it.

    A segment is what `findall` returns at one position: the leftmost match, taking
    the first alternative that matches (ordered, not longest), with greedy
    quantifiers and backtracking. No alternative matches the empty string, so the
    segments follow one another without gaps. */
module Tokenizer {
  import opened Strings

  /** The Unicode classes the pattern distinguishes: `\p{L}`, `\p{N}`, `\s`, and
      everything else. One class per character, so the classes exclude each other. */
  datatype CharClass = Letter | Number | Space | Other

  /** `\p{L}` restricted to Latin-1. */
  predicate IsLetterChar(c: char)
  {
    ('A' <= c <= 'Z') || ('a' <= c <= 'z') || c == '\U{AA}' || c == '\U{B5}'
    || c == '\U{BA}' || ('\U{C0}' <= c <= '\U{D6}') || ('\U{D8}' <= c <= '\U{F6}')
    || ('\U{F8}' <= c <= '\U{FF}')
  }

  /** `\p{N}` restricted to Latin-1. */
  predicate IsNumberChar(c: char)
  {
    ('0' <= c <= '9') || c == '\U{B2}' || c == '\U{B3}' || c == '\U{B9}'
    || ('\U{BC}' <= c <= '\U{BE}')
  }

  /** The class of a character. Whitespace is Python's `str.isspace` set, used
      both for `\s` and for `strip`. */
  function Classify(c: char): CharClass
  {
    if ('\t' <= c <= '\r') || ('\U{1C}' <= c <= ' ') || c == '\U{85}' || c == '\U{A0}'
       || c == '\U{1680}' || ('\U{2000}' <= c <= '\U{200A}') || c == '\U{2028}'
       || c == '\U{2029}' || c == '\U{202F}' || c == '\U{205F}' || c == '\U{3000}'
    then Space
    else if IsLetterChar(c) then Letter
    else if IsNumberChar(c) then Number
    else Other
  }

  predicate IsSpace(c: char)
  {
    Classify(c) == Space
  }

  /** Every character of `t` is of class `c`. */
  predicate RunOf(t: string, c: CharClass)
  {
    forall i :: 0 <= i < |t| ==> Classify(t[i]) == c
  }

  /** `t` contains no whitespace at all. */
  predicate NoSpace(t: string)
  {
    forall i :: 0 <= i < |t| ==> !IsSpace(t[i])
  }

  /** The contraction alternatives, in the order the pattern lists them. */
  const Contractions: seq<string> := ["'s", "'t", "'re", "'ve", "'m", "'ll", "'d"]

  // ---------------------------------------------------------------------------
  // The alternatives of the pattern, each tried at the start of `s`.
  // Each returns the length of its match, 0 when it does not match.

  /** End of the maximal run of class `c` that starts at `from`: a greedy `X+`. */
  function RunEnd(s: string, from: nat, c: CharClass): (j: nat)
    requires from <= |s|
    ensures from <= j <= |s|
    ensures forall m :: from <= m < j ==> Classify(s[m]) == c
    ensures j == |s| || Classify(s[j]) != c
    decreases |s| - from
  {
    if from == |s| || Classify(s[from]) != c then from else RunEnd(s, from + 1, c)
  }

  /** `'s|'t|'re|'ve|'m|'ll|'d`: the first listed contraction (from index `k` on)
      that `s` starts with. */
  function ContractionLength(s: string, k: nat := 0): (n: nat)
    requires k <= |Contractions|
    ensures n <= |s|
    ensures n > 0 ==> s[..n] in Contractions
    ensures n == 0 <==> forall m :: k <= m < |Contractions| ==> !(Contractions[m] <= s)
    decreases |Contractions| - k
  {
    if k == |Contractions| then 0
    else if Contractions[k] <= s then
      assert s[..|Contractions[k]|] == Contractions[k];
      |Contractions[k]|
    else ContractionLength(s, k + 1)
  }

  /** Whether ` ?X+` for the non-space class `c` can match at the start of `s`. */
  predicate StartsRun(s: string, c: CharClass)
    requires |s| > 0
  {
    Classify(s[0]) == c || (s[0] == ' ' && |s| >= 2 && Classify(s[1]) == c)
  }

  /** ` ?X+` for a non-space class `X`: the optional space is greedy, so it is
      taken when a character of class `X` follows it; the run is maximal. */
  function OptionalSpaceRun(s: string, c: CharClass): (n: nat)
    requires |s| > 0 && c != Space
    ensures n <= |s|
    ensures n > 0 <==> StartsRun(s, c)
  {
    if |s| >= 2 && s[0] == ' ' && Classify(s[1]) == c then RunEnd(s, 1, c)
    else if Classify(s[0]) == c then RunEnd(s, 0, c)
    else 0
  }

  /** When ` ?X+` matches, it is a match of the pattern that ends in class `X`. */
  lemma {:induction false} OptionalSpaceRunMatch(s: string, c: CharClass)
    requires |s| > 0 && c != Space && StartsRun(s, c)
    ensures IsMatch(s, OptionalSpaceRun(s, c))
    ensures Classify(s[OptionalSpaceRun(s, c) - 1]) == c
  {
    if |s| >= 2 && s[0] == ' ' && Classify(s[1]) == c {
      RunSegmentForm(s, RunEnd(s, 1, c), c);
    } else {
      RunSegmentForm(s, RunEnd(s, 0, c), c);
    }
  }

  /** A maximal run of the non-space class `c`, possibly after one ASCII space,
      has the form of a segment. */
  lemma {:induction false} RunSegmentForm(s: string, n: nat, c: CharClass)
    requires 0 < n <= |s| && c != Space
    requires (s[0] == ' ' && n >= 2) || Classify(s[0]) == c
    requires forall m :: (if s[0] == ' ' && n >= 2 then 1 else 0) <= m < n ==> Classify(s[m]) == c
    ensures IsSegmentForm(s[..n])
  {
    var t := s[..n];
    assert t[|t| - 1] == s[n - 1];
    if s[0] == ' ' && n >= 2 {
      assert t[1..] == s[1..n];
    }
  }

  /** `\s+(?!\S)`: the greedy whitespace run, given back one character at a time
      until the next character is not a non-space; only the whole run (at the end
      of the text) or the run minus its last character can succeed. */
  function TrailingSpaceRun(s: string): (n: nat)
    requires |s| > 0
    ensures n <= |s|
    ensures n == 0 <==> !IsSpace(s[0]) || (|s| >= 2 && !IsSpace(s[1]))
  {
    if !IsSpace(s[0]) then 0
    else
      var j := RunEnd(s, 0, Space);
      if j == |s| then j
      else if j >= 2 then j - 1
      else 0
  }

  /** When `\s+(?!\S)` matches, it is a match of the pattern ending in whitespace. */
  lemma {:induction false} TrailingSpaceRunMatch(s: string)
    requires |s| > 0 && TrailingSpaceRun(s) > 0
    ensures IsMatch(s, TrailingSpaceRun(s))
    ensures IsSpace(s[TrailingSpaceRun(s) - 1])
  {
    var j := RunEnd(s, 0, Space);
    if j == |s| {
      assert s[..j][j - 1] == s[j - 1];
    } else {
      assert s[..j - 1][j - 2] == s[j - 2];
    }
  }

  /** A segment is a contraction, a whitespace run, or a run of one non-space class
      with possibly one ASCII space in front. */
  predicate IsSegmentForm(t: string)
  {
    t in Contractions
    || (|t| > 0 && RunOf(t, Space))
    || (|t| > 0 && !IsSpace(t[|t| - 1])
        && (RunOf(t, Classify(t[|t| - 1])) || (t[0] == ' ' && RunOf(t[1..], Classify(t[|t| - 1])))))
  }

  /** What a match of the pattern at the start of `s` of length `n` looks like. */
  predicate IsMatch(s: string, n: nat)
  {
    && 1 <= n <= |s|
    && IsSegmentForm(s[..n])
    // a run of letters, digits or other characters is maximal
    && (s[..n] !in Contractions && !IsSpace(s[n - 1]) ==>
          n == |s| || Classify(s[n]) != Classify(s[n - 1]))
    // (?!\S): a whitespace segment reaches the end of the text, or is a single
    // character before a non-space, or leaves exactly one space before a non-space
    && (IsSpace(s[n - 1]) ==>
          n == |s| || (n == 1 && !IsSpace(s[1])) || (IsSpace(s[n]) && n + 1 < |s| && !IsSpace(s[n + 1])))
    // ` ?`: an ASCII space before a non-space is never a segment on its own
    && (|s| >= 2 && s[0] == ' ' && !IsSpace(s[1]) ==> !IsSpace(s[n - 1]))
  }

  /** A contraction at the start of `s` is a match. */
  lemma {:induction false} ContractionMatch(s: string)
    requires ContractionLength(s) > 0
    ensures IsMatch(s, ContractionLength(s))
  {
    var n := ContractionLength(s);
    ContractionsHaveNoSpace();
    assert s[..n] in Contractions;
    assert s[n - 1] == s[..n][n - 1];
    assert s[0] == s[..n][0];
  }

  /** The class the run alternative `alt` (1, 2 or 3) matches. */
  function RunClass(alt: nat): (c: CharClass)
    requires 1 <= alt <= 3
    ensures c != Space
  {
    if alt == 1 then Letter else if alt == 2 then Number else Other
  }

  /** Length of the match of the pattern's alternatives from `alt` on at the start
      of `s`: 0 the contractions, 1 letters, 2 digits, 3 other characters (each of
      those three after an optional ASCII space), 4 `\s+(?!\S)`, 5 `\s+`. The
      regex tries them in this order and the first that matches wins, so `alt` is
      only tried once the run alternatives before it have failed. */
  function MatchFrom(s: string, alt: nat): (n: nat)
    requires |s| > 0 && alt <= 5
    requires alt >= 2 ==> !StartsRun(s, Letter)
    requires alt >= 3 ==> !StartsRun(s, Number)
    requires alt >= 4 ==> !StartsRun(s, Other)
    requires alt >= 5 ==> |s| >= 2 && !IsSpace(s[1])
    ensures 1 <= n <= |s|
    decreases 5 - alt
  {
    if alt == 0 then
      var contraction := ContractionLength(s);
      if contraction > 0 then contraction else MatchFrom(s, 1)
    else if alt <= 3 then
      var run := OptionalSpaceRun(s, RunClass(alt));
      if run > 0 then run else MatchFrom(s, alt + 1)
    else if alt == 4 then
      var trailing := TrailingSpaceRun(s);
      if trailing > 0 then trailing else MatchFrom(s, 5)
    else
      // `\s+` is reached only for a single whitespace character before a non-space
      1
  }

  /** Whichever alternative wins, its length is a match of the pattern. */
  lemma {:induction false} MatchFromMatch(s: string, alt: nat)
    requires |s| > 0 && alt <= 5
    requires alt >= 2 ==> !StartsRun(s, Letter)
    requires alt >= 3 ==> !StartsRun(s, Number)
    requires alt >= 4 ==> !StartsRun(s, Other)
    requires alt >= 5 ==> |s| >= 2 && !IsSpace(s[1])
    ensures IsMatch(s, MatchFrom(s, alt))
    ensures alt == 0 && ContractionLength(s) > 0 ==> MatchFrom(s, alt) == ContractionLength(s)
    decreases 5 - alt
  {
    if alt == 0 {
      if ContractionLength(s) > 0 {
        ContractionMatch(s);
      } else {
        MatchFromMatch(s, 1);
      }
    } else if alt <= 3 {
      if OptionalSpaceRun(s, RunClass(alt)) > 0 {
        OptionalSpaceRunMatch(s, RunClass(alt));
      } else {
        MatchFromMatch(s, alt + 1);
      }
    } else if alt == 4 {
      if TrailingSpaceRun(s) > 0 {
        TrailingSpaceRunMatch(s);
      } else {
        MatchFromMatch(s, 5);
      }
    } else {
      assert RunOf(s[..1], Space);
    }
  }

  /** Length of the match of the whole pattern at the start of `s`. */
  function MatchLength(s: string): (n: nat)
    requires |s| > 0
    ensures 1 <= n <= |s|
  {
    MatchFrom(s, 0)
  }

  /** The match at the start of a non-empty text is a match of the pattern, and
      the contraction alternatives, listed first, win whenever one applies. */
  lemma {:induction false} MatchLengthMatch(s: string)
    requires |s| > 0
    ensures IsMatch(s, MatchLength(s))
    ensures ContractionLength(s) > 0 ==> MatchLength(s) == ContractionLength(s)
  {
    MatchFromMatch(s, 0);
  }

  /** `findall`: the segments of `s`, left to right. */
  function Segments(s: string): (segs: seq<string>)
    ensures Flatten(segs) == s
    ensures forall k :: 0 <= k < |segs| ==> segs[k] != []
    ensures |segs| <= |s|
    decreases |s|
  {
    if s == [] then []
    else
      var n := MatchLength(s);
      var rest := Segments(s[n..]);
      ConsPieces(s, n, rest);
      [s[..n]] + rest
  }

  /** Every segment has one of the forms the pattern's alternatives produce. */
  lemma {:induction false} SegmentForms(s: string)
    ensures forall k :: 0 <= k < |Segments(s)| ==> IsSegmentForm(Segments(s)[k])
    decreases |s|
  {
    if s != [] {
      var n := MatchLength(s);
      MatchLengthMatch(s);
      SegmentForms(s[n..]);
      assert Segments(s) == [s[..n]] + Segments(s[n..]);
    }
  }

  // ---------------------------------------------------------------------------
  // str.strip

  /** `t.lstrip()`: drops the leading whitespace. */
  function LStrip(t: string): (r: string)
    ensures |r| <= |t| && r == t[|t| - |r|..]
    ensures forall m :: 0 <= m < |t| - |r| ==> IsSpace(t[m])
    ensures r == [] || !IsSpace(r[0])
    decreases |t|
  {
    if t != [] && IsSpace(t[0]) then
      var r := LStrip(t[1..]);
      assert forall m :: 1 <= m < |t| ==> t[1..][m - 1] == t[m];
      r
    else t
  }

  /** `t.rstrip()`: drops the trailing whitespace. */
  function RStrip(t: string): (r: string)
    ensures |r| <= |t| && r == t[..|r|]
    ensures forall m :: |r| <= m < |t| ==> IsSpace(t[m])
    ensures r == [] || !IsSpace(r[|r| - 1])
    decreases |t|
  {
    if t != [] && IsSpace(t[|t| - 1]) then
      RStrip(t[..|t| - 1])
    else t
  }

  /** `t.strip()`: what is left neither starts nor ends with whitespace, and it is
      empty exactly when `t` is all whitespace; `StripTrims` shows it is `t` with
      its leading and trailing whitespace cut off. */
  function Strip(t: string): (r: string)
    ensures r == [] || (!IsSpace(r[0]) && !IsSpace(r[|r| - 1]))
    ensures r == [] <==> RunOf(t, Space)
  {
    var l := LStrip(t);
    var r := RStrip(l);
    if r == [] then
      assert l == [];
      r
    else
      assert r[0] == l[0] && l[0] == t[|t| - |l|];
      assert !IsSpace(t[|t| - |l|]);
      r
  }

  /** `r` is the slice of `t` that starts at `a`, with only whitespace before it
      and only whitespace after it. */
  predicate TrimmedAt(t: string, a: nat, r: string)
  {
    a + |r| <= |t| && r == t[a..][..|r|]
    && (forall m :: 0 <= m < a ==> IsSpace(t[m]))
    && (forall m :: a + |r| <= m < |t| ==> IsSpace(t[m]))
  }

  /** The stripped text is the slice of `t` left once the whitespace before it
      and the whitespace after it are cut off. Together with the contract of
      `Strip` this fixes the result: the slice starts at the first character
      that is not whitespace and ends at the last one. */
  lemma {:induction false} StripTrims(t: string)
    ensures exists a: nat :: TrimmedAt(t, a, Strip(t))
  {
    var l := LStrip(t);
    var r := RStrip(l);
    var a := |t| - |l|;
    assert Strip(t) == r;
    assert t[a..] == l;
    assert forall m :: a + |r| <= m < |t| ==> IsSpace(t[m]) by {
      forall m | a + |r| <= m < |t|
        ensures IsSpace(t[m])
      {
        assert l[m - a] == t[m];
      }
    }
    assert TrimmedAt(t, a, r);
  }

  // ---------------------------------------------------------------------------
  // tokenize and count_tokens

  /** `tokenize(text)`: every segment with its surrounding whitespace stripped. */
  function Tokenize(text: string): (tokens: seq<string>)
  {
    MapEach(Strip, Segments(text))
  }

  /** `count_tokens(text)`: the number of tokens, never more than the number of
      characters, and zero only for the empty text. */
  function CountTokens(text: string): (n: nat)
    ensures n == |Tokenize(text)|
    ensures n <= |text|
    ensures n == 0 <==> text == []
  {
    |Tokenize(text)|
  }

  /** The text with every whitespace character removed: the reference the tokens
      are measured against. */
  function RemoveSpaces(s: string): string
  {
    if s == [] then []
    else (if IsSpace(s[0]) then [] else [s[0]]) + RemoveSpaces(s[1..])
  }

  // ---------------------------------------------------------------------------
  // Properties of the tokenizer

  /** Tokenizing a non-empty text strips the first segment and tokenizes the rest. */
  lemma {:induction false} TokenizeCons(s: string)
    requires s != []
    ensures Tokenize(s) == [Strip(s[..MatchLength(s)])] + Tokenize(s[MatchLength(s)..])
  {
    var n := MatchLength(s);
    var segs := Segments(s);
    assert segs == [s[..n]] + Segments(s[n..]);
    MapEachCons(Strip, s[..n], Segments(s[n..]));
  }

  lemma {:induction false} RemoveSpacesAppend(a: string, b: string)
    ensures RemoveSpaces(a + b) == RemoveSpaces(a) + RemoveSpaces(b)
  {
    if a != [] {
      assert (a + b)[1..] == a[1..] + b;
      RemoveSpacesAppend(a[1..], b);
    } else {
      assert a + b == b;
    }
  }

  lemma {:induction false} RemoveSpacesOfSpace(t: string)
    requires RunOf(t, Space)
    ensures RemoveSpaces(t) == []
  {
    if t != [] {
      RemoveSpacesOfSpace(t[1..]);
    }
  }

  lemma {:induction false} RemoveSpacesOfNoSpace(t: string)
    requires NoSpace(t)
    ensures RemoveSpaces(t) == t
  {
    if t != [] {
      RemoveSpacesOfNoSpace(t[1..]);
    }
  }

  /** Stripping text that has no whitespace leaves it as it is. */
  lemma {:induction false} StripNoSpace(t: string)
    requires NoSpace(t)
    ensures Strip(t) == t
  {
    var l := LStrip(t);
    assert |l| == |t|;
  }

  /** Leading whitespace is what `lstrip` drops first. */
  lemma {:induction false} LStripSpaceCons(c: char, u: string)
    requires IsSpace(c)
    ensures LStrip([c] + u) == LStrip(u)
  {
    assert ([c] + u)[1..] == u;
  }

  /** A space in front of whitespace-free text is stripped. */
  lemma {:induction false} StripLeadingSpace(u: string)
    requires u != [] && NoSpace(u)
    ensures Strip([' '] + u) == u
    ensures RemoveSpaces([' '] + u) == u
  {
    LStripSpaceCons(' ', u);
    assert LStrip(u) == u;
    assert RStrip(u) == u;
    RemoveSpacesSpaceCons(u);
  }

  lemma {:induction false} RemoveSpacesSpaceCons(u: string)
    requires NoSpace(u)
    ensures RemoveSpaces([' '] + u) == u
  {
    assert ([' '] + u)[1..] == u;
    RemoveSpacesOfNoSpace(u);
  }

  lemma ContractionsHaveNoSpace()
    ensures forall m :: 0 <= m < |Contractions| ==>
              |Contractions[m]| > 0 && Contractions[m][0] == '\'' && NoSpace(Contractions[m])
  {
    forall m | 0 <= m < |Contractions|
      ensures |Contractions[m]| > 0 && Contractions[m][0] == '\'' && NoSpace(Contractions[m])
    {
      var t := Contractions[m];
      assert t == "'s" || t == "'t" || t == "'re" || t == "'ve" || t == "'m" || t == "'ll" || t == "'d";
    }
  }

  /** The contractions differ in their second character, so none is a prefix of
      another. */
  lemma ContractionsDistinct()
    ensures forall i, j :: 0 <= i < |Contractions| && 0 <= j < |Contractions| ==>
              (Contractions[i][1] == Contractions[j][1] ==> i == j)
  {
  }

  /** A text that starts with a contraction matches exactly that contraction. */
  lemma {:induction false} ContractionAtFront(c: string, rest: string)
    requires c in Contractions
    ensures ContractionLength(c + rest) == |c|
  {
    var s := c + rest;
    var m :| 0 <= m < |Contractions| && Contractions[m] == c;
    ContractionsHaveNoSpace();
    assert s[..|c|] == c;
    assert Contractions[m] <= s;
    var n := ContractionLength(s);
    var j :| 0 <= j < |Contractions| && Contractions[j] == s[..n];
    assert Contractions[j][1] == s[1] == Contractions[m][1];
    ContractionsDistinct();
  }

  /** A contraction at the front of a text is a token of its own. */
  lemma {:induction false} TokenizeContraction(c: string, rest: string)
    requires c in Contractions
    ensures Tokenize(c + rest) == [c] + Tokenize(rest)
  {
    var s := c + rest;
    ContractionAtFront(c, rest);
    MatchLengthMatch(s);
    assert s[..|c|] == c && s[|c|..] == rest;
    TokenizeCons(s);
    ContractionsHaveNoSpace();
    StripNoSpace(c);
  }

  /** Stripping a segment removes exactly its whitespace; what is left has none. */
  lemma {:induction false} StripSegment(t: string)
    requires IsSegmentForm(t)
    ensures Strip(t) == RemoveSpaces(t)
    ensures NoSpace(Strip(t))
    ensures Strip(t) == [] || Strip(t) in Contractions || RunOf(Strip(t), Classify(Strip(t)[0]))
  {
    if t in Contractions {
      ContractionsHaveNoSpace();
      StripNoSpace(t);
      RemoveSpacesOfNoSpace(t);
    } else if |t| > 0 && RunOf(t, Space) {
      RemoveSpacesOfSpace(t);
    } else {
      var c := Classify(t[|t| - 1]);
      if RunOf(t, c) {
        StripNoSpace(t);
        RemoveSpacesOfNoSpace(t);
      } else {
        var u := t[1..];
        assert t == [' '] + u;
        assert u[|u| - 1] == t[|t| - 1];
        StripLeadingSpace(u);
      }
    }
  }

  /** The tokens concatenate to the text without its whitespace: nothing but
      whitespace is lost, and the order is kept. */
  lemma {:induction false} TokensConcat(s: string)
    ensures Flatten(Tokenize(s)) == RemoveSpaces(s)
    decreases |s|
  {
    if s != [] {
      var n := MatchLength(s);
      TokenizeCons(s);
      MatchLengthMatch(s);
      StripSegment(s[..n]);
      TokensConcat(s[n..]);
      assert ([Strip(s[..n])] + Tokenize(s[n..]))[1..] == Tokenize(s[n..]);
      assert s == s[..n] + s[n..];
      RemoveSpacesAppend(s[..n], s[n..]);
    }
  }

  /** The `k`-th token is the `k`-th segment stripped, with the forms that implies. */
  lemma {:induction false} TokenFormAt(s: string, k: nat)
    requires k < |Segments(s)|
    ensures k < |Tokenize(s)|
    ensures Tokenize(s)[k] == Strip(Segments(s)[k]) == RemoveSpaces(Segments(s)[k])
    ensures var t := Tokenize(s)[k];
            NoSpace(t)
            && (t == [] <==> RunOf(Segments(s)[k], Space))
            && (t == [] || t in Contractions || RunOf(t, Classify(t[0])))
  {
    var segs := Segments(s);
    SegmentForms(s);
    MapEachAt(Strip, segs, k);
    StripSegment(segs[k]);
  }

  /** Each token is its segment stripped: it has no whitespace, it is empty exactly
      when its segment is all whitespace (such tokens are kept), and otherwise it is
      a contraction or a run of a single class. */
  lemma {:induction false} TokenForms(s: string)
    ensures |Tokenize(s)| == |Segments(s)|
    ensures forall k :: 0 <= k < |Tokenize(s)| ==>
              var t := Tokenize(s)[k];
              t == Strip(Segments(s)[k]) == RemoveSpaces(Segments(s)[k])
              && NoSpace(t)
              && (t == [] <==> RunOf(Segments(s)[k], Space))
              && (t == [] || t in Contractions || RunOf(t, Classify(t[0])))
  {
    forall k | 0 <= k < |Tokenize(s)|
      ensures var t := Tokenize(s)[k];
              t == Strip(Segments(s)[k]) == RemoveSpaces(Segments(s)[k])
              && NoSpace(t)
              && (t == [] <==> RunOf(Segments(s)[k], Space))
              && (t == [] || t in Contractions || RunOf(t, Classify(t[0])))
    {
      TokenFormAt(s, k);
    }
  }

  /** A word: a non-empty run of one non-space class that does not start with an
      apostrophe (so no contraction can begin inside it). */
  predicate IsWord(w: string)
  {
    |w| > 0 && w[0] != '\'' && !IsSpace(w[0]) && RunOf(w, Classify(w[0]))
  }

  predicate AreWords(ws: seq<string>)
  {
    forall i :: 0 <= i < |ws| ==> IsWord(ws[i])
  }

  lemma {:induction false} AreWordsAppend(a: seq<string>, b: seq<string>)
    requires AreWords(a) && AreWords(b)
    ensures AreWords(a + b)
  {
    forall i | 0 <= i < |a + b|
      ensures IsWord((a + b)[i])
    {
      if i >= |a| {
        assert (a + b)[i] == b[i - |a|];
      }
    }
  }

  /** ASCII letters make a word. */
  lemma {:induction false} LettersWord(w: string)
    requires w != []
    requires forall i :: 0 <= i < |w| ==> 'a' <= w[i] <= 'z' || 'A' <= w[i] <= 'Z'
    ensures IsWord(w)
  {
    assert forall i :: 0 <= i < |w| ==> Classify(w[i]) == Letter;
  }

  /** Lists of non-empty ASCII-letter strings are lists of words. */
  lemma {:induction false} LetterWords(ws: seq<string>)
    requires forall k :: 0 <= k < |ws| ==> ws[k] != []
    requires forall k, i :: 0 <= k < |ws| && 0 <= i < |ws[k]| ==>
               'a' <= ws[k][i] <= 'z' || 'A' <= ws[k][i] <= 'Z'
    ensures AreWords(ws)
  {
    forall k | 0 <= k < |ws|
      ensures IsWord(ws[k])
    {
      LettersWord(ws[k]);
    }
  }

  /** A match that starts with a character of a non-space class other than an
      apostrophe is the maximal run of that class. */
  lemma {:induction false} MatchOfRun(s: string, n: nat, k: nat, c: CharClass)
    requires IsMatch(s, n) && c != Space
    requires 1 <= k <= |s| && s[0] != '\''
    requires forall i :: 0 <= i < k ==> Classify(s[i]) == c
    requires k == |s| || Classify(s[k]) != c
    ensures n == k
  {
    var t := s[..n];
    ContractionsHaveNoSpace();
    assert t[0] == s[0];
    assert t !in Contractions;
    assert t[n - 1] == s[n - 1];
    assert !IsSpace(t[0]);
    assert RunOf(t, Classify(t[n - 1]));
    assert Classify(t[n - 1]) == c by {
      assert Classify(t[0]) == Classify(t[n - 1]);
    }
    assert forall i :: 0 <= i < n ==> Classify(s[i]) == c by {
      forall i | 0 <= i < n
        ensures Classify(s[i]) == c
      {
        assert t[i] == s[i];
      }
    }
  }

  /** A match that starts with an ASCII space and then a character of a
      non-space class is the space and the maximal run of that class after it. */
  lemma {:induction false} MatchOfSpacedRun(s: string, n: nat, k: nat, c: CharClass)
    requires IsMatch(s, n) && c != Space
    requires 2 <= k <= |s| && s[0] == ' '
    requires forall i :: 1 <= i < k ==> Classify(s[i]) == c
    requires k == |s| || Classify(s[k]) != c
    ensures n == k
  {
    var t := s[..n];
    ContractionsHaveNoSpace();
    assert t[0] == ' ';
    assert t !in Contractions;
    assert !IsSpace(s[1]);
    assert !IsSpace(s[n - 1]);
    assert t[n - 1] == s[n - 1];
    assert n >= 2;
    assert RunOf(t[1..], Classify(t[n - 1]));
    assert Classify(t[n - 1]) == c by {
      assert t[1..][0] == s[1];
      assert t[1..][n - 2] == t[n - 1];
    }
    assert forall i :: 1 <= i < n ==> Classify(s[i]) == c by {
      forall i | 1 <= i < n
        ensures Classify(s[i]) == c
      {
        assert t[1..][i - 1] == s[i];
      }
    }
  }

  /** A word followed by a character of another class is the first segment. */
  lemma {:induction false} WordSegment(w: string, rest: string)
    requires IsWord(w)
    requires rest == [] || Classify(rest[0]) != Classify(w[0])
    ensures MatchLength(w + rest) == |w|
  {
    var s := w + rest;
    MatchLengthMatch(s);
    assert forall i :: 0 <= i < |w| ==> s[i] == w[i];
    assert |w| < |s| ==> s[|w|] == rest[0];
    MatchOfRun(s, MatchLength(s), |w|, Classify(w[0]));
  }

  /** Where the characters of `' ' + w + rest` come from. */
  lemma SpacedIndex(w: string, rest: string)
    ensures ([' '] + w + rest)[0] == ' '
    ensures forall i :: 0 <= i < |w| ==> ([' '] + w + rest)[i + 1] == w[i]
    ensures rest != [] ==> ([' '] + w + rest)[|w| + 1] == rest[0]
  {
  }

  /** A space and a word followed by a character of another class is the first
      segment. */
  lemma {:induction false} SpacedWordSegment(w: string, rest: string)
    requires IsWord(w)
    requires rest == [] || Classify(rest[0]) != Classify(w[0])
    ensures MatchLength([' '] + w + rest) == |w| + 1
  {
    var s := [' '] + w + rest;
    MatchLengthMatch(s);
    SpacedIndex(w, rest);
    MatchOfSpacedRun(s, MatchLength(s), |w| + 1, Classify(w[0]));
  }

  /** A word followed by a character of another class is one token. */
  lemma {:induction false} TokenizeWord(w: string, rest: string)
    requires IsWord(w)
    requires rest == [] || Classify(rest[0]) != Classify(w[0])
    ensures Tokenize(w + rest) == [w] + Tokenize(rest)
  {
    var s := w + rest;
    WordSegment(w, rest);
    assert s[..|w|] == w && s[|w|..] == rest;
    TokenizeCons(s);
    assert NoSpace(w);
    StripNoSpace(w);
  }

  /** A space and a word followed by a character of another class is one token. */
  lemma {:induction false} TokenizeSpacedWord(w: string, rest: string)
    requires IsWord(w)
    requires rest == [] || Classify(rest[0]) != Classify(w[0])
    ensures Tokenize([' '] + w + rest) == [w] + Tokenize(rest)
  {
    var s := [' '] + w + rest;
    SpacedWordSegment(w, rest);
    assert s[..|w| + 1] == [' '] + w && s[|w| + 1..] == rest;
    TokenizeCons(s);
    assert NoSpace(w);
    StripLeadingSpace(w);
  }

  /** A word, a space and then words that tokenize back to themselves. */
  lemma {:induction false} TokenizeWordThenSpaced(ws: seq<string>)
    requires |ws| > 1 && IsWord(ws[0])
    requires Tokenize(" " + Join(" ", ws[1..])) == ws[1..]
    ensures Tokenize(Join(" ", ws)) == ws
  {
    var rest := " " + Join(" ", ws[1..]);
    JoinCons(" ", ws);
    assert rest[0] == ' ';
    TokenizeWord(ws[0], rest);
    HeadTail(ws);
  }

  /** A space, a word, a space and then words that tokenize back to themselves. */
  lemma {:induction false} TokenizeSpacedWordThenSpaced(ws: seq<string>)
    requires |ws| > 1 && IsWord(ws[0])
    requires Tokenize(" " + Join(" ", ws[1..])) == ws[1..]
    ensures Tokenize(" " + Join(" ", ws)) == ws
  {
    var rest := " " + Join(" ", ws[1..]);
    JoinCons(" ", ws);
    assert rest[0] == ' ';
    TokenizeSpacedWord(ws[0], rest);
    HeadTail(ws);
  }

  /** Words joined with single spaces tokenize back to the words. */
  lemma {:induction false} TokenizeJoin(ws: seq<string>)
    requires AreWords(ws)
    ensures Tokenize(Join(" ", ws)) == ws
    ensures CountTokens(Join(" ", ws)) == |ws|
  {
    if |ws| <= 1 {
      TokenizeJoinFew(ws);
    } else {
      TokenizeJoinMany(ws);
    }
  }

  lemma {:induction false} TokenizeJoinFew(ws: seq<string>)
    requires |ws| <= 1 && AreWords(ws)
    ensures Tokenize(Join(" ", ws)) == ws
  {
    if ws == [] {
      TokenizeEmpty();
    } else {
      TokenizeOneWord(ws[0]);
    }
  }

  lemma {:induction false} TokenizeJoinMany(ws: seq<string>)
    requires |ws| > 1 && AreWords(ws)
    ensures Tokenize(Join(" ", ws)) == ws
  {
    TokenizeSpacedJoin(ws[1..]);
    TokenizeWordThenSpaced(ws);
  }

  lemma TokenizeEmpty()
    ensures Tokenize("") == []
  {
  }

  lemma {:induction false} TokenizeOneWord(w: string)
    requires IsWord(w)
    ensures Tokenize(w) == [w]
  {
    var empty := "";
    TokenizeWord(w, empty);
    assert w + empty == w;
    TokenizeEmpty();
  }

  lemma {:induction false} TokenizeSpacedJoin(ws: seq<string>)
    requires ws != [] && AreWords(ws)
    ensures Tokenize(" " + Join(" ", ws)) == ws
  {
    if |ws| == 1 {
      TokenizeSpacedWord(ws[0], "");
      assert [' '] + ws[0] + "" == " " + Join(" ", ws);
    } else {
      TokenizeSpacedJoin(ws[1..]);
      TokenizeSpacedWordThenSpaced(ws);
    }
  }

  /** A word of letters or digits followed by a contraction: the contraction is
      split off as its own token, ahead of the run of "other" characters its
      apostrophe would otherwise start. */
  lemma {:induction false} TokenizeWordContraction(w: string, c: string)
    requires IsWord(w) && Classify(w[0]) != Other
    requires c in Contractions
    ensures Tokenize(w + c) == [w, c]
  {
    var empty := "";
    ContractionsHaveNoSpace();
    assert Classify(c[0]) == Other;
    TokenizeWord(w, c);
    TokenizeContraction(c, empty);
    assert c + empty == c;
    TokenizeEmpty();
  }

  /** Two ASCII spaces before a non-space: `\s+(?!\S)` gives back the second
      space, so the first one is a segment on its own. */
  lemma {:induction false} SpaceBeforeSpacedSegment(s: string)
    requires |s| >= 3 && s[0] == ' ' && s[1] == ' ' && !IsSpace(s[2])
    ensures MatchLength(s) == 1
  {
    MatchLengthMatch(s);
    var n := MatchLength(s);
    var t := s[..n];
    ContractionsHaveNoSpace();
    assert t[0] == ' ';
    assert t !in Contractions;
  }

  /** A word, two ASCII spaces and a word: the first space becomes an empty token
      between the two words. */
  lemma {:induction false} TokenizeDoubleSpace(p: string, q: string)
    requires IsWord(p) && IsWord(q)
    ensures Tokenize(p + [' ', ' '] + q) == [p, [], q]
  {
    var rest := [' '] + ([' '] + q);
    TokenizeTwoSpacesWord(q);
    TokenizeWord(p, rest);
    PairBetween(p, ' ', ' ', q);
  }

  /** Two spaces and a word: an empty token, then the word. */
  lemma {:induction false} TokenizeTwoSpacesWord(q: string)
    requires IsWord(q)
    ensures Tokenize([' '] + ([' '] + q)) == [[], q]
  {
    var spaced := [' '] + q;
    ConsParts(' ', q);
    assert spaced[0] == ' ' && spaced[1] == q[0];
    TokenizeSpaceBeforeSpaced(spaced);
    TokenizeSpacedOneWord(q);
  }

  /** A space in front of a space and a non-space: an empty token, then the
      tokens of the rest. */
  lemma {:induction false} TokenizeSpaceBeforeSpaced(u: string)
    requires |u| >= 2 && u[0] == ' ' && !IsSpace(u[1])
    ensures Tokenize([' '] + u) == [[]] + Tokenize(u)
  {
    var s := [' '] + u;
    ConsParts(' ', u);
    assert s[1] == u[0] && s[2] == u[1];
    SpaceBeforeSpacedSegment(s);
    TokenizeCons(s);
    assert RunOf([' '], Space);
  }

  /** A space and a word: the word alone. */
  lemma {:induction false} TokenizeSpacedOneWord(q: string)
    requires IsWord(q)
    ensures Tokenize([' '] + q) == [q]
  {
    var empty := "";
    TokenizeSpacedWord(q, empty);
    AppendEmpty([' '] + q);
    TokenizeEmpty();
  }

  /** The tokenizer's test: "Hello world" is two tokens. */
  lemma {:induction false} TokenizeHelloWorld(text: string)
    requires text == "Hello world"
    ensures Tokenize(text) == ["Hello", "world"]
    ensures CountTokens(text) == 2
  {
    var hello, world := "Hello", "world";
    assert text == hello + " " + world;
    assert IsWord(hello) && IsWord(world);
    JoinCons(" ", [hello, world]);
    TokenizeJoin([hello, world]);
  }

  /** Two words and a word of another class right after the second: three tokens. */
  lemma {:induction false} TokenizeTwoWordsThen(a: string, b: string, c: string)
    requires IsWord(a) && IsWord(b) && IsWord(c)
    requires Classify(b[0]) != Classify(c[0])
    ensures Tokenize(a + [' '] + b + c) == [a, b, c]
  {
    var tail := [' '] + b + c;
    assert a + [' '] + b + c == a + tail;
    TokenizeSpacedWordThenWord(b, c);
    assert tail[0] == ' ';
    TokenizeWord(a, tail);
  }

  lemma {:induction false} TokenizeSpacedWordThenWord(b: string, c: string)
    requires IsWord(b) && IsWord(c)
    requires Classify(b[0]) != Classify(c[0])
    ensures Tokenize([' '] + b + c) == [b, c]
  {
    TokenizeOneWord(c);
    TokenizeSpacedWord(b, c);
  }

  /** The tokenizer's test: "Hello world!" is three tokens, the `!` on its own. */
  lemma {:induction false} TokenizeHelloWorldBang(text: string)
    requires text == "Hello world!"
    ensures Tokenize(text) == ["Hello", "world", "!"]
    ensures CountTokens(text) == 3
  {
    var hello, world, bang := "Hello", "world", "!";
    assert IsWord(hello) && IsWord(world) && IsWord(bang);
    assert text == hello + [' '] + world + bang;
    TokenizeTwoWordsThen(hello, world, bang);
  }
}
