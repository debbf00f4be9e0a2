/** The `openai_build_prompt` aggregate: one BuildPrompt object per group of rows.
    `Step` runs once per row, keeping the group parameters of the first row and
    every row's text; `Finalize` splits the token budget left by the prefix, the
    suffix and the completion evenly across the texts, truncates each text to its
    share and joins everything with single spaces. */
module PromptBuilder {
  import opened Strings
  import opened Tokenizer

  /** The token limit a row gets when it is called with four arguments. */
  const DefaultTokenLimit: int := 4000

  /** What `finalize` gives back: the prompt, or the `ZeroDivisionError` raised by
      `available_tokens // len(self.texts)` when no row was stepped. */
  datatype Outcome = Built(prompt: string) | ZeroDivisionError

  /** Tokens left for the texts once the completion, the prefix and the suffix
      are paid for. */
  function Available(prefix: string, suffix: string, completionTokens: int, tokenLimit: int): int
  {
    tokenLimit - completionTokens - CountTokens(prefix) - CountTokens(suffix)
  }

  /** `available_tokens // len(self.texts)` for a budget that is not negative and
      at least one text: the largest share that fits `count` times. */
  function PerText(available: int, count: int): (share: nat)
    requires available >= 0 && count > 0
    ensures share * count <= available < (share + 1) * count
    ensures share >= 1 <==> available >= count
  {
    available / count
  }

  /** `tokenize(text)[:perText]`: the first `min(perText, count_tokens(text))`
      tokens of the text. */
  function KeptTokens(text: string, perText: nat): (kept: seq<string>)
    ensures |kept| == Min(perText, CountTokens(text))
    ensures kept == Tokenize(text)[..|kept|]
  {
    var tokens := Tokenize(text);
    tokens[..Min(perText, |tokens|)]
  }

  /** The tokens kept of each text, in row order. */
  function KeptGroups(texts: seq<string>, perText: nat): (groups: seq<seq<string>>)
    ensures |groups| == |texts|
    ensures forall i :: 0 <= i < |texts| ==> groups[i] == KeptTokens(texts[i], perText)
  {
    if texts == [] then []
    else [KeptTokens(texts[0], perText)] + KeptGroups(texts[1..], perText)
  }

  /** `truncated_texts`: each text cut to its share and rejoined with single spaces. */
  function TruncatedTexts(texts: seq<string>, perText: nat): seq<string>
  {
    JoinEach(" ", KeptGroups(texts, perText))
  }

  /** What `finalize` returns for a group in the given state. */
  function Assemble(prefix: string, suffix: string, completionTokens: int, tokenLimit: int,
                    texts: seq<string>): Outcome
  {
    var available := Available(prefix, suffix, completionTokens, tokenLimit);
    if available < 0 then Built(prefix + " " + suffix)
    else if |texts| == 0 then ZeroDivisionError
    else Built(prefix + " " + Join(" ", TruncatedTexts(texts, PerText(available, |texts|))) + " " + suffix)
  }

  /** The per-group state of the aggregate. */
  class BuildPrompt {
    var texts: seq<string>
    var first: bool
    var prefix: string
    var suffix: string
    var completionTokens: int
    var tokenLimit: int

    /** Parameters are captured exactly when the first text arrives; until then
        they keep the defaults the object starts with. */
    ghost predicate Valid()
      reads this
    {
      (first <==> texts == [])
      && (first ==> prefix == "" && suffix == "" && completionTokens == 0 && tokenLimit == 0)
    }

    constructor ()
      ensures Valid()
      ensures texts == [] && first
      ensures prefix == "" && suffix == "" && completionTokens == 0 && tokenLimit == 0
    {
      texts := [];
      first := true;
      prefix := "";
      suffix := "";
      completionTokens := 0;
      tokenLimit := 0;
    }

    /** One row of the group: the first row's parameters win, every row's text is
        appended. */
    method Step(text: string, prefix: string, suffix: string, completionTokens: int,
                tokenLimit: int := DefaultTokenLimit)
      requires Valid()
      modifies this
      ensures Valid() && !first
      ensures texts == old(texts) + [text]
      ensures old(first) ==>
                this.prefix == prefix && this.suffix == suffix
                && this.completionTokens == completionTokens && this.tokenLimit == tokenLimit
      ensures !old(first) ==>
                this.prefix == old(this.prefix) && this.suffix == old(this.suffix)
                && this.completionTokens == old(this.completionTokens)
                && this.tokenLimit == old(this.tokenLimit)
    {
      if first {
        first := false;
        this.prefix := prefix;
        this.suffix := suffix;
        this.completionTokens := completionTokens;
        this.tokenLimit := tokenLimit;
      }
      texts := texts + [text];
    }

    /** The prompt for the group; reads the state and changes nothing, so calling
        it again gives the same answer. */
    method Finalize() returns (r: Outcome)
      ensures r == Assemble(prefix, suffix, completionTokens, tokenLimit, texts)
      ensures Available(prefix, suffix, completionTokens, tokenLimit) < 0 ==>
                r == Built(prefix + " " + suffix)
      ensures r == ZeroDivisionError <==>
                Available(prefix, suffix, completionTokens, tokenLimit) >= 0 && texts == []
    {
      var available := tokenLimit - completionTokens - CountTokens(prefix) - CountTokens(suffix);
      if available < 0 {
        return Built(prefix + " " + suffix);
      }
      if |texts| == 0 {
        return ZeroDivisionError;
      }
      var tokensPerText := PerText(available, |texts|);
      var truncated := TruncateAll(texts, tokensPerText);
      r := Built(prefix + " " + Join(" ", truncated) + " " + suffix);
    }
  }

  /** The loop of `finalize` that builds `truncated_texts`. */
  method TruncateAll(texts: seq<string>, perText: nat) returns (truncated: seq<string>)
    ensures truncated == TruncatedTexts(texts, perText)
  {
    truncated := [];
    for i := 0 to |texts|
      invariant truncated + TruncatedTexts(texts[i..], perText) == TruncatedTexts(texts, perText)
    {
      var tokens := Tokenize(texts[i]);
      var piece := Join(" ", tokens[..Min(perText, |tokens|)]);
      assert piece == Join(" ", KeptTokens(texts[i], perText));
      TruncatedTextsStep(texts, i, perText);
      MoveHead(truncated, TruncatedTexts(texts[i..], perText), piece,
               TruncatedTexts(texts[i + 1..], perText));
      truncated := truncated + [piece];
    }
    assert texts[|texts|..] == [];
  }

  lemma {:induction false} TruncatedTextsStep(texts: seq<string>, i: nat, perText: nat)
    requires i < |texts|
    ensures TruncatedTexts(texts[i..], perText)
            == [Join(" ", KeptTokens(texts[i], perText))] + TruncatedTexts(texts[i + 1..], perText)
  {
    assert texts[i..][1..] == texts[i + 1..];
  }

  // ---------------------------------------------------------------------------
  // The host side: one aggregate per group, `step` per row, then `finalize`.

  datatype Option<T> = None | Some(value: T)

  /** One row as the query engine passes it: `token_limit` is absent when the
      aggregate is called with four arguments. */
  datatype Row = Row(text: string, prefix: string, suffix: string, completionTokens: int,
                     tokenLimit: Option<int>)

  function TokenLimitOf(row: Row): int
  {
    match row.tokenLimit
    case Some(limit) => limit
    case None => DefaultTokenLimit
  }

  function TextsOf(rows: seq<Row>): seq<string>
  {
    seq(|rows|, i requires 0 <= i < |rows| => rows[i].text)
  }

  /** A whole group through the aggregate. The host creates the object at the
      group's first row, so a group with no rows never reaches `finalize` and
      yields SQL NULL (`None`). Otherwise only the first row's parameters matter
      and every text counts in row order. */
  method Aggregate(rows: seq<Row>) returns (r: Option<Outcome>)
    ensures rows == [] <==> r == None
    ensures r != Some(ZeroDivisionError)
    ensures rows != [] ==>
              r == Some(Assemble(rows[0].prefix, rows[0].suffix, rows[0].completionTokens,
                                 TokenLimitOf(rows[0]), TextsOf(rows)))
  {
    if rows == [] {
      return None;
    }
    var group := new BuildPrompt();
    for i := 0 to |rows|
      invariant group.Valid()
      invariant group.texts == TextsOf(rows[..i])
      invariant i > 0 ==>
                  group.prefix == rows[0].prefix && group.suffix == rows[0].suffix
                  && group.completionTokens == rows[0].completionTokens
                  && group.tokenLimit == TokenLimitOf(rows[0])
    {
      var row := rows[i];
      match row.tokenLimit {
        case Some(limit) =>
          group.Step(row.text, row.prefix, row.suffix, row.completionTokens, limit);
        case None =>
          group.Step(row.text, row.prefix, row.suffix, row.completionTokens);
      }
      assert TextsOf(rows[..i + 1]) == TextsOf(rows[..i]) + [row.text];
    }
    assert rows[..|rows|] == rows;
    var prompt := group.Finalize();
    r := Some(prompt);
  }

  /** `finalize` leaves the group as it was, so a second call repeats the first. */
  method FinalizeTwice(group: BuildPrompt) returns (first: Outcome, second: Outcome)
    ensures first == second
  {
    first := group.Finalize();
    second := group.Finalize();
  }

  // ---------------------------------------------------------------------------
  // The budget

  /** No text keeps more than its share. */
  lemma {:induction false} KeptWithinShare(texts: seq<string>, perText: nat)
    ensures |Flatten(KeptGroups(texts, perText))| <= perText * |texts|
  {
    FlattenBounded(KeptGroups(texts, perText), perText);
  }

  /** The even split never hands out more tokens than are available. */
  lemma {:induction false} BudgetSplit(texts: seq<string>, available: int)
    requires available >= 0 && |texts| > 0
    ensures |Flatten(KeptGroups(texts, PerText(available, |texts|)))| <= available
  {
    var perText := PerText(available, |texts|);
    KeptWithinShare(texts, perText);
  }

  /** Words stay words when their lists are concatenated. */
  lemma {:induction false} FlattenWords(groups: seq<seq<string>>)
    requires forall i :: 0 <= i < |groups| ==> AreWords(groups[i])
    ensures AreWords(Flatten(groups))
  {
    if groups != [] {
      FlattenWords(groups[1..]);
      assert Flatten(groups) == groups[0] + Flatten(groups[1..]);
    }
  }

  /** The first `min(perText, |words|)` of each list of words. */
  function TakeEach(textWords: seq<seq<string>>, perText: nat): (r: seq<seq<string>>)
    ensures |r| == |textWords|
  {
    if textWords == [] then []
    else [textWords[0][..Min(perText, |textWords[0]|)]] + TakeEach(textWords[1..], perText)
  }

  /** A text made of words keeps its first `min(perText, word count)` words. */
  lemma {:induction false} KeptGroupsOfWords(textWords: seq<seq<string>>, perText: nat)
    requires forall i :: 0 <= i < |textWords| ==> AreWords(textWords[i])
    ensures KeptGroups(JoinEach(" ", textWords), perText) == TakeEach(textWords, perText)
  {
    if textWords != [] {
      var texts := JoinEach(" ", textWords);
      assert texts[1..] == JoinEach(" ", textWords[1..]);
      TokenizeJoin(textWords[0]);
      KeptGroupsOfWords(textWords[1..], perText);
    }
  }

  /** Cutting non-empty lists of words to at least one word each leaves non-empty
      lists of words. */
  lemma {:induction false} TakeEachWords(textWords: seq<seq<string>>, perText: nat)
    requires perText >= 1
    requires forall i :: 0 <= i < |textWords| ==> textWords[i] != [] && AreWords(textWords[i])
    ensures forall i :: 0 <= i < |textWords| ==>
              TakeEach(textWords, perText)[i] != [] && AreWords(TakeEach(textWords, perText)[i])
  {
    if textWords != [] {
      TakeEachWords(textWords[1..], perText);
      var r := TakeEach(textWords, perText);
      assert r[1..] == TakeEach(textWords[1..], perText);
      assert r[0] == textWords[0][..Min(perText, |textWords[0]|)];
    }
  }

  /** With words everywhere, the prompt is the words of the prefix, the kept words
      and the words of the suffix, joined by single spaces. */
  lemma {:induction false} PromptIsJoinedWords(prefixWords: seq<string>, suffixWords: seq<string>,
                            groups: seq<seq<string>>)
    requires prefixWords != [] && suffixWords != [] && groups != []
    requires forall i :: 0 <= i < |groups| ==> groups[i] != []
    ensures Join(" ", prefixWords) + " " + Join(" ", JoinEach(" ", groups)) + " " + Join(" ", suffixWords)
            == Join(" ", prefixWords + Flatten(groups) + suffixWords)
  {
    JoinFlatten(" ", groups);
    FlattenNonEmpty(groups);
    JoinAppend(" ", prefixWords, Flatten(groups));
    JoinAppend(" ", prefixWords + Flatten(groups), suffixWords);
  }

  /** With words everywhere and a share of at least one token per text, the
      texts keep non-empty lists of words, and at most `available` of them. */
  lemma {:induction false} KeptWordsWithinBudget(textWords: seq<seq<string>>, available: int)
    requires textWords != []
    requires forall i :: 0 <= i < |textWords| ==> textWords[i] != [] && AreWords(textWords[i])
    requires available >= |textWords|
    ensures var kept := TakeEach(textWords, PerText(available, |textWords|));
            && KeptGroups(JoinEach(" ", textWords), PerText(available, |textWords|)) == kept
            && |Flatten(kept)| <= available
            && AreWords(Flatten(kept))
            && forall i :: 0 <= i < |kept| ==> kept[i] != []
  {
    var texts := JoinEach(" ", textWords);
    var perText := PerText(available, |texts|);
    var groups := TakeEach(textWords, perText);
    KeptGroupsOfWords(textWords, perText);
    TakeEachWords(textWords, perText);
    FlattenWords(groups);
    BudgetSplit(texts, available);
  }

  /** The prompt of a group whose every piece is words joined by single spaces. */
  lemma {:induction false} AssembleWords(prefixWords: seq<string>, suffixWords: seq<string>,
                      textWords: seq<seq<string>>, completionTokens: int, tokenLimit: int)
    requires prefixWords != [] && AreWords(prefixWords)
    requires suffixWords != [] && AreWords(suffixWords)
    requires textWords != []
    requires forall i :: 0 <= i < |textWords| ==> textWords[i] != [] && AreWords(textWords[i])
    requires Available(Join(" ", prefixWords), Join(" ", suffixWords), completionTokens, tokenLimit)
             >= |textWords|
    ensures var available := Available(Join(" ", prefixWords), Join(" ", suffixWords),
                                       completionTokens, tokenLimit);
            var kept := TakeEach(textWords, PerText(available, |textWords|));
            Assemble(Join(" ", prefixWords), Join(" ", suffixWords), completionTokens, tokenLimit,
                     JoinEach(" ", textWords))
            == Built(Join(" ", prefixWords + Flatten(kept) + suffixWords))
  {
    var available := Available(Join(" ", prefixWords), Join(" ", suffixWords),
                               completionTokens, tokenLimit);
    var kept := TakeEach(textWords, PerText(available, |textWords|));
    KeptWordsWithinBudget(textWords, available);
    PromptIsJoinedWords(prefixWords, suffixWords, kept);
  }

  /** The budget is kept: when the prefix, the suffix and every text are words
      separated by single spaces and each text's share is at least one token, the
      prompt re-tokenizes to the prefix's tokens, the kept tokens of each text in
      row order and the suffix's tokens, and leaves room for the completion. */
  lemma {:induction false} PromptFitsBudget(prefixWords: seq<string>, suffixWords: seq<string>,
                         textWords: seq<seq<string>>, completionTokens: int, tokenLimit: int)
    requires prefixWords != [] && AreWords(prefixWords)
    requires suffixWords != [] && AreWords(suffixWords)
    requires textWords != []
    requires forall i :: 0 <= i < |textWords| ==> textWords[i] != [] && AreWords(textWords[i])
    requires Available(Join(" ", prefixWords), Join(" ", suffixWords), completionTokens, tokenLimit)
             >= |textWords|
    ensures var texts := JoinEach(" ", textWords);
            var available := Available(Join(" ", prefixWords), Join(" ", suffixWords),
                                       completionTokens, tokenLimit);
            var r := Assemble(Join(" ", prefixWords), Join(" ", suffixWords),
                              completionTokens, tokenLimit, texts);
            r.Built?
            && Tokenize(r.prompt)
               == prefixWords + Flatten(KeptGroups(texts, PerText(available, |texts|))) + suffixWords
            && CountTokens(r.prompt) + completionTokens <= tokenLimit
  {
    var available := Available(Join(" ", prefixWords), Join(" ", suffixWords),
                               completionTokens, tokenLimit);
    var kept := TakeEach(textWords, PerText(available, |textWords|));
    KeptWordsWithinBudget(textWords, available);
    AreWordsAppend(prefixWords, Flatten(kept));
    AreWordsAppend(prefixWords + Flatten(kept), suffixWords);
    AssembleWords(prefixWords, suffixWords, textWords, completionTokens, tokenLimit);
    TokenizeJoin(prefixWords);
    TokenizeJoin(suffixWords);
    TokenizeJoin(prefixWords + Flatten(kept) + suffixWords);
  }

  /** The bound above needs a share of at least one token per text. When the
      prefix and the suffix leave no token at all, each text is cut to nothing,
      yet the two spaces around the empty middle tokenize to an empty token of
      their own, so the prompt is one token over the limit. */
  lemma {:induction false} ZeroShareOverflow(prefix: string, suffix: string, text: string,
                                             completionTokens: int, tokenLimit: int)
    requires IsWord(prefix) && IsWord(suffix)
    requires tokenLimit - completionTokens == 2
    ensures Available(prefix, suffix, completionTokens, tokenLimit) == 0
    ensures Assemble(prefix, suffix, completionTokens, tokenLimit, [text])
            == Built(prefix + [' ', ' '] + suffix)
    ensures CountTokens(prefix + [' ', ' '] + suffix) + completionTokens == tokenLimit + 1
  {
    TokenizeOneWord(prefix);
    TokenizeOneWord(suffix);
    assert PerText(0, 1) == 0;
    assert TruncatedTexts([text], 0) == [""] by {
      var groups := KeptGroups([text], 0);
      assert groups == [[]];
      assert JoinEach(" ", groups) == [Join(" ", [])] + JoinEach(" ", []);
    }
    assert Join(" ", [""]) == "";
    SpacesAroundEmpty(prefix, suffix);
    TokenizeDoubleSpace(prefix, suffix);
  }

  /** Lists no longer than the share are kept whole. */
  lemma {:induction false} TakeEachAll(textWords: seq<seq<string>>, perText: nat)
    requires forall i :: 0 <= i < |textWords| ==> |textWords[i]| <= perText
    ensures TakeEach(textWords, perText) == textWords
  {
    if textWords != [] {
      TakeEachAll(textWords[1..], perText);
      assert textWords[0][..Min(perText, |textWords[0]|)] == textWords[0];
      assert textWords == [textWords[0]] + textWords[1..];
    }
  }

  /** When every text is words and fits in its share, nothing is cut: each text
      comes back as it was. */
  lemma {:induction false} NoTruncation(textWords: seq<seq<string>>, perText: nat)
    requires forall i :: 0 <= i < |textWords| ==>
               AreWords(textWords[i]) && |textWords[i]| <= perText
    ensures TruncatedTexts(JoinEach(" ", textWords), perText) == JoinEach(" ", textWords)
  {
    KeptGroupsOfWords(textWords, perText);
    TakeEachAll(textWords, perText);
  }

  /** The words of the six texts of the end-to-end scenario. */
  const ScenarioWords: seq<seq<string>> :=
    [["One"], ["Two", "tokens"], ["Now", "three", "tokens"], ["This", "has", "four", "tokens"],
     ["This", "one", "has", "five", "tokens"], ["And", "this", "one", "has", "six", "tokens"]]

  lemma ScenarioAreWords()
    ensures forall i :: 0 <= i < |ScenarioWords| ==>
              ScenarioWords[i] != [] && AreWords(ScenarioWords[i]) && |ScenarioWords[i]| <= 6
  {
    forall i | 0 <= i < |ScenarioWords|
      ensures ScenarioWords[i] != [] && AreWords(ScenarioWords[i]) && |ScenarioWords[i]| <= 6
    {
      LetterWords(ScenarioWords[i]);
    }
  }

  /** The end-to-end scenario: prefix `Prefix`, suffix `Suffix`, 50 completion
      tokens and the default limit leave 3948 tokens, 658 per text, far more than
      any of the six texts needs; nothing is cut and the texts appear in row order
      between the prefix and the suffix. */
  lemma {:induction false} ScenarioPrompt(prefix: string, suffix: string, texts: seq<string>)
    requires prefix == "Prefix" && suffix == "Suffix"
    requires texts == JoinEach(" ", ScenarioWords)
    ensures Assemble(prefix, suffix, 50, DefaultTokenLimit, texts)
            == Built(Join(" ", [prefix] + Flatten(ScenarioWords) + [suffix]))
  {
    ScenarioAreWords();
    ScenarioBudget(prefix, suffix);
    assert PerText(3948, 6) == 658;
    NoTruncation(ScenarioWords, 658);
    PromptIsJoinedWords([prefix], [suffix], ScenarioWords);
  }

  /** The prefix and the suffix of the scenario are one token each. */
  lemma ScenarioBudget(prefix: string, suffix: string)
    requires prefix == "Prefix" && suffix == "Suffix"
    ensures Available(prefix, suffix, 50, DefaultTokenLimit) == 3948
  {
    assert forall i :: 0 <= i < |prefix| ==> 'A' <= prefix[i] <= 'Z' || 'a' <= prefix[i] <= 'z';
    assert forall i :: 0 <= i < |suffix| ==> 'A' <= suffix[i] <= 'Z' || 'a' <= suffix[i] <= 'z';
    LettersWord(prefix);
    LettersWord(suffix);
    TokenizeOneWord(prefix);
    TokenizeOneWord(suffix);
  }
}
