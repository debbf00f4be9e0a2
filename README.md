# datasette-openai prompt builder and tokenizer, in Dafny

This project models the pure core of the `datasette-openai` plugin for Datasette:

- the approximate GPT-2 tokenizer: the `token_re` pattern applied with
  `findall`, every segment stripped of surrounding whitespace (`tokenize`),
  and the token count built on it (`count_tokens`);
- the `openai_build_prompt` aggregate, class `BuildPrompt`, with
  `__init__`, `step` and `finalize`, and the host that creates the object at
  the group's first row, steps it once per row and finalizes it;
- `openai_strip_tags`, the `<[^>]*>` substitution.

Modules:

- `Strings` (`strings.dfy`) holds list concatenation, `sep.join(parts)` and
  a map over a list.
- `Tokenizer` (`tokenizer.dfy`) is the scanner. Each alternative of the
  pattern is a function returning the length it matches (0 for no match).
  `MatchFrom` tries the alternatives in the pattern's order, and `Segments`
  is `findall`.
- `PromptBuilder` (`prompt.dfy`) holds the class `BuildPrompt`. Its fields are
  updated in place by `Step`. `Finalize` is specified by the function
  `Assemble`, and the method `TruncateAll` carries the loop of `finalize`.
- `Tags` (`tags.dfy`) is the tag stripper.

Main results:

- `count_tokens` is the length of `tokenize`.
- The tokens concatenate to the text with its whitespace removed.
- Every token has no whitespace and is empty exactly when its segment was
  whitespace.
- Words joined by single spaces tokenize back to the words. Here and below, a
  word is `IsWord`: a non-empty run of letters, of digits or of "other"
  characters (one class only) that does not start with an apostrophe.
- The two tokenizer examples of the test-suite hold.
- `step` keeps the first row's parameters and appends every text.
- `finalize` never hands out more than the available tokens. When the prefix,
  the suffix and every text are non-empty lists of words joined by single
  spaces, and every text gets a share of at least one token, the finished
  prompt re-tokenizes to at most `token_limit - completion_tokens` tokens.
- Without that share the bound can fail. For a one-word prefix and suffix, a
  single text and `token_limit - completion_tokens == 2`, the prefix and the
  suffix use up the whole budget and the text is cut to nothing. The prompt is
  then the prefix, two spaces and the suffix; the two spaces tokenize to an
  empty token of their own, and the prompt is one token over the limit
  (`ZeroShareOverflow`). Other groups with a zero share are not characterised.
- A contraction such as `'s` wins over the run of "other" characters its
  apostrophe would start, and it becomes a token of its own.
- A six-row scenario (prefix `Prefix`, suffix `Suffix`, 50 completion tokens,
  the default limit, rows of one to six words) comes out untruncated, in row
  order.
- Stripping tags leaves no tag, is the identity exactly on tag-free text, and
  is idempotent.

The regular expression module tries the alternatives of a pattern in order:
the first one that matches at a position wins, not the longest. The model
follows that ordered alternation.

A `BuildPrompt` finalized with no step reaches
`available_tokens // len(self.texts)` with zero texts whenever the budget is not
negative. The model keeps that behaviour as the `ZeroDivisionError` outcome of
`Finalize`. It does not add a guard. The host never gets there: it creates the
object at a group's first row, so a group with no rows yields SQL NULL without
calling `finalize`, and a group with rows never divides by zero.

## Model

| member | source | states |
|---|---|---|
| Strings.Join | datasette_openai/__init__.py:55-56 | no ensures of its own (`sep.join(parts)`); `JoinCons`, `JoinAppend` and `JoinFlatten` state how joins compose, and `TokenizeJoin` that words joined by single spaces tokenize back to the words |
| Strings.MapEach | datasette_openai/__init__.py:17 | the list comprehension keeps one element per element; `MapEachAt` states the k-th element is `f` of the k-th input |
| Tokenizer.IsLetterChar | datasette_openai/__init__.py:12 | no ensures of its own: `\p{L}`, for Latin-1 only (see `Classify` under "## Left out") |
| Tokenizer.IsNumberChar | datasette_openai/__init__.py:12 | no ensures of its own: `\p{N}`, for Latin-1 only (see `Classify` under "## Left out") |
| Tokenizer.Classify | datasette_openai/__init__.py:12 | no ensures of its own: the one class of a character among `\s`, `\p{L}`, `\p{N}` and everything else, so the classes exclude each other; whitespace is the `str.isspace` set and letters and digits are Latin-1 only (see `Classify` and `IsSpace` under "## Left out") |
| Tokenizer.IsSpace | datasette_openai/__init__.py:12-17 | no ensures of its own: the `str.isspace` set, used both for the pattern's `\s` and for what `strip` removes (see `IsSpace` under "## Left out") |
| Tokenizer.ContractionLength | datasette_openai/__init__.py:12 | the contraction alternatives `'s|'t|'re|'ve|'m|'ll|'d` tried in order: a positive length is a listed contraction that prefixes the text, and 0 exactly when no listed contraction prefixes it |
| Tokenizer.RunEnd | datasette_openai/__init__.py:12 | a greedy `X+`: every character up to the returned end is of the class, and the next one (if any) is not |
| Tokenizer.OptionalSpaceRun | datasette_openai/__init__.py:12 | ` ?\p{L}+`, ` ?\p{N}+` and ` ?[^\s\p{L}\p{N}]+` match exactly when the text starts with the class, or with an ASCII space followed by the class |
| Tokenizer.OptionalSpaceRunMatch | datasette_openai/__init__.py:12 | when ` ?X+` matches, its length is a match of the pattern: a maximal run of one class, with at most one ASCII space in front, ending in that class |
| Tokenizer.TrailingSpaceRun | datasette_openai/__init__.py:12 | `\s+(?!\S)` fails exactly when the text starts with a non-space, or with one whitespace character followed by a non-space |
| Tokenizer.TrailingSpaceRunMatch | datasette_openai/__init__.py:12 | when `\s+(?!\S)` matches, the run reaches the end of the text or stops one character before a non-space |
| Tokenizer.MatchLength | datasette_openai/__init__.py:11-13 | one `findall` match at the start of a non-empty text: at least one character and no more than the text; `MatchLengthMatch` states which match it is |
| Tokenizer.MatchFrom | datasette_openai/__init__.py:11-13 | the regex's ordered alternation at one position never matches the empty string and stays within the text |
| Tokenizer.MatchFromMatch | datasette_openai/__init__.py:11-13 | whichever alternative wins is a match: a contraction, a whitespace run obeying `(?!\S)`, or a maximal single-class run with an optional leading ASCII space, which is never a space alone before a non-space; from the first alternative on, a contraction that applies is the match |
| Tokenizer.MatchLengthMatch | datasette_openai/__init__.py:11-13 | the match of the whole pattern at the start of a non-empty text is such a match, and it is the contraction whenever one of the listed contractions starts the text |
| Tokenizer.Segments | datasette_openai/__init__.py:17 | `findall` cuts the text into non-empty segments, no more than the text has characters, which concatenate back to the text |
| Tokenizer.SegmentForms | datasette_openai/__init__.py:11-17 | every segment is a contraction, a whitespace run, or a run of one class after at most one ASCII space |
| Tokenizer.LStrip | datasette_openai/__init__.py:17 | `lstrip` keeps a suffix that does not start with whitespace, and drops only whitespace |
| Tokenizer.RStrip | datasette_openai/__init__.py:17 | `rstrip` keeps a prefix that does not end with whitespace, and drops only whitespace |
| Tokenizer.Strip | datasette_openai/__init__.py:17 | the stripped text neither starts nor ends with whitespace, and is empty exactly when the text is all whitespace |
| Tokenizer.StripTrims | datasette_openai/__init__.py:17 | the stripped text is a slice of the text with only whitespace before it and only whitespace after it; with `Strip`'s contract this is exactly the text with its leading and trailing whitespace cut off |
| Tokenizer.Tokenize | datasette_openai/__init__.py:16-17 | no ensures of its own (`[t.strip() for t in findall(text)]` as `MapEach(Strip, Segments(text))`); its properties are carried by `CountTokens`, `TokenizeCons`, `TokensConcat`, `TokenFormAt`, `TokenForms` and `TokenizeJoin` |
| Tokenizer.CountTokens | datasette_openai/__init__.py:20-21 | `count_tokens` is the length of `tokenize`, at most the number of characters, and zero exactly for the empty text |
| Tokenizer.TokenizeCons | datasette_openai/__init__.py:16-17 | the first token is the first segment stripped, and the remaining tokens are the tokens of the rest of the text |
| Tokenizer.StripSegment | datasette_openai/__init__.py:17 | stripping a segment removes exactly its whitespace, leaving nothing, a contraction or a single-class run |
| Tokenizer.TokensConcat | datasette_openai/__init__.py:16-17 | the tokens concatenated in order are the text with every whitespace character removed |
| Tokenizer.TokenFormAt | datasette_openai/__init__.py:16-17 | the k-th token is the k-th segment stripped, which is the segment with all its whitespace removed: no whitespace, empty exactly when the segment is whitespace, otherwise a contraction or a single-class run |
| Tokenizer.TokenForms | datasette_openai/__init__.py:16-17 | one token per segment, every token is its segment stripped (its whitespace removed), and every token has the forms above (empty tokens are kept) |
| Tokenizer.MatchOfRun | datasette_openai/__init__.py:11-13 | a match that starts with a letter, digit or other non-space character (not an apostrophe) is exactly the longest run of that character class |
| Tokenizer.MatchOfSpacedRun | datasette_openai/__init__.py:11-13 | a match that starts with an ASCII space followed by a non-space character is exactly the space and the longest run of that character's class |
| Tokenizer.WordSegment | datasette_openai/__init__.py:11-13 | a word followed by a character of another class is exactly the first segment |
| Tokenizer.SpacedWordSegment | datasette_openai/__init__.py:11-13 | a space, a word and a character of another class: the space and the word are the first segment |
| Tokenizer.TokenizeWord | datasette_openai/__init__.py:16-17 | a leading word is one token, followed by the tokens of the rest |
| Tokenizer.TokenizeSpacedWord | datasette_openai/__init__.py:16-17 | a space and a word at the front are one token (the word), followed by the tokens of the rest |
| Tokenizer.TokenizeJoin | datasette_openai/__init__.py:16-21 | words joined with single spaces tokenize back to exactly those words, so their count is the number of words |
| Tokenizer.TokenizeSpacedJoin | datasette_openai/__init__.py:16-17 | a space followed by words joined with single spaces tokenizes to the words |
| Tokenizer.ContractionAtFront | datasette_openai/__init__.py:12 | a text that starts with one of `'s 't 're 've 'm 'll 'd` matches exactly that contraction: none of them is a prefix of another |
| Tokenizer.TokenizeContraction | datasette_openai/__init__.py:11-17 | a contraction at the front of a text is a token of its own, followed by the tokens of the rest |
| Tokenizer.TokenizeWordContraction | datasette_openai/__init__.py:11-17 | a word of letters or digits followed by a contraction gives two tokens, the word and the contraction |
| Tokenizer.SpaceBeforeSpacedSegment | datasette_openai/__init__.py:12 | two ASCII spaces before a non-space: `\s+(?!\S)` gives back the second space, so the first segment is one space |
| Tokenizer.TokenizeSpaceBeforeSpaced | datasette_openai/__init__.py:11-17 | a space in front of a space and a non-space becomes an empty token, followed by the tokens of the rest |
| Tokenizer.TokenizeTwoSpacesWord | datasette_openai/__init__.py:11-17 | two spaces and a word tokenize to an empty token and the word |
| Tokenizer.TokenizeDoubleSpace | datasette_openai/__init__.py:11-17 | a word, two spaces and a word tokenize to the first word, an empty token and the second word |
| Tokenizer.TokenizeHelloWorld | tests/test_openai.py:22-25 | `Hello world` tokenizes to `Hello`, `world` and counts 2 |
| Tokenizer.TokenizeTwoWordsThen | datasette_openai/__init__.py:11-17 | a word, a space, a word and a word of another class right after it are three tokens |
| Tokenizer.TokenizeHelloWorldBang | tests/test_openai.py:23-26 | `Hello world!` tokenizes to `Hello`, `world`, `!` and counts 3 |
| PromptBuilder.DefaultTokenLimit | datasette_openai/__init__.py:33 | a constant, no ensures: the limit 4000 a four-argument row gets; `BuildPrompt.Step` and `Aggregate` state its use |
| PromptBuilder.Available | datasette_openai/__init__.py:43-48 | no ensures of its own (the limit less the completion tokens and the token counts of prefix and suffix); `Finalize`, `ScenarioBudget` and `ZeroShareOverflow` state what it decides |
| PromptBuilder.PerText | datasette_openai/__init__.py:52 | `available_tokens // len(self.texts)` is the largest share that fits the texts into the budget, and it is at least one exactly when the budget covers one token per text |
| PromptBuilder.KeptTokens | datasette_openai/__init__.py:55 | `tokenize(text)[:tokens_per_text]` is the first `min(share, count_tokens(text))` tokens of the text |
| PromptBuilder.KeptGroups | datasette_openai/__init__.py:54-55 | one list of kept tokens per text, in row order |
| PromptBuilder.TruncatedTexts | datasette_openai/__init__.py:53-55 | no ensures of its own (each text's kept tokens joined with single spaces, in row order); `TruncateAll` proves the loop equal to it, and `NoTruncation` and `AssembleWords` state what it yields for texts of words |
| PromptBuilder.Assemble | datasette_openai/__init__.py:42-56 | no ensures of its own (the whole result of `finalize` for a state: the negative-budget fallback, the division by zero, or the joined prompt); `Finalize` is proved equal to it, and `BudgetSplit`, `AssembleWords`, `PromptFitsBudget`, `ZeroShareOverflow` and `ScenarioPrompt` are about it |
| PromptBuilder.BuildPrompt.constructor | datasette_openai/__init__.py:25-31 | a new group has no texts, is waiting for its first row, and has empty prefix and suffix and zero budget figures |
| PromptBuilder.BuildPrompt.Step | datasette_openai/__init__.py:33-40 | the text is appended; the first row sets the prefix, suffix, completion tokens and limit (4000 by default), and later rows leave them unchanged |
| PromptBuilder.BuildPrompt.Finalize | datasette_openai/__init__.py:42-56 | the result is the prompt for the group's state; a negative budget gives `prefix + " " + suffix`; the division by zero happens exactly when the budget is not negative and there are no texts |
| PromptBuilder.TruncateAll | datasette_openai/__init__.py:53-55 | the loop builds every text cut to its share and rejoined with single spaces, in row order |
| PromptBuilder.TokenLimitOf | datasette_openai/__init__.py:33 | no ensures of its own: a four-argument row gets the `token_limit=4000` default, a five-argument row its own limit (the two registrations at lines 67-68); `Aggregate` states its use |
| PromptBuilder.Aggregate | datasette_openai/__init__.py:67-68 | a group of rows through the 4- or 5-argument aggregate yields the prompt for the first row's parameters (limit 4000 when omitted) and every text in row order; a group with no rows yields NULL (`None`) without an object being created, and a group with rows never fails with the division by zero |
| PromptBuilder.FinalizeTwice | datasette_openai/__init__.py:42-56 | `finalize` changes nothing, so calling it twice gives the same result |
| PromptBuilder.KeptWithinShare | datasette_openai/__init__.py:54-55 | no text keeps more than its share, so the kept tokens number at most share times texts |
| PromptBuilder.BudgetSplit | datasette_openai/__init__.py:52-55 | the even split never hands out more tokens than are available |
| PromptBuilder.KeptGroupsOfWords | datasette_openai/__init__.py:55 | a text made of words keeps its first `min(share, word count)` words |
| PromptBuilder.AssembleWords | datasette_openai/__init__.py:49-56 | when prefix, suffix and texts are words and every share is at least one, the prompt is the prefix words, the kept words of every text and the suffix words joined by single spaces |
| PromptBuilder.PromptFitsBudget | datasette_openai/__init__.py:42-56 | under the same conditions the prompt re-tokenizes to the prefix tokens, the kept tokens of each text in row order and the suffix tokens, and its token count plus the completion tokens stays within the token limit |
| PromptBuilder.ZeroShareOverflow | datasette_openai/__init__.py:42-56 | a one-word prefix and suffix with `token_limit - completion_tokens == 2` leave 0 tokens; the single text is cut to nothing, the prompt is the prefix, two spaces and the suffix, and it re-tokenizes to one token more than the limit allows |
| PromptBuilder.NoTruncation | datasette_openai/__init__.py:52-55 | texts of words that fit in their share come back unchanged |
| PromptBuilder.ScenarioPrompt | datasette_openai/__init__.py:42-56 | prefix `Prefix`, suffix `Suffix`, 50 completion tokens and the default limit on the six texts of one to six words: the prompt is every word in row order between `Prefix` and `Suffix` |
| PromptBuilder.ScenarioBudget | datasette_openai/__init__.py:43-48 | that scenario leaves 4000 - 50 - 1 - 1 = 3948 tokens for the texts |
| Tags.CloseFrom | datasette_openai/__init__.py:8 | `[^>]*>` stops at the first `>` after the `<` |
| Tags.StripTags | datasette_openai/__init__.py:71-73 | stripping never makes the text longer |
| Tags.StripTagsClean | datasette_openai/__init__.py:8 | no tag survives; a text without tags is returned as it is and any other text gets strictly shorter; only characters of the text remain |
| Tags.StripTagsIdempotent | datasette_openai/__init__.py:71-73 | stripping twice is stripping once |
| Tags.StripLeadingTag | datasette_openai/__init__.py:8 | a tag at the front is removed, whatever follows |
| Tags.StripLeadingPlain | datasette_openai/__init__.py:8 | text without `<` at the front is kept, followed by the stripped rest |
| Tags.StripElement | datasette_openai/__init__.py:8 | an element with plain text between two tags strips to that text |
| Tags.StripPlain | tests/test_openai.py:19 | `Hello world` is left unchanged |
| Tags.StripParagraph | tests/test_openai.py:20 | `<p>Hello world</p>` becomes `Hello world` |

## Left out

- `openai_embedding` and `openai_davinci` are left out. They are HTTP calls to the OpenAI API.
- `openai_embedding_similarity` is left out. It decodes two packed vectors and computes their cosine similarity, which is floating point.
- The vector encode/decode (`struct` packing of 32-bit floats) and the cosine similarity are left out. They are floating point.
- `prepare_connection` is modelled only in its two registrations of `openai_build_prompt`, with four and five arguments (`Row.tokenLimit` absent or present). The SQLite function registry is not modelled.
- The JSON encoding of `openai_tokenize`'s result is left out; the model returns the list of tokens.
- SQL `NULL` and non-string arguments are not modelled; every text is a string.
- Exceptions other than the division by zero in `finalize` are not modelled.
- `Classify`: `\p{L}` and `\p{N}` are modelled for Latin-1 only. Every character above U+00FF that is not whitespace counts as "other". The full Unicode category tables are not modelled.
- `IsSpace`: one whitespace set (Python's `str.isspace`) is used both for the pattern's `\s` and for `strip`. The two can disagree on the information separators U+001C to U+001F, and that difference is not modelled.
- `Tokenize` has no contract of its own. Its properties are the lemmas in the table (`CountTokens`, `TokensConcat`, `TokenForms`, `TokenizeJoin`).
- `PromptFitsBudget`: the budget bound is proved only for a prefix, a suffix and texts that are words joined by single spaces, with a share of at least one token per text. For arbitrary text, re-tokenizing the rejoined tokens can merge or split tokens (for example a contraction after a space), so the general statement is not claimed. `BudgetSplit` bounds the kept tokens for every input. Without a share of at least one token per text the bound can fail, as `ZeroShareOverflow` shows for a single text between a one-word prefix and suffix.
- `ScenarioPrompt`: states the expected prompt as the scenario's words joined by single spaces. It does not spell out the 119-character literal. The texts are likewise given as their words joined by single spaces.
- The per-group object lifetime and the order in which the host calls `step` are modelled by the sequential `Aggregate` method. The host's own behaviour (creating the object at a group's first row, NULL for a group with no rows) lives in Python's `sqlite3` module, which is not part of this model; `Aggregate` encodes that behaviour directly. Concurrency between groups is not modelled.
