# CyberMentor core logic in Dafny

This project models the deterministic core of the CyberMentor tutoring chatbot. It has two parts.

- **Ingestion** (`ContentProcessor` in `content_processor.dfy`) turns the text of one AsciiDoc file into a document:
  - a title: the first `# ` line, otherwise the file-name stem;
  - heading-delimited sections, split at `==`, `===`, … heading lines, each with a stripped body and a word count;
  - keyword-based metadata: topics in table order, and at most three fenced code blocks.
- **The chatbot** (`Chatbot` in `chatbot.dfy`) does the following:
  - flattens processed files into rows of a vector index, keeping only sections with an embedding and giving each row the id `<title with _ for spaces>_<section index>`;
  - adds the rows to the collection in batches of 100;
  - retrieves with an optional platform filter;
  - assembles the system prompt from the platform blurb, the top three retrieved sections and the last three exchanges;
  - falls back to a fixed apology when the language model fails;
  - adds a first-match "real-world impact" annotation;
  - keeps the conversation history, appending one turn per chat.

The module `Text` (`text.dfy`) models the Python string operations this logic relies on:
- `str.isspace` / `\s`, `strip`, `split()`, `split('\n')`, `join`, `lower`, `in`, `replace` and `str(int)`;
- strings are sequences of code points, as Python indexes `str`.

The state machine in `split_into_sections` is a method whose loop is proved against a reference reading of the lines:
- `Parse` reads the lines from the last one back;
- `Emit` keeps the blocks that become sections.

The collection-building loops are methods proved against `Collected` and `Batches`. `CybersecurityChatbot` is a class whose `conversationHistory` field is updated in place. The embedding service, the vector store's search and the language model are function values passed in; only whether an embedding is empty matters.

## Model

| member | source | states |
|---|---|---|
| `Text.Strip` | cybersec-chatbot-mvp/backend/content_processor.py:56-59 | `strip()` is empty exactly when the text is all whitespace; otherwise it starts and ends with a non-whitespace character |
| `Text.StripCutsWhitespace` | cybersec-chatbot-mvp/backend/content_processor.py:59 | `strip()` is a slice of the text whose prefix and suffix outside it are all whitespace; with `Text.Strip` this fixes the result as the text without its leading and trailing whitespace |
| `Text.Words` | cybersec-chatbot-mvp/backend/content_processor.py:60 | definition of `split()`; its properties are stated in `WordsAreTokens`, `WordsCoverText`, `WordsEmptyIff`, `WordsOfToken` and `WordsAreMaximalRuns` |
| `Text.WordsAreTokens` | cybersec-chatbot-mvp/backend/content_processor.py:60 | every token of `split()` is non-empty and holds no whitespace |
| `Text.WordsCoverText` | cybersec-chatbot-mvp/backend/content_processor.py:60 | the tokens of `split()`, concatenated, are exactly the non-whitespace characters of the text, in order |
| `Text.WordsEmptyIff` | cybersec-chatbot-mvp/backend/content_processor.py:56-60 | `split()` finds no token exactly when the text is blank |
| `Text.WordsOfToken` | cybersec-chatbot-mvp/backend/content_processor.py:60 | a non-empty run without whitespace splits into exactly itself |
| `Text.WordsAreMaximalRuns` | cybersec-chatbot-mvp/backend/content_processor.py:60 | the text is whitespace gap, token, gap, …, token, gap, and every gap between two tokens is non-empty. So each token is a maximal run of non-whitespace characters, and the word count is the number of such runs |
| `Text.Split` | cybersec-chatbot-mvp/backend/content_processor.py:49 | `split('\n')` yields at least one part; no part holds a newline; joining the parts with newlines gives back the text |
| `Text.Join` | cybersec-chatbot-mvp/backend/app/chatbot.py:127 | definition of `sep.join(parts)`; its properties are stated in `Text.Split` (round trip), `Chatbot.KnowledgeBlockOfThree` and `Chatbot.HistoryBlockOfThree` |
| `Text.Lower` | cybersec-chatbot-mvp/backend/content_processor.py:94 | definition of `str.lower()` on the characters that matter here; its properties are stated in `LowerPerChar`, `LowerIdempotent` and `LowerHasNoCapitals` |
| `Text.LowerPerChar` | cybersec-chatbot-mvp/backend/content_processor.py:94 | away from KELVIN SIGN and U+0130, lower-casing keeps the length, maps each of `A`..`Z` to its small letter and keeps every other character |
| `Text.LowerIdempotent` | cybersec-chatbot-mvp/backend/app/chatbot.py:201 | lower-casing twice is lower-casing once |
| `Text.LowerHasNoCapitals` | cybersec-chatbot-mvp/backend/content_processor.py:94 | no ASCII capital survives `lower()` |
| `Text.Find` | cybersec-chatbot-mvp/backend/content_processor.py:96 | the substring search returns the first occurrence at or after the start, or none when there is none |
| `Text.ContainsIff` | cybersec-chatbot-mvp/backend/content_processor.py:96 | `needle in hay` holds exactly when the needle occurs at some position |
| `Text.ReplaceChar` | cybersec-chatbot-mvp/backend/app/chatbot.py:57 | `replace(' ', '_')` keeps the length and replaces each space, and only spaces |
| `Text.Decimal` | cybersec-chatbot-mvp/backend/app/chatbot.py:57 | `str(i)` is one or more characters, all decimal digits, with a single digit exactly when i < 10 and no leading zero except for 0 |
| `Text.DecimalValue` | cybersec-chatbot-mvp/backend/app/chatbot.py:57 | the digits of `str(i)`, read left to right, spell i |
| `Text.DecimalInjective` | cybersec-chatbot-mvp/backend/app/chatbot.py:57 | distinct indices have distinct decimal forms |
| `ContentProcessor.HeadingMatch` | cybersec-chatbot-mvp/backend/content_processor.py:51 | definition of `re.match` of the heading pattern on one line, returning group 2; its properties are stated in `HeadingMatchIff`, `HeadingText` and `ShortMarksAreNotHeadings` |
| `ContentProcessor.HeadingMatchIff` | cybersec-chatbot-mvp/backend/content_processor.py:51 | a line is a heading line exactly when it is optional whitespace, two or more `=`, then a whitespace character |
| `ContentProcessor.HeadingText` | cybersec-chatbot-mvp/backend/content_processor.py:51 | the captured heading text is everything after the whitespace that follows the `=` run |
| `ContentProcessor.ShortMarksAreNotHeadings` | cybersec-chatbot-mvp/backend/content_processor.py:51 | `= Title`, `==` alone and `==Title` are body text, not headings |
| `ContentProcessor.KeepIff` | cybersec-chatbot-mvp/backend/content_processor.py:55-56 | a heading block becomes a section exactly when its heading text is non-empty and its body is not blank |
| `ContentProcessor.ParseSnoc` | cybersec-chatbot-mvp/backend/content_processor.py:50-65 | reading one more line extends the reference parse the way the loop body does |
| `ContentProcessor.TracksHeading` | cybersec-chatbot-mvp/backend/content_processor.py:52-63 | a heading line flushes the pending section, if it is kept, and starts an empty one under the new heading |
| `ContentProcessor.TracksText` | cybersec-chatbot-mvp/backend/content_processor.py:64-65 | a body line, followed by a newline, joins the pending section |
| `ContentProcessor.TracksEnd` | cybersec-chatbot-mvp/backend/content_processor.py:66-73 | flushing the last pending section yields exactly the sections of every block |
| `ContentProcessor.FlushIsKeep` | cybersec-chatbot-mvp/backend/content_processor.py:55-61 | the truthiness tests on the pending text and heading keep exactly the blocks with a heading and a non-blank body |
| `ContentProcessor.SplitIntoSections` | cybersec-chatbot-mvp/backend/content_processor.py:41-73 | the loop over the lines returns exactly the sections of the reference parse of the text |
| `ContentProcessor.ParsePreamble` | cybersec-chatbot-mvp/backend/content_processor.py:47-65 | the text before the first heading line holds no heading line and belongs to no block |
| `ContentProcessor.ParseBlocks` | cybersec-chatbot-mvp/backend/content_processor.py:49-65 | there is one block per heading line, in document order; its body is the text of the lines strictly between that heading line and the next, none of them a heading |
| `ContentProcessor.BlocksPerHeading` | cybersec-chatbot-mvp/backend/content_processor.py:50-62 | the parse has as many blocks as the text has heading lines |
| `ContentProcessor.KeptSectionIsNonBlank` | cybersec-chatbot-mvp/backend/content_processor.py:55-61 | a kept section has a non-empty heading text and a stripped, non-empty content with at least one word |
| `ContentProcessor.EmittedSectionsAreNonBlank` | cybersec-chatbot-mvp/backend/content_processor.py:55-72 | every emitted section is non-blank |
| `ContentProcessor.SectionsAreNonBlank` | cybersec-chatbot-mvp/backend/content_processor.py:41-73 | a file yields non-blank sections, at most one per heading line |
| `ContentProcessor.NoHeadingNoSections` | cybersec-chatbot-mvp/backend/content_processor.py:47-73 | a file without a heading line yields no section |
| `ContentProcessor.ExtractTitle` | cybersec-chatbot-mvp/backend/content_processor.py:24-25 | definition: group 1 of the first title match, otherwise the stem; its properties are stated in `TitleIsFirstMatch`, `TitleFallsBackWithoutTitleLine`, `TitleFromHashLine`, `TitleFallsBackToStem` and `TitleAfterLineBreak` |
| `ContentProcessor.Stem` | cybersec-chatbot-mvp/backend/content_processor.py:25 | `Path(file_path).stem` holds no `/`; it is `NameStem` of the last path component, and `StemCutsAtLastDot` states the suffix rule |
| `ContentProcessor.NameStem` | cybersec-chatbot-mvp/backend/content_processor.py:25 | the stem of a file name is a prefix of it |
| `ContentProcessor.StemCutsAtLastDot` | cybersec-chatbot-mvp/backend/content_processor.py:25 | the stem is the whole name when its last dot, if any, is its first or last character; otherwise it is the name up to that last dot, which is neither first nor last and has no dot after it |
| `ContentProcessor.TitleAt` | cybersec-chatbot-mvp/backend/content_processor.py:24 | definition of a match of the title pattern at one line start, with group 1; its properties are stated in `TitleAtIff`, `TitleAtHashLine` and `TitleAfterLineBreak` |
| `ContentProcessor.TitleAtIff` | cybersec-chatbot-mvp/backend/content_processor.py:24 | `^#\s+(.+)$` in multi-line mode matches at a position exactly when it starts a line, holds `#`, and is followed by one or more whitespace characters and then a character that is not a newline; group 1 is then non-empty and within one line |
| `ContentProcessor.TitlePosition` | cybersec-chatbot-mvp/backend/content_processor.py:24 | `re.search` finds the first position where the title pattern matches, or none |
| `ContentProcessor.TitleFromHashLine` | cybersec-chatbot-mvp/backend/content_processor.py:24-25 | when the first `#` of a file opens a line `# <text>`, the title is `<text>` |
| `ContentProcessor.TitleAtHashLine` | cybersec-chatbot-mvp/backend/content_processor.py:24 | the pattern matches at a line `# <text>` and captures `<text>` up to the end of the line |
| `ContentProcessor.TitleFallsBackToStem` | cybersec-chatbot-mvp/backend/content_processor.py:25 | a file without `#` takes its title from the file-name stem |
| `ContentProcessor.TitleIsFirstMatch` | cybersec-chatbot-mvp/backend/content_processor.py:24-25 | the title is group 1 at the first position where the pattern can match, wherever `#` occurs before it (as in `Use C# here` followed by `# Intro`) |
| `ContentProcessor.TitleFallsBackWithoutTitleLine` | cybersec-chatbot-mvp/backend/content_processor.py:24-25 | a file where the pattern can match nowhere, `#` characters or not, takes its title from the file-name stem |
| `ContentProcessor.TitleAfterLineBreak` | cybersec-chatbot-mvp/backend/content_processor.py:24 | the whitespace after `#` may run over a line break, so `#` followed by a newline and `Intro` has the title `Intro` |
| `ContentProcessor.BaseNameAfterSlash` | cybersec-chatbot-mvp/backend/content_processor.py:25 | the last path component of `<dir>/<file>` is `<file>` |
| `ContentProcessor.StemOfAdocFile` | cybersec-chatbot-mvp/backend/content_processor.py:25 | the stem of `<dir>/<name>.adoc` is `<name>`, dots in `<name>` included (`intro.v2.adoc` gives `intro.v2`) |
| `ContentProcessor.MatchedTopics` | cybersec-chatbot-mvp/backend/content_processor.py:94-97 | definition of the topic list; its properties are stated in `MatchedTopicsIff`, `MatchedTopicsInTableOrder`, `MatchedAreNames`, `MatchedTopicsDistinct` and `TopicsListedOnce`, and `ExtractMetadata` proves the loop equal to it |
| `ContentProcessor.MatchedTopicsIff` | cybersec-chatbot-mvp/backend/content_processor.py:94-97 | a topic is listed exactly when one of its keywords occurs in the lower-cased text |
| `ContentProcessor.MatchedTopicsInTableOrder` | cybersec-chatbot-mvp/backend/content_processor.py:85-97 | the topics are the table's names, in table order, with the unmatched ones left out |
| `ContentProcessor.MatchedAreNames` | cybersec-chatbot-mvp/backend/content_processor.py:95-97 | every listed topic is a name of the table |
| `ContentProcessor.MatchedTopicsDistinct` | cybersec-chatbot-mvp/backend/content_processor.py:95-97 | a table with distinct names lists each topic at most once |
| `ContentProcessor.TopicsListedOnce` | cybersec-chatbot-mvp/backend/content_processor.py:84-99 | no topic is listed twice |
| `ContentProcessor.FenceSpans` | cybersec-chatbot-mvp/backend/content_processor.py:102 | `findall` of the fence pattern gives successive lazy matches: each opens at the first fence after the previous match and closes at the first fence after that, until no pair of fences is left |
| `ContentProcessor.ScanSpansAreBlocks` | cybersec-chatbot-mvp/backend/content_processor.py:102 | every match lies inside the text and starts and ends with a fence |
| `ContentProcessor.ScanUnique` | cybersec-chatbot-mvp/backend/content_processor.py:102 | that sequence of matches is determined by the text |
| `ContentProcessor.Examples` | cybersec-chatbot-mvp/backend/content_processor.py:102-103 | at most three examples are kept, each starting and ending with a fence |
| `ContentProcessor.ExamplesAreFirstMatches` | cybersec-chatbot-mvp/backend/content_processor.py:102-103 | for the match sequence of the fence scan, the examples are the texts of its first min(3, matches) matches, in order |
| `ContentProcessor.ExtractMetadata` | cybersec-chatbot-mvp/backend/content_processor.py:74-105 | the platform is `picoCTF` and the difficulty `beginner`; the topic loop returns the table-order matches; the examples are the first three fenced blocks |
| `ContentProcessor.ProcessMarkdownFile` | cybersec-chatbot-mvp/backend/content_processor.py:18-39 | the document carries the extracted title, the given path, the sections, the metadata and the full text |
| `Chatbot.CollectSections` | cybersec-chatbot-mvp/backend/app/chatbot.py:36-57 | the nested loops build four lists of equal length that, read position by position, are the rows of every section with an embedding, files and sections in order |
| `Chatbot.IdForInjective` | cybersec-chatbot-mvp/backend/app/chatbot.py:57 | two sections of one file never share an id |
| `Chatbot.IdsOfSimilarTitlesCollide` | cybersec-chatbot-mvp/backend/app/chatbot.py:57 | titles that differ only in a space versus an underscore give the same ids |
| `Chatbot.CollectFileIff` | cybersec-chatbot-mvp/backend/app/chatbot.py:42-57 | the row with the id of section `i` exists exactly when that section has a non-empty embedding; skipped sections still use up their index |
| `Chatbot.CollectFileHas` | cybersec-chatbot-mvp/backend/app/chatbot.py:42-56 | a section with an embedding has its row among the file's rows |
| `Chatbot.CollectFileRows` | cybersec-chatbot-mvp/backend/app/chatbot.py:42-57 | every row of a file comes from one of its sections that has an embedding |
| `Chatbot.BatchAt` | cybersec-chatbot-mvp/backend/app/chatbot.py:60-69 | batch `k` is the slice `[100k, min(100k + 100, n))` |
| `Chatbot.BatchesCover` | cybersec-chatbot-mvp/backend/app/chatbot.py:60-69 | the batches, concatenated, are the collected rows: each once, in order |
| `Chatbot.BatchSizes` | cybersec-chatbot-mvp/backend/app/chatbot.py:60-69 | there are ceil(n / 100) batches of 1 to 100 rows each, so none for n = 0 |
| `Chatbot.Collection.Add` | cybersec-chatbot-mvp/backend/app/chatbot.py:64-69 | an add call records one batch made of the four parallel slices |
| `Chatbot.CybersecurityChatbot.LoadProcessedContent` | cybersec-chatbot-mvp/backend/app/chatbot.py:36-69 | the collection receives exactly the batches of the collected rows, in order, and nothing else |
| `Chatbot.CreateEmbedding` | cybersec-chatbot-mvp/backend/app/chatbot.py:73-83 | a failing embedding call gives the empty embedding |
| `Chatbot.EmbeddingSeesOnlyPrefix` | cybersec-chatbot-mvp/backend/app/chatbot.py:76-79 | texts that agree on their first 8000 characters get the same embedding |
| `Chatbot.WhereFor` | cybersec-chatbot-mvp/backend/app/chatbot.py:93-101 | the filter is `{"platform": p}` exactly when the platform is truthy, and no filter otherwise |
| `Chatbot.Search` | cybersec-chatbot-mvp/backend/app/chatbot.py:85-106 | definition of `search_relevant_content`; its properties are stated in `SearchWithoutEmbedding` and `SearchAsksStore` |
| `Chatbot.SearchWithoutEmbedding` | cybersec-chatbot-mvp/backend/app/chatbot.py:87-90 | an empty query embedding gives the empty result, whatever the store would answer |
| `Chatbot.SearchAsksStore` | cybersec-chatbot-mvp/backend/app/chatbot.py:92-106 | otherwise the store is asked for that one vector, the result count and the filter; its answer is returned, and a failure gives the empty result |
| `Chatbot.PlatformContext` | cybersec-chatbot-mvp/backend/app/chatbot.py:108-116 | each of `picoCTF`, `hackthebox`, `tryhackme` (exact case) gets its entry; every other value, none included, gets the general entry |
| `Chatbot.KnowledgeBlock` | cybersec-chatbot-mvp/backend/app/chatbot.py:122-127 | definition of `context_text`; its properties are stated in `KnowledgeBlockEmptyIff`, `KnowledgeBlockTopThree` and `KnowledgeBlockOfThree` |
| `Chatbot.KnowledgeBlockEmptyIff` | cybersec-chatbot-mvp/backend/app/chatbot.py:122-127 | the knowledge block is empty exactly when there is nothing to zip |
| `Chatbot.KnowledgeBlockTopThree` | cybersec-chatbot-mvp/backend/app/chatbot.py:124-127 | only the first three document/metadata pairs reach the block |
| `Chatbot.KnowledgeBlockOfThree` | cybersec-chatbot-mvp/backend/app/chatbot.py:122-127 | with three or more pairs, the block is the first three rendered as `**heading** (from title):` and a newline before the document, separated by blank lines |
| `Chatbot.HistoryBlock` | cybersec-chatbot-mvp/backend/app/chatbot.py:133-139 | definition of `history_context`; its properties are stated in `HistoryBlockEmptyIff`, `HistoryBlockLastThree`, `HistoryBlockOfThree` and `HistoryBlockOfOne` |
| `Chatbot.HistoryBlockEmptyIff` | cybersec-chatbot-mvp/backend/app/chatbot.py:133-139 | the history block is empty exactly when there is no history |
| `Chatbot.HistoryBlockLastThree` | cybersec-chatbot-mvp/backend/app/chatbot.py:135 | turns older than the last three do not reach the block |
| `Chatbot.HistoryBlockOfThree` | cybersec-chatbot-mvp/backend/app/chatbot.py:135-139 | with three or more turns, the block is the last three, oldest first, one per line |
| `Chatbot.HistoryBlockOfOne` | cybersec-chatbot-mvp/backend/app/chatbot.py:137 | a turn is recalled as `User: …`, a newline, `Assistant: ` and the first 200 characters of the reply, followed by `...` |
| `Chatbot.SystemPrompt` | cybersec-chatbot-mvp/backend/app/chatbot.py:141-170 | definition: the fixed prompt text around the platform context, the knowledge block and the history block |
| `Chatbot.ChatRequestFor` | cybersec-chatbot-mvp/backend/app/chatbot.py:141-180 | definition: model `gpt-4`, a system message with the prompt, a user message with the query, temperature 0.7 and 400 tokens at most |
| `Chatbot.GenerateResponse` | cybersec-chatbot-mvp/backend/app/chatbot.py:118-187 | definition: the model's text, or the apology on failure; its properties are stated in `GenerateFallsBack` and `GenerateSeesTopThreeAndLastThree` |
| `Chatbot.GenerateFallsBack` | cybersec-chatbot-mvp/backend/app/chatbot.py:172-187 | a failed model call yields the fixed apology |
| `Chatbot.RequestSeesTopThreeAndLastThree` | cybersec-chatbot-mvp/backend/app/chatbot.py:118-180 | the request sent to the model is the same whether it is built from all retrieved sections and the whole history or from the first three sections and the last three turns |
| `Chatbot.GenerateSeesTopThreeAndLastThree` | cybersec-chatbot-mvp/backend/app/chatbot.py:118-187 | a consequence of `RequestSeesTopThreeAndLastThree` that holds because the model is treated as a function of its request: retrieved sections past the third and turns before the last three cannot change the answer |
| `Chatbot.FirstMatch` | cybersec-chatbot-mvp/backend/app/chatbot.py:202-206 | the scan returns the entry of the first key that occurs in the text, and none exactly when no key occurs |
| `Chatbot.RealWorldContext` | cybersec-chatbot-mvp/backend/app/chatbot.py:189-206 | definition: `FirstMatch` over the table, in order, on the lower-cased topic; its properties are stated in `SqlComesFirst`, `XssWithoutSql`, `RealWorldContextIgnoresCase` and `RealWorldContextNoneIff` |
| `Chatbot.SqlComesFirst` | cybersec-chatbot-mvp/backend/app/chatbot.py:192-204 | a topic mentioning `sql` in any case gets the SQL entry, whatever else it mentions |
| `Chatbot.XssWithoutSql` | cybersec-chatbot-mvp/backend/app/chatbot.py:192-204 | a topic mentioning `xss` but not `sql` gets the XSS entry |
| `Chatbot.RealWorldContextIgnoresCase` | cybersec-chatbot-mvp/backend/app/chatbot.py:201 | lower-casing the topic first changes nothing |
| `Chatbot.RealWorldContextNoneIff` | cybersec-chatbot-mvp/backend/app/chatbot.py:201-206 | there is no annotation exactly when no key occurs in the lower-cased topic |
| `Chatbot.WithAnnotation` | cybersec-chatbot-mvp/backend/app/chatbot.py:217-219 | the reply is the generated text, followed by a blank line and the annotation when there is one |
| `Chatbot.CybersecurityChatbot.constructor` | cybersec-chatbot-mvp/backend/app/chatbot.py:13-24 | a new chatbot has an empty history |
| `Chatbot.CybersecurityChatbot.Retrieve` | cybersec-chatbot-mvp/backend/app/chatbot.py:208-213 | definition: `Search` with this chatbot's embedding service, and the store's search over the batches added so far; `Chat` is specified through it |
| `Chatbot.CybersecurityChatbot.Chat` | cybersec-chatbot-mvp/backend/app/chatbot.py:208-236 | the reply is built from the history as it was before the call; sources used is the number of retrieved documents, not capped at 3; exactly one turn is appended, and the returned response, timestamp and sources used equal that turn's; earlier turns are unchanged |
| `Chatbot.CybersecurityChatbot.GetConversationHistory` | cybersec-chatbot-mvp/backend/app/chatbot.py:238-240 | returns the history |
| `Chatbot.CybersecurityChatbot.ClearConversationHistory` | cybersec-chatbot-mvp/backend/app/chatbot.py:242-244 | leaves the history empty |

## Left out

- File and directory I/O are not modelled. This covers reading an AsciiDoc file, `os.path.exists`, `json.load`, the directory walk in `process_ctf_primer_directory` with its per-file error handling and its per-section `create_embedding` calls, and `save_processed_content`. The model starts from a file's text and path, and from the already parsed list of files.
- The language model is a function of the request; sampling at temperature 0.7, under which the same request can give different answers, is not modelled.
- The OpenAI client, the SentenceTransformer model and the Chroma client are not modelled; the model stands in function values for them. Vector contents, similarity ranking and the model name `text-embedding-ada-002` are outside the model.
- Chroma's get-or-create fallback in `__init__` is not modelled. The collection is a constructor argument.
- The `print` logging, the module-level `get_chatbot` singleton and `.env` loading are left out. `datetime.now()` becomes the `now` parameter of `Chat`.
- `main.py` (HTTP routing) and `test_main.py` are not part of this model.
- Chatbot.Collection.Add: does not model the store rejecting a duplicate id or failing. `Chatbot.IdsOfSimilarTitlesCollide` shows that such duplicates can arise.
- Chatbot.Search: models the store's answer as its single row, the documents and metadatas for the one query vector sent. The nested-list shape and the emptiness guard on it are therefore not modelled separately.
- Chatbot.CreateEmbedding: states only the error case. On success the function returns the embedding service's vector unchanged.
- Chatbot.GenerateResponse: has no contract of its own, because its properties are the lemmas `GenerateFallsBack` and `GenerateSeesTopThreeAndLastThree`. It treats the model's reply text as a string. A `None` content, which would make the annotation append fail, is not modelled.
- Chatbot.CybersecurityChatbot.GetConversationHistory: returns the history as a value. Python returns the list object itself, so callers that mutate it alias the chatbot's state.
- Text.Lower: lower-cases ASCII letters, KELVIN SIGN and LATIN CAPITAL LETTER I WITH DOT ABOVE, and leaves every other character unchanged. Python lower-cases all of Unicode. No keyword in either table can be produced by lower-casing any other character.
- Text.IsSpace: lists the characters that `str.isspace` and `re`'s `\s` accept on `str` patterns.
- The three regular expressions are scanners written by hand: the heading pattern, the title pattern and the fence pattern. `HeadingMatch` and `TitleAt` carry no contract; `HeadingMatchIff`, `HeadingText` and `ShortMarksAreNotHeadings` state the semantics of the heading pattern. `TitleAtIff`, `TitlePosition`, `TitleIsFirstMatch` and `TitleFallsBackWithoutTitleLine` state those of the title pattern, and the `IsScan` contract of `FenceSpans` states those of the fence pattern. The `re` engine itself is not modelled.
