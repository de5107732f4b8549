/** The retrieval-augmented tutor (`CybersecurityChatbot` in backend/app/chatbot.py):
    flattening processed files into index entries, loading them in batches,
    retrieval, prompt assembly, the keyword annotator and the conversation
    history. The embedding service, the vector store's similarity search and
    the language model are opaque functions passed in. */
module Chatbot {
  import opened Text
  import ContentProcessor

  /** `xs[:n]` */
  function Take<T>(xs: seq<T>, n: nat): (r: seq<T>)
    ensures |r| == Min(n, |xs|) && r == xs[..|r|]
  {
    xs[..Min(n, |xs|)]
  }

  // ================================================================ index entries

  /** a vector: only whether it is empty matters here */
  type Embedding = seq<real>

  /** a section as stored in the processed-content file, with the embedding
      the ingestion step may have attached */
  datatype StoredSection = StoredSection(heading: string, content: string, wordCount: nat, embedding: Option<Embedding>)

  /** one file of the processed-content file */
  datatype StoredFile = StoredFile(title: string, filePath: string, sections: seq<StoredSection>, metadata: ContentProcessor.Metadata)

  /** the metadata stored beside each indexed section; `topics` is comma-joined */
  datatype IndexMetadata = IndexMetadata(
    title: string, heading: string, platform: string, difficulty: string,
    topics: string, wordCount: nat, filePath: string)

  /** one row of the vector index: a document, its vector, its metadata and its id */
  datatype Item = Item(document: string, embedding: Embedding, metadata: IndexMetadata, id: string)

  /** `section.get("embedding")` is truthy: present and not an empty list */
  predicate HasEmbedding(s: StoredSection) {
    s.embedding.Some? && s.embedding.value != []
  }

  /** the id of section `i` of a file titled `title` */
  function IdFor(title: string, i: nat): string {
    ReplaceChar(title, ' ', '_') + "_" + Decimal(i)
  }

  /** the index row built from section `i` of `f` */
  function IndexEntry(f: StoredFile, i: nat): Item
    requires i < |f.sections| && HasEmbedding(f.sections[i])
  {
    var s := f.sections[i];
    Item(s.content, s.embedding.value,
         IndexMetadata(f.title, s.heading, f.metadata.platform, f.metadata.difficulty,
                       Join(f.metadata.topics, ","), s.wordCount, f.filePath),
         IdFor(f.title, i))
  }

  /** the rows contributed by the first `n` sections of `f`, in section order */
  function CollectFile(f: StoredFile, n: nat): seq<Item>
    requires n <= |f.sections|
  {
    if n == 0 then []
    else CollectFile(f, n - 1) + (if HasEmbedding(f.sections[n - 1]) then [IndexEntry(f, n - 1)] else [])
  }

  /** the rows contributed by all the files, in file order */
  function Collected(files: seq<StoredFile>): seq<Item> {
    if files == [] then []
    else
      var last := files[|files| - 1];
      Collected(files[..|files| - 1]) + CollectFile(last, |last.sections|)
  }

  /** four parallel lists that, read position by position, are `items` */
  predicate Parallel(documents: seq<string>, embeddings: seq<Embedding>, metadatas: seq<IndexMetadata>,
                     ids: seq<string>, items: seq<Item>)
  {
    && |documents| == |items| && |embeddings| == |items| && |metadatas| == |items| && |ids| == |items|
    && forall k :: 0 <= k < |items| ==> items[k] == Item(documents[k], embeddings[k], metadatas[k], ids[k])
  }

  /** The loops of `load_processed_content` that build the four parallel
      lists: one row per section with an embedding, files and sections in order. */
  method CollectSections(files: seq<StoredFile>)
    returns (documents: seq<string>, embeddings: seq<Embedding>, metadatas: seq<IndexMetadata>, ids: seq<string>)
    ensures Parallel(documents, embeddings, metadatas, ids, Collected(files))
  {
    documents, embeddings, metadatas, ids := [], [], [], [];
    for f := 0 to |files|
      invariant Parallel(documents, embeddings, metadatas, ids, Collected(files[..f]))
    {
      var file := files[f];
      ghost var before := Collected(files[..f]);
      for i := 0 to |file.sections|
        invariant Parallel(documents, embeddings, metadatas, ids, before + CollectFile(file, i))
      {
        var section := file.sections[i];
        if section.embedding.Some? && section.embedding.value != [] {
          documents := documents + [section.content];
          embeddings := embeddings + [section.embedding.value];
          var metadata := IndexMetadata(file.title, section.heading, file.metadata.platform,
                                        file.metadata.difficulty, Join(file.metadata.topics, ","),
                                        section.wordCount, file.filePath);
          metadatas := metadatas + [metadata];
          ids := ids + [ReplaceChar(file.title, ' ', '_') + "_" + Decimal(i)];
        }
      }
      assert files[..f + 1][..f] == files[..f];
    }
    assert files[..|files|] == files;
  }

  /** Ids of one file's sections differ, because the section index is part of the id. */
  lemma IdForInjective(title: string, i: nat, j: nat)
    requires IdFor(title, i) == IdFor(title, j)
    ensures i == j
  {
    var prefix := ReplaceChar(title, ' ', '_') + "_";
    assert IdFor(title, i)[|prefix|..] == Decimal(i);
    assert IdFor(title, j)[|prefix|..] == Decimal(j);
    DecimalInjective(i, j);
  }

  /** Titles that differ only in a space versus an underscore give the same ids. */
  lemma IdsOfSimilarTitlesCollide()
    ensures IdFor("a b", 0) == IdFor("a_b", 0)
  {
    assert ReplaceChar("a b", ' ', '_') == "a_b";
    assert ReplaceChar("a_b", ' ', '_') == "a_b";
  }

  /** Section `i` of `f` yields a row exactly when it has an embedding; the
      row's id carries `i`, so skipped sections still use up their index. */
  lemma CollectFileIff(f: StoredFile, n: nat, i: nat)
    requires i < n <= |f.sections|
    ensures (exists x :: x in CollectFile(f, n) && x.id == IdFor(f.title, i)) <==> HasEmbedding(f.sections[i])
  {
    if HasEmbedding(f.sections[i]) {
      CollectFileHas(f, n, i);
      assert IndexEntry(f, i).id == IdFor(f.title, i);
    }
    if x :| x in CollectFile(f, n) && x.id == IdFor(f.title, i) {
      CollectFileRows(f, n);
      var j: nat :| j < n && HasEmbedding(f.sections[j]) && x == IndexEntry(f, j);
      IdForInjective(f.title, i, j);
    }
  }

  /** a section with an embedding has its row among the rows of the file */
  lemma {:induction false} CollectFileHas(f: StoredFile, n: nat, i: nat)
    requires i < n <= |f.sections| && HasEmbedding(f.sections[i])
    ensures IndexEntry(f, i) in CollectFile(f, n)
    decreases n
  {
    if i < n - 1 {
      CollectFileHas(f, n - 1, i);
    }
  }

  /** every row of `CollectFile(f, n)` is built from a section below `n` that has an embedding */
  lemma {:induction false} CollectFileRows(f: StoredFile, n: nat)
    requires n <= |f.sections|
    ensures forall x :: x in CollectFile(f, n) ==>
      exists j: nat :: j < n && HasEmbedding(f.sections[j]) && x == IndexEntry(f, j)
    decreases n
  {
    if n > 0 {
      CollectFileRows(f, n - 1);
    }
  }

  // ================================================================ batches

  const BatchSize: nat := 100

  /** `xs` cut into consecutive slices of `BatchSize`, the last one possibly shorter */
  function Batches<T>(xs: seq<T>): seq<seq<T>>
    decreases |xs|
  {
    if xs == [] then []
    else
      var e := Min(BatchSize, |xs|);
      [xs[..e]] + Batches(xs[e..])
  }

  function Flatten<T>(xss: seq<seq<T>>): seq<T> {
    if xss == [] then [] else xss[0] + Flatten(xss[1..])
  }

  /** Batch `k` is the slice `[100k, min(100k + 100, n))`. */
  lemma {:induction false} BatchAt<T>(xs: seq<T>, k: nat)
    requires k < |Batches(xs)|
    ensures k * BatchSize < |xs|
    ensures Batches(xs)[k] == xs[k * BatchSize..Min(k * BatchSize + BatchSize, |xs|)]
    decreases |xs|
  {
    var e := Min(BatchSize, |xs|);
    if k > 0 {
      var rest := xs[e..];
      assert Batches(xs)[k] == Batches(rest)[k - 1];
      BatchAt(rest, k - 1);
      assert e == BatchSize;
      assert rest[(k - 1) * BatchSize..Min((k - 1) * BatchSize + BatchSize, |rest|)]
          == xs[k * BatchSize..Min(k * BatchSize + BatchSize, |xs|)];
    }
  }

  /** The batches hold every item once, in order. */
  lemma {:induction false} BatchesCover<T>(xs: seq<T>)
    ensures Flatten(Batches(xs)) == xs
    decreases |xs|
  {
    if xs != [] {
      var e := Min(BatchSize, |xs|);
      BatchesCover(xs[e..]);
      assert xs[..e] + xs[e..] == xs;
    }
  }

  /** Every batch has between 1 and 100 items, and there are ceil(n / 100) of
      them; in particular an empty list gives no batch. */
  lemma {:induction false} BatchSizes<T>(xs: seq<T>)
    ensures |Batches(xs)| == (|xs| + BatchSize - 1) / BatchSize
    ensures forall k :: 0 <= k < |Batches(xs)| ==> 0 < |Batches(xs)[k]| <= BatchSize
    decreases |xs|
  {
    if xs != [] {
      var e := Min(BatchSize, |xs|);
      BatchSizes(xs[e..]);
      var b := Batches(xs);
      assert b == [xs[..e]] + Batches(xs[e..]);
      forall k | 0 <= k < |b| ensures 0 < |b[k]| <= BatchSize {
        if k > 0 { assert b[k] == Batches(xs[e..])[k - 1]; }
      }
    }
  }

  /** the batches from position `i` on: the slice `[i, min(i + 100, n))`, then the rest */
  lemma BatchesFrom<T>(xs: seq<T>, i: nat)
    requires i < |xs|
    ensures Batches(xs[i..]) == [xs[i..Min(i + BatchSize, |xs|)]] + Batches(xs[Min(i + BatchSize, |xs|)..])
  {
    var rest := xs[i..];
    assert rest[..Min(BatchSize, |rest|)] == xs[i..Min(i + BatchSize, |xs|)];
    assert rest[Min(BatchSize, |rest|)..] == xs[Min(i + BatchSize, |xs|)..];
  }

  /** slicing four parallel lists slices the rows they stand for */
  lemma ParallelSlice(documents: seq<string>, embeddings: seq<Embedding>, metadatas: seq<IndexMetadata>,
                      ids: seq<string>, items: seq<Item>, i: nat, j: nat)
    requires Parallel(documents, embeddings, metadatas, ids, items) && i <= j <= |items|
    ensures Parallel(documents[i..j], embeddings[i..j], metadatas[i..j], ids[i..j], items[i..j])
  {
  }

  /** four parallel lists stand for one list of rows only */
  lemma ParallelUnique(documents: seq<string>, embeddings: seq<Embedding>, metadatas: seq<IndexMetadata>,
                       ids: seq<string>, a: seq<Item>, b: seq<Item>)
    requires Parallel(documents, embeddings, metadatas, ids, a) && Parallel(documents, embeddings, metadatas, ids, b)
    ensures a == b
  {
  }

  /** the rows four parallel lists stand for */
  function Rows(documents: seq<string>, embeddings: seq<Embedding>, metadatas: seq<IndexMetadata>, ids: seq<string>): (r: seq<Item>)
    requires |embeddings| == |documents| && |metadatas| == |documents| && |ids| == |documents|
    ensures Parallel(documents, embeddings, metadatas, ids, r)
  {
    seq(|documents|, k requires 0 <= k < |documents| => Item(documents[k], embeddings[k], metadatas[k], ids[k]))
  }

  /** the vector store's collection */
  class Collection {
    /** the rows of each `add` call so far, in call order */
    var added: seq<seq<Item>>
    /** the store's similarity search over what has been added */
    const search: (seq<seq<Item>>, QueryRequest) -> Result<QueryResult>

    constructor (search: (seq<seq<Item>>, QueryRequest) -> Result<QueryResult>)
      ensures added == [] && this.search == search
    {
      added := [];
      this.search := search;
    }

    /** `collection.add`: the four lists must be parallel */
    method Add(documents: seq<string>, embeddings: seq<Embedding>, metadatas: seq<IndexMetadata>, ids: seq<string>)
      requires |embeddings| == |documents| && |metadatas| == |documents| && |ids| == |documents|
      modifies this
      ensures added == old(added) + [Rows(documents, embeddings, metadatas, ids)]
    {
      added := added + [Rows(documents, embeddings, metadatas, ids)];
    }
  }

  // ================================================================ retrieval

  /** the filter of a query: `{"platform": p}` */
  datatype Where = Where(platform: string)

  /** what `collection.query` is asked: one query vector, a result count, an optional filter */
  datatype QueryRequest = QueryRequest(queryEmbeddings: seq<Embedding>, nResults: int, where: Option<Where>)

  /** the one row of `collection.query`'s answer for the one query vector sent */
  datatype QueryResult = QueryResult(documents: seq<string>, metadatas: seq<IndexMetadata>)

  /** `{"documents": [[]], "metadatas": [[]]}` */
  const EmptyResult := QueryResult([], [])

  /** `create_embedding`: the service sees at most the first 8000 characters; a failure gives `[]` */
  function CreateEmbedding(text: string, embed: string -> Result<Embedding>): (e: Embedding)
    ensures embed(Take(text, 8000)).Err? ==> e == []
  {
    match embed(Take(text, 8000))
    case Ok(v) => v
    case Err(_) => []
  }

  /** Two texts that agree on their first 8000 characters get the same embedding. */
  lemma EmbeddingSeesOnlyPrefix(a: string, b: string, embed: string -> Result<Embedding>)
    requires Take(a, 8000) == Take(b, 8000)
    ensures CreateEmbedding(a, embed) == CreateEmbedding(b, embed)
  {
  }

  /** the filter is built only for a truthy (present, non-empty) platform */
  function WhereFor(platform: Option<string>): (w: Option<Where>)
    ensures w.Some? <==> platform.Some? && platform.value != ""
    ensures w.Some? ==> w.value.platform == platform.value
  {
    if platform.Some? && platform.value != "" then Some(Where(platform.value)) else None
  }

  /** `search_relevant_content` */
  function Search(query: string, platform: Option<string>, nResults: int,
                  embed: string -> Result<Embedding>, queryFn: QueryRequest -> Result<QueryResult>): QueryResult
  {
    var e := CreateEmbedding(query, embed);
    if e == [] then EmptyResult
    else
      match queryFn(QueryRequest([e], nResults, WhereFor(platform)))
      case Ok(r) => r
      case Err(_) => EmptyResult
  }

  /** Without a query vector the result is empty and the store is never asked:
      any two stores give the same answer. */
  lemma SearchWithoutEmbedding(query: string, platform: Option<string>, nResults: int,
                               embed: string -> Result<Embedding>, f: QueryRequest -> Result<QueryResult>,
                               g: QueryRequest -> Result<QueryResult>)
    requires CreateEmbedding(query, embed) == []
    ensures Search(query, platform, nResults, embed, f) == EmptyResult
    ensures Search(query, platform, nResults, embed, f) == Search(query, platform, nResults, embed, g)
  {
  }

  /** With a query vector, the store is asked for that vector, the result count
      and the platform filter; its answer is returned, and a failure gives the
      empty result. */
  lemma SearchAsksStore(query: string, platform: Option<string>, nResults: int,
                        embed: string -> Result<Embedding>, queryFn: QueryRequest -> Result<QueryResult>)
    requires CreateEmbedding(query, embed) != []
    ensures var request := QueryRequest([CreateEmbedding(query, embed)], nResults, WhereFor(platform));
      && (queryFn(request).Ok? ==> Search(query, platform, nResults, embed, queryFn) == queryFn(request).value)
      && (queryFn(request).Err? ==> Search(query, platform, nResults, embed, queryFn) == EmptyResult)
  {
  }

  // ================================================================ prompt

  const PicoContext := "Focus on CTF competition format, educational challenges, and step-by-step problem solving. Emphasize learning fundamentals."
  const HackTheBoxContext := "Emphasize penetration testing methodology, realistic attack scenarios, and professional red team techniques."
  const TryHackMeContext := "Highlight guided learning paths, structured rooms, and hands-on practice with clear objectives."
  const GeneralContext := "Provide general cybersecurity education applicable across different learning platforms and contexts."

  /** `get_platform_context`: exact, case-sensitive keys; anything else,
      `None` included, gets the general entry */
  function PlatformContext(platform: Option<string>): (r: string)
    ensures (r == PicoContext) <==> platform == Some("picoCTF")
    ensures (r == HackTheBoxContext) <==> platform == Some("hackthebox")
    ensures (r == TryHackMeContext) <==> platform == Some("tryhackme")
    ensures (r == GeneralContext) <==> platform !in {Some("picoCTF"), Some("hackthebox"), Some("tryhackme")}
  {
    match platform
    case Some(p) =>
      if p == "picoCTF" then PicoContext
      else if p == "hackthebox" then HackTheBoxContext
      else if p == "tryhackme" then TryHackMeContext
      else GeneralContext
    case None => GeneralContext
  }

  /** one retrieved section, as the knowledge base lists it */
  function RenderSource(document: string, metadata: IndexMetadata): string {
    "**" + metadata.heading + "** (from " + metadata.title + "):\n" + document
  }

  /** the rendered pairs of `zip(documents, metadatas)` */
  function Sources(documents: seq<string>, metadatas: seq<IndexMetadata>): (r: seq<string>)
    ensures |r| == Min(|documents|, |metadatas|)
  {
    var n := Min(|documents|, |metadatas|);
    seq(n, k requires 0 <= k < n => RenderSource(documents[k], metadatas[k]))
  }

  /** the knowledge-base block of the prompt: the first three retrieved
      sections, separated by blank lines */
  function KnowledgeBlock(documents: seq<string>, metadatas: seq<IndexMetadata>): string {
    if documents == [] then ""
    else Join(Take(Sources(documents, metadatas), 3), "\n\n")
  }

  /** joining a non-empty list whose first part is non-empty gives a non-empty text */
  lemma JoinNonEmpty(parts: seq<string>, sep: string)
    requires parts != [] && parts[0] != ""
    ensures Join(parts, sep) != ""
  {
    if |parts| > 1 {
      assert Join(parts, sep)[..|parts[0]|] == parts[0];
    }
  }

  /** The knowledge block is empty exactly when there is nothing to zip. */
  lemma KnowledgeBlockEmptyIff(documents: seq<string>, metadatas: seq<IndexMetadata>)
    ensures KnowledgeBlock(documents, metadatas) == "" <==> documents == [] || metadatas == []
  {
    if documents != [] && metadatas != [] {
      var parts := Take(Sources(documents, metadatas), 3);
      assert parts[0][..2] == "**";
      JoinNonEmpty(parts, "\n\n");
    }
  }

  /** Only the first three retrieved sections reach the prompt. */
  lemma KnowledgeBlockTopThree(documents: seq<string>, metadatas: seq<IndexMetadata>)
    ensures KnowledgeBlock(documents, metadatas) == KnowledgeBlock(Take(documents, 3), Take(metadatas, 3))
  {
    var a := Take(Sources(documents, metadatas), 3);
    var b := Take(Sources(Take(documents, 3), Take(metadatas, 3)), 3);
    assert a == b;
  }

  /** With three or more sections the block is the first three, rendered and
      separated by blank lines. */
  lemma KnowledgeBlockOfThree(documents: seq<string>, metadatas: seq<IndexMetadata>)
    requires |documents| >= 3 && |metadatas| >= 3
    ensures KnowledgeBlock(documents, metadatas)
         == RenderSource(documents[0], metadatas[0]) + "\n\n"
          + RenderSource(documents[1], metadatas[1]) + "\n\n"
          + RenderSource(documents[2], metadatas[2])
  {
    var parts := Take(Sources(documents, metadatas), 3);
    assert |parts| == 3;
    assert Join(parts[1..][1..], "\n\n") == parts[2];
    assert Join(parts[1..], "\n\n") == parts[1] + "\n\n" + parts[2];
    assert parts[0] == RenderSource(documents[0], metadatas[0]);
    assert parts[1] == RenderSource(documents[1], metadatas[1]);
    assert parts[2] == RenderSource(documents[2], metadatas[2]);
  }

  /** one exchange of the conversation */
  datatype Turn = Turn(user: string, bot: string, timestamp: string, platform: Option<string>, sourcesUsed: nat)

  /** one past exchange, as the prompt recalls it: the reply clipped to 200 characters */
  function RenderTurn(t: Turn): string {
    "User: " + t.user + "\nAssistant: " + Take(t.bot, 200) + "..."
  }

  /** the recent-conversation block of the prompt: the last three exchanges,
      oldest first, one after another */
  function HistoryBlock(history: seq<Turn>): string {
    if history == [] then ""
    else
      var recent := history[|history| - Min(3, |history|)..];
      Join(seq(|recent|, k requires 0 <= k < |recent| => RenderTurn(recent[k])), "\n")
  }

  /** The history block is empty exactly when there is no history. */
  lemma HistoryBlockEmptyIff(history: seq<Turn>)
    ensures HistoryBlock(history) == "" <==> history == []
  {
    if history != [] {
      var recent := history[|history| - Min(3, |history|)..];
      var parts := seq(|recent|, k requires 0 <= k < |recent| => RenderTurn(recent[k]));
      assert parts[0][..6] == "User: ";
      JoinNonEmpty(parts, "\n");
    }
  }

  /** Turns older than the last three do not reach the prompt. */
  lemma HistoryBlockLastThree(older: seq<Turn>, recent: seq<Turn>)
    requires |recent| >= 3
    ensures HistoryBlock(older + recent) == HistoryBlock(recent)
  {
    var h := older + recent;
    assert h[|h| - 3..] == recent[|recent| - 3..];
  }

  /** With three or more turns the block is the last three, each clipped,
      on consecutive lines. */
  lemma HistoryBlockOfThree(history: seq<Turn>)
    requires |history| >= 3
    ensures var n := |history|;
      HistoryBlock(history)
        == RenderTurn(history[n - 3]) + "\n" + RenderTurn(history[n - 2]) + "\n" + RenderTurn(history[n - 1])
  {
    var n := |history|;
    var recent := history[n - 3..];
    var parts := seq(|recent|, k requires 0 <= k < |recent| => RenderTurn(recent[k]));
    assert |parts| == 3;
    assert Join(parts[1..][1..], "\n") == parts[2];
    assert Join(parts[1..], "\n") == parts[1] + "\n" + parts[2];
  }

  /** A single past turn is recalled as `User: …`, a line break, and the
      first 200 characters of the reply followed by `...`. */
  lemma HistoryBlockOfOne(t: Turn)
    ensures HistoryBlock([t]) == "User: " + t.user + "\nAssistant: " + t.bot[..Min(200, |t.bot|)] + "..."
  {
  }

  const PromptIntro := "You are CyberMentor, a friendly and knowledgeable cybersecurity tutor designed to help beginners learn cybersecurity concepts.\n\nYour personality:\n- Encouraging and supportive\n- Enthusiastic about cybersecurity\n- Patient with beginners\n- Use analogies and real-world examples\n- Avoid overwhelming technical jargon\n\nPlatform context: "
  const PromptTeaching := "\n\nYour teaching approach:\n1. Start with a simple, clear explanation\n2. Use analogies when helpful (like comparing buffer overflows to overfilling a cup)\n3. Connect concepts to real-world cybersecurity incidents\n4. Provide practical next steps for learning\n5. Encourage hands-on practice\n\nAvailable knowledge base:\n"
  const PromptRecent := "\n\nRecent conversation context:\n"
  const PromptGuidelines := "\n\nGuidelines:\n- Keep responses under 300 words for better readability\n- Use bullet points for lists or steps\n- Include encouragement and motivation\n- If you don't know something, admit it and suggest how to find out\n- Always relate concepts back to practical cybersecurity skills"

  /** the system prompt of `generate_response`, around its three blocks */
  function SystemPrompt(platformContext: string, contextText: string, historyContext: string): string {
    PromptIntro + platformContext + PromptTeaching + contextText + PromptRecent + historyContext + PromptGuidelines
  }

  datatype Message = Message(role: string, content: string)

  /** a chat-completion request */
  datatype ChatRequest = ChatRequest(model: string, messages: seq<Message>, temperature: real, maxTokens: nat)

  /** the request `generate_response` sends for `query` */
  function ChatRequestFor(query: string, context: QueryResult, platform: Option<string>, history: seq<Turn>): ChatRequest {
    var prompt := SystemPrompt(PlatformContext(platform), KnowledgeBlock(context.documents, context.metadatas), HistoryBlock(history));
    ChatRequest("gpt-4", [Message("system", prompt), Message("user", query)], 0.7, 400)
  }

  const Apology := "I'm having trouble generating a response right now. Please try again in a moment."

  /** `generate_response`: the model's answer, or the apology when the call fails */
  function GenerateResponse(query: string, context: QueryResult, platform: Option<string>, history: seq<Turn>,
                            llm: ChatRequest -> Result<string>): string
  {
    match llm(ChatRequestFor(query, context, platform, history))
    case Ok(text) => text
    case Err(_) => Apology
  }

  /** A failed model call yields the fixed apology. */
  lemma GenerateFallsBack(query: string, context: QueryResult, platform: Option<string>, history: seq<Turn>,
                          llm: ChatRequest -> Result<string>)
    requires llm(ChatRequestFor(query, context, platform, history)).Err?
    ensures GenerateResponse(query, context, platform, history, llm) == Apology
  {
  }

  /** Retrieved sections past the third, and turns before the last three,
      never reach the request sent to the model. */
  lemma RequestSeesTopThreeAndLastThree(query: string, documents: seq<string>, metadatas: seq<IndexMetadata>,
                                        platform: Option<string>, older: seq<Turn>, recent: seq<Turn>)
    requires |recent| >= 3
    ensures ChatRequestFor(query, QueryResult(documents, metadatas), platform, older + recent)
         == ChatRequestFor(query, QueryResult(Take(documents, 3), Take(metadatas, 3)), platform, recent)
  {
    KnowledgeBlockTopThree(documents, metadatas);
    HistoryBlockLastThree(older, recent);
  }

  /** Hence, with the model a function of its request, they cannot change the answer. */
  lemma GenerateSeesTopThreeAndLastThree(query: string, documents: seq<string>, metadatas: seq<IndexMetadata>,
                                         platform: Option<string>, older: seq<Turn>, recent: seq<Turn>,
                                         llm: ChatRequest -> Result<string>)
    requires |recent| >= 3
    ensures GenerateResponse(query, QueryResult(documents, metadatas), platform, older + recent, llm)
         == GenerateResponse(query, QueryResult(Take(documents, 3), Take(metadatas, 3)), platform, recent, llm)
  {
    RequestSeesTopThreeAndLastThree(query, documents, metadatas, platform, older, recent);
  }

  // ================================================================ annotator

  /** `real_world_examples`, in the order it is scanned */
  const RealWorldExamples: seq<(string, string)> := [
    ("sql", "\U{f0}\U{178}\U{2019}\U{a1} **Real-world impact**: SQL injection was used in major breaches like Equifax (2017) and continues to be a top web vulnerability."),
    ("xss", "\U{f0}\U{178}\U{2019}\U{a1} **Real-world impact**: Cross-site scripting affects 64% of web applications and was used in attacks against Twitter and Facebook."),
    ("buffer", "\U{f0}\U{178}\U{2019}\U{a1} **Real-world impact**: Buffer overflows were behind major vulnerabilities like Heartbleed and many Windows security patches."),
    ("crypto", "\U{f0}\U{178}\U{2019}\U{a1} **Real-world impact**: Weak cryptography led to breaches at Adobe (2013) and continues to expose sensitive data."),
    ("steganography", "\U{f0}\U{178}\U{2019}\U{a1} **Real-world impact**: Steganography has been used by cybercriminals to hide malware and by nation-state actors for covert communication."),
    ("network", "\U{f0}\U{178}\U{2019}\U{a1} **Real-world impact**: Network attacks like man-in-the-middle were used in major corporate espionage cases.")
  ]

  /** the entry of the first key, from `k` on, that occurs in `text` */
  function FirstMatch(table: seq<(string, string)>, text: string, k: nat): (r: Option<string>)
    requires k <= |table|
    ensures r.None? <==> forall j :: k <= j < |table| ==> !Contains(text, table[j].0)
    ensures r.Some? ==> exists j :: k <= j < |table| && Contains(text, table[j].0) && r.value == table[j].1
                                    && forall i :: k <= i < j ==> !Contains(text, table[i].0)
    decreases |table| - k
  {
    if k == |table| then None
    else if Contains(text, table[k].0) then Some(table[k].1)
    else FirstMatch(table, text, k + 1)
  }

  /** `add_real_world_context` */
  function RealWorldContext(topic: string): Option<string> {
    FirstMatch(RealWorldExamples, Lower(topic), 0)
  }

  /** A topic mentioning SQL in any letter case gets the SQL entry, whatever else it mentions. */
  lemma SqlComesFirst(topic: string)
    requires Contains(Lower(topic), "sql")
    ensures RealWorldContext(topic) == Some(RealWorldExamples[0].1)
  {
  }

  /** A topic mentioning XSS but not SQL gets the XSS entry. */
  lemma XssWithoutSql(topic: string)
    requires Contains(Lower(topic), "xss") && !Contains(Lower(topic), "sql")
    ensures RealWorldContext(topic) == Some(RealWorldExamples[1].1)
  {
    var text := Lower(topic);
    assert RealWorldExamples[0].0 == "sql" && RealWorldExamples[1].0 == "xss";
    assert FirstMatch(RealWorldExamples, text, 0) == FirstMatch(RealWorldExamples, text, 1);
  }

  /** The annotation ignores letter case. */
  lemma RealWorldContextIgnoresCase(topic: string)
    ensures RealWorldContext(Lower(topic)) == RealWorldContext(topic)
  {
    LowerIdempotent(topic);
  }

  /** The annotation is absent exactly when no key occurs in the lower-cased topic. */
  lemma RealWorldContextNoneIff(topic: string)
    ensures RealWorldContext(topic).None? <==> forall j :: 0 <= j < |RealWorldExamples| ==> !Contains(Lower(topic), RealWorldExamples[j].0)
  {
  }

  // ================================================================ conversation

  /** the reply text: the generated answer, followed by a blank line and the annotation when there is one */
  function WithAnnotation(generated: string, annotation: Option<string>): (r: string)
    ensures annotation.None? ==> r == generated
    ensures annotation.Some? ==> |generated| <= |r| && r[..|generated|] == generated && r[|generated|..] == "\n\n" + annotation.value
  {
    match annotation
    case Some(a) => generated + "\n\n" + a
    case None => generated
  }

  /** what `chat` returns */
  datatype ChatReply = ChatReply(response: string, timestamp: string, sourcesUsed: nat)

  class CybersecurityChatbot {
    const embed: string -> Result<Embedding>
    const llm: ChatRequest -> Result<string>
    const collection: Collection
    var conversationHistory: seq<Turn>

    constructor (embed: string -> Result<Embedding>, llm: ChatRequest -> Result<string>, collection: Collection)
      ensures this.embed == embed && this.llm == llm && this.collection == collection
      ensures conversationHistory == []
    {
      this.embed := embed;
      this.llm := llm;
      this.collection := collection;
      conversationHistory := [];
    }

    /** `load_processed_content` once the file has been parsed: the rows go to
        the collection in batches of 100, in order */
    method LoadProcessedContent(files: seq<StoredFile>)
      modifies collection
      ensures collection.added == old(collection.added) + Batches(Collected(files))
    {
      var documents, embeddings, metadatas, ids := CollectSections(files);
      ghost var items := Collected(files);
      var n := |documents|;
      var i := 0;
      while i < n
        invariant 0 <= i
        invariant collection.added + Batches(items[Min(i, n)..]) == old(collection.added) + Batches(items)
      {
        var batchEnd := Min(i + BatchSize, n);
        BatchesFrom(items, i);
        ParallelSlice(documents, embeddings, metadatas, ids, items, i, batchEnd);
        collection.Add(documents[i..batchEnd], embeddings[i..batchEnd], metadatas[i..batchEnd], ids[i..batchEnd]);
        ParallelUnique(documents[i..batchEnd], embeddings[i..batchEnd], metadatas[i..batchEnd], ids[i..batchEnd],
                       Rows(documents[i..batchEnd], embeddings[i..batchEnd], metadatas[i..batchEnd], ids[i..batchEnd]),
                       items[i..batchEnd]);
        i := i + BatchSize;
      }
    }

    /** `search_relevant_content` against this chatbot's services */
    function Retrieve(query: string, platform: Option<string>, nResults: int): QueryResult
      reads this, collection
    {
      var added := collection.added;
      var search := collection.search;
      Search(query, platform, nResults, embed, request => search(added, request))
    }

    /** `chat`: answer with the history as it stood, then append exactly one turn */
    method Chat(userMessage: string, platform: Option<string>, now: string) returns (reply: ChatReply)
      modifies this
      ensures var found := old(Retrieve(userMessage, platform, 5));
        && reply.response == WithAnnotation(GenerateResponse(userMessage, found, platform, old(conversationHistory), llm),
                                            RealWorldContext(userMessage))
        && reply.timestamp == now
        && reply.sourcesUsed == |found.documents|
      ensures conversationHistory == old(conversationHistory)
                                     + [Turn(userMessage, reply.response, now, platform, reply.sourcesUsed)]
    {
      var relevant := Retrieve(userMessage, platform, 5);
      var response := GenerateResponse(userMessage, relevant, platform, conversationHistory, llm);
      var annotation := RealWorldContext(userMessage);
      if annotation.Some? {
        response := response + "\n\n" + annotation.value;
      }
      var entry := Turn(userMessage, response, now, platform, |relevant.documents|);
      conversationHistory := conversationHistory + [entry];
      reply := ChatReply(entry.bot, entry.timestamp, entry.sourcesUsed);
    }

    /** `get_conversation_history` */
    method GetConversationHistory() returns (history: seq<Turn>)
      ensures history == conversationHistory
    {
      history := conversationHistory;
    }

    /** `clear_conversation_history` */
    method ClearConversationHistory()
      modifies this
      ensures conversationHistory == []
    {
      conversationHistory := [];
    }
  }
}
