/**
 * The orchestrator: the vector store seen as the list of stored chunk
 * identifiers plus an abstract ranking, one-time population of the store,
 * the question pipeline (enhance, search, respond, remember) behind the
 * initialisation guard, and the conversation summary.
 */
module Chatbot {
  import opened Wrappers
  import opened Text
  import opened Rules
  import Documents
  import Memory
  import Responses

  /** The identifiers of `chunks`, in order. */
  function ChunkIds(chunks: seq<Documents.Chunk>): (ids: seq<string>)
    ensures |ids| == |chunks|
    ensures forall i :: 0 <= i < |ids| ==> ids[i] == chunks[i].id
  {
    seq(|chunks|, i requires 0 <= i < |chunks| => chunks[i].id)
  }

  /**
   * The vector store. Only the identifiers of the stored chunks are kept;
   * the embeddings and the similarity ranking are represented by a `rank`
   * function from a query to the stored passages, best first, or an error.
   */
  class VectorStore {
    var ids: seq<string>

    constructor(ids: seq<string>)
      ensures this.ids == ids
    {
      this.ids := ids;
    }

    /** `get_collection_info()['document_count']`: the number of stored chunks. */
    function Count(): (n: nat)
      reads this
      ensures n == |ids|
    {
      |ids|
    }

    /** `add_documents`: the chunk identifiers are gathered in order and stored after the existing ones. */
    method AddDocuments(chunks: seq<Documents.Chunk>)
      modifies this
      ensures ids == old(ids) + ChunkIds(chunks)
    {
      var added: seq<string> := [];
      var i := 0;
      while i < |chunks|
        invariant 0 <= i <= |chunks|
        invariant added == ChunkIds(chunks[..i])
      {
        added := added + [chunks[i].id];
        i := i + 1;
      }
      assert chunks[..i] == chunks;
      ids := ids + added;
    }

    /**
     * `search(query, n_results=n)`: a prefix of the ranking of at most `n`
     * hits and no more hits than stored chunks; fewer than `n` only when
     * the store or the ranking runs out. A failing ranking is passed on.
     */
    function Search(query: string, n: nat, rank: string -> Result<seq<Responses.SearchResult>, string>)
      : (r: Result<seq<Responses.SearchResult>, string>)
      reads this
      ensures r.Failure? <==> rank(query).Failure?
      ensures r.Failure? ==> r.error == rank(query).error
      ensures r.Success? ==> r.value <= rank(query).value && |r.value| <= n && |r.value| <= |ids|
      ensures r.Success? && |r.value| < n ==> |r.value| == |ids| || r.value == rank(query).value
    {
      match rank(query)
      case Failure(e) => Failure(e)
      case Success(ranked) => Success(ranked[..Min(Min(n, |ids|), |ranked|)])
    }
  }

  /**
   * The stored identifiers after `_initialize` processed `chunks`: the
   * chunks are added only when the store is empty.
   */
  function Populated(ids: seq<string>, chunks: seq<Documents.Chunk>): (r: seq<string>)
    ensures ids <= r
    ensures |ids| > 0 ==> r == ids
    ensures |ids| == 0 ==> |r| == |chunks| && forall i :: 0 <= i < |r| ==> r[i] == chunks[i].id
  {
    if |ids| == 0 then ChunkIds(chunks) else ids
  }

  /**
   * Population happens once: when the first run stored anything, a second
   * run, whatever it processed, leaves the store as it was.
   */
  lemma {:induction false} PopulatedOnce(ids: seq<string>, first: seq<Documents.Chunk>, second: seq<Documents.Chunk>)
    requires |ids| > 0 || |first| > 0
    ensures Populated(Populated(ids, first), second) == Populated(ids, first)
    ensures |Populated(ids, first)| > 0
  {
    if |ids| == 0 {
      assert |ChunkIds(first)| == |first|;
    }
  }

  /** An empty store populated from a document holds exactly one distinct identifier per chunk. */
  lemma {:induction false} PopulatedDistinct(pieces: seq<string>, ex: Documents.Extractors)
    ensures var ids := Populated([], Documents.ChunkRecords(pieces, ex));
      |ids| == |pieces| &&
      forall i, j :: 0 <= i < |ids| && 0 <= j < |ids| && i != j ==> ids[i] != ids[j]
  {
    var cs := Documents.ChunkRecords(pieces, ex);
    Documents.ChunkRecordsDistinct(pieces, ex);
    var ids := ChunkIds(cs);
    assert forall i :: 0 <= i < |ids| ==> ids[i] == cs[i].id;
  }

  /** What `ask` returns: the guard's message, the apology for a failed search, or a reply. */
  datatype Answer = NotInitialized | Apology(error: string) | Answered(reply: Responses.Reply)

  /** What `get_conversation_summary` reports. */
  datatype Summary =
    | NoHistory
    | Recap(questionsAsked: nat, currentTopic: Topic, recentTopics: set<Topic>)

  /**
   * The summary built from a `get_context` report: no history exactly when
   * nothing is recorded; otherwise the record count, the current topic and
   * the recent topics without duplicates.
   */
  function SummaryOf(c: Memory.Context): (s: Summary)
    ensures s.NoHistory? <==> c.historyLength == 0
    ensures s.Recap? ==> s.questionsAsked == c.historyLength && s.currentTopic == c.currentTopic
    ensures s.Recap? ==> forall t :: t in s.recentTopics <==> t in c.recentTopics
  {
    if c.historyLength == 0 then NoHistory
    else Recap(c.historyLength, c.currentTopic, set t | t in c.recentTopics)
  }

  /** `t` is the topic of one of the last `n` records of `h`. */
  ghost predicate AmongLast<R>(h: seq<Memory.Interaction<R>>, n: int, t: Topic) {
    exists i :: 0 <= i < |h| && |h| - n <= i && h[i].topic == t
  }

  /**
   * The summary of a non-empty history counts its records and lists exactly
   * the distinct topics of its last three records.
   */
  lemma {:induction false} SummaryOfHistory<R>(h: seq<Memory.Interaction<R>>, topic: Option<Topic>)
    requires |h| > 0
    ensures var s := SummaryOf(Memory.ContextOf(h, topic));
      && s.Recap?
      && s.questionsAsked == |h|
      && forall t :: t in s.recentTopics <==> AmongLast(h, Min(3, |h|), t)
  {
    var c := Memory.ContextOf(h, topic);
    var w := |c.recentTopics|;
    forall t ensures t in SummaryOf(c).recentTopics <==> AmongLast(h, w, t) {
      if AmongLast(h, w, t) {
        var i :| 0 <= i < |h| && |h| - w <= i && h[i].topic == t;
        assert c.recentTopics[i - (|h| - w)] == t;
      }
    }
  }

  /** The last `n` records of a suffix holding at least `n` records are the last `n` of the whole. */
  lemma {:induction false} AmongLastSuffix<R>(xs: seq<Memory.Interaction<R>>, d: nat, n: nat)
    requires d <= |xs| && n <= |xs| - d
    ensures forall t :: AmongLast(xs[d..], n, t) <==> AmongLast(xs, n, t)
  {
    var h := xs[d..];
    forall t ensures AmongLast(h, n, t) <==> AmongLast(xs, n, t) {
      if AmongLast(h, n, t) {
        var i :| 0 <= i < |h| && |h| - n <= i && h[i].topic == t;
        assert xs[i + d] == h[i];
      }
      if AmongLast(xs, n, t) {
        var i :| 0 <= i < |xs| && |xs| - n <= i && xs[i].topic == t;
        assert h[i - d] == xs[i];
      }
    }
  }

  /** Recording `xs` into an empty memory of capacity `cap` retains the last `cap` of them. */
  lemma {:induction false} RetainedAfter<R>(cap: nat, xs: seq<Memory.Interaction<R>>)
    ensures Memory.AppendedAll([], cap, xs) == xs[|xs| - Min(|xs|, cap)..]
  {
    Memory.SlidingWindow([], cap, xs);
    assert [] + xs == xs;
  }

  /**
   * After `xs` are recorded into an empty memory of capacity `cap`, the
   * summary counts the retained records, at most `cap`, not every question
   * asked, and lists exactly the distinct topics of the last three records.
   */
  lemma {:induction false} SummaryAfter<R>(cap: nat, xs: seq<Memory.Interaction<R>>, topic: Option<Topic>)
    requires cap > 0 && |xs| > 0
    ensures var s := SummaryOf(Memory.ContextOf(Memory.AppendedAll([], cap, xs), topic));
      && s.Recap?
      && s.questionsAsked == Min(|xs|, cap)
      && forall t :: t in s.recentTopics <==> AmongLast(xs, Min(3, Min(|xs|, cap)), t)
  {
    var m := Min(|xs|, cap);
    var h := xs[|xs| - m..];
    RetainedAfter(cap, xs);
    assert Memory.AppendedAll([], cap, xs) == h;
    var s := SummaryOf(Memory.ContextOf(h, topic));
    SummaryOfHistory(h, topic);
    AmongLastSuffix(xs, |xs| - m, Min(3, m));
    assert forall t :: t in s.recentTopics <==> AmongLast(h, Min(3, m), t);
  }

  /** `FinancialChatbot`: the memory, the store and whether initialisation succeeded. */
  class FinancialChatbot {
    const documentPath: string
    const memory: Memory.ConversationMemory<Responses.Reply>
    const store: VectorStore
    var isInitialized: bool

    /** The memory keeps its default capacity and stays within it. */
    ghost predicate Valid()
      reads this, memory
    {
      memory.Valid() && memory.maxHistory == Memory.DefaultMaxHistory
    }

    /** A chatbot over `store` with an empty memory, not yet initialised. */
    constructor(documentPath: string, store: VectorStore)
      ensures Valid() && fresh(memory)
      ensures this.documentPath == documentPath && this.store == store && !isInitialized
      ensures memory.history == [] && memory.currentTopic == None
    {
      this.documentPath := documentPath;
      this.store := store;
      memory := new Memory.ConversationMemory(Memory.DefaultMaxHistory);
      isInitialized := false;
    }

    /**
     * `_initialize`: `document` is the content of `documentPath`, `None`
     * when it cannot be read, in which case the error is reported and
     * nothing changes. Otherwise the chunks go into the store only when it
     * is empty, and the chatbot becomes initialised.
     */
    method Initialize(document: Option<string>, split: string -> seq<string>, ex: Documents.Extractors)
      returns (outcome: Outcome<Documents.ProcessError>)
      requires Valid()
      modifies this, store
      ensures Valid()
      ensures document.None? ==> outcome == Fail(Documents.DocumentNotFound(documentPath))
      ensures document.None? ==> isInitialized == old(isInitialized) && store.ids == old(store.ids)
      ensures document.Some? ==> outcome == Pass && isInitialized
      ensures document.Some? ==>
        store.ids == Populated(old(store.ids), Documents.ChunkRecords(split(document.value), ex))
    {
      var processed := Documents.ProcessDocument(documentPath, document, split, ex);
      if processed.Failure? {
        return Fail(processed.error);
      }
      if store.Count() == 0 {
        store.AddDocuments(processed.value);
      }
      isInitialized := true;
      outcome := Pass;
    }

    /**
     * `ask`: refused before initialisation; otherwise the question is
     * enhanced with the current topic, searched for three hits, and
     * answered from them. A failed search yields an apology and is not
     * remembered; an answer is remembered under the ORIGINAL question,
     * whose topic becomes current.
     */
    method Ask(question: string, rank: string -> Result<seq<Responses.SearchResult>, string>) returns (answer: Answer)
      requires Valid()
      modifies memory
      ensures Valid()
      ensures !isInitialized ==> answer == NotInitialized
      ensures var found := store.Search(Memory.Enhance(question, old(memory.currentTopic)), 3, rank);
        isInitialized && found.Failure? ==> answer == Apology(found.error)
      ensures answer.NotInitialized? || answer.Apology? ==>
        memory.history == old(memory.history) && memory.currentTopic == old(memory.currentTopic)
      ensures var enhanced := Memory.Enhance(question, old(memory.currentTopic));
        var found := store.Search(enhanced, 3, rank);
        isInitialized && found.Success? ==>
          && answer == Answered(Responses.ResponseFor(enhanced, found.value))
          && memory.history == Memory.Appended(old(memory.history), Memory.DefaultMaxHistory,
               Memory.Interaction(question, answer.reply, Memory.IdentifyTopic(question)))
          && memory.currentTopic == Some(Memory.IdentifyTopic(question))
    {
      if !isInitialized {
        return NotInitialized;
      }
      var enhanced := memory.EnhanceQuestion(question);
      var found := store.Search(enhanced, 3, rank);
      if found.Failure? {
        return Apology(found.error);
      }
      var reply := Responses.GenerateResponse(enhanced, found.value);
      memory.AddInteraction(question, reply);
      answer := Answered(reply);
    }

    /**
     * `get_conversation_summary`: no history exactly when the memory is
     * empty; otherwise the number of retained records and the current topic,
     * `General` when none is set.
     */
    function ConversationSummary(): (s: Summary)
      reads this, memory
      ensures s.NoHistory? <==> |memory.history| == 0
      ensures s.Recap? ==> s.questionsAsked == |memory.history| && s.currentTopic == memory.currentTopic.GetOr(General)
    {
      SummaryOf(memory.GetContext())
    }
  }
}
