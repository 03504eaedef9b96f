/**
 * The streaming answer pipeline of app/services/rag_service.py and its history write.
 *
 * stream_rag_answer is a generator; here it is a method that returns everything the generator
 * yields (fragments), the writes it starts (effects: the background cache write and the history
 * save, in the order they are started) and how the generator ends. The answer cache is read
 * through CacheService.RedisCache; the vector retriever, the LLM chain and json.dumps are inputs:
 *   retrieve(question, k)  what retriever.invoke gives for a k-nearest query (or the error it raised),
 *   generate(question, docs)  the tokens the LLM callback delivers, an optional error that ends the
 *                             token iteration, and an optional error raised by `await task`,
 *   dumps(metadata)  json.dumps(metadata, ensure_ascii=False).
 */
module RagService {

  import opened Wrappers
  import opened Text
  import opened PyDict
  import opened Documents
  import opened ChatModels
  import CacheService

  // ---------------------------------------------------------------------------
  // _save_chat_to_db

  /** question[:30] */
  function Title(question: string): (t: string)
    ensures |t| == if |question| < 30 then |question| else 30
    ensures StartsWith(question, t)
  {
    if |question| < 30 then question else question[..30]
  }

  /** Which of the two commits of _save_chat_to_db the database refuses. */
  datatype SaveFaults = SaveFaults(firstCommitFails: bool, secondCommitFails: bool)

  /**
   * _save_chat_to_db: commit a new conversation titled with the question's first 30 characters,
   * then commit the user's question and the assistant's answer as two messages. A failing commit
   * is rolled back and swallowed; since the conversation is committed first, a failure of the
   * second commit leaves it without messages.
   */
  method SaveChatToDb(db: Session, userId: int, question: string, answer: string, now: int, faults: SaveFaults)
    requires db.pending == []
    modifies db
    ensures db.pending == []
    ensures faults.firstCommitFails ==>
      db.conversations == old(db.conversations) && db.messages == old(db.messages)
    ensures !faults.firstCommitFails ==>
      db.conversations == old(db.conversations) + [Conversation(old(db.nextConversationId), userId, Title(question), now)]
    ensures !faults.firstCommitFails && !faults.secondCommitFails ==>
      var cid := old(db.nextConversationId);
      db.messages == old(db.messages) + [Message(old(db.nextMessageId), cid, "user", question, now),
                                         Message(old(db.nextMessageId) + 1, cid, "assistant", answer, now)]
    ensures faults.secondCommitFails ==> db.messages == old(db.messages)
    ensures old(db.MessagesHaveConversations()) ==> db.MessagesHaveConversations()
  {
    ghost var conversations0, messages0 := db.conversations, db.messages;
    var conversation := db.AddConversation(userId, Title(question), now);
    PendingOfOneConversation(conversation);
    var ok := db.Commit(faults.firstCommitFails);
    if !ok {
      db.Rollback();
      return;
    }
    assert db.conversations == conversations0 + [conversation];
    var userMessage := db.AddMessage(conversation.id, "user", question, now);
    var assistantMessage := db.AddMessage(conversation.id, "assistant", answer, now);
    PendingOfTwoMessages(userMessage, assistantMessage);
    ok := db.Commit(faults.secondCommitFails);
    if !ok {
      db.Rollback();
    }
    if AllHaveConversations(conversations0, messages0) {
      var added := if ok then [userMessage, assistantMessage] else [];
      assert db.messages == messages0 + added;
      ExtendKeepsOwnership(conversations0, messages0, conversation, added);
    }
  }

  // ---------------------------------------------------------------------------
  // stream_rag_answer

  /** The outcome of retriever.invoke (get_retriever included). */
  datatype Retrieval = RetrievalRaised(error: string) | Retrieved(docs: seq<Document>)

  /** What the LLM side produces: the tokens delivered through the callback iterator, an error
      that ended that iteration early, and an error that `await task` raises. */
  datatype Generation = Generation(tokens: seq<string>, streamError: Option<string>, taskError: Option<string>)

  /** A write started by the pipeline: the fire-and-forget cache write or the history save. */
  datatype Effect =
    | CacheWrite(question: string, answer: string, sources: seq<Dict<PyValue>>)
    | HistorySave(userId: int, question: string, answer: string)

  /** How the generator ends: normally, or with an exception propagating to the caller. */
  datatype Ending = Completed | Raised(error: string)

  datatype RagRun = RagRun(fragments: seq<string>, effects: seq<Effect>, ending: Ending)

  const SourcesFooter := "\n\n---SOURCES---\n"
  const NotFoundReply := "在知识库中未找到相关内容，无法回答您的问题。"
  /** The number of passages the pipeline asks the vector retriever for. */
  const RetrievalK := 5

  function RetrievalErrorReply(error: string): string {
    "检索服务暂时不可用: " + error
  }

  function InterruptionNotice(error: string): string {
    "\n[生成中断: " + error + "]"
  }

  /** One JSON line per metadata dict, in order. */
  function SourceLines(dumps: Dict<PyValue> -> string, metas: seq<Dict<PyValue>>): (lines: seq<string>)
    ensures |lines| == |metas|
    ensures forall i :: 0 <= i < |metas| ==> lines[i] == dumps(metas[i]) + "\n"
  {
    seq(|metas|, i requires 0 <= i < |metas| => dumps(metas[i]) + "\n")
  }

  /** The fragments yielded by the token loop and its except clause. */
  function Streamed(gen: Generation): seq<string> {
    gen.tokens + if gen.streamError.Some? then [InterruptionNotice(gen.streamError.value)] else []
  }

  /** The specification of one run of stream_rag_answer, given what get_cache returned. */
  function RagTrace(question: string, userId: int, cached: Option<CacheService.CachedAnswer>,
                    retrieve: (string, nat) -> Retrieval, generate: (string, seq<Document>) -> Generation,
                    dumps: Dict<PyValue> -> string): RagRun
  {
    match cached
    case Some(hit) => HitTrace(question, userId, hit, dumps)
    case None =>
      match retrieve(question, RetrievalK)
      case RetrievalRaised(e) => RagRun([RetrievalErrorReply(e)], [], Completed)
      case Retrieved(docs) =>
        if docs == [] then RagRun([NotFoundReply], [], Completed)
        else GenerationTrace(question, userId, docs, generate(question, docs), dumps)
  }

  /** The cache-hit branch: the cached answer, the footer, the cached sources, then the history save. */
  function HitTrace(question: string, userId: int, hit: CacheService.CachedAnswer, dumps: Dict<PyValue> -> string): RagRun {
    RagRun([hit.answer, SourcesFooter] + SourceLines(dumps, hit.sources),
           [HistorySave(userId, question, hit.answer)], Completed)
  }

  /** The generation branch: the streamed fragments, then (unless `await task` raises) the footer,
      the sources and, for a non-empty answer, the two writes. */
  function GenerationTrace(question: string, userId: int, docs: seq<Document>, gen: Generation,
                           dumps: Dict<PyValue> -> string): RagRun
  {
    if gen.taskError.Some? then RagRun(Streamed(gen), [], Raised(gen.taskError.value))
    else
      var fullAnswer := Concat(gen.tokens);
      RagRun(Streamed(gen) + [SourcesFooter] + SourceLines(dumps, Metadatas(docs)),
             if fullAnswer != "" then [CacheWrite(question, fullAnswer, Metadatas(docs)),
                                       HistorySave(userId, question, fullAnswer)]
             else [],
             Completed)
  }

  /** The `for ... in ...: yield json.dumps(...) + "\n"` loops. */
  method EmitSourceLines(out: seq<string>, dumps: Dict<PyValue> -> string, metas: seq<Dict<PyValue>>)
    returns (out': seq<string>)
    ensures out' == out + SourceLines(dumps, metas)
  {
    out' := out;
    var i := 0;
    while i < |metas|
      invariant 0 <= i <= |metas|
      invariant out' == out + SourceLines(dumps, metas[..i])
    {
      out' := out' + [dumps(metas[i]) + "\n"];
      i := i + 1;
    }
    assert metas[..i] == metas;
  }

  /** stream_rag_answer(question, ..., user) against the cache at instant now. */
  method StreamRagAnswer(cache: CacheService.RedisCache, question: string, userId: int, now: int,
                         retrieve: (string, nat) -> Retrieval, generate: (string, seq<Document>) -> Generation,
                         dumps: Dict<PyValue> -> string)
    returns (run: RagRun)
    ensures run == RagTrace(question, userId,
                            CacheService.Lookup(cache.store, CacheService.CacheKey(cache.md5, question), now),
                            retrieve, generate, dumps)
  {
    var cached := cache.GetCache(question, now);
    if cached.Some? {
      var answer := cached.value.answer;
      var out := EmitSourceLines([answer, SourcesFooter], dumps, cached.value.sources);
      run := RagRun(out, [HistorySave(userId, question, answer)], Completed);
      return;
    }

    var retrieval := retrieve(question, RetrievalK);
    if retrieval.RetrievalRaised? {
      run := RagRun([RetrievalErrorReply(retrieval.error)], [], Completed);
      return;
    }
    var docs := retrieval.docs;
    if docs == [] {
      run := RagRun([NotFoundReply], [], Completed);
      return;
    }

    var gen := generate(question, docs);
    var fullAnswer := "";
    var docMetadatas := Metadatas(docs);
    var out: seq<string> := [];
    var i := 0;
    while i < |gen.tokens|
      invariant 0 <= i <= |gen.tokens|
      invariant out == gen.tokens[..i]
      invariant fullAnswer == Concat(gen.tokens[..i])
    {
      assert gen.tokens[..i + 1][..i] == gen.tokens[..i];
      fullAnswer := fullAnswer + gen.tokens[i];
      out := out + [gen.tokens[i]];
      i := i + 1;
    }
    assert gen.tokens[..i] == gen.tokens;
    if gen.streamError.Some? {
      out := out + [InterruptionNotice(gen.streamError.value)];
    }
    if gen.taskError.Some? {
      run := RagRun(out, [], Raised(gen.taskError.value));
      return;
    }
    out := EmitSourceLines(out + [SourcesFooter], dumps, docMetadatas);
    var effects: seq<Effect> := [];
    if fullAnswer != "" {
      effects := [CacheWrite(question, fullAnswer, docMetadatas), HistorySave(userId, question, fullAnswer)];
    }
    run := RagRun(out, effects, Completed);
  }

  // ---------------------------------------------------------------------------
  // Properties of a run.

  /** A cache hit replays the cached answer, the footer and one line per cached source in stored
      order, saves the cached answer to history, and never consults the retriever or the LLM. */
  lemma CacheHitReplays(question: string, userId: int, hit: CacheService.CachedAnswer,
                        retrieve: (string, nat) -> Retrieval, generate: (string, seq<Document>) -> Generation,
                        retrieve': (string, nat) -> Retrieval, generate': (string, seq<Document>) -> Generation,
                        dumps: Dict<PyValue> -> string)
    ensures var run := RagTrace(question, userId, Some(hit), retrieve, generate, dumps);
      && run == RagTrace(question, userId, Some(hit), retrieve', generate', dumps)
      && |run.fragments| == 2 + |hit.sources|
      && run.fragments[0] == hit.answer && run.fragments[1] == SourcesFooter
      && (forall i :: 0 <= i < |hit.sources| ==> run.fragments[2 + i] == dumps(hit.sources[i]) + "\n")
      && run.effects == [HistorySave(userId, question, hit.answer)]
      && run.ending == Completed
  {
  }

  /** A retrieval error yields exactly one error fragment and nothing else: no footer, no cache
      write, no history save, and the LLM is never invoked. */
  lemma RetrievalErrorStops(question: string, userId: int, retrieve: (string, nat) -> Retrieval,
                            generate: (string, seq<Document>) -> Generation,
                            generate': (string, seq<Document>) -> Generation, dumps: Dict<PyValue> -> string)
    requires retrieve(question, RetrievalK).RetrievalRaised?
    ensures var run := RagTrace(question, userId, None, retrieve, generate, dumps);
      && run == RagTrace(question, userId, None, retrieve, generate', dumps)
      && run.fragments == [RetrievalErrorReply(retrieve(question, RetrievalK).error)]
      && StartsWith(run.fragments[0], "检索服务暂时不可用: ")
      && run.effects == [] && run.ending == Completed
  {
  }

  /** No retrieved documents: the fixed reply alone, no writes, the LLM never invoked. */
  lemma NoDocumentsNoGeneration(question: string, userId: int, retrieve: (string, nat) -> Retrieval,
                                generate: (string, seq<Document>) -> Generation,
                                generate': (string, seq<Document>) -> Generation, dumps: Dict<PyValue> -> string)
    requires retrieve(question, RetrievalK) == Retrieved([])
    ensures var run := RagTrace(question, userId, None, retrieve, generate, dumps);
      && run == RagTrace(question, userId, None, retrieve, generate', dumps)
      && run.fragments == [NotFoundReply] && run.effects == [] && run.ending == Completed
  {
  }

  /** On the generating path the first fragments are the tokens, in order; every answer written
      back is their concatenation, which never includes the interruption notice. */
  lemma WrittenAnswerIsStreamedTokens(question: string, userId: int, retrieve: (string, nat) -> Retrieval,
                                      generate: (string, seq<Document>) -> Generation,
                                      dumps: Dict<PyValue> -> string)
    requires retrieve(question, RetrievalK).Retrieved? && retrieve(question, RetrievalK).docs != []
    ensures var gen := generate(question, retrieve(question, RetrievalK).docs);
      var run := RagTrace(question, userId, None, retrieve, generate, dumps);
      && |gen.tokens| <= |run.fragments|
      && run.fragments[..|gen.tokens|] == gen.tokens
      && (gen.streamError.Some? ==> run.fragments[|gen.tokens|] == InterruptionNotice(gen.streamError.value))
      && forall e :: e in run.effects ==> e.question == question && e.answer == Concat(run.fragments[..|gen.tokens|])
  {
    var gen := generate(question, retrieve(question, RetrievalK).docs);
    var run := RagTrace(question, userId, None, retrieve, generate, dumps);
    assert run.fragments[..|gen.tokens|] == gen.tokens;
  }

  /** When `await task` succeeds, the stream (normal or interrupted) is followed by the footer and
      exactly one JSON line per retrieved document, in retrieval order, and the generator completes. */
  lemma FooterFollowsStream(question: string, userId: int, retrieve: (string, nat) -> Retrieval,
                            generate: (string, seq<Document>) -> Generation, dumps: Dict<PyValue> -> string)
    requires retrieve(question, RetrievalK).Retrieved? && retrieve(question, RetrievalK).docs != []
    requires generate(question, retrieve(question, RetrievalK).docs).taskError.None?
    ensures var docs := retrieve(question, RetrievalK).docs;
      var n := |Streamed(generate(question, docs))|;
      var run := RagTrace(question, userId, None, retrieve, generate, dumps);
      && |run.fragments| == n + 1 + |docs|
      && run.fragments[n] == SourcesFooter
      && (forall i :: 0 <= i < |docs| ==> run.fragments[n + 1 + i] == dumps(docs[i].metadata) + "\n")
      && run.ending == Completed
  {
  }

  /** The cache write and the history save happen exactly when some token is non-empty; both carry
      the same answer, and the cache also gets the documents' metadata. */
  lemma WriteBackIffAnswerNonEmpty(question: string, userId: int, retrieve: (string, nat) -> Retrieval,
                                   generate: (string, seq<Document>) -> Generation, dumps: Dict<PyValue> -> string)
    requires retrieve(question, RetrievalK).Retrieved? && retrieve(question, RetrievalK).docs != []
    requires generate(question, retrieve(question, RetrievalK).docs).taskError.None?
    ensures var docs := retrieve(question, RetrievalK).docs;
      var tokens := generate(question, docs).tokens;
      var run := RagTrace(question, userId, None, retrieve, generate, dumps);
      && (run.effects != [] <==> exists i :: 0 <= i < |tokens| && tokens[i] != "")
      && (run.effects != [] ==>
            run.effects == [CacheWrite(question, Concat(tokens), Metadatas(docs)),
                            HistorySave(userId, question, Concat(tokens))])
  {
    var tokens := generate(question, retrieve(question, RetrievalK).docs).tokens;
    ConcatEmpty(tokens);
  }

  /** When `await task` raises, the finally block is abandoned: the stream so far, then the
      exception; no footer and no writes. */
  lemma TaskErrorAbandonsFooter(question: string, userId: int, retrieve: (string, nat) -> Retrieval,
                                generate: (string, seq<Document>) -> Generation, dumps: Dict<PyValue> -> string)
    requires retrieve(question, RetrievalK).Retrieved? && retrieve(question, RetrievalK).docs != []
    requires generate(question, retrieve(question, RetrievalK).docs).taskError.Some?
    ensures var gen := generate(question, retrieve(question, RetrievalK).docs);
      var run := RagTrace(question, userId, None, retrieve, generate, dumps);
      && run.fragments == Streamed(gen) && run.effects == []
      && run.ending == Raised(gen.taskError.value)
  {
  }

  /** Every write a run starts is for the asked question, and every history save is for the
      requesting user; a run starts at most one history save and it comes last. */
  lemma EffectsBelongToRequest(question: string, userId: int, cached: Option<CacheService.CachedAnswer>,
                               retrieve: (string, nat) -> Retrieval, generate: (string, seq<Document>) -> Generation,
                               dumps: Dict<PyValue> -> string)
    ensures var run := RagTrace(question, userId, cached, retrieve, generate, dumps);
      && |run.effects| <= 2
      && (forall e :: e in run.effects ==> e.question == question && (e.HistorySave? ==> e.userId == userId))
      && (run.effects != [] ==> run.effects[|run.effects| - 1].HistorySave?)
  {
  }

  /**
   * Asking the same question again within the cache TTL, once the first run's cache write has
   * landed, replays the same answer text and the same source lines, and saves history again.
   */
  lemma SecondAskReplaysFirstAnswer(md5: seq<CacheService.Byte> -> CacheService.Digest, store: CacheService.Store,
                                    ttl: int, question: string, userId: int, userId': int, now: int, later: int,
                                    retrieve: (string, nat) -> Retrieval, generate: (string, seq<Document>) -> Generation,
                                    retrieve': (string, nat) -> Retrieval, generate': (string, seq<Document>) -> Generation,
                                    dumps: Dict<PyValue> -> string)
    requires ttl > 0 && now <= later < now + ttl
    requires var key := CacheService.CacheKey(md5, question);
      var run := RagTrace(question, userId, CacheService.Lookup(store, key, now), retrieve, generate, dumps);
      run.effects != [] && run.effects[0].CacheWrite?
    ensures var key := CacheService.CacheKey(md5, question);
      var run := RagTrace(question, userId, CacheService.Lookup(store, key, now), retrieve, generate, dumps);
      var w := run.effects[0];
      var store' := CacheService.SetEx(store, key, ttl, CacheService.Json(CacheService.CachedAnswer(w.answer, w.sources)), now);
      var docs := retrieve(question, RetrievalK).docs;
      var gen := generate(question, docs);
      var run' := RagTrace(question, userId', CacheService.Lookup(store'.value, key, later), retrieve', generate', dumps);
      && store'.Ok?
      && run'.fragments[0] == Concat(run.fragments[..|gen.tokens|])
      && run'.fragments[1..] == run.fragments[|Streamed(gen)|..]
      && run'.effects == [HistorySave(userId', question, w.answer)]
  {
    var key := CacheService.CacheKey(md5, question);
    var cached := CacheService.Lookup(store, key, now);
    var run := RagTrace(question, userId, cached, retrieve, generate, dumps);
    var w := run.effects[0];
    var hit := CacheService.CachedAnswer(w.answer, w.sources);
    CacheService.SetThenGet(md5, store, ttl, question, w.answer, w.sources, now, later);
    ReplayOfWrittenRun(question, userId, userId', cached, retrieve, generate, retrieve', generate', dumps);
  }

  /** Replaying what a run wrote to the cache gives its answer and its source lines. */
  lemma ReplayOfWrittenRun(question: string, userId: int, userId': int, cached: Option<CacheService.CachedAnswer>,
                           retrieve: (string, nat) -> Retrieval, generate: (string, seq<Document>) -> Generation,
                           retrieve': (string, nat) -> Retrieval, generate': (string, seq<Document>) -> Generation,
                           dumps: Dict<PyValue> -> string)
    requires var run := RagTrace(question, userId, cached, retrieve, generate, dumps);
      run.effects != [] && run.effects[0].CacheWrite?
    ensures var run := RagTrace(question, userId, cached, retrieve, generate, dumps);
      var w := run.effects[0];
      var gen := generate(question, retrieve(question, RetrievalK).docs);
      var run' := RagTrace(question, userId', Some(CacheService.CachedAnswer(w.answer, w.sources)), retrieve', generate', dumps);
      && |gen.tokens| <= |Streamed(gen)| <= |run.fragments|
      && run'.fragments[0] == Concat(run.fragments[..|gen.tokens|])
      && run'.fragments[1..] == run.fragments[|Streamed(gen)|..]
      && run'.effects == [HistorySave(userId', question, w.answer)]
  {
    WritingRunShape(question, userId, cached, retrieve, generate, dumps);
    var docs := retrieve(question, RetrievalK).docs;
    var gen := generate(question, docs);
    var metas := Metadatas(docs);
    var run := RagTrace(question, userId, cached, retrieve, generate, dumps);
    assert run.fragments[..|gen.tokens|] == gen.tokens;
    assert run.fragments[|Streamed(gen)|..] == [SourcesFooter] + SourceLines(dumps, metas);
    HitRunShape(question, userId', CacheService.CachedAnswer(Concat(gen.tokens), metas), retrieve', generate', dumps);
  }

  /** A run that writes to the cache missed it and streamed a non-empty answer to the end. */
  lemma WritingRunShape(question: string, userId: int, cached: Option<CacheService.CachedAnswer>,
                        retrieve: (string, nat) -> Retrieval, generate: (string, seq<Document>) -> Generation,
                        dumps: Dict<PyValue> -> string)
    requires var run := RagTrace(question, userId, cached, retrieve, generate, dumps);
      run.effects != [] && run.effects[0].CacheWrite?
    ensures cached.None? && retrieve(question, RetrievalK).Retrieved? && retrieve(question, RetrievalK).docs != []
    ensures var docs := retrieve(question, RetrievalK).docs;
      var gen := generate(question, docs);
      var run := RagTrace(question, userId, cached, retrieve, generate, dumps);
      && gen.taskError.None?
      && run.effects[0] == CacheWrite(question, Concat(gen.tokens), Metadatas(docs))
      && run.fragments == Streamed(gen) + [SourcesFooter] + SourceLines(dumps, Metadatas(docs))
  {
  }

  /** The run of a cache hit, as whole sequences. */
  lemma HitRunShape(question: string, userId: int, hit: CacheService.CachedAnswer,
                    retrieve: (string, nat) -> Retrieval, generate: (string, seq<Document>) -> Generation,
                    dumps: Dict<PyValue> -> string)
    ensures var run := RagTrace(question, userId, Some(hit), retrieve, generate, dumps);
      && run.fragments == [hit.answer, SourcesFooter] + SourceLines(dumps, hit.sources)
      && run.effects == [HistorySave(userId, question, hit.answer)]
  {
  }

  // ---------------------------------------------------------------------------
  // get_embeddings

  /** HuggingFaceEmbeddings(model_name=...), identified by the model it was built from. */
  datatype Embeddings = Embeddings(modelName: string)

  /** The module-level _EMBEDDINGS singleton. */
  class EmbeddingsHolder {
    var embeddings: Option<Embeddings>
    /** How many times the model has been constructed. */
    ghost var constructions: nat

    constructor ()
      ensures embeddings == None && constructions == 0
    {
      embeddings := None;
      constructions := 0;
    }

    /** get_embeddings(): build the model on first use only, and hand out the same one afterwards. */
    method GetEmbeddings(modelName: string) returns (e: Embeddings)
      modifies this
      ensures old(embeddings).Some? ==> e == old(embeddings).value && embeddings == old(embeddings)
      ensures old(embeddings).Some? ==> constructions == old(constructions)
      ensures old(embeddings).None? ==> e == Embeddings(modelName) && embeddings == Some(e)
      ensures old(embeddings).None? ==> constructions == old(constructions) + 1
    {
      if embeddings.None? {
        embeddings := Some(Embeddings(modelName));
        constructions := constructions + 1;
      }
      e := embeddings.value;
    }
  }
}
