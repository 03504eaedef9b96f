/**
 * app/services/agent_service.py: the knowledge-base tool handed to the agent and the filter that
 * turns the agent's event stream into answer text. The agent itself (LLM, prompt, executor) is
 * not modelled; its event stream is an input. reciprocal_rank_fusion is imported from
 * rag_service but defined nowhere in the source, so it is an input function (fuse) here too.
 */
module AgentService {

  import opened Wrappers
  import opened Text
  import opened PyDict
  import opened Documents
  import Config
  import EsService
  import RagService

  // ---------------------------------------------------------------------------
  // search_knowledge_base

  /** The tool's result, or the exception it raises into the agent executor. */
  datatype ToolOutcome = ToolResult(text: string) | ToolRaised(error: string)

  /** k for both retrievers, and the fusion constant. */
  const ToolK := 4
  const FusionK := 60
  /** At most this many fused passages are shown to the agent. */
  const MaxFragments := 4
  const NoResultReply := "知识库中未找到相关内容。"

  /** Document(page_content=hit["_source"]["content"], metadata=hit["_source"]): a KeyError when
      the source has no "content", a validation error when it is not a string. */
  function HitToDocument(hit: EsService.Hit): (r: Result<Document, string>)
    ensures r.Ok? <==> Get(hit.source, "content").Some? && Get(hit.source, "content").value.PyStr?
    ensures r.Ok? ==> r.value == Document(Get(hit.source, "content").value.s, hit.source)
  {
    var content := Get(hit.source, "content");
    if content.None? then Err("KeyError: 'content'")
    else if content.value.PyStr? then Ok(Document(content.value.s, hit.source))
    else Err("ValidationError: page_content must be a string")
  }

  /** The list comprehension over the hits: the first failing hit raises. */
  function HitsToDocuments(hits: seq<EsService.Hit>): (r: Result<seq<Document>, string>)
    ensures r.Ok? <==> forall i :: 0 <= i < |hits| ==> HitToDocument(hits[i]).Ok?
    ensures r.Ok? ==> |r.value| == |hits| && forall i :: 0 <= i < |hits| ==> r.value[i] == HitToDocument(hits[i]).value
  {
    if hits == [] then Ok([])
    else match HitToDocument(hits[0])
      case Err(e) => Err(e)
      case Ok(d) =>
        match HitsToDocuments(hits[1..])
        case Err(e) => Err(e)
        case Ok(rest) =>
          assert forall i :: 1 <= i < |hits| ==> hits[i] == hits[1..][i - 1];
          Ok([d] + rest)
  }

  /** "[片段{i+1}]: {content}" */
  function Fragment(i: nat, d: Document): string {
    "[片段" + NatToDecimal(i + 1) + "]: " + d.pageContent
  }

  function Fragments(docs: seq<Document>): (pieces: seq<string>)
    ensures |pieces| == |docs| && forall i :: 0 <= i < |docs| ==> pieces[i] == Fragment(i, docs[i])
  {
    seq(|docs|, i requires 0 <= i < |docs| => Fragment(i, docs[i]))
  }

  /** The tool's answer for the fused list. */
  function FormatFused(fused: seq<Document>): string {
    if fused == [] then NoResultReply
    else Join("\n\n", Fragments(fused[..if |fused| < MaxFragments then |fused| else MaxFragments]))
  }

  /** search_knowledge_base(query). */
  function SearchKnowledgeBase(settings: Config.Settings, query: string,
                               retrieve: (string, nat) -> RagService.Retrieval,
                               search: EsService.SearchRequest -> EsService.SearchResponse,
                               fuse: (seq<seq<Document>>, int) -> seq<Document>): (r: ToolOutcome)
    ensures r.ToolResult? <==>
      retrieve(query, ToolK).Retrieved? && HitsToDocuments(EsService.SearchKeyword(settings, search, query, ToolK)).Ok?
  {
    match retrieve(query, ToolK)
    case RetrievalRaised(e) => ToolRaised(e)
    case Retrieved(vectorDocs) =>
      match HitsToDocuments(EsService.SearchKeyword(settings, search, query, ToolK))
      case Err(e) => ToolRaised(e)
      case Ok(keywordDocs) => ToolResult(FormatFused(fuse([vectorDocs, keywordDocs], FusionK)))
  }

  /** Both retrievers are asked for 4 passages with the same query, and their lists go to the
      fusion in the order [vector, keyword] with k = 60; the tool shows the fused list. */
  lemma ToolFusesVectorThenKeyword(settings: Config.Settings, query: string,
                                   retrieve: (string, nat) -> RagService.Retrieval,
                                   search: EsService.SearchRequest -> EsService.SearchResponse,
                                   fuse: (seq<seq<Document>>, int) -> seq<Document>)
    requires retrieve(query, 4).Retrieved?
    requires var response := search(EsService.SearchRequest(settings.esIndex, query, 4));
      response.SearchHits? ==> forall i :: 0 <= i < |response.hits| ==> HitToDocument(response.hits[i]).Ok?
    ensures var response := search(EsService.SearchRequest(settings.esIndex, query, 4));
      var hits := if response.SearchFailed? then [] else response.hits;
      var keywordDocs := seq(|hits|, i requires 0 <= i < |hits| => HitToDocument(hits[i]).value);
      SearchKnowledgeBase(settings, query, retrieve, search, fuse) ==
        ToolResult(FormatFused(fuse([retrieve(query, 4).docs, keywordDocs], 60)))
  {
    var response := search(EsService.SearchRequest(settings.esIndex, query, 4));
    var hits := EsService.SearchKeyword(settings, search, query, ToolK);
    assert hits == if response.SearchFailed? then [] else response.hits;
    var converted := HitsToDocuments(hits);
    assert converted.Ok?;
    assert converted.value == seq(|hits|, i requires 0 <= i < |hits| => HitToDocument(hits[i]).value);
  }

  /** An empty fused list gives the fixed reply. Otherwise the reply joins one labelled fragment
      per fused passage, at most four, numbered from 1, with a blank line between neighbours;
      passages after the fourth never reach it. */
  lemma FormatFusedShape(fused: seq<Document>)
    ensures fused == [] ==> FormatFused(fused) == NoResultReply
    ensures fused != [] ==>
      var n := if |fused| < 4 then |fused| else 4;
      var pieces := Fragments(fused[..n]);
      && FormatFused(fused) == Join("\n\n", pieces)
      && FormatFused(fused) == FormatFused(fused[..n])
      && |pieces| == n
      && (forall i :: 0 <= i < n ==> pieces[i] == "[片段" + NatToDecimal(i + 1) + "]: " + fused[i].pageContent)
      && |FormatFused(fused)| == |Concat(pieces)| + 2 * (n - 1)
  {
    if fused != [] {
      var n := if |fused| < 4 then |fused| else 4;
      assert fused[..n][..n] == fused[..n];
      JoinLength("\n\n", Fragments(fused[..n]));
    }
  }

  // ---------------------------------------------------------------------------
  // stream_agent_chat

  /** event["data"]["chunk"] as the code reads it: absent, None, or a chunk with text content. */
  datatype ChunkField = ChunkMissing | ChunkNone | Chunk(content: string)

  /** event["data"]: absent (event.get gives {}), None, or a dict with a chunk entry. */
  datatype DataField = DataMissing | DataNone | DataDict(chunk: ChunkField)

  datatype AgentEvent = AgentEvent(kind: string, data: DataField)

  /** The events astream_events delivers, and the exception that ends them early, if any. */
  datatype AgentStream = AgentStream(events: seq<AgentEvent>, failure: Option<string>)

  const StreamEventKind := "on_chat_model_stream"
  /** str() of the AttributeError raised by None.get(...). */
  const NoneGetError := "'NoneType' object has no attribute 'get'"

  function ErrorReply(error: string): string {
    "Agent 运行出错: " + error
  }

  /** What the loop body does with one event: nothing, yield text, or raise. */
  datatype Step = Skip | Yield(text: string) | Fail(error: string)

  function EventStep(e: AgentEvent): Step {
    if e.kind != StreamEventKind then Skip
    else match e.data
      case DataMissing => Skip
      case DataNone => Fail(NoneGetError)
      case DataDict(Chunk(content)) => if content != "" then Yield(content) else Skip
      case DataDict(_) => Skip
  }

  /** The generator body: the events in order, then the stream's own failure. */
  function RunEvents(events: seq<AgentEvent>, failure: Option<string>): seq<string> {
    if events == [] then (if failure.Some? then [ErrorReply(failure.value)] else [])
    else match EventStep(events[0])
      case Skip => RunEvents(events[1..], failure)
      case Yield(text) => [text] + RunEvents(events[1..], failure)
      case Fail(error) => [ErrorReply(error)]
  }

  /** stream_agent_chat(question), given the agent's event stream. */
  function StreamAgentChat(stream: AgentStream): seq<string> {
    RunEvents(stream.events, stream.failure)
  }

  /** Reference definition: the non-empty chunk contents of the stream events, in event order. */
  function StreamedContents(events: seq<AgentEvent>): (texts: seq<string>)
    ensures forall i :: 0 <= i < |texts| ==> texts[i] != ""
  {
    if events == [] then []
    else
      var step := EventStep(events[|events| - 1]);
      StreamedContents(events[..|events| - 1]) + (if step.Yield? then [step.text] else [])
  }

  lemma {:induction false} StreamedContentsCons(e: AgentEvent, rest: seq<AgentEvent>)
    ensures StreamedContents([e] + rest) ==
      (if EventStep(e).Yield? then [EventStep(e).text] else []) + StreamedContents(rest)
    decreases |rest|
  {
    if rest != [] {
      var init := rest[..|rest| - 1];
      assert ([e] + rest)[..|rest|] == [e] + init;
      StreamedContentsCons(e, init);
    } else {
      assert [e][..0] == [];
    }
  }

  predicate NoFailingEvent(events: seq<AgentEvent>) {
    forall j :: 0 <= j < |events| ==> !EventStep(events[j]).Fail?
  }

  /** Without a failing event the output is exactly the stream contents, in order, followed by
      one error fragment exactly when the stream itself failed. */
  lemma {:induction false} StreamWithoutBadEvent(events: seq<AgentEvent>, failure: Option<string>)
    requires NoFailingEvent(events)
    ensures RunEvents(events, failure) ==
      StreamedContents(events) + (if failure.Some? then [ErrorReply(failure.value)] else [])
  {
    if events != [] {
      assert NoFailingEvent(events[1..]) by {
        forall j | 0 <= j < |events| - 1 ensures !EventStep(events[1..][j]).Fail? {
          assert events[1..][j] == events[j + 1];
        }
      }
      StreamWithoutBadEvent(events[1..], failure);
      StreamedContentsCons(events[0], events[1..]);
      assert [events[0]] + events[1..] == events;
    }
  }

  /** A stream event whose data is None stops the stream: the contents before it, then exactly one
      error fragment, and nothing from the later events or the stream's own failure. */
  lemma {:induction false} StreamStopsAtBadEvent(events: seq<AgentEvent>, failure: Option<string>, j: nat)
    requires j < |events| && EventStep(events[j]).Fail? && NoFailingEvent(events[..j])
    ensures RunEvents(events, failure) == StreamedContents(events[..j]) + [ErrorReply(NoneGetError)]
  {
    if j == 0 {
      assert events[..0] == [];
    } else {
      assert events[1..][..j - 1] == events[..j][1..];
      assert NoFailingEvent(events[..j][1..]) by {
        var prefix := events[..j];
        forall k | 0 <= k < |prefix| - 1 ensures !EventStep(prefix[1..][k]).Fail? {
          assert prefix[1..][k] == prefix[k + 1];
        }
      }
      assert !EventStep(events[..j][0]).Fail?;
      StreamStopsAtBadEvent(events[1..], failure, j - 1);
      StreamedContentsCons(events[0], events[1..][..j - 1]);
      assert [events[0]] + events[1..][..j - 1] == events[..j];
    }
  }

  /** Events of any other kind yield nothing: dropping them leaves the output unchanged. */
  lemma {:induction false} OtherEventsIgnored(events: seq<AgentEvent>, e: AgentEvent, failure: Option<string>)
    requires e.kind != StreamEventKind
    ensures RunEvents([e] + events, failure) == RunEvents(events, failure)
  {
    assert ([e] + events)[1..] == events;
  }
}
