/**
 * The keyword index of app/services/es_service.py. Elasticsearch is an index flag, a mapping and
 * a map from document id to stored document; each call that can raise takes a flag saying whether
 * it does, and search responses are an input function.
 */
module EsService {

  import opened Wrappers
  import opened PyDict
  import Config

  // ---------------------------------------------------------------------------
  // Metadata cleaning in index_document

  /** What index_document keeps of one metadata value: "" and None are dropped, str/int/float/bool
      values are kept as they are, anything else is replaced by its str() text. */
  function CleanValue(v: PyValue): (r: Option<PyValue>)
    ensures r.None? <==> v == PyStr("") || v == PyNone
    ensures r.Some? ==> !r.value.PyObject? && r.value != PyNone
    ensures r.Some? && !v.PyObject? ==> r.value == v
    ensures v.PyObject? ==> r == Some(PyStr(v.text))
  {
    if v == PyStr("") || v == PyNone then None
    else if v.PyObject? then Some(PyStr(v.text))
    else Some(v)
  }

  /** The clean_metadata dict that the loop builds, key by key, in the input's order. */
  function CleanSpec(metadata: Dict<PyValue>): Dict<PyValue> {
    if metadata == [] then []
    else
      var (k, v) := metadata[|metadata| - 1];
      var clean := CleanSpec(metadata[..|metadata| - 1]);
      match CleanValue(v)
      case None => clean
      case Some(v') => Put(clean, k, v')
  }

  /** The loop of index_document. */
  method CleanMetadata(metadata: Dict<PyValue>) returns (clean: Dict<PyValue>)
    ensures clean == CleanSpec(metadata)
  {
    clean := [];
    var i := 0;
    while i < |metadata|
      invariant 0 <= i <= |metadata|
      invariant clean == CleanSpec(metadata[..i])
    {
      var (k, v) := metadata[i];
      assert metadata[..i + 1][..i] == metadata[..i];
      if v == PyStr("") || v == PyNone {
        i := i + 1;
        continue;
      }
      if !v.PyObject? {
        clean := Put(clean, k, v);
      } else {
        clean := Put(clean, k, PyStr(v.text));
      }
      i := i + 1;
    }
    assert metadata[..i] == metadata;
  }

  /** Every cleaned entry reads as CleanValue of the input's entry under the same key: so empty
      and None values are gone, scalars are copied and other values stringified; no key is added. */
  lemma {:induction false} CleanSpecGet(metadata: Dict<PyValue>, k: string)
    requires UniqueKeys(metadata)
    ensures UniqueKeys(CleanSpec(metadata))
    ensures Get(CleanSpec(metadata), k) == match Get(metadata, k) case None => None case Some(v) => CleanValue(v)
  {
    if metadata != [] {
      var init := metadata[..|metadata| - 1];
      var (k', v) := metadata[|metadata| - 1];
      assert UniqueKeys(init);
      CleanSpecGet(init, k);
      CleanSpecKeys(init);
      assert k' !in Keys(init);
      if CleanValue(v).Some? {
        PutKeys(CleanSpec(init), k', CleanValue(v).value);
        GetPut(CleanSpec(init), k', CleanValue(v).value, k);
      }
      GetLast(metadata, k);
    }
  }

  /** Get on a dict with unique keys: the last pair answers for its key, the rest for the others. */
  lemma GetLast(d: Dict<PyValue>, k: string)
    requires d != [] && UniqueKeys(d)
    ensures Get(d, k) == if d[|d| - 1].0 == k then Some(d[|d| - 1].1) else Get(d[..|d| - 1], k)
  {
    if d[|d| - 1].0 == k {
      assert k !in Keys(d[..|d| - 1]);
    }
  }

  /** d is obtained from e by deleting elements. */
  predicate IsSubsequence(d: seq<string>, e: seq<string>)
    decreases |e|
  {
    if d == [] then true
    else if e == [] then false
    else if d[|d| - 1] == e[|e| - 1] then IsSubsequence(d[..|d| - 1], e[..|e| - 1])
    else IsSubsequence(d, e[..|e| - 1])
  }

  /** The cleaned keys are some of the input keys, in the input's order. */
  lemma {:induction false} CleanSpecKeys(metadata: Dict<PyValue>)
    requires UniqueKeys(metadata)
    ensures UniqueKeys(CleanSpec(metadata))
    ensures forall k :: k in Keys(CleanSpec(metadata)) ==> k in Keys(metadata)
    ensures IsSubsequence(Keys(CleanSpec(metadata)), Keys(metadata))
  {
    if metadata != [] {
      var init := metadata[..|metadata| - 1];
      var (k, v) := metadata[|metadata| - 1];
      assert UniqueKeys(init);
      CleanSpecKeys(init);
      var c := CleanSpec(init);
      assert Keys(metadata) == Keys(init) + [k];
      assert Keys(metadata)[..|metadata| - 1] == Keys(init);
      assert k !in Keys(init);
      if CleanValue(v).Some? {
        PutKeys(c, k, CleanValue(v).value);
        assert Keys(CleanSpec(metadata)) == Keys(c) + [k];
        assert (Keys(c) + [k])[..|Keys(c)|] == Keys(c);
      } else if Keys(c) != [] {
        assert Keys(c)[|Keys(c)| - 1] in Keys(c);
      }
    }
  }

  /** doc_data = {"content": content, **clean_metadata} */
  function EsDocument(content: string, clean: Dict<PyValue>): Dict<PyValue> {
    PutAll([("content", PyStr(content))], clean)
  }

  /** The indexed document holds the cleaned metadata, and "content" unless the metadata has its
      own "content" entry, which then wins because it is spread after it. */
  lemma EsDocumentFields(content: string, metadata: Dict<PyValue>, k: string)
    requires UniqueKeys(metadata)
    ensures var clean := CleanSpec(metadata);
      Get(EsDocument(content, clean), k) ==
        if k in Keys(clean) then Get(clean, k)
        else if k == "content" then Some(PyStr(content))
        else None
  {
    CleanSpecKeys(metadata);
    GetPutAll([("content", PyStr(content))], CleanSpec(metadata), k);
    GetFirst([("content", PyStr(content))], k);
    GetFirst([("content", PyStr(content))][1..], k);
  }

  // ---------------------------------------------------------------------------
  // The index

  /** The explicit mapping create_index_if_not_exists asks for: field name and type. The
      "standard" analyzer on content is the default for text fields and is not modelled. */
  const IndexProperties := [("content", "text"), ("source", "keyword"), ("page", "integer")]

  class KeywordIndex {
    var indexExists: bool
    var properties: seq<(string, string)>
    var documents: map<string, Dict<PyValue>>

    constructor ()
      ensures !indexExists && properties == [] && documents == map[]
    {
      indexExists, properties, documents := false, [], map[];
    }

    /** create_index_if_not_exists(); fault says whether the exists check or the creation raises
        (the error is printed and swallowed). */
    method CreateIndexIfNotExists(fault: bool)
      modifies this
      ensures indexExists == (old(indexExists) || !fault)
      ensures properties == if !old(indexExists) && !fault then IndexProperties else old(properties)
      ensures documents == old(documents)
    {
      if !fault && !indexExists {
        indexExists := true;
        properties := IndexProperties;
      }
    }

    /** index_document(doc_id, content, metadata); writeFails says whether the write raises (swallowed). */
    method IndexDocument(docId: string, content: string, metadata: Dict<PyValue>, writeFails: bool)
      modifies this`documents
      ensures documents == if writeFails then old(documents)
                           else old(documents)[docId := EsDocument(content, CleanSpec(metadata))]
    {
      var clean := CleanMetadata(metadata);
      var docData := EsDocument(content, clean);
      if !writeFails {
        documents := documents[docId := docData];
      }
    }
  }

  // ---------------------------------------------------------------------------
  // search_keyword

  /** The request search_keyword sends: a match query on "content" limited to size hits. */
  datatype SearchRequest = SearchRequest(index: string, matchContent: string, size: nat)

  /** One hit; the code only reads its "_source". */
  datatype Hit = Hit(source: Dict<PyValue>)

  datatype SearchResponse = SearchFailed(error: string) | SearchHits(hits: seq<Hit>)

  const DefaultSearchK := 5

  /** search_keyword(query, k): the response's hits, or [] when the search raises. The bound of
      k hits is the index's to keep: the code passes size k and does not trim the hits itself. */
  function SearchKeyword(settings: Config.Settings, search: SearchRequest -> SearchResponse, query: string, k: nat)
    : (hits: seq<Hit>)
    ensures var response := search(SearchRequest(settings.esIndex, query, k));
      hits == if response.SearchFailed? then [] else response.hits
  {
    match search(SearchRequest(settings.esIndex, query, k))
    case SearchFailed(_) => []
    case SearchHits(hits) => hits
  }
}
