/** LangChain's Document as the core uses it: page text plus an ordered metadata dict. */
module Documents {

  import opened PyDict

  datatype Document = Document(pageContent: string, metadata: Dict<PyValue>)

  /** [doc.metadata for doc in docs] */
  function Metadatas(docs: seq<Document>): (metas: seq<Dict<PyValue>>)
    ensures |metas| == |docs| && forall i :: 0 <= i < |docs| ==> metas[i] == docs[i].metadata
  {
    seq(|docs|, i requires 0 <= i < |docs| => docs[i].metadata)
  }
}
