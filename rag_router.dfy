/**
 * app/api/routers/rag.py: the chat endpoint (always as user 1), the PDF upload endpoint with its
 * temporary file, and the listing of stored files. The local filesystem under the upload
 * directory is a class holding the set of existing paths.
 */
module RagRouter {

  import opened Wrappers
  import opened Text
  import opened PyDict
  import opened Documents
  import opened Http
  import Config
  import CacheService
  import IngestionService
  import RagService

  // ---------------------------------------------------------------------------
  // POST /chat

  /** The user every chat runs as: authentication is commented out and a stand-in with id 1 is used. */
  const ChatUserId := 1

  /** chat(request): the RAG pipeline for the question, as user 1. */
  method Chat(cache: CacheService.RedisCache, question: string, now: int,
              retrieve: (string, nat) -> RagService.Retrieval,
              generate: (string, seq<Document>) -> RagService.Generation,
              dumps: Dict<PyValue> -> string)
    returns (run: RagService.RagRun)
    ensures forall e :: e in run.effects && e.HistorySave? ==> e.userId == ChatUserId
    ensures run == RagService.RagTrace(question, ChatUserId,
                                       CacheService.Lookup(cache.store, CacheService.CacheKey(cache.md5, question), now),
                                       retrieve, generate, dumps)
  {
    run := RagService.StreamRagAnswer(cache, question, ChatUserId, now, retrieve, generate, dumps);
    RagService.EffectsBelongToRequest(question, ChatUserId,
                                      CacheService.Lookup(cache.store, CacheService.CacheKey(cache.md5, question), now),
                                      retrieve, generate, dumps);
  }

  // ---------------------------------------------------------------------------
  // POST /upload

  const UploadDir := "data/uploads"
  const IngestedMessage := "Successfully ingested"
  const ProcessFailedMessage := "Failed to process document"

  /** The JSON body of a successful upload. */
  datatype UploadReply = UploadReply(filename: string, chunks: nat, message: string)

  /** The two checks made before anything is written. The suffix test is exact and
      case-sensitive; ".txt" is not accepted. */
  function ValidateFilename(filename: Option<string>): (r: Result<string, HttpError>)
    ensures r.Ok? <==> filename.Some? && filename.value != "" && EndsWith(filename.value, ".pdf")
    ensures r.Ok? ==> r.value == filename.value
    ensures filename.None? || filename == Some("") ==> r == Err(Plain(400, "Filename is missing"))
    ensures r.Err? ==> r.error.status == 400 && r.error.headers == []
  {
    if filename.None? || filename.value == "" then Err(Plain(400, "Filename is missing"))
    else if !EndsWith(filename.value, ".pdf") then Err(Plain(400, "Only PDF files are supported"))
    else Ok(filename.value)
  }

  /** os.path.join("data/uploads", filename) */
  function TempPath(filename: string): (path: string)
    ensures EndsWith(path, filename)
  {
    PathJoin(UploadDir, filename)
  }

  /** A plain file name lands inside the upload directory; an absolute one is used as it is. */
  lemma TempPathShape(filename: string)
    ensures !StartsWith(filename, "/") ==> TempPath(filename) == UploadDir + "/" + filename
    ensures StartsWith(filename, "/") ==> TempPath(filename) == filename
  {
    assert !EndsWith(UploadDir, "/");
  }

  /** What the try block ends with once the filename is accepted: the write error, the
      processing outcome, the zero-chunk HTTPException re-raised by the generic handler with
      str() of it as detail, or the reply. */
  function UploadResult(filename: string, writeError: Option<string>, processed: IngestionService.ProcessOutcome)
    : Result<UploadReply, HttpError>
  {
    if writeError.Some? then Err(Plain(500, writeError.value))
    else match processed
      case Raised(e) => Err(Plain(500, e))
      case Returned(n) =>
        if n == 0 then Err(Plain(500, Str(Plain(500, ProcessFailedMessage))))
        else Ok(UploadReply(filename, n, IngestedMessage))
  }

  /** A reply comes back exactly when the file was written and processing stored a positive
      number of chunks; every failure inside the try surfaces as a 500. */
  lemma UploadResultCases(filename: string, writeError: Option<string>, processed: IngestionService.ProcessOutcome)
    ensures var r := UploadResult(filename, writeError, processed);
      && (r.Ok? <==> writeError.None? && processed.Returned? && processed.count > 0)
      && (r.Ok? ==> r.value == UploadReply(filename, processed.count, "Successfully ingested") && r.value.chunks > 0)
      && (r.Err? ==> r.error.status == 500 && r.error.headers == [])
      && (writeError.None? && processed == IngestionService.Returned(0) ==>
            r == Err(Plain(500, "500" + ": " + "Failed to process document")))
  {
    ZeroChunkDetail();
  }

  /** str() of the zero-chunk HTTPException, which becomes the detail of the re-raised one. */
  lemma ZeroChunkDetail()
    ensures Str(Plain(500, ProcessFailedMessage)) == "500" + ": " + ProcessFailedMessage
  {
    assert NatToDecimal(5) == "5";
    assert NatToDecimal(50) == "50";
    assert NatToDecimal(500) == "500";
  }

  /** The local files that exist, by path. */
  class LocalFiles {
    var paths: set<string>

    constructor (paths: set<string>)
      ensures this.paths == paths
    {
      this.paths := paths;
    }
  }

  /** upload_document(file). The write of the temporary file may fail (writeError); the
      remaining faults are those of process_and_embed_document. */
  method UploadDocument(fs: LocalFiles, store: IngestionService.ObjectStore, vectors: IngestionService.VectorStore,
                        settings: Config.Settings, filename: Option<string>, writeError: Option<string>,
                        uploadFails: bool, split: string -> IngestionService.SplitOutcome, writeFault: Option<IngestionService.WriteFault>)
    returns (r: Result<UploadReply, HttpError>)
    modifies fs, store, vectors
    requires store.Valid()
    ensures store.Valid()
    ensures ValidateFilename(filename).Err? ==>
      r == Err(ValidateFilename(filename).error) && unchanged(fs) && unchanged(store) && unchanged(vectors)
    ensures ValidateFilename(filename).Ok? ==>
      var path := TempPath(filename.value);
      && fs.paths == old(fs.paths) - {path}
      && (writeError.Some? ==> r == Err(Plain(500, writeError.value)) && unchanged(store) && unchanged(vectors))
      && (writeError.None? ==>
            r == UploadResult(filename.value, None, IngestionService.ProcessOutcomeOf(uploadFails, split(path), writeFault)))
    // the accepted file goes to MinIO under its base name and its chunks to the configured collection
    ensures ValidateFilename(filename).Ok? && writeError.None? ==>
      var path := TempPath(filename.value);
      var bucket := settings.minioBucketName;
      && store.buckets == old(store.buckets) + {bucket}
      && store.objects == (if uploadFails then old(store.objects)
           else old(store.objects)[(bucket, Basename(path)) :=
                  IngestionService.StoredObject(path, IngestionService.DefaultContentType)])
      && vectors.Contents(settings.collectionName) == old(vectors.Contents(settings.collectionName)) +
           IngestionService.WrittenChunks(bucket, path, uploadFails, split(path), writeFault)
    ensures forall name :: name != settings.collectionName ==> vectors.Contents(name) == old(vectors.Contents(name))
  {
    var valid := ValidateFilename(filename);
    if valid.Err? {
      return Err(valid.error);
    }
    var name := valid.value;
    var path := TempPath(name);
    // open(temp_path, "wb") creates the file even when the copy then fails
    fs.paths := fs.paths + {path};
    if writeError.Some? {
      r := UploadResult(name, writeError, IngestionService.Returned(0));
    } else {
      var processed := IngestionService.ProcessAndEmbedDocument(store, vectors, settings, path, settings.collectionName,
                                                                uploadFails, split, writeFault);
      r := UploadResult(name, None, processed);
    }
    // finally: remove the temporary file when it exists
    if path in fs.paths {
      fs.paths := fs.paths - {path};
    }
  }

  // ---------------------------------------------------------------------------
  // GET /files

  /** list_files(): [] for a missing bucket, else the bucket's non-recursive listing (names,
      and first-level prefixes for names holding '/'); a failing call to the store becomes a
      500. */
  method ListFiles(store: IngestionService.ObjectStore, settings: Config.Settings, failure: Option<string>)
    returns (r: Result<seq<string>, HttpError>)
    requires store.Valid()
    ensures failure.Some? ==> r == Err(Plain(500, "获取文件列表失败: " + failure.value))
    ensures failure.None? ==> r.Ok?
    ensures failure.None? && settings.minioBucketName !in store.buckets ==> r == Ok([])
    ensures r.Ok? ==> forall e :: e in r.value <==>
      exists name :: (settings.minioBucketName, name) in store.objects && IngestionService.ListingEntry(name) == e
    ensures r.Ok? ==> forall i, j :: 0 <= i < j < |r.value| ==> r.value[i] != r.value[j]
    // every name the upload endpoint and the scripts store is a base name, listed as itself
    ensures r.Ok? && (forall key :: key in store.objects && key.0 == settings.minioBucketName ==> '/' !in key.1) ==>
      forall name :: name in r.value <==> (settings.minioBucketName, name) in store.objects
  {
    if failure.Some? {
      return Err(Plain(500, "获取文件列表失败: " + failure.value));
    }
    if settings.minioBucketName !in store.buckets {
      return Ok([]);
    }
    var names := store.ListObjects(settings.minioBucketName);
    return Ok(names);
  }
}
