/**
 * app/services/ingestion_service.py: upload a PDF to MinIO, split it, stamp every chunk with
 * where the original lives, and write the chunks to a Milvus collection. The object store and
 * the vector store are classes whose state the operations change; PDF parsing and splitting
 * is an input function, and each remote call that may fail takes a fault flag.
 */
module IngestionService {

  import opened Wrappers
  import opened Text
  import opened PyDict
  import opened Documents
  import Config

  /** What fput_object stores: the uploaded file and its content type. */
  datatype StoredObject = StoredObject(localPath: string, contentType: string)

  /** fput_object's content type when the caller names none. */
  const DefaultContentType := "application/octet-stream"

  /** The MinIO server: its buckets and the objects in them, keyed by (bucket, object name). */
  class ObjectStore {
    var buckets: set<string>
    var objects: map<(string, string), StoredObject>

    ghost predicate Valid()
      reads this
    {
      forall key :: key in objects ==> key.0 in buckets
    }

    constructor (buckets: set<string>)
      ensures Valid()
      ensures this.buckets == buckets && objects == map[]
    {
      this.buckets := buckets;
      objects := map[];
    }

    /** bucket_exists followed, when the answer is no, by make_bucket. */
    method EnsureBucket(bucket: string)
      modifies this`buckets
      requires Valid()
      ensures Valid()
      ensures buckets == old(buckets) + {bucket}
    {
      if bucket !in buckets {
        buckets := buckets + {bucket};
      }
    }

    /** fput_object(bucket, name, path, content_type): overwrites an existing object of that
        name; fails on a missing bucket or when the transfer fails. */
    method FPutObject(bucket: string, name: string, path: string, contentType: string, transferFails: bool)
      returns (r: Result<(), string>)
      modifies this`objects
      requires Valid()
      ensures Valid()
      ensures r.Ok? <==> bucket in buckets && !transferFails
      ensures r.Ok? ==> objects == old(objects)[(bucket, name) := StoredObject(path, contentType)]
      ensures r.Err? ==> objects == old(objects)
    {
      if bucket !in buckets {
        return Err("NoSuchBucket");
      }
      if transferFails {
        return Err("upload failed");
      }
      objects := objects[(bucket, name) := StoredObject(path, contentType)];
      return Ok(());
    }

    /** list_objects(bucket), not recursive: each entry of the bucket's first level once, where
        a name holding '/' shows up as the prefix up to its first '/'. */
    method ListObjects(bucket: string) returns (entries: seq<string>)
      ensures forall e :: e in entries <==> exists name :: (bucket, name) in objects && ListingEntry(name) == e
      ensures forall i, j :: 0 <= i < j < |entries| ==> entries[i] != entries[j]
      // a bucket whose names hold no '/' lists exactly its names
      ensures (forall key :: key in objects && key.0 == bucket ==> '/' !in key.1) ==>
        forall name :: name in entries <==> (bucket, name) in objects
    {
      var left := set key | key in objects && key.0 == bucket :: ListingEntry(key.1);
      ghost var all := left;
      entries := [];
      while left != {}
        invariant forall e :: e in entries || e in left <==> e in all
        invariant forall e :: e in entries ==> e !in left
        invariant forall i, j :: 0 <= i < j < |entries| ==> entries[i] != entries[j]
        decreases left
      {
        var e :| e in left;
        entries := entries + [e];
        left := left - {e};
      }
      assert forall e :: e in all <==> exists name :: (bucket, name) in objects && ListingEntry(name) == e by {
        forall e | e in all
          ensures exists name :: (bucket, name) in objects && ListingEntry(name) == e
        {
          var key :| key in objects && key.0 == bucket && ListingEntry(key.1) == e;
          assert (bucket, key.1) == key;
        }
      }
    }
  }

  /** The index of the first '/' in s, or |s| when there is none. */
  function FirstSlash(s: string): (i: nat)
    ensures i <= |s|
    ensures forall k :: 0 <= k < i ==> s[k] != '/'
    ensures i < |s| ==> s[i] == '/'
  {
    if s == [] || s[0] == '/' then 0 else 1 + FirstSlash(s[1..])
  }

  /** How a non-recursive listing shows an object name: the name itself when it holds no '/',
      otherwise its first-level prefix, ending in '/'. */
  function ListingEntry(name: string): (e: string)
    ensures e <= name
    ensures '/' !in name ==> e == name
    ensures '/' in name ==> |e| >= 1 && e[|e| - 1] == '/' && '/' !in e[..|e| - 1]
  {
    var i := FirstSlash(name);
    if i == |name| then name else name[..i + 1]
  }

  /** An object uploaded under the base name of its path is listed under that name. */
  lemma ListingOfBasename(path: string)
    ensures ListingEntry(Basename(path)) == Basename(path)
  {
    BasenameSplit(path);
  }

  /** "{bucket}/{object_name}" */
  function MinioPath(bucket: string, objectName: string): (path: string)
    ensures StartsWith(path, bucket) && EndsWith(path, objectName)
    ensures |path| == |bucket| + 1 + |objectName| && path[|bucket|] == '/'
  {
    bucket + "/" + objectName
  }

  lemma SlashAfterBucket(bucket: string, objectName: string)
    requires forall i :: 0 <= i < |bucket| ==> bucket[i] != '/'
    ensures var path := MinioPath(bucket, objectName);
      path[|bucket|] == '/' && forall i :: 0 <= i < |bucket| ==> path[i] != '/'
  {
  }

  /** Bucket names carry no '/', so the returned path determines both the bucket and the
      object name. */
  lemma MinioPathInjective(bucket1: string, name1: string, bucket2: string, name2: string)
    requires forall i :: 0 <= i < |bucket1| ==> bucket1[i] != '/'
    requires forall i :: 0 <= i < |bucket2| ==> bucket2[i] != '/'
    ensures MinioPath(bucket1, name1) == MinioPath(bucket2, name2) <==> bucket1 == bucket2 && name1 == name2
  {
    SlashAfterBucket(bucket1, name1);
    SlashAfterBucket(bucket2, name2);
    if MinioPath(bucket1, name1) == MinioPath(bucket2, name2) {
      var path := MinioPath(bucket1, name1);
      assert |bucket1| == |bucket2|;
      assert bucket1 == path[..|bucket1|] == bucket2;
      assert name1 == path[|bucket1| + 1..] == name2;
    }
  }

  /** upload_to_minio(file_path, object_name): creates the bucket only if absent, then uploads. */
  method UploadToMinio(store: ObjectStore, settings: Config.Settings, filePath: string, objectName: string,
                       transferFails: bool)
    returns (r: Result<string, string>)
    modifies store
    requires store.Valid()
    ensures store.Valid()
    ensures store.buckets == old(store.buckets) + {settings.minioBucketName}
    ensures r.Ok? <==> !transferFails
    ensures r.Ok? ==> r.value == MinioPath(settings.minioBucketName, objectName)
    ensures r.Ok? ==>
      store.objects == old(store.objects)[(settings.minioBucketName, objectName) := StoredObject(filePath, DefaultContentType)]
    ensures r.Err? ==> store.objects == old(store.objects)
  {
    var bucket := settings.minioBucketName;
    store.EnsureBucket(bucket);
    var put := store.FPutObject(bucket, objectName, filePath, DefaultContentType, transferFails);
    if put.Err? {
      return Err(put.error);
    }
    return Ok(MinioPath(bucket, objectName));
  }

  // ---------------------------------------------------------------------------
  // process_and_embed_document

  /** PyMuPDFLoader(...).load() followed by split_documents (chunk_size 500, overlap 50): the
      chunks, or the exception loading raises. */
  datatype SplitOutcome = LoadRaised(error: string) | Split(chunks: seq<Document>)

  /** What process_and_embed_document returns or raises. */
  datatype ProcessOutcome = Returned(count: nat) | Raised(error: string)

  /** The loop body: doc.metadata["source"] = file_name; doc.metadata["minio_path"] = minio_path. */
  function Stamp(d: Document, fileName: string, minioPath: string): Document {
    Document(d.pageContent, Put(Put(d.metadata, "source", PyStr(fileName)), "minio_path", PyStr(minioPath)))
  }

  /** Every chunk, stamped, in the original order. */
  function StampAll(chunks: seq<Document>, fileName: string, minioPath: string): (stamped: seq<Document>)
    ensures |stamped| == |chunks|
    ensures forall i :: 0 <= i < |chunks| ==> stamped[i] == Stamp(chunks[i], fileName, minioPath)
  {
    seq(|chunks|, i requires 0 <= i < |chunks| => Stamp(chunks[i], fileName, minioPath))
  }

  /** A stamped chunk keeps its text, names its file and MinIO path, and every other metadata
      entry is as it was. */
  lemma StampFields(d: Document, fileName: string, minioPath: string, key: string)
    requires UniqueKeys(d.metadata)
    ensures var s := Stamp(d, fileName, minioPath);
      && s.pageContent == d.pageContent
      && UniqueKeys(s.metadata)
      && Get(s.metadata, "source") == Some(PyStr(fileName))
      && Get(s.metadata, "minio_path") == Some(PyStr(minioPath))
      && (key != "source" && key != "minio_path" ==> Get(s.metadata, key) == Get(d.metadata, key))
  {
    var once := Put(d.metadata, "source", PyStr(fileName));
    PutKeys(d.metadata, "source", PyStr(fileName));
    PutKeys(once, "minio_path", PyStr(minioPath));
    GetPut(once, "minio_path", PyStr(minioPath), "source");
    GetPut(once, "minio_path", PyStr(minioPath), "minio_path");
    GetPut(d.metadata, "source", PyStr(fileName), "source");
    GetPut(once, "minio_path", PyStr(minioPath), key);
    GetPut(d.metadata, "source", PyStr(fileName), key);
  }

  /** Stamping the second time changes nothing. */
  lemma StampIdempotent(d: Document, fileName: string, minioPath: string)
    requires UniqueKeys(d.metadata)
    ensures Stamp(Stamp(d, fileName, minioPath), fileName, minioPath) == Stamp(d, fileName, minioPath)
  {
    var s := Stamp(d, fileName, minioPath);
    StampFields(d, fileName, minioPath, "source");
    PutReplaces(s.metadata, "source", PyStr(fileName));
    PutReplaces(s.metadata, "minio_path", PyStr(minioPath));
  }

  /** Putting the value a key already has gives back the same dict. */
  lemma {:induction false} PutReplaces<V>(d: Dict<V>, k: string, v: V)
    requires Get(d, k) == Some(v)
    ensures Put(d, k, v) == d
  {
    if d != [] && d[0].0 != k {
      GetFirst(d, k);
      PutReplaces(d[1..], k, v);
      assert d == [d[0]] + d[1..];
    } else if d != [] {
      GetFirst(d, k);
    }
  }

  /** The Milvus server: documents per collection, in insertion order (ids are automatic). */
  class VectorStore {
    var collections: map<string, seq<Document>>

    constructor ()
      ensures collections == map[]
    {
      collections := map[];
    }

    function Contents(name: string): seq<Document>
      reads this
    {
      if name in collections then collections[name] else []
    }

    /** add_documents(docs): the collection is created if it is missing, then the documents
        are inserted batch by batch; a failing insert raises and leaves the earlier batches
        stored. */
    method AddDocuments(name: string, docs: seq<Document>, fault: Option<WriteFault>) returns (r: Option<string>)
      modifies this
      ensures r == if WriteFails(docs, fault) then Some(fault.value.error) else None
      ensures collections == old(collections)[name := old(Contents(name)) + StoredPrefix(docs, fault)]
    {
      var before := Contents(name);
      collections := collections[name := before];
      var batch := 0;
      assert before + docs[..0] == before;
      while batch * InsertBatchSize < |docs|
        invariant collections == old(collections)[name := before + docs[..Min(batch * InsertBatchSize, |docs|)]]
        invariant fault.Some? ==> batch <= fault.value.batch
        decreases |docs| - batch * InsertBatchSize
      {
        var start := batch * InsertBatchSize;
        var end := Min(start + InsertBatchSize, |docs|);
        if fault.Some? && fault.value.batch == batch {
          return Some(fault.value.error);
        }
        assert Contents(name) == before + docs[..start];
        assert before + docs[..end] == before + docs[..start] + docs[start..end] by {
          assert docs[..end] == docs[..start] + docs[start..end];
        }
        collections := collections[name := Contents(name) + docs[start..end]];
        batch := batch + 1;
        assert Min(batch * InsertBatchSize, |docs|) == end;
      }
      assert docs[..|docs|] == docs;
      return None;
    }
  }

  /** Milvus add_texts inserts the documents in batches of this many. */
  const InsertBatchSize := 1000

  /** The insert that raises: its batch number and the error. A fault naming a batch past the
      last one never happens. */
  datatype WriteFault = WriteFault(batch: nat, error: string)

  /** Whether the write of docs raises under this fault. */
  predicate WriteFails(docs: seq<Document>, fault: Option<WriteFault>) {
    fault.Some? && fault.value.batch * InsertBatchSize < |docs|
  }

  function Min(a: int, b: int): int {
    if a < b then a else b
  }

  /** The documents stored by a write: all of them, or the whole batches before the one that
      raised. */
  function StoredPrefix(docs: seq<Document>, fault: Option<WriteFault>): (stored: seq<Document>)
    ensures stored <= docs
    ensures |stored| == |docs| <==> !WriteFails(docs, fault)
    ensures WriteFails(docs, fault) ==> |stored| == fault.value.batch * InsertBatchSize
  {
    if WriteFails(docs, fault) then docs[..fault.value.batch * InsertBatchSize] else docs
  }

  /** What process_and_embed_document returns or raises, from the three things that can go
      differently: the upload, loading and splitting, and the vector-store write. */
  function ProcessOutcomeOf(uploadFails: bool, split: SplitOutcome, writeFault: Option<WriteFault>): (r: ProcessOutcome)
    ensures r == Returned(0) <==> uploadFails || split == Split([])
    ensures r.Returned? && r.count > 0 ==> split.Split? && r.count == |split.chunks|
    ensures !uploadFails && split.LoadRaised? ==> r == Raised(split.error)
    ensures !uploadFails && split.Split? && split.chunks != [] ==>
      r == if WriteFails(split.chunks, writeFault) then Raised(writeFault.value.error) else Returned(|split.chunks|)
  {
    if uploadFails then Returned(0)
    else match split
      case LoadRaised(e) => Raised(e)
      case Split(chunks) =>
        if chunks == [] then Returned(0)
        else if WriteFails(chunks, writeFault) then Raised(writeFault.value.error)
        else Returned(|chunks|)
  }

  /** The chunks a call adds to the collection: a prefix of the stamped chunks, all of them
      when it returns a positive count, and whole batches only when the write raised. */
  function WrittenChunks(bucket: string, filePath: string, uploadFails: bool, split: SplitOutcome,
                         writeFault: Option<WriteFault>): (written: seq<Document>)
    ensures split.Split? ==>
      written <= StampAll(split.chunks, Basename(filePath), MinioPath(bucket, Basename(filePath)))
    ensures var r := ProcessOutcomeOf(uploadFails, split, writeFault);
      && (r.Returned? ==> |written| == r.count)
      && (r.Raised? && split.Split? ==>
            |written| < |split.chunks| && |written| % InsertBatchSize == 0)
  {
    if !uploadFails && split.Split? && split.chunks != []
    then StoredPrefix(StampAll(split.chunks, Basename(filePath), MinioPath(bucket, Basename(filePath))), writeFault)
    else []
  }

  /** The stamping loop, over the chunks in place. */
  method StampChunks(chunks: seq<Document>, fileName: string, minioPath: string) returns (docs: array<Document>)
    ensures fresh(docs)
    ensures docs[..] == StampAll(chunks, fileName, minioPath)
  {
    docs := new Document[|chunks|](i requires 0 <= i < |chunks| => chunks[i]);
    for i := 0 to docs.Length
      invariant docs[..i] == StampAll(chunks[..i], fileName, minioPath)
      invariant docs[i..] == chunks[i..]
    {
      docs[i] := Stamp(docs[i], fileName, minioPath);
    }
    assert chunks[..docs.Length] == chunks;
  }

  /** process_and_embed_document(file_path, collection_name). */
  method ProcessAndEmbedDocument(store: ObjectStore, vectors: VectorStore, settings: Config.Settings,
                                 filePath: string, collectionName: string,
                                 uploadFails: bool, split: string -> SplitOutcome, writeFault: Option<WriteFault>)
    returns (r: ProcessOutcome)
    modifies store, vectors
    requires store.Valid()
    ensures store.Valid()
    // the original always goes to MinIO first, under its base name
    ensures var fileName := Basename(filePath);
      && store.buckets == old(store.buckets) + {settings.minioBucketName}
      && store.objects == if uploadFails then old(store.objects)
           else old(store.objects)[(settings.minioBucketName, fileName) := StoredObject(filePath, DefaultContentType)]
    ensures r == ProcessOutcomeOf(uploadFails, split(filePath), writeFault)
    ensures vectors.Contents(collectionName) == old(vectors.Contents(collectionName)) +
      WrittenChunks(settings.minioBucketName, filePath, uploadFails, split(filePath), writeFault)
    ensures forall name :: name != collectionName ==> vectors.Contents(name) == old(vectors.Contents(name))
    // the vector store is written only once the file is uploaded and split into chunks
    ensures vectors.collections ==
      if !uploadFails && split(filePath).Split? && split(filePath).chunks != []
      then old(vectors.collections)[collectionName := old(vectors.Contents(collectionName)) +
             WrittenChunks(settings.minioBucketName, filePath, uploadFails, split(filePath), writeFault)]
      else old(vectors.collections)
  {
    var fileName := Basename(filePath);
    var uploaded := UploadToMinio(store, settings, filePath, fileName, uploadFails);
    if uploaded.Err? {
      return Returned(0);
    }
    var minioPath := uploaded.value;
    var outcome := split(filePath);
    if outcome.LoadRaised? {
      return Raised(outcome.error);
    }
    var chunks := outcome.chunks;
    if chunks == [] {
      return Returned(0);
    }
    var docs := StampChunks(chunks, fileName, minioPath);
    var failed := vectors.AddDocuments(collectionName, docs[..], writeFault);
    if failed.Some? {
      return Raised(failed.value);
    }
    return Returned(|chunks|);
  }
}
