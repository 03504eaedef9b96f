/**
 * scripts/batch_ingest.py: ingest every PDF under a folder, one file at a time, counting
 * successes and failures. Each file goes through process_and_embed_document with the faults
 * given per path; the console output and timing are not modelled.
 */
module BatchIngest {

  import opened Wrappers
  import opened Text
  import opened Documents
  import opened LocalFolder
  import Config
  import IngestionService

  const DefaultRoot := "data/pdfs"

  /** TARGET_DIR: the first command-line argument after the script name, if there is one. */
  function TargetDir(argv: seq<string>): (dir: string)
    ensures |argv| <= 1 ==> dir == "data/pdfs"
    ensures |argv| > 1 ==> dir == argv[1]
  {
    if |argv| > 1 then argv[1] else DefaultRoot
  }

  /** The faults met while processing each file, by path. */
  datatype Faults = Faults(uploadFails: string -> bool,
                           split: string -> IngestionService.SplitOutcome,
                           writeFault: string -> Option<IngestionService.WriteFault>)

  function Outcome(faults: Faults, path: string): IngestionService.ProcessOutcome {
    IngestionService.ProcessOutcomeOf(faults.uploadFails(path), faults.split(path), faults.writeFault(path))
  }

  /** A file counts as a success iff processing returned a positive chunk count. */
  predicate Succeeded(outcome: IngestionService.ProcessOutcome) {
    outcome.Returned? && outcome.count > 0
  }

  function SuccessCount(faults: Faults, paths: seq<string>): nat {
    if paths == [] then 0
    else SuccessCount(faults, paths[..|paths| - 1]) + (if Succeeded(Outcome(faults, paths[|paths| - 1])) then 1 else 0)
  }

  /** A return of 0 and a raised exception both count as a failure. */
  function FailCount(faults: Faults, paths: seq<string>): nat {
    if paths == [] then 0
    else FailCount(faults, paths[..|paths| - 1]) + (if Succeeded(Outcome(faults, paths[|paths| - 1])) then 0 else 1)
  }

  /** Every file is counted exactly once. */
  lemma {:induction false} CountsCoverAllFiles(faults: Faults, paths: seq<string>)
    ensures SuccessCount(faults, paths) + FailCount(faults, paths) == |paths|
  {
    if paths != [] {
      CountsCoverAllFiles(faults, paths[..|paths| - 1]);
    }
  }

  /** The success count is the number of files whose upload worked, whose split was
      non-empty and whose vector write did not raise. */
  lemma {:induction false} SuccessMeansStored(faults: Faults, paths: seq<string>)
    ensures SuccessCount(faults, paths) == |paths| <==>
      forall i :: 0 <= i < |paths| ==>
        !faults.uploadFails(paths[i]) && faults.split(paths[i]).Split? && faults.split(paths[i]).chunks != []
        && !IngestionService.WriteFails(faults.split(paths[i]).chunks, faults.writeFault(paths[i]))
  {
    if paths != [] {
      var init := paths[..|paths| - 1];
      SuccessMeansStored(faults, init);
      CountsCoverAllFiles(faults, init);
      assert forall i :: 0 <= i < |init| ==> init[i] == paths[i];
    }
  }

  /** The objects after uploading these files in order: each upload that works stores the
      file under its base name. */
  function UploadedObjects(objects: map<(string, string), IngestionService.StoredObject>, bucket: string,
                           faults: Faults, paths: seq<string>): map<(string, string), IngestionService.StoredObject>
  {
    if paths == [] then objects
    else
      var before := UploadedObjects(objects, bucket, faults, paths[..|paths| - 1]);
      var path := paths[|paths| - 1];
      if faults.uploadFails(path) then before
      else before[(bucket, Basename(path)) := IngestionService.StoredObject(path, IngestionService.DefaultContentType)]
  }

  /** The chunks written to the collection by these files, in order: those of each success,
      stamped with its file name and MinIO path. */
  function IngestedChunks(bucket: string, faults: Faults, paths: seq<string>): seq<Document> {
    if paths == [] then []
    else
      var path := paths[|paths| - 1];
      IngestedChunks(bucket, faults, paths[..|paths| - 1]) +
        IngestionService.WrittenChunks(bucket, path, faults.uploadFails(path), faults.split(path), faults.writeFault(path))
  }

  /** Processing one more file extends each fold by that file's step. */
  lemma FoldStep(objects: map<(string, string), IngestionService.StoredObject>, bucket: string,
                 faults: Faults, done: seq<string>, path: string)
    ensures UploadedObjects(objects, bucket, faults, done + [path]) ==
      UploadedObjects(UploadedObjects(objects, bucket, faults, done), bucket, faults, [path])
    ensures IngestedChunks(bucket, faults, done + [path]) == IngestedChunks(bucket, faults, done) +
      IngestionService.WrittenChunks(bucket, path, faults.uploadFails(path), faults.split(path), faults.writeFault(path))
    ensures SuccessCount(faults, done + [path]) == SuccessCount(faults, done) + (if Succeeded(Outcome(faults, path)) then 1 else 0)
    ensures FailCount(faults, done + [path]) == FailCount(faults, done) + (if Succeeded(Outcome(faults, path)) then 0 else 1)
  {
    assert (done + [path])[..|done|] == done;
    assert [path][..0] == [];
  }

  /** The objects fold after one more upload. */
  lemma ObjectsStep(objects0: map<(string, string), IngestionService.StoredObject>, bucket: string, faults: Faults,
                    done: seq<string>, path: string,
                    before: map<(string, string), IngestionService.StoredObject>,
                    after: map<(string, string), IngestionService.StoredObject>)
    requires before == UploadedObjects(objects0, bucket, faults, done)
    requires after == if faults.uploadFails(path) then before
      else before[(bucket, Basename(path)) := IngestionService.StoredObject(path, IngestionService.DefaultContentType)]
    ensures after == UploadedObjects(objects0, bucket, faults, done + [path])
  {
    FoldStep(objects0, bucket, faults, done, path);
  }

  /** The chunks fold after one more file's write. */
  lemma ChunksStep(contents0: seq<Document>, bucket: string, faults: Faults, done: seq<string>, path: string,
                   before: seq<Document>, after: seq<Document>)
    requires before == contents0 + IngestedChunks(bucket, faults, done)
    requires after == before +
      IngestionService.WrittenChunks(bucket, path, faults.uploadFails(path), faults.split(path), faults.writeFault(path))
    ensures after == contents0 + IngestedChunks(bucket, faults, done + [path])
  {
    FoldStep(map[], bucket, faults, done, path);
  }

  /** The counts after one more file. */
  lemma CountsStep(faults: Faults, done: seq<string>, path: string)
    ensures SuccessCount(faults, done + [path]) == SuccessCount(faults, done) + (if Succeeded(Outcome(faults, path)) then 1 else 0)
    ensures FailCount(faults, done + [path]) == FailCount(faults, done) + (if Succeeded(Outcome(faults, path)) then 0 else 1)
  {
    FoldStep(map[], "", faults, done, path);
  }

  /** How batch_ingest_recursive ends. */
  datatype BatchResult = RootMissing | NoPdfFiles | Finished(successCount: nat, failCount: nat, totalFiles: nat)

  /** The first loop: the full paths of the PDFs, in walk order. */
  method CollectPdfFiles(walk: seq<WalkEntry>) returns (pdfFiles: seq<string>)
    ensures pdfFiles == Paths(PdfFiles(walk))
  {
    pdfFiles := [];
    for i := 0 to |walk|
      invariant pdfFiles == Paths(PdfFiles(walk[..i]))
    {
      var entry := walk[i];
      ghost var before := pdfFiles;
      for j := 0 to |entry.files|
        invariant pdfFiles == before + Paths(EntryPdfs(entry.root, entry.files[..j]))
      {
        var name := entry.files[j];
        EntryPdfsStep(entry.root, entry.files, j);
        PathsAppend(EntryPdfs(entry.root, entry.files[..j]),
                    if HasPdfSuffixIgnoringCase(name) then [PdfFile(PathJoin(entry.root, name), name)] else []);
        if HasPdfSuffixIgnoringCase(name) {
          pdfFiles := pdfFiles + [PathJoin(entry.root, name)];
        }
      }
      assert entry.files[..|entry.files|] == entry.files;
      PdfFilesStep(walk, i);
      PathsAppend(PdfFiles(walk[..i]), EntryPdfs(entry.root, entry.files));
    }
    assert walk[..|walk|] == walk;
  }

  /** One iteration of the processing loop, after the files in done: process_and_embed_document
      for the next path, then the success or the failure counted. */
  method ProcessNext(store: IngestionService.ObjectStore, vectors: IngestionService.VectorStore,
                     settings: Config.Settings, faults: Faults, path: string,
                     ghost done: seq<string>, ghost objects0: map<(string, string), IngestionService.StoredObject>,
                     ghost contents0: seq<Document>, successCount: nat, failCount: nat)
    returns (successCount': nat, failCount': nat)
    modifies store, vectors
    requires store.Valid()
    requires successCount == SuccessCount(faults, done) && failCount == FailCount(faults, done)
    requires store.objects == UploadedObjects(objects0, settings.minioBucketName, faults, done)
    requires vectors.Contents(settings.collectionName) == contents0 + IngestedChunks(settings.minioBucketName, faults, done)
    ensures store.Valid()
    ensures successCount' == SuccessCount(faults, done + [path]) && failCount' == FailCount(faults, done + [path])
    ensures store.buckets == old(store.buckets) + {settings.minioBucketName}
    ensures store.objects == UploadedObjects(objects0, settings.minioBucketName, faults, done + [path])
    ensures vectors.Contents(settings.collectionName) ==
      contents0 + IngestedChunks(settings.minioBucketName, faults, done + [path])
    ensures forall name :: name != settings.collectionName ==> vectors.Contents(name) == old(vectors.Contents(name))
  {
    ghost var objectsBefore := store.objects;
    ghost var contentsBefore := vectors.Contents(settings.collectionName);
    var outcome := IngestionService.ProcessAndEmbedDocument(store, vectors, settings, path, settings.collectionName,
                                                            faults.uploadFails(path), faults.split, faults.writeFault(path));
    ObjectsStep(objects0, settings.minioBucketName, faults, done, path, objectsBefore, store.objects);
    ChunksStep(contents0, settings.minioBucketName, faults, done, path, contentsBefore,
               vectors.Contents(settings.collectionName));
    CountsStep(faults, done, path);
    if outcome.Returned? && outcome.count > 0 {
      successCount', failCount' := successCount + 1, failCount;
    } else {
      successCount', failCount' := successCount, failCount + 1;
    }
  }

  /** The processing loop over the collected files: every file is processed, in order, even
      after one raises. */
  method ProcessAll(store: IngestionService.ObjectStore, vectors: IngestionService.VectorStore,
                    settings: Config.Settings, paths: seq<string>, faults: Faults)
    returns (successCount: nat, failCount: nat)
    modifies store, vectors
    requires store.Valid()
    ensures store.Valid()
    ensures successCount == SuccessCount(faults, paths) && failCount == FailCount(faults, paths)
    ensures store.buckets == old(store.buckets) + (if paths == [] then {} else {settings.minioBucketName})
    ensures store.objects == UploadedObjects(old(store.objects), settings.minioBucketName, faults, paths)
    ensures vectors.Contents(settings.collectionName) ==
      old(vectors.Contents(settings.collectionName)) + IngestedChunks(settings.minioBucketName, faults, paths)
    ensures forall name :: name != settings.collectionName ==> vectors.Contents(name) == old(vectors.Contents(name))
  {
    var bucket := settings.minioBucketName;
    var collection := settings.collectionName;
    successCount, failCount := 0, 0;
    for i := 0 to |paths|
      invariant store.Valid()
      invariant successCount == SuccessCount(faults, paths[..i])
      invariant failCount == FailCount(faults, paths[..i])
      invariant store.buckets == old(store.buckets) + (if i == 0 then {} else {bucket})
      invariant store.objects == UploadedObjects(old(store.objects), bucket, faults, paths[..i])
      invariant vectors.Contents(collection) == old(vectors.Contents(collection)) + IngestedChunks(bucket, faults, paths[..i])
      invariant forall name :: name != collection ==> vectors.Contents(name) == old(vectors.Contents(name))
    {
      assert paths[..i + 1] == paths[..i] + [paths[i]];
      successCount, failCount := ProcessNext(store, vectors, settings, faults, paths[i], paths[..i],
                                             old(store.objects), old(vectors.Contents(collection)), successCount, failCount);
    }
    assert paths[..|paths|] == paths;
  }

  /** batch_ingest_recursive(root_folder). rootExists stands for os.path.exists(root_folder)
      and walk for os.walk(root_folder). */
  method BatchIngestRecursive(store: IngestionService.ObjectStore, vectors: IngestionService.VectorStore,
                              settings: Config.Settings, rootExists: bool, walk: seq<WalkEntry>, faults: Faults)
    returns (r: BatchResult)
    modifies store, vectors
    requires store.Valid()
    ensures store.Valid()
    ensures !rootExists ==> r == RootMissing && unchanged(store) && unchanged(vectors)
    ensures rootExists && PdfFiles(walk) == [] ==> r == NoPdfFiles && unchanged(store) && unchanged(vectors)
    ensures rootExists && PdfFiles(walk) != [] ==>
      var paths := Paths(PdfFiles(walk));
      var bucket := settings.minioBucketName;
      var collection := settings.collectionName;
      && r == Finished(SuccessCount(faults, paths), FailCount(faults, paths), |paths|)
      && store.buckets == old(store.buckets) + {bucket}
      && store.objects == UploadedObjects(old(store.objects), bucket, faults, paths)
      && vectors.Contents(collection) == old(vectors.Contents(collection)) + IngestedChunks(bucket, faults, paths)
      && (forall name :: name != collection ==> vectors.Contents(name) == old(vectors.Contents(name)))
  {
    if !rootExists {
      return RootMissing;
    }
    var pdfFiles := CollectPdfFiles(walk);
    if |pdfFiles| == 0 {
      return NoPdfFiles;
    }
    var successCount, failCount := ProcessAll(store, vectors, settings, pdfFiles, faults);
    return Finished(successCount, failCount, |pdfFiles|);
  }
}
