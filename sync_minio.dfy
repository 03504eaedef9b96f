/**
 * scripts/sync_minio.py: upload every PDF under a local folder to the configured bucket, by
 * bare file name, counting the uploads that worked. Whether an upload fails is an input per
 * local path; a failure is caught and the scan goes on.
 */
module SyncMinio {

  import opened Text
  import opened LocalFolder
  import Config
  import IngestionService

  const PdfContentType := "application/pdf"

  /** The objects after uploading these files in order: a working upload stores the file
      under its bare name, replacing what was there. */
  function SyncedObjects(objects: map<(string, string), IngestionService.StoredObject>, bucket: string,
                         files: seq<PdfFile>, fails: string -> bool): map<(string, string), IngestionService.StoredObject>
  {
    if files == [] then objects
    else
      var before := SyncedObjects(objects, bucket, files[..|files| - 1], fails);
      var f := files[|files| - 1];
      if fails(f.path) then before else before[(bucket, f.name) := IngestionService.StoredObject(f.path, PdfContentType)]
  }

  /** The number of uploads that worked. */
  function UploadCount(files: seq<PdfFile>, fails: string -> bool): (n: nat)
    ensures n <= |files|
  {
    if files == [] then 0
    else UploadCount(files[..|files| - 1], fails) + (if fails(files[|files| - 1].path) then 0 else 1)
  }

  /** Every PDF is counted when, and only when, no upload failed. */
  lemma {:induction false} AllUploaded(files: seq<PdfFile>, fails: string -> bool)
    ensures UploadCount(files, fails) == |files| <==> forall i :: 0 <= i < |files| ==> !fails(files[i].path)
  {
    if files != [] {
      var init := files[..|files| - 1];
      AllUploaded(init, fails);
      assert forall i :: 0 <= i < |init| ==> init[i] == files[i];
    }
  }

  /** Position i holds the last file named name whose upload worked. */
  predicate LastUploadOf(files: seq<PdfFile>, fails: string -> bool, name: string, i: int) {
    && 0 <= i < |files| && files[i].name == name && !fails(files[i].path)
    && forall j :: i < j < |files| && files[j].name == name ==> fails(files[j].path)
  }

  /** Same-named files overwrite each other: the object under a name holds the last file of
      that name whose upload worked. */
  lemma {:induction false} LastUploadWins(objects: map<(string, string), IngestionService.StoredObject>, bucket: string,
                                          files: seq<PdfFile>, fails: string -> bool, name: string, i: nat)
    requires LastUploadOf(files, fails, name, i)
    ensures var synced := SyncedObjects(objects, bucket, files, fails);
      (bucket, name) in synced && synced[(bucket, name)] == IngestionService.StoredObject(files[i].path, PdfContentType)
  {
    var n := |files| - 1;
    if i < n {
      var init := files[..n];
      assert LastUploadOf(init, fails, name, i) by {
        forall j | i < j < |init| && init[j].name == name ensures fails(init[j].path) {
          assert init[j] == files[j];
        }
      }
      LastUploadWins(objects, bucket, init, fails, name, i);
    }
  }

  /** A name none of whose uploads worked keeps what the bucket held before. */
  lemma {:induction false} FailedNameUntouched(objects: map<(string, string), IngestionService.StoredObject>, bucket: string,
                                               files: seq<PdfFile>, fails: string -> bool, name: string)
    requires forall i :: 0 <= i < |files| && files[i].name == name ==> fails(files[i].path)
    ensures var synced := SyncedObjects(objects, bucket, files, fails);
      && ((bucket, name) in synced <==> (bucket, name) in objects)
      && ((bucket, name) in objects ==> synced[(bucket, name)] == objects[(bucket, name)])
  {
    if files != [] {
      var init := files[..|files| - 1];
      assert forall i :: 0 <= i < |init| ==> init[i] == files[i];
      FailedNameUntouched(objects, bucket, init, fails, name);
    }
  }

  /** One file of the scan: fput_object(bucket, name, path, content_type="application/pdf"),
      counted when it works. */
  method UploadNext(store: IngestionService.ObjectStore, bucket: string, f: PdfFile, fails: string -> bool,
                    ghost done: seq<PdfFile>, ghost objects0: map<(string, string), IngestionService.StoredObject>,
                    successCount: nat)
    returns (successCount': nat)
    modifies store`objects
    requires store.Valid() && bucket in store.buckets
    requires successCount == UploadCount(done, fails)
    requires store.objects == SyncedObjects(objects0, bucket, done, fails)
    ensures store.Valid()
    ensures successCount' == UploadCount(done + [f], fails)
    ensures store.objects == SyncedObjects(objects0, bucket, done + [f], fails)
  {
    assert (done + [f])[..|done|] == done;
    var put := store.FPutObject(bucket, f.name, f.path, PdfContentType, fails(f.path));
    successCount' := if put.Ok? then successCount + 1 else successCount;
  }

  /** sync_local_to_minio(local_folder), with walk standing for os.walk(local_folder). */
  method SyncLocalToMinio(store: IngestionService.ObjectStore, settings: Config.Settings, walk: seq<WalkEntry>,
                          fails: string -> bool)
    returns (successCount: nat)
    modifies store
    requires store.Valid()
    ensures store.Valid()
    ensures store.buckets == old(store.buckets) + {settings.minioBucketName}
    ensures successCount == UploadCount(PdfFiles(walk), fails)
    ensures successCount <= |PdfFiles(walk)|
    ensures store.objects == SyncedObjects(old(store.objects), settings.minioBucketName, PdfFiles(walk), fails)
  {
    var bucket := settings.minioBucketName;
    store.EnsureBucket(bucket);
    successCount := 0;
    ghost var done: seq<PdfFile> := [];
    for i := 0 to |walk|
      invariant store.Valid() && store.buckets == old(store.buckets) + {bucket}
      invariant done == PdfFiles(walk[..i])
      invariant successCount == UploadCount(done, fails)
      invariant store.objects == SyncedObjects(old(store.objects), bucket, done, fails)
    {
      var entry := walk[i];
      ghost var before := done;
      for j := 0 to |entry.files|
        invariant store.Valid() && store.buckets == old(store.buckets) + {bucket}
        invariant done == before + EntryPdfs(entry.root, entry.files[..j])
        invariant successCount == UploadCount(done, fails)
        invariant store.objects == SyncedObjects(old(store.objects), bucket, done, fails)
      {
        var filename := entry.files[j];
        EntryPdfsStep(entry.root, entry.files, j);
        if HasPdfSuffixIgnoringCase(filename) {
          var f := PdfFile(PathJoin(entry.root, filename), filename);
          successCount := UploadNext(store, bucket, f, fails, done, old(store.objects), successCount);
          done := done + [f];
        }
      }
      assert entry.files[..|entry.files|] == entry.files;
      PdfFilesStep(walk, i);
    }
    assert walk[..|walk|] == walk;
  }
}
