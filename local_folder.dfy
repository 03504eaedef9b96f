/**
 * The PDF scan shared by scripts/batch_ingest.py and scripts/sync_minio.py: os.walk over a
 * folder, keeping the files whose lower-cased name ends in ".pdf", each with its full path
 * os.path.join(root, name). The walk itself is an input: the (root, files) steps os.walk
 * yields, in its order.
 */
module LocalFolder {

  import opened Text

  /** One step of os.walk: a directory and the names of the files directly inside it. */
  datatype WalkEntry = WalkEntry(root: string, files: seq<string>)

  /** A PDF found by the scan: its full path and its bare file name. */
  datatype PdfFile = PdfFile(path: string, name: string)

  /** The PDFs among one directory's files, in listing order. */
  function EntryPdfs(root: string, files: seq<string>): seq<PdfFile> {
    if files == [] then []
    else
      var name := files[|files| - 1];
      EntryPdfs(root, files[..|files| - 1]) + (if HasPdfSuffixIgnoringCase(name) then [PdfFile(PathJoin(root, name), name)] else [])
  }

  /** The PDFs of the whole walk, directory by directory. */
  function PdfFiles(walk: seq<WalkEntry>): seq<PdfFile> {
    if walk == [] then []
    else PdfFiles(walk[..|walk| - 1]) + EntryPdfs(walk[|walk| - 1].root, walk[|walk| - 1].files)
  }

  /** The full paths of a scan, in order. */
  function Paths(pdfs: seq<PdfFile>): (paths: seq<string>)
    ensures |paths| == |pdfs| && forall i :: 0 <= i < |pdfs| ==> paths[i] == pdfs[i].path
  {
    seq(|pdfs|, i requires 0 <= i < |pdfs| => pdfs[i].path)
  }

  lemma PathsAppend(a: seq<PdfFile>, b: seq<PdfFile>)
    ensures Paths(a + b) == Paths(a) + Paths(b)
  {
  }

  /** One more file of a directory listed. */
  lemma EntryPdfsStep(root: string, files: seq<string>, j: nat)
    requires j < |files|
    ensures EntryPdfs(root, files[..j + 1]) == EntryPdfs(root, files[..j]) +
      (if HasPdfSuffixIgnoringCase(files[j]) then [PdfFile(PathJoin(root, files[j]), files[j])] else [])
  {
    assert files[..j + 1][..j] == files[..j];
  }

  /** One more directory of the walk scanned. */
  lemma PdfFilesStep(walk: seq<WalkEntry>, i: nat)
    requires i < |walk|
    ensures PdfFiles(walk[..i + 1]) == PdfFiles(walk[..i]) + EntryPdfs(walk[i].root, walk[i].files)
  {
    assert walk[..i + 1][..i] == walk[..i];
  }

  /** Something is found in a directory exactly for each of its files with a PDF name. */
  lemma {:induction false} EntryPdfsExact(root: string, files: seq<string>)
    ensures forall f :: f in EntryPdfs(root, files) <==>
      f.name in files && HasPdfSuffixIgnoringCase(f.name) && f.path == PathJoin(root, f.name)
  {
    if files != [] {
      var init := files[..|files| - 1];
      EntryPdfsExact(root, init);
      assert files == init + [files[|files| - 1]];
    }
  }

  /** f is a PDF listed in step i of the walk, with the full path the scan gives it. */
  predicate ListedAt(walk: seq<WalkEntry>, i: int, f: PdfFile) {
    0 <= i < |walk| && f.name in walk[i].files && HasPdfSuffixIgnoringCase(f.name) && f.path == PathJoin(walk[i].root, f.name)
  }

  /** The scan finds exactly the files with a PDF name, each under its own directory. */
  lemma {:induction false} PdfFilesExact(walk: seq<WalkEntry>)
    ensures forall f :: f in PdfFiles(walk) <==> exists i :: ListedAt(walk, i, f)
  {
    if walk != [] {
      var n := |walk| - 1;
      PdfFilesExact(walk[..n]);
      EntryPdfsExact(walk[n].root, walk[n].files);
      forall f | f in PdfFiles(walk) ensures exists i :: ListedAt(walk, i, f) {
        if f in PdfFiles(walk[..n]) {
          var i :| ListedAt(walk[..n], i, f);
          assert walk[..n][i] == walk[i];
          assert ListedAt(walk, i, f);
        } else {
          assert ListedAt(walk, n, f);
        }
      }
      forall f: PdfFile, i | ListedAt(walk, i, f) ensures f in PdfFiles(walk) {
        if i < n {
          assert walk[..n][i] == walk[i];
          assert ListedAt(walk[..n], i, f);
        }
      }
    }
  }

  /** File names never contain '/', so the base name of every full path found is the file
      name itself: ingestion (which names objects by base name) and the MinIO sync (which uses
      the file name) store a file under the same object name. */
  lemma {:induction false} PdfNamesAreBasenames(walk: seq<WalkEntry>)
    requires forall e, name :: e in walk && name in e.files ==> forall k :: 0 <= k < |name| ==> name[k] != '/'
    ensures forall f :: f in PdfFiles(walk) ==> Basename(f.path) == f.name
  {
    PdfFilesExact(walk);
    forall f | f in PdfFiles(walk) ensures Basename(f.path) == f.name {
      var i :| ListedAt(walk, i, f);
      assert walk[i] in walk;
      PdfSuffixCases(f.name);
      BasenameOfJoin(walk[i].root, f.name);
    }
  }
}
