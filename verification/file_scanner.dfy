/**
 * The delta scan (backend/app/rag/file_scanner.py): compare the files found
 * under the index directory with the `file_path -> file_hash` index read back
 * from the vector store, and decide which files are new, updated or deleted.
 */
module FileScanner {
  import opened Outcomes
  import opened Text
  import opened Paths
  import opened VectorStore

  /** `SUPPORTED_EXTS`. */
  const SupportedExts: set<string> := {".mmd", ".md", ".pdf", ".csv", ".txt", ".markdown", ".json"}

  /** A file is in scope when its lower-cased suffix is a supported extension. */
  predicate IsSupported(p: Path) {
    Lower(p.suffix) in SupportedExts
  }

  newtype byte = x: int | 0 <= x < 256

  /** A regular file under the index directory, with `stat`'s times as ISO strings. */
  datatype DiskFile = DiskFile(path: Path, bytes: seq<byte>, createdAt: string, modifiedAt: string)

  /**
   * The collaborators the scan cannot see into: `_hash_file` (the MD5 hex
   * digest of the bytes), `read_text(errors="ignore")` and the text splitter's
   * `split_text`.
   */
  datatype Tools = Tools(
    hash: seq<byte> -> string,
    decode: seq<byte> -> string,
    split: string -> seq<string>)

  /** `file_path -> file_hash`, as `_load_existing_file_index` returns it. */
  type FileIndex = map<string, string>

  /** The key a file is indexed under: `str(path)`. */
  function Key(f: DiskFile): string {
    Str(f.path)
  }

  // ---------------------------------------------------------------------------
  // _load_existing_file_index
  // ---------------------------------------------------------------------------

  /** A metadata entry with a truthy `file_path` and a truthy `file_hash`. */
  predicate Indexable(m: Metadata) {
    Truthy(m.filePath) && Truthy(m.fileHash)
  }

  /** One step of the loop: `index[fp] = h` when both are truthy. */
  function Record(index: FileIndex, m: Metadata): FileIndex {
    if Indexable(m) then index[m.filePath.value := m.fileHash.value] else index
  }

  /** `_load_existing_file_index`: fold the collection's metadata in order. */
  function LoadExistingFileIndex(c: Collection): FileIndex
    decreases |c|
  {
    if c == [] then map[]
    else Record(LoadExistingFileIndex(c[..|c| - 1]), c[|c| - 1].metadata)
  }

  /** Entry `i` of `c` records a hash for path `k`. */
  predicate IndexedAt(c: Collection, i: int, k: string) {
    0 <= i < |c| && Indexable(c[i].metadata) && c[i].metadata.filePath.value == k
  }

  /** Entry `i` is the last one that records a hash for `k`. */
  predicate LastIndexedAt(c: Collection, i: int, k: string) {
    IndexedAt(c, i, k) && forall j :: i < j < |c| ==> !IndexedAt(c, j, k)
  }

  /**
   * The index holds exactly the paths of indexable entries, each mapped to the
   * hash of its last indexable entry (later entries overwrite earlier ones).
   */
  lemma {:induction false} LoadExistingFileIndexSpec(c: Collection)
    ensures forall k :: k in LoadExistingFileIndex(c) <==> exists i :: IndexedAt(c, i, k)
    ensures forall k :: k in LoadExistingFileIndex(c) ==>
      exists i :: LastIndexedAt(c, i, k) && LoadExistingFileIndex(c)[k] == c[i].metadata.fileHash.value
    decreases |c|
  {
    if c != [] {
      var init := c[..|c| - 1];
      var n := |c| - 1;
      var m := c[n].metadata;
      LoadExistingFileIndexSpec(init);
      var prev := LoadExistingFileIndex(init);
      var index := LoadExistingFileIndex(c);
      assert index == Record(prev, m);
      forall i, k | 0 <= i < n
        ensures IndexedAt(c, i, k) <==> IndexedAt(init, i, k)
      {
        assert c[i] == init[i];
      }
      forall k
        ensures k in index <==> exists i :: IndexedAt(c, i, k)
      {
        if IndexedAt(c, n, k) {
          assert k in index;
        } else if k in index {
          assert k in prev;
          var i :| IndexedAt(init, i, k);
          assert IndexedAt(c, i, k);
        } else {
          assert k !in prev;
          forall i | 0 <= i < |c|
            ensures !IndexedAt(c, i, k)
          {
            if i < n {
              assert !IndexedAt(init, i, k);
            }
          }
        }
      }
      forall k | k in index
        ensures exists i :: LastIndexedAt(c, i, k) && index[k] == c[i].metadata.fileHash.value
      {
        if IndexedAt(c, n, k) {
          assert LastIndexedAt(c, n, k);
        } else {
          assert k in prev && index[k] == prev[k];
          var i :| LastIndexedAt(init, i, k) && prev[k] == init[i].metadata.fileHash.value;
          assert c[i] == init[i];
          assert LastIndexedAt(c, i, k);
        }
      }
    }
  }

  // ---------------------------------------------------------------------------
  // scan_and_build_delta
  // ---------------------------------------------------------------------------

  /** `user_id or "global"`. */
  function UserTag(userId: Option<string>): string {
    if Truthy(userId) then userId.value else "global"
  }

  /** How a supported file compares with the index. */
  datatype Change = Unchanged | NewFile | UpdatedFile

  /** `prev_hash == file_hash` skips; a missing `prev_hash` is new; anything else is updated. */
  function Classify(index: FileIndex, key: string, h: string): Change {
    if key in index && index[key] == h then Unchanged
    else if key !in index then NewFile
    else UpdatedFile
  }

  /** `base_meta` with `chunk_index` set. */
  function ChunkMetadata(f: DiskFile, h: string, userId: Option<string>, i: nat): Metadata {
    Metadata(Some(Key(f)), Some(Name(f.path)), Some(h), Some(f.createdAt), Some(f.modifiedAt),
             Some(UserTag(userId)), Some(i))
  }

  /** The documents `enumerate(split_text(text))` produces for one file. */
  function ChunkDocuments(f: DiskFile, h: string, userId: Option<string>, chunks: seq<string>): seq<Document>
    decreases |chunks|
  {
    if chunks == [] then []
    else
      ChunkDocuments(f, h, userId, chunks[..|chunks| - 1])
        + [Document(chunks[|chunks| - 1], ChunkMetadata(f, h, userId, |chunks| - 1))]
  }

  /** One document per chunk, in splitter order, chunk `i` carrying index `i`. */
  lemma {:induction false} ChunkDocumentsSpec(f: DiskFile, h: string, userId: Option<string>, chunks: seq<string>)
    ensures var docs := ChunkDocuments(f, h, userId, chunks);
      && |docs| == |chunks|
      && forall i :: 0 <= i < |docs| ==> docs[i] == Document(chunks[i], ChunkMetadata(f, h, userId, i))
    decreases |chunks|
  {
    if chunks != [] {
      ChunkDocumentsSpec(f, h, userId, chunks[..|chunks| - 1]);
    }
  }

  /** What the per-file loop has produced so far. */
  datatype Delta = Delta(docs: seq<Document>, newFiles: nat, updatedFiles: nat, purged: seq<string>)

  /** The chunks of a file's current text. */
  function Chunks(f: DiskFile, tools: Tools): seq<string> {
    tools.split(tools.decode(f.bytes))
  }

  /** One iteration of `for path in supported_files`. */
  function Step(d: Delta, index: FileIndex, f: DiskFile, userId: Option<string>, tools: Tools): Delta {
    var key := Key(f);
    var h := tools.hash(f.bytes);
    var emitted := ChunkDocuments(f, h, userId, Chunks(f, tools));
    match Classify(index, key, h)
    case Unchanged => d
    case NewFile => Delta(d.docs + emitted, d.newFiles + 1, d.updatedFiles, d.purged)
    case UpdatedFile => Delta(d.docs + emitted, d.newFiles, d.updatedFiles + 1, d.purged + [key])
  }

  /** The per-file loop over `files`, in order. */
  function ScanSupported(index: FileIndex, files: seq<DiskFile>, userId: Option<string>, tools: Tools): Delta
    decreases |files|
  {
    if files == [] then Delta([], 0, 0, [])
    else Step(ScanSupported(index, files[..|files| - 1], userId, tools), index, files[|files| - 1], userId, tools)
  }

  /** `supported_files`: the discovered files with a supported suffix, in order. */
  function SupportedFiles(files: seq<DiskFile>): (r: seq<DiskFile>)
    ensures forall f :: f in r <==> f in files && IsSupported(f.path)
    decreases |files|
  {
    if files == [] then []
    else
      var last := files[|files| - 1];
      assert files == files[..|files| - 1] + [last];
      SupportedFiles(files[..|files| - 1]) + (if IsSupported(last.path) then [last] else [])
  }

  /** `current_paths`: the keys of ALL discovered files, supported or not. */
  function CurrentPaths(files: seq<DiskFile>): set<string> {
    set f | f in files :: Key(f)
  }

  /** The indexed paths that are no longer on disk. */
  function RemovedPaths(index: FileIndex, files: seq<DiskFile>): set<string> {
    set k | k in index && k !in CurrentPaths(files)
  }

  /**
   * The outcome of one scan: `(docs, new_files, updated_files, deleted_files)`
   * together with the deletes it issued, first for updated files in scan order
   * (`purged`), then for removed paths (`removed`).
   */
  datatype ScanResult = ScanResult(
    docs: seq<Document>,
    newFiles: nat,
    updatedFiles: nat,
    deletedFiles: nat,
    purged: seq<string>,
    removed: set<string>)

  /** Reference definition of `scan_and_build_delta` against a given index. */
  function Scan(index: FileIndex, files: seq<DiskFile>, userId: Option<string>, tools: Tools): ScanResult {
    var d := ScanSupported(index, SupportedFiles(files), userId, tools);
    var removed := RemovedPaths(index, files);
    ScanResult(d.docs, d.newFiles, d.updatedFiles, |removed|, d.purged, removed)
  }

  /** The paths a sequence names. */
  function PathSet(paths: seq<string>): set<string> {
    set p | p in paths
  }

  /** Every path the scan deletes chunks for. */
  function DeletedSet(r: ScanResult): set<string> {
    PathSet(r.purged) + r.removed
  }

  /** The inner `for idx, chunk in enumerate(...)` loop: append one document per chunk. */
  method EmitChunks(f: DiskFile, h: string, userId: Option<string>, chunks: seq<string>)
    returns (docs: seq<Document>)
    ensures docs == ChunkDocuments(f, h, userId, chunks)
  {
    docs := [];
    var idx := 0;
    while idx < |chunks|
      invariant 0 <= idx <= |chunks|
      invariant docs == ChunkDocuments(f, h, userId, chunks[..idx])
    {
      assert chunks[..idx + 1][..idx] == chunks[..idx];
      docs := docs + [Document(chunks[idx], ChunkMetadata(f, h, userId, idx))];
      idx := idx + 1;
    }
    assert chunks[..|chunks|] == chunks;
  }

  /**
   * The deletion loop: one `delete_by_file_path` call and one count for each
   * indexed path missing from `currentPaths`, visiting the keys in an order
   * the model leaves open.
   */
  method DetectDeleted(index: FileIndex, currentPaths: set<string>)
    returns (deletedFiles: nat, calls: seq<string>)
    ensures deletedFiles == |calls|
    ensures forall p :: p in calls <==> p in index && p !in currentPaths
    ensures Distinct(calls)
  {
    deletedFiles := 0;
    calls := [];
    var remaining := index.Keys;
    while remaining != {}
      invariant remaining <= index.Keys
      invariant deletedFiles == |calls|
      invariant forall p :: p in calls <==> p in index && p !in remaining && p !in currentPaths
      invariant Distinct(calls)
      decreases remaining
    {
      var indexedPath :| indexedPath in remaining;
      if indexedPath !in currentPaths {
        calls := calls + [indexedPath];
        deletedFiles := deletedFiles + 1;
      }
      remaining := remaining - {indexedPath};
    }
  }

  /** No path repeats in a sequence. */
  predicate Distinct(s: seq<string>) {
    forall a, b :: 0 <= a < b < |s| ==> s[a] != s[b]
  }

  /** A sequence without repeats has as many elements as its set. */
  lemma {:induction false} DistinctCard(s: seq<string>)
    requires Distinct(s)
    ensures |PathSet(s)| == |s|
    decreases |s|
  {
    if s != [] {
      var init := s[..|s| - 1];
      DistinctCard(init);
      assert PathSet(s) == PathSet(init) + {s[|s| - 1]};
    }
  }

  /** The `for path in supported_files` loop. */
  method ScanFiles(index: FileIndex, supported: seq<DiskFile>, userId: Option<string>, tools: Tools)
    returns (docs: seq<Document>, newFiles: nat, updatedFiles: nat, deleteCalls: seq<string>)
    ensures Delta(docs, newFiles, updatedFiles, deleteCalls) == ScanSupported(index, supported, userId, tools)
  {
    docs, newFiles, updatedFiles, deleteCalls := [], 0, 0, [];
    var i := 0;
    while i < |supported|
      invariant 0 <= i <= |supported|
      invariant Delta(docs, newFiles, updatedFiles, deleteCalls) == ScanSupported(index, supported[..i], userId, tools)
    {
      var f := supported[i];
      var key := Key(f);
      var h := tools.hash(f.bytes);
      assert supported[..i + 1][..i] == supported[..i];
      if !(key in index && index[key] == h) {
        if key !in index {
          newFiles := newFiles + 1;
        } else {
          updatedFiles := updatedFiles + 1;
          deleteCalls := deleteCalls + [key];
        }
        var text := tools.decode(f.bytes);
        var emitted := EmitChunks(f, h, userId, tools.split(text));
        docs := docs + emitted;
      }
      i := i + 1;
    }
    assert supported[..|supported|] == supported;
  }

  /**
   * `scan_and_build_delta` as written: read the index from the collection,
   * loop over the supported files, then over the index's paths.
   */
  method ScanAndBuildDelta(store: Collection, files: seq<DiskFile>, userId: Option<string>, tools: Tools)
    returns (docs: seq<Document>, newFiles: nat, updatedFiles: nat, deletedFiles: nat, deleteCalls: seq<string>)
    ensures var expected := Scan(LoadExistingFileIndex(store), files, userId, tools);
      && docs == expected.docs
      && newFiles == expected.newFiles
      && updatedFiles == expected.updatedFiles
      && deletedFiles == expected.deletedFiles
      && |deleteCalls| == |expected.purged| + deletedFiles
      && deleteCalls[..|expected.purged|] == expected.purged
      && (forall p :: p in deleteCalls[|expected.purged|..] <==> p in expected.removed)
  {
    var index := LoadExistingFileIndex(store);
    var supported := SupportedFiles(files);
    var purged;
    docs, newFiles, updatedFiles, purged := ScanFiles(index, supported, userId, tools);
    var currentPaths := CurrentPaths(files);
    var removedCalls;
    deletedFiles, removedCalls := DetectDeleted(index, currentPaths);
    deleteCalls := purged + removedCalls;
    assert deleteCalls[..|purged|] == purged;
    assert deleteCalls[|purged|..] == removedCalls;
    assert PathSet(removedCalls) == RemovedPaths(index, files);
    DistinctCard(removedCalls);
  }
}
