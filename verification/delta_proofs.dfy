/**
 * Properties of the delta scan (backend/app/rag/file_scanner.py): where each
 * emitted document comes from, what the counters count, which deletes are
 * issued, and when a scan finds nothing to do.
 */
module DeltaProofs {
  import opened Outcomes
  import opened Text
  import opened Paths
  import opened VectorStore
  import opened FileScanner

  /** MD5 hex digests are never empty. */
  ghost predicate HashesNonEmpty(tools: Tools) {
    forall b :: tools.hash(b) != ""
  }

  /**
   * The suffix filter ignores case and admits exactly the seven listed
   * extensions: `report.MD` is scanned, `main.py` and a file without suffix are not.
   */
  lemma SupportedSuffixes(p: Path)
    ensures IsSupported(p) <==> IsSupported(p.(suffix := Upper(p.suffix)))
    ensures IsSupported(p.(suffix := ".MD")) && IsSupported(p.(suffix := ".Json"))
    ensures !IsSupported(p.(suffix := ".py")) && !IsSupported(p.(suffix := ""))
  {
    LowerOfUpper(p.suffix);
    assert Lower(".MD") == ".md";
    assert Lower(".Json") == ".json";
    assert Lower(".py") == ".py";
  }

  /** The classification of a file against the index. */
  function ChangeOf(index: FileIndex, f: DiskFile, tools: Tools): Change {
    Classify(index, Key(f), tools.hash(f.bytes))
  }

  /** `Classify` splits the files into the three cases the loop distinguishes. */
  lemma ClassifyCases(index: FileIndex, key: string, h: string)
    ensures Classify(index, key, h) == Unchanged <==> key in index && index[key] == h
    ensures Classify(index, key, h) == NewFile <==> key !in index
    ensures Classify(index, key, h) == UpdatedFile <==> key in index && index[key] != h
  {
  }

  // ---------------------------------------------------------------------------
  // Where documents come from
  // ---------------------------------------------------------------------------

  /** Document `d` is chunk `i` of file `f`, tagged with `f`'s current hash. */
  predicate IsChunkOf(d: Document, f: DiskFile, i: int, userId: Option<string>, tools: Tools) {
    var chunks := Chunks(f, tools);
    0 <= i < |chunks| && d == Document(chunks[i], ChunkMetadata(f, tools.hash(f.bytes), userId, i))
  }

  /** `d` is some chunk of a file of `files` that is new or updated. */
  ghost predicate FromChangedFile(d: Document, index: FileIndex, files: seq<DiskFile>, userId: Option<string>, tools: Tools) {
    exists f, i :: f in files && ChangeOf(index, f, tools) != Unchanged && IsChunkOf(d, f, i, userId, tools)
  }

  /** The documents one iteration emits for a new or updated file. */
  lemma StepDocuments(d: Delta, index: FileIndex, f: DiskFile, userId: Option<string>, tools: Tools)
    ensures var e := Step(d, index, f, userId, tools);
      e.docs == if ChangeOf(index, f, tools) == Unchanged then d.docs
                else d.docs + ChunkDocuments(f, tools.hash(f.bytes), userId, Chunks(f, tools))
  {
  }

  /** Each document the loop emits is a chunk of a new or updated file. */
  lemma {:induction false} ScanSupportedProvenance(index: FileIndex, files: seq<DiskFile>, userId: Option<string>, tools: Tools)
    ensures forall d :: d in ScanSupported(index, files, userId, tools).docs ==> FromChangedFile(d, index, files, userId, tools)
    decreases |files|
  {
    if files != [] {
      var init := files[..|files| - 1];
      var last := files[|files| - 1];
      ScanSupportedProvenance(index, init, userId, tools);
      var h := tools.hash(last.bytes);
      ChunkDocumentsSpec(last, h, userId, Chunks(last, tools));
      var prev := ScanSupported(index, init, userId, tools);
      var emitted := ChunkDocuments(last, h, userId, Chunks(last, tools));
      StepDocuments(prev, index, last, userId, tools);
      forall d | d in ScanSupported(index, files, userId, tools).docs
        ensures FromChangedFile(d, index, files, userId, tools)
      {
        if d in prev.docs {
          assert FromChangedFile(d, index, init, userId, tools);
          var f, i :| f in init && ChangeOf(index, f, tools) != Unchanged && IsChunkOf(d, f, i, userId, tools);
          assert f in files;
        } else {
          var i :| 0 <= i < |emitted| && emitted[i] == d;
          assert IsChunkOf(d, last, i, userId, tools);
        }
      }
    }
  }

  /** Every chunk of every new or updated file is emitted by the loop. */
  lemma {:induction false} ScanSupportedCompleteness(index: FileIndex, files: seq<DiskFile>, userId: Option<string>, tools: Tools)
    ensures forall f, i :: f in files && ChangeOf(index, f, tools) != Unchanged && 0 <= i < |Chunks(f, tools)| ==>
      Document(Chunks(f, tools)[i], ChunkMetadata(f, tools.hash(f.bytes), userId, i)) in ScanSupported(index, files, userId, tools).docs
    decreases |files|
  {
    if files != [] {
      var init := files[..|files| - 1];
      var last := files[|files| - 1];
      assert files == init + [last];
      ScanSupportedCompleteness(index, init, userId, tools);
      var h := tools.hash(last.bytes);
      ChunkDocumentsSpec(last, h, userId, Chunks(last, tools));
      StepDocuments(ScanSupported(index, init, userId, tools), index, last, userId, tools);
    }
  }

  /**
   * Every document a scan emits is chunk `i` of a discovered file that has a
   * supported suffix and is new or updated, and carries that file's path,
   * name, current hash and times, the user tag, and `chunk_index == i`.
   * Conversely every chunk of every such file is emitted.
   */
  lemma ScanDocuments(index: FileIndex, files: seq<DiskFile>, userId: Option<string>, tools: Tools)
    ensures var docs := Scan(index, files, userId, tools).docs;
      && (forall d :: d in docs ==>
            exists f, i :: && f in files && IsSupported(f.path)
                          && ChangeOf(index, f, tools) != Unchanged
                          && IsChunkOf(d, f, i, userId, tools))
      && (forall f, i :: f in files && IsSupported(f.path) && ChangeOf(index, f, tools) != Unchanged
                         && 0 <= i < |Chunks(f, tools)| ==>
            Document(Chunks(f, tools)[i], ChunkMetadata(f, tools.hash(f.bytes), userId, i)) in docs)
  {
    var supported := SupportedFiles(files);
    ScanSupportedProvenance(index, supported, userId, tools);
    ScanSupportedCompleteness(index, supported, userId, tools);
    var docs := Scan(index, files, userId, tools).docs;
    assert docs == ScanSupported(index, supported, userId, tools).docs;
    forall d | d in docs
      ensures exists f, i :: && f in files && IsSupported(f.path)
                            && ChangeOf(index, f, tools) != Unchanged
                            && IsChunkOf(d, f, i, userId, tools)
    {
      assert FromChangedFile(d, index, supported, userId, tools);
      var f, i :| f in supported && ChangeOf(index, f, tools) != Unchanged && IsChunkOf(d, f, i, userId, tools);
    }
  }

  /** The metadata of an emitted chunk, field by field. */
  lemma ChunkMetadataFields(f: DiskFile, h: string, userId: Option<string>, i: nat)
    ensures var m := ChunkMetadata(f, h, userId, i);
      && m.filePath == Some(Str(f.path)) && m.fileName == Some(Name(f.path)) && m.fileHash == Some(h)
      && m.userId == Some(if userId.Some? && userId.value != "" then userId.value else "global")
      && m.chunkIndex == Some(i)
  {
  }

  // ---------------------------------------------------------------------------
  // Counters and deletes
  // ---------------------------------------------------------------------------

  /** Paths of supported files that the index does not know. */
  function NewPaths(index: FileIndex, files: seq<DiskFile>, tools: Tools): set<string> {
    set f | f in files && IsSupported(f.path) && ChangeOf(index, f, tools) == NewFile :: Key(f)
  }

  /** Paths of supported files whose stored hash differs from the current one. */
  function UpdatedPaths(index: FileIndex, files: seq<DiskFile>, tools: Tools): set<string> {
    set f | f in files && IsSupported(f.path) && ChangeOf(index, f, tools) == UpdatedFile :: Key(f)
  }

  /** No two positions of the listing carry the same path (true of one `rglob` walk). */
  predicate DistinctKeys(files: seq<DiskFile>) {
    forall a, b :: 0 <= a < b < |files| ==> Key(files[a]) != Key(files[b])
  }

  /** In a listing with distinct paths, a path names a single file. */
  lemma SameKeySameFile(files: seq<DiskFile>, f: DiskFile, g: DiskFile)
    requires DistinctKeys(files) && f in files && g in files
    requires Key(f) == Key(g)
    ensures f == g
  {
    var a :| 0 <= a < |files| && files[a] == f;
    var b :| 0 <= b < |files| && files[b] == g;
    assert !(a < b) && !(b < a);
  }

  /** The last file's path does not occur earlier in a listing with distinct paths. */
  lemma LastKeyFresh(files: seq<DiskFile>)
    requires DistinctKeys(files) && files != []
    ensures forall f :: f in files[..|files| - 1] ==> Key(f) != Key(files[|files| - 1])
  {
    var init := files[..|files| - 1];
    forall f | f in init
      ensures Key(f) != Key(files[|files| - 1])
    {
      var a :| 0 <= a < |init| && init[a] == f;
      assert files[a] == f;
    }
  }

  /** Paths of the files in a listing that a scan classifies as `c`. */
  function PathsOfKind(index: FileIndex, files: seq<DiskFile>, tools: Tools, c: Change): set<string> {
    set f | f in files && ChangeOf(index, f, tools) == c :: Key(f)
  }

  /** Extending a listing by a file with a fresh path adds that path to its kind only. */
  lemma PathsOfKindSnoc(index: FileIndex, init: seq<DiskFile>, last: DiskFile, tools: Tools, c: Change)
    requires forall f :: f in init ==> Key(f) != Key(last)
    ensures Key(last) !in PathsOfKind(index, init, tools, c)
    ensures PathsOfKind(index, init + [last], tools, c)
      == PathsOfKind(index, init, tools, c) + (if ChangeOf(index, last, tools) == c then {Key(last)} else {})
  {
  }

  /** What one iteration adds to the counters and deletes. */
  lemma StepEffect(d: Delta, index: FileIndex, f: DiskFile, userId: Option<string>, tools: Tools)
    ensures var e := Step(d, index, f, userId, tools);
      && e.newFiles == d.newFiles + (if ChangeOf(index, f, tools) == NewFile then 1 else 0)
      && e.updatedFiles == d.updatedFiles + (if ChangeOf(index, f, tools) == UpdatedFile then 1 else 0)
      && e.purged == d.purged + (if ChangeOf(index, f, tools) == UpdatedFile then [Key(f)] else [])
  {
  }

  /** The loop's counters, per change kind, over a listing with distinct paths. */
  lemma {:induction false} ScanSupportedCounts(index: FileIndex, files: seq<DiskFile>, userId: Option<string>, tools: Tools)
    requires DistinctKeys(files)
    ensures var d := ScanSupported(index, files, userId, tools);
      && d.newFiles == |PathsOfKind(index, files, tools, NewFile)|
      && d.updatedFiles == |PathsOfKind(index, files, tools, UpdatedFile)|
    decreases |files|
  {
    if files != [] {
      var init := files[..|files| - 1];
      var last := files[|files| - 1];
      assert files == init + [last];
      LastKeyFresh(files);
      ScanSupportedCounts(index, init, userId, tools);
      StepEffect(ScanSupported(index, init, userId, tools), index, last, userId, tools);
      PathsOfKindSnoc(index, init, last, tools, NewFile);
      PathsOfKindSnoc(index, init, last, tools, UpdatedFile);
    }
  }

  /**
   * The loop deletes each updated path once, in scan order, and nothing else,
   * over a listing with distinct paths.
   */
  lemma {:induction false} ScanSupportedPurged(index: FileIndex, files: seq<DiskFile>, userId: Option<string>, tools: Tools)
    requires DistinctKeys(files)
    ensures var d := ScanSupported(index, files, userId, tools);
      && d.updatedFiles == |d.purged|
      && Distinct(d.purged)
      && (forall p :: p in d.purged <==> p in PathsOfKind(index, files, tools, UpdatedFile))
    decreases |files|
  {
    if files != [] {
      var init := files[..|files| - 1];
      var last := files[|files| - 1];
      assert files == init + [last];
      LastKeyFresh(files);
      ScanSupportedPurged(index, init, userId, tools);
      StepEffect(ScanSupported(index, init, userId, tools), index, last, userId, tools);
      PathsOfKindSnoc(index, init, last, tools, UpdatedFile);
    }
  }

  /** The supported files of a listing with distinct paths again have distinct paths. */
  lemma {:induction false} SupportedFilesDistinct(files: seq<DiskFile>)
    requires DistinctKeys(files)
    ensures DistinctKeys(SupportedFiles(files))
    decreases |files|
  {
    if files != [] {
      var init := files[..|files| - 1];
      assert DistinctKeys(init);
      SupportedFilesDistinct(init);
      LastKeyFresh(files);
    }
  }

  /**
   * Over a listing of distinct paths: `new_files` counts the supported paths
   * missing from the index, `updated_files` the supported paths whose stored
   * hash differs; each updated path is deleted exactly once and nothing else
   * is deleted in the loop.
   */
  lemma ScanCounts(index: FileIndex, files: seq<DiskFile>, userId: Option<string>, tools: Tools)
    requires DistinctKeys(files)
    ensures var r := Scan(index, files, userId, tools);
      && r.newFiles == |NewPaths(index, files, tools)|
      && r.updatedFiles == |UpdatedPaths(index, files, tools)|
      && r.updatedFiles == |r.purged|
      && Distinct(r.purged)
      && (forall p :: p in r.purged <==> p in UpdatedPaths(index, files, tools))
  {
    var supported := SupportedFiles(files);
    SupportedFilesDistinct(files);
    ScanSupportedCounts(index, supported, userId, tools);
    ScanSupportedPurged(index, supported, userId, tools);
    assert PathsOfKind(index, supported, tools, NewFile) == NewPaths(index, files, tools);
    assert PathsOfKind(index, supported, tools, UpdatedFile) == UpdatedPaths(index, files, tools);
  }

  /**
   * `deleted_files` counts the indexed paths missing from ALL discovered
   * files: a path that is still on disk is never removed, even when its file
   * is no longer of a supported type.
   */
  lemma ScanRemoved(index: FileIndex, files: seq<DiskFile>, userId: Option<string>, tools: Tools)
    ensures var r := Scan(index, files, userId, tools);
      && (forall k :: k in r.removed <==> k in index && forall f :: f in files ==> Key(f) != k)
      && r.deletedFiles == |r.removed|
  {
  }

  /** The loop's deletes are for discovered paths, so no path is deleted twice. */
  lemma PurgedNotRemoved(index: FileIndex, files: seq<DiskFile>, userId: Option<string>, tools: Tools)
    ensures var r := Scan(index, files, userId, tools);
      forall p :: p in r.purged ==> p !in r.removed
  {
    var supported := SupportedFiles(files);
    PurgedAreUpdated(index, supported, userId, tools);
  }

  /** Every delete the loop issues is for an updated file of the listing. */
  lemma {:induction false} PurgedAreUpdated(index: FileIndex, files: seq<DiskFile>, userId: Option<string>, tools: Tools)
    ensures forall p :: p in ScanSupported(index, files, userId, tools).purged ==>
      exists f :: f in files && ChangeOf(index, f, tools) == UpdatedFile && Key(f) == p
    decreases |files|
  {
    if files != [] {
      var init := files[..|files| - 1];
      assert files == init + [files[|files| - 1]];
      PurgedAreUpdated(index, init, userId, tools);
    }
  }

  // ---------------------------------------------------------------------------
  // Idempotence of a scan over an index in sync with the disk
  // ---------------------------------------------------------------------------

  /**
   * The index agrees with the disk: every supported file is indexed under its
   * current hash and every indexed path is a discovered file.
   */
  ghost predicate InSync(index: FileIndex, files: seq<DiskFile>, tools: Tools) {
    && (forall f :: f in files && IsSupported(f.path) ==> Key(f) in index && index[Key(f)] == tools.hash(f.bytes))
    && (forall k :: k in index ==> k in CurrentPaths(files))
  }

  /** A loop over unchanged files only does nothing. */
  lemma {:induction false} ScanSupportedUnchanged(index: FileIndex, files: seq<DiskFile>, userId: Option<string>, tools: Tools)
    requires forall f :: f in files ==> ChangeOf(index, f, tools) == Unchanged
    ensures ScanSupported(index, files, userId, tools) == Delta([], 0, 0, [])
    decreases |files|
  {
    if files != [] {
      var init := files[..|files| - 1];
      assert files == init + [files[|files| - 1]];
      ScanSupportedUnchanged(index, init, userId, tools);
      assert ChangeOf(index, files[|files| - 1], tools) == Unchanged;
    }
  }

  /** Over an index in sync with the disk a scan emits nothing, counts nothing and deletes nothing. */
  lemma ScanInSyncIsQuiet(index: FileIndex, files: seq<DiskFile>, userId: Option<string>, tools: Tools)
    requires InSync(index, files, tools)
    ensures Scan(index, files, userId, tools) == ScanResult([], 0, 0, 0, [], {})
  {
    ScanSupportedUnchanged(index, SupportedFiles(files), userId, tools);
    assert RemovedPaths(index, files) == {};
  }

  // ---------------------------------------------------------------------------
  // The index read back after a scan's writes
  // ---------------------------------------------------------------------------

  /** Recording an entry after a union only touches the right-hand side. */
  lemma RecordUnion(m1: FileIndex, m2: FileIndex, m: Metadata)
    ensures Record(m1 + m2, m) == m1 + Record(m2, m)
  {
  }

  /** Recording an entry and then dropping paths `p`. */
  lemma RecordMinus(index: FileIndex, d: Document, p: set<string>)
    ensures Record(index, d.metadata) - p
      == if PathIn(d, p) then index - p else Record(index - p, d.metadata)
  {
  }

  /** Reading back appended documents: later documents overwrite earlier ones. */
  lemma {:induction false} LoadAppend(a: Collection, b: Collection)
    ensures LoadExistingFileIndex(a + b) == LoadExistingFileIndex(a) + LoadExistingFileIndex(b)
    decreases |b|
  {
    if b == [] {
      assert a + b == a;
    } else {
      var init := b[..|b| - 1];
      var last := b[|b| - 1];
      LoadAppend(a, init);
      assert (a + b)[..|a + b| - 1] == a + init;
      assert (a + b)[|a + b| - 1] == last;
      RecordUnion(LoadExistingFileIndex(a), LoadExistingFileIndex(init), last.metadata);
    }
  }

  /** Reading back after deleting paths `p`: the old index without `p`. */
  lemma {:induction false} LoadDelete(c: Collection, p: set<string>)
    ensures LoadExistingFileIndex(DeleteWhere(c, p)) == LoadExistingFileIndex(c) - p
    decreases |c|
  {
    if c != [] {
      var init := c[..|c| - 1];
      var last := c[|c| - 1];
      LoadDelete(init, p);
      var rest := DeleteWhere(init, p);
      RecordMinus(LoadExistingFileIndex(init), last, p);
      if !PathIn(last, p) {
        assert DeleteWhere(c, p) == rest + [last];
        assert (rest + [last])[..|rest|] == rest;
      }
    }
  }

  /** The index entries a file's chunk documents contribute. */
  lemma {:induction false} LoadChunkDocuments(f: DiskFile, h: string, userId: Option<string>, chunks: seq<string>)
    requires h != ""
    ensures LoadExistingFileIndex(ChunkDocuments(f, h, userId, chunks))
      == if chunks == [] then map[] else map[Key(f) := h]
    decreases |chunks|
  {
    if chunks != [] {
      var init := chunks[..|chunks| - 1];
      LoadChunkDocuments(f, h, userId, init);
      var docs := ChunkDocuments(f, h, userId, chunks);
      assert docs[..|docs| - 1] == ChunkDocuments(f, h, userId, init);
    }
  }

  /** The entry a file contributes to `Fresh`. */
  function FreshEntry(index: FileIndex, f: DiskFile, tools: Tools): FileIndex {
    if ChangeOf(index, f, tools) != Unchanged && Chunks(f, tools) != []
    then map[Key(f) := tools.hash(f.bytes)] else map[]
  }

  /** The index entries written for the new and updated files that have at least one chunk. */
  function Fresh(index: FileIndex, files: seq<DiskFile>, tools: Tools): FileIndex
    decreases |files|
  {
    if files == [] then map[]
    else Fresh(index, files[..|files| - 1], tools) + FreshEntry(index, files[|files| - 1], tools)
  }

  /** Reading back after one iteration adds the file's `FreshEntry`. */
  lemma LoadStep(d: Delta, index: FileIndex, f: DiskFile, userId: Option<string>, tools: Tools)
    requires HashesNonEmpty(tools)
    ensures LoadExistingFileIndex(Step(d, index, f, userId, tools).docs)
      == LoadExistingFileIndex(d.docs) + FreshEntry(index, f, tools)
  {
    var h := tools.hash(f.bytes);
    var emitted := ChunkDocuments(f, h, userId, Chunks(f, tools));
    StepDocuments(d, index, f, userId, tools);
    LoadChunkDocuments(f, h, userId, Chunks(f, tools));
    LoadAppend(d.docs, emitted);
  }

  /** The documents of the loop read back as exactly `Fresh`. */
  lemma {:induction false} LoadScanDocuments(index: FileIndex, files: seq<DiskFile>, userId: Option<string>, tools: Tools)
    requires HashesNonEmpty(tools)
    ensures LoadExistingFileIndex(ScanSupported(index, files, userId, tools).docs) == Fresh(index, files, tools)
    decreases |files|
  {
    if files != [] {
      var init := files[..|files| - 1];
      var last := files[|files| - 1];
      LoadScanDocuments(index, init, userId, tools);
      LoadStep(ScanSupported(index, init, userId, tools), index, last, userId, tools);
    }
  }

  /** Every path in `Fresh` is the path of a new or updated file with chunks. */
  lemma {:induction false} FreshKeys(index: FileIndex, files: seq<DiskFile>, tools: Tools)
    ensures forall k :: k in Fresh(index, files, tools) ==>
      exists f :: f in files && Key(f) == k && ChangeOf(index, f, tools) != Unchanged && Chunks(f, tools) != []
    decreases |files|
  {
    if files != [] {
      var init := files[..|files| - 1];
      var last := files[|files| - 1];
      FreshKeys(index, init, tools);
      forall k | k in Fresh(index, files, tools)
        ensures exists f :: f in files && Key(f) == k && ChangeOf(index, f, tools) != Unchanged && Chunks(f, tools) != []
      {
        if k in Fresh(index, init, tools) {
          var f :| f in init && Key(f) == k && ChangeOf(index, f, tools) != Unchanged && Chunks(f, tools) != [];
          assert f in files;
        } else {
          assert Key(last) == k;
        }
      }
    }
  }

  /** A new or updated file with chunks is in `Fresh` under its own current hash. */
  lemma {:induction false} FreshValues(index: FileIndex, files: seq<DiskFile>, tools: Tools)
    requires DistinctKeys(files)
    ensures forall f :: f in files && ChangeOf(index, f, tools) != Unchanged && Chunks(f, tools) != [] ==>
      Key(f) in Fresh(index, files, tools) && Fresh(index, files, tools)[Key(f)] == tools.hash(f.bytes)
    decreases |files|
  {
    if files != [] {
      var init := files[..|files| - 1];
      var last := files[|files| - 1];
      assert files == init + [last];
      assert DistinctKeys(init);
      LastKeyFresh(files);
      FreshValues(index, init, tools);
    }
  }

  /** The collection after a scan's deletes and the upsert of its documents. */
  function StoreAfter(store: Collection, r: ScanResult): Collection {
    var afterDeletes := DeleteWhere(store, DeletedSet(r));
    if |r.docs| > 0 then AddDocuments(afterDeletes, r.docs) else afterDeletes
  }

  /** The index read back after a scan's writes: the old index minus the deletes, plus `Fresh`. */
  lemma LoadStoreAfter(store: Collection, files: seq<DiskFile>, userId: Option<string>, tools: Tools)
    requires HashesNonEmpty(tools)
    ensures var index := LoadExistingFileIndex(store);
      var r := Scan(index, files, userId, tools);
      LoadExistingFileIndex(StoreAfter(store, r))
        == (index - DeletedSet(r)) + Fresh(index, SupportedFiles(files), tools)
  {
    var index := LoadExistingFileIndex(store);
    var r := Scan(index, files, userId, tools);
    var afterDeletes := DeleteWhere(store, DeletedSet(r));
    LoadDelete(store, DeletedSet(r));
    LoadScanDocuments(index, SupportedFiles(files), userId, tools);
    LoadAppend(afterDeletes, r.docs);
    if |r.docs| == 0 {
      assert r.docs == [];
    }
  }

  /**
   * After one scan's writes, the index read back from the collection is in
   * sync with the disk, provided every supported file yields at least one
   * chunk (a file with no chunks never reaches the index).
   */
  lemma SyncAfterScan(store: Collection, files: seq<DiskFile>, userId: Option<string>, tools: Tools)
    requires DistinctKeys(files) && HashesNonEmpty(tools)
    requires forall f :: f in files && IsSupported(f.path) ==> Chunks(f, tools) != []
    ensures var index := LoadExistingFileIndex(store);
      InSync(LoadExistingFileIndex(StoreAfter(store, Scan(index, files, userId, tools))), files, tools)
  {
    var index := LoadExistingFileIndex(store);
    var r := Scan(index, files, userId, tools);
    var supported := SupportedFiles(files);
    var deleted := DeletedSet(r);
    var written := Fresh(index, supported, tools);
    LoadStoreAfter(store, files, userId, tools);
    var after := LoadExistingFileIndex(StoreAfter(store, r));
    assert after == (index - deleted) + written;
    SupportedFilesDistinct(files);
    FreshKeys(index, supported, tools);
    FreshValues(index, supported, tools);
    PurgedAreUpdated(index, supported, userId, tools);
    forall f | f in files && IsSupported(f.path)
      ensures Key(f) in after && after[Key(f)] == tools.hash(f.bytes)
    {
      assert f in supported;
      if ChangeOf(index, f, tools) == Unchanged {
        assert Key(f) !in deleted;
        assert Key(f) !in written;
      }
    }
    forall k | k in after
      ensures k in CurrentPaths(files)
    {
      if k in written {
        var f :| f in supported && Key(f) == k && ChangeOf(index, f, tools) != Unchanged;
      }
    }
  }
}
