/**
 * The Chroma collection as the indexing code uses it
 * (backend/app/rag/vectorstore.py): documents with metadata, appended by
 * `upsert_documents` and removed by `delete_by_file_path`.
 */
module VectorStore {
  import opened Outcomes

  /** A chunk's metadata dictionary; `None` for a key the dictionary lacks. */
  datatype Metadata = Metadata(
    filePath: Option<string>,
    fileName: Option<string>,
    fileHash: Option<string>,
    createdAt: Option<string>,
    modifiedAt: Option<string>,
    userId: Option<string>,
    chunkIndex: Option<nat>)

  /** An empty (or missing) metadata dictionary. */
  const NoMetadata: Metadata := Metadata(None, None, None, None, None, None, None)

  /** A LangChain `Document`. */
  datatype Document = Document(pageContent: string, metadata: Metadata)

  /** The collection's documents in insertion order. */
  type Collection = seq<Document>

  /** The document's `file_path` metadata is one of `paths`. */
  predicate PathIn(d: Document, paths: set<string>) {
    d.metadata.filePath.Some? && d.metadata.filePath.value in paths
  }

  /** `vs.delete(where={"file_path": p})` for every `p` in `paths`; the rest keep their order. */
  function DeleteWhere(c: Collection, paths: set<string>): (r: Collection)
    ensures |r| <= |c|
    ensures forall d :: d in r <==> d in c && !PathIn(d, paths)
    decreases |c|
  {
    if c == [] then []
    else
      var rest := DeleteWhere(c[..|c| - 1], paths);
      var last := c[|c| - 1];
      assert c == c[..|c| - 1] + [last];
      if PathIn(last, paths) then rest else rest + [last]
  }

  /** `delete_by_file_path(p)`. */
  function DeleteByFilePath(c: Collection, p: string): Collection {
    DeleteWhere(c, {p})
  }

  /** `upsert_documents(docs)`: Chroma's `add_documents` appends under fresh ids. */
  function AddDocuments(c: Collection, docs: seq<Document>): Collection {
    c + docs
  }

  /** Deleting no path leaves the collection as it was. */
  lemma {:induction false} DeleteNothing(c: Collection)
    ensures DeleteWhere(c, {}) == c
    decreases |c|
  {
    if c != [] {
      DeleteNothing(c[..|c| - 1]);
      assert c == c[..|c| - 1] + [c[|c| - 1]];
    }
  }

  /** Deletes by path compose: two rounds remove what one round over both sets removes. */
  lemma {:induction false} DeleteTwice(c: Collection, a: set<string>, b: set<string>)
    ensures DeleteWhere(DeleteWhere(c, a), b) == DeleteWhere(c, a + b)
    decreases |c|
  {
    if c != [] {
      var init := c[..|c| - 1];
      var last := c[|c| - 1];
      DeleteTwice(init, a, b);
      if !PathIn(last, a) {
        var once := DeleteWhere(init, a) + [last];
        assert once[..|once| - 1] == DeleteWhere(init, a);
      }
    }
  }
}
