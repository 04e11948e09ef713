/**
 * The HTTP endpoints of backend/app/main.py, minus the web framework:
 * `/rag/embed`, `/rag/search` with its query validation and snippets, and
 * `/rag/document` with its containment check.
 */
module Api {
  import opened Outcomes
  import opened Text
  import opened Paths
  import opened VectorStore
  import opened FileScanner
  import opened DeltaProofs
  import opened Config
  import opened Embeddings
  import opened Pipeline

  /** `HTTPException(status_code, detail)`. */
  datatype HttpError = HttpError(status: nat, detail: string)

  // ---------------------------------------------------------------------------
  // _validate_query
  // ---------------------------------------------------------------------------

  /** The longest query accepted, in characters. */
  const MaxQueryLength: nat := 1024

  /** Phrases a query may not contain, compared after lower-casing. */
  const Prohibited: seq<string> := ["ignore previous instructions", "delete all data"]

  /** `any(p in q.lower() for p in prohibited)`. */
  predicate Blocked(q: string) {
    exists i :: 0 <= i < |Prohibited| && Contains(Lower(q), Prohibited[i])
  }

  /** `(q or "").strip()`. */
  function Normalize(q: Option<string>): string {
    Strip(if q.Some? then q.value else "")
  }

  /** `_validate_query(q)`: the stripped query, or the 400 error for the first failing check. */
  function ValidateQuery(q: Option<string>): (r: Result<string, HttpError>)
    ensures var t := Normalize(q);
      && (r.Ok? <==> t != "" && |t| <= MaxQueryLength && !Blocked(t))
      && (r.Ok? ==> r.value == t)
      && (r == Err(HttpError(400, "Query cannot be empty.")) <==> t == "")
      && (r == Err(HttpError(400, "Query is too long.")) <==> t != "" && |t| > MaxQueryLength)
      && (r == Err(HttpError(400, "Query contains prohibited patterns.")) <==>
            t != "" && |t| <= MaxQueryLength && Blocked(t))
  {
    var t := Normalize(q);
    if t == "" then Err(HttpError(400, "Query cannot be empty."))
    else if |t| > MaxQueryLength then Err(HttpError(400, "Query is too long."))
    else if Blocked(t) then Err(HttpError(400, "Query contains prohibited patterns."))
    else Ok(t)
  }

  /**
   * An accepted query is 1 to 1024 characters with no whitespace at either
   * end and no prohibited phrase, and validating it again accepts it unchanged.
   */
  lemma ValidateQueryIdempotent(q: Option<string>)
    ensures var r := ValidateQuery(q);
      r.Ok? ==>
        && 1 <= |r.value| <= MaxQueryLength
        && !IsSpace(r.value[0]) && !IsSpace(r.value[|r.value| - 1])
        && ValidateQuery(Some(r.value)) == r
  {
    var t := if q.Some? then q.value else "";
    StripShape(t);
    StripIdempotent(t);
  }

  /** A query is refused as empty exactly when it is missing or all whitespace. */
  lemma ValidateQueryEmpty(q: Option<string>)
    ensures ValidateQuery(q) == Err(HttpError(400, "Query cannot be empty.")) <==>
      q.None? || forall i :: 0 <= i < |q.value| ==> IsSpace(q.value[i])
  {
    if q.Some? {
      StripEmptyIffAllSpace(q.value);
    }
  }

  /** The prohibited phrases are matched whatever the case the query is written in. */
  lemma BlockedIgnoresCase(t: string)
    ensures Blocked(Upper(t)) <==> Blocked(t)
    ensures Blocked(Lower(t)) <==> Blocked(t)
  {
    LowerOfUpper(t);
    assert Lower(Lower(t)) == Lower(t);
  }

  /** A phrase followed and preceded by anything is still caught. */
  lemma BlockedAnywhere(pre: string, i: nat, post: string)
    requires i < |Prohibited|
    ensures Blocked(pre + Prohibited[i] + post)
  {
    var q := pre + Prohibited[i] + post;
    var p := Prohibited[i];
    assert Lower(p) == p;
    assert Lower(q)[|pre|..|pre| + |p|] == Lower(p);
    assert OccursAt(Lower(q), p, |pre|);
  }

  // ---------------------------------------------------------------------------
  // /rag/search
  // ---------------------------------------------------------------------------

  /** Characters of page content a snippet keeps. */
  const SnippetLength: nat := 300

  /** `d.page_content[:300].replace("\n", " ")` plus `...` when the content was cut. */
  function Snippet(content: string): (r: string)
    ensures var n := if |content| < SnippetLength then |content| else SnippetLength;
      && |r| == n + (if |content| > SnippetLength then 3 else 0)
      && (forall i :: 0 <= i < n ==> r[i] == (if content[i] == '\n' then ' ' else content[i]))
      && r[n..] == (if |content| > SnippetLength then "..." else "")
  {
    var n := if |content| < SnippetLength then |content| else SnippetLength;
    ReplaceChar(content[..n], '\n', ' ') + (if |content| > SnippetLength then "..." else "")
  }

  /**
   * A snippet has no line feed, is at most 303 characters, and is the content
   * itself when that is short and on one line.
   */
  lemma SnippetShape(content: string)
    ensures '\n' !in Snippet(content)
    ensures |Snippet(content)| <= SnippetLength + 3
    ensures |content| <= SnippetLength && '\n' !in content ==> Snippet(content) == content
  {
  }

  /** One entry of the search response (the `score` is not modelled). */
  datatype SearchResult = SearchResult(
    fileName: string,
    filePath: string,
    snippet: string,
    createdAt: Option<string>,
    modifiedAt: Option<string>)

  /** The search result for one document, with `unknown` and `""` for a missing name and path. */
  function ToSearchResult(d: Document): SearchResult {
    var m := d.metadata;
    SearchResult(
      if m.fileName.Some? then m.fileName.value else "unknown",
      if m.filePath.Some? then m.filePath.value else "",
      Snippet(d.pageContent),
      m.createdAt,
      m.modifiedAt)
  }

  /**
   * A chunk written by the scanner is reported under its file's name, path
   * and times; a document without metadata as `unknown` with an empty path.
   */
  lemma SearchResultOfChunk(f: DiskFile, h: string, userId: Option<string>, i: nat, chunk: string)
    ensures var r := ToSearchResult(Document(chunk, ChunkMetadata(f, h, userId, i)));
      && r.fileName == Name(f.path) && r.filePath == Str(f.path)
      && r.createdAt == Some(f.createdAt) && r.modifiedAt == Some(f.modifiedAt)
      && r.snippet == Snippet(chunk)
    ensures var r := ToSearchResult(Document(chunk, NoMetadata));
      r.fileName == "unknown" && r.filePath == "" && r.createdAt == None && r.modifiedAt == None
  {
  }

  /** One search result per document, in retrieval order. */
  function ToSearchResults(docs: seq<Document>): (r: seq<SearchResult>)
    ensures |r| == |docs|
    ensures forall i :: 0 <= i < |docs| ==> r[i] == ToSearchResult(docs[i])
  {
    seq(|docs|, i requires 0 <= i < |docs| => ToSearchResult(docs[i]))
  }

  /** `SearchResponse`. */
  datatype SearchResponse = SearchResponse(query: string, results: seq<SearchResult>, answer: Option<string>)

  /** What FastAPI answers when a handler raises something other than `HTTPException`. */
  const InternalError: HttpError := HttpError(500, "Internal Server Error")

  /**
   * `search(q, user_id, with_answer)`. Validation comes first; a store that
   * cannot be opened (no embeddings client) makes `similarity_search` raise,
   * which FastAPI turns into a 500.
   */
  function Search(q: Option<string>, userId: Option<string>, withAnswer: bool,
                  retriever: Retriever, s: Settings, llm: Llm): (r: Result<SearchResponse, HttpError>)
    ensures ValidateQuery(q).Err? ==> r == Err(ValidateQuery(q).error)
    ensures ValidateQuery(q).Ok? && GetEmbeddingStrategy(s).Err? ==> r == Err(InternalError)
    ensures r.Ok? ==> ValidateQuery(q).Ok? && r.value.query == ValidateQuery(q).value
    ensures r.Ok? ==> GetEmbeddingStrategy(s).Ok?
    ensures r.Ok? ==>
      var docs := SimilaritySearch(retriever, s, r.value.query, TopK, userId).value;
      && |r.value.results| == |docs|
      && (forall i :: 0 <= i < |docs| ==> r.value.results[i] == ToSearchResult(docs[i]))
      && (r.value.answer.Some? <==> withAnswer && docs != [])
  {
    var query :- ValidateQuery(q);
    var found := SimilaritySearch(retriever, s, query, TopK, userId);
    if found.Err? then Err(InternalError)
    else
      var docs := found.value;
      var results := ToSearchResults(docs);
      if withAnswer && docs != [] then
        var final := Invoke(InitialState(query, userId), retriever, s, llm);
        InvokeKeepsQuestion(InitialState(query, userId), retriever, s, llm);
        if final.Err? then Err(InternalError)
        else Ok(SearchResponse(query, results, final.value.answer))
      else Ok(SearchResponse(query, results, None))
  }

  /**
   * A search fails exactly when the query is refused or no embeddings
   * client can be built (a 500). Otherwise, when an answer is requested and
   * documents were found, the answer is the chat model's reply to a prompt
   * built from those same documents (the graph repeats the search with the
   * same query, user and settings); there is no answer otherwise.
   */
  lemma SearchAnswer(q: Option<string>, userId: Option<string>, withAnswer: bool,
                     retriever: Retriever, s: Settings, llm: Llm)
    ensures var r := Search(q, userId, withAnswer, retriever, s, llm);
      && (r.Err? <==> ValidateQuery(q).Err? || GetEmbeddingStrategy(s).Err?)
      && (r.Ok? ==>
            var docs := SimilaritySearch(retriever, s, r.value.query, TopK, userId).value;
            r.value.answer ==
              if withAnswer && docs != [] then
                Some(llm(GetChatModel(s).value, [
                  Message("system", SystemPrompt),
                  Message("user", "Question: " + r.value.query + "\n\nContext:\n" + JoinContext(docs))]))
              else None)
  {
    if ValidateQuery(q).Ok? && GetEmbeddingStrategy(s).Ok? {
      var query := ValidateQuery(q).value;
      var state := InitialState(query, userId);
      InvokeIsRetrieveThenGenerate(state, retriever, s, llm);
      ChatModelWhenSearchable(s);
      PromptAfterRetrieve(state, retriever, s);
    }
  }

  // ---------------------------------------------------------------------------
  // /rag/document
  // ---------------------------------------------------------------------------

  /** `DocumentContent`. */
  datatype DocumentContent = DocumentContent(
    fileName: string,
    filePath: string,
    content: string,
    createdAt: Option<string>,
    modifiedAt: Option<string>)

  /**
   * The filesystem as `get_document` sees it, keyed by resolved path: whether
   * a file exists, the text loader's result (or its exception message), and
   * the ISO-formatted `st_ctime` / `st_mtime`.
   */
  datatype Disk = Disk(
    isPresent: string -> bool,
    load: Path -> Result<string, string>,
    createdAt: string -> string,
    modifiedAt: string -> string)

  /** The containment check as written: `str(requested).startswith(str(root))`. */
  predicate PrefixCheck(requested: string, root: string) {
    StartsWith(requested, root)
  }

  /** `root` with exactly one trailing separator. */
  function DirPrefix(root: string): string {
    if root != [] && root[|root| - 1] == '/' then root else root + "/"
  }

  /** The containment check as intended: `requested` is `root` or lies inside it. */
  predicate WithinRoot(requested: string, root: string) {
    requested == root || StartsWith(requested, DirPrefix(root))
  }

  /** The rest of `get_document` once the containment check has been decided. */
  function ServeDocument(requested: Path, allowed: bool, disk: Disk): (r: Result<DocumentContent, HttpError>)
    ensures r.Ok? <==> allowed && disk.isPresent(Str(requested)) && disk.load(requested).Ok?
    ensures !allowed ==> r == Err(HttpError(400, "Invalid file path."))
    ensures allowed && !disk.isPresent(Str(requested)) ==> r == Err(HttpError(404, "Document not found."))
    ensures allowed && disk.isPresent(Str(requested)) && disk.load(requested).Err? ==>
      r == Err(HttpError(500, "Failed to load document: " + disk.load(requested).error))
    ensures r.Ok? ==> r.value == DocumentContent(
      Name(requested), Str(requested), disk.load(requested).value,
      Some(disk.createdAt(Str(requested))), Some(disk.modifiedAt(Str(requested))))
  {
    var key := Str(requested);
    if !allowed then Err(HttpError(400, "Invalid file path."))
    else if !disk.isPresent(key) then Err(HttpError(404, "Document not found."))
    else
      var loaded := disk.load(requested);
      if loaded.Err? then Err(HttpError(500, "Failed to load document: " + loaded.error))
      else Ok(DocumentContent(Name(requested), key, loaded.value,
                              Some(disk.createdAt(key)), Some(disk.modifiedAt(key))))
  }

  /** `get_document` as written, for an already resolved path and root. */
  function GetDocumentAsWritten(requested: Path, root: string, disk: Disk): (r: Result<DocumentContent, HttpError>)
    ensures r.Ok? ==> StartsWith(Str(requested), root)
  {
    ServeDocument(requested, PrefixCheck(Str(requested), root), disk)
  }

  /** `get_document` with the intended containment check. */
  function GetDocument(requested: Path, root: string, disk: Disk): (r: Result<DocumentContent, HttpError>)
    ensures r.Ok? ==> Str(requested) == root || StartsWith(Str(requested), DirPrefix(root))
  {
    ServeDocument(requested, WithinRoot(Str(requested), root), disk)
  }

  /**
   * The check as written serves a file from a sibling directory whose name
   * merely starts with the root's name; the intended check refuses it.
   */
  lemma SiblingPassesPrefixCheck(disk: Disk)
    requires disk.isPresent("/srv/sample_runs_evil/secret.md")
    requires disk.load(Path("/srv/sample_runs_evil", "secret", ".md")).Ok?
    ensures GetDocumentAsWritten(Path("/srv/sample_runs_evil", "secret", ".md"), "/srv/sample_runs", disk).Ok?
    ensures GetDocument(Path("/srv/sample_runs_evil", "secret", ".md"), "/srv/sample_runs", disk)
      == Err(HttpError(400, "Invalid file path."))
  {
    var requested := Path("/srv/sample_runs_evil", "secret", ".md");
    assert Str(requested) == "/srv/sample_runs_evil/secret.md";
    assert Str(requested)[..|"/srv/sample_runs"|] == "/srv/sample_runs";
    assert Str(requested)[..|"/srv/sample_runs/"|] != "/srv/sample_runs/" by {
      assert Str(requested)[16] == '_';
    }
  }

  /**
   * The intended check accepts the root and everything below it, and refuses
   * every other path that merely extends the root's name.
   */
  lemma WithinRootSpec(root: string, rest: string)
    requires root != [] && root[|root| - 1] != '/'
    ensures WithinRoot(root, root)
    ensures WithinRoot(root + "/" + rest, root)
    ensures rest != [] && rest[0] != '/' ==> !WithinRoot(root + rest, root)
    ensures WithinRoot(root + rest, root) ==> PrefixCheck(root + rest, root)
  {
    assert (root + "/" + rest)[..|root + "/"|] == root + "/";
    assert (root + rest)[..|root|] == root;
  }

  // ---------------------------------------------------------------------------
  // /rag/embed
  // ---------------------------------------------------------------------------

  /** `EmbedResponse`. */
  datatype EmbedResponse = EmbedResponse(indexedDocuments: nat, newFiles: nat, updatedFiles: nat, deletedFiles: nat)

  /** Reference definition of `embed`: the response and the collection it leaves. */
  function EmbedResult(store: Collection, files: seq<DiskFile>, userId: Option<string>, tools: Tools): (EmbedResponse, Collection) {
    var r := Scan(LoadExistingFileIndex(store), files, userId, tools);
    (EmbedResponse(|r.docs|, r.newFiles, r.updatedFiles, r.deletedFiles), StoreAfter(store, r))
  }

  /** The scan's `delete_by_file_path` calls, one after another. */
  method ApplyDeletes(store: Collection, calls: seq<string>) returns (after: Collection)
    ensures after == DeleteWhere(store, PathSet(calls))
  {
    after := store;
    DeleteNothing(store);
    assert PathSet(calls[..0]) == {};
    var i := 0;
    while i < |calls|
      invariant 0 <= i <= |calls|
      invariant after == DeleteWhere(store, PathSet(calls[..i]))
    {
      DeleteTwice(store, PathSet(calls[..i]), {calls[i]});
      assert PathSet(calls[..i + 1]) == PathSet(calls[..i]) + {calls[i]} by {
        assert calls[..i + 1] == calls[..i] + [calls[i]];
      }
      after := DeleteByFilePath(after, calls[i]);
      i := i + 1;
    }
    assert calls[..|calls|] == calls;
  }

  /**
   * `embed(user_id)`: scan, delete as the scan goes, then upsert the new
   * chunks if any. Loading the index opens the store first, so without an
   * embeddings client the call is a 500 before anything is counted or written.
   */
  method Embed(store: Collection, files: seq<DiskFile>, userId: Option<string>, tools: Tools, s: Settings)
    returns (response: Result<EmbedResponse, HttpError>, after: Collection)
    ensures response.Err? <==> GetEmbeddingStrategy(s).Err?
    ensures response.Err? ==> response.error == InternalError && after == store
    ensures response.Ok? ==> (response.value, after) == EmbedResult(store, files, userId, tools)
  {
    if GetEmbeddingStrategy(s).Err? {
      return Err(InternalError), store;
    }
    var docs, newFiles, updatedFiles, deletedFiles, deleteCalls := ScanAndBuildDelta(store, files, userId, tools);
    ghost var expected := Scan(LoadExistingFileIndex(store), files, userId, tools);
    assert PathSet(deleteCalls) == DeletedSet(expected) by {
      assert deleteCalls == deleteCalls[..|expected.purged|] + deleteCalls[|expected.purged|..];
    }
    after := ApplyDeletes(store, deleteCalls);
    if |docs| > 0 {
      after := AddDocuments(after, docs);
    }
    response := Ok(EmbedResponse(|docs|, newFiles, updatedFiles, deletedFiles));
  }

  /**
   * Embedding twice in a row: the second call finds nothing new, updated or
   * deleted, indexes nothing, and leaves the collection as the first call
   * left it -- provided every supported file yields at least one chunk.
   */
  lemma EmbedTwiceIsQuiet(store: Collection, files: seq<DiskFile>, userId: Option<string>, tools: Tools)
    requires DistinctKeys(files) && HashesNonEmpty(tools)
    requires forall f :: f in files && IsSupported(f.path) ==> Chunks(f, tools) != []
    ensures var first := EmbedResult(store, files, userId, tools);
      var second := EmbedResult(first.1, files, userId, tools);
      second == (EmbedResponse(0, 0, 0, 0), first.1)
  {
    var index := LoadExistingFileIndex(store);
    var after := StoreAfter(store, Scan(index, files, userId, tools));
    SyncAfterScan(store, files, userId, tools);
    ScanInSyncIsQuiet(LoadExistingFileIndex(after), files, userId, tools);
    DeleteNothing(after);
  }

  /**
   * A supported file whose text yields no chunk is never written to the
   * collection, so while it stays on disk every call counts it as new again.
   */
  lemma EmptyFileStaysNew(store: Collection, files: seq<DiskFile>, userId: Option<string>, tools: Tools, f: DiskFile)
    requires DistinctKeys(files) && HashesNonEmpty(tools)
    requires f in files && IsSupported(f.path) && Chunks(f, tools) == []
    requires Key(f) !in LoadExistingFileIndex(store)
    ensures Key(f) in NewPaths(LoadExistingFileIndex(store), files, tools)
    ensures var after := EmbedResult(store, files, userId, tools).1;
      Key(f) !in LoadExistingFileIndex(after) && Key(f) in NewPaths(LoadExistingFileIndex(after), files, tools)
  {
    var index := LoadExistingFileIndex(store);
    var supported := SupportedFiles(files);
    LoadStoreAfter(store, files, userId, tools);
    FreshKeys(index, supported, tools);
    var after := EmbedResult(store, files, userId, tools).1;
    forall g | g in supported && Key(g) == Key(f)
      ensures g == f
    {
      SameKeySameFile(files, f, g);
    }
    assert Key(f) !in LoadExistingFileIndex(after);
    assert ChangeOf(LoadExistingFileIndex(after), f, tools) == NewFile;
  }
}
