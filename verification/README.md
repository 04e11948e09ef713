# BIG RAG service core, modelled in Dafny

This project models the indexing and question-answering core of the BIG RAG
service. The service keeps a Chroma collection of text chunks in sync with a
directory of run artifacts, then answers questions over it with a two-node
LangGraph pipeline. The model covers:

- **Delta scan** (`file_scanner.py`). The `file_path -> file_hash` index is
  read back from the collection's metadata, and every file under the index
  directory is compared with it. Supported files are classified as new,
  updated or unchanged, and new or updated files are re-chunked.
  - Updated files have their old chunks deleted.
  - Indexed paths that no longer exist on disk are deleted.
- **Versioned file names** (`versioning.py`): `base__vN.ext`. Parsing,
  resolving the latest sibling, and naming the next version.
- **Provider selection** (`embeddings.py`, `graph.py`). Embedding and chat
  backends are chosen from `USE_PROVIDER`, together with their credential
  checks and error cases.
- **The RAG graph** (`graph.py`). `retrieve` builds the context string,
  `generate` prompts the chat model, and the compiled graph runs them in that
  order.
- **The HTTP handlers** (`main.py`):
  - query validation;
  - search results and snippets;
  - the containment check of `/rag/document`;
  - `/rag/embed`, which applies the scan to the collection.

The modules follow the program's files:

| file | module | source |
|---|---|---|
| outcomes.dfy | `Outcomes` | `Option` / `Result` and Python truthiness of an optional string |
| text.dfy | `Text` | the `str` operations the code uses (`strip`, `lower`, `upper`, `in`, `startswith`, `isdigit`, `int`, `replace`, `join`) |
| paths.dfy | `Paths` | `pathlib` paths as parent / stem / suffix |
| versioning.dfy | `Versioning` | backend/app/rag/versioning.py |
| vector_store.dfy | `VectorStore` | the collection as a sequence of documents (backend/app/rag/vectorstore.py) |
| file_scanner.dfy | `FileScanner` | backend/app/rag/file_scanner.py |
| delta_proofs.dfy | `DeltaProofs` | properties of the delta scan and of the index it writes back |
| config.dfy | `Config` | the settings fields read, and provider selection |
| embeddings.dfy | `Embeddings` | backend/app/rag/embeddings.py |
| pipeline.dfy | `Pipeline` | backend/app/rag/graph.py |
| api.dfy | `Api` | backend/app/main.py |

Anything the code cannot see into becomes a parameter:

- the file listing, MD5 hashing, text decoding and the text splitter;
- the `stat` timestamps;
- Chroma's ranked search;
- the chat model's reply;
- path resolution and file loading in `get_document`.

The scan's loops (`scan_and_build_delta` with its per-file, per-chunk
and deletion loops), the sibling loop of `resolve_latest_version` and the
delete calls of `embed` are `method`s proved equal to recursive reference
functions; lemmas then state what the references mean. The loop of
`_load_existing_file_index` and the results loop of `search` are modelled
by those reference functions alone.

## Model

| member | source | states |
|---|---|---|
| Versioning.ParseVersionShape | backend/app/rag/versioning.py:6-19 | A parse is either the whole stem at version 0, or a split of the stem at an occurrence of `__v` into the base and a digit string whose value is the version. |
| Versioning.ParseUnversioned | backend/app/rag/versioning.py:14-19 | A stem without `__v` is version 0 of itself. |
| Versioning.ParseNonDigitTail | backend/app/rag/versioning.py:15-19 | When the text after the last `__v` is not all digits (including empty), the whole stem is the base at version 0. |
| Versioning.ParseComposed | backend/app/rag/versioning.py:6-19 | Any `base__v<digits>` stem parses back to `base` and the digits' value, even when `base` itself contains `__v` (the split is at the last marker). |
| Versioning.NextVersionPath | backend/app/rag/versioning.py:50-58 | The next path keeps the parent directory and suffix, and parses to the same base with version number plus one. |
| Versioning.NextVersionIncreases | backend/app/rag/versioning.py:50-58 | Taking the next version keeps the base and strictly increases the number. |
| Versioning.LatestIndexCorrect | backend/app/rag/versioning.py:31-42 | The scan with a strict `>` finds nothing exactly when no sibling matches. Otherwise it finds a matching sibling of maximal version that is the first among equal versions. |
| Versioning.LatestIsUnique | backend/app/rag/versioning.py:40-42 | The strict-`>` tie-break makes the chosen sibling unique. |
| Versioning.ResolvedPathSpec | backend/app/rag/versioning.py:22-47 | With no matching sibling (a file with the same suffix and base), the original path is returned. Otherwise the path of the unique latest matching sibling is returned. |
| Versioning.ResolveLatestVersion | backend/app/rag/versioning.py:22-47 | The loop over the directory listing, skipping non-files and other suffixes, returns the resolved path. |
| VectorStore.DeleteWhere | backend/app/rag/vectorstore.py:40-42 | Deleting by path removes exactly the documents whose `file_path` is one of the paths, and never adds any. |
| VectorStore.DeleteNothing | backend/app/rag/vectorstore.py:40-42 | Deleting no path leaves the collection unchanged. |
| VectorStore.DeleteTwice | backend/app/rag/vectorstore.py:40-42 | Two rounds of deletes equal one round over the union of the paths, so the order of delete calls does not matter. |
| FileScanner.LoadExistingFileIndexSpec | backend/app/rag/file_scanner.py:55-73 | The index holds exactly the paths of entries whose `file_path` and `file_hash` are both truthy. Each path maps to the hash of its last such entry. |
| FileScanner.SupportedFiles | backend/app/rag/file_scanner.py:106 | The files scanned are exactly the discovered files with a supported suffix. |
| FileScanner.ChunkDocumentsSpec | backend/app/rag/file_scanner.py:138-150 | A file yields one document per chunk, in splitter order, and chunk `i` carries `chunk_index` `i`. |
| FileScanner.EmitChunks | backend/app/rag/file_scanner.py:147-150 | The inner `enumerate` loop produces the chunk documents. |
| FileScanner.ScanFiles | backend/app/rag/file_scanner.py:114-150 | The per-file loop matches the reference: docs, both counters, and the delete calls for updated files. |
| FileScanner.DetectDeleted | backend/app/rag/file_scanner.py:152-159 | One delete call per indexed path missing from the discovered paths, and nothing else. No call repeats, and the count equals the number of calls. |
| FileScanner.ScanAndBuildDelta | backend/app/rag/file_scanner.py:76-170 | The method returns the reference scan's docs and counters. The updated files' deletes come first, in scan order, followed by exactly the removed paths. |
| DeltaProofs.SupportedSuffixes | backend/app/rag/file_scanner.py:19 | The suffix filter ignores case (`.MD` is scanned) and refuses `.py` and files without a suffix. |
| DeltaProofs.ClassifyCases | backend/app/rag/file_scanner.py:117-132 | A file is unchanged iff it is indexed under the same hash, new iff its path is not indexed, and updated iff it is indexed under another hash. |
| DeltaProofs.ScanDocuments | backend/app/rag/file_scanner.py:114-150 | Every emitted document is a chunk of a discovered, supported, new or updated file, carrying that file's metadata. Every chunk of every such file is emitted. |
| DeltaProofs.ChunkMetadataFields | backend/app/rag/file_scanner.py:138-148 | Chunk metadata holds the file's path string, name and current hash, plus `user_id`, or `"global"` when `user_id` is not truthy. |
| DeltaProofs.ScanCounts | backend/app/rag/file_scanner.py:114-134 | Over distinct paths, `new_files` counts the supported paths absent from the index and `updated_files` those indexed under another hash. Each updated path is deleted exactly once. |
| DeltaProofs.ScanRemoved | backend/app/rag/file_scanner.py:152-159 | `deleted_files` counts the indexed paths missing from all discovered files. A path still on disk is never removed, even when its suffix is unsupported. |
| DeltaProofs.PurgedNotRemoved | backend/app/rag/file_scanner.py:133-158 | No path is deleted both as updated and as removed. |
| DeltaProofs.ScanInSyncIsQuiet | backend/app/rag/file_scanner.py:114-159 | When the index agrees with the disk, a scan emits no document, counts nothing and deletes nothing. |
| DeltaProofs.LoadAppend | backend/app/rag/file_scanner.py:64-70 | Reading the index back after appending documents gives the old index overwritten by the new documents' entries. |
| DeltaProofs.LoadDelete | backend/app/rag/file_scanner.py:64-70 | Reading the index back after deleting paths gives the old index without those paths. |
| DeltaProofs.LoadStoreAfter | backend/app/rag/file_scanner.py:94-159 | After a scan's deletes and upsert, the index reads back as the old index minus the deleted paths, plus an entry for each new or updated file with chunks. |
| DeltaProofs.SyncAfterScan | backend/app/rag/file_scanner.py:94-159 | After one scan's writes, the index agrees with the disk, provided every supported file yields a chunk. |
| Config.SelectProvider | backend/app/rag/embeddings.py:52-68 | An unknown provider is reported by its upper-cased name. |
| Config.SelectProviderIgnoresCase | backend/app/rag/graph.py:29-48 | A setting selects a provider iff it upper-cases to that provider's name. Upper-casing the setting first changes nothing. |
| Config.SelectProviderByName | backend/app/core/settings.py:36-38 | Each of the three admitted values selects its provider, in either case. |
| Embeddings.OllamaStrategy | backend/app/rag/embeddings.py:18-27 | Succeeds iff `ollama_url` is set and non-empty, with the configured embedding model and that URL. Otherwise it is the Ollama URL error. |
| Embeddings.OpenAIStrategy | backend/app/rag/embeddings.py:30-39 | Succeeds iff `openai_api_key` is set and non-empty, with the configured embedding model and that key. Otherwise it is the missing-key error. |
| Embeddings.GetEmbeddingStrategy | backend/app/rag/embeddings.py:42-70 | An embeddings client is returned iff the provider is OLLAMA with a URL or OPENAI with a key, and the client matches the provider. |
| Embeddings.EmbeddingErrors | backend/app/rag/embeddings.py:54-68 | An unknown provider gives an error naming it. ANTHROPIC always fails, whatever keys are set. OLLAMA and OPENAI fail only on their own missing credential. |
| Embeddings.EmbeddingIgnoresCase | backend/app/rag/embeddings.py:52 | The provider name is matched case-insensitively. |
| Embeddings.EmbeddingReadsOwnCredential | backend/app/rag/embeddings.py:18-39 | The outcome depends only on the provider and on the settings of Ollama and OpenAI embeddings. |
| Pipeline.ContextLine | backend/app/rag/graph.py:54-56 | Each context paragraph starts with `From `. |
| Pipeline.JoinContextEmpty | backend/app/rag/graph.py:54-57 | The joined context is empty exactly when no document was retrieved. |
| Pipeline.JoinContextSnoc | backend/app/rag/graph.py:54-56 | Each further document appends a blank line and `From {file_name}: {content}` to the context. A missing name prints as `None`. |
| Pipeline.SimilaritySearch | backend/app/rag/vectorstore.py:25-50 | Opening the store raises exactly when no embeddings client can be built, with that error. Otherwise the store is searched with a `user_id` filter only for a non-empty `user_id`. |
| Pipeline.RetrieveNode | backend/app/rag/graph.py:51-58 | The node fails iff no embeddings client can be built, with that configuration error. Otherwise only `context` changes; it is set, and it is empty iff the search returned nothing. |
| Pipeline.GetChatModel | backend/app/rag/graph.py:27-48 | A chat model is built iff the provider is one of the three, whatever credentials are set: `ChatOllama` with the Ollama URL and LLM model, `ChatOpenAI` with `gpt-4o-mini` and the OpenAI key, `ChatAnthropic` with `claude-3-5-sonnet-20241022` and the Anthropic key. Otherwise the error names the upper-cased provider. |
| Pipeline.ChatModelWhenSearchable | backend/app/rag/graph.py:27-48 | Whenever an embeddings client can be built, a chat model can be built too, and it is the Ollama model exactly when the embeddings are Ollama's. |
| Pipeline.ContextOrFallback | backend/app/rag/graph.py:71 | The prompt uses `NO CONTEXT` exactly when the context is missing, empty, or itself that text. Otherwise it uses the context. |
| Pipeline.GenerateNode | backend/app/rag/graph.py:61-75 | Only `answer` changes, set to the model's reply to the prompt. The node fails iff no chat model can be built. |
| Pipeline.PromptAfterRetrieve | backend/app/rag/graph.py:51-71 | After a successful retrieval, the user message carries the question and the joined context, or `NO CONTEXT` when nothing was found. |
| Pipeline.InvokeIsRetrieveThenGenerate | backend/app/rag/graph.py:78-88 | Running the compiled graph from its entry point, within LangGraph's default step limit, equals `retrieve` followed by `generate`. A failure of either node ends the run with that node's error. |
| Pipeline.InvokeKeepsQuestion | backend/app/rag/graph.py:51-75 | A run fails exactly when no embeddings client can be built, with that error. A successful run keeps the question and user and sets an answer. |
| Api.ValidateQuery | backend/app/main.py:97-109 | The stripped query is accepted iff it is non-empty, at most 1024 characters, and free of the prohibited phrases. Each failure gives its own 400 error, in check order. |
| Api.ValidateQueryIdempotent | backend/app/main.py:97-109 | An accepted query has 1 to 1024 characters and no whitespace at either end, and is accepted again unchanged. |
| Api.ValidateQueryEmpty | backend/app/main.py:98-100 | A query is refused as empty iff it is missing or all whitespace. |
| Api.BlockedIgnoresCase | backend/app/main.py:105-108 | The prohibited-phrase check gives the same verdict on the upper- and lower-cased query. |
| Api.BlockedAnywhere | backend/app/main.py:105-108 | A prohibited phrase is caught wherever it occurs in the query. |
| Api.Snippet | backend/app/main.py:124-130 | The snippet is the first 300 characters with each line feed turned into a space, followed by `...` exactly when the content is longer than 300. |
| Api.SnippetShape | backend/app/main.py:124-130 | A snippet has no line feed and at most 303 characters. Short one-line content is its own snippet. |
| Api.SearchResultOfChunk | backend/app/main.py:122-134 | A scanner-written chunk is reported with its file's name, path and times. A document without metadata is reported as `unknown` with an empty path. |
| Api.Search | backend/app/main.py:112-147 | Validation errors pass through, and a valid query is a 500 when no embeddings client can be built. There is one result per retrieved document, in order, and an answer exactly when one is requested and something was retrieved. |
| Api.SearchAnswer | backend/app/main.py:112-147 | The request fails iff the query is refused or no embeddings client can be built. When an answer is requested and documents were found, it is the model's reply to a prompt built from those same documents. |
| Api.ServeDocument | backend/app/main.py:172-191 | Returns 400 outside the root, 404 for a missing file, and 500 with the loader's message when loading fails. Otherwise it returns the file's name, path, content and times. |
| Api.GetDocumentAsWritten | backend/app/main.py:163-170 | A served path starts with the root's text. |
| Api.SiblingPassesPrefixCheck | backend/app/main.py:163-170 | As written, a file in `/srv/sample_runs_evil` is served for root `/srv/sample_runs`. The intended check refuses it. |
| Api.GetDocument | backend/app/main.py:157-170 | With the intended check, a served path is the root or lies inside it. |
| Api.WithinRootSpec | backend/app/main.py:163-170 | The intended check accepts the root and everything below it, refuses every other extension of the root's name, and is stricter than the prefix check. |
| Api.ApplyDeletes | backend/app/rag/file_scanner.py:133-158 | Applying the delete calls one by one deletes exactly the set of paths they name. |
| Api.Embed | backend/app/main.py:80-94 | Without an embeddings client the call is a 500 and the collection is untouched. Otherwise the response carries the scan's counters and the number of documents, and the collection ends with the scan's deletes applied and the documents appended when there are any. |
| Api.EmbedTwiceIsQuiet | backend/app/main.py:80-94 | A second embed right after a first reports zeros and leaves the collection unchanged, provided paths are distinct, hashes non-empty, and every supported file yields a chunk. |
| Api.EmptyFileStaysNew | backend/app/rag/file_scanner.py:127-150 | A supported file that yields no chunk is never indexed, so every embed counts it as new again. |

## Left out

- Filesystem walking (`_iter_files`), MD5 (`_hash_file`), `read_text` and the text splitter. These are inputs: a listing of files, and the `hash`, `decode` and `split` functions. `chunk_size` and `chunk_overlap` therefore play no part.
- Timestamps from `stat` and `datetime.isoformat`. They are given as strings.
- Chroma internals and embedding computation. The collection is a sequence of documents, `add_documents` appends, and `delete(where=...)` removes by `file_path`. Ranked similarity search is a parameter that receives the embeddings client, the query, `k` and the user filter. Of opening the store (`get_vectorstore`), only the failure to build an embeddings client is modelled; the Chroma client's directory and persistence are not.
- LLM calls. The reply content is a function of the chat model and the messages. Logging, `temperature=0.2`, FastAPI routing, CORS, the startup hook, and the response models' validation are not modelled.
- backend/app/core/settings.py beyond the fields read, and backend/app/mermaid/diagram.py and the frontend, which sit outside the core.
- Api.Search: the `score` field (a float that comes only from a `score` metadata key) is not modelled.
- Api.Search: any exception raised by the graph becomes a plain 500 error.
- Api.ServeDocument: `Path.resolve()` is outside the model. The resolved path and root are inputs, and `get_document`'s loader and `stat` are parameters.
- Api.ServeDocument: main.py imports `_load_text_from_file`, which backend/app/rag/file_scanner.py does not define, so the loader is a parameter of this model.
- Text.Strip: only ASCII whitespace is stripped. Unicode spaces such as U+00A0 are kept, unlike Python's `str.strip()`.
- Text.Lower: only ASCII letters change case, unlike Python's full Unicode case mapping.
- Text.Upper: only ASCII letters change case. Python's `str.upper()` maps further characters, for example the dotless `ı` to `I`, so a provider setting such as `openaı` selects OpenAI in the program but is unsupported in the model.
- Paths: a path is a parent / stem / suffix triple that is never re-split from its name, whereas `pathlib` re-derives stem and suffix from the name. For a name ending in `.` (stem `foo.`, empty suffix) the program's next version `foo.__v1` has suffix `.__v1` and parses back to version 0; the model keeps the suffix empty and the version 1.
- Versioning.ParseVersion: only ASCII digits count as a version. Python's `isdigit` also accepts other characters. For some, such as `²`, `int()` then raises; that path is not modelled. Other non-ASCII decimal digits parse to their value in Python: the stem `x__v٣` has version 3 there but version 0 in the model, so `resolve_latest_version` can pick a different sibling when such names occur.
- FileScanner.DetectDeleted: the order in which dictionary keys are visited is left open. The calls are proved to name each removed path exactly once, and deletes commute (VectorStore.DeleteTwice).
- Config.SelectProvider: `use_provider` is a pydantic `Literal` of three upper-case names. The model accepts any string and follows the code's `.upper()` and error branch.
- Pipeline.Run: LangGraph's step counting is reduced to its default limit of 25 node runs.
- Concurrency between requests is not modelled. Each handler is a function of the collection it sees.

## Findings

| source | as written | input that shows it | evidently intended | confidence | as-written member | corrected member |
|---|---|---|---|---|---|---|
| backend/app/main.py:164 | `str(requested).startswith(str(root))` accepts any path whose text extends the root's name | root `/srv/sample_runs`, file `/srv/sample_runs_evil/secret.md` | serve only the root and paths inside it, as the comment on path traversal says | high; not executed | Api.GetDocumentAsWritten, Api.SiblingPassesPrefixCheck | Api.GetDocument, Api.WithinRootSpec |
