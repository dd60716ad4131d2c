# Resume analyzer: retrieval pipeline

A model, in Dafny, of the retrieval core of a retrieval-augmented question
answering service over uploaded resumes. It has two halves.

- **Ingestion** (`modules/vectorstore.py`, `upload_pdfs_to_vectorstore`):
  1. Clear the session's namespace of the vector index.
  2. Flatten every file's chunks into parallel lists of texts and metadata
     records.
  3. Turn each record into a vector whose id is `doc_<position>_<hash of
     source>`.
  4. Upsert the vectors in batches of 100 into the session's namespace.

  The per-user session token (`get_session_id`) and `clear_session_data`
  belong to this half.
- **Retrieval** (`modules/query_handler.py`, `ask_question`):
  1. Drop blank matches.
  2. Group the rest by source, in first-appearance order.
  3. Sort each group by score and cap it at a per-source quota.
  4. Emit a header document before each source's chunks.
  5. Short-circuit to a fixed answer when nothing is left.
  6. Otherwise hand the documents to the answering chain and report the
     distinct sources of the documents it used.

Files:

- `common.dfy` (module `Common`): `Option` and `Dedup`. `Dedup` keeps the
  distinct elements in first-appearance order, which is the key order of a
  dictionary built key by key.
- `strings.dfy` (module `Strings`):
  - `str.strip()` over Python's `isspace` characters;
  - the text after the last `/`;
  - `str()` of an integer, with its round trip.
- `query_handler.dfy` (module `QueryHandler`): `ask_question` and
  `SimpleRetriever`.
  - The grouping loop and the context-assembly loops are methods, proved
    against specification functions (`Kept`, `SourceOrder`, `Group`,
    `Context`).
  - `list.sort` is a library call, so it is a stable insertion sort
    function.
- `vectorstore.dfy` (module `VectorStore`):
  - the vector index is a class holding a map from namespace to stored
    vectors, with a ghost log of requests;
  - the session state is a class;
  - the collection loop, the vector loop and the batch loop are methods,
    proved against `Records`, `Vectors` and `Batches`.
- `isolation.dfy` (module `Isolation`): what a query can retrieve after an
  upload. It covers the query as written and the session-scoped query (see
  Findings).

Inputs instead of code:
- The index query's matches are an input sequence.
- The answering chain is a function of the documents and the question.
- The PDF loader and splitter, the embedding model, Python's `hash` and
  `uuid4` are function parameters or a parameter value.

## Model

| member | source | states |
|---|---|---|
| Strings.TrimStartSpec | modules/query_handler.py:51 | Leading strip removes exactly a prefix of whitespace and stops at the first non-whitespace character. |
| Strings.TrimEndSpec | modules/query_handler.py:51 | Trailing strip removes exactly a suffix of whitespace and stops at the last non-whitespace character. |
| Strings.StripSlice | modules/query_handler.py:51 | `strip()` returns a slice of the text. Only whitespace lies outside it, and the result neither starts nor ends with whitespace. |
| Strings.StripEmptyIff | modules/query_handler.py:51-52 | A match's text is dropped exactly when it is all whitespace. |
| QueryHandler.KeptSpec | modules/query_handler.py:50-52 | A match yields a chunk exactly when its stripped text is non-blank. Every kept chunk is the stripped chunk of some match. Nothing is kept exactly when every text is blank. |
| QueryHandler.GroupBySource | modules/query_handler.py:49-60 | After the single pass over the matches: the key order is the distinct sources in first-appearance order ("unknown" for a match without a source), with no duplicates; the dictionary's keys are exactly those sources; each source maps to its kept chunks, in retrieval order. |
| QueryHandler.AddChunk | modules/query_handler.py:53-60 | One kept chunk: the grouping of the chunks so far becomes the grouping of those chunks and this one, its source appended to the order when new. |
| QueryHandler.GroupMembers | modules/query_handler.py:53-60 | A source's list holds exactly the kept chunks of that source. |
| QueryHandler.GroupsCover | modules/query_handler.py:53-60 | Every kept chunk is in the list of its own source, that source is a key, and no chunk is in another source's list. |
| QueryHandler.GroupsCount | modules/query_handler.py:49-60 | The list sizes add up to the number of kept chunks: grouping loses and duplicates nothing. |
| QueryHandler.GroupEmpty | modules/query_handler.py:54-56 | A source that no kept chunk carries has no chunks. |
| QueryHandler.GroupNonEmpty | modules/query_handler.py:54-56 | Every key's list is non-empty. |
| Common.DedupSpec | modules/query_handler.py:54-55 | The keys are the sources seen, each once. |
| Common.DedupFirstAppearance | modules/query_handler.py:54-55 | Keys come in the order in which their sources first appear. |
| QueryHandler.Quota | modules/query_handler.py:66 | The per-source cap is 10 with zero or one source, 5 with two and 3 with three or more. It is never below 3. |
| QueryHandler.QuotaBudget | modules/query_handler.py:66 | `n` sources at their cap contribute at most `max(10, 3n)` chunks. |
| QueryHandler.SortSpec | modules/query_handler.py:70 | The sorted list is a permutation of the chunks, in descending score order. |
| QueryHandler.SortStable | modules/query_handler.py:70 | Chunks with equal scores keep their retrieval order, as Python's sort does. |
| QueryHandler.TopSpec | modules/query_handler.py:81 | The top slice holds `min(count, cap)` chunks, sorted. None of them scores below a dropped chunk. A non-empty group with a positive cap keeps at least one. |
| QueryHandler.TopMembers | modules/query_handler.py:81 | The top slice holds only chunks of its group. |
| Strings.AfterLastSlash | modules/query_handler.py:73 | The result is the suffix after the last `/` and contains no `/`. |
| QueryHandler.LabelSpec | modules/query_handler.py:73 | The file name shown is the longest `/`-free suffix of the source. |
| QueryHandler.HeaderDoc | modules/query_handler.py:74-77 | A header document is marked `type: header` and names its source. |
| QueryHandler.AppendBlock | modules/query_handler.py:68-85 | For one source, the method appends its header followed by its top chunks. Each chunk becomes a document keeping the match's metadata. |
| QueryHandler.AssembleContext | modules/query_handler.py:64-85 | The documents are the blocks of the sources in key order, capped by the quota of line 66. |
| QueryHandler.ContextLength | modules/query_handler.py:64-85 | The context holds one header per source plus `min(count, cap)` documents per source. |
| QueryHandler.ContributedAtMost | modules/query_handler.py:81 | All sources together contribute at most `n × cap` content documents for `n` sources. The per-source bound (`min(count, cap)`) is in `TopSpec`. |
| QueryHandler.ContributedAtLeast | modules/query_handler.py:81 | With a positive cap and every listed source holding chunks, the sources together contribute at least `n` content documents. That each such source contributes at least one is in `TopSpec`. |
| QueryHandler.ContextHeaders | modules/query_handler.py:72-78 | When no chunk claims to be a header, the context's headers name the sources once each, in key order. |
| QueryHandler.BlockHeaders | modules/query_handler.py:72-85 | A source's block has exactly one header, naming that source. |
| QueryHandler.ContextDocSources | modules/query_handler.py:68-85 | Every context document is a header or belongs to one of the listed sources. |
| QueryHandler.ContextMetas | modules/query_handler.py:82-85 | Every content document carries the metadata of a grouped chunk. |
| QueryHandler.RetrievalContextMetas | modules/query_handler.py:49-85 | Every content document carries the metadata of one of the matches. |
| QueryHandler.RetrievalContextEmpty | modules/query_handler.py:89 | The context is empty exactly when every match's text is blank. |
| QueryHandler.RetrievalContextShape | modules/query_handler.py:64-85 | For matches from ingested records, the context has one header per source, in first-appearance order. It holds between `2n` and `n + max(10, 3n)` documents for `n` sources. |
| QueryHandler.SourceListMembers | modules/query_handler.py:104-108 | A source is listed exactly when a used non-header document reports it ("Unknown" when the document has none). |
| QueryHandler.ExtractSourcesSpec | modules/query_handler.py:103-108 | The reported sources are distinct and are exactly those of the used non-header documents. |
| QueryHandler.SimpleRetriever.constructor | modules/query_handler.py:17-19 | The retriever keeps the documents it is given. |
| QueryHandler.SimpleRetriever.GetRelevantDocuments | modules/query_handler.py:21-22 | The retriever returns its documents, whatever the query. |
| QueryHandler.AskQuestion | modules/query_handler.py:24-113 | The answer is the fixed no-information response with no sources when the context is empty. Otherwise it is the chain's answer on the context, with the de-duplicated sources it used. The sources never repeat. |
| QueryHandler.ShortCircuit | modules/query_handler.py:89-93 | When every match is blank, the fixed answer comes back with no sources, whatever the chain would say. |
| QueryHandler.AnswerSources | modules/query_handler.py:103-113 | When the chain reports only documents of its context, every reported source is a grouped source or "Unknown", each once. |
| VectorStore.SessionState.constructor | modules/vectorstore.py:42 | A new session holds no token. |
| VectorStore.SessionState.GetSessionId | modules/vectorstore.py:40-45 | A stored token is returned unchanged. Without one, the fresh `uuid4` is stored and returned. Either way the returned token is the stored one, so later calls return it too. |
| VectorStore.VectorIndex.constructor | modules/vectorstore.py:27-36 | The create-if-absent branch: a newly created index has no namespaces and has received no requests. An existing index (line 38) is any `VectorIndex` value. |
| VectorStore.VectorIndex.DeleteAll | modules/vectorstore.py:51 | The namespace is emptied, also when it held nothing, and no other namespace changes. |
| VectorStore.ClearSessionData | modules/vectorstore.py:47-52 | Exactly the session's namespace is emptied, by one delete-all request. |
| VectorStore.VectorIndex.Upsert | modules/vectorstore.py:105 | The batch is written over the namespace, a repeated id overwriting. No other namespace changes. |
| VectorStore.UpsertAllSpec | modules/vectorstore.py:105 | Writing vectors with distinct ids adds exactly their ids, each holding its own vector, and keeps every other entry. |
| VectorStore.UpsertAllConcat | modules/vectorstore.py:103-105 | Writing two slices one after the other equals writing their concatenation. |
| VectorStore.Records | modules/vectorstore.py:62-86 | There is one record per chunk of every file. |
| VectorStore.RecordAt | modules/vectorstore.py:65-84 | Record `offset(f) + c` is chunk `c` of file `f`. It has that file as source and the chunk's text, with page 0 when the chunk has none. |
| VectorStore.RecordSources | modules/vectorstore.py:81 | Every record names one of the uploaded files as its source. |
| VectorStore.CollectChunks | modules/vectorstore.py:62-86 | The metadata list is the records of all files in file order, then chunk order. The text list is parallel to it. |
| VectorStore.Vectors | modules/vectorstore.py:94 | There is one vector per pair, as many as the shorter list, as `zip` pairs them. |
| Strings.NatToStringRoundTrip | modules/vectorstore.py:96 | Reading back the decimal form of a position gives the position. |
| Strings.NatToStringInjective | modules/vectorstore.py:96 | Distinct positions have distinct decimal forms. |
| VectorStore.VectorIdInjective | modules/vectorstore.py:96 | Two ids are equal only for equal positions, whatever the source hashes are. |
| VectorStore.VectorIdsDistinct | modules/vectorstore.py:93-99 | The ids of one upload are pairwise distinct. |
| VectorStore.BuildVectors | modules/vectorstore.py:93-99 | The loop builds, for each position, the vector with id `doc_<k>_<hash>`, the embedding and the record. |
| VectorStore.BatchesSpec | modules/vectorstore.py:102-105 | Every batch holds 1 to 100 vectors, and all but the last hold exactly 100. There are `ceil(n/100)` batches, none for no vectors. Together they are the vectors in order. |
| VectorStore.UpsertInBatches | modules/vectorstore.py:101-105 | Each request upserts the next batch into the namespace. The namespace ends as all vectors written in order, and no other namespace changes. |
| VectorStore.UploadPdfsToVectorstore | modules/vectorstore.py:54-112 | See the paragraph after this table. |
| VectorStore.UploadedCount | modules/vectorstore.py:109-112 | When the embedder returns one embedding per text, the upload writes `total_chunks` vectors. |
| Isolation.UploadIntoSession | modules/vectorstore.py:54-112 | The modelled upload leaves the index in the `UploadedInto` state the lemmas below assume, and returns the same counts. |
| Isolation.UploadIsolated | modules/vectorstore.py:105 | An upload changes nothing that another session's namespace holds. |
| Isolation.SessionSeesUpload | modules/vectorstore.py:105 | After an upload, the session's namespace holds exactly the uploaded records. |
| Isolation.UploadedMetasFrom | modules/vectorstore.py:80-84 | Every stored record names an uploaded file, and none claims to be a header. |
| Isolation.AsWrittenQueryMissesUpload | modules/query_handler.py:44 | As written, an upload never changes what the query can see. After a non-empty upload into an index whose default namespace is empty, the query sees nothing. |
| Isolation.AsWrittenNoAnswer | modules/query_handler.py:44-93 | As written, every question then gets the fixed no-information answer. |
| Isolation.SessionAnswerSources | modules/query_handler.py:44-113 | With the session-scoped query, after an upload the answers cite only the files that session uploaded. |
| Strings.Strip | modules/query_handler.py:51 | Definition of `str.strip()`; properties in `StripSlice` and `StripEmptyIff`. |
| QueryHandler.ChunkOf | modules/query_handler.py:51-59 | Definition of the chunk a match contributes; properties in `KeptSpec`. |
| QueryHandler.Kept | modules/query_handler.py:50-60 | Definition of the kept chunks in retrieval order; properties in `KeptSpec`. |
| QueryHandler.SortByScore | modules/query_handler.py:70 | Definition of the stable descending sort; properties in `SortSpec` and `SortStable`. |
| QueryHandler.Top | modules/query_handler.py:81 | Definition of the top slice; properties in `TopSpec` and `TopMembers`. |
| QueryHandler.Label | modules/query_handler.py:73 | Definition of the file name shown; properties in `LabelSpec`. |
| QueryHandler.Block | modules/query_handler.py:72-85 | Definition of one source's documents; properties in `BlockHeaders` and `ContextLength`. |
| QueryHandler.Context | modules/query_handler.py:64-85 | Definition of the assembled documents; properties in `ContextLength`, `ContextHeaders`, `ContextDocSources` and `ContextMetas`. |
| QueryHandler.ExtractSources | modules/query_handler.py:103-108 | Definition of the reported sources; properties in `ExtractSourcesSpec`. |
| QueryHandler.Answered | modules/query_handler.py:24-113 | Definition of the answer; properties in `ShortCircuit`, `AnswerSources` and `AskQuestion`. |
| VectorStore.UpsertAll | modules/vectorstore.py:105 | Definition of writing vectors in order into a namespace; properties in `UpsertAllSpec` and `UpsertAllConcat`. |
| VectorStore.VectorId | modules/vectorstore.py:96 | Definition of `doc_{k}_{hash}`; properties in `VectorIdInjective`. |
| VectorStore.Batches | modules/vectorstore.py:102-104 | Definition of the 100-vector slices; properties in `BatchesSpec`. |
| Isolation.QueryAsWritten | modules/query_handler.py:44 | Definition of the query as written, reading the default namespace; properties in `AsWrittenQueryMissesUpload` and `AsWrittenNoAnswer`. |
| Isolation.SessionQuery | modules/query_handler.py:44 | Definition of the session-scoped query; properties in `SessionSeesUpload`, `UploadIsolated` and `SessionAnswerSources`. |
| QueryHandler.GroupKey | modules/query_handler.py:53 | Definition of a chunk's group key, the source or `"unknown"` when the metadata names none; properties in `GroupsCover` (every kept chunk sits in the group of its key, and a group holds only chunks of that key). |
| QueryHandler.SourceOrder | modules/query_handler.py:49-60 | Definition of the sources in order of first appearance; properties in `DedupSpec` and `DedupFirstAppearance` (distinct, ordered by first index) and `GroupBySource` (the loop's order). |
| QueryHandler.Group | modules/query_handler.py:53-60 | Definition of one source's chunks in retrieval order; properties in `GroupMembers` (exactly the kept chunks of that key) and `GroupsCount` (the groups' sizes add up to the kept count). |
| QueryHandler.HeaderText | modules/query_handler.py:75 | Definition of the header line naming a file; properties in `HeaderDoc` (the header document is a header and names its source). |
| QueryHandler.IsHeader | modules/query_handler.py:76 | Definition of a header document, by its `type` metadata (also the test of line 107); properties in `HeaderDoc` and `SourceListMembers`. |
| QueryHandler.ContentDoc | modules/query_handler.py:82-85 | Definition of the document for a chunk; properties in `ContextMetas` (every non-header document of the context carries a grouped chunk's metadata). |
| QueryHandler.RetrievalContext | modules/query_handler.py:49-85 | Definition of the whole context built from the matches; properties in `RetrievalContextEmpty`, `RetrievalContextShape` and `RetrievalContextMetas`. |
| QueryHandler.ReportedSource | modules/query_handler.py:105 | Definition of the source a used document reports, `"Unknown"` when none; properties in `SourceListMembers`. |
| QueryHandler.SourceList | modules/query_handler.py:104-108 | Definition of the reported sources of the non-header documents, in order; properties in `SourceListMembers` (a source is listed exactly when a non-header document reports it). |
| VectorStore.FileRecords | modules/vectorstore.py:78-84 | Definition of the records of one file's chunks; properties in `RecordAt` (record `TotalChunks(paths[..f]) + c` is chunk `c` of file `f`, page defaulting to 0). |
| VectorStore.TextsOf | modules/vectorstore.py:79 | Definition of the texts handed to the embedder; properties in `CollectChunks` (the loop collects exactly these texts beside the records). |
| VectorStore.VectorAt | modules/vectorstore.py:96 | Definition of vector `k`, its id, embedding and record; properties in `BuildVectors` (the loop builds exactly these) and `VectorIdsDistinct` (their ids are distinct). |
| VectorStore.Uploaded | modules/vectorstore.py:62-99 | Definition of the vectors an upload builds; properties in `UploadPdfsToVectorstore` (the namespace holds exactly these) and `UploadedCount` (one per chunk). |
| Strings.IsSpace | modules/query_handler.py:51 | Definition of the whitespace `str.strip()` removes; properties in `StripSlice` (what `Strip` removes at either end is whitespace). |
| Strings.NatToString | modules/vectorstore.py:96 | Definition of the decimal form of a natural number; properties in `NatToStringRoundTrip`, `NatToStringInjective` and `VectorIdInjective`. |
| Strings.IntToStringRoundTrip | modules/vectorstore.py:96 | `str()` of the source hash is read back as the same integer, sign included, so the id's hash part determines the hash. |
| Strings.IntToString | modules/vectorstore.py:96 | Definition of the decimal form of an integer, with a leading `-` when negative; properties in `IntToStringRoundTrip` (reading the text back, sign included, gives the integer). |
| Isolation.Retrievable | modules/query_handler.py:44 | Definition of the metadata a query of one namespace can return; properties in `SessionSeesUpload` and `UploadIsolated`. |

`VectorStore.UploadPdfsToVectorstore` states:
- the result is `{files_count, total_chunks}`;
- the request log is one delete-all of the session namespace, followed by an
  upsert of each batch of the built vectors into it;
- the session namespace ends holding exactly the built vectors under their
  ids;
- no other namespace changes.

## Left out

- Network and libraries:
  - the Pinecone client (the API key and index name read at
    modules/vectorstore.py:21-25 and modules/query_handler.py:30-31) and the
    similarity search that ranks matches and keeps the top 20
    (modules/query_handler.py:44), which are not part of this model;
  - the PDF loader and the text splitter (chunks of 500 characters with
    50 of overlap), which are a function `split` from path to chunks;
  - the embedding model (`get_embeddings`), which is a function parameter.

  The matches `ask_question` receives are an input sequence. That the
  embeddings are normalised vectors of fixed length is not modelled.
- The answering chain (`get_llm_chain`, the prompt and the language model)
  is a function from the documents and the question to the result and the
  used documents. `modules/llm.py` is not part of this model.
- Python's `hash` (salted per process) is a parameter `hash`. `uuid4` is the
  `freshId` parameter of `GetSessionId`.
- Logging output (`print`) is left out.
- QueryHandler.AskQuestion: the re-raising of exceptions (query_handler.py:115-117) is not modelled. Failures of the index, embedder or chain are outside the model.
- QueryHandler.ExtractSources: `list(set(...))` has no specified order. The model lists sources in first-appearance order, and ExtractSourcesSpec states only what the code promises: membership and no duplicates.
- QueryHandler.Chunk: scores are integers, not floats. Only their order matters here. A missing score reads as 0.
- QueryHandler.ChunkOf: a match without a `metadata` key (a `KeyError` in the source) is not modelled. Every `Meta` key may be absent.
- QueryHandler.GroupBySource: `chunks.sort` reorders the dictionary's lists in place. The model sorts a copy, because the lists are not read again afterwards.
- VectorStore.UploadPdfsToVectorstore: failures after the namespace is cleared are not modelled, because the loader, the embedder and the index here never fail. A file the loader cannot read (line 68) or an embedder failure (line 90) would leave the session's namespace empty. An upsert failing on a later batch (line 105) would leave it partly written.
- Isolation.Retrievable: a query is modelled by the set of metadata it may return. Its ranking and the `top_k` bound are not modelled.
- The Streamlit pages, the upload form, `app.py` and the helper scripts are not part of this model.

## Findings

| source | as written | input that shows it | evidently intended | confidence | as-written member | corrected member |
|---|---|---|---|---|---|---|
| modules/query_handler.py:44 | The index query names no namespace, so it reads the index's default namespace. Ingestion writes only into `namespace=session_id` (modules/vectorstore.py:105). | An index whose default namespace is empty; upload one PDF with at least one chunk under any session id (a `uuid4` string, never empty); then ask any question: the fixed no-information answer comes back. | Query `namespace=session_id`, as the ingestion docstring's "session isolation" (modules/vectorstore.py:55) and the caller's `ask_question(prompt, session_id)` (components/chat.py:39) indicate. | high; not executed | Isolation.AsWrittenQueryMissesUpload | Isolation.SessionAnswerSources |

The as-written half:
- `Isolation.QueryAsWritten` reads the default namespace.
- `Isolation.AsWrittenQueryMissesUpload` and `Isolation.AsWrittenNoAnswer`
  show that an upload never reaches it.

The corrected half:
- `Isolation.SessionQuery` reads the session's namespace.
- The matches `QueryHandler.AskQuestion` takes stand for that query.
- `Isolation.SessionSeesUpload` proves that the session sees exactly what it
  uploaded.
- `Isolation.UploadIsolated` proves that no other session sees it.
- `Isolation.SessionAnswerSources` proves that the answers cite only the
  session's own files.

The same caller passes two arguments to the one-parameter `ask_question`.
The upload form calls `upload_pdfs_to_vectorstore` without a session id
(components/upload.py:73). Both calls are outside the modelled core.
