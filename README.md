# DocuMind retrieval core in Dafny

DocuMind is a retrieval-augmented question-answering service. It turns uploaded PDF documents into text chunks. It embeds each chunk and keeps the chunks in an in-memory vector index. At query time it retrieves the best-scoring chunks, assembles them into a context of bounded length and asks a language model for an answer. Embeddings and answers are memoised in an on-disk cache whose entries expire by file age.

This project models that core and proves properties of the model:

- `VectorIndex` (vector_store.dfy): the vector store.
  - It is a list of records with a position-to-id side map.
  - Insertion checks the embedding dimension.
  - Search is a threshold filter, a stable descending sort and a top-k prefix.
  - Lookup and deletion act on the first record with the id.
- `Ranking` (ranking.dfy): Python's stable `list.sort(key=..., reverse=True)` and `[:k]`.
  - The sort is an insertion sort on an array, proved equal to a reference sort function.
  - The sorted result is ordered, a permutation of the input, and stable.
- `Cache` and `CacheKey` (cache.dfy, cache_key.dfy): the TTL cache.
  - The file system is a map from `(category, key)` to a file's content and modification time, plus the set of category directories.
  - The clock is an argument.
  - The cache key is an abstract digest of the canonical `json.dumps(..., sort_keys=True)` / `str(...)` text. That text is defined and proved independent of dict insertion order.
- `Splitting` and `Chunking` (splitting.dfy, chunking.dfy): the chunker.
  - The sliding character window with its backward search for `.` or a newline.
  - Greedy packing of paragraphs and sentences.
  - `chunk_document` numbering.
- `Queries` (query_processor.dfy):
  - result formatting;
  - query expansion;
  - the keyword-overlap rerank, sorted in place;
  - greedy context assembly under a character budget.
- `Pipeline` (rag_pipeline.dfy): the document registry, a list plus an insertion-ordered dictionary.
- `Uploads` (file_handler.dfy): upload storage over a map from category directory to the entries its listing yields.
  - MIME classification.
  - The stored name `file_id + suffix`.
  - The first-match path search.
  - Deletion.
  - The age-based sweep of `temp`.
- `App` (main.dfy): the `DocuMind` facade.
  - Cache-checked embedding during ingestion and the chunk ids `"{file_path}_{i}"`.
  - Query memoisation.
  - Errors returned as an error-details record.
  - The PDF extractor, the embedding model and the answer generator are function-valued parameters.

Stateful pieces are classes whose methods state the new state in terms of the old, using a specification function where there is a loop: `VectorStore`, `CacheManager`, `DocumentChunker`, `QueryProcessor`, `RAGPipeline`, `FileHandler` and `DocuMind`. The properties of those functions are lemmas.

Where the code and its accompanying description differ, the model follows the code:

- `set` into a category directory that does not exist fails with `FileNotFoundError`. Only the three fixed directories are created (src/cache.py:30-32, 89-91); the directory is not created on first use.
- The next token window starts at `end - chunk_overlap`, where `end` may have been moved back to a sentence break (src/chunking.py:51, 57). It does not start at `start + size - overlap`.
- Rerank ties keep the list order, since the sort is stable on `rerank_score` alone (src/query_processor.py:113). There is no fallback to the original score.
- Not every damaged cache file reads as a miss. `get` catches only `FileNotFoundError` and `UnpicklingError` (src/cache.py:113-118). An empty or truncated file raises `EOFError`, and a pickle that is not a record with a `value` raises `KeyError` or `TypeError`. These propagate: `process_pdf` and `query` turn them into error details (src/main.py:93, 119-120, 138, 171-172).

## Model

| member | source | states |
|---|---|---|
| VectorIndex.VectorStore.constructor | src/vector_store.py:30-32 | the store starts empty, with the given dimension, and the side map agrees with it |
| VectorIndex.VectorStore.AddDocument | src/vector_store.py:50-61 | wrong embedding length ⇒ `ValueError` with the original message and the store unchanged; otherwise exactly one record (metadata `{}` when none) appended at the end, duplicates accepted; `index_to_id[j] == documents[j].id` is kept |
| VectorIndex.VectorStore.Search | src/vector_store.py:93-106 | the result is `SearchResult` of the current documents (empty store ⇒ `[]`) |
| VectorIndex.QualifyingExact | src/vector_store.py:97-101 | the scan keeps a document iff its similarity reaches the threshold, each with its own score |
| VectorIndex.SearchResultQualifies | src/vector_store.py:97-106 | every hit is a stored document whose score is its similarity and is `>= threshold` |
| VectorIndex.SearchResultOrderAndLength | src/vector_store.py:104-106 | scores are non-increasing and, for `top_k >= 0`, the length is `min(top_k, #qualifying)` |
| VectorIndex.SearchResultIsTopK | src/vector_store.py:104-106 | the hits are a sub-multiset of the qualifying ones and outscore every qualifying hit left out |
| VectorIndex.SearchResultStable | src/vector_store.py:104 | among equal scores the result keeps store order (a prefix of the qualifying hits with that score) |
| VectorIndex.FirstIndexOf | src/vector_store.py:118-121 | the position of the first record with the id, or -1 exactly when there is none |
| VectorIndex.VectorStore.GetById | src/vector_store.py:118-121 | `None` iff no record has the id; otherwise the first such record |
| VectorIndex.VectorStore.Delete | src/vector_store.py:133-139 | returns true iff some record has the id; then exactly the first such record is removed, the rest keep their order, and the side map is rebuilt; otherwise nothing changes |
| VectorIndex.VectorStore.Clear | src/vector_store.py:143-144 | no documents and an empty side map |
| VectorIndex.VectorStore.Size | src/vector_store.py:153 | the number of stored records |
| Ranking.SortInPlace | src/vector_store.py:104 | the array ends up as `SortDesc` of its old contents |
| Ranking.InsertLast | src/vector_store.py:104 | one insertion step: the sorted prefix grows by the next element at its stable place, the rest of the array untouched |
| Ranking.SortDescFacts | src/vector_store.py:104 | the sort is descending, a permutation, length-preserving, and stable (each equal-key subsequence keeps its order) |
| Ranking.SortDescIdempotent | src/query_processor.py:113 | sorting an already sorted list changes nothing |
| Ranking.InsertMultiset | src/vector_store.py:104 | an insertion adds exactly that element |
| Ranking.InsertSorted | src/vector_store.py:104 | an insertion keeps the list sorted |
| Ranking.InsertWithKey | src/vector_store.py:104 | an insertion puts the element after every element with the same key |
| Ranking.PyPrefix | src/vector_store.py:106 | `s[:k]` with Python semantics, negative `k` included; always a prefix |
| Ranking.PrefixDominates | src/vector_store.py:106 | a prefix of a sorted list is sorted and outscores everything cut off |
| CacheKey.StrLtTotal | src/cache.py:45 | the key order of `sort_keys` is total on distinct strings |
| CacheKey.StrLtTransitive | src/cache.py:45 | the key order is transitive |
| CacheKey.SortByKeyFacts | src/cache.py:45 | sorting dict items gives strictly increasing keys and the same dict |
| CacheKey.SortedItemsUnique | src/cache.py:45 | two strictly key-sorted item lists of the same dict are equal |
| CacheKey.RenderedItems | src/cache.py:45 | rendering a dict's values keeps its keys and maps each value to its JSON text |
| CacheKey.KeySourceOrderIndependent | src/cache.py:44-47 | equal dicts built in different insertion orders give the same key text |
| Cache.CacheManager.GenerateKeyOrderIndependent | src/cache.py:34-49 | equal dicts in different insertion orders get the same cache key |
| Cache.ResponseKeySource | src/cache.py:177 | the response key text is `{"context": ..., "query": ...}`, keys sorted |
| Cache.DictPairSource | src/cache.py:45 | a two-entry dict renders with its keys in sorted order |
| Cache.LookupCases | src/cache.py:108-118 | `get` yields a value iff the file exists, is at most `ttl` old and unpickles, and the value is the stored one; it raises iff such a file's reading raises anything but `UnpicklingError`, and raises that; otherwise `None` |
| Cache.TtlBoundary | src/cache.py:77-78 | an entry exactly `ttl` old is served, one second older is not |
| Cache.NegativeTtlNeverServes | src/cache.py:77-78 | with a negative TTL even a file written this instant is expired |
| Cache.SetThenGet | src/cache.py:89-116 | a write followed by a read at the same instant returns the value (TTL not negative) |
| Cache.SetIsolated | src/cache.py:89-95 | a write to one path leaves reads of every other path unchanged |
| Cache.ClearCategoryEffect | src/cache.py:204-211 | after clearing a category nothing in it is served, and every other category reads as before |
| Cache.ClearExpiredEffect | src/cache.py:220-229 | the expiry sweep changes no read and leaves nothing expired in the three categories |
| Cache.ExpiredWithinTotal | src/cache.py:244-247 | a category's expired files are among its files, so `expired <= total` |
| Cache.SweepStep | src/cache.py:222-227 | sweeping one more category removes exactly its expired files and adds their count |
| Cache.CacheManager.constructor | src/cache.py:25-32 | the three fixed category directories exist, existing files kept |
| Cache.CacheManager.Set | src/cache.py:89-95 | succeeds iff the category directory exists, then stores `{value, timestamp}` stamped now; otherwise `FileNotFoundError` and nothing changes |
| Cache.CacheManager.Get | src/cache.py:108-118 | the live, readable value at `(category, key)`; `None` for a missing, expired or unpicklable file; any other read exception is raised; `None` for a category that does not exist |
| Cache.CacheManager.CacheEmbedding | src/cache.py:128-129 | the embedding is stored under the text's key in `embeddings` |
| Cache.CacheManager.GetCachedEmbedding | src/cache.py:141-142 | the read of the text's key in `embeddings`: value, `None` or the raised exception, as `Cache.LookupCases` says |
| Cache.CacheManager.CacheQueryResult | src/cache.py:152-153 | the result is stored under the query's key in `queries` |
| Cache.CacheManager.GetCachedQuery | src/cache.py:165-166 | the read of the query's key in `queries`: value, `None` or the raised exception |
| Cache.CacheManager.CacheResponse | src/cache.py:177-178 | the response is stored under the key of the `{query, context}` dict in `responses` |
| Cache.CacheManager.GetCachedResponse | src/cache.py:191-192 | the read of the `{query, context}` key in `responses`: value, `None` or the raised exception |
| Cache.CacheManager.ClearCategory | src/cache.py:204-211 | deletes every file of the category and returns that count; other files untouched |
| Cache.CacheManager.ClearExpired | src/cache.py:220-229 | deletes exactly the expired files of the three categories and returns their count |
| Cache.CacheManager.SweepExpired | src/cache.py:223-227 | one category's sweep deletes exactly its expired files and counts them |
| Cache.CacheManager.GetStats | src/cache.py:238-249 | one entry per fixed category with its file count and expired count, `expired <= total` |
| Cache.CacheManager.CountCategory | src/cache.py:241-247 | total and expired counts of one category, `expired <= total` |
| Splitting.ParagraphBreakEnd | src/chunking.py:72 | a match of `\n\s*\n` at `i` exists iff `s[i]` is a newline and another newline follows within the blank run; it begins and ends with a newline, holds only blanks, and no newline of the run lies after it (greedy) |
| Splitting.SentenceBreakEnd | src/chunking.py:105 | a match of `(?<=[.!?])\s+` at `i` exists iff `s[i]` is blank and follows `.`, `!` or `?`; it is the whole blank run (greedy) |
| Splitting.Matches | src/chunking.py:72 | the matches the scan finds lie inside the text, in order, without overlap, each a match at its start |
| Splitting.PiecesBetweenMatches | src/chunking.py:72 | the scan's pieces are the text between consecutive matches: pieces and matched separators interleaved rebuild the text, and no match starts inside a piece |
| Splitting.ParagraphSplit | src/chunking.py:72 | `re.split`: at least one piece; the pieces and the leftmost paragraph breaks between them rebuild the text, and no break starts inside a piece |
| Splitting.SentenceSplit | src/chunking.py:105 | `re.split`: at least one piece; the pieces and the leftmost sentence breaks between them rebuild the text, and no break starts inside a piece |
| Chunking.WindowEnd | src/chunking.py:41-51 | a window reaching the end is `start + size`; otherwise it ends just after the last `.`/newline after `start`, or at `start + size` when there is none |
| Chunking.NextStart | src/chunking.py:57 | the next start is `end - chunk_overlap` whenever that moves forward, `start + 1` otherwise |
| Chunking.WindowsShape | src/chunking.py:40-57 | the windows start inside the text at 0, are at most `chunk_size` wide, follow `NextStart`, and the walk ends past the text |
| Chunking.NextWithinWindow | src/chunking.py:44-57 | with `chunk_size >= 1` and `chunk_overlap >= 0` a window is not empty and the next one starts no later than it ends |
| Chunking.WindowsCover | src/chunking.py:40-57 | with `chunk_size >= 1` and `chunk_overlap >= 0` every character of the text lies in some window |
| Chunking.WindowChunks | src/chunking.py:53-55 | every chunk is a non-empty stripped window, and every non-blank window yields its chunk |
| Chunking.TokenChunksEmpty | src/chunking.py:34-35 | empty text gives no chunks |
| Chunking.ShortTextOneChunk | src/chunking.py:40-57 | text of length at most `chunk_size - chunk_overlap` that is not blank gives exactly `[text.strip()]` |
| Chunking.StepAdvances | src/chunking.py:46-57 | with `overlap < size` and no break in the first `overlap` characters, the original's next start moves forward |
| Chunking.StepStalls | src/chunking.py:46-57 | a last break after `start` but at most `overlap - 1` characters after it makes the original's next start fall back to or before `start` |
| Chunking.EndsAtLastBreak | src/chunking.py:44-51 | a window that stops short of the end ends just after its last `.` or newline past the start |
| Chunking.AsWrittenStaysBelow | src/chunking.py:40-57 | when the original's step falls back to a position `n >= 0` at or before `start` (overlap at most `chunk_size`), the step from `n` leads to `n` again: the loop never ends |
| Chunking.AsWrittenRecovers | src/chunking.py:40-57 | when the original's step lands exactly on -1 (`chunk_overlap < chunk_size`), the window at -1 is empty, ends at `chunk_size - 1`, and the loop resumes at `chunk_size - 1 - chunk_overlap` |
| Chunking.AsWrittenSinks | src/chunking.py:40-57 | when the original's step lands at -2 or lower (`chunk_overlap < chunk_size`), the loop moves to `-chunk_overlap` and repeats that empty window for ever |
| Chunking.AsWrittenRecoversExample | src/chunking.py:40-57 | on `"abc." + "b" * 16`, size 10, overlap 5, the original steps 0 → -1 → 4 where the model steps 0 → 1 |
| Chunking.AsWrittenLoopRepeats | src/chunking.py:50-57 | the original loop revisits the start -5 forever on `"a.bbbbbbbbbb"`, size 10, overlap 5 |
| Chunking.Kept | src/chunking.py:77-80 | the kept pieces are stripped and non-empty, and the stripped text of every piece that is not blank is kept |
| Chunking.JoinEach | src/chunking.py:84-90 | each chunk is its group joined by the separator |
| Chunking.GroupsPartition | src/chunking.py:77-90 | the groups, concatenated, are exactly the kept pieces in order, none empty, none at all only for no pieces |
| Chunking.GroupsFit | src/chunking.py:83-87 | every piece after the first of a group joined it while the group's joined text plus the piece was within `chunk_size` |
| Chunking.GroupsBreak | src/chunking.py:83-85 | each new group was opened because the previous group's joined text plus its first piece exceeds `chunk_size` |
| Chunking.PackedChunks | src/chunking.py:77-92 | every packed chunk is non-empty and stripped, and one over `size + len(sep)` is a single oversized piece |
| Chunking.PackedJoin | src/chunking.py:87 | joining packed chunks gives the kept pieces joined: no piece is lost or reordered |
| Chunking.JoinStripped | src/chunking.py:84-90 | joining stripped non-empty pieces gives a stripped non-empty chunk |
| Chunking.DocumentChunker.constructor | src/chunking.py:21-22 | stores the chunk size and overlap |
| Chunking.DocumentChunker.ChunkByTokens | src/chunking.py:24-59 | the loop returns `TokenChunks` (empty text ⇒ `[]`) |
| Chunking.DocumentChunker.PackPieces | src/chunking.py:74-92 | the accumulator loop returns `Packed` of the pieces |
| Chunking.DocumentChunker.ChunkByParagraphs | src/chunking.py:72-92 | paragraphs packed with `"\n\n"` |
| Chunking.DocumentChunker.ChunkBySentences | src/chunking.py:105-124 | sentences packed with `" "` |
| Chunking.DocumentChunker.ChunkDocument | src/chunking.py:143-158 | chunk `i` carries the `i`-th chunk of the chosen strategy (any other strategy is `tokens`), `chunk_id = i`, `chunk_count = n` and the metadata or `{}` |
| Chunking.NumberChunks | src/chunking.py:150-158 | one record per chunk, numbered in order, with the shared metadata |
| Queries.ProcessedResults | src/query_processor.py:57-66 | one formatted record per search hit |
| Queries.ProcessedResultsFacts | src/query_processor.py:50-66 | each record comes from a stored document and reaches the threshold, scores are non-increasing, and there are `min(top_k, #qualifying)` |
| Queries.ExpandQuery | src/query_processor.py:79-85 | the query comes first; `query + "?"` is added iff the query does not end in `?`; so 1 or 2 variants |
| Queries.RescoreAll | src/query_processor.py:105-110 | every result gets its rerank score, in place, order kept |
| Queries.RescoredBounds | src/query_processor.py:103-110 | the rerank score lies between the score and the score plus 0.01 per query term; content and id unchanged |
| Queries.RescoredIdempotent | src/query_processor.py:103-110 | rescoring a rescored result changes nothing |
| Queries.RerankedFacts | src/query_processor.py:103-115 | same length, a permutation of the rescored list, sorted by rerank score, stable on ties, every result rescored |
| Queries.RerankIdempotent | src/query_processor.py:103-115 | reranking a reranked list leaves it unchanged |
| Queries.FitCountSpec | src/query_processor.py:137-146 | the included parts are the longest prefix that fits: every prefix up to it fits, and the first part after it would overflow |
| Queries.FitFromSpec | src/query_processor.py:140-146 | the same, from any point of the loop |
| Queries.Contents | src/query_processor.py:141 | the content of each result, in order |
| Queries.ContextOfLength | src/query_processor.py:137-153 | `num_sources <= len(sources)`; no part ⇒ empty context; otherwise the context is at most the budget plus `2 * (num_sources - 1)` separators |
| Queries.ContextLength | src/query_processor.py:150 | the joined context is the parts' total plus two characters per separator |
| Queries.QueryProcessor.constructor | src/query_processor.py:26-27 | keeps the embedder and the store |
| Queries.QueryProcessor.ProcessQuery | src/query_processor.py:47-66 | the formatted search results for the query's embedding |
| Queries.QueryProcessor.RerankResults | src/query_processor.py:103-115 | the same array, now holding `Reranked` of its old contents |
| Queries.QueryProcessor.GetContextForGeneration | src/query_processor.py:134-153 | the context built from the results at the default threshold 0.7: longest fitting prefix joined by `"\n\n"`, all results as sources |
| Pipeline.AddKeyFacts | src/rag_pipeline.py:42-46 | a dict assignment keeps keys distinct, adds exactly that key, keeps earlier keys in place, and is idempotent |
| Pipeline.ChunkSumZero | src/rag_pipeline.py:83 | with no chunks anywhere the chunk total is 0 |
| Pipeline.RAGPipeline.constructor | src/rag_pipeline.py:23-24 | empty list and dict |
| Pipeline.RAGPipeline.AddDocument | src/rag_pipeline.py:35-46 | appends one document with `chunk_id = 0` and sets the entry `{content, metadata, chunks: []}`; the key order gains the id only if new |
| Pipeline.RAGPipeline.GetDocument | src/rag_pipeline.py:58 | the latest entry for the id, or `None` exactly when absent |
| Pipeline.RAGPipeline.ListDocuments | src/rag_pipeline.py:67 | the ids, each once, in first-insertion order |
| Pipeline.RAGPipeline.Clear | src/rag_pipeline.py:71-72 | both collections emptied |
| Pipeline.RAGPipeline.GetStats | src/rag_pipeline.py:81-85 | `total_documents` counts every addition, `total_chunks` is 0, `document_ids` is the key order |
| Uploads.GetFileCategory | src/file_handler.py:56-61 | always one of the three directories; `pdfs` iff exactly `application/pdf`; `images` iff it starts with `image/` |
| Uploads.Name | src/file_handler.py:84 | the final path component, with no `/` |
| Uploads.Suffix | src/file_handler.py:84 | empty, or a `.` followed by at least one character and no further `.` or `/` |
| Uploads.StoredNameStem | src/file_handler.py:84-85 | the stored name has no `/` and its stem is the file id |
| Uploads.FirstStem | src/file_handler.py:122-124 | the first entry of a listing whose stem is the id, or -1 exactly when there is none |
| Uploads.FindInFacts | src/file_handler.py:115-126 | with every directory present the search succeeds; a found path is the first stem match in the first matching category; `None` means no category has a match |
| Uploads.FindInSkips | src/file_handler.py:120-124 | categories without a match are passed over |
| Uploads.FindAfterAppend | src/file_handler.py:120-124 | a file added to a category with no earlier match is what the search finds |
| Uploads.SavedThenFound | src/file_handler.py:80-126 | after saving under a fresh id, `get_file_path(id)` returns its category and stored name |
| Uploads.FreshFacts | src/file_handler.py:191-196 | the sweep keeps exactly the entries that are not stale files, in order |
| Uploads.StaleBoundary | src/file_handler.py:193-194 | a file exactly `hours` old is kept, one second older is removed |
| Uploads.FileHandler.constructor | src/file_handler.py:23-29 | the three directories exist, existing listings kept |
| Uploads.FileHandler.SaveUpload | src/file_handler.py:80-102 | writes `file_id + suffix` into the category directory, replacing a file of that name; reports the name, path, category and `size_bytes = len(content)`; a directory of that name gives `IsADirectoryError` and no change |
| Uploads.FileHandler.GetFilePath | src/file_handler.py:115-126 | searches the given category, or `pdfs`, `images`, `temp`, and returns the first stem match or `None`; a missing directory raises |
| Uploads.FileHandler.DeleteFile | src/file_handler.py:138-142 | no match ⇒ false and no change; a matching file ⇒ exactly that entry removed and true; a matching directory ⇒ error, no change |
| Uploads.FileHandler.CleanupTempFiles | src/file_handler.py:187-198 | `temp` keeps exactly its fresh entries, other directories untouched, and the count of removed files is returned |
| App.Numbered | src/chunking.py:150-158 | the chunk records `main.py` receives, numbered in order |
| App.IngestStep | src/main.py:90-109 | one loop step: an embedding error or a dimension mismatch stops ingestion with that error, otherwise the row is added and the loop goes on |
| App.IngestRows | src/main.py:90-117 | one row per chunk until the first failure and all of them without one; row `i` has id `"{file_path}_{chunk_id}"` of chunk `i`, the chunk's text and metadata, and the store's dimension |
| App.IngestWithoutCache | src/main.py:99-100 | with the cache off the cache is untouched and every embedding is the model's |
| App.IngestKeepsHits | src/main.py:92-95 | a cache entry that is served (or whose read raises) stays as it was through ingestion |
| App.IngestMemoises | src/main.py:92-98 | with the cache on, every ingested chunk's text is served from the embedding cache with the embedding stored |
| App.SourceRefs | src/response_generator.py:127-134 | the first three sources, each with id, score and a snippet that is exactly the first 100 characters of the content (all of it when shorter) plus `...` |
| App.CachedQuery | src/main.py:137-141 | nothing when the cache is off; otherwise a hit iff the question's key is served from `queries`, and the read's exception iff it raises |
| App.RememberedServes | src/main.py:137-166 | after a fresh answer is cached, the question is served that answer, and every other question with another key reads as before |
| App.DocuMind.constructor | src/main.py:46-62 | builds the chunker, an empty store of the model's dimension and, iff the cache is on, the cache manager |
| App.DocuMind.ProcessPdf | src/main.py:76-120 | extraction errors become error details; otherwise the `paragraphs` chunks are ingested; rows added before a failure stay; success reports `len(chunks)` |
| App.DocuMind.IngestChunks | src/main.py:90-120 | the ingestion loop adds exactly the rows of `IngestFrom` and leaves the cache as it says |
| App.DocuMind.IngestOne | src/main.py:92-109 | one chunk is embedded through the cache and inserted, or the failure is recorded |
| App.DocuMind.EmbedChunk | src/main.py:92-100 | a live cached embedding is used; an exception from the cache read is passed on; otherwise the model is called and, on success, its result cached |
| App.DocuMind.Query | src/main.py:133-172 | a cache hit is returned unchanged with no generation; an exception from the cache read becomes error details, with no generation; otherwise the fresh answer, cached under the question; a generation error becomes error details |
| App.DocuMind.Answer | src/main.py:144-169 | retrieval, generation, the result record and its caching |
| App.DocuMind.GetStats | src/main.py:181-189 | store size, the cache flag, and the cache stats iff the cache is on |
| App.DocuMind.ClearCache | src/main.py:198-205 | `Cache not enabled` iff the cache is off; otherwise the expired files are removed and counted |
| Text.Strip | src/chunking.py:53 | `str.strip()`: the text without leading and trailing blanks; empty iff all blank |
| Text.StripStripped | src/chunking.py:90 | stripping an already stripped chunk changes nothing |
| Text.Split | src/query_processor.py:103 | `str.split()`: the non-empty runs of non-blank characters |
| Text.Lower | src/query_processor.py:103 | `str.lower()`, character by character |
| Text.PySlice | src/chunking.py:53 | `text[start:end]` with Python's clamping and negative indices |
| Text.RFind | src/chunking.py:46-47 | `str.rfind(c, start, end)`: the last occurrence within the clamped range, or -1 |
| Text.JoinLength | src/query_processor.py:150 | a join's length is the parts' total plus one separator between each pair |
| Text.NatToString | src/main.py:103 | the decimal digits of a chunk number, never empty |

## Left out

- Cosine similarity is not modelled. It is numpy float arithmetic, undefined for zero vectors. The store takes an arbitrary `similarity` function to `real`, and scores are mathematical reals, not floats.
- SHA-256 is not modelled: cache keys are an abstract `digest` function of the key text. Pickling is modelled only as "readable with its value", "rejected with `UnpicklingError`" or "raising another exception". Which exception a damaged file raises is an input of the model, not derived from its bytes.
- `json.dumps` escaping is not modelled beyond quotes and backslashes: `ensure_ascii` escapes of control and non-ASCII characters and float rendering are left out. Key texts are built only from strings, here and in the code's callers.
- The clock is the `now` argument, as integer seconds in the cache and real seconds in upload storage. `time.time()`, `datetime.now()` and real file mtimes are not modelled.
- `generate_file_id` (clock plus MD5) is a `fileId` parameter of `Uploads.FileHandler.SaveUpload`. It is required to be non-empty and free of `.` and `/`, as a hex digest is. `upload_time` is left out of the returned record.
- `list_files` is not part of this model. It is a read-only listing that nothing in the core calls.
- Directory listing order is the given order of each directory's entries, with no claim about how the operating system orders them. Paths are plain `(directory, name)` pairs. `pathlib` normalisation beyond `name` and `suffix` is not modelled, and `upload_dir` itself is assumed to exist.
- The regular-expression splits are written out as left-to-right scans. They are not derived from Python's regex engine.
- Python string operations use `str.isspace` for strip and split.
- Text.Lower: lowers ASCII letters only; full Unicode case mapping is left out.
- The embedding model, the language model and the PDF extractor are function-valued parameters returning a result or an exception. The query embedding (`embed_query`) is total. Vision and image processing, the HTTP layer and the logging configuration are not part of this model.
- Metadata values are kept as text: `Metadata` maps strings to strings, where the original's dicts hold arbitrary JSON-like values. Nothing in the core inspects them beyond copying.
- Error details keep the exception kind, message and context. The traceback and the log records are left out.
- A cache value of the wrong kind (an answer under an embedding key or the reverse) cannot arise through `DocuMind`, and `App.DocuMind` requires the starting cache to hold none. The accessors `App.EmbeddingOf` and `App.AnswerOf` return a default for it.
- Creating the cache and upload directories when a plain file of that name already exists (an error in the original) is not modelled. The directories are simply added.
- Chunking.DocumentChunker.ChunkByTokens: follows the original only while `end - chunk_overlap` moves forward; where it does not, the model steps one character on (see Findings). From a window that stops short of the end, the original then never ends when the step lands at `start`, at a non-negative position below it, or at -2 or lower (`Chunking.AsWrittenStaysBelow`, `Chunking.AsWrittenSinks`). When the step lands exactly on -1, though, the original passes through an empty window and resumes at `chunk_size - 1 - chunk_overlap` (`Chunking.AsWrittenRecovers`). On such a run the original may end, and the model's chunks then differ from the original's: on `"abc." + "b" * 16` with size 10 and overlap 5, the original resumes at 4 where the model steps to 1 (`Chunking.AsWrittenRecoversExample`).
- Queries.ContextOfLength: bounds the context by the budget plus the separators, because the original does not count the `"\n\n"` separators against `max_context_length`.

## Findings

| source | as written | input that shows it | evidently intended | confidence | as-written member | corrected member |
|---|---|---|---|---|---|---|
| src/chunking.py:50-57 | the next window starts at `end - chunk_overlap`; when a `.` or newline close after `start` pulls `end` back, that is at or before `start`; landing at `start`, at a non-negative position below it, or at -2 or lower, the loop then repeats a window for ever (only landing exactly on -1 recovers) | `chunk_by_tokens("a.bbbbbbbbbb")` with `chunk_size=10`, `chunk_overlap=5`: start 0 → -3 → -5 → -5 … | every step moves the window forward, so the loop ends after at most `len(text)` windows | high (not executed) | Chunking.AsWrittenLoopRepeats | Chunking.NextStart, Chunking.WindowsShape, Chunking.DocumentChunker.ChunkByTokens |
