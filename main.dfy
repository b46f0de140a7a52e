/**
  The application object: PDF ingestion (extract, chunk by paragraphs,
  embed with an embedding cache, insert into the vector store) and question
  answering (query cache, retrieval, generation).  The PDF extractor, the
  embedding model and the language model are functions the application is
  constructed with; an `Err` from one of them is the exception it raises.
*/
module App {
  import opened Wrappers
  import opened Text
  import VectorIndex
  import Chunking
  import Queries
  import Cache
  import CacheKey

  type Files = map<Cache.Path, Cache.CacheFile<Cached>>

  /** One source reference of an answer: id, score and the first hundred
      characters of the content followed by `...`. */
  datatype SourceRef = SourceRef(docId: string, score: real, snippet: string)

  /** The result dictionary of a successful query (its `status` is `success`). */
  datatype QueryAnswer = QueryAnswer(query: string, answer: string, sources: seq<SourceRef>, numSources: nat)

  /** What the cache holds: embeddings in `embeddings`, query results in `queries`. */
  datatype Cached = CachedEmbedding(embedding: VectorIndex.Embedding) | CachedAnswer(result: QueryAnswer)

  /** The error-details dictionary an exception is turned into (without its traceback). */
  datatype ErrorDetails = ErrorDetails(errorType: string, errorMessage: string, context: string)

  /** The result dictionary of a successful `process_pdf`. */
  datatype PdfOutcome = PdfOutcome(chunksProcessed: nat, filePath: string)

  datatype AppStats = AppStats(documentsInStore: nat, cacheEnabled: bool, cacheStats: Option<map<string, Cache.CategoryStats>>)

  /** How ingestion sees the cache: disabled, or its key digest and TTL. */
  datatype CacheView = Off | On(digest: string -> string, ttl: int)

  function Details(e: Exception, context: string): ErrorDetails {
    ErrorDetails(e.kind, e.message, context)
  }

  /** The key under which the embedding and query caches store a text. */
  function TextKeyOf(digest: string -> string, text: string): string {
    digest(CacheKey.KeySource(CacheKey.Str(text)))
  }

  /** Every readable file in `embeddings` holds an embedding and every
      readable file in `queries` a query result. */
  ghost predicate WellTyped(files: Files) {
    forall p :: p in files && files[p].content.Pickled? ==>
      && (p.0 == "embeddings" ==> files[p].content.value.CachedEmbedding?)
      && (p.0 == "queries" ==> files[p].content.value.CachedAnswer?)
  }

  /** A cached value read as an embedding; `WellTyped` files only give embeddings here. */
  function EmbeddingOf(v: Cached): VectorIndex.Embedding {
    if v.CachedEmbedding? then v.embedding else []
  }

  /** A cached value read as a query result; `WellTyped` files only give results here. */
  function AnswerOf(v: Cached): QueryAnswer {
    if v.CachedAnswer? then v.result else QueryAnswer([], [], [], 0)
  }

  /** The store id of chunk `chunkId` of the document at `filePath`. */
  function ChunkDocId(filePath: string, chunkId: nat): string {
    filePath + "_" + NatToString(chunkId)
  }

  /** The records `chunk_document` yields for the chunk texts. */
  function Numbered(chunks: seq<string>, metadata: Metadata): (r: seq<Chunking.ChunkRecord>)
    ensures |r| == |chunks|
    ensures forall i :: 0 <= i < |r| ==> r[i] == Chunking.ChunkRecord(chunks[i], i, |chunks|, metadata)
  {
    seq(|chunks|, i requires 0 <= i < |chunks| => Chunking.ChunkRecord(chunks[i], i, |chunks|, metadata))
  }

  /** The embedding of one chunk text and the cache files afterwards: a fresh
      cached embedding is used as is, and an exception raised by the cache
      read is passed on; otherwise the model is called and a successful
      result is cached. */
  function Embedded(embedText: string -> Result<VectorIndex.Embedding, Exception>, view: CacheView,
                    files: Files, now: int, text: string): (s: (Result<VectorIndex.Embedding, Exception>, Files))
  {
    match view
    case Off => (embedText(text), files)
    case On(digest, ttl) =>
      var key := ("embeddings", TextKeyOf(digest, text));
      var hit := Cache.Lookup(files, key, now, ttl);
      if hit.Err? then (Err(hit.error), files)
      else if hit.value.Some? then (Ok(EmbeddingOf(hit.value.value)), files)
      else
        var e := embedText(text);
        if e.Ok? then (e, files[key := Cache.CacheFile(Cache.Pickled(CachedEmbedding(e.value), now), now)])
        else (e, files)
  }

  /** What the ingestion loop does: the store records added, the cache files
      afterwards, and the exception that stopped it, if any.  Records added
      before a failure stay. */
  datatype Ingest = Ingest(rows: seq<VectorIndex.VectorDocument>, files: Files, failure: Option<Exception>)

  function IngestFrom(embedText: string -> Result<VectorIndex.Embedding, Exception>, view: CacheView, files: Files,
                      now: int, dimension: int, filePath: string, chunks: seq<Chunking.ChunkRecord>): (g: Ingest)
    decreases |chunks|
  {
    if |chunks| == 0 then Ingest([], files, None)
    else
      var c := chunks[0];
      var (e, files1) := Embedded(embedText, view, files, now, c.text);
      if e.Err? then Ingest([], files1, Some(e.error))
      else if |e.value| != dimension then
        Ingest([], files1, Some(Exception("ValueError", VectorIndex.DimensionMessage(dimension, |e.value|))))
      else
        var rest := IngestFrom(embedText, view, files1, now, dimension, filePath, chunks[1..]);
        Ingest([Row(filePath, c, e.value)] + rest.rows, rest.files, rest.failure)
  }

  /** The store record of a chunk. */
  function Row(filePath: string, c: Chunking.ChunkRecord, embedding: VectorIndex.Embedding): VectorIndex.VectorDocument {
    VectorIndex.VectorDocument(ChunkDocId(filePath, c.chunkId), c.text, embedding, c.metadata)
  }

  /** `g` after `done` was already added. */
  function After(done: seq<VectorIndex.VectorDocument>, g: Ingest): Ingest {
    Ingest(done + g.rows, g.files, g.failure)
  }

  /** One turn of the ingestion loop, as the loop sees it. */
  lemma IngestStep(embedText: string -> Result<VectorIndex.Embedding, Exception>, view: CacheView, files: Files,
                   now: int, dimension: int, filePath: string, chunks: seq<Chunking.ChunkRecord>, i: nat,
                   done: seq<VectorIndex.VectorDocument>)
    requires i < |chunks|
    ensures var s := Embedded(embedText, view, files, now, chunks[i].text);
      var total := After(done, IngestFrom(embedText, view, files, now, dimension, filePath, chunks[i..]));
      && (s.0.Err? ==> total == Ingest(done, s.1, Some(s.0.error)))
      && (s.0.Ok? && |s.0.value| != dimension ==>
            total == Ingest(done, s.1, Some(Exception("ValueError", VectorIndex.DimensionMessage(dimension, |s.0.value|)))))
      && (s.0.Ok? && |s.0.value| == dimension ==>
            total == After(done + [Row(filePath, chunks[i], s.0.value)],
                           IngestFrom(embedText, view, s.1, now, dimension, filePath, chunks[i + 1..])))
  {
    assert chunks[i..][0] == chunks[i];
    assert chunks[i..][1..] == chunks[i + 1..];
    var s := Embedded(embedText, view, files, now, chunks[i].text);
    if s.0.Ok? && |s.0.value| == dimension {
      var rest := IngestFrom(embedText, view, s.1, now, dimension, filePath, chunks[i + 1..]);
      assert done + ([Row(filePath, chunks[i], s.0.value)] + rest.rows) == (done + [Row(filePath, chunks[i], s.0.value)]) + rest.rows;
    }
  }

  /** `d` is the store record of chunk `c`, with an embedding of the store's dimension. */
  predicate RowOf(d: VectorIndex.VectorDocument, filePath: string, c: Chunking.ChunkRecord, dimension: int) {
    && d.id == ChunkDocId(filePath, c.chunkId)
    && d.content == c.text
    && d.metadata == c.metadata
    && |d.embedding| == dimension
  }

  /** Ingestion adds one record per chunk until the first failure and all of
      them without one; record `i` has the id built from the path and the
      chunk number, the chunk's text and metadata, and an embedding of the
      store's dimension. */
  lemma {:induction false} IngestRows(embedText: string -> Result<VectorIndex.Embedding, Exception>, view: CacheView, files: Files,
                                      now: int, dimension: int, filePath: string, chunks: seq<Chunking.ChunkRecord>)
    ensures var g := IngestFrom(embedText, view, files, now, dimension, filePath, chunks);
      && |g.rows| <= |chunks|
      && (g.failure.None? <==> |g.rows| == |chunks|)
      && forall i :: 0 <= i < |g.rows| ==> RowOf(g.rows[i], filePath, chunks[i], dimension)
    decreases |chunks|
  {
    if |chunks| > 0 {
      var (e, files1) := Embedded(embedText, view, files, now, chunks[0].text);
      if e.Ok? && |e.value| == dimension {
        var rest := IngestFrom(embedText, view, files1, now, dimension, filePath, chunks[1..]);
        IngestRows(embedText, view, files1, now, dimension, filePath, chunks[1..]);
        var g := IngestFrom(embedText, view, files, now, dimension, filePath, chunks);
        assert g.rows == [Row(filePath, chunks[0], e.value)] + rest.rows;
        forall i | 1 <= i < |g.rows|
          ensures RowOf(g.rows[i], filePath, chunks[i], dimension)
        {
          assert g.rows[i] == rest.rows[i - 1] && chunks[i] == chunks[1..][i - 1];
        }
      }
    }
  }

  /** Without a cache every record's embedding is the model's embedding of
      its text, and no file is written. */
  lemma {:induction false} IngestWithoutCache(embedText: string -> Result<VectorIndex.Embedding, Exception>, files: Files,
                                              now: int, dimension: int, filePath: string, chunks: seq<Chunking.ChunkRecord>)
    ensures var g := IngestFrom(embedText, Off, files, now, dimension, filePath, chunks);
      && g.files == files
      && forall i :: 0 <= i < |g.rows| && i < |chunks| ==> embedText(chunks[i].text) == Ok(g.rows[i].embedding)
    decreases |chunks|
  {
    if |chunks| > 0 {
      var e := embedText(chunks[0].text);
      if e.Ok? && |e.value| == dimension {
        IngestWithoutCache(embedText, files, now, dimension, filePath, chunks[1..]);
      }
    }
  }

  /** Ingestion only writes entries the cache read as missing, so whatever
      the cache served (or raised on) before, it serves (or raises on) the
      same afterwards. */
  lemma {:induction false} IngestKeepsHits(embedText: string -> Result<VectorIndex.Embedding, Exception>, view: CacheView, files: Files,
                                           now: int, dimension: int, filePath: string, chunks: seq<Chunking.ChunkRecord>, p: Cache.Path)
    requires view.On?
    requires Cache.Lookup(files, p, now, view.ttl) != Ok(None)
    ensures Cache.Lookup(IngestFrom(embedText, view, files, now, dimension, filePath, chunks).files, p, now, view.ttl)
      == Cache.Lookup(files, p, now, view.ttl)
    decreases |chunks|
  {
    if |chunks| > 0 {
      var key := ("embeddings", TextKeyOf(view.digest, chunks[0].text));
      var (e, files1) := Embedded(embedText, view, files, now, chunks[0].text);
      if key != p {
        Cache.SetIsolated(files, key, p, Cache.CacheFile(Cache.Pickled(CachedEmbedding(if e.Ok? then e.value else []), now), now), now, view.ttl);
      }
      assert Cache.Lookup(files1, p, now, view.ttl) == Cache.Lookup(files, p, now, view.ttl);
      if e.Ok? && |e.value| == dimension {
        IngestKeepsHits(embedText, view, files1, now, dimension, filePath, chunks[1..], p);
      }
    }
  }

  /** The embedding cache serves `text` (read as an embedding) as `e`. */
  predicate Serves(view: CacheView, files: Files, now: int, text: string, e: VectorIndex.Embedding)
    requires view.On?
  {
    var hit := Cache.Lookup(files, ("embeddings", TextKeyOf(view.digest, text)), now, view.ttl);
    hit.Ok? && hit.value.Some? && EmbeddingOf(hit.value.value) == e
  }

  /** With the cache on (and a TTL that is not negative), after ingestion the
      cache serves, for every record added, exactly the embedding that record
      was stored with: a hit is reused, a miss is embedded once and cached. */
  lemma {:induction false} IngestMemoises(embedText: string -> Result<VectorIndex.Embedding, Exception>, view: CacheView, files: Files,
                                          now: int, dimension: int, filePath: string, chunks: seq<Chunking.ChunkRecord>)
    requires view.On? && view.ttl >= 0
    ensures var g := IngestFrom(embedText, view, files, now, dimension, filePath, chunks);
      forall i :: 0 <= i < |g.rows| && i < |chunks| ==> Serves(view, g.files, now, chunks[i].text, g.rows[i].embedding)
    decreases |chunks|
  {
    if |chunks| > 0 {
      var key := ("embeddings", TextKeyOf(view.digest, chunks[0].text));
      var (e, files1) := Embedded(embedText, view, files, now, chunks[0].text);
      if e.Ok? && |e.value| == dimension {
        var g := IngestFrom(embedText, view, files, now, dimension, filePath, chunks);
        if Cache.Lookup(files, key, now, view.ttl) == Ok(None) {
          Cache.SetThenGet(files, key, CachedEmbedding(e.value), now, view.ttl);
        }
        assert Serves(view, files1, now, chunks[0].text, e.value);
        IngestKeepsHits(embedText, view, files1, now, dimension, filePath, chunks[1..], key);
        IngestMemoises(embedText, view, files1, now, dimension, filePath, chunks[1..]);
        var rest := IngestFrom(embedText, view, files1, now, dimension, filePath, chunks[1..]);
        assert g.rows == [Row(filePath, chunks[0], e.value)] + rest.rows && g.files == rest.files;
        assert Serves(view, rest.files, now, chunks[0].text, e.value);
        forall i | 0 <= i < |g.rows| && i < |chunks|
          ensures Serves(view, g.files, now, chunks[i].text, g.rows[i].embedding)
        {
          if i > 0 {
            assert g.rows[i] == rest.rows[i - 1] && chunks[i] == chunks[1..][i - 1];
          }
        }
      }
    }
  }

  /** The snippet of a source: at most its first hundred characters, then `...`. */
  function Snippet(content: string): string {
    content[..if |content| < 100 then |content| else 100] + "..."
  }

  /** The source references of an answer: the first three sources, each with
      its id, its score and a snippet: the first hundred characters of its
      content (all of it when shorter), then `...`. */
  function SourceRefs(sources: seq<Queries.QueryResult>): (r: seq<SourceRef>)
    ensures |r| == if |sources| < 3 then |sources| else 3
    ensures forall i :: 0 <= i < |r| ==>
      && r[i].docId == sources[i].docId && r[i].score == sources[i].score
      && |r[i].snippet| <= 103 && EndsWith(r[i].snippet, "...")
      && r[i].snippet[..|r[i].snippet| - 3] <= sources[i].content
      && r[i].snippet == sources[i].content[..if |sources[i].content| < 100 then |sources[i].content| else 100] + "..."
  {
    var n := if |sources| < 3 then |sources| else 3;
    seq(n, i requires 0 <= i < n => SourceRef(sources[i].docId, sources[i].score, Snippet(sources[i].content)))
  }

  /** The answer to a question that missed the query cache. */
  function FreshAnswer(question: string, answer: string, g: Queries.GenerationContext): QueryAnswer {
    QueryAnswer(question, answer, SourceRefs(g.sources), g.numSources)
  }

  /** What the query cache serves for a question, if it is on, or the
      exception its read raises. */
  function CachedQuery(view: CacheView, files: Files, question: string, now: int): (r: Result<Option<QueryAnswer>, Exception>)
    ensures view.Off? ==> r == Ok(None)
    ensures view.On? ==>
      var hit := Cache.Lookup(files, ("queries", TextKeyOf(view.digest, question)), now, view.ttl);
      && (r.Err? <==> hit.Err?)
      && (r.Err? ==> r.error == hit.error)
      && (r.Ok? ==> (r.value.Some? <==> hit.value.Some?))
  {
    match view
    case Off => Ok(None)
    case On(digest, ttl) =>
      var hit := Cache.Lookup(files, ("queries", TextKeyOf(digest, question)), now, ttl);
      if hit.Err? then Err(hit.error)
      else if hit.value.Some? then Ok(Some(AnswerOf(hit.value.value))) else Ok(None)
  }

  /** The cache files after a fresh query result is cached under its question. */
  function Remembered(view: CacheView, files: Files, question: string, answer: QueryAnswer, now: int): Files {
    match view
    case Off => files
    case On(digest, _) =>
      files[("queries", TextKeyOf(digest, question)) := Cache.CacheFile(Cache.Pickled(CachedAnswer(answer), now), now)]
  }

  /** Memoisation: once a fresh result is cached (with a TTL that is not
      negative), the query cache serves that result for the question at that
      instant, and keeps serving every other question as before. */
  lemma RememberedServes(view: CacheView, files: Files, question: string, answer: QueryAnswer, now: int, other: string)
    requires view.On? && view.ttl >= 0
    ensures CachedQuery(view, Remembered(view, files, question, answer, now), question, now) == Ok(Some(answer))
    ensures TextKeyOf(view.digest, other) != TextKeyOf(view.digest, question) ==>
      CachedQuery(view, Remembered(view, files, question, answer, now), other, now) == CachedQuery(view, files, other, now)
  {
    var key := ("queries", TextKeyOf(view.digest, question));
    var f := Cache.CacheFile(Cache.Pickled(CachedAnswer(answer), now), now);
    Cache.SetThenGet(files, key, CachedAnswer(answer), now, view.ttl);
    if TextKeyOf(view.digest, other) != TextKeyOf(view.digest, question) {
      Cache.SetIsolated(files, key, ("queries", TextKeyOf(view.digest, other)), f, now, view.ttl);
    }
  }

  class DocuMind {
    const useCache: bool
    const cache: Cache.CacheManager?<Cached>
    const store: VectorIndex.VectorStore
    const chunker: Chunking.DocumentChunker
    const processor: Queries.QueryProcessor
    /** The PDF processor: the text and metadata of the file at a path. */
    const extract: string -> Result<(string, Metadata), Exception>
    /** The embedding model. */
    const embedText: string -> Result<VectorIndex.Embedding, Exception>
    /** The language model: an answer for a question and its context. */
    const generateAnswer: (string, string) -> Result<string, Exception>

    ghost predicate Valid()
      reads this, store, cache
    {
      && (useCache <==> cache != null)
      && store.Valid()
      && processor.store == store
      && (cache != null ==> cache.Valid() && WellTyped(cache.files))
    }

    ghost function View(): CacheView
      reads this
    {
      if cache == null then Off else On(cache.digest, cache.ttl)
    }

    ghost function CacheFiles(): Files
      reads this, cache
    {
      if cache == null then map[] else cache.files
    }

    constructor (useCache: bool, cacheTtl: int, chunkSize: int, chunkOverlap: int, dimension: int,
                 similarity: VectorIndex.Similarity, embedQuery: string -> VectorIndex.Embedding,
                 extract: string -> Result<(string, Metadata), Exception>,
                 embedText: string -> Result<VectorIndex.Embedding, Exception>,
                 generateAnswer: (string, string) -> Result<string, Exception>,
                 digest: string -> string, cacheDirs: set<string>, cacheFiles: Files)
      requires forall p :: p in cacheFiles ==> p.0 in cacheDirs
      requires WellTyped(cacheFiles)
      ensures Valid() && this.useCache == useCache
      ensures chunker.chunkSize == chunkSize && chunker.chunkOverlap == chunkOverlap
      ensures store.dimension == dimension && store.documents == []
      ensures useCache ==> CacheFiles() == cacheFiles && View() == On(digest, cacheTtl)
      ensures fresh(store)
    {
      this.useCache := useCache;
      this.extract := extract;
      this.embedText := embedText;
      this.generateAnswer := generateAnswer;
      chunker := new Chunking.DocumentChunker(chunkSize, chunkOverlap);
      var s := new VectorIndex.VectorStore(dimension, similarity);
      store := s;
      processor := new Queries.QueryProcessor(embedQuery, s);
      if useCache {
        cache := new Cache.CacheManager(cacheTtl, digest, cacheDirs, cacheFiles);
      } else {
        cache := null;
      }
    }

    /** Extracts the PDF, chunks it by paragraphs and adds every chunk to the
        store, embedding through the cache; an exception becomes error
        details, and chunks added before it stay. */
    method ProcessPdf(filePath: string, now: int) returns (r: Result<PdfOutcome, ErrorDetails>)
      requires Valid()
      modifies store, cache
      ensures Valid()
      ensures var x := extract(filePath);
        && (x.Err? ==> r == Err(Details(x.error, "process_pdf"))
                       && store.documents == old(store.documents) && CacheFiles() == old(CacheFiles()))
        && (x.Ok? ==>
              var chunks := Numbered(Chunking.StrategyChunks(x.value.0, "paragraphs", chunker.chunkSize, chunker.chunkOverlap), x.value.1);
              var g := IngestFrom(embedText, View(), old(CacheFiles()), now, store.dimension, filePath, chunks);
              && store.documents == old(store.documents) + g.rows
              && CacheFiles() == g.files
              && (g.failure.None? ==> r == Ok(PdfOutcome(|chunks|, filePath)))
              && (g.failure.Some? ==> r == Err(Details(g.failure.value, "process_pdf"))))
    {
      var extracted := extract(filePath);
      if extracted.Err? {
        return Err(Details(extracted.error, "process_pdf"));
      }
      var (text, metadata) := extracted.value;
      var chunks := chunker.ChunkDocument(text, "paragraphs", Some(metadata));
      assert chunks == Numbered(Chunking.StrategyChunks(text, "paragraphs", chunker.chunkSize, chunker.chunkOverlap), metadata);
      r := IngestChunks(filePath, chunks, now);
    }

    /** The ingestion loop over the chunk records. */
    method IngestChunks(filePath: string, chunks: seq<Chunking.ChunkRecord>, now: int) returns (r: Result<PdfOutcome, ErrorDetails>)
      requires Valid()
      modifies store, cache
      ensures Valid()
      ensures var g := IngestFrom(embedText, View(), old(CacheFiles()), now, store.dimension, filePath, chunks);
        && store.documents == old(store.documents) + g.rows
        && CacheFiles() == g.files
        && (g.failure.None? ==> r == Ok(PdfOutcome(|chunks|, filePath)))
        && (g.failure.Some? ==> r == Err(Details(g.failure.value, "process_pdf")))
    {
      ghost var total := IngestFrom(embedText, View(), CacheFiles(), now, store.dimension, filePath, chunks);
      ghost var done: seq<VectorIndex.VectorDocument> := [];
      assert chunks[0..] == chunks;
      for i := 0 to |chunks|
        invariant Valid()
        invariant store.documents == old(store.documents) + done
        invariant total == After(done, IngestFrom(embedText, View(), CacheFiles(), now, store.dimension, filePath, chunks[i..]))
      {
        IngestStep(embedText, View(), CacheFiles(), now, store.dimension, filePath, chunks, i, done);
        var embedding, failure := IngestOne(filePath, chunks[i], now);
        if failure.Some? {
          return Err(Details(failure.value, "process_pdf"));
        }
        done := done + [Row(filePath, chunks[i], embedding.value)];
      }
      assert chunks[|chunks|..] == [];
      r := Ok(PdfOutcome(|chunks|, filePath));
    }

    /** The body of the ingestion loop: embeds one chunk and adds it to the
        store, or reports the exception that stops ingestion. */
    method IngestOne(filePath: string, chunk: Chunking.ChunkRecord, now: int)
      returns (embedding: Result<VectorIndex.Embedding, Exception>, failure: Option<Exception>)
      requires Valid()
      modifies store, cache
      ensures Valid()
      ensures (embedding, CacheFiles()) == Embedded(embedText, View(), old(CacheFiles()), now, chunk.text)
      ensures embedding.Err? ==> failure == Some(embedding.error) && store.documents == old(store.documents)
      ensures embedding.Ok? && |embedding.value| != store.dimension ==>
        && failure == Some(Exception("ValueError", VectorIndex.DimensionMessage(store.dimension, |embedding.value|)))
        && store.documents == old(store.documents)
      ensures embedding.Ok? && |embedding.value| == store.dimension ==>
        failure == None && store.documents == old(store.documents) + [Row(filePath, chunk, embedding.value)]
    {
      embedding := EmbedChunk(chunk.text, now);
      if embedding.Err? {
        return embedding, Some(embedding.error);
      }
      var docId := ChunkDocId(filePath, chunk.chunkId);
      var added := store.AddDocument(docId, chunk.text, embedding.value, Some(chunk.metadata));
      if added.Fail? {
        return embedding, Some(added.error);
      }
      failure := None;
    }

    /** One chunk's embedding: from the cache when it is on and serves the
        text, otherwise from the model, caching a successful result; an
        exception raised by the cache read is passed on. */
    method EmbedChunk(text: string, now: int) returns (e: Result<VectorIndex.Embedding, Exception>)
      requires Valid()
      modifies cache
      ensures Valid()
      ensures (e, CacheFiles()) == Embedded(embedText, View(), old(CacheFiles()), now, text)
    {
      if useCache {
        var cached := cache.GetCachedEmbedding(text, now);
        if cached.Err? {
          return Err(cached.error);
        }
        if cached.value.Some? {
          return Ok(cached.value.value.embedding);
        }
        e := embedText(text);
        if e.Ok? {
          cache.CacheEmbedding(text, CachedEmbedding(e.value), now);
        }
      } else {
        e := embedText(text);
      }
    }

    /** The generation context retrieval yields for a question. */
    ghost function ContextFor(question: string, topK: int): Queries.GenerationContext
      reads this, store
    {
      Queries.ContextOf(question, Queries.ProcessedResults(store.documents, store.similarity,
        processor.embedQuery(question), topK, Queries.DefaultThreshold), Queries.DefaultMaxContextLength)
    }

    /** Answers a question: a result the query cache serves is returned
        unchanged, and an exception raised by the cache read becomes error
        details; otherwise context is retrieved, the model answers, and the
        result is cached under the question. */
    method Query(question: string, topK: int, now: int) returns (r: Result<QueryAnswer, ErrorDetails>)
      requires Valid()
      modifies cache
      ensures Valid()
      ensures var hit := CachedQuery(View(), old(CacheFiles()), question, now);
        && (hit.Err? ==> r == Err(Details(hit.error, "query")) && CacheFiles() == old(CacheFiles()))
        && (hit.Ok? && hit.value.Some? ==> r == Ok(hit.value.value) && CacheFiles() == old(CacheFiles()))
        && (hit == Ok(None) ==>
              var a := generateAnswer(question, ContextFor(question, topK).context);
              && (a.Err? ==> r == Err(Details(a.error, "query")) && CacheFiles() == old(CacheFiles()))
              && (a.Ok? ==> r == Ok(FreshAnswer(question, a.value, ContextFor(question, topK)))
                            && CacheFiles() == Remembered(View(), old(CacheFiles()), question, r.value, now)))
    {
      if useCache {
        var cached := cache.GetCachedQuery(question, now);
        if cached.Err? {
          return Err(Details(cached.error, "query"));
        }
        if cached.value.Some? {
          return Ok(cached.value.value.result);
        }
      }
      r := Answer(question, topK, now);
    }

    /** Retrieval, generation and caching, for a question the cache did not serve. */
    method Answer(question: string, topK: int, now: int) returns (r: Result<QueryAnswer, ErrorDetails>)
      requires Valid()
      modifies cache
      ensures Valid()
      ensures var a := generateAnswer(question, ContextFor(question, topK).context);
        && (a.Err? ==> r == Err(Details(a.error, "query")) && CacheFiles() == old(CacheFiles()))
        && (a.Ok? ==> r == Ok(FreshAnswer(question, a.value, ContextFor(question, topK)))
                      && CacheFiles() == Remembered(View(), old(CacheFiles()), question, r.value, now))
    {
      var contextData := processor.GetContextForGeneration(question, topK, Queries.DefaultMaxContextLength);
      var answerData := generateAnswer(question, contextData.context);
      if answerData.Err? {
        return Err(Details(answerData.error, "query"));
      }
      var result := QueryAnswer(question, answerData.value, SourceRefs(contextData.sources), contextData.numSources);
      if useCache {
        cache.CacheQueryResult(question, CachedAnswer(result), now);
      }
      return Ok(result);
    }

    /** The store size, and the cache statistics only when the cache is on. */
    method GetStats(now: int) returns (s: AppStats)
      requires Valid()
      ensures s.documentsInStore == |store.documents| && s.cacheEnabled == useCache
      ensures s.cacheStats.Some? <==> useCache
      ensures s.cacheStats.Some? ==> s.cacheStats.value.Keys == {"embeddings", "queries", "responses"}
      ensures s.cacheStats.Some? ==>
        forall c :: c in s.cacheStats.value ==>
             && s.cacheStats.value[c].total == |Cache.CategoryPaths(cache.files, c)|
             && s.cacheStats.value[c].expired == |Cache.ExpiredIn(cache.files, [c], now, cache.ttl)|
    {
      var size := store.Size();
      if useCache {
        var stats := cache.GetStats(now);
        s := AppStats(size, true, Some(stats));
      } else {
        s := AppStats(size, false, None);
      }
    }

    /** Sweeps the expired cache entries and counts them; with the cache off
        this is an error. */
    method ClearCache(now: int) returns (r: Result<nat, string>)
      requires Valid()
      modifies cache
      ensures Valid()
      ensures r.Err? <==> !useCache
      ensures r.Err? ==> r.error == "Cache not enabled"
      ensures r.Ok? ==>
        && cache.files == Cache.Without(old(cache.files), Cache.ExpiredIn(old(cache.files), Cache.FixedCategories, now, cache.ttl))
        && r.value == |Cache.ExpiredIn(old(cache.files), Cache.FixedCategories, now, cache.ttl)|
    {
      if !useCache {
        return Err("Cache not enabled");
      }
      var expired := cache.ClearExpired(now);
      r := Ok(expired);
    }
  }
}
