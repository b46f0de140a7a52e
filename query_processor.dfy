/**
  The query processor: turns a question into formatted search results,
  offers simple query variants, reranks results by shared words, and
  assembles a generation context under a character budget.  The embedding
  model is a function the processor is constructed with.
*/
module Queries {
  import opened Wrappers
  import opened Text
  import opened Ranking
  import opened VectorIndex

  /** `top_k` and `threshold` when the caller gives none. */
  const DefaultTopK: int := 5
  const DefaultThreshold: real := 0.7
  /** `max_context_length` when the caller gives none. */
  const DefaultMaxContextLength: int := 2000

  /** One formatted result: `content`, `score`, `metadata`, `doc_id`, and the
      `rerank_score` that reranking adds. */
  datatype QueryResult = QueryResult(content: string, score: real, metadata: Metadata, docId: string, rerankScore: Option<real>)

  /** What `get_context_for_generation` returns. */
  datatype GenerationContext = GenerationContext(query: string, context: string, sources: seq<QueryResult>, numSources: nat)

  function Formatted(h: Hit): QueryResult {
    QueryResult(h.doc.content, h.score, h.doc.metadata, h.doc.id, None)
  }

  /** The list `process_query` builds from the search hits. */
  function ProcessedResults(docs: seq<VectorDocument>, sim: Similarity, query: Embedding, topK: int, threshold: real): (r: seq<QueryResult>)
    ensures |r| == |SearchResult(docs, sim, query, topK, threshold)|
  {
    var hits := SearchResult(docs, sim, query, topK, threshold);
    seq(|hits|, i requires 0 <= i < |hits| => Formatted(hits[i]))
  }

  /** `r` carries the content, metadata and id of a stored document, and that
      document's similarity to the query as its score. */
  ghost predicate FromStore(docs: seq<VectorDocument>, sim: Similarity, query: Embedding, r: QueryResult) {
    exists d :: d in docs && d.id == r.docId && d.content == r.content && d.metadata == r.metadata && sim(query, d.embedding) == r.score
  }

  /** Every formatted result is a stored document reaching the threshold,
      results come by non-increasing score, and there are `min(top_k, #qualifying)` of them. */
  lemma ProcessedResultsFacts(docs: seq<VectorDocument>, sim: Similarity, query: Embedding, topK: int, threshold: real)
    ensures var r := ProcessedResults(docs, sim, query, topK, threshold);
      && (forall i :: 0 <= i < |r| ==>
            && r[i].score >= threshold
            && r[i].rerankScore == None
            && FromStore(docs, sim, query, r[i]))
      && (forall i, j :: 0 <= i < j < |r| ==> r[i].score >= r[j].score)
      && var n := |Qualifying(docs, sim, query, threshold)|;
         0 <= topK ==> |r| == if topK < n then topK else n
  {
    var hits := SearchResult(docs, sim, query, topK, threshold);
    var r := ProcessedResults(docs, sim, query, topK, threshold);
    SearchResultQualifies(docs, sim, query, topK, threshold);
    SearchResultOrderAndLength(docs, sim, query, topK, threshold);
    forall i | 0 <= i < |r| ensures FromStore(docs, sim, query, r[i]) {
      assert hits[i] in hits;
      assert hits[i].doc in docs;
    }
    forall i, j | 0 <= i < j < |r| ensures r[i].score >= r[j].score {
      assert Score(hits[i]) >= Score(hits[j]);
    }
  }

  /** `query.endswith('?')` decides whether a question-mark variant is added. */
  function ExpandQuery(query: string): (r: seq<string>)
    ensures 1 <= |r| <= 2 && r[0] == query
    ensures |r| == 2 <==> !EndsWith(query, "?")
    ensures EndsWith(r[|r| - 1], "?")
    ensures forall v :: v in r ==> StartsWith(v, query)
  {
    if EndsWith(query, "?") then [query]
    else
      var q := query + "?";
      assert q[..|query|] == query;
      assert q[|q| - 1..] == "?";
      [query, q]
  }

  /** The lower-cased, whitespace-separated words of `s`, as a set. */
  function Terms(s: string): set<string> {
    set t | t in Split(Lower(s))
  }

  /** The number of distinct words the query and the content share. */
  function Overlap(query: string, content: string): nat {
    |Terms(query) * Terms(content)|
  }

  /** The result with `rerank_score = score + 0.01 * overlap` set. */
  function Rescored(query: string, r: QueryResult): QueryResult {
    r.(rerankScore := Some(Bonused(query, r)))
  }

  /** `score + 0.01 * overlap`. */
  function Bonused(query: string, r: QueryResult): real {
    r.score + Overlap(query, r.content) as real * 0.01
  }

  function RescoreAll(query: string, rs: seq<QueryResult>): (r: seq<QueryResult>)
    ensures |r| == |rs|
    ensures forall i :: 0 <= i < |rs| ==> r[i] == Rescored(query, rs[i])
  {
    seq(|rs|, i requires 0 <= i < |rs| => Rescored(query, rs[i]))
  }

  /** The sort key `x.get('rerank_score', x['score'])`. */
  function RankKey(r: QueryResult): real {
    if r.rerankScore.Some? then r.rerankScore.value else r.score
  }

  /** What `rerank_results` leaves in the list: the rescored results, stably
      sorted by descending rerank score. */
  function Reranked(query: string, rs: seq<QueryResult>): seq<QueryResult> {
    SortDesc(RescoreAll(query, rs), RankKey)
  }

  lemma SubsetCard<T>(a: set<T>, b: set<T>)
    requires a <= b
    ensures |a| <= |b|
  {
    assert b == a + (b - a);
  }

  /** The bonus is a non-negative multiple of 0.01, at most 0.01 per distinct query word. */
  lemma RescoredBounds(query: string, r: QueryResult)
    ensures r.score <= RankKey(Rescored(query, r)) <= r.score + |Terms(query)| as real * 0.01
    ensures Rescored(query, r).content == r.content && Rescored(query, r).docId == r.docId
  {
    SubsetCard(Terms(query) * Terms(r.content), Terms(query));
  }

  /** Rescoring what is already rescored changes nothing: the bonus is
      recomputed from `score`, not from the earlier `rerank_score`. */
  lemma RescoredIdempotent(query: string, r: QueryResult)
    ensures Rescored(query, Rescored(query, r)) == Rescored(query, r)
  {
    var s := Rescored(query, r);
    assert s.score == r.score && s.content == r.content;
    assert Bonused(query, s) == Bonused(query, r);
  }

  /** Reranking returns the same results, each given its rerank score,
      ordered by non-increasing rerank score, equal scores in input order. */
  lemma RerankedFacts(query: string, rs: seq<QueryResult>)
    ensures var r := Reranked(query, rs);
      && |r| == |rs|
      && multiset(r) == multiset(RescoreAll(query, rs))
      && SortedDesc(r, RankKey)
      && (forall x :: x in r ==> x.rerankScore.Some?)
      && forall v :: WithKey(r, RankKey, v) == WithKey(RescoreAll(query, rs), RankKey, v)
  {
    var s := RescoreAll(query, rs);
    SortDescFacts(s, RankKey);
    forall x | x in Reranked(query, rs) ensures x.rerankScore.Some? {
      assert x in multiset(s);
    }
  }

  /** Reranking a reranked list leaves it as it is. */
  lemma RerankIdempotent(query: string, rs: seq<QueryResult>)
    ensures Reranked(query, Reranked(query, rs)) == Reranked(query, rs)
  {
    var s := RescoreAll(query, rs);
    var r := Reranked(query, rs);
    SortDescFacts(s, RankKey);
    assert RescoreAll(query, r) == r by {
      forall i | 0 <= i < |r| ensures Rescored(query, r[i]) == r[i] {
        assert r[i] in multiset(s);
        var j :| 0 <= j < |s| && s[j] == r[i];
        RescoredIdempotent(query, rs[j]);
      }
    }
    SortDescIdempotent(r, RankKey);
  }

  /** How many leading contents `get_context_for_generation` takes, scanning
      from position `i` with `total` characters taken so far. */
  function FitFrom(contents: seq<string>, i: nat, total: int, budget: int): (n: nat)
    requires i <= |contents|
    ensures i <= n <= |contents|
    decreases |contents| - i
  {
    if i == |contents| then i
    else if total + |contents[i]| <= budget then FitFrom(contents, i + 1, total + |contents[i]|, budget)
    else i
  }

  function FitCount(contents: seq<string>, budget: int): nat {
    FitFrom(contents, 0, 0, budget)
  }

  lemma TotalLengthStep(c: seq<string>, i: nat)
    requires i < |c|
    ensures TotalLength(c[..i + 1]) == TotalLength(c[..i]) + |c[i]|
  {
    assert c[..i + 1][..i] == c[..i];
  }

  lemma {:induction false} FitFromSpec(c: seq<string>, i: nat, budget: int)
    requires i <= |c|
    requires forall k :: 0 < k <= i ==> TotalLength(c[..k]) <= budget
    ensures var n := FitFrom(c, i, TotalLength(c[..i]), budget);
      && (forall k :: 0 < k <= n ==> TotalLength(c[..k]) <= budget)
      && (n < |c| ==> TotalLength(c[..n]) + |c[n]| > budget)
    decreases |c| - i
  {
    if i < |c| {
      TotalLengthStep(c, i);
      if TotalLength(c[..i]) + |c[i]| <= budget {
        FitFromSpec(c, i + 1, budget);
      }
    }
  }

  /** The taken contents are the longest prefix that fits: every prefix of it
      totals at most `max_context_length`, and the scan stops at the first
      content that would overflow, whatever comes after it. */
  lemma FitCountSpec(contents: seq<string>, budget: int)
    ensures var n := FitCount(contents, budget);
      && n <= |contents|
      && (forall k :: 0 < k <= n ==> TotalLength(contents[..k]) <= budget)
      && (n < |contents| ==> TotalLength(contents[..n]) + |contents[n]| > budget)
  {
    FitFromSpec(contents, 0, budget);
  }

  function Contents(rs: seq<QueryResult>): (r: seq<string>)
    ensures |r| == |rs| && forall i :: 0 <= i < |rs| ==> r[i] == rs[i].content
  {
    seq(|rs|, i requires 0 <= i < |rs| => rs[i].content)
  }

  /** The generation context for retrieved `sources`: the contents that fit
      the budget, joined by blank lines, with every source kept. */
  function ContextOf(query: string, sources: seq<QueryResult>, maxContextLength: int): GenerationContext {
    var parts := Contents(sources)[..FitCount(Contents(sources), maxContextLength)];
    GenerationContext(query, Join(parts, "\n\n"), sources, |parts|)
  }

  /** The budget counts contents only: the context holds at most every
      source's content, and its length exceeds the budget by no more than
      the blank-line separators. */
  lemma ContextOfLength(query: string, sources: seq<QueryResult>, maxContextLength: int)
    ensures var g := ContextOf(query, sources, maxContextLength);
      && g.numSources <= |sources|
      && (g.numSources == 0 ==> g.context == [])
      && (g.numSources > 0 ==> |g.context| <= maxContextLength + 2 * (g.numSources - 1))
  {
    var contents := Contents(sources);
    var n := FitCount(contents, maxContextLength);
    FitCountSpec(contents, maxContextLength);
    if n > 0 {
      ContextLength(contents[..n]);
    }
  }

  /** The context of `n` sources is `n` contents and `n - 1` separators of two characters. */
  lemma ContextLength(parts: seq<string>)
    requires parts != []
    ensures |Join(parts, "\n\n")| == TotalLength(parts) + 2 * (|parts| - 1)
  {
    JoinLength(parts, "\n\n");
  }

  class QueryProcessor {
    const embedQuery: string -> Embedding
    const store: VectorStore

    constructor (embedQuery: string -> Embedding, store: VectorStore)
      ensures this.embedQuery == embedQuery && this.store == store
    {
      this.embedQuery := embedQuery;
      this.store := store;
    }

    /** Embeds the query, searches the store and formats each hit, in search order. */
    method ProcessQuery(query: string, topK: int, threshold: real) returns (results: seq<QueryResult>)
      ensures results == ProcessedResults(store.documents, store.similarity, embedQuery(query), topK, threshold)
    {
      var queryEmbedding := embedQuery(query);
      var hits := store.Search(queryEmbedding, topK, threshold);
      results := [];
      for i := 0 to |hits|
        invariant |results| == i
        invariant forall k :: 0 <= k < i ==> results[k] == Formatted(hits[k])
      {
        results := results + [Formatted(hits[i])];
      }
    }

    /** Sets every result's rerank score, then sorts the list in place; the
        list itself is returned. */
    method RerankResults(query: string, results: array<QueryResult>) returns (r: array<QueryResult>)
      modifies results
      ensures r == results
      ensures results[..] == Reranked(query, old(results[..]))
    {
      ghost var input := results[..];
      for i := 0 to results.Length
        invariant forall k :: 0 <= k < i ==> results[k] == Rescored(query, input[k])
        invariant forall k :: i <= k < results.Length ==> results[k] == input[k]
      {
        results[i] := Rescored(query, results[i]);
      }
      assert results[..] == RescoreAll(query, input) by {
        forall k | 0 <= k < results.Length ensures results[..][k] == RescoreAll(query, input)[k] {
        }
      }
      SortInPlace(results, RankKey);
      r := results;
    }

    /** Retrieves with the default threshold and takes contents while the
        running total stays within `max_context_length`. */
    method GetContextForGeneration(query: string, topK: int, maxContextLength: int) returns (g: GenerationContext)
      ensures g == ContextOf(query, ProcessedResults(store.documents, store.similarity, embedQuery(query), topK, DefaultThreshold), maxContextLength)
    {
      var results := ProcessQuery(query, topK, DefaultThreshold);
      ghost var contents := Contents(results);
      var contextParts: seq<string> := [];
      var totalLength := 0;
      var i := 0;
      while i < |results|
        invariant 0 <= i <= |results|
        invariant contextParts == contents[..i]
        invariant totalLength == TotalLength(contextParts)
        invariant FitFrom(contents, i, totalLength, maxContextLength) == FitCount(contents, maxContextLength)
      {
        var content := results[i].content;
        if totalLength + |content| <= maxContextLength {
          TotalLengthStep(contents, i);
          assert contents[..i + 1] == contextParts + [content];
          contextParts := contextParts + [content];
          totalLength := totalLength + |content|;
          i := i + 1;
        } else {
          break;
        }
      }
      g := GenerationContext(query, Join(contextParts, "\n\n"), results, |contextParts|);
    }
  }
}
