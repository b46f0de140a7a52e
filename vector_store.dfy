/**
  The in-memory vector store: a list of `(id, content, embedding, metadata)`
  records kept in insertion order, a position-to-id side map, and a linear
  similarity search.  The similarity measure (cosine similarity over floats
  in the original) is a function the store is constructed with.
*/
module VectorIndex {
  import opened Wrappers
  import opened Ranking
  import Text

  type Embedding = seq<real>
  type Similarity = (Embedding, Embedding) -> real

  datatype VectorDocument = VectorDocument(id: string, content: string, embedding: Embedding, metadata: Metadata)

  /** One `(document, similarity)` pair of a search result. */
  datatype Hit = Hit(doc: VectorDocument, score: real)

  function Score(h: Hit): real { h.score }

  /** `index_to_id[j] == documents[j].id` for every position, and no other key. */
  ghost predicate IndexMatches(docs: seq<VectorDocument>, index: map<int, string>) {
    && (forall j :: j in index <==> 0 <= j < |docs|)
    && (forall j :: 0 <= j < |docs| ==> index[j] == docs[j].id)
  }

  /** The `similarities` list the search loop builds: every document scoring at
      least `threshold`, with its score, in store order. */
  function Qualifying(docs: seq<VectorDocument>, sim: Similarity, query: Embedding, threshold: real): seq<Hit>
  {
    if |docs| == 0 then []
    else
      var prev := Qualifying(docs[..|docs| - 1], sim, query, threshold);
      var d := docs[|docs| - 1];
      if sim(query, d.embedding) >= threshold then prev + [Hit(d, sim(query, d.embedding))] else prev
  }

  /** What `search` returns: the qualifying hits, stably sorted by descending
      score, cut to `top_k` with Python slice semantics. */
  function SearchResult(docs: seq<VectorDocument>, sim: Similarity, query: Embedding, topK: int, threshold: real): seq<Hit>
  {
    if |docs| == 0 then []
    else PyPrefix(SortDesc(Qualifying(docs, sim, query, threshold), Score), topK)
  }

  /** Exactly the documents reaching the threshold qualify, each with its own score. */
  lemma {:induction false} QualifyingExact(docs: seq<VectorDocument>, sim: Similarity, query: Embedding, threshold: real)
    ensures forall h :: h in Qualifying(docs, sim, query, threshold) ==>
      h.doc in docs && h.score == sim(query, h.doc.embedding) && h.score >= threshold
    ensures forall d :: d in docs && sim(query, d.embedding) >= threshold ==>
      Hit(d, sim(query, d.embedding)) in Qualifying(docs, sim, query, threshold)
  {
    if |docs| > 0 {
      var docs' := docs[..|docs| - 1];
      QualifyingExact(docs', sim, query, threshold);
      assert docs == docs' + [docs[|docs| - 1]];
    }
  }

  lemma {:induction false} WithKeyPrefix<T>(a: seq<T>, b: seq<T>, key: T -> real, v: real)
    requires a <= b
    ensures WithKey(a, key, v) <= WithKey(b, key, v)
    decreases |b|
  {
    if |a| < |b| {
      var b' := b[..|b| - 1];
      assert a <= b';
      WithKeyPrefix(a, b', key, v);
    } else {
      assert a == b;
    }
  }

  /** Every result is a stored document that reaches the threshold, carrying its own score. */
  lemma SearchResultQualifies(docs: seq<VectorDocument>, sim: Similarity, query: Embedding, topK: int, threshold: real)
    ensures forall h :: h in SearchResult(docs, sim, query, topK, threshold) ==>
      h.doc in docs && h.score == sim(query, h.doc.embedding) && h.score >= threshold
  {
    var q := Qualifying(docs, sim, query, threshold);
    QualifyingExact(docs, sim, query, threshold);
    SortDescFacts(q, Score);
    forall h | h in SearchResult(docs, sim, query, topK, threshold) ensures h in q {
      assert h in multiset(SortDesc(q, Score));
    }
  }

  /** Results come by non-increasing score, and a non-negative `top_k` returns
      `min(top_k, #qualifying)` of them. */
  lemma SearchResultOrderAndLength(docs: seq<VectorDocument>, sim: Similarity, query: Embedding, topK: int, threshold: real)
    ensures SortedDesc(SearchResult(docs, sim, query, topK, threshold), Score)
    ensures var n := |Qualifying(docs, sim, query, threshold)|;
      0 <= topK ==> |SearchResult(docs, sim, query, topK, threshold)| == if topK < n then topK else n
  {
    SortDescFacts(Qualifying(docs, sim, query, threshold), Score);
  }

  /** The results are the top of the ranking: no qualifying document left out
      scores above any returned one. */
  lemma SearchResultIsTopK(docs: seq<VectorDocument>, sim: Similarity, query: Embedding, topK: int, threshold: real)
    ensures var r := SearchResult(docs, sim, query, topK, threshold);
      var q := Qualifying(docs, sim, query, threshold);
      && multiset(r) <= multiset(q)
      && forall h, i :: h in multiset(q) - multiset(r) && 0 <= i < |r| ==> r[i].score >= h.score
  {
    var q := Qualifying(docs, sim, query, threshold);
    var s := SortDesc(q, Score);
    var r := SearchResult(docs, sim, query, topK, threshold);
    SortDescFacts(q, Score);
    if |docs| > 0 {
      var rest := s[|r|..];
      assert s == r + rest;
      assert multiset(s) == multiset(r) + multiset(rest);
      forall h, i | h in multiset(q) - multiset(r) && 0 <= i < |r| ensures r[i].score >= h.score {
        assert h in multiset(rest);
        var j :| 0 <= j < |rest| && rest[j] == h;
        assert s[|r| + j] == h;
      }
    }
  }

  /** Ties keep insertion order: for each score, the results carrying it are
      a prefix of the qualifying documents carrying it, in store order. */
  lemma SearchResultStable(docs: seq<VectorDocument>, sim: Similarity, query: Embedding, topK: int, threshold: real, v: real)
    ensures WithKey(SearchResult(docs, sim, query, topK, threshold), Score, v)
      <= WithKey(Qualifying(docs, sim, query, threshold), Score, v)
  {
    var q := Qualifying(docs, sim, query, threshold);
    SortDescFacts(q, Score);
    if |docs| > 0 {
      WithKeyPrefix(SearchResult(docs, sim, query, topK, threshold), SortDesc(q, Score), Score, v);
    }
  }

  /** Position of the first record with `id`, or -1. */
  function FirstIndexOf(docs: seq<VectorDocument>, id: string): (k: int)
    ensures -1 <= k < |docs|
    ensures k == -1 <==> forall j :: 0 <= j < |docs| ==> docs[j].id != id
    ensures k >= 0 ==> docs[k].id == id && forall j :: 0 <= j < k ==> docs[j].id != id
  {
    if |docs| == 0 then -1
    else if docs[0].id == id then 0
    else
      var k := FirstIndexOf(docs[1..], id);
      if k == -1 then -1 else k + 1
  }

  class VectorStore {
    const dimension: int
    const similarity: Similarity
    var documents: seq<VectorDocument>
    var indexToId: map<int, string>

    ghost predicate Valid()
      reads this
    {
      IndexMatches(documents, indexToId)
    }

    constructor (dimension: int, similarity: Similarity)
      ensures Valid()
      ensures this.dimension == dimension && this.similarity == similarity
      ensures documents == []
    {
      this.dimension := dimension;
      this.similarity := similarity;
      documents := [];
      indexToId := map[];
    }

    /** Appends one record; a wrong embedding length raises `ValueError` and
        leaves the store as it was.  Duplicate ids are accepted. */
    method AddDocument(docId: string, content: string, embedding: Embedding, metadata: Option<Metadata>)
      returns (r: Outcome<Exception>)
      requires Valid()
      modifies this
      ensures Valid()
      ensures r.Pass? <==> |embedding| == dimension
      ensures r.Fail? ==> r.error == Exception("ValueError", DimensionMessage(dimension, |embedding|)) && documents == old(documents)
      ensures r.Pass? ==> documents == old(documents) + [VectorDocument(docId, content, embedding, MetadataOrEmpty(metadata))]
    {
      if |embedding| != dimension {
        return Fail(Exception("ValueError", DimensionMessage(dimension, |embedding|)));
      }
      var doc := VectorDocument(docId, content, embedding, MetadataOrEmpty(metadata));
      documents := documents + [doc];
      indexToId := indexToId[|documents| - 1 := docId];
      r := Pass;
    }

    /** Linear scan, threshold filter, stable descending sort, `[:top_k]`. */
    method Search(query: Embedding, topK: int, threshold: real) returns (results: seq<Hit>)
      ensures results == SearchResult(documents, similarity, query, topK, threshold)
      ensures documents == [] ==> results == []
    {
      if |documents| == 0 {
        return [];
      }
      var similarities: seq<Hit> := [];
      for i := 0 to |documents|
        invariant similarities == Qualifying(documents[..i], similarity, query, threshold)
      {
        assert documents[..i + 1][..i] == documents[..i];
        var doc := documents[i];
        var s := similarity(query, doc.embedding);
        if s >= threshold {
          similarities := similarities + [Hit(doc, s)];
        }
      }
      assert documents[..|documents|] == documents;
      var sorted := new Hit[|similarities|](i requires 0 <= i < |similarities| => similarities[i]);
      assert sorted[..] == similarities;
      SortInPlace(sorted, Score);
      results := PyPrefix(sorted[..], topK);
    }

    /** The first record with `id`, or `None`. */
    method GetById(docId: string) returns (r: Option<VectorDocument>)
      ensures r.None? <==> forall j :: 0 <= j < |documents| ==> documents[j].id != docId
      ensures r.Some? ==> r.value == documents[FirstIndexOf(documents, docId)]
    {
      for i := 0 to |documents|
        invariant forall j :: 0 <= j < i ==> documents[j].id != docId
      {
        if documents[i].id == docId {
          return Some(documents[i]);
        }
      }
      return None;
    }

    /** Removes the first record with `id` and rebuilds the side map. */
    method Delete(docId: string) returns (deleted: bool)
      requires Valid()
      modifies this
      ensures Valid()
      ensures deleted <==> exists j :: 0 <= j < |old(documents)| && old(documents)[j].id == docId
      ensures !deleted ==> documents == old(documents)
      ensures deleted ==> var k := FirstIndexOf(old(documents), docId);
        documents == old(documents)[..k] + old(documents)[k + 1..]
    {
      for i := 0 to |documents|
        invariant forall j :: 0 <= j < i ==> documents[j].id != docId
      {
        if documents[i].id == docId {
          documents := documents[..i] + documents[i + 1..];
          indexToId := map j | 0 <= j < |documents| :: documents[j].id;
          return true;
        }
      }
      return false;
    }

    method Clear()
      modifies this
      ensures Valid() && documents == []
    {
      documents := [];
      indexToId := map[];
    }

    method Size() returns (n: nat)
      ensures n == |documents|
    {
      n := |documents|;
    }
  }

  function DimensionMessage(expected: int, got: int): string
  {
    "Embedding dimension mismatch: expected " + Text.IntToString(expected) + ", got " + Text.IntToString(got)
  }
}
