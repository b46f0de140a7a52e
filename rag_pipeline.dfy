/**
  The document registry of the pipeline: a list of every document added, in
  order, and a dictionary from document id to its processed entry.  A Python
  dictionary remembers the order in which its keys were first inserted, so
  the dictionary is modelled as that key order plus a map.
*/
module Pipeline {
  import opened Wrappers

  datatype Document = Document(content: string, metadata: Metadata, docId: string, chunkId: int)

  /** The `{content, metadata, chunks}` entry of `processed_docs`. */
  datatype ProcessedDoc = ProcessedDoc(content: string, metadata: Metadata, chunks: seq<Document>)

  datatype PipelineStats = PipelineStats(totalDocuments: nat, totalChunks: nat, documentIds: seq<string>)

  predicate Distinct(ids: seq<string>) {
    forall i, j :: 0 <= i < j < |ids| ==> ids[i] != ids[j]
  }

  /** The key order after `d[id] = ...`: a new key goes last, an existing one keeps its place. */
  function AddKey(ids: seq<string>, id: string): seq<string> {
    if id in ids then ids else ids + [id]
  }

  /** Adding a key keeps the keys distinct, adds exactly that key, keeps the
      earlier keys in their places, and adding it again changes nothing. */
  lemma AddKeyFacts(ids: seq<string>, id: string)
    requires Distinct(ids)
    ensures Distinct(AddKey(ids, id))
    ensures forall k :: k in AddKey(ids, id) <==> k in ids || k == id
    ensures ids <= AddKey(ids, id)
    ensures AddKey(AddKey(ids, id), id) == AddKey(ids, id)
  {
  }

  /** The number of chunks over the entries of `ids`. */
  function ChunkSum(ids: seq<string>, entries: map<string, ProcessedDoc>): nat
    requires forall k :: k in ids ==> k in entries
  {
    if |ids| == 0 then 0
    else ChunkSum(ids[..|ids| - 1], entries) + |entries[ids[|ids| - 1]].chunks|
  }

  /** With no chunks recorded anywhere the total is zero. */
  lemma {:induction false} ChunkSumZero(ids: seq<string>, entries: map<string, ProcessedDoc>)
    requires forall k :: k in ids ==> k in entries && entries[k].chunks == []
    ensures ChunkSum(ids, entries) == 0
  {
    if |ids| > 0 {
      ChunkSumZero(ids[..|ids| - 1], entries);
      assert ids[|ids| - 1] in ids;
    }
  }

  class RAGPipeline {
    var documents: seq<Document>
    /** The keys of `processed_docs` in insertion order, and its contents. */
    var ids: seq<string>
    var processed: map<string, ProcessedDoc>

    /** The key order lists each key of the dictionary once, and no entry ever has chunks. */
    ghost predicate Valid()
      reads this
    {
      && Distinct(ids)
      && (forall k :: k in ids <==> k in processed)
      && (forall k :: k in processed ==> processed[k].chunks == [])
    }

    constructor ()
      ensures Valid() && documents == [] && ids == [] && processed == map[]
    {
      documents := [];
      ids := [];
      processed := map[];
    }

    method AddDocument(content: string, metadata: Metadata, docId: string)
      requires Valid()
      modifies this
      ensures Valid()
      ensures documents == old(documents) + [Document(content, metadata, docId, 0)]
      ensures processed == old(processed)[docId := ProcessedDoc(content, metadata, [])]
      ensures ids == AddKey(old(ids), docId)
    {
      documents := documents + [Document(content, metadata, docId, 0)];
      if docId !in processed {
        ids := ids + [docId];
      }
      processed := processed[docId := ProcessedDoc(content, metadata, [])];
      AddKeyFacts(old(ids), docId);
    }

    /** The entry most recently stored under `docId`, or `None`. */
    method GetDocument(docId: string) returns (r: Option<ProcessedDoc>)
      ensures r.Some? <==> docId in processed
      ensures r.Some? ==> r.value == processed[docId]
    {
      if docId in processed {
        r := Some(processed[docId]);
      } else {
        r := None;
      }
    }

    /** The document ids, each once, in the order they were first added. */
    method ListDocuments() returns (r: seq<string>)
      requires Valid()
      ensures r == ids
      ensures Distinct(r) && forall k :: k in r <==> k in processed
    {
      r := ids;
    }

    method Clear()
      modifies this
      ensures Valid() && documents == [] && ids == [] && processed == map[]
    {
      documents := [];
      ids := [];
      processed := map[];
    }

    /** `total_documents` counts every addition, duplicates included;
        `total_chunks` sums the chunk lists, which are always empty. */
    method GetStats() returns (s: PipelineStats)
      requires Valid()
      ensures s.totalDocuments == |documents|
      ensures s.totalChunks == ChunkSum(ids, processed) == 0
      ensures s.documentIds == ids
    {
      var total := 0;
      for i := 0 to |ids|
        invariant total == ChunkSum(ids[..i], processed)
      {
        assert ids[..i + 1][..i] == ids[..i];
        total := total + |processed[ids[i]].chunks|;
      }
      assert ids[..|ids|] == ids;
      ChunkSumZero(ids, processed);
      var listed := ListDocuments();
      s := PipelineStats(|documents|, total, listed);
    }
  }
}
