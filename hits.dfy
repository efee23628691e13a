// The answer of a faiss.IndexFlatIP search, taken as an opaque input: one
// row of (score, idx) pairs per query, top_k long. FAISS fills the rows it
// cannot answer (fewer stored vectors than top_k) with idx -1.

module Hits {

  /** A flat inner-product index holding `ntotal` vectors, one per document
      in the order the documents were added. */
  datatype FlatIndex = FlatIndex(ntotal: nat)

  /** One `(score, idx)` pair of the search answer. The score is a float the
      model never computes with; it is only copied into results. */
  datatype Hit = Hit(score: real, idx: int)

  /** The hit names one of `n` stored documents. */
  predicate Names(h: Hit, n: nat)
  {
    0 <= h.idx < n
  }

  /** The positions, in the answer row, of the hits that name one of `n`
      documents, in increasing order. */
  function KeptPositions(hits: seq<Hit>, n: nat): (r: seq<nat>)
    ensures |r| <= |hits|
    ensures forall j :: 0 <= j < |r| ==> r[j] < |hits| && Names(hits[r[j]], n)
    ensures forall j, j' :: 0 <= j < j' < |r| ==> r[j] < r[j']
    decreases |hits|
  {
    if hits == [] then []
    else
      var k := |hits| - 1;
      var front := KeptPositions(hits[..k], n);
      assert forall j :: 0 <= j < |front| ==> hits[front[j]] == hits[..k][front[j]];
      front + (if Names(hits[k], n) then [k] else [])
  }

  /** No hit that names a document is skipped. */
  lemma {:induction false} KeptPositionsAreAll(hits: seq<Hit>, n: nat)
    ensures forall i :: 0 <= i < |hits| && Names(hits[i], n) ==> i in KeptPositions(hits, n)
    decreases |hits|
  {
    if hits != [] {
      var k := |hits| - 1;
      KeptPositionsAreAll(hits[..k], n);
      var front := KeptPositions(hits[..k], n);
      assert KeptPositions(hits, n) == front + (if Names(hits[k], n) then [k] else []);
      forall i | 0 <= i < k && Names(hits[i], n)
        ensures i in KeptPositions(hits, n)
      {
        assert hits[..k][i] == hits[i];
      }
    }
  }

  /** With no documents stored, no hit names one. */
  lemma {:induction false} NothingKeptOfNone(hits: seq<Hit>)
    ensures KeptPositions(hits, 0) == []
    decreases |hits|
  {
    if hits != [] {
      NothingKeptOfNone(hits[..|hits| - 1]);
    }
  }

  /** Python's `xs[i]`, where a negative index counts from the end: the
      index as written in both search loops reaches this with idx -1. */
  function PyIndex<T>(xs: seq<T>, i: int): T
    requires -|xs| <= i < |xs|
  {
    if i < 0 then xs[|xs| + i] else xs[i]
  }
}
