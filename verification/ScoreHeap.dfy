/** Score-ordered lists: the bounded heaps and final sorts of the search loops. */
module ScoreHeap {
  import opened TopK

  /** A heap as a vector whose front is the smallest score; kept fully sorted, which every use allows. */
  ghost predicate AscendingScores(heap: seq<Hit>) {
    forall i, j :: 0 <= i < j < |heap| ==> heap[i].score <= heap[j].score
  }

  function InsertByScore(heap: seq<Hit>, x: Hit): (s: seq<Hit>)
    requires AscendingScores(heap)
    ensures AscendingScores(s) && |s| == |heap| + 1
    ensures forall h :: h in s <==> h in heap || h == x
    ensures DistinctDocs(heap) && !Listed(heap, x.doc) ==> DistinctDocs(s)
  {
    if heap == [] || heap[|heap| - 1].score <= x.score then heap + [x]
    else
      var last := heap[|heap| - 1];
      var s := InsertByScore(heap[..|heap| - 1], x);
      LastStays(heap, x, s);
      s + [last]
  }

  /** The last hit of a list may follow what the others and x were merged into. */
  lemma {:induction false} LastStays(heap: seq<Hit>, x: Hit, s: seq<Hit>)
    requires heap != [] && forall h :: h in s <==> h in heap[..|heap| - 1] || h == x
    ensures var last := heap[|heap| - 1];
      && (forall h :: h in s + [last] <==> h in heap || h == x)
      && (AscendingScores(heap) && AscendingScores(s) && x.score <= last.score ==> AscendingScores(s + [last]))
      && (Descending(heap) && Descending(s) && x.score >= last.score ==> Descending(s + [last]))
      && (DistinctDocs(heap) && DistinctDocs(s) && !Listed(heap, x.doc) ==> DistinctDocs(s + [last]))
  {
    hide AscendingScores, Descending, DistinctDocs, Listed;
    var less, last := heap[..|heap| - 1], heap[|heap| - 1];
    assert heap == less + [last];
    forall i | 0 <= i < |s| ensures s[i] == x || exists j :: 0 <= j < |heap| - 1 && heap[j] == s[i] {
      assert s[i] in s;
      if s[i] != x {
        var j :| 0 <= j < |less| && less[j] == s[i];
        assert heap[j] == s[i];
      }
    }
    LastInOrder(heap, x, s);
  }

  lemma {:induction false} LastInOrder(heap: seq<Hit>, x: Hit, s: seq<Hit>)
    requires heap != []
    requires forall i :: 0 <= i < |s| ==> s[i] == x || exists j :: 0 <= j < |heap| - 1 && heap[j] == s[i]
    ensures var last := heap[|heap| - 1];
      && (AscendingScores(heap) && AscendingScores(s) && x.score <= last.score ==> AscendingScores(s + [last]))
      && (Descending(heap) && Descending(s) && x.score >= last.score ==> Descending(s + [last]))
      && (DistinctDocs(heap) && DistinctDocs(s) && !Listed(heap, x.doc) ==> DistinctDocs(s + [last]))
  {}

  // ----- Best first -----

  method SortHits(heap: seq<Hit>) returns (hits: seq<Hit>)
    requires DistinctDocs(heap)
    ensures |hits| == |heap| && Descending(hits) && DistinctDocs(hits)
    ensures forall h :: h in hits <==> h in heap
  {
    hits := [];
    for i := 0 to |heap|
      invariant |hits| == i && Descending(hits) && DistinctDocs(hits)
      invariant forall h :: h in hits <==> h in heap[..i]
    {
      assert forall h :: h in heap[..i + 1] <==> h in heap[..i] || h == heap[i];
      forall p | 0 <= p < |hits| ensures hits[p].doc != heap[i].doc {
        assert hits[p] in heap[..i];
      }
      hits := InsertDescending(hits, heap[i]);
    }
  }

  function InsertDescending(hits: seq<Hit>, x: Hit): (s: seq<Hit>)
    requires Descending(hits)
    ensures Descending(s) && |s| == |hits| + 1
    ensures forall h :: h in s <==> h in hits || h == x
    ensures DistinctDocs(hits) && !Listed(hits, x.doc) ==> DistinctDocs(s)
  {
    if hits == [] || Before(hits[|hits| - 1], x) then hits + [x]
    else
      var last := hits[|hits| - 1];
      var s := InsertDescending(hits[..|hits| - 1], x);
      LastStays(hits, x, s);
      s + [last]
  }

  /** Result order: higher score first, then the smaller document id. */
  predicate Before(a: Hit, b: Hit) {
    a.score > b.score || (a.score == b.score && a.doc <= b.doc)
  }
}
