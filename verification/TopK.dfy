/** What a top-k result list is, independently of the algorithm that produced it. */
module TopK {
  import opened Sets

  datatype Hit = Hit(doc: nat, score: real)

  ghost predicate DistinctDocs(hits: seq<Hit>) {
    forall i, j :: 0 <= i < j < |hits| ==> hits[i].doc != hits[j].doc
  }

  ghost predicate Descending(hits: seq<Hit>) {
    forall i, j :: 0 <= i < j < |hits| ==> hits[i].score >= hits[j].score
  }

  /** Every hit carries the exact score of a scored document. */
  ghost predicate ExactScores(hits: seq<Hit>, scores: map<nat, real>) {
    forall i :: 0 <= i < |hits| ==> hits[i].doc in scores && hits[i].score == scores[hits[i].doc]
  }

  ghost predicate Listed(hits: seq<Hit>, d: nat) {
    exists i :: 0 <= i < |hits| && hits[i].doc == d
  }

  /** No document left out scores strictly higher than a document returned. */
  ghost predicate NoBetterOmitted(hits: seq<Hit>, scores: map<nat, real>) {
    forall d, i :: d in scores && !Listed(hits, d) && 0 <= i < |hits| ==> scores[d] <= hits[i].score
  }

  function Min(a: nat, b: nat): nat { if a < b then a else b }

  /** `hits` is a top-k of the scored documents; ties at the k-th score may go either way. */
  ghost predicate IsTopK(hits: seq<Hit>, scores: map<nat, real>, k: nat) {
    && |hits| == Min(k, |scores|)
    && DistinctDocs(hits)
    && ExactScores(hits, scores)
    && Descending(hits)
    && NoBetterOmitted(hits, scores)
  }

  ghost function DocsOf(hits: seq<Hit>): set<nat> {
    set i | 0 <= i < |hits| :: hits[i].doc
  }

  lemma {:induction false} DocsOfSize(hits: seq<Hit>)
    requires DistinctDocs(hits)
    ensures |DocsOf(hits)| == |hits|
  {
    if hits != [] {
      var r := hits[..|hits| - 1];
      DocsOfSize(r);
      assert DocsOf(hits) == DocsOf(r) + {hits[|hits| - 1].doc};
      assert hits[|hits| - 1].doc !in DocsOf(r);
    } else {
      assert DocsOf(hits) == {};
    }
  }

  /** One direction of TopKScoresAgree: b[i] does not score below a[i]. */
  lemma {:induction false} TopKScoreAtMost(a: seq<Hit>, b: seq<Hit>, scores: map<nat, real>, k: nat, i: nat)
    requires IsTopK(a, scores, k) && IsTopK(b, scores, k)
    requires i < |a|
    ensures a[i].score <= b[i].score
  {
    var d := EarlyInOneOnly(a, b, i);
    var p :| 0 <= p <= i && a[p].doc == d;
    assert p < i ==> a[i].score <= a[p].score;
    NotEarlierScores(b, scores, k, d, i);
  }

  /** A document that is not among the first i hits does not score above hit i. */
  lemma {:induction false} NotEarlierScores(hits: seq<Hit>, scores: map<nat, real>, k: nat, d: nat, i: nat)
    requires IsTopK(hits, scores, k) && i < |hits| && d in scores && forall q :: 0 <= q < i ==> hits[q].doc != d
    ensures scores[d] <= hits[i].score
  {
    if Listed(hits, d) {
      var q :| 0 <= q < |hits| && hits[q].doc == d;
      assert q > i ==> hits[q].score <= hits[i].score;
    }
  }

  /** Some document is among the first i + 1 of a but not among the first i of b. */
  lemma {:induction false} EarlyInOneOnly(a: seq<Hit>, b: seq<Hit>, i: nat) returns (d: nat)
    requires DistinctDocs(a) && DistinctDocs(b) && i < |a| && i <= |b|
    ensures exists p :: 0 <= p <= i && a[p].doc == d
    ensures forall q :: 0 <= q < i ==> b[q].doc != d
  {
    var head, prev := a[..i + 1], b[..i];
    DocsOfSize(head);
    DocsOfSize(prev);
    d := SmallerSetMisses(DocsOf(head), DocsOf(prev));
    var p :| 0 <= p < |head| && head[p].doc == d;
    assert a[p].doc == d;
    forall q | 0 <= q < i ensures b[q].doc != d {
      assert b[q] == prev[q] && prev[q].doc in DocsOf(prev);
    }
  }

  /** Any two top-k lists of the same scores have the same score sequence, whatever they do with ties. */
  lemma {:induction false} TopKScoresAgree(a: seq<Hit>, b: seq<Hit>, scores: map<nat, real>, k: nat)
    requires IsTopK(a, scores, k) && IsTopK(b, scores, k)
    ensures |a| == |b|
    ensures forall i :: 0 <= i < |a| ==> a[i].score == b[i].score
  {
    forall i | 0 <= i < |a| ensures a[i].score == b[i].score {
      TopKScoreAtMost(a, b, scores, k, i);
      TopKScoreAtMost(b, a, scores, k, i);
    }
  }

  /** The best k of a complete, sorted list of scored documents are a top-k. */
  lemma {:induction false} PrefixIsTopK(all: seq<Hit>, scores: map<nat, real>, k: nat)
    requires DistinctDocs(all) && Descending(all) && ExactScores(all, scores)
    requires forall d :: d in scores ==> Listed(all, d)
    ensures |all| == |scores|
    ensures IsTopK(all[..Min(k, |all|)], scores, k)
  {
    DocsOfSize(all);
    assert DocsOf(all) == scores.Keys;
    RestIsNoBetter(all, scores, Min(k, |all|));
  }

  lemma {:induction false} RestIsNoBetter(all: seq<Hit>, scores: map<nat, real>, n: nat)
    requires Descending(all) && ExactScores(all, scores) && n <= |all|
    requires forall d :: d in scores ==> Listed(all, d)
    ensures NoBetterOmitted(all[..n], scores)
  {
    var hits := all[..n];
    forall d, i | d in scores && !Listed(hits, d) && 0 <= i < n ensures scores[d] <= hits[i].score {
      var p :| 0 <= p < |all| && all[p].doc == d;
      assert forall j :: 0 <= j < n ==> all[j] == hits[j];
    }
  }
}
