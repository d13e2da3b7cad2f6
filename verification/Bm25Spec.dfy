/** The BM25 score as a function of the indexed counts, and the facts every search path relies on. */
module Bm25Spec {
  import opened Arithmetic
  import opened Sets
  import opened Postings

  type Term = string

  /** The counts and parameters a score depends on. `ln` stands for the natural logarithm. */
  datatype Stats = Stats(
    k1: real, b: real, ln: real -> real, avgdl: real,
    docLen: map<nat, nat>, postings: map<Term, seq<Posting>>)

  /** A list of postings for indexed, non-empty documents, in ascending document order. */
  ghost predicate ListOk(pl: seq<Posting>, docLen: map<nat, nat>) {
    && Ascending(pl)
    && forall i :: 0 <= i < |pl| ==>
         pl[i].doc in docLen && docLen[pl[i].doc] > 0 && pl[i].tf > 0 && pl[i].doc < EXHAUSTED
  }

  ghost predicate StatsOk(s: Stats) {
    && s.k1 >= 0.0 && 0.0 <= s.b <= 1.0
    && (forall x: real :: x > 1.0 ==> s.ln(x) > 0.0)
    && (forall t :: t in s.postings ==> s.postings[t] != [] && ListOk(s.postings[t], s.docLen))
  }

  /** The average length with its guard against an empty corpus. */
  function Avg(avgdl: real): real { if avgdl > 0.0 then avgdl else 1.0 }

  /** Smoothed inverse document frequency of a term with n postings among N documents. */
  function Idf(ln: real -> real, N: nat, n: nat): real {
    ln(1.0 + (N as real - n as real + 0.5) / (n as real + 0.5))
  }

  /** The saturated term frequency: tf(k1 + 1) / (tf + k1(1 - b + b dl / avgdl)). */
  function Saturation(k1: real, b: real, avgdl: real, tf: nat, dl: real): real
    requires k1 >= 0.0 && 0.0 <= b <= 1.0 && avgdl > 0.0 && tf > 0 && dl >= 0.0
    ensures Saturation(k1, b, avgdl, tf, dl) > 0.0
  {
    DenominatorPositive(k1, b, dl / avgdl, tf as real);
    var num := tf as real * (k1 + 1.0);
    var den := tf as real + k1 * (1.0 - b + b * (dl / avgdl));
    QuotientPositive(num, den);
    num / den
  }

  lemma {:induction false} QuotientPositive(x: real, y: real)
    requires x > 0.0 && y > 0.0
    ensures x / y > 0.0
  {}

  lemma {:induction false} DenominatorPositive(k1: real, b: real, ratio: real, f: real)
    requires k1 >= 0.0 && 0.0 <= b <= 1.0 && ratio >= 0.0 && f > 0.0
    ensures f + k1 * (1.0 - b + b * ratio) > 0.0
    ensures f * (k1 + 1.0) > 0.0
  {
    ProductNonNegative(b, ratio);
    ProductNonNegative(k1, 1.0 - b + b * ratio);
    assert f * (k1 + 1.0) == f * k1 + f;
    ProductNonNegative(f, k1);
  }

  /** The query-independent weight of one posting. */
  ghost function Weight(s: Stats, p: Posting): real
    requires StatsOk(s) && p.doc in s.docLen && p.tf > 0
  {
    Saturation(s.k1, s.b, Avg(s.avgdl), p.tf, s.docLen[p.doc] as real)
  }

  lemma {:induction false} WeightPositive(s: Stats, p: Posting)
    requires StatsOk(s) && p.doc in s.docLen && p.tf > 0
    ensures Weight(s, p) > 0.0
  {}

  /** What one occurrence of term t in the query adds to the score of document d. */
  ghost function TermScore(s: Stats, t: Term, d: nat): real
    requires StatsOk(s)
  {
    if t in s.postings && HasDoc(s.postings[t], d)
    then Idf(s.ln, |s.docLen|, |s.postings[t]|) * Weight(s, s.postings[t][IndexOf(s.postings[t], d)])
    else 0.0
  }

  /** The BM25 score of document d: every occurrence of a query term counts. */
  ghost function Score(s: Stats, q: seq<Term>, d: nat): real
    requires StatsOk(s)
  {
    if q == [] then 0.0 else Score(s, q[..|q| - 1], d) + TermScore(s, q[|q| - 1], d)
  }

  ghost predicate Matches(s: Stats, q: seq<Term>, d: nat) {
    exists j :: 0 <= j < |q| && q[j] in s.postings && HasDoc(s.postings[q[j]], d)
  }

  /** The scores of all matching documents: what an exhaustive scan would rank. */
  ghost function Scores(s: Stats, q: seq<Term>): map<nat, real>
    requires StatsOk(s)
  {
    map d | d in s.docLen && Matches(s, q, d) :: Score(s, q, d)
  }

  // ----- Facts about scores -----

  ghost function PostingDocs(pl: seq<Posting>): set<nat> { set i | 0 <= i < |pl| :: pl[i].doc }

  lemma {:induction false} PostingDocsSize(pl: seq<Posting>)
    requires Ascending(pl)
    ensures |PostingDocs(pl)| == |pl|
  {
    if pl == [] {
      assert PostingDocs(pl) == {};
    } else {
      var r := pl[..|pl| - 1];
      PostingDocsSize(r);
      assert PostingDocs(pl) == PostingDocs(r) + {pl[|pl| - 1].doc};
    }
  }

  /** The smoothed idf of an indexed term is strictly positive. */
  lemma {:induction false} IdfPositive(s: Stats, t: Term)
    requires StatsOk(s) && t in s.postings
    ensures Idf(s.ln, |s.docLen|, |s.postings[t]|) > 0.0
  {
    var pl := s.postings[t];
    PostingDocsSize(pl);
    SubsetSize(PostingDocs(pl), s.docLen.Keys);
    QuotientPositive(|s.docLen| as real - |pl| as real + 0.5, |pl| as real + 0.5);
  }

  lemma {:induction false} TermScoreSign(s: Stats, t: Term, d: nat)
    requires StatsOk(s)
    ensures TermScore(s, t, d) >= 0.0
    ensures t in s.postings && HasDoc(s.postings[t], d) ==> TermScore(s, t, d) > 0.0
  {
    if t in s.postings && HasDoc(s.postings[t], d) {
      IdfPositive(s, t);
      ProductPositive(Idf(s.ln, |s.docLen|, |s.postings[t]|), Weight(s, s.postings[t][IndexOf(s.postings[t], d)]));
    }
  }

  /** Exactly the matching documents score above zero; a document that is not indexed matches nothing. */
  lemma {:induction false} ScorePositiveIffMatches(s: Stats, q: seq<Term>, d: nat)
    requires StatsOk(s)
    ensures Score(s, q, d) >= 0.0
    ensures Score(s, q, d) > 0.0 <==> Matches(s, q, d)
    ensures Matches(s, q, d) ==> d in s.docLen && d < EXHAUSTED
  {
    if q != [] {
      var r, t := q[..|q| - 1], q[|q| - 1];
      ScorePositiveIffMatches(s, r, d);
      TermScoreSign(s, t, d);
      if Matches(s, r, d) {
        var j :| 0 <= j < |r| && r[j] in s.postings && HasDoc(s.postings[r[j]], d);
        assert q[j] == r[j];
      }
      if Matches(s, q, d) {
        var j :| 0 <= j < |q| && q[j] in s.postings && HasDoc(s.postings[q[j]], d);
        assert j < |r| ==> r[j] == q[j];
      }
    }
  }

  /** How often t occurs among the terms. */
  ghost function Occurrences(terms: seq<Term>, t: Term): nat {
    if terms == [] then 0
    else Occurrences(terms[..|terms| - 1], t) + if terms[|terms| - 1] == t then 1 else 0
  }

  /** The part of the score that comes from query terms in P. */
  ghost function ScoreWithin(s: Stats, q: seq<Term>, P: set<Term>, d: nat): real
    requires StatsOk(s)
  {
    if q == [] then 0.0
    else ScoreWithin(s, q[..|q| - 1], P, d) + if q[|q| - 1] in P then TermScore(s, q[|q| - 1], d) else 0.0
  }

  /** A term repeated in the query contributes its multiplicity times its single score. */
  lemma {:induction false} ScoreWithinAdd(s: Stats, q: seq<Term>, P: set<Term>, t: Term, d: nat)
    requires StatsOk(s) && t !in P
    ensures ScoreWithin(s, q, P + {t}, d)
         == ScoreWithin(s, q, P, d) + Occurrences(q, t) as real * TermScore(s, t, d)
  {
    hide TermScore, StatsOk;
    if q != [] {
      var r, u := q[..|q| - 1], q[|q| - 1];
      ScoreWithinAdd(s, r, P, t, d);
      OneMore(Occurrences(r, t), TermScore(s, t, d));
    }
  }

  lemma {:induction false} OneMore(m: nat, x: real)
    ensures (m + 1) as real * x == m as real * x + x
  {}

  lemma {:induction false} ScoreWithinAll(s: Stats, q: seq<Term>, P: set<Term>, d: nat)
    requires StatsOk(s) && forall j :: 0 <= j < |q| ==> q[j] in P
    ensures ScoreWithin(s, q, P, d) == Score(s, q, d)
  {
    if q != [] {
      ScoreWithinAll(s, q[..|q| - 1], P, d);
    }
  }

  lemma {:induction false} ScoreWithinNone(s: Stats, q: seq<Term>, d: nat)
    requires StatsOk(s)
    ensures ScoreWithin(s, q, {}, d) == 0.0
  {
    if q != [] {
      ScoreWithinNone(s, q[..|q| - 1], d);
    }
  }
}
