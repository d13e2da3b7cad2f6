/** What the BM25 weights do to a ranking: rare terms, frequent terms and short documents count for more. */
module Bm25Ranking {
  import opened Arithmetic
  import opened Postings
  import opened TopK
  import opened Bm25Spec

  ghost predicate Increasing(f: real -> real) {
    forall x: real, y: real :: 0.0 < x < y ==> f(x) < f(y)
  }

  // ----- Inverse document frequency -----

  /** The idf in its usual closed form. */
  lemma {:induction false} IdfClosed(ln: real -> real, N: nat, n: nat)
    ensures Idf(ln, N, n) == ln((N as real + 1.0) / (n as real + 0.5))
    ensures Idf(x => x, N, n) * (n as real + 0.5) == N as real + 1.0
  {
    OnePlus(N as real - n as real + 0.5, n as real + 0.5);
  }

  lemma {:induction false} OnePlus(x: real, y: real)
    requires y > 0.0
    ensures 1.0 + x / y == (x + y) / y
    ensures (x + y) / y * y == x + y
  {
    var v := x / y;
    assert (1.0 + v) * y == v * y + y;
    Cancel(y, 1.0 + v, (x + y) / y);
  }

  /** The rarer a term, the more it counts. */
  lemma {:induction false} IdfFalls(ln: real -> real, N: nat, m: nat, n: nat)
    requires Increasing(ln) && m < n
    ensures Idf(ln, N, m) > Idf(ln, N, n)
  {
    IdfClosed(ln, N, m);
    IdfClosed(ln, N, n);
    SmallerDivisor(N as real + 1.0, m as real + 0.5, n as real + 0.5);
  }

  lemma {:induction false} SmallerDivisor(x: real, y: real, z: real)
    requires x > 0.0 && 0.0 < y < z
    ensures x / y > x / z > 0.0
  {
    QuotientPositive(x, z);
    var u, v := x / y, x / z;
    assert y * u == x && z * v == x;
    ProductPositive(z - y, v);
    assert z * v == y * v + (z - y) * v;
    LessByFactor(y, v, u);
  }

  lemma {:induction false} LessByFactor(c: real, x: real, y: real)
    requires c > 0.0
    ensures c * x < c * y ==> x < y
    ensures c * x <= c * y ==> x <= y
  {
    if x >= y { TimesMono(c, y, x); }
    if x > y { TimesLess(c, y, x); }
  }

  // ----- Saturation -----

  /** The part of the denominator that depends on the document's length. */
  ghost function Damping(k1: real, b: real, avgdl: real, dl: real): real
    requires avgdl > 0.0
  {
    k1 * (1.0 - b + b * (dl / avgdl))
  }

  lemma {:induction false} SaturationClosed(k1: real, b: real, avgdl: real, tf: nat, dl: real)
    requires k1 >= 0.0 && 0.0 <= b <= 1.0 && avgdl > 0.0 && tf > 0 && dl >= 0.0
    ensures Damping(k1, b, avgdl, dl) >= 0.0
    ensures (tf as real + Damping(k1, b, avgdl, dl)) * Saturation(k1, b, avgdl, tf, dl) == tf as real * (k1 + 1.0)
  {
    DampingSign(k1, b, dl / avgdl);
  }

  lemma {:induction false} DampingSign(k1: real, b: real, ratio: real)
    requires k1 >= 0.0 && 0.0 <= b <= 1.0 && ratio >= 0.0
    ensures k1 * (1.0 - b + b * ratio) >= 0.0
  {
    ProductNonNegative(b, ratio);
    ProductNonNegative(k1, 1.0 - b + b * ratio);
  }

  /** More occurrences weigh more, but never more than k1 + 1. */
  lemma {:induction false} SaturationRises(k1: real, b: real, avgdl: real, f: nat, g: nat, dl: real)
    requires k1 >= 0.0 && 0.0 <= b <= 1.0 && avgdl > 0.0 && 0 < f < g && dl >= 0.0
    ensures Saturation(k1, b, avgdl, f, dl) <= Saturation(k1, b, avgdl, g, dl) <= k1 + 1.0
    ensures k1 > 0.0 && (b < 1.0 || dl > 0.0) ==> Saturation(k1, b, avgdl, f, dl) < Saturation(k1, b, avgdl, g, dl) < k1 + 1.0
  {
    hide Saturation, Damping;
    SaturationClosed(k1, b, avgdl, f, dl);
    SaturationClosed(k1, b, avgdl, g, dl);
    var c := Damping(k1, b, avgdl, dl);
    if k1 > 0.0 && (b < 1.0 || dl > 0.0) { DampingPositive(k1, b, avgdl, dl); }
    FractionRises(f as real, g as real, c, k1 + 1.0, Saturation(k1, b, avgdl, f, dl), Saturation(k1, b, avgdl, g, dl));
  }

  lemma {:induction false} DampingPositive(k1: real, b: real, avgdl: real, dl: real)
    requires k1 > 0.0 && 0.0 <= b <= 1.0 && avgdl > 0.0 && dl >= 0.0 && (b < 1.0 || dl > 0.0)
    ensures Damping(k1, b, avgdl, dl) > 0.0
  {
    ProductNonNegative(b, dl / avgdl);
    if dl > 0.0 && b > 0.0 {
      QuotientPositive(dl, avgdl);
      ProductPositive(b, dl / avgdl);
    }
    ProductPositive(k1, 1.0 - b + b * (dl / avgdl));
  }

  /** f / (f + c) rises with f, towards 1. */
  lemma {:induction false} FractionRises(f: real, g: real, c: real, top: real, x: real, y: real)
    requires 0.0 < f < g && c >= 0.0 && top > 0.0
    requires (f + c) * x == f * top && (g + c) * y == g * top
    ensures x <= y <= top && (c > 0.0 ==> x < y < top)
  {
    BelowTop(f, c, top, x);
    BelowTop(g, c, top, y);
    assert (g + c) * x == (f + c) * x + (g - f) * x;
    assert g * top == f * top + (g - f) * top;
    TimesMono(g - f, x, top);
    if c > 0.0 { TimesLess(g - f, x, top); }
    LessByFactor(g + c, x, y);
  }

  lemma {:induction false} BelowTop(f: real, c: real, top: real, x: real)
    requires f > 0.0 && c >= 0.0 && top > 0.0 && (f + c) * x == f * top
    ensures x <= top && (c > 0.0 ==> x < top)
  {
    assert (f + c) * top == f * top + c * top;
    ProductNonNegative(c, top);
    if c > 0.0 {
      ProductPositive(c, top);
      assert (f + c) * x < (f + c) * top;
    }
    LessByFactor(f + c, x, top);
  }

  lemma {:induction false} TimesLess(c: real, x: real, y: real)
    requires c > 0.0 && x < y
    ensures c * x < c * y
  {
    ProductPositive(c, y - x);
  }

  lemma {:induction false} Cancel(f: real, x: real, y: real)
    requires f > 0.0 && x * f == f * y
    ensures x == y
  {}

  /** Longer documents weigh less; b and k1 say how much. */
  lemma {:induction false} SaturationFalls(k1: real, b: real, avgdl: real, tf: nat, dl: real, el: real)
    requires k1 >= 0.0 && 0.0 <= b <= 1.0 && avgdl > 0.0 && tf > 0 && 0.0 <= dl < el
    ensures Saturation(k1, b, avgdl, tf, el) <= Saturation(k1, b, avgdl, tf, dl)
    ensures k1 > 0.0 && b > 0.0 ==> Saturation(k1, b, avgdl, tf, el) < Saturation(k1, b, avgdl, tf, dl)
  {
    hide Saturation, Damping;
    SaturationClosed(k1, b, avgdl, tf, dl);
    SaturationClosed(k1, b, avgdl, tf, el);
    DampingRises(k1, b, avgdl, dl, el);
    var c, e := tf as real + Damping(k1, b, avgdl, dl), tf as real + Damping(k1, b, avgdl, el);
    var x, y := Saturation(k1, b, avgdl, tf, dl), Saturation(k1, b, avgdl, tf, el);
    assert e * y == c * y + (e - c) * y;
    ProductNonNegative(e - c, y);
    if k1 > 0.0 && b > 0.0 { ProductPositive(e - c, y); }
    LessByFactor(c, y, x);
  }

  lemma {:induction false} DampingRises(k1: real, b: real, avgdl: real, dl: real, el: real)
    requires k1 >= 0.0 && 0.0 <= b <= 1.0 && avgdl > 0.0 && 0.0 <= dl < el
    ensures Damping(k1, b, avgdl, dl) <= Damping(k1, b, avgdl, el)
    ensures k1 > 0.0 && b > 0.0 ==> Damping(k1, b, avgdl, dl) < Damping(k1, b, avgdl, el)
  {
    var x, y := dl / avgdl, el / avgdl;
    assert avgdl * x == dl && avgdl * y == el;
    LessByFactor(avgdl, x, y);
    TimesMono(b, x, y);
    if b > 0.0 { TimesLess(b, x, y); }
    TimesMono(k1, 1.0 - b + b * x, 1.0 - b + b * y);
    if b > 0.0 && k1 > 0.0 { TimesLess(k1, 1.0 - b + b * x, 1.0 - b + b * y); }
  }

  /** One occurrence in a document of average length weighs 1. */
  lemma {:induction false} SaturationUnit(k1: real, b: real, avgdl: real)
    requires k1 >= 0.0 && 0.0 <= b <= 1.0 && avgdl > 0.0
    ensures Saturation(k1, b, avgdl, 1, avgdl) == 1.0
  {
    hide Saturation;
    SaturationClosed(k1, b, avgdl, 1, avgdl);
    assert avgdl / avgdl == 1.0;
    Cancel(1.0 + k1, Saturation(k1, b, avgdl, 1, avgdl), 1.0);
  }

  // ----- The ranking -----

  ghost predicate Holds(s: Stats, t: Term, d: nat) { t in s.postings && HasDoc(s.postings[t], d) }

  /** How often document d holds the term. */
  ghost function Frequency(s: Stats, t: Term, d: nat): nat {
    if Holds(s, t, d) then s.postings[t][IndexOf(s.postings[t], d)].tf else 0
  }

  /** Of all query terms, document d holds t and no other. */
  ghost predicate HoldsOnly(s: Stats, q: seq<Term>, t: Term, d: nat) {
    Holds(s, t, d) && forall u :: u in q && u != t ==> !Holds(s, u, d)
  }

  /** A document with only one of the query's terms scores that term's share as often as the query repeats it. */
  lemma {:induction false} OneTermScore(s: Stats, q: seq<Term>, t: Term, d: nat)
    requires StatsOk(s) && forall u :: u in q && u != t ==> !Holds(s, u, d)
    ensures Score(s, q, d) == Occurrences(q, t) as real * TermScore(s, t, d)
  {
    hide TermScore, StatsOk, Holds;
    if q != [] {
      var r, last := q[..|q| - 1], q[|q| - 1];
      OneTermScore(s, r, t, d);
      if last != t { NoShare(s, last, d); }
      OneMore(Occurrences(r, t), TermScore(s, t, d));
    }
  }

  lemma {:induction false} NoShare(s: Stats, t: Term, d: nat)
    requires StatsOk(s) && !Holds(s, t, d)
    ensures TermScore(s, t, d) == 0.0
  {}

  /** d holds only t, e only u: t is rarer, asked for no less often, in d no less often than u in e, and d is no longer. */
  ghost predicate RarerMatch(s: Stats, q: seq<Term>, t: Term, u: Term, d: nat, e: nat) {
    && HoldsOnly(s, q, t, d) && HoldsOnly(s, q, u, e) && Occurrences(q, t) >= Occurrences(q, u) > 0
    && |s.postings[t]| < |s.postings[u]| && Frequency(s, t, d) >= Frequency(s, u, e)
    && d in s.docLen && e in s.docLen && s.docLen[d] <= s.docLen[e]
  }

  /** Such a document scores strictly higher. */
  lemma {:induction false} RarerScoresHigher(s: Stats, q: seq<Term>, t: Term, u: Term, d: nat, e: nat)
    requires StatsOk(s) && Increasing(s.ln) && RarerMatch(s, q, t, u, d, e)
    ensures Score(s, q, d) > Score(s, q, e) > 0.0
  {
    hide Score, Idf, Saturation, Occurrences, Matches, TermScore, StatsOk;
    OneTermScore(s, q, t, d);
    OneTermScore(s, q, u, e);
    TermScoreSign(s, u, e);
    var x, y := TermScore(s, t, d), TermScore(s, u, e);
    RarerShare(s, t, u, d, e);
    MoreOften(Occurrences(q, t) as real, Occurrences(q, u) as real, x, y);
  }

  lemma {:induction false} MoreOften(m: real, n: real, x: real, y: real)
    requires m >= n > 0.0 && x > y > 0.0
    ensures m * x > n * y > 0.0
  {
    ProductPositive(n, y);
    TimesLess(n, y, x);
    TimesMono(x, n, m);
  }

  lemma {:induction false} RarerShare(s: Stats, t: Term, u: Term, d: nat, e: nat)
    requires StatsOk(s) && Increasing(s.ln) && Holds(s, t, d) && Holds(s, u, e)
    requires |s.postings[t]| < |s.postings[u]| && Frequency(s, t, d) >= Frequency(s, u, e)
    requires d in s.docLen && e in s.docLen && s.docLen[d] <= s.docLen[e]
    ensures TermScore(s, t, d) > TermScore(s, u, e)
  {
    hide Idf, Saturation;
    var p, r := s.postings[t][IndexOf(s.postings[t], d)], s.postings[u][IndexOf(s.postings[u], e)];
    assert ListOk(s.postings[t], s.docLen) && ListOk(s.postings[u], s.docLen);
    IdfFalls(s.ln, |s.docLen|, |s.postings[t]|, |s.postings[u]|);
    IdfPositive(s, u);
    HeavierPosting(s, p, r);
    WeightPositive(s, p);
    var x, y := Idf(s.ln, |s.docLen|, |s.postings[t]|), Idf(s.ln, |s.docLen|, |s.postings[u]|);
    TimesMono(y, Weight(s, r), Weight(s, p));
    TimesLess(Weight(s, p), y, x);
  }

  lemma {:induction false} HeavierPosting(s: Stats, p: Posting, r: Posting)
    requires StatsOk(s) && p.doc in s.docLen && r.doc in s.docLen
    requires p.tf >= r.tf > 0 && s.docLen[p.doc] <= s.docLen[r.doc]
    ensures Weight(s, p) >= Weight(s, r)
  {
    hide Saturation;
    var avg, dl, el := Avg(s.avgdl), s.docLen[p.doc] as real, s.docLen[r.doc] as real;
    if p.tf > r.tf { SaturationRises(s.k1, s.b, avg, r.tf, p.tf, dl); }
    if dl < el { SaturationFalls(s.k1, s.b, avg, r.tf, dl, el); }
  }

  /** Whenever a document is listed, those with a rarer match are listed before it. */
  ghost predicate RarerFirst(s: Stats, q: seq<Term>, hits: seq<Hit>) {
    forall t, u, d: nat, i :: 0 <= i < |hits| && RarerMatch(s, q, t, u, d, hits[i].doc) ==>
      exists j :: 0 <= j < i && hits[j].doc == d
  }

  lemma {:induction false} TopKRarerFirst(s: Stats, q: seq<Term>, hits: seq<Hit>, k: nat)
    requires StatsOk(s) && Increasing(s.ln) && IsTopK(hits, Scores(s, q), k)
    ensures RarerFirst(s, q, hits)
  {
    hide StatsOk, RarerMatch, Score;
    forall t, u, d: nat, i | 0 <= i < |hits| && RarerMatch(s, q, t, u, d, hits[i].doc)
      ensures exists j :: 0 <= j < i && hits[j].doc == d
    {
      RarerScoresHigher(s, q, t, u, d, hits[i].doc);
      ScorePositiveIffMatches(s, q, d);
      assert d in Scores(s, q) && hits[i].doc in Scores(s, q);
      assert Listed(hits, d);
      var j :| 0 <= j < |hits| && hits[j].doc == d;
      assert hits[j].score > hits[i].score;
    }
  }
}
