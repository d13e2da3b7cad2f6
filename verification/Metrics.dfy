/** Retrieval metrics over graded judgments: nDCG, recall and average precision. */
module Metrics {
  import opened Arithmetic
  import opened Sets
  import opened Sums
  import opened TopK
  import opened ScoreHeap

  type Judgments = map<nat, int>

  /** Grade of a document; unjudged documents have grade 0. */
  function Grade(rel: Judgments, d: nat): int { if d in rel then rel[d] else 0 }

  predicate Relevant(rel: Judgments, d: nat) { Grade(rel, d) > 0 }

  ghost function RelevantSet(rel: Judgments): set<nat> { set d | d in rel && rel[d] > 0 }

  /** 2^g - 1 for a relevant document, else 0. */
  function Gain(rel: Judgments, d: nat): real {
    if Relevant(rel, d) then (Pow2(Grade(rel, d)) - 1) as real else 0.0
  }

  lemma {:induction false} Pow2Mono(a: nat, b: nat)
    requires a <= b
    ensures Pow2(a) <= Pow2(b)
  {
    if a < b { Pow2Mono(a, b - 1); }
  }

  lemma {:induction false} Pow2Positive(a: nat)
    ensures Pow2(a) >= a + 1
  {
    if a > 0 { Pow2Positive(a - 1); }
  }

  lemma {:induction false} Pow2Injective(a: nat, b: nat)
    requires Pow2(a) == Pow2(b)
    ensures a == b
  {
    if a < b {
      Pow2Mono(a + 1, b);
      Pow2Positive(a);
    } else if b < a {
      Pow2Mono(b + 1, a);
      Pow2Positive(b);
    }
  }

  /** Equal gains mean equal grades, as far as they are relevant. */
  lemma {:induction false} GainsTell(rel: Judgments, d: nat, e: nat)
    requires Gain(rel, d) == Gain(rel, e)
    ensures Relevant(rel, d) <==> Relevant(rel, e)
    ensures Relevant(rel, d) ==> Grade(rel, d) == Grade(rel, e)
  {
    GainFollowsGrade(rel, d, d);
    GainFollowsGrade(rel, e, e);
    if Relevant(rel, d) && Relevant(rel, e) { Pow2Injective(Grade(rel, d), Grade(rel, e)); }
  }

  lemma {:induction false} GainFollowsGrade(rel: Judgments, d: nat, e: nat)
    ensures Gain(rel, d) >= 0.0
    ensures Relevant(rel, d) ==> Gain(rel, d) > 0.0
    ensures Grade(rel, d) <= Grade(rel, e) ==> Gain(rel, d) <= Gain(rel, e)
  {
    if Relevant(rel, d) { Pow2Positive(Grade(rel, d)); }
    if Relevant(rel, e) { Pow2Positive(Grade(rel, e)); }
    if Relevant(rel, d) && Grade(rel, d) <= Grade(rel, e) { Pow2Mono(Grade(rel, d), Grade(rel, e)); }
  }

  /** A grade more doubles the gain and adds 1; grades of 0 and below gain nothing. */
  lemma {:induction false} GainDoubles(rel: Judgments, d: nat, e: nat)
    ensures Grade(rel, d) >= 0 && Grade(rel, e) == Grade(rel, d) + 1 ==> Gain(rel, e) == 2.0 * Gain(rel, d) + 1.0
    ensures Grade(rel, d) <= 0 ==> Gain(rel, d) == 0.0
  {
    if Grade(rel, d) >= 0 { DoubleLessOne(Grade(rel, d)); }
  }

  lemma {:induction false} DoubleLessOne(g: nat)
    ensures (Pow2(g + 1) - 1) as real == 2.0 * (Pow2(g) - 1) as real + 1.0
    ensures Pow2(0) == 1
  {}

  /** Positive and never increasing with the position, as 1 / log2(i + 2) is. */
  ghost predicate Discount(disc: nat -> real) {
    (forall i: nat :: disc(i) > 0.0) && forall i: nat, j: nat :: i <= j ==> disc(j) <= disc(i)
  }

  /** A discount that gets strictly smaller with the position. */
  ghost predicate StrictDiscount(disc: nat -> real) {
    Discount(disc) && forall i: nat, j: nat :: i < j ==> disc(j) < disc(i)
  }

  /** Gain at position i of a list of documents; 0 past its end. */
  ghost function GainAt(rel: Judgments, list: seq<nat>): int -> real {
    (i: int) => if 0 <= i < |list| then Gain(rel, list[i]) else 0.0
  }

  ghost function Discounted(disc: nat -> real, x: int -> real): int -> real {
    (i: int) => if i >= 0 then disc(i) * x(i) else 0.0
  }

  /** Discounted cumulative gain of the first n positions. */
  ghost function Dcg(rel: Judgments, disc: nat -> real, list: seq<nat>, n: nat): real {
    Sum(n, Discounted(disc, GainAt(rel, list)))
  }

  /** All relevant documents, best grade first. */
  ghost predicate IdealList(rel: Judgments, list: seq<nat>) {
    && Distinct(list)
    && (forall d :: d in list <==> d in RelevantSet(rel))
    && forall i, j :: 0 <= i < j < |list| ==> Grade(rel, list[i]) >= Grade(rel, list[j])
  }

  // ----- No ordering beats the ideal one -----

  /** Gains of the ideal list's documents that are among the first t of a ranking. */
  ghost function Taken(rel: Judgments, ideal: seq<nat>, run: seq<nat>, t: nat): int -> real
    requires t <= |run|
  {
    (i: int) => if 0 <= i < |ideal| && ideal[i] in run[..t] then Gain(rel, ideal[i]) else 0.0
  }

  ghost function TakenCount(ideal: seq<nat>, run: seq<nat>, t: nat, p: nat): nat
    requires t <= |run| && p <= |ideal|
  {
    if p == 0 then 0 else TakenCount(ideal, run, t, p - 1) + if ideal[p - 1] in run[..t] then 1 else 0
  }

  /** Any c of the ideal list's documents gain at most what its first c gain. */
  lemma {:induction false} TakenAtMostBest(rel: Judgments, ideal: seq<nat>, run: seq<nat>, t: nat, p: nat)
    requires IdealList(rel, ideal) && t <= |run| && p <= |ideal|
    ensures TakenCount(ideal, run, t, p) <= p
    ensures Sum(p, Taken(rel, ideal, run, t)) <= Sum(TakenCount(ideal, run, t, p), GainAt(rel, ideal))
  {
    hide IdealList, Gain;
    if p > 0 {
      TakenAtMostBest(rel, ideal, run, t, p - 1);
      EarlierGainsMore(rel, ideal, TakenCount(ideal, run, t, p - 1), p - 1);
    }
  }

  lemma {:induction false} EarlierGainsMore(rel: Judgments, ideal: seq<nat>, i: nat, j: nat)
    requires IdealList(rel, ideal) && i <= j < |ideal|
    ensures Gain(rel, ideal[j]) <= Gain(rel, ideal[i])
  {
    hide Gain;
    GainFollowsGrade(rel, ideal[j], ideal[i]);
  }

  /** The gains of a duplicate-free ranking are the gains of the ideal list's documents it contains. */
  lemma {:induction false} PrefixGains(rel: Judgments, ideal: seq<nat>, run: seq<nat>, t: nat)
    requires IdealList(rel, ideal) && Distinct(run) && t <= |run|
    ensures Sum(t, GainAt(rel, run)) == Sum(|ideal|, Taken(rel, ideal, run, t))
    ensures TakenCount(ideal, run, t, |ideal|) <= t
  {
    hide IdealList, Gain;
    if t == 0 {
      SumZero(|ideal|, Taken(rel, ideal, run, 0));
      CountNone(ideal, run, |ideal|);
    } else {
      PrefixGains(rel, ideal, run, t - 1);
      OneMoreTaken(rel, ideal, run, t - 1);
    }
  }

  lemma {:induction false} CountNone(ideal: seq<nat>, run: seq<nat>, p: nat)
    requires p <= |ideal|
    ensures TakenCount(ideal, run, 0, p) == 0
  {
    if p > 0 { CountNone(ideal, run, p - 1); }
  }

  lemma {:induction false} TakenByMore(run: seq<nat>, t: nat, d: nat)
    requires t < |run|
    ensures d in run[..t + 1] <==> d in run[..t] || d == run[t]
  {
    assert run[..t + 1] == run[..t] + [run[t]];
  }

  /** The next document of the ranking is new, and takes at most one place of the ideal list. */
  lemma {:induction false} OneMoreTaken(rel: Judgments, ideal: seq<nat>, run: seq<nat>, t: nat)
    requires IdealList(rel, ideal) && Distinct(run) && t < |run|
    ensures Sum(|ideal|, Taken(rel, ideal, run, t + 1)) == Sum(|ideal|, Taken(rel, ideal, run, t)) + Gain(rel, run[t])
    ensures TakenCount(ideal, run, t + 1, |ideal|) <= TakenCount(ideal, run, t, |ideal|) + 1
  {
    var d, n := run[t], |ideal|;
    forall i | 0 <= i < n ensures ideal[i] in run[..t + 1] <==> ideal[i] in run[..t] || ideal[i] == d {
      TakenByMore(run, t, ideal[i]);
    }
    assert d !in run[..t];
    if d in ideal {
      var j :| 0 <= j < n && ideal[j] == d;
      SumChangeOne(n, Taken(rel, ideal, run, t), Taken(rel, ideal, run, t + 1), j);
      CountOneMore(ideal, run, t, j, n);
    } else {
      SumEqual(n, Taken(rel, ideal, run, t), Taken(rel, ideal, run, t + 1));
      CountSame(ideal, run, t, n);
    }
  }

  lemma {:induction false} CountSame(ideal: seq<nat>, run: seq<nat>, t: nat, p: nat)
    requires t < |run| && p <= |ideal|
    requires forall i :: 0 <= i < p ==> (ideal[i] in run[..t + 1] <==> ideal[i] in run[..t])
    ensures TakenCount(ideal, run, t + 1, p) == TakenCount(ideal, run, t, p)
  {
    if p > 0 { CountSame(ideal, run, t, p - 1); }
  }

  lemma {:induction false} CountOneMore(ideal: seq<nat>, run: seq<nat>, t: nat, j: nat, p: nat)
    requires t < |run| && p <= |ideal|
    requires forall i :: 0 <= i < p && i != j ==> (ideal[i] in run[..t + 1] <==> ideal[i] in run[..t])
    ensures TakenCount(ideal, run, t + 1, p) <= TakenCount(ideal, run, t, p) + 1
  {
    if p > 0 {
      if p - 1 == j {
        CountSame(ideal, run, t, p - 1);
      } else {
        CountOneMore(ideal, run, t, j, p - 1);
      }
    }
  }

  lemma {:induction false} SumMono(m: nat, n: nat, f: int -> real)
    requires m <= n && forall i :: 0 <= i < n ==> f(i) >= 0.0
    ensures Sum(m, f) <= Sum(n, f)
  {
    if m < n { SumMono(m, n - 1, f); }
  }

  /** Whatever the ranking, its first t documents gain at most what the ideal list's first t do. */
  lemma {:induction false} PrefixDominated(rel: Judgments, ideal: seq<nat>, run: seq<nat>, t: nat)
    requires IdealList(rel, ideal) && Distinct(run) && t <= |run|
    ensures Sum(t, GainAt(rel, run)) <= Sum(t, GainAt(rel, ideal))
  {
    hide IdealList, Gain;
    PrefixGains(rel, ideal, run, t);
    TakenAtMostBest(rel, ideal, run, t, |ideal|);
    GainsNonNegative(rel, ideal);
    SumMono(TakenCount(ideal, run, t, |ideal|), t, GainAt(rel, ideal));
  }

  lemma {:induction false} GainsNonNegative(rel: Judgments, list: seq<nat>)
    ensures forall i :: GainAt(rel, list)(i) >= 0.0
  {
    forall i ensures GainAt(rel, list)(i) >= 0.0 {
      if 0 <= i < |list| { GainFollowsGrade(rel, list[i], list[i]); }
    }
  }

  // ----- Summation by parts -----

  ghost function Lead(x: int -> real, y: int -> real, n: nat): real { Sum(n, y) - Sum(n, x) }

  /** With every prefix sum of y ahead of x, non-increasing positive weights keep y ahead by the last weight at least. */
  lemma {:induction false} WeightedLead(n: nat, disc: nat -> real, x: int -> real, y: int -> real)
    requires n > 0 && Discount(disc) && forall t: nat :: t <= n ==> Lead(x, y, t) >= 0.0
    ensures Sum(n, Discounted(disc, y)) - Sum(n, Discounted(disc, x)) >= disc(n - 1) * Lead(x, y, n)
  {
    if n == 1 {
      assert Sum(1, x) == x(0) && Sum(1, y) == y(0);
      assert Sum(1, Discounted(disc, x)) == disc(0) * x(0) && Sum(1, Discounted(disc, y)) == disc(0) * y(0);
      TimesMinus(disc(0), y(0), x(0));
    } else {
      WeightedLead(n - 1, disc, x, y);
      LeadStep(disc(n - 2), disc(n - 1), Lead(x, y, n - 1), y(n - 1), x(n - 1));
    }
  }

  lemma {:induction false} TimesMinus(c: real, y: real, x: real)
    ensures c * y - c * x == c * (y - x)
  {}

  lemma {:induction false} LeadStep(wide: real, narrow: real, lead: real, y: real, x: real)
    requires narrow <= wide && lead >= 0.0
    ensures wide * lead + narrow * y - narrow * x >= narrow * (lead + y - x)
  {
    assert (wide - narrow) * lead >= 0.0;
    assert narrow * (lead + y - x) == narrow * lead + narrow * y - narrow * x;
  }

  lemma {:induction false} WeightedDominance(n: nat, disc: nat -> real, x: int -> real, y: int -> real)
    requires Discount(disc) && forall t: nat :: t <= n ==> Sum(t, x) <= Sum(t, y)
    ensures Sum(n, Discounted(disc, x)) <= Sum(n, Discounted(disc, y))
  {
    if n > 0 {
      assert forall t: nat :: t <= n ==> Lead(x, y, t) >= 0.0;
      WeightedLead(n, disc, x, y);
      assert disc(n - 1) * Lead(x, y, n) >= 0.0;
    }
  }

  lemma {:induction false} DiscountedNonNegative(disc: nat -> real, x: int -> real)
    requires Discount(disc) && forall i :: x(i) >= 0.0
    ensures forall i :: Discounted(disc, x)(i) >= 0.0
  {
    forall i ensures Discounted(disc, x)(i) >= 0.0 {
      if i >= 0 { assert disc(i) > 0.0 && x(i) >= 0.0; }
    }
  }

  /** The gain of the best possible ranking cut at k. */
  ghost function IdealDcg(rel: Judgments, disc: nat -> real, ideal: seq<nat>, k: nat): real {
    Dcg(rel, disc, ideal, Min(k, |ideal|))
  }

  lemma {:induction false} PastTheEnd(rel: Judgments, disc: nat -> real, list: seq<nat>, n: nat)
    requires n >= |list|
    ensures Dcg(rel, disc, list, n) == Dcg(rel, disc, list, |list|)
  {
    if n > |list| { PastTheEnd(rel, disc, list, n - 1); }
  }

  /** No duplicate-free ranking gains more than the ideal one, for any grading, cut-off and discount. */
  lemma {:induction false} NoRankingBeatsIdeal(rel: Judgments, disc: nat -> real, ideal: seq<nat>, run: seq<nat>, k: nat)
    requires IdealList(rel, ideal) && Distinct(run) && Discount(disc)
    ensures 0.0 <= Dcg(rel, disc, run, Min(k, |run|)) <= IdealDcg(rel, disc, ideal, k)
  {
    hide IdealList, Gain, Discount;
    var n := Min(k, |run|);
    forall t: nat | t <= n ensures Sum(t, GainAt(rel, run)) <= Sum(t, GainAt(rel, ideal)) {
      PrefixDominated(rel, ideal, run, t);
    }
    WeightedDominance(n, disc, GainAt(rel, run), GainAt(rel, ideal));
    GainsNonNegative(rel, ideal);
    GainsNonNegative(rel, run);
    DiscountedNonNegative(disc, GainAt(rel, ideal));
    DiscountedNonNegative(disc, GainAt(rel, run));
    SumNonNegative(n, Discounted(disc, GainAt(rel, run)));
    SumMono(n, k, Discounted(disc, GainAt(rel, ideal)));
    if k > |ideal| { PastTheEnd(rel, disc, ideal, k); }
  }

  // ----- A ranking in ideal order -----

  ghost function GradeHits(rel: Judgments, list: seq<nat>): (r: seq<Hit>)
    ensures |r| == |list| && forall i :: 0 <= i < |r| ==> r[i] == Hit(list[i], Grade(rel, list[i]) as real)
  {
    seq(|list|, i requires 0 <= i < |list| => Hit(list[i], Grade(rel, list[i]) as real))
  }

  ghost function Grades(rel: Judgments): map<nat, real> { map d | d in rel && rel[d] > 0 :: rel[d] as real }

  lemma {:induction false} GradesAreRelevant(rel: Judgments)
    ensures Grades(rel).Keys == RelevantSet(rel) && |Grades(rel)| == |RelevantSet(rel)|
    ensures forall d :: d in Grades(rel) ==> Grades(rel)[d] == Grade(rel, d) as real
  {
    assert |Grades(rel)| == |Grades(rel).Keys|;
  }

  lemma {:induction false} IdealIsTopK(rel: Judgments, list: seq<nat>)
    requires IdealList(rel, list)
    ensures IsTopK(GradeHits(rel, list), Grades(rel), |Grades(rel)|) && |list| == |Grades(rel)|
  {
    hide ElementsOf, RelevantSet, Grades;
    DistinctSize(list);
    GradesAreRelevant(rel);
    assert ElementsOf(list) == RelevantSet(rel);
    var hits := GradeHits(rel, list);
    forall i | 0 <= i < |hits| ensures hits[i].doc in Grades(rel) && hits[i].score == Grades(rel)[hits[i].doc] {
      assert list[i] in list;
    }
    forall d | d in Grades(rel) ensures Listed(hits, d) {
      assert d in RelevantSet(rel) && d in list;
      var i :| 0 <= i < |list| && list[i] == d;
      assert hits[i].doc == d;
    }
  }

  /** Any two ideal lists carry the same grades position by position. */
  lemma {:induction false} IdealListsAgree(rel: Judgments, a: seq<nat>, b: seq<nat>)
    requires IdealList(rel, a) && IdealList(rel, b)
    ensures |a| == |b| && forall i :: 0 <= i < |a| ==> Grade(rel, a[i]) == Grade(rel, b[i])
  {
    hide IdealList, IsTopK;
    IdealIsTopK(rel, a);
    IdealIsTopK(rel, b);
    var x, y := GradeHits(rel, a), GradeHits(rel, b);
    TopKScoresAgree(x, y, Grades(rel), |Grades(rel)|);
    forall i | 0 <= i < |a| ensures Grade(rel, a[i]) == Grade(rel, b[i]) {
      assert x[i].score == y[i].score;
    }
  }

  /** The ranking has the ideal list's grades wherever the cut-off lets one through, and nothing relevant after them. */
  ghost predicate InIdealOrder(rel: Judgments, ideal: seq<nat>, run: seq<nat>, k: nat) {
    && Min(k, |ideal|) <= |run|
    && (forall i :: 0 <= i < Min(k, |ideal|) ==> Grade(rel, run[i]) == Grade(rel, ideal[i]))
    && (forall i :: Min(k, |ideal|) <= i < Min(k, |run|) ==> !Relevant(rel, run[i]))
  }

  lemma {:induction false} CutOff(rel: Judgments, disc: nat -> real, list: seq<nat>, k: nat)
    ensures Dcg(rel, disc, list, Min(k, |list|)) == Dcg(rel, disc, list, k)
  {
    if k > |list| { PastTheEnd(rel, disc, list, k); }
  }

  /** A ranking in ideal order down to the cut-off gains exactly the ideal. */
  lemma {:induction false} IdealRankingIsIdeal(rel: Judgments, disc: nat -> real, ideal: seq<nat>, run: seq<nat>, k: nat)
    requires IdealList(rel, ideal) && InIdealOrder(rel, ideal, run, k)
    ensures Dcg(rel, disc, run, Min(k, |run|)) == IdealDcg(rel, disc, ideal, k)
  {
    forall i | 0 <= i < k ensures GainAt(rel, run)(i) == GainAt(rel, ideal)(i) {
      if i < |ideal| {
        GainFollowsGrade(rel, ideal[i], run[i]);
        GainFollowsGrade(rel, run[i], ideal[i]);
      }
    }
    SumEqual(k, Discounted(disc, GainAt(rel, run)), Discounted(disc, GainAt(rel, ideal)));
    CutOff(rel, disc, run, k);
    CutOff(rel, disc, ideal, k);
  }

  lemma {:induction false} LeadGrows(wide: real, narrow: real, lead: real, gap: real, y: real, x: real)
    requires 0.0 < narrow < wide && lead >= 0.0 && lead + y - x >= 0.0 && gap > 0.0 && gap >= wide * lead
    ensures gap + narrow * y - narrow * x > 0.0
  {
    assert (wide - narrow) * lead >= 0.0;
    if lead > 0.0 { assert (wide - narrow) * lead > 0.0; }
    assert narrow * (lead + y - x) >= 0.0;
    assert narrow * (lead + y - x) == narrow * lead + narrow * y - narrow * x;
  }

  /** How far the weighted sum of y is ahead. */
  ghost function Gap(disc: nat -> real, x: int -> real, y: int -> real, n: nat): real {
    Sum(n, Discounted(disc, y)) - Sum(n, Discounted(disc, x))
  }

  lemma {:induction false} FirstGap(disc: nat -> real, x: int -> real, y: int -> real, n: nat)
    requires Discount(disc) && n > 0 && Lead(x, y, n) > 0.0 && forall t: nat :: t <= n ==> Lead(x, y, t) >= 0.0
    ensures Gap(disc, x, y, n) > 0.0
  {
    hide Sum, Discounted, Lead;
    WeightedLead(n, disc, x, y);
    ProductPositive(disc(n - 1), Lead(x, y, n));
  }

  lemma {:induction false} NextGap(disc: nat -> real, x: int -> real, y: int -> real, n: nat)
    requires StrictDiscount(disc) && n > 0 && Gap(disc, x, y, n) > 0.0
    requires forall t: nat :: t <= n + 1 ==> Lead(x, y, t) >= 0.0
    ensures Gap(disc, x, y, n + 1) > 0.0
  {
    WeightedLead(n, disc, x, y);
    hide Discounted, Discount;
    var lead := Lead(x, y, n);
    assert Lead(x, y, n + 1) == lead + y(n) - x(n);
    LeadGrows(disc(n - 1), disc(n), lead, Gap(disc, x, y, n), y(n), x(n));
    GapStep(disc, x, y, n);
  }

  lemma {:induction false} GapStep(disc: nat -> real, x: int -> real, y: int -> real, n: nat)
    ensures Gap(disc, x, y, n + 1) == Gap(disc, x, y, n) + disc(n) * y(n) - disc(n) * x(n)
  {}

  /** With strictly decreasing weights, a prefix sum of y strictly ahead of x's keeps y strictly ahead. */
  lemma {:induction false} StrictLead(n: nat, disc: nat -> real, x: int -> real, y: int -> real, at: nat)
    requires StrictDiscount(disc) && at <= n && Lead(x, y, at) > 0.0
    requires forall t: nat :: t <= n ==> Lead(x, y, t) >= 0.0
    ensures Gap(disc, x, y, n) > 0.0
  {
    assert at > 0;
    hide Gap, Lead, Discount;
    if n == at {
      FirstGap(disc, x, y, n);
    } else {
      StrictLead(n - 1, disc, x, y, at);
      NextGap(disc, x, y, n - 1);
    }
  }

  /** PrefixDominated, also past the ranking's end. */
  lemma {:induction false} AlwaysDominated(rel: Judgments, ideal: seq<nat>, run: seq<nat>, t: nat)
    requires IdealList(rel, ideal) && Distinct(run)
    ensures Sum(t, GainAt(rel, run)) <= Sum(t, GainAt(rel, ideal))
    decreases t
  {
    hide IdealList, Gain;
    if t <= |run| {
      PrefixDominated(rel, ideal, run, t);
    } else {
      AlwaysDominated(rel, ideal, run, t - 1);
      GainsNonNegative(rel, ideal);
    }
  }

  /** With a strictly decreasing discount, a ranking without duplicates above the cut-off gains the ideal only in ideal order. */
  lemma {:induction false} OnlyIdealOrderIsIdeal(rel: Judgments, disc: nat -> real, ideal: seq<nat>, run: seq<nat>, k: nat)
    requires IdealList(rel, ideal) && Distinct(run[..Min(k, |run|)]) && StrictDiscount(disc)
    requires Dcg(rel, disc, run, Min(k, |run|)) == IdealDcg(rel, disc, ideal, k)
    ensures InIdealOrder(rel, ideal, run, k)
  {
    hide IdealList, Gain, StrictDiscount;
    var n := Min(k, |run|);
    var head := run[..n];
    assert Min(k, |head|) == n;
    SumEqual(n, Discounted(disc, GainAt(rel, run)), Discounted(disc, GainAt(rel, head)));
    OnlyIdealOrder(rel, disc, ideal, head, k);
    assert forall i :: 0 <= i < n ==> head[i] == run[i];
  }

  lemma {:induction false} OnlyIdealOrder(rel: Judgments, disc: nat -> real, ideal: seq<nat>, run: seq<nat>, k: nat)
    requires IdealList(rel, ideal) && Distinct(run) && StrictDiscount(disc)
    requires Dcg(rel, disc, run, Min(k, |run|)) == IdealDcg(rel, disc, ideal, k)
    ensures InIdealOrder(rel, ideal, run, k)
  {
    hide Gain, Grade, StrictDiscount;
    var x, y := GainAt(rel, run), GainAt(rel, ideal);
    CutOff(rel, disc, run, k);
    CutOff(rel, disc, ideal, k);
    forall t: nat | t <= k ensures Lead(x, y, t) >= 0.0 { AlwaysDominated(rel, ideal, run, t); }
    forall t: nat | t <= k ensures Lead(x, y, t) == 0.0 {
      if Lead(x, y, t) > 0.0 { StrictLead(k, disc, x, y, t); }
    }
    forall i | 0 <= i < k ensures x(i) == y(i) {
      assert Lead(x, y, i) == 0.0 && Lead(x, y, i + 1) == 0.0;
    }
    SameGains(rel, ideal, run, k);
  }

  lemma {:induction false} SameGains(rel: Judgments, ideal: seq<nat>, run: seq<nat>, k: nat)
    requires IdealList(rel, ideal) && forall i :: 0 <= i < k ==> GainAt(rel, run)(i) == GainAt(rel, ideal)(i)
    ensures InIdealOrder(rel, ideal, run, k)
  {
    hide Gain, Grade;
    forall i | 0 <= i < Min(k, |ideal|) ensures i < |run| && Grade(rel, run[i]) == Grade(rel, ideal[i]) {
      IdealIsRelevant(rel, ideal, i);
      GainFollowsGrade(rel, ideal[i], ideal[i]);
      assert GainAt(rel, run)(i) == GainAt(rel, ideal)(i) > 0.0;
      GainsTell(rel, run[i], ideal[i]);
    }
    var m := Min(k, |ideal|);
    if m > 0 {
      IdealIsRelevant(rel, ideal, m - 1);
      GainFollowsGrade(rel, ideal[m - 1], ideal[m - 1]);
      assert GainAt(rel, run)(m - 1) == GainAt(rel, ideal)(m - 1) > 0.0;
    }
    forall i | Min(k, |ideal|) <= i < Min(k, |run|) ensures !Relevant(rel, run[i]) {
      assert GainAt(rel, run)(i) == 0.0;
      GainFollowsGrade(rel, run[i], run[i]);
    }
  }

  lemma {:induction false} IdealIsRelevant(rel: Judgments, ideal: seq<nat>, i: nat)
    requires IdealList(rel, ideal) && i < |ideal|
    ensures Relevant(rel, ideal[i])
  {
    assert ideal[i] in ideal;
  }

  // ----- Rankings with duplicates -----

  /** No grading lets the ranking gain more than the grading's ideal. */
  ghost predicate NeverExceeds(disc: nat -> real, run: seq<nat>, k: nat) {
    forall rel: Judgments, ideal: seq<nat> :: IdealList(rel, ideal) ==>
      Dcg(rel, disc, run, Min(k, |run|)) <= IdealDcg(rel, disc, ideal, k)
  }

  /** The documents all of grade 1, and an ideal list of them. */
  lemma {:induction false} AllRelevantOnce(docs: set<nat>) returns (rel: Judgments, ideal: seq<nat>)
    ensures IdealList(rel, ideal) && |ideal| == |docs|
    ensures forall d :: d in docs ==> Gain(rel, d) == 1.0
    ensures forall d :: Grade(rel, d) == if d in docs then 1 else 0
  {
    rel, ideal := map d | d in docs :: 1, [];
    var left := docs;
    while left != {}
      invariant left <= docs && |ideal| + |left| == |docs| && Distinct(ideal)
      invariant forall d :: d in ideal <==> d in docs && d !in left
      decreases |left|
    {
      var d :| d in left;
      left, ideal := left - {d}, ideal + [d];
    }
    assert Pow2(1) == 2;
  }

  lemma {:induction false} RepeatedShrinks(a: seq<nat>)
    requires !Distinct(a)
    ensures |ElementsOf(a)| < |a|
  {
    var i, j :| 0 <= i < j < |a| && a[i] == a[j];
    var b := a[..j] + a[j + 1..];
    assert b[i] == a[i];
    forall x ensures x in a <==> x in b {
      if x in a {
        var t :| 0 <= t < |a| && a[t] == x;
        assert if t < j then b[t] == x else if t > j then b[t - 1] == x else b[i] == x;
      }
    }
    assert ElementsOf(a) == ElementsOf(b);
  }

  /** A cut-off ranking never exceeds the ideal, whatever the grading, if and only if it lists no document twice. */
  lemma {:induction false} NeverExceedsIffDistinct(disc: nat -> real, run: seq<nat>, k: nat)
    requires Discount(disc)
    ensures NeverExceeds(disc, run, k) <==> Distinct(run[..Min(k, |run|)])
  {
    hide IdealList, Discount, Gain, Dcg;
    var n := Min(k, |run|);
    var head := run[..n];
    if Distinct(head) {
      forall rel: Judgments, ideal: seq<nat> | IdealList(rel, ideal)
        ensures Dcg(rel, disc, run, n) <= IdealDcg(rel, disc, ideal, k)
      {
        DistinctHeadIsBelow(rel, disc, ideal, run, k);
      }
    } else {
      var rel, ideal := DuplicateExceeds(disc, run, k);
    }
  }

  lemma {:induction false} DistinctHeadIsBelow(rel: Judgments, disc: nat -> real, ideal: seq<nat>, run: seq<nat>, k: nat)
    requires IdealList(rel, ideal) && Discount(disc) && Distinct(run[..Min(k, |run|)])
    ensures Dcg(rel, disc, run, Min(k, |run|)) <= IdealDcg(rel, disc, ideal, k)
  {
    hide IdealList, Discount, Gain;
    var n := Min(k, |run|);
    var head := run[..n];
    NoRankingBeatsIdeal(rel, disc, ideal, head, k);
    assert Min(k, |head|) == n;
    SumEqual(n, Discounted(disc, GainAt(rel, run)), Discounted(disc, GainAt(rel, head)));
  }

  /** Give every document of a prefix with duplicates grade 1: more positions gain than there are documents. */
  lemma {:induction false} DuplicateExceeds(disc: nat -> real, run: seq<nat>, k: nat) returns (rel: Judgments, ideal: seq<nat>)
    requires Discount(disc) && !Distinct(run[..Min(k, |run|)])
    ensures IdealList(rel, ideal) && Dcg(rel, disc, run, Min(k, |run|)) > IdealDcg(rel, disc, ideal, k)
  {
    hide IdealList, Gain, Grade, Distinct, Discount;
    var n := Min(k, |run|);
    var head := run[..n];
    RepeatedShrinks(head);
    rel, ideal := AllRelevantOnce(ElementsOf(head));
    var x, y := GainAt(rel, run), GainAt(rel, ideal);
    var m := Min(k, |ideal|);
    forall i | 0 <= i < n ensures x(i) == 1.0 { assert head[i] in head; }
    forall i | 0 <= i < m ensures y(i) == 1.0 { OnlyGradedOnes(rel, ideal, ElementsOf(head), i); }
    MoreOnes(disc, x, y, m, n);
  }

  lemma {:induction false} MoreOnes(disc: nat -> real, x: int -> real, y: int -> real, m: nat, n: nat)
    requires Discount(disc) && m < n
    requires (forall i :: 0 <= i < n ==> x(i) == 1.0) && forall i :: 0 <= i < m ==> y(i) == 1.0
    ensures Sum(m, Discounted(disc, y)) < Sum(n, Discounted(disc, x))
  {
    SumEqual(m, Discounted(disc, x), Discounted(disc, y));
    forall i | 0 <= i < n ensures Discounted(disc, x)(i) > 0.0 {
      assert disc(i) * 1.0 == disc(i);
    }
    SumMono(m, n - 1, Discounted(disc, x));
  }

  lemma {:induction false} OnlyGradedOnes(rel: Judgments, ideal: seq<nat>, docs: set<nat>, i: nat)
    requires IdealList(rel, ideal) && i < |ideal|
    requires forall d :: Grade(rel, d) == if d in docs then 1 else 0
    ensures ideal[i] in docs
  {
    IdealIsRelevant(rel, ideal, i);
  }

  // ----- The loops -----

  /** The relevant documents, best grade first: a pass over the judgments, then a sort. */
  method SortRelevant(rel: Judgments) returns (list: seq<nat>)
    ensures IdealList(rel, list)
  {
    var left := rel.Keys;
    var hits: seq<Hit> := [];
    while left != {}
      invariant left <= rel.Keys && DistinctDocs(hits)
      invariant forall i :: 0 <= i < |hits| ==> hits[i].doc in rel && hits[i].doc !in left
      invariant forall i :: 0 <= i < |hits| ==> Relevant(rel, hits[i].doc) && hits[i].score == Grade(rel, hits[i].doc) as real
      invariant forall d :: d in rel && d !in left && rel[d] > 0 ==> Listed(hits, d)
      decreases |left|
    {
      var d :| d in left;
      left := left - {d};
      if rel[d] > 0 {
        ghost var before := hits;
        hits := hits + [Hit(d, rel[d] as real)];
        assert hits[|before|].doc == d;
        forall e | Listed(before, e) ensures Listed(hits, e) {
          var i :| 0 <= i < |before| && before[i].doc == e;
          assert hits[i].doc == e;
        }
      }
    }
    var sorted := SortHits(hits);
    list := seq(|sorted|, i requires 0 <= i < |sorted| => sorted[i].doc);
    SortedIsIdeal(rel, hits, sorted, list);
  }

  lemma {:induction false} SortedIsIdeal(rel: Judgments, hits: seq<Hit>, sorted: seq<Hit>, list: seq<nat>)
    requires Descending(sorted) && DistinctDocs(sorted) && forall h :: h in sorted <==> h in hits
    requires forall i :: 0 <= i < |hits| ==> Relevant(rel, hits[i].doc) && hits[i].score == Grade(rel, hits[i].doc) as real
    requires forall d :: d in rel && rel[d] > 0 ==> Listed(hits, d)
    requires |list| == |sorted| && forall i :: 0 <= i < |list| ==> list[i] == sorted[i].doc
    ensures IdealList(rel, list)
  {
    forall i | 0 <= i < |sorted| ensures Relevant(rel, list[i]) && sorted[i].score == Grade(rel, list[i]) as real {
      assert sorted[i] in hits;
    }
    forall d ensures d in list <==> d in RelevantSet(rel) {
      if d in RelevantSet(rel) {
        var i :| 0 <= i < |hits| && hits[i].doc == d;
        assert hits[i] in sorted;
        var j :| 0 <= j < |sorted| && sorted[j] == hits[i];
        assert list[j] == d;
      }
    }
    forall i, j | 0 <= i < j < |list| ensures Grade(rel, list[i]) >= Grade(rel, list[j]) {
      assert sorted[i].score >= sorted[j].score;
    }
  }

  method CumulativeGain(rel: Judgments, disc: nat -> real, list: seq<nat>, n: nat) returns (g: real)
    requires n <= |list|
    ensures g == Dcg(rel, disc, list, n)
  {
    hide Gain;
    g := 0.0;
    for i := 0 to n
      invariant g == Dcg(rel, disc, list, i)
    {
      GainOfIrrelevant(rel, list[i]);
      if Relevant(rel, list[i]) {
        var x := disc(i) * Gain(rel, list[i]);
        g := g + x;
      } else {
        assert disc(i) * 0.0 == 0.0;
      }
    }
  }

  lemma {:induction false} GainOfIrrelevant(rel: Judgments, d: nat)
    ensures !Relevant(rel, d) ==> Gain(rel, d) == 0.0
  {}

  lemma {:induction false} DcgNonNegative(rel: Judgments, disc: nat -> real, list: seq<nat>, n: nat)
    requires Discount(disc)
    ensures Dcg(rel, disc, list, n) >= 0.0
  {
    GainsNonNegative(rel, list);
    DiscountedNonNegative(disc, GainAt(rel, list));
    SumNonNegative(n, Discounted(disc, GainAt(rel, list)));
  }

  function Ratio(x: real, y: real): (r: real)
    requires y > 0.0
    ensures r * y == x && (r == 1.0 <==> x == y)
    ensures x >= 0.0 ==> r >= 0.0
    ensures 0.0 <= x <= y ==> 0.0 <= r <= 1.0
  {
    x / y
  }

  /** The ranking's only relevant document stands at position i, and nowhere else. */
  ghost predicate OnlyRelevantAt(rel: Judgments, run: seq<nat>, i: nat) {
    i < |run| && RelevantSet(rel) == {run[i]} && forall j :: 0 <= j < |run| && j != i ==> run[j] != run[i]
  }

  lemma {:induction false} OneTerm(n: nat, f: int -> real, i: nat)
    requires i < n && forall j :: 0 <= j < n && j != i ==> f(j) == 0.0
    ensures Sum(n, f) == f(i)
  {
    hide Sum;
    var zero := (j: int) => 0.0;
    SumZero(n, zero);
    SumChangeOne(n, zero, f, i);
  }

  /** A single relevant document at position i is worth its discount there, and ideally the first one. */
  lemma {:induction false} SingleRelevant(rel: Judgments, disc: nat -> real, ideal: seq<nat>, run: seq<nat>, n: nat, i: nat)
    requires IdealList(rel, ideal) && OnlyRelevantAt(rel, run, i) && i < n <= |run|
    ensures |ideal| == 1 && Dcg(rel, disc, run, n) == disc(i) * Gain(rel, run[i]) && Dcg(rel, disc, ideal, 1) == disc(0) * Gain(rel, run[i])
  {
    hide Sum, Gain;
    assert run[i] in RelevantSet(rel) && run[i] in ideal;
    forall j | 0 <= j < |ideal| ensures ideal[j] == run[i] { assert ideal[j] in ideal && ideal[j] in RelevantSet(rel); }
    DistinctSize(ideal);
    assert ElementsOf(ideal) == {run[i]};
    forall j | 0 <= j < n && j != i ensures Discounted(disc, GainAt(rel, run))(j) == 0.0 {
      assert run[j] !in RelevantSet(rel);
      GainOfIrrelevant(rel, run[j]);
    }
    OneTerm(n, Discounted(disc, GainAt(rel, run)), i);
    OneTerm(1, Discounted(disc, GainAt(rel, ideal)), 0);
  }

  ghost predicate IsQuotient(r: real, x: real, y: real) { r * y == x }

  /** r is the fraction part / whole. */
  ghost predicate IsShare(r: real, part: nat, whole: nat) { r * whole as real == part as real }

  lemma {:induction false} RatioIsShare(r: real, part: nat, whole: nat)
    requires whole > 0 ==> r == Ratio(part as real, whole as real)
    requires whole == 0 ==> part == 0
    ensures IsShare(r, part, whole)
  {}

  /** nDCG at k; grades are below 32 so that the gain fits an unsigned word. */
  method NdcgAtK(run: seq<nat>, rel: Judgments, k: nat, disc: nat -> real) returns (r: real, ghost ideal: seq<nat>)
    requires Discount(disc) && forall d :: d in rel ==> rel[d] < 32
    ensures IdealList(rel, ideal)
    ensures IdealDcg(rel, disc, ideal, k) > 0.0 ==> r == Ratio(Dcg(rel, disc, run, Min(k, |run|)), IdealDcg(rel, disc, ideal, k))
    ensures IdealDcg(rel, disc, ideal, k) > 0.0 <==> k > 0 && RelevantSet(rel) != {}
    ensures !(k > 0 && RelevantSet(rel) != {}) ==> r == 0.0
    ensures r >= 0.0 && (Distinct(run[..Min(k, |run|)]) ==> r <= 1.0)
    ensures k > 0 && RelevantSet(rel) != {} && InIdealOrder(rel, ideal, run, k) ==> r == 1.0
    ensures Distinct(run[..Min(k, |run|)]) && StrictDiscount(disc) && r == 1.0 ==> InIdealOrder(rel, ideal, run, k)
    ensures forall i :: 0 <= i < Min(k, |run|) && OnlyRelevantAt(rel, run, i) ==> IsQuotient(r, disc(i), disc(0))
  {
    hide IdealList, Dcg, Discount, Ratio, RelevantSet, InIdealOrder, StrictDiscount, OnlyRelevantAt, Gain, IsQuotient;
    var dcg := CumulativeGain(rel, disc, run, Min(k, |run|));
    var list := SortRelevant(rel);
    ideal := list;
    var idcg := CumulativeGain(rel, disc, list, Min(k, |list|));
    IdealIsPositive(rel, disc, list, k);
    r := if idcg > 0.0 then Ratio(dcg, idcg) else 0.0;
    DcgNonNegative(rel, disc, run, Min(k, |run|));
    if Distinct(run[..Min(k, |run|)]) {
      DistinctHeadIsBelow(rel, disc, list, run, k);
      if StrictDiscount(disc) && dcg == idcg { OnlyIdealOrderIsIdeal(rel, disc, list, run, k); }
    }
    if InIdealOrder(rel, list, run, k) { IdealRankingIsIdeal(rel, disc, list, run, k); }
    forall i | 0 <= i < Min(k, |run|) && OnlyRelevantAt(rel, run, i) ensures IsQuotient(r, disc(i), disc(0)) {
      SingleRelevant(rel, disc, list, run, Min(k, |run|), i);
      GainIsPositive(rel, run, i);
      SameGain(r, dcg, idcg, disc(i), disc(0), Gain(rel, run[i]));
    }
  }

  lemma {:induction false} GainIsPositive(rel: Judgments, run: seq<nat>, i: nat)
    requires OnlyRelevantAt(rel, run, i)
    ensures Gain(rel, run[i]) > 0.0 && RelevantSet(rel) != {}
  {
    assert run[i] in RelevantSet(rel);
    GainFollowsGrade(rel, run[i], run[i]);
  }

  lemma {:induction false} SameGain(r: real, x: real, y: real, c: real, d: real, g: real)
    requires g > 0.0 && x == c * g && y == d * g && r * y == x
    ensures IsQuotient(r, c, d)
  {
    assert (r * d) * g == c * g;
  }

  lemma {:induction false} IdealIsPositive(rel: Judgments, disc: nat -> real, list: seq<nat>, k: nat)
    requires IdealList(rel, list) && Discount(disc)
    ensures IdealDcg(rel, disc, list, k) >= 0.0
    ensures IdealDcg(rel, disc, list, k) > 0.0 <==> k > 0 && RelevantSet(rel) != {}
  {
    hide Gain;
    var n, x := Min(k, |list|), Discounted(disc, GainAt(rel, list));
    GainsNonNegative(rel, list);
    DiscountedNonNegative(disc, GainAt(rel, list));
    SumNonNegative(n, x);
    if n > 0 {
      assert list[0] in list && list[0] in RelevantSet(rel);
      GainFollowsGrade(rel, list[0], list[0]);
      ProductPositive(disc(0), Gain(rel, list[0]));
      assert Sum(1, x) == x(0);
      SumMono(1, n, x);
    } else if |list| == 0 {
      forall d ensures d !in RelevantSet(rel) { assert d !in list; }
    }
  }

  // ----- Recall and average precision -----

  /** Number of relevant positions among the first n of a ranking. */
  ghost function Hits(rel: Judgments, run: seq<nat>, n: nat): (h: nat)
    requires n <= |run|
    ensures h <= n
  {
    if n == 0 then 0 else Hits(rel, run, n - 1) + if Relevant(rel, run[n - 1]) then 1 else 0
  }

  /** Relevant documents among the first n of a ranking. */
  ghost function FoundIn(rel: Judgments, run: seq<nat>, n: nat): set<nat>
    requires n <= |run|
  {
    set d | d in ElementsOf(run[..n]) && Relevant(rel, d)
  }

  /** Without duplicates every relevant position is another relevant document. */
  lemma {:induction false} HitsAreFound(rel: Judgments, run: seq<nat>, n: nat)
    requires Distinct(run) && n <= |run|
    ensures |FoundIn(rel, run, n)| == Hits(rel, run, n) <= |RelevantSet(rel)|
  {
    hide Relevant, RelevantSet, ElementsOf, Distinct;
    if n == 0 {
      assert FoundIn(rel, run, 0) == {};
    } else {
      hide FoundIn;
      HitsAreFound(rel, run, n - 1);
      FoundNext(rel, run, n - 1);
    }
    FoundAreRelevant(rel, run, n);
    SubsetSize(FoundIn(rel, run, n), RelevantSet(rel));
  }

  lemma {:induction false} FoundAreRelevant(rel: Judgments, run: seq<nat>, n: nat)
    requires n <= |run|
    ensures FoundIn(rel, run, n) <= RelevantSet(rel)
  {}

  lemma {:induction false} FoundNext(rel: Judgments, run: seq<nat>, n: nat)
    requires Distinct(run) && n < |run|
    ensures run[n] !in FoundIn(rel, run, n)
    ensures FoundIn(rel, run, n + 1) == FoundIn(rel, run, n) + if Relevant(rel, run[n]) then {run[n]} else {}
  {
    hide Relevant;
    forall d ensures d in run[..n + 1] <==> d in run[..n] || d == run[n] { TakenByMore(run, n, d); }
  }

  /** All relevant documents are found exactly when every one is among the first n. */
  lemma {:induction false} AllFound(rel: Judgments, run: seq<nat>, n: nat)
    requires Distinct(run) && n <= |run|
    ensures Hits(rel, run, n) == |RelevantSet(rel)| <==> RelevantSet(rel) <= ElementsOf(run[..n])
  {
    var a, b := FoundIn(rel, run, n), RelevantSet(rel);
    HitsAreFound(rel, run, n);
    assert a <= b;
    SubsetSize(a, b);
    assert b <= ElementsOf(run[..n]) ==> a == b;
  }

  method CountRelevant(rel: Judgments) returns (total: nat)
    ensures total == |RelevantSet(rel)|
  {
    var list := SortRelevant(rel);
    DistinctSize(list);
    assert ElementsOf(list) == RelevantSet(rel);
    total := |list|;
  }

  method CountHits(rel: Judgments, run: seq<nat>, n: nat) returns (found: nat)
    requires n <= |run|
    ensures found == Hits(rel, run, n)
  {
    found := 0;
    for i := 0 to n
      invariant found == Hits(rel, run, i)
    {
      if Relevant(rel, run[i]) { found := found + 1; }
    }
  }

  /** Recall at k: the share of the relevant documents among the first k; 1 exactly when all of them are there. */
  method RecallAtK(run: seq<nat>, rel: Judgments, k: nat) returns (r: real)
    ensures RelevantSet(rel) == {} ==> r == 0.0
    ensures RelevantSet(rel) != {} ==> r == Ratio(Hits(rel, run, Min(k, |run|)) as real, |RelevantSet(rel)| as real)
    ensures Distinct(run) ==> 0.0 <= r <= 1.0
    ensures Distinct(run) ==> IsShare(r, CommonCount(rel, run, Min(k, |run|)), |RelevantSet(rel)|)
    ensures Distinct(run) && RelevantSet(rel) != {} ==>
      (r == 1.0 <==> RelevantSet(rel) <= ElementsOf(run[..Min(k, |run|)]))
  {
    hide RelevantSet, Hits, Ratio, FoundIn, Distinct, CommonCount, IsShare;
    var total := CountRelevant(rel);
    if total == 0 {
      if Distinct(run) { RecallCounts(rel, run, Min(k, |run|), 0.0); }
      return 0.0;
    }
    var found := CountHits(rel, run, Min(k, |run|));
    r := Ratio(found as real, total as real);
    if Distinct(run) {
      HitsAreFound(rel, run, Min(k, |run|));
      AllFound(rel, run, Min(k, |run|));
      RecallCounts(rel, run, Min(k, |run|), r);
    }
  }

  /** How many of the relevant documents are among the first n of a ranking. */
  ghost function CommonCount(rel: Judgments, run: seq<nat>, n: nat): nat
    requires n <= |run|
  {
    |RelevantSet(rel) * ElementsOf(run[..n])|
  }

  lemma {:induction false} RecallCounts(rel: Judgments, run: seq<nat>, n: nat, r: real)
    requires Distinct(run) && n <= |run|
    requires RelevantSet(rel) != {} ==> r == Ratio(Hits(rel, run, n) as real, |RelevantSet(rel)| as real)
    ensures IsShare(r, CommonCount(rel, run, n), |RelevantSet(rel)|)
  {
    hide Hits, Ratio, IsShare, RelevantSet, FoundIn, Distinct;
    HitsAreFound(rel, run, n);
    FoundIsCommon(rel, run, n);
    RatioIsShare(r, CommonCount(rel, run, n), |RelevantSet(rel)|);
  }

  lemma {:induction false} FoundIsCommon(rel: Judgments, run: seq<nat>, n: nat)
    requires n <= |run|
    ensures FoundIn(rel, run, n) == RelevantSet(rel) * ElementsOf(run[..n])
  {
    forall d ensures d in FoundIn(rel, run, n) <==> d in RelevantSet(rel) * ElementsOf(run[..n]) {}
  }

  /** Precision at every relevant position among the first n, added up. */
  ghost function PrecisionSum(rel: Judgments, run: seq<nat>, n: nat): real
    requires n <= |run|
  {
    if n == 0 then 0.0
    else
      PrecisionSum(rel, run, n - 1) + if Relevant(rel, run[n - 1]) then Ratio(Hits(rel, run, n) as real, n as real) else 0.0
  }

  lemma {:induction false} PrecisionAtMostHits(rel: Judgments, run: seq<nat>, n: nat)
    requires n <= |run|
    ensures 0.0 <= PrecisionSum(rel, run, n) <= Hits(rel, run, n) as real
  {
    if n > 0 {
      hide Ratio;
      PrecisionAtMostHits(rel, run, n - 1);
    }
  }

  /** Every one of the first n positions is relevant. */
  ghost predicate AllRelevant(rel: Judgments, run: seq<nat>, n: nat) {
    n <= |run| && forall i :: 0 <= i < n ==> Relevant(rel, run[i])
  }

  lemma {:induction false} FullHits(rel: Judgments, run: seq<nat>, n: nat)
    requires n <= |run|
    ensures Hits(rel, run, n) == n <==> AllRelevant(rel, run, n)
  {
    hide Relevant;
    if n > 0 { FullHits(rel, run, n - 1); }
  }

  lemma {:induction false} PerfectPrecision(rel: Judgments, run: seq<nat>, n: nat)
    requires n <= |run|
    ensures PrecisionSum(rel, run, n) == Hits(rel, run, n) as real <==> AllRelevant(rel, run, Hits(rel, run, n))
  {
    if n > 0 {
      hide Relevant, Ratio, AllRelevant;
      var h := Hits(rel, run, n);
      PerfectPrecision(rel, run, n - 1);
      PrecisionAtMostHits(rel, run, n - 1);
      FullHits(rel, run, n);
      FullHits(rel, run, n - 1);
      FullHits(rel, run, h);
      HitsGrow(rel, run, h, n);
    }
  }

  lemma {:induction false} HitsGrow(rel: Judgments, run: seq<nat>, m: nat, n: nat)
    requires m <= n <= |run|
    ensures Hits(rel, run, m) <= Hits(rel, run, n)
    ensures m < n && Relevant(rel, run[n - 1]) ==> Hits(rel, run, m) < Hits(rel, run, n)
  {
    if m < n { HitsGrow(rel, run, m, n - 1); }
  }

  /** Average precision: within [0, 1], and 1 exactly when the relevant documents fill the first places. */
  method AveragePrecision(run: seq<nat>, rel: Judgments) returns (r: real)
    ensures RelevantSet(rel) == {} ==> r == 0.0
    ensures RelevantSet(rel) != {} ==> r == Ratio(PrecisionSum(rel, run, |run|), |RelevantSet(rel)| as real)
    ensures Distinct(run) ==> 0.0 <= r <= 1.0
    ensures Distinct(run) && RelevantSet(rel) != {} ==> (r == 1.0 <==> AllRelevant(rel, run, |RelevantSet(rel)|))
    ensures forall i :: 0 <= i < |run| && OnlyRelevantAt(rel, run, i) ==> IsShare(r, 1, i + 1)
  {
    hide RelevantSet, AllRelevant, Ratio, Relevant, FoundIn, Distinct, OnlyRelevantAt, IsShare;
    var total := CountRelevant(rel);
    if total == 0 {
      forall i | 0 <= i < |run| ensures !OnlyRelevantAt(rel, run, i) { NoneRelevant(rel, run, i); }
      return 0.0;
    }
    var sum, hits := 0.0, 0;
    for i := 0 to |run|
      invariant hits == Hits(rel, run, i) && sum == PrecisionSum(rel, run, i)
    {
      if Relevant(rel, run[i]) {
        hits := hits + 1;
        sum := sum + Ratio(hits as real, (i + 1) as real);
      }
    }
    r := Ratio(sum, total as real);
    if Distinct(run) {
      HitsAreFound(rel, run, |run|);
      PrecisionAtMostHits(rel, run, |run|);
      PerfectPrecision(rel, run, |run|);
      OneMeansFirst(rel, run, total);
    }
    forall i | 0 <= i < |run| && OnlyRelevantAt(rel, run, i) ensures IsShare(r, 1, i + 1) {
      SingleAverage(rel, run, i, r);
    }
  }

  lemma {:induction false} NoneRelevant(rel: Judgments, run: seq<nat>, i: nat)
    requires RelevantSet(rel) == {}
    ensures !OnlyRelevantAt(rel, run, i)
  {}

  lemma {:induction false} SingleAverage(rel: Judgments, run: seq<nat>, i: nat, r: real)
    requires OnlyRelevantAt(rel, run, i)
    requires RelevantSet(rel) != {} ==> r == Ratio(PrecisionSum(rel, run, |run|), |RelevantSet(rel)| as real)
    ensures IsShare(r, 1, i + 1)
  {
    hide PrecisionSum, Hits, IsShare;
    SinglePrecision(rel, run, i, |run|);
    RatioIsShare(r, 1, i + 1);
  }

  /** One relevant document at position i has precision 1 / (i + 1) there, and nothing else counts. */
  lemma {:induction false} SinglePrecision(rel: Judgments, run: seq<nat>, i: nat, n: nat)
    requires OnlyRelevantAt(rel, run, i) && n <= |run|
    ensures |RelevantSet(rel)| == 1 && Hits(rel, run, n) == (if i < n then 1 else 0)
    ensures PrecisionSum(rel, run, n) == if i < n then Ratio(1.0, (i + 1) as real) else 0.0
  {
    hide Ratio;
    if n > 0 {
      SinglePrecision(rel, run, i, n - 1);
      assert Relevant(rel, run[n - 1]) <==> run[n - 1] in RelevantSet(rel);
    }
  }

  lemma {:induction false} OneMeansFirst(rel: Judgments, run: seq<nat>, total: nat)
    requires Distinct(run) && total == |RelevantSet(rel)|
    ensures AllRelevant(rel, run, total) ==> Hits(rel, run, |run|) == total
  {
    hide RelevantSet, Relevant;
    HitsAreFound(rel, run, |run|);
    if total <= |run| {
      FullHits(rel, run, total);
      HitsGrow(rel, run, total, |run|);
    }
  }
}
