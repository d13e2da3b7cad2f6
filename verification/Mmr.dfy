/** Maximal Marginal Relevance with the running maximum cached per candidate. */
module Mmr {
  import opened Arithmetic
  import opened Sets
  import opened Greedy

  function Clamp01(x: real): (c: real)
    ensures 0.0 <= c <= 1.0 && (0.0 <= x <= 1.0 ==> c == x)
  {
    if x < 0.0 then 0.0 else if x > 1.0 then 1.0 else x
  }

  function Gap(x: real, y: real): real { if x < y then y - x else x - y }

  /** Clamping gives the nearest point of [0, 1]. */
  lemma {:induction false} ClampIsNearest(x: real, y: real)
    requires 0.0 <= y <= 1.0
    ensures Gap(x, Clamp01(x)) <= Gap(x, y)
  {}

  ghost function Lowest(s: seq<real>): real
    requires s != []
  {
    if |s| == 1 then s[0] else if s[|s| - 1] < Lowest(s[..|s| - 1]) then s[|s| - 1] else Lowest(s[..|s| - 1])
  }

  ghost function Highest(s: seq<real>): real
    requires s != []
  {
    if |s| == 1 then s[0] else if s[|s| - 1] > Highest(s[..|s| - 1]) then s[|s| - 1] else Highest(s[..|s| - 1])
  }

  lemma {:induction false} Attained(s: seq<real>) returns (lo: nat, hi: nat)
    requires s != []
    ensures lo < |s| && s[lo] == Lowest(s) && hi < |s| && s[hi] == Highest(s)
  {
    if |s| == 1 {
      lo, hi := 0, 0;
    } else {
      lo, hi := Attained(s[..|s| - 1]);
      if s[|s| - 1] == Lowest(s) { lo := |s| - 1; }
      if s[|s| - 1] == Highest(s) { hi := |s| - 1; }
    }
  }

  lemma {:induction false} Bracketed(s: seq<real>, i: nat)
    requires i < |s|
    ensures Lowest(s) <= s[i] <= Highest(s)
  {
    if |s| > 1 {
      if i < |s| - 1 { Bracketed(s[..|s| - 1], i); } else { Bracketed(s[..|s| - 1], 0); }
    }
  }

  /** The divisor of the normalisation; 1 for a (nearly) constant list. */
  function Span(lo: real, hi: real): real { if hi - lo > 0.000000001 then hi - lo else 1.0 }

  /**
   * The scores shifted so that the smallest, at lo, becomes 0, and scaled so that the largest, at hi, becomes 1 unless it
   * exceeds the smallest by at most 1e-9.
   */
  ghost predicate ScaledBetween(scores: seq<real>, rel: seq<real>, lo: nat, hi: nat) {
    && |rel| == |scores| && lo < |scores| && hi < |scores|
    && (forall i :: 0 <= i < |scores| ==> scores[lo] <= scores[i] <= scores[hi])
    && rel[lo] == 0.0 && (scores[hi] - scores[lo] > 0.000000001 ==> rel[hi] == 1.0)
    && forall i :: 0 <= i < |scores| ==>
         rel[i] * (if scores[hi] - scores[lo] > 0.000000001 then scores[hi] - scores[lo] else 1.0) == scores[i] - scores[lo]
  }

  ghost predicate MinMaxScaled(scores: seq<real>, rel: seq<real>) {
    if scores == [] then rel == [] else exists lo, hi :: ScaledBetween(scores, rel, lo, hi)
  }

  lemma {:induction false} FormulaScales(scores: seq<real>, rel: seq<real>)
    requires scores != [] && |rel| == |scores|
    requires forall i :: 0 <= i < |rel| ==> rel[i] == (scores[i] - Lowest(scores)) / Span(Lowest(scores), Highest(scores))
    ensures MinMaxScaled(scores, rel)
  {
    hide Lowest, Highest;
    var lo, hi := Attained(scores);
    var span := Span(scores[lo], scores[hi]);
    forall i | 0 <= i < |scores| ensures scores[lo] <= scores[i] <= scores[hi] && rel[i] * span == scores[i] - scores[lo] {
      Bracketed(scores, i);
      QuotientTimes(scores[i] - scores[lo], span);
    }
    ByItself(span);
    assert ScaledBetween(scores, rel, lo, hi);
  }

  lemma {:induction false} QuotientTimes(x: real, y: real)
    requires y > 0.0
    ensures x / y * y == x
  {}

  lemma {:induction false} ByItself(y: real)
    requires y > 0.0
    ensures y / y == 1.0 && 0.0 / y == 0.0
  {}

  /** Scores mapped onto [0, 1], order kept. */
  method Normalise(scores: seq<real>) returns (rel: seq<real>)
    requires scores != []
    ensures |rel| == |scores|
    ensures forall i :: 0 <= i < |rel| ==>
      0.0 <= rel[i] <= 1.0 && rel[i] == (scores[i] - Lowest(scores)) / Span(Lowest(scores), Highest(scores))
    ensures forall i, j :: 0 <= i < |rel| && 0 <= j < |rel| ==> (rel[i] < rel[j] <==> scores[i] < scores[j])
    ensures MinMaxScaled(scores, rel)
  {
    hide MinMaxScaled;
    var lo, hi := scores[0], scores[0];
    for i := 1 to |scores|
      invariant lo == Lowest(scores[..i]) && hi == Highest(scores[..i])
    {
      assert scores[..i + 1][..i] == scores[..i];
      if scores[i] < lo { lo := scores[i]; }
      if scores[i] > hi { hi := scores[i]; }
    }
    assert scores[..|scores|] == scores;
    var span := Span(lo, hi);
    rel := seq(|scores|, i requires 0 <= i < |scores| => (scores[i] - lo) / span);
    hide Lowest, Highest, Span;
    FormulaOrders(scores, rel);
    FormulaScales(scores, rel);
  }

  lemma {:induction false} FormulaOrders(scores: seq<real>, rel: seq<real>)
    requires scores != [] && |rel| == |scores|
    requires forall i :: 0 <= i < |rel| ==> rel[i] == (scores[i] - Lowest(scores)) / Span(Lowest(scores), Highest(scores))
    ensures forall i, j :: 0 <= i < |rel| && 0 <= j < |rel| ==> 0.0 <= rel[i] <= 1.0 && (rel[i] < rel[j] <==> scores[i] < scores[j])
  {
    hide Lowest, Highest;
    var lo, hi := Lowest(scores), Highest(scores);
    forall i, j | 0 <= i < |rel| && 0 <= j < |rel|
      ensures 0.0 <= rel[i] <= 1.0 && (rel[i] < rel[j] <==> scores[i] < scores[j])
    {
      Bracketed(scores, i);
      DivisionKeepsOrder(scores[i] - lo, scores[j] - lo, Span(lo, hi));
    }
  }

  lemma {:induction false} DivisionKeepsOrder(x: real, y: real, d: real)
    requires d > 0.0
    ensures x / d < y / d <==> x < y
    ensures x >= 0.0 ==> x / d >= 0.0
    ensures x <= d ==> x / d <= 1.0
  {
    assert x == x / d * d && y == y / d * d;
  }

  /** The textbook term: the largest similarity of candidate i to a chosen one, floored at 0, recomputed in full. */
  ghost function MaxSim(sim: (int, int) -> real, chosen: seq<nat>, i: int): real {
    if chosen == [] then 0.0
    else
      var rest := MaxSim(sim, chosen[..|chosen| - 1], i);
      var s := sim(i, chosen[|chosen| - 1]);
      if s > rest then s else rest
  }

  /** MaxSim is an upper bound over 0 and the chosen similarities, and one of them. */
  lemma {:induction false} MaxSimIsMaximum(sim: (int, int) -> real, chosen: seq<nat>, i: int)
    ensures MaxSim(sim, chosen, i) >= 0.0
    ensures forall t :: 0 <= t < |chosen| ==> sim(i, chosen[t]) <= MaxSim(sim, chosen, i)
    ensures MaxSim(sim, chosen, i) == 0.0 || exists t :: 0 <= t < |chosen| && sim(i, chosen[t]) == MaxSim(sim, chosen, i)
  {
    if chosen != [] {
      var r := chosen[..|chosen| - 1];
      MaxSimIsMaximum(sim, r, i);
      forall t | 0 <= t < |chosen| ensures sim(i, chosen[t]) <= MaxSim(sim, chosen, i) {
        if t < |r| { assert sim(i, r[t]) <= MaxSim(sim, r, i); }
      }
      if MaxSim(sim, chosen, i) == MaxSim(sim, r, i) && MaxSim(sim, r, i) != 0.0 {
        var t :| 0 <= t < |r| && sim(i, r[t]) == MaxSim(sim, r, i);
        assert sim(i, chosen[t]) == MaxSim(sim, chosen, i);
      } else if MaxSim(sim, chosen, i) != MaxSim(sim, r, i) {
        assert sim(i, chosen[|chosen| - 1]) == MaxSim(sim, chosen, i);
      }
    }
  }

  /** The textbook objective, as a function of what has been chosen. */
  ghost function MmrScore(balance: real, rel: seq<real>, sim: (int, int) -> real): seq<nat> -> int -> real {
    (chosen: seq<nat>) => (i: int) =>
      if 0 <= i < |rel| then balance * rel[i] - (1.0 - balance) * MaxSim(sim, chosen, i) else 0.0
  }

  /** One scan for the best remaining candidate, reading the cache. */
  method PickBest(rel: seq<real>, maxSim: array<real>, chosen: array<bool>, balance: real,
                  ghost taken: seq<nat>, ghost score: int -> real) returns (best: nat)
    requires maxSim.Length == chosen.Length == |rel|
    requires forall i: nat :: i < |rel| ==> (chosen[i] <==> i in taken)
    requires forall i: nat :: i < |rel| && i !in taken ==> score(i) == balance * rel[i] - (1.0 - balance) * maxSim[i]
    ensures FirstBest(|rel|, taken, score, best)
  {
    best := |rel|;
    var bestScore := FLOOR;
    for i := 0 to |rel|
      invariant best == |rel| ==> bestScore == FLOOR
      invariant best != |rel| ==> best < i && best !in taken && bestScore == score(best) > FLOOR
      invariant forall j: nat :: j < i && j !in taken ==> score(j) <= bestScore
      invariant best != |rel| ==> forall j: nat :: j < best && j !in taken ==> score(j) < bestScore
    {
      if chosen[i] { continue; }
      var s := balance * rel[i] - (1.0 - balance) * maxSim[i];
      if s > bestScore { bestScore, best := s, i; }
    }
  }

  /** Fold the newly chosen document into the running maximum of every remaining candidate. */
  method FoldIn(maxSim: array<real>, chosen: array<bool>, sim: (int, int) -> real, best: nat, ghost order: seq<nat>)
    requires maxSim.Length == chosen.Length
    requires forall i: nat :: i < chosen.Length ==> (chosen[i] <==> i in order + [best])
    requires forall i: nat :: i < maxSim.Length && i !in order ==> maxSim[i] == MaxSim(sim, order, i)
    modifies maxSim
    ensures forall i: nat :: i < maxSim.Length && i !in order + [best] ==> maxSim[i] == MaxSim(sim, order + [best], i)
  {
    assert (order + [best])[..|order|] == order;
    for i := 0 to maxSim.Length
      invariant forall j: nat :: j < maxSim.Length && j !in order + [best] ==>
        maxSim[j] == MaxSim(sim, if j < i then order + [best] else order, j)
    {
      if !chosen[i] {
        var s := sim(i, best);
        maxSim[i] := if s > maxSim[i] then s else maxSim[i];
      }
    }
  }

  /** The cached loop: it selects exactly what the textbook recomputation selects. */
  method MmrSelect(rel: seq<real>, sim: (int, int) -> real, balance: real, k: nat) returns (order: seq<nat>)
    ensures GreedyRun(|rel|, k, MmrScore(balance, rel, sim), order)
  {
    hide FirstBest, MaxSim;
    var n := |rel|;
    var chosen := new bool[n](_ => false);
    var maxSim := new real[n](_ => 0.0);
    order := [];
    ghost var score := MmrScore(balance, rel, sim);
    StartOfRun(sim);
    for step := 0 to k
      invariant fresh(chosen) && fresh(maxSim) && chosen.Length == n == maxSim.Length
      invariant |order| == step && PartialRun(n, score, order)
      invariant forall i: nat :: i < n ==> (chosen[i] <==> i in order)
      invariant forall i: nat :: i < n && i !in order ==> maxSim[i] == MaxSim(sim, order, i)
    {
      var best := PickBest(rel, maxSim, chosen, balance, order, score(order));
      BestInRange(n, order, score(order), best);
      if best == n { break; }
      ExtendRun(n, score, order, best);
      chosen[best] := true;
      FoldIn(maxSim, chosen, sim, best, order);
      order := order + [best];
    }
  }

  lemma {:induction false} StartOfRun(sim: (int, int) -> real)
    ensures forall i :: MaxSim(sim, [], i) == 0.0
  {}

  /** With similarities below 1e30 no score falls to the floor: the scan finds a candidate while one is left. */
  lemma {:induction false} SomethingLeft(rel: seq<real>, sim: (int, int) -> real, balance: real, order: seq<nat>) returns (d: nat)
    requires SimilaritiesBelow(sim, 1000000000000000000000000000000.0) && 0.0 <= balance <= 1.0
    requires (forall i :: 0 <= i < |rel| ==> 0.0 <= rel[i] <= 1.0) && |order| < |rel|
    ensures d < |rel| && d !in order && MmrScore(balance, rel, sim)(order)(d) > FLOOR
  {
    d := Unpicked(order, |rel|);
    MaxSimIsMaximum(sim, order, d);
    hide MaxSim;
    var y := MaxSim(sim, order, d);
    if y != 0.0 { var t :| 0 <= t < |order| && sim(d, order[t]) == y; }
    MixAtLeast(balance, 1.0 - balance, rel[d], y, MmrScore(balance, rel, sim)(order)(d));
  }

  lemma {:induction false} MixAtLeast(b: real, c: real, x: real, y: real, score: real)
    requires b >= 0.0 && c <= 1.0 && x >= 0.0 && y >= 0.0 && score == b * x - c * y
    ensures score >= -y
  {
    ProductNonNegative(b, x);
    TimesMono(y, c, 1.0);
  }

  ghost predicate SimilaritiesBelow(sim: (int, int) -> real, bound: real) { forall i, j :: sim(i, j) < bound }

  // ----- What the balance does -----

  /** Picks in descending order of score, nobody left out scoring higher. */
  ghost predicate MostRelevantFirst(scores: seq<real>, order: seq<nat>) {
    Below(order, |scores|) &&
    forall t, d: nat :: 0 <= t < |order| && d < |scores| && d !in order[..t] ==> scores[d] <= scores[order[t]]
  }

  /** Every pick is as little similar to those before it as any candidate then left. */
  ghost predicate LeastSimilarFirst(sim: (int, int) -> real, n: nat, order: seq<nat>) {
    Below(order, n) &&
    forall t, d: nat :: 0 <= t < |order| && d < n && d !in order[..t] ==> MaxSim(sim, order[..t], order[t]) <= MaxSim(sim, order[..t], d)
  }

  /** At 1 the balance ranks by score alone, at 0 by dissimilarity alone. */
  lemma {:induction false} BalanceEnds(scores: seq<real>, rel: seq<real>, sim: (int, int) -> real, balance: real, order: seq<nat>)
    requires |rel| == |scores| && PartialRun(|rel|, MmrScore(balance, rel, sim), order)
    requires forall i, j :: 0 <= i < |rel| && 0 <= j < |rel| ==> (rel[i] < rel[j] <==> scores[i] < scores[j])
    ensures balance == 1.0 ==> MostRelevantFirst(scores, order)
    ensures balance == 0.0 ==> LeastSimilarFirst(sim, |scores|, order)
  {
    hide MaxSim;
    forall t, d: nat | 0 <= t < |order| && d < |scores| && d !in order[..t]
      ensures balance == 1.0 ==> scores[d] <= scores[order[t]]
      ensures balance == 0.0 ==> MaxSim(sim, order[..t], order[t]) <= MaxSim(sim, order[..t], d)
    {
      var score := MmrScore(balance, rel, sim)(order[..t]);
      assert FirstBest(|rel|, order[..t], score, order[t]);
      assert score(d) <= score(order[t]);
    }
  }

  /** While balance is between the two, a more relevant and less similar candidate is never passed over. */
  lemma {:induction false} NeverDominated(rel: seq<real>, sim: (int, int) -> real, balance: real, order: seq<nat>, t: nat, d: nat)
    requires 0.0 <= balance <= 1.0 && PartialRun(|rel|, MmrScore(balance, rel, sim), order)
    requires t < |order| && d < |rel| && d !in order[..t]
    ensures Below(order, |rel|)
    ensures !(rel[d] > rel[order[t]] && MaxSim(sim, order[..t], d) < MaxSim(sim, order[..t], order[t]))
  {
    hide MaxSim;
    var score := MmrScore(balance, rel, sim)(order[..t]);
    assert FirstBest(|rel|, order[..t], score, order[t]);
    assert score(d) <= score(order[t]);
    var x, y := MaxSim(sim, order[..t], order[t]), MaxSim(sim, order[..t], d);
    if rel[d] > rel[order[t]] && y < x { Dominates(balance, 1.0 - balance, rel[d], rel[order[t]], y, x); }
  }

  lemma {:induction false} Dominates(b: real, c: real, r: real, q: real, y: real, x: real)
    requires b >= 0.0 && c >= 0.0 && b + c > 0.0 && r > q && y < x
    ensures b * r - c * y > b * q - c * x
  {
    MoreTimes(b, q, r);
    MoreTimes(c, y, x);
  }

  lemma {:induction false} MoreTimes(c: real, x: real, y: real)
    requires c >= 0.0 && x < y
    ensures c * x <= c * y && (c > 0.0 ==> c * x < c * y)
  {
    TimesMono(c, x, y);
    if c > 0.0 { ProductPositive(c, y - x); }
  }

  /**
   * The whole call: `balance` (the source calls it lambda) clamped, normalised relevance, k capped at the number of
   * candidates (0 means all).
   */
  method Rerank(scores: seq<real>, sim: (int, int) -> real, balance: real, k: nat)
    returns (order: seq<nat>, rel: seq<real>)
    ensures |rel| == |scores|
    ensures forall i :: 0 <= i < |rel| ==>
      rel[i] == (scores[i] - Lowest(scores)) / Span(Lowest(scores), Highest(scores))
    ensures MinMaxScaled(scores, rel)
    ensures GreedyRun(|scores|, Capped(k, |scores|), MmrScore(Clamp01(balance), rel, sim), order)
    ensures SimilaritiesBelow(sim, 1000000000000000000000000000000.0) ==> |order| == if 1 <= k <= |scores| then k else |scores|
    ensures balance >= 1.0 ==> MostRelevantFirst(scores, order)
    ensures balance <= 0.0 ==> LeastSimilarFirst(sim, |scores|, order)
  {
    hide MinMaxScaled, MostRelevantFirst, LeastSimilarFirst, MmrScore, FirstBest;
    order, rel := [], [];
    if scores == [] {
      NothingRanked(sim, Clamp01(balance), k);
      return;
    }
    rel := Normalise(scores);
    order := MmrSelect(rel, sim, Clamp01(balance), Capped(k, |scores|));
    BalanceEnds(scores, rel, sim, Clamp01(balance), order);
    if SimilaritiesBelow(sim, 1000000000000000000000000000000.0) && |order| < Capped(k, |scores|) {
      var d := SomethingLeft(rel, sim, Clamp01(balance), order);
      PickLeft(|scores|, order, MmrScore(Clamp01(balance), rel, sim)(order), d);
      assert false;
    }
  }

  lemma {:induction false} PickLeft(n: nat, taken: seq<nat>, score: int -> real, d: nat)
    requires d < n && d !in taken && score(d) > FLOOR
    ensures !FirstBest(n, taken, score, n)
  {}

  lemma {:induction false} NothingRanked(sim: (int, int) -> real, balance: real, k: nat)
    ensures MinMaxScaled([], []) && MostRelevantFirst([], []) && LeastSimilarFirst(sim, 0, [])
    ensures GreedyRun(0, Capped(k, 0), MmrScore(balance, [], sim), [])
  {}
}
