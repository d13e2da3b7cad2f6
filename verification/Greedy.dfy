/** The selection step shared by the greedy rerankers. */
module Greedy {
  import opened Sets

  /** The score below which no candidate is ever picked: -1e30 in the source. */
  const FLOOR: real := -1000000000000000000000000000000.0

  ghost predicate Below(a: seq<nat>, n: nat) {
    forall i :: 0 <= i < |a| ==> a[i] < n
  }

  /** The first candidate outside `taken` with the largest score above the floor; n when there is none. */
  ghost predicate FirstBest(n: nat, taken: seq<nat>, score: int -> real, pick: nat) {
    && pick <= n
    && (pick < n ==> pick !in taken && score(pick) > FLOOR)
    && (forall i: nat :: i < n && i !in taken ==> score(i) <= if pick < n then score(pick) else FLOOR)
    && (pick < n ==> forall i: nat :: i < pick && i !in taken ==> score(i) < score(pick))
  }

  /** Every pick is the first best one given the picks before it. */
  ghost predicate PartialRun(n: nat, score: seq<nat> -> int -> real, order: seq<nat>) {
    Below(order, n) && forall t :: 0 <= t < |order| ==> FirstBest(n, order[..t], score(order[..t]), order[t])
  }

  /** Every pick is the first best one given the picks before it; the run stops at k or when nothing is left to pick. */
  ghost predicate GreedyRun(n: nat, k: nat, score: seq<nat> -> int -> real, order: seq<nat>) {
    && |order| <= k && PartialRun(n, score, order)
    && (|order| < k ==> FirstBest(n, order, score(order), n))
  }

  lemma {:induction false} FirstBestUnique(n: nat, taken: seq<nat>, score: int -> real, p: nat, q: nat)
    requires FirstBest(n, taken, score, p) && FirstBest(n, taken, score, q)
    ensures p == q
  {
    assert p < n && q < n ==> score(p) <= score(q) && score(q) <= score(p);
  }

  /** A greedy run never picks a candidate twice. */
  lemma {:induction false} RunDistinct(n: nat, k: nat, score: seq<nat> -> int -> real, order: seq<nat>)
    requires GreedyRun(n, k, score, order)
    ensures Distinct(order)
  {
    forall i, j | 0 <= i < j < |order| ensures order[i] != order[j] {
      assert order[..j][i] == order[i];
    }
  }

  /** The scores, n and k determine the run. */
  lemma {:induction false} RunUnique(n: nat, k: nat, score: seq<nat> -> int -> real, a: seq<nat>, b: seq<nat>)
    requires GreedyRun(n, k, score, a) && GreedyRun(n, k, score, b)
    ensures a == b
  {
    hide FirstBest;
    var t: nat := 0;
    while t < |a| && t < |b|
      invariant t <= |a| && t <= |b| && a[..t] == b[..t]
    {
      FirstBestUnique(n, a[..t], score(a[..t]), a[t], b[t]);
      assert a[..t + 1] == a[..t] + [a[t]] && b[..t + 1] == b[..t] + [b[t]];
      t := t + 1;
    }
    if |a| < |b| {
      assert a == b[..t];
      FirstBestUnique(n, a, score(a), n, b[t]);
    } else if |b| < |a| {
      assert b == a[..t];
      FirstBestUnique(n, b, score(b), n, a[t]);
    }
    assert a[..|a|] == a && b[..|b|] == b;
  }

  lemma {:induction false} ExtendRun(n: nat, score: seq<nat> -> int -> real, order: seq<nat>, pick: nat)
    requires PartialRun(n, score, order) && pick < n && FirstBest(n, order, score(order), pick)
    ensures PartialRun(n, score, order + [pick])
    ensures forall i: nat :: i in order + [pick] <==> i in order || i == pick
  {
    var next := order + [pick];
    forall t | 0 <= t < |next| ensures FirstBest(n, next[..t], score(next[..t]), next[t]) {
      if t < |order| {
        assert next[..t] == order[..t];
      } else {
        assert next[..t] == order;
      }
    }
  }

  lemma {:induction false} BestInRange(n: nat, taken: seq<nat>, score: int -> real, pick: nat)
    requires FirstBest(n, taken, score, pick)
    ensures pick <= n
  {}

  /** The number of picks: k, or all n candidates when k is 0 or too large. */
  function Capped(k: nat, n: nat): nat { if k == 0 || k > n then n else k }
}
