/**
 * Dartboard reranking: greedy maximisation of relevance plus weighted coverage,
 * and why the greedy selection is near-optimal.
 */
module Dartboard {
  import opened Arithmetic
  import opened Sets
  import opened Sums
  import opened Greedy
  import opened Mmr

  /** alpha blends relevance with coverage; w weighs the intents; sim(d, i) is how well d covers intent i. */
  datatype Problem = Problem(alpha: real, rel: seq<real>, w: seq<real>, sim: (int, int) -> real)

  ghost predicate ProblemOk(p: Problem) {
    && 0.0 <= p.alpha <= 1.0 && |p.w| == |p.rel|
    && (forall i :: 0 <= i < |p.rel| ==> p.rel[i] >= 0.0)
    && (forall i :: 0 <= i < |p.w| ==> p.w[i] >= 0.0)
  }

  /** How well the selection covers intent i: the largest similarity, floored at 0. */
  ghost function Cover(p: Problem, a: seq<nat>, i: int): real {
    if a == [] then 0.0
    else Larger(Cover(p, a[..|a| - 1], i), p.sim(a[|a| - 1], i))
  }

  function Larger(x: real, y: real): real { if x > y then x else y }

  /** Cover is an upper bound over 0 and the selection's similarities, and one of them. */
  lemma {:induction false} CoverIsMaximum(p: Problem, a: seq<nat>, i: int)
    ensures Cover(p, a, i) >= 0.0
    ensures forall t :: 0 <= t < |a| ==> p.sim(a[t], i) <= Cover(p, a, i)
    ensures Cover(p, a, i) == 0.0 || exists t :: 0 <= t < |a| && p.sim(a[t], i) == Cover(p, a, i)
  {
    if a != [] {
      var r, last := a[..|a| - 1], |a| - 1;
      CoverIsMaximum(p, r, i);
      forall t | 0 <= t < |a| ensures p.sim(a[t], i) <= Cover(p, a, i) {
        if t < last { assert p.sim(r[t], i) <= Cover(p, r, i); }
      }
      if Cover(p, a, i) != p.sim(a[last], i) && Cover(p, r, i) != 0.0 {
        var t :| 0 <= t < |r| && p.sim(r[t], i) == Cover(p, r, i);
        assert p.sim(a[t], i) == Cover(p, a, i);
      }
    }
  }

  ghost function CoverTerm(p: Problem, a: seq<nat>): int -> real {
    (i: int) => if 0 <= i < |p.w| then p.w[i] * Cover(p, a, i) else 0.0
  }

  ghost function Relevance(p: Problem, a: seq<nat>): real
    requires Below(a, |p.rel|)
  {
    if a == [] then 0.0 else Relevance(p, a[..|a| - 1]) + p.rel[a[|a| - 1]]
  }

  ghost function Coverage(p: Problem, a: seq<nat>): real { Sum(|p.w|, CoverTerm(p, a)) }

  /** alpha parts of x to 1 - alpha parts of y. */
  function Blend(alpha: real, x: real, y: real): real { alpha * x + (1.0 - alpha) * y }

  /** The objective: blended relevance and weighted coverage of a selection. */
  ghost function Objective(p: Problem, a: seq<nat>): real
    requires Below(a, |p.rel|)
  {
    Blend(p.alpha, Relevance(p, a), Coverage(p, a))
  }

  function Excess(s: real, c: real): real { if s > c then s - c else 0.0 }

  ghost function ExcessTerm(p: Problem, a: seq<nat>, d: int): int -> real {
    (i: int) => if 0 <= i < |p.w| then p.w[i] * Excess(p.sim(d, i), Cover(p, a, i)) else 0.0
  }

  ghost function NewCoverage(p: Problem, a: seq<nat>, d: int): real { Sum(|p.w|, ExcessTerm(p, a, d)) }

  /** The score the greedy loop gives candidate d after selecting a. */
  ghost function Gain(p: Problem): seq<nat> -> int -> real {
    (a: seq<nat>) => (d: int) =>
      if 0 <= d < |p.rel| then Blend(p.alpha, p.rel[d], NewCoverage(p, a, d)) else 0.0
  }

  // ----- The gain is the increase of the objective -----

  lemma {:induction false} CoverSnoc(p: Problem, a: seq<nat>, d: nat, i: int)
    ensures Cover(p, a + [d], i) == Cover(p, a, i) + Excess(p.sim(d, i), Cover(p, a, i))
  {
    assert (a + [d])[..|a|] == a;
  }

  lemma {:induction false} CoverageSnoc(p: Problem, a: seq<nat>, d: nat)
    ensures Coverage(p, a + [d]) == Coverage(p, a) + NewCoverage(p, a, d)
  {
    forall i | 0 <= i < |p.w|
      ensures CoverTerm(p, a + [d])(i) == CoverTerm(p, a)(i) + ExcessTerm(p, a, d)(i)
    {
      CoverSnoc(p, a, d, i);
      Distribute(p.w[i], Cover(p, a, i), Excess(p.sim(d, i), Cover(p, a, i)));
    }
    SumPlus(|p.w|, CoverTerm(p, a), ExcessTerm(p, a, d), CoverTerm(p, a + [d]));
  }

  lemma {:induction false} GainIsIncrease(p: Problem, a: seq<nat>, d: nat)
    requires Below(a, |p.rel|) && d < |p.rel|
    ensures Below(a + [d], |p.rel|)
    ensures Objective(p, a + [d]) == Objective(p, a) + Gain(p)(a)(d)
  {
    assert (a + [d])[..|a|] == a;
    CoverageSnoc(p, a, d);
    BlendPlus(p.alpha, Relevance(p, a), Coverage(p, a), p.rel[d], NewCoverage(p, a, d));
  }

  lemma {:induction false} GainNonNegative(p: Problem, a: seq<nat>, d: nat)
    requires ProblemOk(p) && d < |p.rel|
    ensures Gain(p)(a)(d) >= 0.0
  {
    forall i | 0 <= i < |p.w| ensures ExcessTerm(p, a, d)(i) >= 0.0 {
      ProductNonNegative(p.w[i], Excess(p.sim(d, i), Cover(p, a, i)));
    }
    SumNonNegative(|p.w|, ExcessTerm(p, a, d));
    ProductNonNegative(p.alpha, p.rel[d]);
    ProductNonNegative(1.0 - p.alpha, NewCoverage(p, a, d));
  }

  // ----- Submodularity: what another selection adds is at most its members' separate gains -----

  /** Relevance of the members of o that are in a, and of those that are not. */
  ghost function RelevanceIn(p: Problem, o: seq<nat>, a: seq<nat>): real
    requires Below(o, |p.rel|)
  {
    if o == [] then 0.0
    else RelevanceIn(p, o[..|o| - 1], a) + if o[|o| - 1] in a then p.rel[o[|o| - 1]] else 0.0
  }

  ghost function RelevanceOut(p: Problem, o: seq<nat>, a: seq<nat>): real
    requires Below(o, |p.rel|)
  {
    if o == [] then 0.0
    else RelevanceOut(p, o[..|o| - 1], a) + if o[|o| - 1] in a then 0.0 else p.rel[o[|o| - 1]]
  }

  lemma {:induction false} RelevanceSplit(p: Problem, o: seq<nat>, a: seq<nat>)
    requires Below(o, |p.rel|)
    ensures Relevance(p, o) == RelevanceIn(p, o, a) + RelevanceOut(p, o, a)
  {
    if o != [] { RelevanceSplit(p, o[..|o| - 1], a); }
  }

  /** Allowing one more member adds its relevance at most once. */
  lemma {:induction false} RelevanceInSnoc(p: Problem, o: seq<nat>, a: seq<nat>, x: nat)
    requires ProblemOk(p) && Below(o, |p.rel|) && Distinct(o) && x < |p.rel|
    ensures RelevanceIn(p, o, a + [x]) <= RelevanceIn(p, o, a) + if x in o then p.rel[x] else 0.0
  {
    if o != [] {
      var r, last := o[..|o| - 1], o[|o| - 1];
      RelevanceInSnoc(p, r, a, x);
      assert o == r + [last];
      assert last !in r;
    }
  }

  lemma {:induction false} RelevanceInBound(p: Problem, o: seq<nat>, a: seq<nat>)
    requires ProblemOk(p) && Below(o, |p.rel|) && Below(a, |p.rel|) && Distinct(o)
    ensures RelevanceIn(p, o, a) <= Relevance(p, a)
  {
    if a == [] {
      RelevanceInNone(p, o);
    } else {
      var r := a[..|a| - 1];
      RelevanceInBound(p, o, r);
      RelevanceInSnoc(p, o, r, a[|a| - 1]);
      assert a == r + [a[|a| - 1]];
    }
  }

  lemma {:induction false} RelevanceInNone(p: Problem, o: seq<nat>)
    requires Below(o, |p.rel|)
    ensures RelevanceIn(p, o, []) == 0.0
  {
    if o != [] { RelevanceInNone(p, o[..|o| - 1]); }
  }

  /** What the members of o outside a exceed a's cover of intent i by, added up. */
  ghost function ExcessOver(p: Problem, o: seq<nat>, a: seq<nat>, i: int): real {
    if o == [] then 0.0
    else
      ExcessOver(p, o[..|o| - 1], a, i) +
      (if o[|o| - 1] in a then 0.0 else Excess(p.sim(o[|o| - 1], i), Cover(p, a, i)))
  }

  lemma {:induction false} CoverOfMember(p: Problem, a: seq<nat>, d: nat, i: int)
    ensures Cover(p, a, i) >= 0.0
    ensures d in a ==> p.sim(d, i) <= Cover(p, a, i)
  {
    if a != [] {
      CoverOfMember(p, a[..|a| - 1], d, i);
      assert a == a[..|a| - 1] + [a[|a| - 1]];
    }
  }

  lemma {:induction false} CoverBound(p: Problem, o: seq<nat>, a: seq<nat>, i: int)
    ensures Cover(p, o, i) <= Cover(p, a, i) + ExcessOver(p, o, a, i)
    ensures ExcessOver(p, o, a, i) >= 0.0
  {
    if o == [] {
      CoverOfMember(p, a, 0, i);
    } else {
      CoverBound(p, o[..|o| - 1], a, i);
      CoverOfMember(p, a, o[|o| - 1], i);
    }
  }

  /** Coverage the members of o outside a would each add to a, added up. */
  ghost function CoverageOut(p: Problem, o: seq<nat>, a: seq<nat>): real {
    if o == [] then 0.0
    else CoverageOut(p, o[..|o| - 1], a) + if o[|o| - 1] in a then 0.0 else NewCoverage(p, a, o[|o| - 1])
  }

  ghost function ExcessOverTerm(p: Problem, o: seq<nat>, a: seq<nat>): int -> real {
    (i: int) => if 0 <= i < |p.w| then p.w[i] * ExcessOver(p, o, a, i) else 0.0
  }

  lemma {:induction false} ExcessOverSums(p: Problem, o: seq<nat>, a: seq<nat>)
    ensures Sum(|p.w|, ExcessOverTerm(p, o, a)) == CoverageOut(p, o, a)
  {
    hide Excess, Cover, Sum;
    if o == [] {
      forall i | 0 <= i < |p.w| ensures ExcessOverTerm(p, [], a)(i) == 0.0 {
        assert ExcessOver(p, [], a, i) == 0.0;
      }
      SumZero(|p.w|, ExcessOverTerm(p, o, a));
    } else {
      var r, last := o[..|o| - 1], o[|o| - 1];
      ExcessOverSums(p, r, a);
      if last in a {
        forall i | 0 <= i < |p.w| ensures ExcessOverTerm(p, r, a)(i) == ExcessOverTerm(p, o, a)(i) {
          assert ExcessOver(p, o, a, i) == ExcessOver(p, r, a, i);
        }
        SumEqual(|p.w|, ExcessOverTerm(p, r, a), ExcessOverTerm(p, o, a));
      } else {
        hide ExcessOver;
        forall i | 0 <= i < |p.w|
          ensures ExcessOverTerm(p, o, a)(i) == ExcessOverTerm(p, r, a)(i) + ExcessTerm(p, a, last)(i)
        {
          ExcessOverLast(p, o, a, i);
        }
        SumPlus(|p.w|, ExcessOverTerm(p, r, a), ExcessTerm(p, a, last), ExcessOverTerm(p, o, a));
      }
    }
  }

  lemma {:induction false} ExcessOverLast(p: Problem, o: seq<nat>, a: seq<nat>, i: nat)
    requires o != [] && o[|o| - 1] !in a && i < |p.w|
    ensures ExcessOverTerm(p, o, a)(i) == ExcessOverTerm(p, o[..|o| - 1], a)(i) + ExcessTerm(p, a, o[|o| - 1])(i)
  {
    hide Excess, Cover;
    Distribute(p.w[i], ExcessOver(p, o[..|o| - 1], a, i), Excess(p.sim(o[|o| - 1], i), Cover(p, a, i)));
  }

  ghost function BothTerm(p: Problem, o: seq<nat>, a: seq<nat>): int -> real {
    (i: int) => if 0 <= i < |p.w| then p.w[i] * (Cover(p, a, i) + ExcessOver(p, o, a, i)) else 0.0
  }

  lemma {:induction false} CoverageBound(p: Problem, o: seq<nat>, a: seq<nat>)
    requires ProblemOk(p)
    ensures Coverage(p, o) <= Coverage(p, a) + CoverageOut(p, o, a)
  {
    hide Cover, ExcessOver, CoverTerm, BothTerm, ExcessOverTerm;
    forall i | 0 <= i < |p.w|
      ensures CoverTerm(p, o)(i) <= BothTerm(p, o, a)(i)
      ensures BothTerm(p, o, a)(i) == CoverTerm(p, a)(i) + ExcessOverTerm(p, o, a)(i)
    {
      CoverTermBound(p, o, a, i);
    }
    SumAtMost(|p.w|, CoverTerm(p, o), BothTerm(p, o, a));
    SumPlus(|p.w|, CoverTerm(p, a), ExcessOverTerm(p, o, a), BothTerm(p, o, a));
    ExcessOverSums(p, o, a);
  }

  lemma {:induction false} CoverTermBound(p: Problem, o: seq<nat>, a: seq<nat>, i: nat)
    requires ProblemOk(p) && i < |p.w|
    ensures CoverTerm(p, o)(i) <= BothTerm(p, o, a)(i)
    ensures BothTerm(p, o, a)(i) == CoverTerm(p, a)(i) + ExcessOverTerm(p, o, a)(i)
  {
    hide Cover, ExcessOver;
    CoverBound(p, o, a, i);
    TimesMono(p.w[i], Cover(p, o, i), Cover(p, a, i) + ExcessOver(p, o, a, i));
    Distribute(p.w[i], Cover(p, a, i), ExcessOver(p, o, a, i));
  }

  lemma {:induction false} BlendPlus(alpha: real, x: real, y: real, x': real, y': real)
    ensures Blend(alpha, x + x', y + y') == Blend(alpha, x, y) + Blend(alpha, x', y')
  {
    Distribute(alpha, x, x');
    Distribute(1.0 - alpha, y, y');
  }

  lemma {:induction false} BlendMono(alpha: real, x: real, y: real, x': real, y': real)
    requires 0.0 <= alpha <= 1.0 && x <= x' && y <= y'
    ensures Blend(alpha, x, y) <= Blend(alpha, x', y')
  {
    TwoProducts(alpha, 1.0 - alpha, x, y, x', y');
  }

  lemma {:induction false} TwoProducts(a: real, b: real, x: real, y: real, x': real, y': real)
    requires a >= 0.0 && b >= 0.0 && x <= x' && y <= y'
    ensures a * x + b * y <= a * x' + b * y'
  {
    TimesMono(a, x, x');
    TimesMono(b, y, y');
  }

  lemma {:induction false} OneMoreTimes(m: nat, g: real)
    ensures (m + 1) as real * g == m as real * g + g
  {}

  /** If no candidate outside a gains more than g, then o's members outside a are worth at most |o| g. */
  lemma {:induction false} OutsideGains(p: Problem, o: seq<nat>, a: seq<nat>, g: real)
    requires ProblemOk(p) && Below(o, |p.rel|) && g >= 0.0
    requires forall d: nat :: d < |p.rel| && d !in a ==> Gain(p)(a)(d) <= g
    ensures Blend(p.alpha, RelevanceOut(p, o, a), CoverageOut(p, o, a)) <= |o| as real * g
  {
    hide NewCoverage, Blend;
    if o == [] {
      BlendPlus(p.alpha, 0.0, 0.0, 0.0, 0.0);
    } else {
      var r, last := o[..|o| - 1], o[|o| - 1];
      OutsideGains(p, r, a, g);
      OneMoreTimes(|r|, g);
      if last !in a {
        assert Gain(p)(a)(last) <= g;
        BlendPlus(p.alpha, RelevanceOut(p, r, a), CoverageOut(p, r, a), p.rel[last], NewCoverage(p, a, last));
      }
    }
  }

  lemma {:induction false} ObjectiveBound(p: Problem, o: seq<nat>, a: seq<nat>, g: real, k: nat)
    requires ProblemOk(p) && Below(o, |p.rel|) && Below(a, |p.rel|) && Distinct(o) && |o| <= k && g >= 0.0
    requires forall d: nat :: d < |p.rel| && d !in a ==> Gain(p)(a)(d) <= g
    ensures Objective(p, o) <= Objective(p, a) + k as real * g
  {
    hide Gain, Relevance, RelevanceIn, RelevanceOut, Coverage, CoverageOut, Blend;
    var x, y := RelevanceOut(p, o, a), CoverageOut(p, o, a);
    RelevanceSplit(p, o, a);
    RelevanceInBound(p, o, a);
    CoverageBound(p, o, a);
    OutsideGains(p, o, a, g);
    BlendMono(p.alpha, Relevance(p, o), Coverage(p, o), Relevance(p, a) + x, Coverage(p, a) + y);
    BlendPlus(p.alpha, Relevance(p, a), Coverage(p, a), x, y);
    MoreTimes(|o|, k, g);
  }

  lemma {:induction false} MoreTimes(m: nat, k: nat, g: real)
    requires m <= k && g >= 0.0
    ensures m as real * g <= k as real * g
  {
    TimesMono(g, m as real, k as real);
  }

  // ----- The approximation guarantee -----

  /** One greedy step closes at least a k-th of the remaining gap. */
  lemma {:induction false} GapShrinks(gap: real, next: real, k: nat)
    requires k >= 1 && gap <= k as real * (gap - next)
    ensures next <= (1.0 - 1.0 / k as real) * gap
  {
    var kr := k as real;
    assert 1.0 / kr * kr == 1.0;
    var u := 1.0 / kr;
    assert u * gap <= u * (kr * (gap - next)) by { TimesMono(u, gap, kr * (gap - next)); }
    assert u * (kr * (gap - next)) == (u * kr) * (gap - next);
    assert (1.0 - u) * gap == gap - u * gap;
  }

  /** After t greedy picks the gap to any selection of at most k candidates is at most (1 - 1/k)^t of its worth. */
  lemma {:induction false} GapAfter(p: Problem, k: nat, order: seq<nat>, o: seq<nat>, t: nat)
    requires ProblemOk(p) && k >= 1 && PartialRun(|p.rel|, Gain(p), order) && t <= |order|
    requires Below(o, |p.rel|) && Distinct(o) && |o| <= k
    ensures Below(order[..t], |p.rel|)
    ensures Objective(p, o) - Objective(p, order[..t]) <= Power(1.0 - 1.0 / k as real, t) * Objective(p, o)
  {
    hide Objective, FirstBest, Gain;
    if t == 0 {
      EmptyIsWorthless(p);
      assert order[..0] == [];
    } else {
      var q := 1.0 - 1.0 / k as real;
      var worth, before := Objective(p, o), Objective(p, order[..t - 1]);
      GapAfter(p, k, order, o, t - 1);
      GreedyStep(p, k, order, o, t - 1);
      GapShrinks(worth - before, worth - Objective(p, order[..t]), k);
      ReciprocalAtMostOne(k);
      TimesMono(q, worth - before, Power(q, t - 1) * worth);
      TimesAssociates(q, Power(q, t - 1), worth);
    }
  }

  lemma {:induction false} TimesAssociates(x: real, y: real, z: real)
    ensures x * (y * z) == (x * y) * z
  {}

  lemma {:induction false} EmptyIsWorthless(p: Problem)
    ensures Objective(p, []) == 0.0
  {
    SumTimes(|p.w|, 0.0, CoverTerm(p, []), CoverTerm(p, []));
  }

  /** The t-th pick gains at least a k-th of what a still lacks. */
  lemma {:induction false} GreedyStep(p: Problem, k: nat, order: seq<nat>, o: seq<nat>, t: nat)
    requires ProblemOk(p) && PartialRun(|p.rel|, Gain(p), order) && t < |order|
    requires Below(o, |p.rel|) && Distinct(o) && |o| <= k
    ensures Below(order[..t], |p.rel|) && Below(order[..t + 1], |p.rel|)
    ensures var before := Objective(p, order[..t]);
      Objective(p, o) - before <= k as real * ((Objective(p, o) - before) - (Objective(p, o) - Objective(p, order[..t + 1])))
  {
    hide Objective, Gain;
    var a, pick := order[..t], order[t];
    var g := Gain(p)(a)(pick);
    assert FirstBest(|p.rel|, a, Gain(p)(a), pick);
    GainNonNegative(p, a, pick);
    ObjectiveBound(p, o, a, g, k);
    GainIsIncrease(p, a, pick);
    assert a + [pick] == order[..t + 1];
    SameFactor(k as real, g, (Objective(p, o) - Objective(p, a)) - (Objective(p, o) - Objective(p, order[..t + 1])));
  }

  lemma {:induction false} SameFactor(k: real, x: real, y: real)
    requires x == y
    ensures k * x == k * y
  {}

  lemma {:induction false} ReciprocalAtMostOne(k: nat)
    requires k >= 1
    ensures 1.0 - 1.0 / k as real >= 0.0
  {}

  /** The greedy selection reaches at least 1 - (1 - 1/k)^k of the worth of any selection of at most k candidates. */
  lemma {:induction false} GreedyIsNearOptimal(p: Problem, k: nat, order: seq<nat>, o: seq<nat>)
    requires ProblemOk(p) && k >= 1 && PartialRun(|p.rel|, Gain(p), order) && |order| == k
    requires Below(o, |p.rel|) && Distinct(o) && |o| <= k
    ensures Objective(p, order) >= (1.0 - Power(1.0 - 1.0 / k as real, k)) * Objective(p, o)
  {
    GapAfter(p, k, order, o, k);
    assert order[..k] == order;
    var x := Power(1.0 - 1.0 / k as real, k);
    assert (1.0 - x) * Objective(p, o) == Objective(p, o) - x * Objective(p, o);
  }

  // ----- The loops -----

  /** The pairwise similarities, each computed once: 1 on the diagonal, symmetric off it. */
  function Symmetric(raw: (int, int) -> real): (int, int) -> real {
    (a: int, b: int) => if a == b then 1.0 else if a < b then raw(a, b) else raw(b, a)
  }

  method SimilarityMatrix(n: nat, raw: (int, int) -> real) returns (s: array2<real>)
    ensures fresh(s) && s.Length0 == n && s.Length1 == n
    ensures forall a, b :: 0 <= a < n && 0 <= b < n ==> s[a, b] == Symmetric(raw)(a, b)
    ensures forall a, b :: 0 <= a < b < n ==> s[a, b] == s[b, a] == raw(a, b)
    ensures forall a :: 0 <= a < n ==> s[a, a] == 1.0
  {
    s := new real[n, n]((_, _) => 0.0);
    for a := 0 to n
      invariant forall i, j :: 0 <= i < n && 0 <= j < n && (i < a || j < a) ==> s[i, j] == Symmetric(raw)(i, j)
    {
      s[a, a] := 1.0;
      for b := a + 1 to n
        invariant forall i, j :: 0 <= i < n && 0 <= j < n && (i < a || j < a) ==> s[i, j] == Symmetric(raw)(i, j)
        invariant forall j :: a <= j < b ==> s[a, j] == Symmetric(raw)(a, j) && s[j, a] == Symmetric(raw)(j, a)
      {
        var x := raw(a, b);
        s[a, b] := x;
        s[b, a] := x;
      }
    }
  }

  /** `exp` stands for the exponential function. */
  function Odds(rel: real, exp: real -> real, sigma: real): real
    requires sigma > 0.0
  {
    exp(rel / sigma)
  }

  ghost function SoftTerm(rel: seq<real>, exp: real -> real, sigma: real): int -> real {
    (i: int) => if 0 <= i < |rel| && sigma > 0.0 then Odds(rel[i], exp, sigma) else 0.0
  }

  /** Non-negative weights proportional to exp(rel / sigma). */
  ghost predicate Softmax(rel: seq<real>, w: seq<real>, exp: real -> real, sigma: real) {
    && |w| == |rel| && sigma > 0.0
    && forall i :: 0 <= i < |w| ==> w[i] >= 0.0 && w[i] * Sum(|rel|, SoftTerm(rel, exp, sigma)) == Odds(rel[i], exp, sigma)
  }

  /** The weights add up to 1 and stand in the ratio of exp(rel / sigma), so that a more relevant intent weighs more. */
  ghost predicate Weighs(rel: seq<real>, w: seq<real>, exp: real -> real, sigma: real)
    requires sigma > 0.0
  {
    && |w| == |rel| && (rel != [] ==> Sum(|w|, ValuesOf(w)) == 1.0)
    && (forall i, j :: 0 <= i < |w| && 0 <= j < |w| ==> w[i] * exp(rel[j] / sigma) == w[j] * exp(rel[i] / sigma))
    && (Rising(exp) ==> forall i, j :: 0 <= i < |w| && 0 <= j < |w| && rel[i] < rel[j] ==> w[i] < w[j])
  }

  function ValuesOf(w: seq<real>): int -> real { (i: int) => if 0 <= i < |w| then w[i] else 0.0 }

  ghost predicate Rising(f: real -> real) { forall x: real, y: real :: x < y ==> f(x) < f(y) }

  lemma {:induction false} SoftmaxWeighs(rel: seq<real>, w: seq<real>, exp: real -> real, sigma: real)
    requires Softmax(rel, w, exp, sigma) && forall x: real :: exp(x) > 0.0
    ensures Weighs(rel, w, exp, sigma)
  {
    hide Sum, Softmax, Odds;
    assert |w| == |rel| && sigma > 0.0 by { SoftmaxSize(rel, w, exp, sigma); }
    forall i, j | 0 <= i < |w| && 0 <= j < |w|
      ensures w[i] * exp(rel[j] / sigma) == w[j] * exp(rel[i] / sigma)
      ensures Rising(exp) && rel[i] < rel[j] ==> w[i] < w[j]
    {
      TwoWeights(rel, w, exp, sigma, i, j);
    }
    if rel != [] { WeightsAddUp(rel, w, exp, sigma); }
  }

  lemma {:induction false} SoftmaxSize(rel: seq<real>, w: seq<real>, exp: real -> real, sigma: real)
    requires Softmax(rel, w, exp, sigma)
    ensures |w| == |rel| && sigma > 0.0
  {}

  /** The normalising sum is positive as soon as there is a term. */
  lemma {:induction false} SoftTotalPositive(rel: seq<real>, exp: real -> real, sigma: real, i: nat)
    requires sigma > 0.0 && i < |rel| && forall x: real :: exp(x) > 0.0
    ensures Sum(|rel|, SoftTerm(rel, exp, sigma)) > 0.0
  {
    hide Sum;
    forall j | 0 <= j < |rel| ensures SoftTerm(rel, exp, sigma)(j) > 0.0 {}
    SumTermAtMost(|rel|, SoftTerm(rel, exp, sigma), i);
  }

  lemma {:induction false} TwoWeights(rel: seq<real>, w: seq<real>, exp: real -> real, sigma: real, i: nat, j: nat)
    requires Softmax(rel, w, exp, sigma) && i < |w| == |rel| && j < |w| && forall x: real :: exp(x) > 0.0
    ensures w[i] * exp(rel[j] / sigma) == w[j] * exp(rel[i] / sigma)
    ensures Rising(exp) && rel[i] < rel[j] ==> w[i] < w[j]
  {
    hide Sum, SoftTerm;
    SoftTotalPositive(rel, exp, sigma, i);
    var total, x, y := Sum(|rel|, SoftTerm(rel, exp, sigma)), rel[i] / sigma, rel[j] / sigma;
    CrossWeights(w[i], w[j], total, exp(x), exp(y));
    if rel[i] < rel[j] { DivisionKeepsOrder(rel[i], rel[j], sigma); }
  }

  lemma {:induction false} WeightsAddUp(rel: seq<real>, w: seq<real>, exp: real -> real, sigma: real)
    requires Softmax(rel, w, exp, sigma) && rel != [] && forall x: real :: exp(x) > 0.0
    ensures Sum(|w|, ValuesOf(w)) == 1.0
  {
    hide Sum;
    SoftTotalPositive(rel, exp, sigma, 0);
    var terms := SoftTerm(rel, exp, sigma);
    var total := Sum(|rel|, terms);
    forall i | 0 <= i < |rel| ensures terms(i) == total * ValuesOf(w)(i) {}
    SumTimes(|rel|, total, ValuesOf(w), terms);
    var whole := Sum(|rel|, ValuesOf(w));
    WholeOnly(total, whole, total * whole);
  }

  lemma {:induction false} CrossWeights(u: real, v: real, total: real, x: real, y: real)
    requires u * total == x > 0.0 && v * total == y && total > 0.0
    ensures u * y == v * x && (x < y ==> u < v)
  {
    assert u * (v * total) == v * (u * total);
    if u >= v { TimesMono(total, v, u); }
  }

  lemma {:induction false} WholeOnly(total: real, s: real, product: real)
    requires total > 0.0 && product == total * s && product == total
    ensures s == 1.0
  {}

  /** The temperature is kept away from zero. */
  function Sharpness(sigma: real): (s: real)
    ensures s >= sigma && s >= 0.000001 && (s == sigma || s == 0.000001)
  {
    if sigma > 0.000001 then sigma else 0.000001
  }

  /** Softmax weights over relevance. */
  method IntentWeights(rel: seq<real>, exp: real -> real, sigma: real) returns (w: seq<real>)
    requires sigma > 0.0 && forall x: real :: exp(x) > 0.0
    ensures Softmax(rel, w, exp, sigma) && Weighs(rel, w, exp, sigma)
  {
    hide Odds, Sum, SoftTerm, Softmax, Weighs;
    var sum := 0.0;
    var raw: seq<real> := [];
    NoSoftTerms(rel, exp, sigma);
    for i := 0 to |rel|
      invariant |raw| == i && sum >= 0.0 && (i > 0 ==> sum > 0.0)
      invariant sum == Sum(i, SoftTerm(rel, exp, sigma))
      invariant forall j :: 0 <= j < i ==> raw[j] == Odds(rel[j], exp, sigma) >= 0.0
    {
      NextSoftTerm(rel, exp, sigma, i);
      var x := Odds(rel[i], exp, sigma);
      raw := raw + [x];
      sum := sum + x;
    }
    w := if sum > 0.0 then Divided(raw, sum) else raw;
    ShareIsSoftmax(rel, exp, sigma, raw, sum, w);
    SoftmaxWeighs(rel, w, exp, sigma);
  }

  lemma {:induction false} NoSoftTerms(rel: seq<real>, exp: real -> real, sigma: real)
    ensures Sum(0, SoftTerm(rel, exp, sigma)) == 0.0
  {}

  lemma {:induction false} NextSoftTerm(rel: seq<real>, exp: real -> real, sigma: real, i: nat)
    requires i < |rel| && sigma > 0.0 && forall x: real :: exp(x) > 0.0
    ensures Odds(rel[i], exp, sigma) > 0.0
    ensures Sum(i + 1, SoftTerm(rel, exp, sigma)) == Sum(i, SoftTerm(rel, exp, sigma)) + Odds(rel[i], exp, sigma)
  {}

  lemma {:induction false} ShareIsSoftmax(rel: seq<real>, exp: real -> real, sigma: real, raw: seq<real>, sum: real,
                                          w: seq<real>)
    requires sigma > 0.0 && |raw| == |rel| == |w| && sum == Sum(|rel|, SoftTerm(rel, exp, sigma))
    requires forall i :: 0 <= i < |rel| ==> raw[i] == Odds(rel[i], exp, sigma) && w[i] >= 0.0 && w[i] * sum == raw[i]
    ensures Softmax(rel, w, exp, sigma)
  {
    hide Odds, Sum, SoftTerm;
  }

  function Divided(raw: seq<real>, sum: real): (w: seq<real>)
    requires sum > 0.0 && forall i :: 0 <= i < |raw| ==> raw[i] >= 0.0
    ensures |w| == |raw| && forall i :: 0 <= i < |w| ==> w[i] >= 0.0 && w[i] * sum == raw[i]
  {
    var w := seq(|raw|, i requires 0 <= i < |raw| => raw[i] / sum);
    assert forall i :: 0 <= i < |w| ==> w[i] >= 0.0 && w[i] * sum == raw[i] by {
      forall i | 0 <= i < |w| ensures w[i] >= 0.0 && w[i] * sum == raw[i] {
        DivisionKeepsOrder(raw[i], raw[i], sum);
      }
    }
    w
  }

  lemma {:induction false} GainFrom(p: Problem, taken: seq<nat>, d: nat, alpha: real, x: real, gain: real)
    requires d < |p.rel| && alpha == p.alpha && x == p.rel[d] && gain == NewCoverage(p, taken, d)
    ensures Gain(p)(taken)(d) == alpha * x + (1.0 - alpha) * gain
  {
    hide NewCoverage;
  }

  /** The gain of one candidate, reading the cached coverage. */
  method ScoreCandidate(ghost p: Problem, alpha: real, rel: seq<real>, w: seq<real>, s: array2<real>, best: array<real>,
                        d: nat, ghost taken: seq<nat>) returns (score: real)
    requires p.alpha == alpha && p.rel == rel && p.w == w && |w| == |rel| && d < |rel|
    requires s.Length0 == s.Length1 == best.Length == |rel|
    requires forall a, b :: 0 <= a < |rel| && 0 <= b < |rel| ==> s[a, b] == p.sim(a, b)
    requires forall i: nat :: i < |rel| ==> best[i] == Cover(p, taken, i)
    ensures score == Gain(p)(taken)(d)
  {
    hide Gain, Cover;
    var gain := 0.0;
    for i := 0 to |rel|
      invariant gain == Sum(i, ExcessTerm(p, taken, d))
    {
      var x := s[d, i];
      assert ExcessTerm(p, taken, d)(i) == w[i] * Excess(x, best[i]);
      if x > best[i] { gain := gain + w[i] * (x - best[i]); }
    }
    GainFrom(p, taken, d, alpha, rel[d], gain);
    score := alpha * rel[d] + (1.0 - alpha) * gain;
  }

  method PickGain(ghost p: Problem, alpha: real, rel: seq<real>, w: seq<real>, s: array2<real>, best: array<real>,
                  chosen: array<bool>, ghost taken: seq<nat>) returns (pick: nat)
    requires p.alpha == alpha && p.rel == rel && p.w == w && |w| == |rel|
    requires s.Length0 == s.Length1 == best.Length == chosen.Length == |rel|
    requires forall a, b :: 0 <= a < |rel| && 0 <= b < |rel| ==> s[a, b] == p.sim(a, b)
    requires forall i: nat :: i < |rel| ==> best[i] == Cover(p, taken, i)
    requires forall i: nat :: i < |rel| ==> (chosen[i] <==> i in taken)
    ensures FirstBest(|rel|, taken, Gain(p)(taken), pick)
  {
    hide Gain, Cover;
    ghost var gains := Gain(p)(taken);
    pick := |rel|;
    var pickScore := FLOOR;
    for d := 0 to |rel|
      invariant pick == |rel| ==> pickScore == FLOOR
      invariant pick != |rel| ==> pick < d && pick !in taken && pickScore == gains(pick) > FLOOR
      invariant forall j: nat :: j < d && j !in taken ==> gains(j) <= pickScore
      invariant pick != |rel| ==> forall j: nat :: j < pick && j !in taken ==> gains(j) < pickScore
    {
      if chosen[d] { continue; }
      var score := ScoreCandidate(p, alpha, rel, w, s, best, d, taken);
      if score > pickScore { pickScore, pick := score, d; }
    }
  }

  method RaiseCover(ghost p: Problem, s: array2<real>, best: array<real>, pick: nat, ghost taken: seq<nat>)
    requires s.Length0 == s.Length1 == best.Length && pick < best.Length
    requires forall a, b :: 0 <= a < best.Length && 0 <= b < best.Length ==> s[a, b] == p.sim(a, b)
    requires forall i: nat :: i < best.Length ==> best[i] == Cover(p, taken, i)
    modifies best
    ensures forall i: nat :: i < best.Length ==> best[i] == Cover(p, taken + [pick], i)
  {
    assert (taken + [pick])[..|taken|] == taken;
    for i := 0 to best.Length
      invariant forall j: nat :: j < best.Length ==>
        best[j] == Cover(p, if j < i then taken + [pick] else taken, j)
    {
      best[i] := Larger(best[i], s[pick, i]);
    }
  }

  /** The greedy loop with cached coverage: a greedy run of the gains, and so a near-optimal selection. */
  method Select(rel: seq<real>, w: seq<real>, s: array2<real>, alpha: real, k: nat, ghost p: Problem)
    returns (order: seq<nat>)
    requires ProblemOk(p) && p.alpha == alpha && p.rel == rel && p.w == w && k <= |rel|
    requires s.Length0 == s.Length1 == |rel|
    requires forall a, b :: 0 <= a < |rel| && 0 <= b < |rel| ==> s[a, b] == p.sim(a, b)
    ensures GreedyRun(|rel|, k, Gain(p), order) && |order| == k
    ensures NearOptimal(p, order)
  {
    hide FirstBest, Gain, Cover, Objective;
    var n := |rel|;
    var best := new real[n](_ => 0.0);
    var chosen := new bool[n](_ => false);
    order := [];
    NothingCovered(p);
    for step := 0 to k
      invariant fresh(best) && fresh(chosen) && best.Length == chosen.Length == n
      invariant |order| == step && PartialRun(n, Gain(p), order)
      invariant forall i: nat :: i < n ==> (chosen[i] <==> i in order)
      invariant forall i: nat :: i < n ==> best[i] == Cover(p, order, i)
    {
      var pick := PickGain(p, alpha, rel, w, s, best, chosen, order);
      SomethingLeft(p, order, pick);
      ExtendRun(n, Gain(p), order, pick);
      chosen[pick] := true;
      RaiseCover(p, s, best, pick, order);
      order := order + [pick];
    }
    if k >= 1 {
      forall o | Below(o, n) && Distinct(o) && |o| <= k
        ensures Objective(p, order) >= (1.0 - Power(1.0 - 1.0 / k as real, k)) * Objective(p, o)
      {
        GreedyIsNearOptimal(p, k, order, o);
      }
    }
  }

  lemma {:induction false} NothingCovered(p: Problem)
    ensures forall i :: Cover(p, [], i) == 0.0
  {}

  /** While fewer than n are chosen, gains being non-negative, the scan finds a candidate. */
  lemma {:induction false} SomethingLeft(p: Problem, order: seq<nat>, pick: nat)
    requires ProblemOk(p) && PartialRun(|p.rel|, Gain(p), order) && |order| < |p.rel|
    requires FirstBest(|p.rel|, order, Gain(p)(order), pick)
    ensures pick < |p.rel|
  {
    var d := Unpicked(order, |p.rel|);
    GainNonNegative(p, order, d);
  }

  /** Worth at least 1 - (1 - 1/k)^k of any selection of at most k candidates, k being its size. */
  ghost predicate NearOptimal(p: Problem, order: seq<nat>) {
    Below(order, |p.rel|) && (|order| >= 1 ==> forall o :: Below(o, |p.rel|) && Distinct(o) && |o| <= |order| ==>
      Objective(p, order) >= (1.0 - Power(1.0 - 1.0 / |order| as real, |order|)) * Objective(p, o))
  }

  /** The whole call: normalise, weigh, compare all pairs once, select. */
  method Rerank(scores: seq<real>, raw: (int, int) -> real, exp: real -> real, relevanceWeight: real, sigma: real, k: nat)
    returns (order: seq<nat>, ghost p: Problem)
    requires forall x: real :: exp(x) > 0.0
    ensures ProblemOk(p) && p.alpha == Clamp01(relevanceWeight) && |p.rel| == |scores| && p.sim == Symmetric(raw)
    ensures forall i :: 0 <= i < |p.rel| ==>
      p.rel[i] == (scores[i] - Lowest(scores)) / Span(Lowest(scores), Highest(scores))
    ensures MinMaxScaled(scores, p.rel)
    ensures Softmax(p.rel, p.w, exp, Sharpness(sigma)) && Weighs(p.rel, p.w, exp, Sharpness(sigma))
    ensures GreedyRun(|scores|, Capped(k, |scores|), Gain(p), order)
    ensures |order| == if 1 <= k <= |scores| then k else |scores|
    ensures NearOptimal(p, order)
    ensures relevanceWeight >= 1.0 ==> MostRelevantFirst(scores, order)
  {
    hide GreedyRun, NearOptimal, Gain, MinMaxScaled, MostRelevantFirst, Weighs, Softmax;
    order, p := [], Problem(Clamp01(relevanceWeight), [], [], Symmetric(raw));
    if scores == [] {
      EmptySelection(p, exp, Sharpness(sigma), k);
      return;
    }
    var rel := Normalise(scores);
    var w := IntentWeights(rel, exp, Sharpness(sigma));
    var s := SimilarityMatrix(|scores|, raw);
    p := Problem(Clamp01(relevanceWeight), rel, w, Symmetric(raw));
    ProblemIsOk(p, exp, Sharpness(sigma));
    order := Select(rel, w, s, Clamp01(relevanceWeight), Capped(k, |scores|), p);
    AllRelevance(scores, p, Capped(k, |scores|), order);
  }

  lemma {:induction false} ProblemIsOk(p: Problem, exp: real -> real, sigma: real)
    requires Softmax(p.rel, p.w, exp, sigma) && 0.0 <= p.alpha <= 1.0 && forall i :: 0 <= i < |p.rel| ==> p.rel[i] >= 0.0
    ensures ProblemOk(p)
  {
    hide Odds;
  }

  /** With all the weight on relevance the selection ranks by score. */
  lemma {:induction false} AllRelevance(scores: seq<real>, p: Problem, k: nat, order: seq<nat>)
    requires |p.rel| == |scores| && GreedyRun(|p.rel|, k, Gain(p), order)
    requires forall i, j :: 0 <= i < |p.rel| && 0 <= j < |p.rel| ==> (p.rel[i] < p.rel[j] <==> scores[i] < scores[j])
    ensures p.alpha == 1.0 ==> MostRelevantFirst(scores, order)
  {
    hide NewCoverage;
    if p.alpha == 1.0 {
      forall t, d: nat | 0 <= t < |order| && d < |scores| && d !in order[..t] ensures scores[d] <= scores[order[t]] {
        var gain := Gain(p)(order[..t]);
        assert FirstBest(|p.rel|, order[..t], gain, order[t]);
        assert gain(d) <= gain(order[t]);
        OnlyRelevance(p.alpha, p.rel[d], NewCoverage(p, order[..t], d));
        OnlyRelevance(p.alpha, p.rel[order[t]], NewCoverage(p, order[..t], order[t]));
      }
    }
  }

  lemma {:induction false} OnlyRelevance(alpha: real, x: real, y: real)
    requires alpha == 1.0
    ensures Blend(alpha, x, y) == x
  {}

  lemma {:induction false} EmptySelection(p: Problem, exp: real -> real, sigma: real, k: nat)
    requires p.rel == [] && p.w == [] && sigma > 0.0
    ensures GreedyRun(0, Capped(k, 0), Gain(p), []) && NearOptimal(p, [])
    ensures MinMaxScaled([], []) && MostRelevantFirst([], []) && Weighs([], [], exp, sigma) && Softmax([], [], exp, sigma)
  {}
}
