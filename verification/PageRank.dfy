/** Personalized PageRank by power iteration: a distribution at every step, and a contraction towards any fixed point. */
module PageRank {
  import opened Arithmetic
  import opened Sums
  import opened Adjacency

  /** Restart probability, restart distribution, and the graph. */
  datatype Walk = Walk(a: real, teleport: seq<real>, adj: Adj)

  ghost predicate Distribution(r: seq<real>) {
    (forall i :: 0 <= i < |r| ==> r[i] >= 0.0) && Total(r) == 1.0
  }

  function At(r: seq<real>, i: int): real { if 0 <= i < |r| then r[i] else 0.0 }

  function Entries(r: seq<real>): int -> real { (i: int) => At(r, i) }

  ghost function Total(r: seq<real>): real { Sum(|r|, Entries(r)) }

  /** Links inside the graph, of non-negative weight. */
  ghost predicate LinksInside(l: seq<Link>, n: nat) {
    forall i :: 0 <= i < |l| ==> l[i].0 < n && l[i].1 >= 0.0
  }

  ghost predicate WalkOk(p: Walk) {
    && 0.0 <= p.a <= 1.0 && |p.teleport| == |p.adj| && Distribution(p.teleport)
    && forall u :: 0 <= u < |p.adj| ==> LinksInside(p.adj[u], |p.adj|)
  }

  function One(): int -> real { (x: int) => 1.0 }

  /** The total weight of u's links. */
  ghost function Degree(p: Walk, u: int): real
    requires 0 <= u < |p.adj|
  {
    LinkSum(p.adj[u], One())
  }

  /** The chance of walking from u to v: along the links by weight, or like a restart when u has none. */
  ghost function StepTo(p: Walk, u: int, v: int): real {
    if 0 <= u < |p.adj| && 0 <= v < |p.teleport|
    then if Degree(p, u) <= 0.0 then p.teleport[v] else Weight(p.adj[u], v) / Degree(p, u)
    else 0.0
  }

  ghost function StepsFrom(p: Walk, u: int): int -> real { (v: int) => StepTo(p, u, v) }

  /** The mass that x on the nodes sends from each node to each. */
  ghost function Flow(p: Walk, x: int -> real): (int, int) -> real { (u: int, v: int) => x(u) * StepTo(p, u, v) }

  /** The mass arriving at v. */
  ghost function Arriving(p: Walk, x: int -> real, v: int): real { Sum(|p.adj|, Col(Flow(p, x), v)) }

  /** What one iteration gives node v. */
  ghost function NextAt(p: Walk, r: seq<real>, v: int): real {
    p.a * At(p.teleport, v) + (1.0 - p.a) * Arriving(p, Entries(r), v)
  }

  /** One iteration of the whole vector. */
  ghost function Iterate(p: Walk, r: seq<real>): seq<real> {
    seq(|p.adj|, v => NextAt(p, r, v))
  }

  ghost function IterateTimes(p: Walk, r: seq<real>, t: nat): seq<real> {
    if t == 0 then r else Iterate(p, IterateTimes(p, r, t - 1))
  }

  // ----- The walk is stochastic -----

  lemma {:induction false} DivisionNonNegative(x: real, y: real)
    requires x >= 0.0 && y > 0.0
    ensures x / y >= 0.0
  {}

  lemma {:induction false} StepNonNegative(p: Walk, u: int, v: int)
    requires WalkOk(p)
    ensures StepTo(p, u, v) >= 0.0
  {
    if 0 <= u < |p.adj| && 0 <= v < |p.adj| && Degree(p, u) > 0.0 {
      LinkSumNonNegative(p.adj[u], Indicator(v));
      DivisionNonNegative(Weight(p.adj[u], v), Degree(p, u));
    }
  }

  lemma {:induction false} Reciprocal(x: real, y: real)
    requires y > 0.0
    ensures x / y == 1.0 / y * x
    ensures 1.0 / y * y == 1.0
  {}

  /** From every node the walk goes somewhere with probability 1. */
  lemma {:induction false} StepRowSum(p: Walk, u: nat)
    requires WalkOk(p) && u < |p.adj|
    ensures Sum(|p.adj|, StepsFrom(p, u)) == 1.0
  {
    var n, d := |p.adj|, Degree(p, u);
    if d <= 0.0 {
      SumEqual(n, StepsFrom(p, u), Entries(p.teleport));
    } else {
      forall v | 0 <= v < n ensures StepsFrom(p, u)(v) == 1.0 / d * WeightTimes(p.adj[u], One())(v) {
        Reciprocal(Weight(p.adj[u], v), d);
      }
      SumTimes(n, 1.0 / d, WeightTimes(p.adj[u], One()), StepsFrom(p, u));
      LinkSumAsSum(p.adj[u], n, One());
      Reciprocal(d, d);
    }
  }

  // ----- The walk follows the link weights -----

  ghost function WeightsOf(l: seq<Link>): int -> real { (v: int) => Weight(l, v) }

  /** The weights of the links to each of n nodes, added up. */
  ghost function TotalWeight(l: seq<Link>, n: nat): real { Sum(n, WeightsOf(l)) }

  lemma {:induction false} DegreeIsTotal(p: Walk, u: nat)
    requires WalkOk(p) && u < |p.adj|
    ensures Degree(p, u) == TotalWeight(p.adj[u], |p.adj|)
    ensures forall v :: 0 <= v < |p.adj| ==> 0.0 <= Weight(p.adj[u], v) <= Degree(p, u)
  {
    hide Sum, Weight;
    var n, l := |p.adj|, p.adj[u];
    LinkSumAsSum(l, n, One());
    SumEqual(n, WeightTimes(l, One()), WeightsOf(l));
    forall v | 0 <= v < n ensures 0.0 <= WeightsOf(l)(v) == Weight(l, v) { WeightNonNegative(l, v); }
    forall v | 0 <= v < n ensures 0.0 <= Weight(l, v) <= Degree(p, u) {
      SumTermAtMost(n, WeightsOf(l), v);
      assert 0.0 <= WeightsOf(l)(v) == Weight(l, v);
    }
  }

  lemma {:induction false} WeightNonNegative(l: seq<Link>, v: int)
    requires forall i :: 0 <= i < |l| ==> l[i].1 >= 0.0
    ensures Weight(l, v) >= 0.0
  {
    LinkSumNonNegative(l, Indicator(v));
  }

  /**
   * A node with a link of positive weight walks to every node in proportion to the weight of its links there; only a node
   * whose weights are all 0 walks like a restart.
   */
  lemma {:induction false} StepFollowsWeights(p: Walk, u: nat, v: nat)
    requires WalkOk(p) && u < |p.adj| && v < |p.adj|
    ensures StepTo(p, u, v) * TotalWeight(p.adj[u], |p.adj|) ==
      if TotalWeight(p.adj[u], |p.adj|) > 0.0 then Weight(p.adj[u], v) else 0.0
    ensures TotalWeight(p.adj[u], |p.adj|) > 0.0 <==> exists x :: 0 <= x < |p.adj| && Weight(p.adj[u], x) > 0.0
    ensures Weight(p.adj[u], v) > 0.0 ==> StepTo(p, u, v) > 0.0
    ensures (forall x :: 0 <= x < |p.adj| ==> Weight(p.adj[u], x) == 0.0) ==> StepTo(p, u, v) == p.teleport[v]
  {
    hide Sum, Weight, Degree;
    var n, l := |p.adj|, p.adj[u];
    DegreeIsTotal(p, u);
    if forall x :: 0 <= x < n ==> Weight(l, x) <= 0.0 { SumZero(n, WeightsOf(l)); }
    if Degree(p, u) > 0.0 { Ratio(Weight(l, v), Degree(p, u)); }
  }

  lemma {:induction false} Ratio(x: real, y: real)
    requires x >= 0.0 && y > 0.0
    ensures x / y * y == x && x / y >= 0.0 && (x > 0.0 ==> x / y > 0.0)
  {}

  /** Two targets get shares in the ratio of their weights. */
  lemma {:induction false} StepRatio(p: Walk, u: nat, v: nat, w: nat)
    requires WalkOk(p) && u < |p.adj| && v < |p.adj| && w < |p.adj|
    requires exists x :: 0 <= x < |p.adj| && Weight(p.adj[u], x) > 0.0
    ensures StepTo(p, u, v) * Weight(p.adj[u], w) == StepTo(p, u, w) * Weight(p.adj[u], v)
    ensures StepTo(p, u, v) > 0.0 <==> Weight(p.adj[u], v) > 0.0
  {
    hide StepTo, Weight, TotalWeight;
    StepFollowsWeights(p, u, v);
    StepFollowsWeights(p, u, w);
    DegreeIsTotal(p, u);
    CrossRatio(StepTo(p, u, v), StepTo(p, u, w), Weight(p.adj[u], v), Weight(p.adj[u], w), TotalWeight(p.adj[u], |p.adj|));
    if Weight(p.adj[u], v) == 0.0 { ZeroFactor(StepTo(p, u, v), TotalWeight(p.adj[u], |p.adj|)); }
  }

  lemma {:induction false} ZeroFactor(x: real, y: real)
    requires y > 0.0 && x * y == 0.0
    ensures x == 0.0
  {}

  lemma {:induction false} CrossRatio(t: real, u: real, x: real, y: real, s: real)
    requires t * s == x && u * s == y
    ensures t * y == u * x
  {
    assert t * (u * s) == u * (t * s);
  }

  /** Every node receives its restart share, and from each node a share of its mass by weight. */
  ghost predicate Receives(p: Walk, r: seq<real>, next: seq<real>) {
    && |next| == |r| == |p.adj| == |p.teleport|
    && (forall v :: 0 <= v < |next| ==> next[v] >= p.a * p.teleport[v])
    && forall u: nat, v: nat :: u < |r| && v < |next| ==>
         next[v] * TotalWeight(p.adj[u], |p.adj|) >= (1.0 - p.a) * (r[u] * Weight(p.adj[u], v))
  }

  lemma {:induction false} IterateReceives(p: Walk, r: seq<real>)
    requires WalkOk(p) && Distribution(r) && |r| == |p.adj|
    ensures Receives(p, r, Iterate(p, r))
  {
    hide NextAt, WalkOk, Weight, TotalWeight, Distribution;
    WalkBounds(p);
    var n, next := |p.adj|, Iterate(p, r);
    forall v: nat | v < n ensures next[v] >= p.a * p.teleport[v] { NodeReceives(p, r, v, v); }
    forall u: nat, v: nat | u < n && v < n
      ensures next[v] * TotalWeight(p.adj[u], n) >= (1.0 - p.a) * (r[u] * Weight(p.adj[u], v))
    {
      NodeReceives(p, r, u, v);
    }
  }

  lemma {:induction false} NodeReceives(p: Walk, r: seq<real>, u: nat, v: nat)
    requires WalkOk(p) && Distribution(r) && |r| == |p.adj| == |p.teleport| && u < |p.adj| && v < |p.adj|
    ensures NextAt(p, r, v) >= p.a * p.teleport[v]
    ensures NextAt(p, r, v) * TotalWeight(p.adj[u], |p.adj|) >= (1.0 - p.a) * (r[u] * Weight(p.adj[u], v))
  {
    hide Arriving, StepTo, WalkOk, Weight, TotalWeight, Distribution;
    InflowAtLeast(p, r, u, v);
    StepFollowsWeights(p, u, v);
    WeightBounds(p, u, v);
    WalkBounds(p);
    ShareReceived(p.a, p.teleport[v], Arriving(p, Entries(r), v), r[u], StepTo(p, u, v), Weight(p.adj[u], v),
                  TotalWeight(p.adj[u], |p.adj|), NextAt(p, r, v));
  }

  lemma {:induction false} InflowAtLeast(p: Walk, r: seq<real>, u: nat, v: nat)
    requires WalkOk(p) && Distribution(r) && |r| == |p.adj| && u < |p.adj| && v < |p.adj|
    ensures Arriving(p, Entries(r), v) >= r[u] * StepTo(p, u, v) >= 0.0
  {
    hide Sum, StepTo, WalkOk;
    var n, share := |p.adj|, Col(Flow(p, Entries(r)), v);
    forall x | 0 <= x < n ensures share(x) >= 0.0 {
      StepNonNegative(p, x, v);
      ProductNonNegative(r[x], StepTo(p, x, v));
    }
    SumTermAtMost(n, share, u);
    assert share(u) == r[u] * StepTo(p, u, v);
  }

  lemma {:induction false} WalkBounds(p: Walk)
    requires WalkOk(p)
    ensures |p.teleport| == |p.adj| && 0.0 <= p.a <= 1.0 && forall v :: 0 <= v < |p.teleport| ==> p.teleport[v] >= 0.0
  {}

  lemma {:induction false} WeightBounds(p: Walk, u: nat, v: nat)
    requires WalkOk(p) && u < |p.adj| && v < |p.adj|
    ensures 0.0 <= Weight(p.adj[u], v) <= TotalWeight(p.adj[u], |p.adj|) && p.teleport[v] >= 0.0
  {
    DegreeIsTotal(p, u);
  }

  /** An inflow of at least r s, with s the share by weight. */
  lemma {:induction false} ShareReceived(a: real, t: real, inflow: real, r: real, s: real, w: real, total: real, next: real)
    requires 0.0 <= a <= 1.0 && t >= 0.0 && inflow >= r * s >= 0.0 && next == a * t + (1.0 - a) * inflow
    requires 0.0 <= w <= total && s * total == if total > 0.0 then w else 0.0
    ensures next >= a * t && next * total >= (1.0 - a) * (r * w)
  {
    ProductNonNegative(a, t);
    ProductNonNegative(1.0 - a, inflow);
    TimesMono(1.0 - a, r * s, inflow);
    if total > 0.0 {
      TimesMono(total, (1.0 - a) * (r * s), next);
      assert total * ((1.0 - a) * (r * s)) == (1.0 - a) * (r * (s * total));
    } else {
      assert w == 0.0 && total == 0.0;
    }
  }

  ghost function Arrivals(p: Walk, x: int -> real): int -> real { (v: int) => Arriving(p, x, v) }

  /** The walk conserves mass. */
  lemma {:induction false} ArrivingTotal(p: Walk, x: int -> real)
    requires WalkOk(p)
    ensures Sum(|p.adj|, Arrivals(p, x)) == Sum(|p.adj|, x)
  {
    var n, h := |p.adj|, Flow(p, x);
    SumEqual(n, Arrivals(p, x), ColSum(n, h));
    SumSwap(n, n, h);
    forall u | 0 <= u < n ensures RowSum(n, h)(u) == x(u) {
      StepRowSum(p, u);
      SumTimes(n, x(u), StepsFrom(p, u), Row(h, u));
    }
    SumEqual(n, RowSum(n, h), x);
  }

  lemma {:induction false} ArrivingNonNegative(p: Walk, x: int -> real, v: int)
    requires WalkOk(p) && forall u :: 0 <= u < |p.adj| ==> x(u) >= 0.0
    ensures Arriving(p, x, v) >= 0.0
  {
    forall u | 0 <= u < |p.adj| ensures Col(Flow(p, x), v)(u) >= 0.0 {
      StepNonNegative(p, u, v);
      ProductNonNegative(x(u), StepTo(p, u, v));
    }
    SumNonNegative(|p.adj|, Col(Flow(p, x), v));
  }

  ghost function Scaled(c: real, x: int -> real): int -> real { (i: int) => c * x(i) }

  /** An iteration turns a distribution into a distribution: no mass is lost at dangling nodes. */
  lemma {:induction false} IterateKeepsDistribution(p: Walk, r: seq<real>)
    requires WalkOk(p) && |r| == |p.adj| && Distribution(r)
    ensures Distribution(Iterate(p, r))
  {
    hide StepTo, Degree, Arriving, Sum;
    var n, next := |p.adj|, Iterate(p, r);
    forall v | 0 <= v < n ensures next[v] >= 0.0 {
      ArrivingNonNegative(p, Entries(r), v);
      ProductNonNegative(p.a, At(p.teleport, v));
      ProductNonNegative(1.0 - p.a, Arriving(p, Entries(r), v));
    }
    var restart, walk := Scaled(p.a, Entries(p.teleport)), Scaled(1.0 - p.a, Arrivals(p, Entries(r)));
    SumTimes(n, p.a, Entries(p.teleport), restart);
    SumTimes(n, 1.0 - p.a, Arrivals(p, Entries(r)), walk);
    SumPlus(n, restart, walk, Entries(next));
    ArrivingTotal(p, Entries(r));
    WholeMass(p.a, Sum(n, Entries(p.teleport)), Sum(n, Arrivals(p, Entries(r))));
  }

  lemma {:induction false} WholeMass(a: real, x: real, y: real)
    requires x == 1.0 && y == 1.0
    ensures a * x + (1.0 - a) * y == 1.0
  {}

  // ----- Contraction -----

  function Abs(x: real): real { if x < 0.0 then -x else x }

  ghost function GapAt(r: seq<real>, s: seq<real>, i: int): real { Abs(At(r, i) - At(s, i)) }

  ghost function Gaps(r: seq<real>, s: seq<real>): int -> real { (i: int) => GapAt(r, s, i) }

  /** The L1 distance of two vectors over n nodes. */
  ghost function Distance(n: nat, r: seq<real>, s: seq<real>): real { Sum(n, Gaps(r, s)) }

  lemma {:induction false} AbsTimes(c: real, x: real)
    requires c >= 0.0
    ensures Abs(c * x) == c * Abs(x)
  {
    if x < 0.0 { ProductNonNegative(c, -x); assert c * x == -(c * -x); } else { ProductNonNegative(c, x); }
  }

  /** The difference of two sums is at most the sum of the differences. */
  lemma {:induction false} SumDifference(n: nat, f: int -> real, g: int -> real, d: int -> real)
    requires forall i :: 0 <= i < n ==> Abs(f(i) - g(i)) <= d(i)
    ensures Abs(Sum(n, f) - Sum(n, g)) <= Sum(n, d)
  {
    if n > 0 { SumDifference(n - 1, f, g, d); }
  }

  lemma {:induction false} Factor(c: real, x: real, y: real)
    ensures x * c - y * c == (x - y) * c
    ensures c * x - c * y == c * (x - y)
  {}

  lemma {:induction false} AbsFactor(c: real, x: real, y: real)
    requires c >= 0.0
    ensures Abs(x * c - y * c) == Abs(x - y) * c
  {
    Factor(c, x, y);
    AbsTimes(c, x - y);
  }

  /** What arrives at v from two vectors differs by at most the gap arriving there. */
  lemma {:induction false} ArrivingGap(p: Walk, r: seq<real>, s: seq<real>, v: int)
    requires WalkOk(p)
    ensures Abs(Arriving(p, Entries(r), v) - Arriving(p, Entries(s), v)) <= Arriving(p, Gaps(r, s), v)
  {
    hide StepTo, Sum;
    var fr, fs, fg := Col(Flow(p, Entries(r)), v), Col(Flow(p, Entries(s)), v), Col(Flow(p, Gaps(r, s)), v);
    forall u | 0 <= u < |p.adj| ensures Abs(fr(u) - fs(u)) <= fg(u) {
      StepNonNegative(p, u, v);
      AbsFactor(StepTo(p, u, v), At(r, u), At(s, u));
    }
    SumDifference(|p.adj|, fr, fs, fg);
  }

  lemma {:induction false} IterateGapAt(p: Walk, r: seq<real>, s: seq<real>, v: int)
    requires WalkOk(p) && |r| == |s| == |p.adj| && 0 <= v < |p.adj|
    ensures GapAt(Iterate(p, r), Iterate(p, s), v) <= (1.0 - p.a) * Arriving(p, Gaps(r, s), v)
  {
    ArrivingGap(p, r, s, v);
    NextGap(p.a, 1.0 - p.a, At(p.teleport, v), Arriving(p, Entries(r), v), Arriving(p, Entries(s), v),
            Arriving(p, Gaps(r, s), v));
  }

  /** One iteration brings any two vectors closer by the factor 1 - a. */
  lemma {:induction false} IterateContracts(p: Walk, r: seq<real>, s: seq<real>)
    requires WalkOk(p) && |r| == |s| == |p.adj|
    ensures Distance(|p.adj|, Iterate(p, r), Iterate(p, s)) <= (1.0 - p.a) * Distance(|p.adj|, r, s)
  {
    hide WalkOk, Iterate, Arriving, GapAt;
    var n := |p.adj|;
    var bound := Scaled(1.0 - p.a, Arrivals(p, Gaps(r, s)));
    forall v | 0 <= v < n ensures Gaps(Iterate(p, r), Iterate(p, s))(v) <= bound(v) {
      IterateGapAt(p, r, s, v);
    }
    SumAtMost(n, Gaps(Iterate(p, r), Iterate(p, s)), bound);
    SumTimes(n, 1.0 - p.a, Arrivals(p, Gaps(r, s)), bound);
    ArrivingTotal(p, Gaps(r, s));
  }

  lemma {:induction false} NextGap(a: real, b: real, t: real, x: real, y: real, g: real)
    requires b >= 0.0 && Abs(x - y) <= g
    ensures Abs((a * t + b * x) - (a * t + b * y)) <= b * g
  {
    Factor(b, x, y);
    AbsTimes(b, x - y);
    TimesMono(b, Abs(x - y), g);
  }

  /** After t iterations the distance to any fixed point is at most (1 - a)^t times the initial one. */
  lemma {:induction false} ConvergesToFixedPoint(p: Walk, r: seq<real>, fixed: seq<real>, t: nat)
    requires WalkOk(p) && |r| == |fixed| == |p.adj| && Iterate(p, fixed) == fixed
    ensures |IterateTimes(p, r, t)| == |p.adj|
    ensures Distance(|p.adj|, IterateTimes(p, r, t), fixed) <= Power(1.0 - p.a, t) * Distance(|p.adj|, r, fixed)
  {
    hide Distance, NextAt;
    if t > 0 {
      ConvergesToFixedPoint(p, r, fixed, t - 1);
      var q := IterateTimes(p, r, t - 1);
      IterateContracts(p, q, fixed);
      PowerStep(1.0 - p.a, t, Distance(|p.adj|, IterateTimes(p, r, t), fixed), Distance(|p.adj|, q, fixed),
                Distance(|p.adj|, r, fixed));
    }
  }

  lemma {:induction false} PowerStep(c: real, t: nat, next: real, last: real, first: real)
    requires t > 0 && c >= 0.0 && next <= c * last && last <= Power(c, t - 1) * first
    ensures next <= Power(c, t) * first
  {
    TimesMono(c, last, Power(c, t - 1) * first);
    assert c * (Power(c, t - 1) * first) == c * Power(c, t - 1) * first;
  }

  /** With a positive restart probability there is at most one fixed point. */
  lemma {:induction false} FixedPointUnique(p: Walk, r: seq<real>, s: seq<real>)
    requires WalkOk(p) && |r| == |s| == |p.adj| && p.a > 0.0
    requires Iterate(p, r) == r && Iterate(p, s) == s
    ensures r == s
  {
    var n := |p.adj|;
    IterateContracts(p, r, s);
    var d := Distance(n, r, s);
    SumNonNegative(n, Gaps(r, s));
    ProductNonNegative(p.a, d);
    assert (1.0 - p.a) * d == d - p.a * d;
    assert d == 0.0 by { if d > 0.0 { ProductPositive(p.a, d); } }
    forall i | 0 <= i < n ensures r[i] == s[i] {
      SumTermAtMost(n, Gaps(r, s), i);
    }
  }

  // ----- The loops -----

  /** Restart mass for document d: all restart entries naming it, added up. */
  ghost function Restart(restart: seq<(nat, real)>, d: int): real { LinkSum(restart, Indicator(d)) }

  ghost predicate MassesOf(mass: seq<real>, restart: seq<(nat, real)>) {
    forall d :: 0 <= d < |mass| ==> mass[d] == Restart(restart, d) >= 0.0
  }

  /** Sum the restart masses per document, ignoring documents outside the graph. */
  method SumRestarts(n: nat, restart: seq<(nat, real)>) returns (mass: seq<real>, tsum: real)
    requires forall i :: 0 <= i < |restart| ==> restart[i].1 >= 0.0
    ensures |mass| == n && tsum == Total(mass) && MassesOf(mass, restart)
  {
    hide MassesOf, Sum;
    var raw := new real[n](_ => 0.0);
    tsum := 0.0;
    NoMasses(raw[..]);
    SumZero(n, Entries(raw[..]));
    for i := 0 to |restart|
      invariant tsum == Sum(n, Entries(raw[..])) && MassesOf(raw[..], restart[..i])
    {
      var d, m := restart[i].0, restart[i].1;
      ghost var was := raw[..];
      MassesNext(was, restart, i);
      if d < n {
        raw[d] := raw[d] + m;
        tsum := tsum + m;
        OneEntryRaised(was, raw[..], d, m);
      }
    }
    assert restart[..|restart|] == restart;
    mass := raw[..];
  }

  lemma {:induction false} OneEntryRaised(r: seq<real>, s: seq<real>, d: nat, m: real)
    requires d < |r| && s == r[d := r[d] + m]
    ensures Sum(|r|, Entries(s)) == Sum(|r|, Entries(r)) + m
  {
    SumChangeOne(|r|, Entries(r), Entries(s), d);
  }

  lemma {:induction false} NoMasses(mass: seq<real>)
    requires forall d :: 0 <= d < |mass| ==> mass[d] == 0.0
    ensures MassesOf(mass, [])
  {}

  lemma {:induction false} MassesNext(mass: seq<real>, restart: seq<(nat, real)>, i: nat)
    requires i < |restart| && restart[i].1 >= 0.0 && MassesOf(mass, restart[..i])
    ensures var d, m := restart[i].0, restart[i].1;
      && (d < |mass| ==> MassesOf(mass[d := mass[d] + m], restart[..i + 1]))
      && (d >= |mass| ==> MassesOf(mass, restart[..i + 1]))
  {
    var d, m := restart[i].0, restart[i].1;
    var less, more := restart[..i], restart[..i + 1];
    forall e | 0 <= e < |mass| ensures Restart(more, e) >= mass[e] && (e != d ==> Restart(more, e) == mass[e]) {
      RestartSnoc(restart, i, e);
      assert mass[e] == Restart(less, e);
    }
    if d < |mass| {
      var next := mass[d := mass[d] + m];
      RestartSnoc(restart, i, d);
      assert mass[d] == Restart(less, d);
      assert MassesOf(next, more);
    } else {
      assert MassesOf(mass, more);
    }
  }

  lemma {:induction false} RestartSnoc(restart: seq<(nat, real)>, i: nat, e: int)
    requires i < |restart|
    ensures Restart(restart[..i + 1], e) == Restart(restart[..i], e) + if restart[i].0 == e then restart[i].1 else 0.0
  {
    assert restart[..i + 1] == restart[..i] + [restart[i]];
    WeightSnoc(restart[..i], restart[i], e);
  }

  /** A distribution proportional to the restart masses, uniform when the graph's documents have none. */
  ghost predicate TeleportOk(n: nat, restart: seq<(nat, real)>, teleport: seq<real>) {
    && |teleport| == n && (n > 0 ==> Distribution(teleport))
    && (forall d, e :: 0 <= d < n && 0 <= e < n ==>
         teleport[d] * Restart(restart, e) == teleport[e] * Restart(restart, d))
    && ((forall d :: 0 <= d < n ==> Restart(restart, d) == 0.0) ==>
         forall d :: 0 <= d < n ==> teleport[d] == 1.0 / n as real)
  }

  method Teleport(n: nat, restart: seq<(nat, real)>) returns (teleport: seq<real>)
    requires forall i :: 0 <= i < |restart| ==> restart[i].1 >= 0.0
    ensures TeleportOk(n, restart, teleport)
  {
    hide Restart, Distribution, Sum;
    var mass, tsum := SumRestarts(n, restart);
    SumNonNegative(n, Entries(mass));
    if tsum <= 0.0 {
      forall d | 0 <= d < n ensures mass[d] == 0.0 { SumTermAtMost(n, Entries(mass), d); }
      teleport := Uniform(n);
    } else {
      teleport := DivideAll(mass, tsum);
      SharesAreProportional(n, restart, mass, tsum, teleport);
    }
  }

  lemma {:induction false} SharesAreProportional(n: nat, restart: seq<(nat, real)>, mass: seq<real>, tsum: real,
                                                 teleport: seq<real>)
    requires |mass| == n == |teleport| && tsum == Total(mass) > 0.0 && Distribution(teleport)
    requires forall d :: 0 <= d < n ==> mass[d] == Restart(restart, d)
    requires forall d :: 0 <= d < n ==> teleport[d] * tsum == mass[d]
    ensures TeleportOk(n, restart, teleport)
  {
    hide Restart, Distribution, Sum;
    if forall d :: 0 <= d < n ==> Restart(restart, d) == 0.0 {
      SumZero(n, Entries(mass));
      assert false;
    }
    forall d, e | 0 <= d < n && 0 <= e < n
      ensures teleport[d] * Restart(restart, e) == teleport[e] * Restart(restart, d)
    {
      CrossRatio(teleport[d], teleport[e], mass[d], mass[e], tsum);
    }
  }

  method Uniform(n: nat) returns (t: seq<real>)
    ensures |t| == n && (n > 0 ==> Distribution(t))
    ensures forall d :: 0 <= d < n ==> t[d] == 1.0 / n as real
  {
    t := seq(n, i => 1.0 / (if n > 1 then n else 1) as real);
    if n > 0 { UniformSums(t, n); }
  }

  lemma {:induction false} UniformSums(t: seq<real>, n: nat)
    requires n > 0 && |t| == n && forall i :: 0 <= i < n ==> t[i] == 1.0 / n as real
    ensures Distribution(t)
  {
    ConstantSum(n, 1.0 / n as real, Entries(t));
    Reciprocal(1.0, n as real);
  }

  lemma {:induction false} ConstantSum(n: nat, c: real, f: int -> real)
    requires forall i :: 0 <= i < n ==> f(i) == c
    ensures Sum(n, f) == n as real * c
  {
    if n > 0 {
      ConstantSum(n - 1, c, f);
      assert n as real * c == (n - 1) as real * c + c;
    }
  }

  method DivideAll(raw: seq<real>, tsum: real) returns (t: seq<real>)
    requires tsum > 0.0 && tsum == Total(raw) && forall i :: 0 <= i < |raw| ==> raw[i] >= 0.0
    ensures |t| == |raw| && Distribution(t)
    ensures forall i :: 0 <= i < |t| ==> t[i] * tsum == raw[i]
  {
    t := seq(|raw|, i requires 0 <= i < |raw| => raw[i] / tsum);
    forall i | 0 <= i < |t| ensures t[i] >= 0.0 && t[i] == 1.0 / tsum * raw[i] && t[i] * tsum == raw[i] {
      DivisionNonNegative(raw[i], tsum);
      Reciprocal(raw[i], tsum);
    }
    SharesAddUp(raw, tsum, t);
  }

  lemma {:induction false} SharesAddUp(raw: seq<real>, tsum: real, t: seq<real>)
    requires tsum > 0.0 && tsum == Total(raw) && |t| == |raw|
    requires forall i :: 0 <= i < |t| ==> t[i] >= 0.0 && t[i] == 1.0 / tsum * raw[i]
    ensures Distribution(t)
  {
    SumTimes(|t|, 1.0 / tsum, Entries(raw), Entries(t));
    Reciprocal(1.0, tsum);
  }

  method Degrees(ghost p: Walk, adj: Adj) returns (deg: seq<real>)
    requires adj == p.adj
    ensures |deg| == |adj| && forall u :: 0 <= u < |adj| ==> deg[u] == Degree(p, u)
  {
    deg := [];
    for u := 0 to |adj|
      invariant |deg| == u && forall x :: 0 <= x < u ==> deg[x] == Degree(p, x)
    {
      var d := 0.0;
      for i := 0 to |adj[u]|
        invariant d == LinkSum(adj[u][..i], One())
      {
        assert adj[u][..i + 1][..i] == adj[u][..i];
        d := d + adj[u][i].1;
      }
      assert adj[u][..|adj[u]|] == adj[u];
      deg := deg + [d];
    }
  }

  /** What the nodes with links send to v, and what the nodes without links hold. */
  ghost function Pushed(p: Walk, r: seq<real>, v: int): int -> real {
    (u: int) => if 0 <= u < |p.adj| && Degree(p, u) > 0.0 then At(r, u) / Degree(p, u) * Weight(p.adj[u], v) else 0.0
  }

  ghost function Dangling(p: Walk, r: seq<real>): int -> real {
    (u: int) => if 0 <= u < |p.adj| && Degree(p, u) <= 0.0 then At(r, u) else 0.0
  }

  /** Pushing along links plus spreading the dangling mass over the restart vector is one step of the walk. */
  lemma {:induction false} PushIsArriving(p: Walk, r: seq<real>, v: nat)
    requires v < |p.adj| == |p.teleport|
    ensures Arriving(p, Entries(r), v)
         == Sum(|p.adj|, Pushed(p, r, v)) + Sum(|p.adj|, Dangling(p, r)) * p.teleport[v]
  {
    hide StepTo, Degree, Pushed, Dangling, Sum;
    var n := |p.adj|;
    var spread := Scaled(p.teleport[v], Dangling(p, r));
    SumTimes(n, p.teleport[v], Dangling(p, r), spread);
    forall u | 0 <= u < n ensures Col(Flow(p, Entries(r)), v)(u) == Pushed(p, r, v)(u) + spread(u) {
      FlowSplits(p, r, u, v);
    }
    SumPlus(n, Pushed(p, r, v), spread, Col(Flow(p, Entries(r)), v));
  }

  lemma {:induction false} FlowSplits(p: Walk, r: seq<real>, u: nat, v: nat)
    requires u < |p.adj| && v < |p.adj| == |p.teleport|
    ensures Entries(r)(u) * StepTo(p, u, v) == Pushed(p, r, v)(u) + p.teleport[v] * Dangling(p, r)(u)
  {
    if Degree(p, u) > 0.0 { QuotientOfProduct(At(r, u), Weight(p.adj[u], v), Degree(p, u)); }
  }

  lemma {:induction false} QuotientOfProduct(x: real, w: real, d: real)
    requires d > 0.0
    ensures x * (w / d) == x / d * w
  {
    assert w == w / d * d;
    assert x / d * (w / d * d) == x / d * d * (w / d);
  }

  /** What a share sent along the links brings to node v. */
  ghost function Sent(l: seq<Link>, share: real, v: nat): real { share * Weight(l, v) }

  lemma {:induction false} SentNext(l: seq<Link>, i: nat, share: real)
    requires i < |l|
    ensures forall v: nat ::
      Sent(l[..i + 1], share, v) == Sent(l[..i], share, v) + if l[i].0 == v then share * l[i].1 else 0.0
  {
    hide Weight;
    assert l[..i + 1] == l[..i] + [l[i]];
    forall v: nat
      ensures Sent(l[..i + 1], share, v) == Sent(l[..i], share, v) + if l[i].0 == v then share * l[i].1 else 0.0
    {
      WeightSnoc(l[..i], l[i], v);
      Distribute(share, Weight(l[..i], v), l[i].1);
    }
  }

  lemma {:induction false} SentNone(share: real)
    ensures forall v: nat :: Sent([], share, v) == 0.0
  {}

  /** Send u's share along each of its links. */
  method Push(l: seq<Link>, share: real, next: array<real>)
    requires forall i :: 0 <= i < |l| ==> l[i].0 < next.Length
    modifies next
    ensures forall v :: 0 <= v < next.Length ==> next[v] == old(next[v]) + Sent(l, share, v)
  {
    hide Sent;
    SentNone(share);
    for i := 0 to |l|
      invariant forall v :: 0 <= v < next.Length ==> next[v] == old(next[v]) + Sent(l[..i], share, v)
    {
      SentNext(l, i, share);
      next[l[i].0] := next[l[i].0] + share * l[i].1;
    }
    assert l[..|l|] == l;
  }

  lemma {:induction false} NothingScattered(p: Walk, r: seq<real>)
    ensures Sum(0, Dangling(p, r)) == 0.0 && forall v: nat :: Sum(0, Pushed(p, r, v)) == 0.0
  {}

  lemma {:induction false} ScatterNext(p: Walk, r: seq<real>, u: nat)
    requires u < |p.adj| == |r|
    ensures Degree(p, u) <= 0.0 ==> Sum(u + 1, Dangling(p, r)) == Sum(u, Dangling(p, r)) + r[u]
    ensures Degree(p, u) <= 0.0 ==> forall v: nat :: Sum(u + 1, Pushed(p, r, v)) == Sum(u, Pushed(p, r, v))
    ensures Degree(p, u) > 0.0 ==> Sum(u + 1, Dangling(p, r)) == Sum(u, Dangling(p, r))
    ensures Degree(p, u) > 0.0 ==> forall v: nat ::
      Sum(u + 1, Pushed(p, r, v)) == Sum(u, Pushed(p, r, v)) + Sent(p.adj[u], r[u] / Degree(p, u), v)
  {
    hide Degree, Weight;
  }

  /** The scatter half of an iteration. */
  method Scatter(ghost p: Walk, adj: Adj, deg: seq<real>, rank: array<real>, next: array<real>) returns (dangling: real)
    requires WalkOk(p) && adj == p.adj && |deg| == |adj| == rank.Length == next.Length && rank != next
    requires forall u :: 0 <= u < |adj| ==> deg[u] == Degree(p, u)
    modifies next
    ensures dangling == Sum(|adj|, Dangling(p, rank[..]))
    ensures forall v :: 0 <= v < |adj| ==> next[v] == Sum(|adj|, Pushed(p, rank[..], v))
  {
    hide Degree, Pushed, Dangling, Sum, Sent;
    ghost var r := rank[..];
    NothingScattered(p, r);
    for i := 0 to next.Length
      invariant forall v :: 0 <= v < i ==> next[v] == 0.0
    {
      next[i] := 0.0;
    }
    dangling := 0.0;
    for u := 0 to |adj|
      invariant rank[..] == r
      invariant dangling == Sum(u, Dangling(p, r))
      invariant forall v :: 0 <= v < |adj| ==> next[v] == Sum(u, Pushed(p, r, v))
    {
      assert LinksInside(adj[u], |adj|);
      ScatterNext(p, r, u);
      if deg[u] <= 0.0 {
        dangling := dangling + rank[u];
        continue;
      }
      Push(adj[u], rank[u] / deg[u], next);
    }
  }

  /** One iteration, written into the other buffer. */
  method IterateInto(ghost p: Walk, a: real, teleport: seq<real>, adj: Adj, deg: seq<real>, rank: array<real>,
                     next: array<real>)
    requires WalkOk(p) && p == Walk(a, teleport, adj) && rank != next
    requires |deg| == |adj| == rank.Length == next.Length
    requires forall u :: 0 <= u < |adj| ==> deg[u] == Degree(p, u)
    modifies next
    ensures next[..] == Iterate(p, rank[..])
  {
    hide WalkOk, Arriving, Degree, Sum, Pushed, Dangling, NextAt;
    var dangling := Scatter(p, adj, deg, rank, next);
    ghost var r := rank[..];
    TeleportSize(p);
    for v := 0 to next.Length
      invariant rank[..] == r
      invariant forall x :: 0 <= x < v ==> next[x] == NextAt(p, r, x)
      invariant forall x :: v <= x < next.Length ==> next[x] == Sum(|adj|, Pushed(p, r, x))
    {
      PushIsArriving(p, r, v);
      var inflow := next[v] + dangling * teleport[v];
      assert inflow == Arriving(p, Entries(r), v);
      NextFrom(p, r, v, a, teleport[v], inflow);
      var y := a * teleport[v] + (1.0 - a) * inflow;
      assert y == NextAt(p, r, v);
      next[v] := y;
    }
  }

  lemma {:induction false} NextFrom(p: Walk, r: seq<real>, v: nat, a: real, t: real, inflow: real)
    requires a == p.a && t == At(p.teleport, v) && inflow == Arriving(p, Entries(r), v)
    ensures NextAt(p, r, v) == a * t + (1.0 - a) * inflow
  {}

  lemma {:induction false} TeleportSize(p: Walk)
    requires WalkOk(p)
    ensures |p.teleport| == |p.adj|
  {}

  /** Power iteration from the restart vector: every iterate is a distribution, and it approaches any fixed point. */
  method PersonalizedPageRank(adj: Adj, restart: seq<(nat, real)>, a: real, iters: nat)
    returns (result: seq<real>, ghost p: Walk)
    requires 0.0 <= a <= 1.0
    requires forall u :: 0 <= u < |adj| ==> LinksInside(adj[u], |adj|)
    requires forall i :: 0 <= i < |restart| ==> restart[i].1 >= 0.0
    ensures p.a == a && p.adj == adj && |result| == |adj| && TeleportOk(|adj|, restart, p.teleport)
    ensures |adj| > 0 ==> Distribution(result)
    ensures result == IterateTimes(p, p.teleport, iters) && (iters == 0 ==> result == p.teleport)
    ensures |adj| > 0 && iters > 0 ==> Receives(p, IterateTimes(p, p.teleport, iters - 1), result)
    ensures |adj| > 0 ==> forall fixed :: |fixed| == |adj| && Iterate(p, fixed) == fixed ==>
      Distance(|adj|, result, fixed) <= Power(1.0 - a, iters) * Distance(|adj|, p.teleport, fixed)
  {
    hide Iterate, Distance, Restart, Degree, Distribution, IterateTimes, Receives;
    var n := |adj|;
    var teleport := Teleport(n, restart);
    p := Walk(a, teleport, adj);
    if n == 0 {
      NoNodes(p, iters);
      return [], p;
    }
    var deg := Degrees(p, adj);
    result := Iterations(p, a, teleport, adj, deg, iters);
    forall fixed | |fixed| == n && Iterate(p, fixed) == fixed
      ensures Distance(n, result, fixed) <= Power(1.0 - a, iters) * Distance(n, teleport, fixed)
    {
      ConvergesToFixedPoint(p, teleport, fixed, iters);
    }
  }

  lemma {:induction false} NoNodes(p: Walk, t: nat)
    requires p.adj == [] && p.teleport == []
    ensures IterateTimes(p, [], t) == []
  {
    if t > 0 { NoNodes(p, t - 1); }
  }

  /** The iteration loop over two buffers that trade places. */
  method Iterations(ghost p: Walk, a: real, teleport: seq<real>, adj: Adj, deg: seq<real>, iters: nat)
    returns (result: seq<real>)
    requires WalkOk(p) && p == Walk(a, teleport, adj) && |deg| == |adj|
    requires forall u :: 0 <= u < |adj| ==> deg[u] == Degree(p, u)
    ensures |result| == |adj| && Distribution(result)
    ensures result == IterateTimes(p, teleport, iters) && (iters == 0 ==> result == teleport)
    ensures iters > 0 ==> Receives(p, IterateTimes(p, teleport, iters - 1), result)
  {
    hide WalkOk, Distribution, Degree, Iterate, Receives;
    TeleportSize(p);
    TeleportIsDistribution(p);
    var rank := new real[|adj|](i requires 0 <= i < |teleport| => teleport[i]);
    var next := new real[|adj|](_ => 0.0);
    assert rank[..] == teleport;
    for it := 0 to iters
      invariant fresh(rank) && fresh(next) && rank != next && rank.Length == next.Length == |adj|
      invariant rank[..] == IterateTimes(p, teleport, it) && Distribution(rank[..])
      invariant it > 0 ==> Receives(p, IterateTimes(p, teleport, it - 1), rank[..])
    {
      IterateReceives(p, rank[..]);
      IterateKeepsDistribution(p, rank[..]);
      IterateInto(p, a, teleport, adj, deg, rank, next);
      rank, next := next, rank;
    }
    result := rank[..];
  }

  lemma {:induction false} TeleportIsDistribution(p: Walk)
    requires WalkOk(p)
    ensures Distribution(p.teleport)
  {}
}
