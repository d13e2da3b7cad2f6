/** Weighted undirected adjacency lists: how they are built from edges, and sums over them. */
module Adjacency {
  import opened Arithmetic
  import opened Sums

  type Link = (nat, real)

  type Adj = seq<seq<Link>>

  /** w1 f(v1) + w2 f(v2) + ... over the links of one node. */
  ghost function LinkSum(l: seq<Link>, f: int -> real): real {
    if l == [] then 0.0 else LinkSum(l[..|l| - 1], f) + l[|l| - 1].1 * f(l[|l| - 1].0)
  }

  function Indicator(v: int): int -> real { (x: int) => if x == v then 1.0 else 0.0 }

  /** The total weight of the links to v. */
  ghost function Weight(l: seq<Link>, v: int): real { LinkSum(l, Indicator(v)) }

  ghost predicate LinksOk(l: seq<Link>, u: nat, n: nat) {
    forall i :: 0 <= i < |l| ==> l[i].0 < n && l[i].0 != u
  }

  /** No self links, and the same weight, of whatever sign, seen from both ends. */
  ghost predicate GraphOk(adj: Adj) {
    && (forall u :: 0 <= u < |adj| ==> LinksOk(adj[u], u, |adj|))
    && (forall u, v :: 0 <= u < |adj| && 0 <= v < |adj| ==> Weight(adj[u], v) == Weight(adj[v], u))
  }

  ghost predicate Linked(l: seq<Link>, v: nat) { exists i :: 0 <= i < |l| && l[i].0 == v }

  /** Every link has one back. */
  ghost predicate TwoWay(adj: Adj) {
    forall u, v :: 0 <= u < |adj| && 0 <= v < |adj| && Linked(adj[u], v) ==> Linked(adj[v], u)
  }

  // ----- Sums over links -----

  lemma {:induction false} LinkSumEqual(l: seq<Link>, f: int -> real, g: int -> real)
    requires forall i :: 0 <= i < |l| ==> f(l[i].0) == g(l[i].0)
    ensures LinkSum(l, f) == LinkSum(l, g)
  {
    if l != [] {
      assert forall i :: 0 <= i < |l| - 1 ==> l[..|l| - 1][i] == l[i];
      LinkSumEqual(l[..|l| - 1], f, g);
    }
  }

  lemma {:induction false} Distribute3(w: real, x: real, c: real, y: real)
    ensures w * (x + c * y) == w * x + c * (w * y)
  {}

  lemma {:induction false} LinkSumLinear(l: seq<Link>, f: int -> real, c: real, g: int -> real, h: int -> real)
    requires forall i :: 0 <= i < |l| ==> h(l[i].0) == f(l[i].0) + c * g(l[i].0)
    ensures LinkSum(l, h) == LinkSum(l, f) + c * LinkSum(l, g)
  {
    if l != [] {
      var r, x := l[..|l| - 1], l[|l| - 1];
      assert forall i :: 0 <= i < |r| ==> r[i] == l[i];
      LinkSumLinear(r, f, c, g, h);
      Distribute3(x.1, f(x.0), c, g(x.0));
      Distribute(c, LinkSum(r, g), x.1 * g(x.0));
    }
  }

  ghost function WeightTimes(l: seq<Link>, f: int -> real): int -> real { (v: int) => Weight(l, v) * f(v) }

  lemma {:induction false} WeightNone(v: int)
    ensures Weight([], v) == 0.0
  {}

  /** A sum over links is a sum over all nodes, weighted by the link weights. */
  lemma {:induction false} LinkSumAsSum(l: seq<Link>, n: nat, f: int -> real)
    requires forall i :: 0 <= i < |l| ==> l[i].0 < n
    ensures LinkSum(l, f) == Sum(n, WeightTimes(l, f))
  {
    hide Sum, Weight;
    if l == [] {
      forall v | 0 <= v < n ensures WeightTimes(l, f)(v) == 0.0 { WeightNone(v); }
      SumZero(n, WeightTimes(l, f));
    } else {
      var r, x := l[..|l| - 1], l[|l| - 1];
      assert forall i :: 0 <= i < |r| ==> r[i] == l[i];
      LinkSumAsSum(r, n, f);
      forall v | 0 <= v < n && v != x.0 ensures WeightTimes(l, f)(v) == WeightTimes(r, f)(v) {
        assert l == r + [x];
        WeightSnoc(r, x, v);
      }
      WeightSnoc(r, x, x.0);
      assert l == r + [x];
      SumChangeOne(n, WeightTimes(r, f), WeightTimes(l, f), x.0);
      Distribute(f(x.0), Weight(r, x.0), x.1);
    }
  }

  lemma {:induction false} LinkSumNonNegative(l: seq<Link>, f: int -> real)
    requires forall i :: 0 <= i < |l| ==> l[i].1 >= 0.0 && f(l[i].0) >= 0.0
    ensures LinkSum(l, f) >= 0.0
  {
    if l != [] {
      var r := l[..|l| - 1];
      assert forall i :: 0 <= i < |r| ==> r[i] == l[i];
      LinkSumNonNegative(r, f);
      ProductNonNegative(l[|l| - 1].1, f(l[|l| - 1].0));
    }
  }

  // ----- From edges to lists -----

  /** Undirected edges, keyed with the smaller end first. */
  type Edges = map<(nat, nat), real>

  function Key(x: nat, y: nat): (nat, nat) { if x > y then (y, x) else (x, y) }

  ghost predicate EdgesOk(e: Edges, n: nat) {
    forall k :: k in e ==> k.0 < k.1 < n
  }

  ghost function EdgeWeight(e: Edges, x: nat, y: nat): real { if Key(x, y) in e then e[Key(x, y)] else 0.0 }

  /** Add to an edge's weight; self edges are ignored. */
  method AddEdge(e: Edges, x: nat, y: nat, w: real, ghost n: nat) returns (r: Edges)
    requires EdgesOk(e, n) && x < n && y < n
    ensures EdgesOk(r, n)
    ensures x == y ==> r == e
    ensures x != y ==> forall a: nat, b: nat ::
      EdgeWeight(r, a, b) == EdgeWeight(e, a, b) + if Key(a, b) == Key(x, y) then w else 0.0
  {
    if x == y { return e; }
    var k := Key(x, y);
    r := e[k := if k in e then e[k] + w else w];
  }

  /** Every link has the weight of its edge. */
  ghost predicate CarriesEdges(adj: Adj, e: Edges) {
    forall u: nat, i :: u < |adj| && 0 <= i < |adj[u]| ==>
      Key(u, adj[u][i].0) in e && adj[u][i].1 == e[Key(u, adj[u][i].0)]
  }

  /** The edges of e leaving u, in the order the pass over them found them. */
  ghost predicate ListsEdges(adj: Adj, e: Edges) {
    && (forall u :: 0 <= u < |adj| ==> LinksOk(adj[u], u, |adj|))
    && (forall u: nat, v: nat :: u < |adj| && v < |adj| ==> Weight(adj[u], v) == if u == v then 0.0 else EdgeWeight(e, u, v))
  }

  lemma {:induction false} WeightSnoc(l: seq<Link>, x: Link, v: int)
    ensures Weight(l + [x], v) == Weight(l, v) + if x.0 == v then x.1 else 0.0
  {
    assert (l + [x])[..|l|] == l;
  }

  /** Both directions of every edge, whatever order the edges come in. */
  method Materialise(n: nat, e: Edges) returns (adj: Adj)
    requires EdgesOk(e, n)
    ensures |adj| == n && GraphOk(adj) && TwoWay(adj) && CarriesEdges(adj, e)
    ensures forall u: nat, v: nat :: u < n && v < n && u != v ==> Weight(adj[u], v) == EdgeWeight(e, u, v)
  {
    hide LinksOk, Weight, ListsEdges, TwoWay, CarriesEdges;
    adj := seq(n, i => []);
    NoEdges(n);
    var rest := e.Keys;
    ghost var done: Edges := map[];
    while rest != {}
      invariant rest <= e.Keys && done.Keys == e.Keys - rest && forall k :: k in done ==> done[k] == e[k]
      invariant |adj| == n && ListsEdges(adj, done) && TwoWay(adj) && CarriesEdges(adj, done)
      decreases |rest|
    {
      var k :| k in rest;
      var (a, b) := k;
      ghost var was := adj;
      adj := adj[a := adj[a] + [(b, e[k])]];
      adj := adj[b := adj[b] + [(a, e[k])]];
      OneMoreEdge(was, adj, done, k, e[k]);
      EdgeIsTwoWay(was, adj, k, e[k]);
      EdgeIsCarried(was, adj, done, k, e[k]);
      done := done[k := e[k]];
      rest := rest - {k};
    }
    assert done == e;
    ListsAreGraph(adj, e);
  }

  lemma {:induction false} NoEdges(n: nat)
    ensures ListsEdges(seq(n, i => []), map[]) && TwoWay(seq(n, i => [])) && CarriesEdges(seq(n, i => []), map[])
  {
    assert forall v :: Weight([], v) == 0.0;
  }

  lemma {:induction false} ListsAreGraph(adj: Adj, e: Edges)
    requires ListsEdges(adj, e)
    ensures GraphOk(adj)
    ensures forall u: nat, v: nat :: u < |adj| && v < |adj| && u != v ==> Weight(adj[u], v) == EdgeWeight(e, u, v)
  {}

  lemma {:induction false} EdgeIsTwoWay(was: Adj, adj: Adj, k: (nat, nat), w: real)
    requires TwoWay(was) && k.0 < k.1 < |was|
    requires adj == was[k.0 := was[k.0] + [(k.1, w)]][k.1 := was[k.1] + [(k.0, w)]]
    ensures TwoWay(adj)
  {
    forall u: nat, v: nat | u < |adj| && v < |adj|
      ensures Linked(adj[u], v) <==> Linked(was[u], v) || (u == k.0 && v == k.1) || (u == k.1 && v == k.0)
    {
      LinkedSnoc(was[k.0], (k.1, w), v);
      LinkedSnoc(was[k.1], (k.0, w), v);
    }
  }

  lemma {:induction false} EdgeIsCarried(was: Adj, adj: Adj, done: Edges, k: (nat, nat), w: real)
    requires CarriesEdges(was, done) && k.0 < k.1 < |was| && k !in done
    requires adj == was[k.0 := was[k.0] + [(k.1, w)]][k.1 := was[k.1] + [(k.0, w)]]
    ensures CarriesEdges(adj, done[k := w])
  {
    forall u: nat, i | u < |adj| && 0 <= i < |adj[u]|
      ensures Key(u, adj[u][i].0) in done[k := w] && adj[u][i].1 == done[k := w][Key(u, adj[u][i].0)]
    {
      if i < |was[u]| { assert adj[u][i] == was[u][i]; }
    }
  }

  lemma {:induction false} LinkedSnoc(l: seq<Link>, x: Link, v: nat)
    ensures Linked(l + [x], v) <==> Linked(l, v) || x.0 == v
  {
    var more := l + [x];
    assert more[|l|] == x;
    assert forall i :: 0 <= i < |l| ==> more[i] == l[i];
  }

  lemma {:induction false} OneMoreEdge(was: Adj, adj: Adj, done: Edges, k: (nat, nat), w: real)
    requires ListsEdges(was, done) && k.0 < k.1 < |was| && k !in done
    requires adj == was[k.0 := was[k.0] + [(k.1, w)]][k.1 := was[k.1] + [(k.0, w)]]
    ensures ListsEdges(adj, done[k := w])
  {
    forall u: nat, v: nat | u < |adj| && v < |adj|
      ensures Weight(adj[u], v) == if u == v then 0.0 else EdgeWeight(done[k := w], u, v)
    {
      WeightSnoc(was[k.0], (k.1, w), v);
      WeightSnoc(was[k.1], (k.0, w), v);
    }
  }
}
