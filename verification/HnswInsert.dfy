/** Inserting one node: greedy descent through the upper layers, then a search and a link in each layer it joins. */
module HnswInsert {
  import opened Sets
  import opened TopK
  import opened HnswGraph
  import opened LayerSearch
  import opened Selection
  import opened HnswLinks

  /** What an insertion depends on besides the graph: the bounds, and similarities of nodes to the query and to each other. */
  datatype Query = Query(M: nat, ef: nat, sim: nat -> real, near: (nat, nat) -> real)

  /** The neighbours a node takes among the nodes a search found. */
  ghost function Picked(q: Query, node: nat, L: nat, found: seq<nat>): seq<nat> {
    Selected(Scored(found, node, q.near), MaxLinks(q.M, L), q.near)
  }

  ghost predicate InLayer(nodes: seq<Node>, n: nat, L: nat) { n < |nodes| && L < |nodes[n].links| }

  /** What a search of layer L from a node of the layer finds: other nodes of the layer. */
  lemma {:induction false} FoundInLayer(nodes: seq<Node>, M: nat, L: nat, sim: nat -> real, cur: nat, ef: nat, node: nat)
    requires GraphOk(nodes, M) && InLayer(nodes, cur, L)
    ensures var found := Search(nodes, L, sim, cur, ef);
      found != [] && Distinct(found) && HaveLayer(nodes, L, found)
    ensures NoInLinks(nodes, node, L) && cur != node ==> node !in Search(nodes, L, sim, cur, ef)
  {
    hide Search, VisitedBy, GraphOk, NoInLinks;
    var found, visited := Search(nodes, L, sim, cur, ef), VisitedBy(nodes, L, sim, cur, ef);
    SearchFinds(nodes, L, sim, cur, ef);
    FoundNonEmpty(nodes, L, sim, cur, ef, visited, found);
    forall i | 0 <= i < |found| ensures found[i] < |nodes| && L < |nodes[found[i]].links| {
      ReachedHasLayer(nodes, M, L, cur, found[i]);
    }
    if NoInLinks(nodes, node, L) && cur != node && Reachable(nodes, L, cur, node) {
      NotReached(nodes, L, cur, node);
    }
  }

  /** Greedy descent from layer `top` to just above `level`, one step per layer. */
  ghost function Descend(nodes: seq<Node>, q: Query, cur: nat, top: nat, level: nat): (r: nat)
    requires GraphOk(nodes, q.M) && InLayer(nodes, cur, top)
    ensures r < |nodes| && InLayer(nodes, r, if top <= level then top else level)
    decreases top
  {
    if top <= level then cur
    else
      FoundInLayer(nodes, q.M, top, q.sim, cur, 1, 0);
      Descend(nodes, q, Search(nodes, top, q.sim, cur, 1)[0], top - 1, level)
  }

  /** The descent never ends at a node nobody links to. */
  lemma {:induction false} DescendAvoids(nodes: seq<Node>, q: Query, cur: nat, top: nat, level: nat, node: nat)
    requires GraphOk(nodes, q.M) && InLayer(nodes, cur, top) && cur != node
    requires forall l: nat :: l <= top ==> NoInLinks(nodes, node, l)
    ensures Descend(nodes, q, cur, top, level) != node
    decreases top
  {
    hide Search, NoInLinks, GraphOk;
    if top > level {
      FoundInLayer(nodes, q.M, top, q.sim, cur, 1, node);
      DescendAvoids(nodes, q, Search(nodes, top, q.sim, cur, 1)[0], top - 1, level, node);
    }
  }

  /** No neighbour of n in layer L is more similar. */
  ghost predicate LocallyBest(nodes: seq<Node>, L: nat, sim: nat -> real, n: nat) {
    n < |nodes| && forall nb: nat :: nb in Neighbours(nodes, n, L) && nb < |nodes| ==> sim(nb) <= sim(n)
  }

  /** The best node of a search is a local optimum at least as similar as the node the search started from. */
  lemma {:induction false} FirstIsLocallyBest(nodes: seq<Node>, L: nat, sim: nat -> real, cur: nat, ef: nat)
    requires cur < |nodes|
    ensures var found := Search(nodes, L, sim, cur, ef);
      found != [] && LocallyBest(nodes, L, sim, found[0]) && sim(cur) <= sim(found[0])
  {
    hide Search, VisitedBy, Reachable, Neighbours;
    var found, visited := Search(nodes, L, sim, cur, ef), VisitedBy(nodes, L, sim, cur, ef);
    SearchFinds(nodes, L, sim, cur, ef);
    FoundNonEmpty(nodes, L, sim, cur, ef, visited, found);
    assert Expanded(nodes, L, visited, found[0]);
    forall nb: nat | nb in Neighbours(nodes, found[0], L) && nb < |nodes| ensures sim(nb) <= sim(found[0]) {
      assert nb in visited;
      if nb in found { var i :| 0 <= i < |found| && found[i] == nb; }
    }
  }

  /** The descent ends at a local optimum of the last layer it went through, at least as similar as its start. */
  lemma {:induction false} DescendImproves(nodes: seq<Node>, q: Query, cur: nat, top: nat, level: nat)
    requires GraphOk(nodes, q.M) && InLayer(nodes, cur, top)
    ensures var r := Descend(nodes, q, cur, top, level);
      q.sim(cur) <= q.sim(r) && (level < top ==> LocallyBest(nodes, level + 1, q.sim, r))
    decreases top
  {
    hide Search, GraphOk, LocallyBest;
    if top > level {
      FoundInLayer(nodes, q.M, top, q.sim, cur, 1, 0);
      FirstIsLocallyBest(nodes, top, q.sim, cur, 1);
      DescendImproves(nodes, q, Search(nodes, top, q.sim, cur, 1)[0], top - 1, level);
    }
  }

  /** The node belongs to layers below k, nobody links to it there yet, and `cur` can start the search of layer k - 1. */
  ghost predicate CanInsert(nodes: seq<Node>, M: nat, node: nat, cur: nat, k: nat) {
    && GraphOk(nodes, M) && node < |nodes| && cur < |nodes| && cur != node
    && k <= |nodes[node].links| && (k == 0 || InLayer(nodes, cur, k - 1))
    && forall l: nat :: l < k ==> NoInLinks(nodes, node, l)
  }

  ghost function JoinedLayer(nodes: seq<Node>, q: Query, node: nat, cur: nat, L: nat): (r: seq<Node>)
    requires CanInsert(nodes, q.M, node, cur, L + 1)
    ensures SameShape(nodes, r)
  {
    var found := Search(nodes, L, q.sim, cur, q.ef);
    PickedOk(nodes, q, node, cur, L);
    Linked(nodes, node, L, Picked(q, node, L, found), q.M, q.near)
  }

  lemma {:induction false} PickedOk(nodes: seq<Node>, q: Query, node: nat, cur: nat, L: nat)
    requires CanInsert(nodes, q.M, node, cur, L + 1)
    ensures var found := Search(nodes, L, q.sim, cur, q.ef);
      && found != [] && HaveLayer(nodes, L, found) && node !in found
      && ListOk(nodes, q.M, node, L, Picked(q, node, L, found))
      && |Picked(q, node, L, found)| == Min(MaxLinks(q.M, L), |found|)
  {
    hide Search, GraphOk, Selected, Scored, NoInLinks;
    var found := Search(nodes, L, q.sim, cur, q.ef);
    FoundInLayer(nodes, q.M, L, q.sim, cur, q.ef, node);
    SelectionOk(found, node, MaxLinks(q.M, L), q.near);
    PartHasLayer(nodes, L, found, Picked(q, node, L, found));
  }

  lemma {:induction false} PartHasLayer(nodes: seq<Node>, L: nat, list: seq<nat>, part: seq<nat>)
    requires HaveLayer(nodes, L, list) && forall x :: x in part ==> x in list
    ensures HaveLayer(nodes, L, part)
  {
    forall i | 0 <= i < |part| ensures part[i] < |nodes| && L < |nodes[part[i]].links| {
      assert part[i] in part;
    }
  }

  /** Joining layer L leaves the node ready to join the layer below. */
  lemma {:induction false} JoinedKeeps(nodes: seq<Node>, q: Query, node: nat, cur: nat, L: nat)
    requires CanInsert(nodes, q.M, node, cur, L + 1)
    ensures var r, found := JoinedLayer(nodes, q, node, cur, L), Search(nodes, L, q.sim, cur, q.ef);
      && CanInsert(r, q.M, node, found[0], L)
      && r[node].links[L] == Picked(q, node, L, found)
      && (forall x :: x in r[node].links[L] ==> LinksBack(r, x, L, node, q.M))
      && forall n, l :: 0 <= n < |nodes| && 0 <= l < |nodes[n].links| && l != L ==> r[n].links[l] == nodes[n].links[l]
  {
    hide Search, GraphOk, Selected, Scored, LinksBack;
    var found := Search(nodes, L, q.sim, cur, q.ef);
    PickedOk(nodes, q, node, cur, L);
    LinkedKeeps(nodes, node, L, Picked(q, node, L, found), q.M, q.near);
    var r := JoinedLayer(nodes, q, node, cur, L);
    assert found[0] in found;
    forall l: nat | l < L ensures NoInLinks(r, node, l) {
      assert NoInLinks(nodes, node, l);
    }
  }

  lemma {:induction false} JoinedReady(nodes: seq<Node>, q: Query, node: nat, cur: nat, L: nat)
    requires CanInsert(nodes, q.M, node, cur, L + 1)
    ensures Search(nodes, L, q.sim, cur, q.ef) != []
    ensures CanInsert(JoinedLayer(nodes, q, node, cur, L), q.M, node, Search(nodes, L, q.sim, cur, q.ef)[0], L)
  {
    hide Search, CanInsert, JoinedLayer;
    PickedOk(nodes, q, node, cur, L);
    JoinedKeeps(nodes, q, node, cur, L);
  }

  /** Joining layers k - 1 down to 0, each search starting at the best node found in the layer above. */
  ghost function Insert(nodes: seq<Node>, q: Query, node: nat, cur: nat, k: nat): (r: seq<Node>)
    requires CanInsert(nodes, q.M, node, cur, k)
    decreases k
  {
    if k == 0 then nodes
    else
      hide JoinedLayer, Search;
      JoinedReady(nodes, q, node, cur, k - 1);
      Insert(JoinedLayer(nodes, q, node, cur, k - 1), q, node, Search(nodes, k - 1, q.sim, cur, q.ef)[0], k - 1)
  }

  /** After insertion the graph is within its bounds, only the joined layers changed, and the node has neighbours in each. */
  lemma {:induction false} InsertKeeps(nodes: seq<Node>, q: Query, node: nat, cur: nat, k: nat)
    requires CanInsert(nodes, q.M, node, cur, k)
    ensures var r := Insert(nodes, q, node, cur, k);
      && SameShape(nodes, r) && GraphOk(r, q.M)
      && (forall n, l :: 0 <= n < |nodes| && k <= l < |nodes[n].links| ==> r[n].links[l] == nodes[n].links[l])
      && (q.M > 0 ==> forall l :: 0 <= l < k ==> r[node].links[l] != [])
      && (forall x, l: nat :: l < k && x in r[node].links[l] ==> LinksBack(r, x, l, node, q.M))
    decreases k
  {
    hide GraphOk, Search, LinksBack, JoinedLayer, NoInLinks, Picked;
    if k > 0 {
      var L := k - 1;
      var r1, found := JoinedLayer(nodes, q, node, cur, L), Search(nodes, L, q.sim, cur, q.ef);
      PickedOk(nodes, q, node, cur, L);
      JoinedKeeps(nodes, q, node, cur, L);
      InsertKeeps(r1, q, node, found[0], L);
      var r := Insert(nodes, q, node, cur, k);
      assert r == Insert(r1, q, node, found[0], L);
      ShapeTransitive(nodes, r1, r);
      forall x, l: nat | l < k && x in r[node].links[l] ensures LinksBack(r, x, l, node, q.M) {
        if l == L { SameLayerLinksBack(r1, r, x, L, node, q.M); }
      }
    }
  }

  lemma {:induction false} ShapeTransitive(a: seq<Node>, b: seq<Node>, c: seq<Node>)
    requires SameShape(a, b) && SameShape(b, c)
    ensures SameShape(a, c)
  {}

  lemma {:induction false} SameLayerLinksBack(a: seq<Node>, b: seq<Node>, x: nat, L: nat, node: nat, M: nat)
    requires SameShape(a, b) && LinksBack(a, x, L, node, M)
    requires forall n, l :: 0 <= n < |a| && L <= l < |a[n].links| ==> b[n].links[l] == a[n].links[l]
    ensures LinksBack(b, x, L, node, M)
  {}
}
