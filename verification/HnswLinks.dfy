/** Installing a node's neighbours in one layer, with pruned links back. */
module HnswLinks {
  import opened Sets
  import opened TopK
  import opened HnswGraph
  import opened Selection

  /** The most neighbours a node may have in layer L. */
  function MaxLinks(M: nat, L: nat): nat { if L == 0 then 2 * M else M }

  function SetList(nodes: seq<Node>, n: nat, L: nat, list: seq<nat>): seq<Node>
    requires n < |nodes| && L < |nodes[n].links|
  {
    nodes[n := nodes[n].(links := nodes[n].links[L := list])]
  }

  ghost predicate HaveLayer(nodes: seq<Node>, L: nat, list: seq<nat>) {
    forall i :: 0 <= i < |list| ==> list[i] < |nodes| && L < |nodes[list[i]].links|
  }

  /** A list that node n may hold in layer L: bounded, without repetition or n itself, of nodes that have the layer. */
  ghost predicate ListOk(nodes: seq<Node>, M: nat, n: nat, L: nat, list: seq<nat>) {
    && |list| <= MaxLinks(M, L)
    && Distinct(list) && n !in list
    && HaveLayer(nodes, L, list)
  }

  ghost predicate GraphOk(nodes: seq<Node>, M: nat) {
    forall n, L :: 0 <= n < |nodes| && 0 <= L < |nodes[n].links| ==> ListOk(nodes, M, n, L, nodes[n].links[L])
  }

  /** Same nodes, same layers; only neighbour lists differ. */
  ghost predicate SameShape(a: seq<Node>, b: seq<Node>) {
    |a| == |b| && forall n :: 0 <= n < |a| ==> |a[n].links| == |b[n].links| && b[n] == a[n].(links := b[n].links)
  }

  /** Only the layer-L lists of the given nodes differ. */
  ghost predicate OnlyChanged(a: seq<Node>, b: seq<Node>, L: nat, who: set<nat>) {
    SameShape(a, b) && forall n, l :: 0 <= n < |a| && 0 <= l < |a[n].links| && (l != L || n !in who) ==>
      b[n].links[l] == a[n].links[l]
  }

  lemma {:induction false} SetListKeeps(nodes: seq<Node>, M: nat, n: nat, L: nat, list: seq<nat>)
    requires n < |nodes| && L < |nodes[n].links| && GraphOk(nodes, M) && ListOk(nodes, M, n, L, list)
    ensures GraphOk(SetList(nodes, n, L, list), M) && OnlyChanged(nodes, SetList(nodes, n, L, list), L, {n})
  {
    var r := SetList(nodes, n, L, list);
    forall m, l | 0 <= m < |r| && 0 <= l < |r[m].links| ensures ListOk(r, M, m, l, r[m].links[l]) {
      assert ListOk(nodes, M, m, l, r[m].links[l]);
    }
  }

  lemma {:induction false} ListOkAgrees(a: seq<Node>, b: seq<Node>, M: nat, n: nat, L: nat, list: seq<nat>)
    requires SameShape(a, b) && ListOk(a, M, n, L, list)
    ensures ListOk(b, M, n, L, list)
  {}

  // ----- One link back -----

  function WithBack(list: seq<nat>, node: nat): seq<nat> { if node in list then list else list + [node] }

  /** A list over its bound is cut down by the selection heuristic. */
  ghost function Pruned(list: seq<nat>, nb: nat, cap: nat, near: (nat, nat) -> real): seq<nat> {
    if |list| > cap then Selected(Scored(list, nb, near), cap, near) else list
  }

  lemma {:induction false} PrunedOk(list: seq<nat>, nb: nat, cap: nat, near: (nat, nat) -> real)
    requires Distinct(list)
    ensures var r := Pruned(list, nb, cap, near);
      |r| == Min(|list|, cap) && Distinct(r) && forall x :: x in r ==> x in list
  {
    SelectionOk(list, nb, cap, near);
  }

  /** What is selected among candidates is a bounded, repetition-free part of them. */
  lemma {:induction false} SelectionOk(cands: seq<nat>, node: nat, cap: nat, near: (nat, nat) -> real)
    requires Distinct(cands)
    ensures var r := Selected(Scored(cands, node, near), cap, near);
      |r| == Min(cap, |cands|) && Distinct(r) && forall x :: x in r ==> x in cands
  {
    var scored := Scored(cands, node, near);
    SelectedIsWell(scored, cap, near);
    var r := Selected(scored, cap, near);
    forall x | x in r ensures x in cands {
      var i :| 0 <= i < |r| && r[i] == x;
      var p :| 0 <= p < |scored| && scored[p].doc == r[i];
      assert scored[p] in scored;
    }
  }

  lemma {:induction false} StillHaveLayer(nodes: seq<Node>, L: nat, list: seq<nat>, node: nat, r: seq<nat>)
    requires HaveLayer(nodes, L, list) && node < |nodes| && L < |nodes[node].links|
    requires forall x :: x in r ==> x in list || x == node
    ensures HaveLayer(nodes, L, r)
  {
    forall i | 0 <= i < |r| ensures r[i] < |nodes| && L < |nodes[r[i]].links| {
      assert r[i] in r;
    }
  }

  ghost function BackLink(nodes: seq<Node>, nb: nat, L: nat, node: nat, M: nat, near: (nat, nat) -> real): seq<Node>
    requires nb < |nodes| && L < |nodes[nb].links|
  {
    SetList(nodes, nb, L, Pruned(WithBack(nodes[nb].links[L], node), nb, MaxLinks(M, L), near))
  }

  lemma {:induction false} WithBackDistinct(list: seq<nat>, node: nat)
    requires Distinct(list)
    ensures Distinct(WithBack(list, node)) && forall x :: x in WithBack(list, node) <==> x in list || x == node
  {}

  lemma {:induction false} BackLinkKeeps(nodes: seq<Node>, nb: nat, L: nat, node: nat, M: nat, near: (nat, nat) -> real)
    requires GraphOk(nodes, M) && nb < |nodes| && node < |nodes| && nb != node
    requires L < |nodes[nb].links| && L < |nodes[node].links|
    ensures var r := BackLink(nodes, nb, L, node, M, near);
      GraphOk(r, M) && OnlyChanged(nodes, r, L, {nb})
  {
    hide Selected, Scored;
    var list := nodes[nb].links[L];
    assert ListOk(nodes, M, nb, L, list);
    WithBackDistinct(list, node);
    PrunedOk(WithBack(list, node), nb, MaxLinks(M, L), near);
    StillHaveLayer(nodes, L, list, node, Pruned(WithBack(list, node), nb, MaxLinks(M, L), near));
    SetListKeeps(nodes, M, nb, L, Pruned(WithBack(list, node), nb, MaxLinks(M, L), near));
  }

  // ----- A whole list with its links back -----

  /** links[..] take the node into their own lists, one after the other. */
  ghost function BackLinkAll(nodes: seq<Node>, links: seq<nat>, L: nat, node: nat, M: nat, near: (nat, nat) -> real): (r: seq<Node>)
    requires HaveLayer(nodes, L, links)
    ensures SameShape(nodes, r)
  {
    if links == [] then nodes
    else
      var less, nb := links[..|links| - 1], links[|links| - 1];
      BackLink(BackLinkAll(nodes, less, L, node, M, near), nb, L, node, M, near)
  }

  lemma {:induction false} InstallKeepsLayer(nodes: seq<Node>, node: nat, L: nat, links: seq<nat>)
    requires HaveLayer(nodes, L, links) && node < |nodes| && L < |nodes[node].links|
    ensures HaveLayer(SetList(nodes, node, L, links), L, links)
  {}

  lemma {:induction false} NoBackLinks(nodes: seq<Node>, L: nat, node: nat, M: nat, near: (nat, nat) -> real)
    ensures HaveLayer(nodes, L, []) && BackLinkAll(nodes, [], L, node, M, near) == nodes
  {}

  lemma {:induction false} BackLinkNext(nodes: seq<Node>, links: seq<nat>, i: nat, L: nat, node: nat, M: nat,
                                        near: (nat, nat) -> real)
    requires HaveLayer(nodes, L, links) && i < |links|
    ensures HaveLayer(nodes, L, links[..i]) && HaveLayer(nodes, L, links[..i + 1])
    ensures var linked, nb := BackLinkAll(nodes, links[..i], L, node, M, near), links[i];
      && nb < |linked| && L < |linked[nb].links|
      && BackLinkAll(nodes, links[..i + 1], L, node, M, near) == BackLink(linked, nb, L, node, M, near)
  {
    hide BackLink;
    assert links[..i + 1][..i] == links[..i];
  }

  ghost function Linked(nodes: seq<Node>, node: nat, L: nat, links: seq<nat>, M: nat, near: (nat, nat) -> real): (r: seq<Node>)
    requires node < |nodes| && L < |nodes[node].links|
    requires HaveLayer(nodes, L, links)
    ensures SameShape(nodes, r)
  {
    BackLinkAll(SetList(nodes, node, L, links), links, L, node, M, near)
  }

  /** After its turn every neighbour either links back or has pruned a list to its bound. */
  ghost predicate LinksBack(nodes: seq<Node>, nb: nat, L: nat, node: nat, M: nat) {
    nb < |nodes| && L < |nodes[nb].links| ==>
      node in nodes[nb].links[L] || |nodes[nb].links[L]| == MaxLinks(M, L)
  }

  lemma {:induction false} BackLinkAllKeeps(nodes: seq<Node>, links: seq<nat>, L: nat, node: nat, M: nat, near: (nat, nat) -> real)
    requires GraphOk(nodes, M) && node < |nodes| && L < |nodes[node].links| && Distinct(links)
    requires HaveLayer(nodes, L, links) && node !in links
    ensures var r := BackLinkAll(nodes, links, L, node, M, near);
      GraphOk(r, M) && OnlyChanged(nodes, r, L, ElementsOf(links))
      && forall x :: x in links ==> LinksBack(r, x, L, node, M)
  {
    if links != [] {
      hide GraphOk, BackLink, LinksBack, OnlyChanged;
      var less, nb := links[..|links| - 1], links[|links| - 1];
      assert links == less + [nb];
      BackLinkAllKeeps(nodes, less, L, node, M, near);
      var before := BackLinkAll(nodes, less, L, node, M, near);
      var r := BackLink(before, nb, L, node, M, near);
      BackLinkKeeps(before, nb, L, node, M, near);
      BackLinkLinks(before, nb, L, node, M, near);
      assert ElementsOf(links) == ElementsOf(less) + {nb};
      ChangesCompose(nodes, before, r, L, ElementsOf(less), {nb});
      forall x | x in links ensures LinksBack(r, x, L, node, M) {
        if x != nb { StillLinksBack(before, r, x, L, node, M, nb); }
      }
    }
  }

  lemma {:induction false} StillLinksBack(a: seq<Node>, b: seq<Node>, x: nat, L: nat, node: nat, M: nat, nb: nat)
    requires OnlyChanged(a, b, L, {nb}) && LinksBack(a, x, L, node, M) && x != nb
    ensures LinksBack(b, x, L, node, M)
  {}

  lemma {:induction false} ChangesCompose(a: seq<Node>, b: seq<Node>, c: seq<Node>, L: nat, first: set<nat>, second: set<nat>)
    requires OnlyChanged(a, b, L, first) && OnlyChanged(b, c, L, second)
    ensures OnlyChanged(a, c, L, first + second)
  {}

  lemma {:induction false} BackLinkLinks(nodes: seq<Node>, nb: nat, L: nat, node: nat, M: nat, near: (nat, nat) -> real)
    requires GraphOk(nodes, M) && nb < |nodes| && L < |nodes[nb].links|
    ensures LinksBack(BackLink(nodes, nb, L, node, M, near), nb, L, node, M)
  {
    var list := nodes[nb].links[L];
    assert ListOk(nodes, M, nb, L, list);
    WithBackDistinct(list, node);
    PrunedOk(WithBack(list, node), nb, MaxLinks(M, L), near);
  }

  /** Linking a node keeps the graph's bounds, changes only that node and its new neighbours, and links back or prunes. */
  lemma {:induction false} LinkedKeeps(nodes: seq<Node>, node: nat, L: nat, links: seq<nat>, M: nat, near: (nat, nat) -> real)
    requires GraphOk(nodes, M) && node < |nodes| && L < |nodes[node].links| && ListOk(nodes, M, node, L, links)
    ensures var r := Linked(nodes, node, L, links, M, near);
      && GraphOk(r, M) && OnlyChanged(nodes, r, L, ElementsOf(links) + {node})
      && r[node].links[L] == links
      && forall x :: x in links ==> LinksBack(r, x, L, node, M)
  {
    hide GraphOk;
    SetListKeeps(nodes, M, node, L, links);
    BackLinkAllKeeps(SetList(nodes, node, L, links), links, L, node, M, near);
  }

  /** Nobody links to the node in layer L. */
  ghost predicate NoInLinks(nodes: seq<Node>, node: nat, L: nat) {
    forall n :: 0 <= n < |nodes| && L < |nodes[n].links| ==> node !in nodes[n].links[L]
  }

  /** A node nobody links to is not found from elsewhere. */
  lemma {:induction false} NotReached(nodes: seq<Node>, L: nat, entry: nat, node: nat)
    requires NoInLinks(nodes, node, L) && Reachable(nodes, L, entry, node)
    ensures entry == node
  {
    var path :| IsPath(nodes, L, path) && path[0] == entry && path[|path| - 1] == node;
    forall i | 0 < i < |path| ensures path[i] != node {
      assert path[i] in Neighbours(nodes, path[i - 1], L);
    }
  }

  /** Everything reachable in a layer from a node of the layer has the layer. */
  lemma {:induction false} ReachedHasLayer(nodes: seq<Node>, M: nat, L: nat, entry: nat, v: nat)
    requires GraphOk(nodes, M) && Reachable(nodes, L, entry, v) && entry < |nodes| && L < |nodes[entry].links|
    ensures v < |nodes| && L < |nodes[v].links|
  {
    var path :| IsPath(nodes, L, path) && path[0] == entry && path[|path| - 1] == v;
    var i := 0;
    while i + 1 < |path|
      invariant 0 <= i < |path| && L < |nodes[path[i]].links|
    {
      assert ListOk(nodes, M, path[i], L, nodes[path[i]].links[L]);
      i := i + 1;
      assert path[i] in Neighbours(nodes, path[i - 1], L);
    }
  }
}
