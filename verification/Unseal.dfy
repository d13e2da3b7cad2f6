/** Adding to a sealed index: the lists are restored from the packed form first. */
module Unseal {
  import opened HnswGraph
  import opened HnswLinks
  import opened HnswIndex
  import opened Csr

  /** The graph as it comes back: every node keeps its lists up to its last non-empty one. */
  ghost function Unsealed(nodes: seq<Node>): (r: seq<Node>)
    ensures |r| == |nodes|
    ensures forall n :: 0 <= n < |nodes| ==> r[n] == nodes[n].(links := Trimmed(nodes[n].links))
  {
    seq(|nodes|, n requires 0 <= n < |nodes| => nodes[n].(links := Trimmed(nodes[n].links)))
  }

  /** The lists have a non-empty one in layer L or above. */
  ghost predicate Reaches(links: seq<seq<nat>>, L: nat) {
    exists l :: L <= l < |links| && links[l] != []
  }

  /** A node keeps a layer exactly when it has a neighbour there or above. */
  lemma {:induction false} KeepsLayer(links: seq<seq<nat>>, L: nat)
    ensures L < |Trimmed(links)| <==> Reaches(links, L)
  {
    var t := Trimmed(links);
    TrimmedShape(links);
    if L < |t| {
      assert links[|t| - 1] == t[|t| - 1] != [];
    }
  }

  /** Every link of the graph leads to a node that has a neighbour in the link's layer or above. */
  ghost predicate TargetsReach(nodes: seq<Node>) {
    forall n, L, i ::
      0 <= n < |nodes| && 0 <= L < |nodes[n].links| && 0 <= i < |nodes[n].links[L]| && nodes[n].links[L][i] < |nodes| ==>
        Reaches(nodes[nodes[n].links[L][i]].links, L)
  }

  /** The entry node has a neighbour in the top layer, and every node has one somewhere. */
  ghost predicate NodesReach(nodes: seq<Node>, maxLayer: int, entry: nat) {
    forall n :: 0 <= n < |nodes| ==>
      Reaches(nodes[n].links, 0) && (n == entry && maxLayer >= 0 ==> Reaches(nodes[n].links, maxLayer))
  }

  lemma {:induction false} ListStays(nodes: seq<Node>, n: nat, L: nat)
    requires n < |nodes|
    ensures var r := Unsealed(nodes);
      && |r[n].links| <= |nodes[n].links|
      && (L < |r[n].links| ==> r[n].links[L] == nodes[n].links[L])
      && (|r[n].links| <= L < |nodes[n].links| ==> nodes[n].links[L] == [])
  {
    TrimmedShape(nodes[n].links);
  }

  /** Unsealing keeps the graph's bounds if and only if every link still leads to a node of its layer. */
  lemma {:induction false} UnsealedGraph(nodes: seq<Node>, M: nat)
    requires GraphOk(nodes, M)
    ensures GraphOk(Unsealed(nodes), M) <==> TargetsReach(nodes)
  {
    hide Trimmed, Reaches;
    var r := Unsealed(nodes);
    if TargetsReach(nodes) {
      forall n, L | 0 <= n < |r| && 0 <= L < |r[n].links| ensures ListOk(r, M, n, L, r[n].links[L]) {
        ListStays(nodes, n, L);
        assert ListOk(nodes, M, n, L, nodes[n].links[L]);
        var list := r[n].links[L];
        forall i | 0 <= i < |list| ensures list[i] < |r| && L < |r[list[i]].links| {
          KeepsLayer(nodes[list[i]].links, L);
        }
      }
    }
    if GraphOk(r, M) {
      forall n, L, i |
        0 <= n < |nodes| && 0 <= L < |nodes[n].links| && 0 <= i < |nodes[n].links[L]| && nodes[n].links[L][i] < |nodes|
        ensures Reaches(nodes[nodes[n].links[L][i]].links, L)
      {
        ListStays(nodes, n, L);
        assert ListOk(r, M, n, L, r[n].links[L]);
        KeepsLayer(nodes[nodes[n].links[L][i]].links, L);
      }
    }
  }

  lemma {:induction false} UnsealedEntry(nodes: seq<Node>, maxLayer: int, entry: nat)
    requires EntryOk(nodes, maxLayer, entry)
    ensures EntryOk(Unsealed(nodes), maxLayer, entry) <==> NodesReach(nodes, maxLayer, entry)
  {
    hide Trimmed, Reaches;
    var r := Unsealed(nodes);
    forall n | 0 <= n < |nodes|
      ensures |r[n].links| <= |nodes[n].links| && (1 <= |r[n].links| <==> Reaches(nodes[n].links, 0))
      ensures maxLayer >= 0 ==> (maxLayer < |r[n].links| <==> Reaches(nodes[n].links, maxLayer))
    {
      ListStays(nodes, n, 0);
      KeepsLayer(nodes[n].links, 0);
      if maxLayer >= 0 { KeepsLayer(nodes[n].links, maxLayer); }
    }
  }

  /**
   * The top layer belongs to the entry node alone: it has no neighbour there, so after unsealing it no longer has the
   * layer it is the entry to.
   */
  lemma {:induction false} LoneEntryLosesTop(nodes: seq<Node>, M: nat, maxLayer: int, entry: nat)
    requires GraphOk(nodes, M) && EntryOk(nodes, maxLayer, entry) && nodes != []
    requires forall n :: 0 <= n < |nodes| && n != entry ==> |nodes[n].links| <= maxLayer
    ensures !EntryOk(Unsealed(nodes), maxLayer, entry)
  {
    var list := nodes[entry].links[maxLayer];
    assert ListOk(nodes, M, entry, maxLayer, list);
    if list != [] {
      HeadHasLayer(nodes, M, entry, maxLayer, list);
      assert false;
    }
    UnsealedEntry(nodes, maxLayer, entry);
  }

  lemma {:induction false} HeadHasLayer(nodes: seq<Node>, M: nat, n: nat, L: nat, list: seq<nat>)
    requires ListOk(nodes, M, n, L, list) && list != []
    ensures list[0] != n && list[0] < |nodes| && L < |nodes[list[0]].links|
  {
    assert list[0] in list;
  }

  /** Restore the lists of every node of an index. */
  method UnsealIndex(index: Index, p: Packed)
    requires index.Valid() && Seals(index.nodes, p)
    modifies index`nodes
    ensures index.nodes == Unsealed(old(index.nodes))
    ensures index.Valid() <==>
      TargetsReach(old(index.nodes)) && NodesReach(old(index.nodes), index.maxLayer, index.entry)
    ensures StaleOk(index.nodes) <==> old(StaleOk(index.nodes))
  {
    hide GraphOk, EntryOk, Seals, Trimmed, TargetsReach, NodesReach, IndexOk, StaleOk;
    ghost var before := index.nodes;
    var restored: seq<Node> := [];
    for n := 0 to |index.nodes|
      invariant |restored| == n && index.nodes == before
      invariant forall k :: 0 <= k < n ==> restored[k] == before[k].(links := Trimmed(before[k].links))
    {
      var links := UnpackNode(before, p, n);
      restored := restored + [index.nodes[n].(links := links)];
    }
    index.nodes := restored;
    assert restored == Unsealed(before);
    UnsealedGraph(before, index.M);
    UnsealedEntry(before, index.maxLayer, index.entry);
    IdsStay(before, restored, index.idToOrd);
    IdsStay(restored, before, index.idToOrd);
  }
}
