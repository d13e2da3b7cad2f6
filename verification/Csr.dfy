/** Sealing: the neighbour lists of each layer packed into one block with an offset table, and unpacked again. */
module Csr {
  import opened HnswGraph

  /** Per layer: where each node's ids start in the block (one entry more than there are nodes), and the block. */
  datatype Packed = Packed(off: seq<seq<nat>>, nbr: seq<seq<nat>>)

  /** The ids of the first n nodes' layer-L lists, one list after the other. */
  ghost function Flat(nodes: seq<Node>, L: nat, n: nat): (s: seq<nat>)
    requires n <= |nodes|
  {
    if n == 0 then [] else Flat(nodes, L, n - 1) + Neighbours(nodes, n - 1, L)
  }

  lemma {:induction false} FlatGrows(nodes: seq<Node>, L: nat, m: nat, n: nat)
    requires m <= n <= |nodes|
    ensures Flat(nodes, L, m) <= Flat(nodes, L, n)
  {
    if m < n { FlatGrows(nodes, L, m, n - 1); }
  }

  function LayerCount(nodes: seq<Node>): (k: nat)
    ensures forall n :: 0 <= n < |nodes| ==> |nodes[n].links| <= k
    ensures k == 0 || exists n :: 0 <= n < |nodes| && |nodes[n].links| == k
  {
    if nodes == [] then 0
    else
      var k, last := LayerCount(nodes[..|nodes| - 1]), nodes[|nodes| - 1];
      assert forall n :: 0 <= n < |nodes| - 1 ==> nodes[n] == nodes[..|nodes| - 1][n];
      assert nodes[|nodes| - 1] == last;
      if |last.links| > k then |last.links| else k
  }

  ghost predicate SealsLayer(nodes: seq<Node>, L: nat, off: seq<nat>, nbr: seq<nat>) {
    && |off| == |nodes| + 1 && nbr == Flat(nodes, L, |nodes|)
    && forall i :: 0 <= i <= |nodes| ==> off[i] == |Flat(nodes, L, i)|
  }

  /** The packed form of a graph. */
  ghost predicate Seals(nodes: seq<Node>, p: Packed) {
    && |p.off| == |p.nbr| == LayerCount(nodes)
    && forall L :: 0 <= L < |p.off| ==> SealsLayer(nodes, L, p.off[L], p.nbr[L])
  }

  /** The offsets of a node delimit a part of the layer's block. */
  predicate RangeOk(p: Packed, n: nat, L: nat) {
    |p.nbr| == |p.off| && (L < |p.off| && n + 1 < |p.off[L]| ==> p.off[L][n] <= p.off[L][n + 1] <= |p.nbr[L]|)
  }

  /** A node's neighbours in the packed form. */
  function Lookup(p: Packed, n: nat, L: nat): seq<nat>
    requires RangeOk(p, n, L)
  {
    if L >= |p.off| || n + 1 >= |p.off[L]| then [] else p.nbr[L][p.off[L][n]..p.off[L][n + 1]]
  }

  /** A sealed index answers every neighbour query as the unsealed one does. */
  lemma {:induction false} LookupIsNeighbours(nodes: seq<Node>, p: Packed, n: nat, L: nat)
    requires Seals(nodes, p) && n < |nodes|
    ensures RangeOk(p, n, L) && Lookup(p, n, L) == Neighbours(nodes, n, L)
    ensures L < |p.off| ==> |p.off[L]| == |nodes| + 1 && p.off[L][n + 1] - p.off[L][n] == |Neighbours(nodes, n, L)|
  {
    if L < |p.off| {
      hide Flat;
      assert SealsLayer(nodes, L, p.off[L], p.nbr[L]);
      FlatGrows(nodes, L, n + 1, |nodes|);
      FlatNext(nodes, L, n);
      SliceOfFlat(Flat(nodes, L, |nodes|), Flat(nodes, L, n), Neighbours(nodes, n, L));
    }
  }

  lemma {:induction false} FlatNext(nodes: seq<Node>, L: nat, n: nat)
    requires n < |nodes|
    ensures Flat(nodes, L, n + 1) == Flat(nodes, L, n) + Neighbours(nodes, n, L)
  {}

  lemma {:induction false} SliceOfFlat(all: seq<nat>, before: seq<nat>, list: seq<nat>)
    requires before + list <= all
    ensures all[|before|..|before| + |list|] == list
  {
    assert all[..|before| + |list|] == before + list;
  }

  /** Degrees, then their running sums, then the ids. */
  method SealLayer(nodes: seq<Node>, L: nat) returns (off: seq<nat>, nbr: seq<nat>)
    ensures SealsLayer(nodes, L, off, nbr)
  {
    hide Flat;
    off, nbr := [0], [];
    FlatNone(nodes, L);
    for i := 0 to |nodes|
      invariant |off| == i + 1 && nbr == Flat(nodes, L, i)
      invariant forall j :: 0 <= j <= i ==> off[j] == |Flat(nodes, L, j)|
    {
      FlatNext(nodes, L, i);
      var list := Neighbours(nodes, i, L);
      off := off + [off[i] + |list|];
      nbr := nbr + list;
    }
  }

  lemma {:induction false} FlatNone(nodes: seq<Node>, L: nat)
    ensures Flat(nodes, L, 0) == []
  {}

  method Seal(nodes: seq<Node>) returns (p: Packed)
    ensures Seals(nodes, p)
  {
    var layers := LayerCount(nodes);
    var off: seq<seq<nat>> := [];
    var nbr: seq<seq<nat>> := [];
    for L := 0 to layers
      invariant |off| == |nbr| == L
      invariant forall l :: 0 <= l < L ==> SealsLayer(nodes, l, off[l], nbr[l])
    {
      var o, b := SealLayer(nodes, L);
      off, nbr := off + [o], nbr + [b];
    }
    p := Packed(off, nbr);
  }

  // ----- Unpacking -----

  /** Lists up to the last non-empty one. */
  ghost function Trimmed(links: seq<seq<nat>>): seq<seq<nat>> {
    if links == [] || links[|links| - 1] != [] then links else Trimmed(links[..|links| - 1])
  }

  lemma {:induction false} TrimmedShape(links: seq<seq<nat>>)
    ensures var t := Trimmed(links);
      && t <= links && (t == [] || t[|t| - 1] != [])
      && forall L :: |t| <= L < |links| ==> links[L] == []
  {
    if links != [] && links[|links| - 1] == [] { TrimmedShape(links[..|links| - 1]); }
  }

  /** The only list prefix that ends in a non-empty list and leaves only empty lists out. */
  lemma {:induction false} TrimmedUnique(links: seq<seq<nat>>, t: seq<seq<nat>>)
    requires t <= links && (t == [] || t[|t| - 1] != []) && forall L :: |t| <= L < |links| ==> links[L] == []
    ensures t == Trimmed(links)
  {
    assert t == links[..|t|];
    if links != [] && links[|links| - 1] == [] {
      TrimmedUnique(links[..|links| - 1], t);
    }
  }

  /** Rebuild one node's lists from the packed form: up to the highest layer in which it has a neighbour. */
  method UnpackNode(ghost nodes: seq<Node>, p: Packed, n: nat) returns (links: seq<seq<nat>>)
    requires Seals(nodes, p) && n < |nodes|
    ensures links == Trimmed(nodes[n].links)
  {
    hide Flat, Seals, Neighbours, Lookup;
    LayersOf(nodes, p, n);
    var top := 0;
    for L := 0 to |p.off|
      invariant top <= L
      invariant top > 0 ==> Neighbours(nodes, n, top - 1) != []
      invariant forall l :: top <= l < L ==> Neighbours(nodes, n, l) == []
    {
      LookupIsNeighbours(nodes, p, n, L);
      if p.off[L][n + 1] > p.off[L][n] { top := L + 1; }
    }
    links := [];
    for L := 0 to top
      invariant |links| == L && forall l :: 0 <= l < L ==> links[l] == Neighbours(nodes, n, l)
    {
      LookupIsNeighbours(nodes, p, n, L);
      links := links + [Lookup(p, n, L)];
    }
    UnpackedIsTrimmed(nodes, n, links);
  }

  lemma {:induction false} LayersOf(nodes: seq<Node>, p: Packed, n: nat)
    requires Seals(nodes, p) && n < |nodes|
    ensures |nodes[n].links| <= |p.off|
  {}

  lemma {:induction false} UnpackedIsTrimmed(nodes: seq<Node>, n: nat, links: seq<seq<nat>>)
    requires n < |nodes| && forall l :: 0 <= l < |links| ==> links[l] == Neighbours(nodes, n, l)
    requires links != [] ==> Neighbours(nodes, n, |links| - 1) != []
    requires forall l :: |links| <= l < |nodes[n].links| ==> Neighbours(nodes, n, l) == []
    ensures links == Trimmed(nodes[n].links)
  {
    var all := nodes[n].links;
    assert links == all[..|links|];
    if links != [] { assert links[|links| - 1] == Neighbours(nodes, n, |links| - 1); }
    forall L | |links| <= L < |all| ensures all[L] == [] { assert Neighbours(nodes, n, L) == all[L]; }
    TrimmedUnique(all, links);
  }

  /** Sealing and unsealing give a node's lists back exactly when its top list is not empty. */
  lemma {:induction false} RoundTripNeedsFullTop(nodes: seq<Node>, n: nat)
    requires n < |nodes|
    ensures Trimmed(nodes[n].links) == nodes[n].links <==>
      nodes[n].links == [] || nodes[n].links[|nodes[n].links| - 1] != []
  {
    TrimmedShape(nodes[n].links);
  }

  /** A single node loses all its layers, so after unsealing it no longer belongs to the layer its entry node spans. */
  lemma {:induction false} LoneNodeLosesItsLayers(level: nat)
    ensures Trimmed(seq(level + 1, l => [])) == []
    decreases level
  {
    var links := seq(level + 1, l => []);
    TrimmedShape(links);
  }
}
