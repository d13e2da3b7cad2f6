/** The layered proximity graph: nodes, their neighbour lists, and what a walk along them can reach. */
module HnswGraph {
  import opened Sets

  /** links[L] lists the neighbours of the node in layer L, for every layer the node belongs to. */
  datatype Node = Node(id: nat, superseded: bool, links: seq<seq<nat>>)

  /** A node of the given top layer, not linked yet. */
  function FreshNode(id: nat, level: nat): Node { Node(id, false, seq(level + 1, _ => [])) }

  /** The neighbours of node n in layer L: none above the node's own top layer. */
  function Neighbours(nodes: seq<Node>, n: nat, L: nat): seq<nat>
    requires n < |nodes|
  {
    if L < |nodes[n].links| then nodes[n].links[L] else []
  }

  /** A walk along layer-L links between existing nodes. */
  ghost predicate IsPath(nodes: seq<Node>, L: nat, path: seq<nat>) {
    && path != []
    && (forall i :: 0 <= i < |path| ==> path[i] < |nodes|)
    && forall i :: 0 < i < |path| ==> path[i] in Neighbours(nodes, path[i - 1], L)
  }

  ghost predicate Reachable(nodes: seq<Node>, L: nat, entry: nat, v: nat) {
    exists path :: IsPath(nodes, L, path) && path[0] == entry && path[|path| - 1] == v
  }

  lemma {:induction false} EntryReachable(nodes: seq<Node>, L: nat, entry: nat)
    requires entry < |nodes|
    ensures Reachable(nodes, L, entry, entry)
  {
    assert IsPath(nodes, L, [entry]);
  }

  lemma {:induction false} NextReachable(nodes: seq<Node>, L: nat, entry: nat, v: nat, nb: nat)
    requires v < |nodes| && nb < |nodes| && Reachable(nodes, L, entry, v) && nb in Neighbours(nodes, v, L)
    ensures Reachable(nodes, L, entry, nb)
  {
    var path :| IsPath(nodes, L, path) && path[0] == entry && path[|path| - 1] == v;
    var longer := path + [nb];
    forall i | 0 < i < |longer| ensures longer[i] in Neighbours(nodes, longer[i - 1], L) {
      if i < |path| { assert longer[i] == path[i] && longer[i - 1] == path[i - 1]; }
    }
    assert IsPath(nodes, L, longer);
  }

  /** Nodes from which every link leads back inside. */
  ghost predicate Closed(nodes: seq<Node>, L: nat, s: set<nat>) {
    forall v: nat, nb: nat :: v in s && v < |nodes| && nb < |nodes| && nb in Neighbours(nodes, v, L) ==> nb in s
  }

  /** A closed set holding the entry holds everything reachable from it. */
  lemma {:induction false} ClosedHoldsReachable(nodes: seq<Node>, L: nat, entry: nat, s: set<nat>, v: nat)
    requires Closed(nodes, L, s) && entry in s && Reachable(nodes, L, entry, v)
    ensures v in s
  {
    var path :| IsPath(nodes, L, path) && path[0] == entry && path[|path| - 1] == v;
    var i := 0;
    while i + 1 < |path|
      invariant 0 <= i < |path| && path[i] in s
    {
      i := i + 1;
      assert path[i] in Neighbours(nodes, path[i - 1], L);
    }
  }

  /** Everything reachable from the entry, as a set. */
  ghost function ReachableSet(nodes: seq<Node>, L: nat, entry: nat): (s: set<nat>)
    ensures forall v: nat :: v in s <==> v < |nodes| && Reachable(nodes, L, entry, v)
  {
    set v | v in UpTo(|nodes|) && Reachable(nodes, L, entry, v)
  }
}
