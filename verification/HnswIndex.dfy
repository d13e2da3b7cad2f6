/** The incremental index: adding, superseding and tombstoning vectors. */
module HnswIndex {
  import opened Sets
  import opened TopK
  import opened ScoreHeap
  import opened HnswGraph
  import opened LayerSearch
  import opened Selection
  import opened HnswLinks
  import opened HnswInsert

  type Vector = seq<real>

  /** Similarity of a stored vector to the query. */
  function SimTo(store: seq<Vector>, walk: (Vector, Vector) -> real, q: Vector): nat -> real {
    (n: nat) => if n < |store| then walk(store[n], q) else 0.0
  }

  /** Similarity of two stored vectors. */
  function NearOf(store: seq<Vector>, dot: (Vector, Vector) -> real): (nat, nat) -> real {
    (a: nat, b: nat) => if a < |store| && b < |store| then dot(store[a], store[b]) else 0.0
  }

  // ----- Ids -----

  ghost predicate UsedLater(nodes: seq<Node>, n: nat)
    requires n < |nodes|
  {
    exists m :: n < m < |nodes| && nodes[m].id == nodes[n].id
  }

  /** A node is stale exactly when its id was added again later. */
  ghost predicate StaleOk(nodes: seq<Node>) {
    forall n :: 0 <= n < |nodes| ==> (nodes[n].superseded <==> UsedLater(nodes, n))
  }

  ghost predicate Live(nodes: seq<Node>, n: nat, id: nat) {
    n < |nodes| && nodes[n].id == id && !nodes[n].superseded
  }

  ghost predicate Used(nodes: seq<Node>, id: nat) { exists n :: 0 <= n < |nodes| && nodes[n].id == id }

  /** Every id ever added has exactly one live node: the newest with that id. */
  lemma {:induction false} OneLiveNode(nodes: seq<Node>, id: nat) returns (n: nat)
    requires StaleOk(nodes) && Used(nodes, id)
    ensures Live(nodes, n, id) && !UsedLater(nodes, n)
    ensures forall m: nat :: Live(nodes, m, id) ==> m == n
  {
    n :| n < |nodes| && nodes[n].id == id;
    while UsedLater(nodes, n)
      invariant n < |nodes| && nodes[n].id == id
      decreases |nodes| - n
    {
      var m :| n < m < |nodes| && nodes[m].id == nodes[n].id;
      n := m;
    }
    assert forall k :: n < k < |nodes| ==> nodes[k].id != id;
    forall m: nat | Live(nodes, m, id) ensures m == n {
      assert !UsedLater(nodes, m);
      assert forall k :: m < k < |nodes| ==> nodes[k].id != id;
    }
  }

  /** The id index maps every used id to its newest node. */
  ghost predicate IndexOk(nodes: seq<Node>, index: map<nat, nat>) {
    && (forall id :: id in index ==> index[id] < |nodes| && nodes[index[id]].id == id && !UsedLater(nodes, index[id]))
    && (forall n :: 0 <= n < |nodes| ==> nodes[n].id in index)
  }

  /** An id's newest node goes stale. */
  ghost function MarkStale(nodes: seq<Node>, id: nat): (r: seq<Node>)
    ensures |r| == |nodes|
    ensures forall n :: 0 <= n < |nodes| ==>
      r[n] == nodes[n].(superseded := nodes[n].superseded || (nodes[n].id == id && !UsedLater(nodes, n)))
  {
    seq(|nodes|, n requires 0 <= n < |nodes| =>
      nodes[n].(superseded := nodes[n].superseded || (nodes[n].id == id && !UsedLater(nodes, n))))
  }

  /** The node array right after an insertion has staged its node: the id's previous node stale, the new node unlinked. */
  ghost function Staged(nodes: seq<Node>, id: nat, level: nat): (r: seq<Node>)
    ensures |r| == |nodes| + 1
  {
    MarkStale(nodes, id) + [FreshNode(id, level)]
  }

  lemma {:induction false} StagedStaleOk(nodes: seq<Node>, id: nat, level: nat)
    requires StaleOk(nodes)
    ensures StaleOk(Staged(nodes, id, level))
  {
    var r := Staged(nodes, id, level);
    forall n | 0 <= n < |r| ensures r[n].superseded <==> UsedLater(r, n) {
      if n < |nodes| {
        if UsedLater(nodes, n) {
          var m :| n < m < |nodes| && nodes[m].id == nodes[n].id;
          assert r[m].id == r[n].id;
        }
        assert r[|nodes|].id == id;
        if UsedLater(r, n) {
          var m :| n < m < |r| && r[m].id == r[n].id;
          assert m < |nodes| ==> UsedLater(nodes, n);
        }
      }
    }
  }

  /** Staleness and the id index do not look at the lists. */
  lemma {:induction false} IdsStay(a: seq<Node>, b: seq<Node>, index: map<nat, nat>)
    requires |a| == |b| && forall n :: 0 <= n < |a| ==> b[n] == a[n].(links := b[n].links)
    ensures StaleOk(a) ==> StaleOk(b)
    ensures IndexOk(a, index) ==> IndexOk(b, index)
  {
    forall n | 0 <= n < |a| ensures UsedLater(a, n) <==> UsedLater(b, n) && a[n].id == b[n].id {
      if UsedLater(a, n) {
        var m :| n < m < |a| && a[m].id == a[n].id;
        assert b[m].id == b[n].id;
      }
      if UsedLater(b, n) {
        var m :| n < m < |b| && b[m].id == b[n].id;
        assert a[m].id == a[n].id;
      }
    }
  }

  /** Staleness and ids survive linking. */
  lemma {:induction false} ShapeKeepsStale(a: seq<Node>, b: seq<Node>, index: map<nat, nat>)
    requires SameShape(a, b)
    ensures StaleOk(a) ==> StaleOk(b)
    ensures IndexOk(a, index) ==> IndexOk(b, index)
  {
    IdsStay(a, b, index);
  }

  /** The index finds the newest node of an id. */
  lemma {:induction false} NewestIs(nodes: seq<Node>, index: map<nat, nat>, id: nat)
    requires IndexOk(nodes, index)
    ensures forall n :: 0 <= n < |nodes| ==> (nodes[n].id == id && !UsedLater(nodes, n) <==> id in index && n == index[id])
  {
    forall n | 0 <= n < |nodes| && nodes[n].id == id && !UsedLater(nodes, n) ensures id in index && n == index[id] {
      assert nodes[n].id in index;
      var at := index[id];
      assert forall k :: at < k < |nodes| ==> nodes[k].id != id;
      assert forall k :: n < k < |nodes| ==> nodes[k].id != id;
    }
  }

  /** Going stale concerns only the node the index finds. */
  lemma {:induction false} MarkOne(nodes: seq<Node>, index: map<nat, nat>, id: nat)
    requires IndexOk(nodes, index)
    ensures id in index ==> index[id] < |nodes|
    ensures MarkStale(nodes, id) ==
      if id in index then nodes[index[id] := nodes[index[id]].(superseded := true)] else nodes
  {
    NewestIs(nodes, index, id);
  }

  lemma {:induction false} StagedIndexOk(nodes: seq<Node>, index: map<nat, nat>, id: nat, level: nat)
    requires IndexOk(nodes, index)
    ensures IndexOk(Staged(nodes, id, level), index[id := |nodes|])
  {
    var r, more := Staged(nodes, id, level), index[id := |nodes|];
    forall x | x in more ensures more[x] < |r| && r[more[x]].id == x && !UsedLater(r, more[x]) {
      if x != id {
        assert x in index && !UsedLater(nodes, index[x]);
        forall m | index[x] < m < |r| ensures r[m].id != x {
          assert m < |nodes| ==> nodes[m].id != nodes[index[x]].id;
        }
      }
    }
  }

  lemma {:induction false} ShapeSize(a: seq<Node>, b: seq<Node>)
    requires SameShape(a, b)
    ensures |a| == |b|
  {}

  // ----- The whole index -----

  /** The entry node spans every layer in use. */
  ghost predicate EntryOk(nodes: seq<Node>, maxLayer: int, entry: nat) {
    && -1 <= maxLayer <= 255 && (maxLayer == -1 <==> nodes == [])
    && (nodes != [] ==> entry < |nodes| && |nodes[entry].links| == maxLayer + 1)
    && forall n :: 0 <= n < |nodes| ==> 1 <= |nodes[n].links| <= maxLayer + 1
  }

  lemma {:induction false} StagedGraph(nodes: seq<Node>, M: nat, id: nat, level: nat)
    requires GraphOk(nodes, M)
    ensures GraphOk(Staged(nodes, id, level), M)
    ensures forall l: nat :: NoInLinks(Staged(nodes, id, level), |nodes|, l)
  {
    var r := Staged(nodes, id, level);
    forall n, L | 0 <= n < |r| && 0 <= L < |r[n].links|
      ensures ListOk(r, M, n, L, r[n].links[L]) && |nodes| !in r[n].links[L]
    {
      if n < |nodes| {
        assert ListOk(nodes, M, n, L, nodes[n].links[L]);
        forall i | 0 <= i < |nodes[n].links[L]| ensures nodes[n].links[L][i] < |nodes| {}
      }
    }
  }

  /** The graph after a vector was added: staged, then joined to every layer it shares with the entry node. */
  ghost function Added(nodes: seq<Node>, q: Query, maxLayer: int, entry: nat, id: nat, level: nat): (r: seq<Node>)
    requires GraphOk(nodes, q.M) && EntryOk(nodes, maxLayer, entry)
  {
    var staged, node := Staged(nodes, id, level), |nodes|;
    if maxLayer < 0 then staged
    else
      ReadyToInsert(nodes, q, maxLayer, entry, id, level);
      Insert(staged, q, node, Descend(staged, q, entry, maxLayer, level), Min(level, maxLayer) + 1)
  }

  lemma {:induction false} ReadyToInsert(nodes: seq<Node>, q: Query, maxLayer: int, entry: nat, id: nat, level: nat)
    requires GraphOk(nodes, q.M) && EntryOk(nodes, maxLayer, entry) && maxLayer >= 0
    ensures var staged := Staged(nodes, id, level);
      && GraphOk(staged, q.M) && InLayer(staged, entry, maxLayer)
      && CanInsert(staged, q.M, |nodes|, Descend(staged, q, entry, maxLayer, level), Min(level, maxLayer) + 1)
  {
    hide GraphOk, Descend, NoInLinks;
    var staged := Staged(nodes, id, level);
    StagedGraph(nodes, q.M, id, level);
    DescendAvoids(staged, q, entry, maxLayer, level, |nodes|);
  }

  /** Adding keeps every bound of the graph, exactly one live node per id, and links the new node in each layer it shares. */
  lemma {:induction false} AddedKeeps(nodes: seq<Node>, q: Query, maxLayer: int, entry: nat, id: nat, level: nat)
    requires GraphOk(nodes, q.M) && EntryOk(nodes, maxLayer, entry) && level <= 255
    ensures var r, node := Added(nodes, q, maxLayer, entry, id, level), |nodes|;
      && SameShape(Staged(nodes, id, level), r) && GraphOk(r, q.M) && (StaleOk(nodes) ==> StaleOk(r))
      && EntryOk(r, if level > maxLayer then level else maxLayer, if level > maxLayer then node else entry)
      && (q.M > 0 && maxLayer >= 0 ==> forall l :: 0 <= l <= level && l <= maxLayer ==> r[node].links[l] != [])
      && (forall x, l: nat :: l <= level && x in r[node].links[l] ==> LinksBack(r, x, l, node, q.M))
  {
    hide GraphOk, Insert, Descend, CanInsert, LinksBack, StaleOk;
    var staged, node := Staged(nodes, id, level), |nodes|;
    if StaleOk(nodes) { StagedStaleOk(nodes, id, level); }
    StagedGraph(nodes, q.M, id, level);
    var r := Added(nodes, q, maxLayer, entry, id, level);
    if maxLayer >= 0 {
      ReadyToInsert(nodes, q, maxLayer, entry, id, level);
      InsertKeeps(staged, q, node, Descend(staged, q, entry, maxLayer, level), Min(level, maxLayer) + 1);
    }
    ShapeKeepsStale(staged, r, map[]);
  }

  // ----- What a node links to, in terms of the stored vectors -----

  ghost predicate Stored(store: seq<Vector>, nodes: seq<nat>) { forall i :: 0 <= i < |nodes| ==> nodes[i] < |store| }

  /** The first k listed nodes are each at least as similar to the node as to those before them. */
  ghost predicate SpreadOut(store: seq<Vector>, dot: (Vector, Vector) -> real, node: nat, s: seq<nat>, k: nat)
    requires node < |store| && Stored(store, s) && k <= |s|
  {
    forall i, j :: 0 <= j < i < k ==> dot(store[s[i]], store[s[j]]) <= dot(store[node], store[s[i]])
  }

  /** Every candidate outside s is more similar to some node in s than to the node itself. */
  ghost predicate OthersCovered(store: seq<Vector>, dot: (Vector, Vector) -> real, node: nat, cands: seq<nat>, s: seq<nat>)
    requires node < |store| && Stored(store, cands) && Stored(store, s)
  {
    forall i :: 0 <= i < |cands| && cands[i] !in s ==>
      exists j :: 0 <= j < |s| && dot(store[cands[i]], store[s[j]]) > dot(store[node], store[cands[i]])
  }

  /** From position k on, the listed nodes are at least as similar to the node as any candidate left out. */
  ghost predicate BestOfRest(store: seq<Vector>, dot: (Vector, Vector) -> real, node: nat, cands: seq<nat>, s: seq<nat>, k: nat)
    requires node < |store| && Stored(store, cands) && Stored(store, s)
  {
    forall i, j :: 0 <= i < |cands| && cands[i] !in s && k <= j < |s| ==>
      dot(store[node], store[cands[i]]) <= dot(store[node], store[s[j]])
  }

  /**
   * `most` of the candidates, or all if there are fewer: a spread-out part, cut short only when it covers all others, and
   * then the best of the rest.
   */
  ghost predicate ChosenWell(store: seq<Vector>, dot: (Vector, Vector) -> real, node: nat, cands: seq<nat>, most: nat, s: seq<nat>)
    requires node < |store| && Stored(store, cands) && Stored(store, s)
  {
    && |s| == Min(most, |cands|) && Distinct(s) && (forall x :: x in s ==> x in cands)
    && exists k :: 0 <= k <= |s| && SpreadOut(store, dot, node, s, k) && BestOfRest(store, dot, node, cands, s, k)
         && (k < most ==> OthersCovered(store, dot, node, cands, s[..k]))
  }

  lemma {:induction false} LinksChosenWell(store: seq<Vector>, dot: (Vector, Vector) -> real, node: nat, cands: seq<nat>, M: nat, L: nat)
    requires node < |store| && Stored(store, cands) && Distinct(cands)
    ensures var s := Selected(Scored(cands, node, NearOf(store, dot)), MaxLinks(M, L), NearOf(store, dot));
      Stored(store, s) && ChosenWell(store, dot, node, cands, if L == 0 then 2 * M else M, s)
  {
    hide Selected, Distinct, WellSelected, SpreadOut, BestOfRest, OthersCovered;
    var near, most := NearOf(store, dot), MaxLinks(M, L);
    var scored := Scored(cands, node, near);
    var s, k := Selected(scored, most, near), |Diverse(scored, most, near)|;
    SelectionOk(cands, node, most, near);
    forall i | 0 <= i < |s| ensures s[i] < |store| { assert s[i] in cands; }
    SelectedIsWell(scored, most, near);
    ScoredByDot(store, dot, node, cands);
    WellSpread(store, dot, node, cands, scored, most, k, s);
    WellRest(store, dot, node, cands, scored, most, k, s);
    if k < most { WellCovered(store, dot, node, cands, scored, most, k, s); }
  }

  /** The candidates' scores, each one's similarity to the node. */
  ghost predicate ScoresOf(store: seq<Vector>, dot: (Vector, Vector) -> real, node: nat, cands: seq<nat>, scored: seq<Hit>)
    requires node < |store| && Stored(store, cands)
  {
    forall i :: 0 <= i < |cands| ==> Hit(cands[i], dot(store[node], store[cands[i]])) in scored
  }

  lemma {:induction false} ScoredByDot(store: seq<Vector>, dot: (Vector, Vector) -> real, node: nat, cands: seq<nat>)
    requires node < |store| && Stored(store, cands)
    ensures ScoresOf(store, dot, node, cands, Scored(cands, node, NearOf(store, dot)))
  {
    var scored := Scored(cands, node, NearOf(store, dot));
    forall i | 0 <= i < |cands| ensures Hit(cands[i], dot(store[node], store[cands[i]])) in scored {
      assert cands[i] in cands;
    }
  }

  lemma {:induction false} WellSpread(store: seq<Vector>, dot: (Vector, Vector) -> real, node: nat, cands: seq<nat>, scored: seq<Hit>,
                                      most: nat, k: nat, s: seq<nat>)
    requires node < |store| && Stored(store, cands) && Stored(store, s) && (forall x :: x in s ==> x in cands)
    requires ScoresOf(store, dot, node, cands, scored) && WellSelected(scored, most, NearOf(store, dot), k, s)
    ensures k <= |s| && SpreadOut(store, dot, node, s, k)
  {
    hide Distinct, Covered, AmongHits;
    forall i, j | 0 <= j < i < k ensures dot(store[s[i]], store[s[j]]) <= dot(store[node], store[s[i]]) {
      assert s[i] in cands;
      var p :| 0 <= p < |cands| && cands[p] == s[i];
      assert Hit(cands[p], dot(store[node], store[cands[p]])) in scored;
      assert s[..k][i] == s[i] && s[..k][j] == s[j];
    }
  }

  lemma {:induction false} WellRest(store: seq<Vector>, dot: (Vector, Vector) -> real, node: nat, cands: seq<nat>, scored: seq<Hit>,
                                    most: nat, k: nat, s: seq<nat>)
    requires node < |store| && Stored(store, cands) && Stored(store, s) && (forall x :: x in s ==> x in cands)
    requires ScoresOf(store, dot, node, cands, scored) && WellSelected(scored, most, NearOf(store, dot), k, s)
    ensures BestOfRest(store, dot, node, cands, s, k)
  {
    hide Distinct, Covered, AmongHits, Spread;
    forall i, j | 0 <= i < |cands| && cands[i] !in s && k <= j < |s|
      ensures dot(store[node], store[cands[i]]) <= dot(store[node], store[s[j]])
    {
      assert s[j] in cands && s[k..][j - k] == s[j];
      var p :| 0 <= p < |cands| && cands[p] == s[j];
      assert Hit(cands[p], dot(store[node], store[cands[p]])) in scored;
      assert Hit(cands[i], dot(store[node], store[cands[i]])) in scored;
    }
  }

  lemma {:induction false} WellCovered(store: seq<Vector>, dot: (Vector, Vector) -> real, node: nat, cands: seq<nat>, scored: seq<Hit>,
                                       most: nat, k: nat, s: seq<nat>)
    requires node < |store| && Stored(store, cands) && Stored(store, s) && k < most
    requires ScoresOf(store, dot, node, cands, scored) && WellSelected(scored, most, NearOf(store, dot), k, s)
    ensures k <= |s| && OthersCovered(store, dot, node, cands, s[..k])
  {
    hide Distinct, AmongHits, Spread;
    forall i | 0 <= i < |cands| && cands[i] !in s[..k]
      ensures exists j :: 0 <= j < k && dot(store[cands[i]], store[s[..k][j]]) > dot(store[node], store[cands[i]])
    {
      var c := Hit(cands[i], dot(store[node], store[cands[i]]));
      assert c in scored && Covered(c, s[..k], NearOf(store, dot));
      var j :| 0 <= j < k && NearOf(store, dot)(c.doc, s[..k][j]) > c.score;
      assert s[..k][j] == s[j];
    }
  }

  /**
   * `walk` scores a node against a query during a search, `dot` compares stored vectors when neighbours are chosen, and
   * `exact` gives the reported scores; which of them read floats, int8 or sign codes is left open.
   */
  class Index {
    const M: nat
    const efConstruction: nat
    const walk: (Vector, Vector) -> real
    const dot: (Vector, Vector) -> real
    const exact: (Vector, Vector) -> real
    const normalise: Vector -> Vector

    var dim: nat
    var nodes: seq<Node>
    var store: seq<Vector>
    var maxLayer: int
    var entry: nat
    var deleted: set<nat>
    var idToOrd: map<nat, nat>
    var idIndexBuilt: bool

    ghost predicate Valid()
      reads this
    {
      && GraphOk(nodes, M) && EntryOk(nodes, maxLayer, entry)
      && |store| == |nodes| && (dim == 0 ==> nodes == [])
      && (forall n :: 0 <= n < |store| ==> |store[n]| == dim)
      && (if idIndexBuilt then IndexOk(nodes, idToOrd) else idToOrd == map[])
      && forall v: Vector :: |normalise(v)| == |v|
    }

    /** A search or insertion whose query vector is q. */
    ghost function QueryFor(vectors: seq<Vector>, q: Vector): Query {
      Query(M, efConstruction, SimTo(vectors, walk, q), NearOf(vectors, dot))
    }

    /** The insertion of the node whose vector was stored last. */
    ghost function QueryOf(vectors: seq<Vector>): Query
      requires vectors != []
    {
      QueryFor(vectors, vectors[|vectors| - 1])
    }

    constructor (M: nat, efConstruction: nat, walk: (Vector, Vector) -> real, dot: (Vector, Vector) -> real,
                 exact: (Vector, Vector) -> real, normalise: Vector -> Vector)
      requires forall v: Vector :: |normalise(v)| == |v|
      ensures Valid() && nodes == [] && StaleOk(nodes) && deleted == {}
      ensures this.M == M && this.efConstruction == efConstruction
    {
      this.M, this.efConstruction, this.normalise := M, efConstruction, normalise;
      this.walk, this.dot, this.exact := walk, dot, exact;
      dim, nodes, store, maxLayer, entry := 0, [], [], -1, 0;
      deleted, idToOrd, idIndexBuilt := {}, map[], false;
    }

    method EnsureIdIndex()
      requires Valid()
      modifies `idToOrd, `idIndexBuilt
      ensures Valid() && idIndexBuilt
    {
      hide GraphOk, EntryOk, StaleOk;
      if idIndexBuilt { return; }
      idIndexBuilt := true;
      for i := 0 to |nodes|
        invariant idIndexBuilt
        invariant forall id :: id in idToOrd ==> idToOrd[id] < i && nodes[idToOrd[id]].id == id
        invariant forall n :: 0 <= n < i ==> nodes[n].id in idToOrd && n <= idToOrd[nodes[n].id]
      {
        idToOrd := idToOrd[nodes[i].id := i];
      }
    }

    /** Score, sort and choose a node's neighbours among the found ones. */
    method SelectLinks(node: nat, L: nat, cands: seq<nat>) returns (picked: seq<nat>)
      ensures picked == Selected(Scored(cands, node, NearOf(store, dot)), MaxLinks(M, L), NearOf(store, dot))
      ensures node < |store| && Stored(store, cands) && Distinct(cands) ==>
        Stored(store, picked) && ChosenWell(store, dot, node, cands, if L == 0 then 2 * M else M, picked)
    {
      if node < |store| && Stored(store, cands) && Distinct(cands) { LinksChosenWell(store, dot, node, cands, M, L); }
      hide Selected, ChosenWell;
      var scored := ScoreAndSort(node, cands, NearOf(store, dot));
      picked := SelectNeighbours(scored, MaxLinks(M, L), NearOf(store, dot));
    }

    /** Install a node's list and give every neighbour a pruned link back. */
    method Link(node: nat, L: nat, links: seq<nat>)
      requires GraphOk(nodes, M) && InLayer(nodes, node, L) && ListOk(nodes, M, node, L, links)
      modifies `nodes
      ensures nodes == Linked(old(nodes), node, L, links, M, NearOf(store, dot))
    {
      hide GraphOk, Selected, Scored, BackLinkAll, HaveLayer;
      var maxM, near := MaxLinks(M, L), NearOf(store, dot);
      nodes := SetList(nodes, node, L, links);
      ghost var set0 := nodes;
      NoBackLinks(set0, L, node, M, near);
      InstallKeepsLayer(old(nodes), node, L, links);
      for i := 0 to |links|
        invariant HaveLayer(set0, L, links[..i]) && HaveLayer(set0, L, links)
        invariant nodes == BackLinkAll(set0, links[..i], L, node, M, near)
      {
        var nb := links[i];
        BackLinkNext(set0, links, i, L, node, M, near);
        var list := nodes[nb].links[L];
        if node !in list { list := list + [node]; }
        if |list| > maxM {
          list := SelectLinks(nb, L, list);
        }
        nodes := SetList(nodes, nb, L, list);
      }
      assert links[..|links|] == links;
    }

    method Connect(node: nat, L: nat, found: seq<nat>, ghost cur: nat)
      requires |store| > 0 && CanInsert(nodes, M, node, cur, L + 1)
      requires found == Search(nodes, L, QueryOf(store).sim, cur, efConstruction)
      modifies `nodes
      ensures nodes == JoinedLayer(old(nodes), QueryOf(store), node, cur, L)
    {
      hide GraphOk, NoInLinks, Selected, Scored, Search, Linked, ListOk, HaveLayer;
      PickedOk(nodes, QueryOf(store), node, cur, L);
      var links := SelectLinks(node, L, found);
      Link(node, L, links);
    }

    /** `cur` is at least as similar to q as the entry node, and no neighbour in the layer above `level` is more similar. */
    ghost predicate LandedWell(q: Vector, level: nat, cur: nat)
      reads this
    {
      && |store| == |nodes| && cur < |nodes| && entry < |nodes| && walk(store[entry], q) <= walk(store[cur], q)
      && (level < maxLayer ==> forall nb: nat :: nb in Neighbours(nodes, cur, level + 1) && nb < |nodes| ==>
            walk(store[nb], q) <= walk(store[cur], q))
    }

    lemma {:induction false} DescentLandsWell(q: Vector, level: nat)
      requires GraphOk(nodes, M) && maxLayer >= 0 && InLayer(nodes, entry, maxLayer) && |store| == |nodes|
      ensures LandedWell(q, level, Descend(nodes, QueryFor(store, q), entry, maxLayer, level))
    {
      hide GraphOk, Descend, Neighbours;
      DescendImproves(nodes, QueryFor(store, q), entry, maxLayer, level);
    }

    /** Search every layer from the top down to just above `level` with a beam of one. */
    method GreedyDescent(q: Vector, level: nat) returns (cur: nat)
      requires |store| == |nodes|
      requires GraphOk(nodes, M) && maxLayer >= 0 && InLayer(nodes, entry, maxLayer)
      ensures cur == Descend(nodes, QueryFor(store, q), entry, maxLayer, level)
      ensures LandedWell(q, level, cur)
    {
      hide LandedWell, GraphOk, Search, Found, VisitedBy, Scratch.Valid;
      ghost var query := QueryFor(store, q);
      var sim := SimTo(store, walk, q);
      cur := entry;
      var lc := maxLayer;
      while lc > level
        invariant 0 <= lc <= maxLayer && InLayer(nodes, cur, lc)
        invariant Descend(nodes, query, cur, lc, level) == Descend(nodes, query, entry, maxLayer, level)
      {
        var sc := new Scratch();
        FoundInLayer(nodes, M, lc, sim, cur, 1, 0);
        var r := SearchLayer(sc, nodes, sim, cur, lc, 1);
        cur := r[0];
        lc := lc - 1;
      }
      DescentLandsWell(q, level);
    }

    /** Join every layer from k - 1 down to the base layer. */
    method JoinLayers(node: nat, start: nat, k: nat)
      requires |store| > 0 && CanInsert(nodes, M, node, start, k)
      modifies `nodes
      ensures nodes == Insert(old(nodes), QueryOf(store), node, start, k)
    {
      hide GraphOk, NoInLinks, Search, JoinedLayer, Found, VisitedBy, ListOk, Picked, Scratch.Valid;
      ghost var q := QueryOf(store);
      var sim := SimTo(store, walk, store[|store| - 1]);
      var cur, l := start, k;
      while l > 0
        invariant 0 <= l <= k && CanInsert(nodes, M, node, cur, l)
        invariant Insert(nodes, q, node, cur, l) == Insert(old(nodes), q, node, start, k)
      {
        l := l - 1;
        PickedOk(nodes, q, node, cur, l);
        JoinedReady(nodes, q, node, cur, l);
        var sc := new Scratch();
        var found := SearchLayer(sc, nodes, sim, cur, l, efConstruction);
        Connect(node, l, found, cur);
        cur := found[0];
      }
    }

    /** Append the node and its vector, and mark the id's previous node stale. */
    method Stage(id: nat, vec: Vector, level: nat)
      requires Valid() && |vec| == dim > 0 && level <= 255
      modifies `nodes, `store, `idToOrd, `idIndexBuilt
      ensures nodes == Staged(old(nodes), id, level) && store == old(store) + [normalise(vec)]
      ensures idIndexBuilt && IndexOk(nodes, idToOrd)
    {
      hide GraphOk, EntryOk, IndexOk, MarkStale, FreshNode;
      EnsureIdIndex();
      ghost var before, index := nodes, idToOrd;
      MarkOne(nodes, idToOrd, id);
      if id in idToOrd {
        var at := idToOrd[id];
        nodes := nodes[at := nodes[at].(superseded := true)];
      }
      store := store + [normalise(vec)];
      nodes := nodes + [FreshNode(id, level)];
      idToOrd := idToOrd[id := |nodes| - 1];
      StagedIndexOk(before, index, id, level);
    }

    /** Link the staged node into every layer it shares with the entry node; a taller node becomes the entry. */
    method JoinGraph(level: nat, ghost before: seq<Node>, ghost id: nat)
      requires |store| == |nodes| && level <= 255 && nodes == Staged(before, id, level)
      requires GraphOk(before, M) && EntryOk(before, maxLayer, entry)
      modifies `nodes, `maxLayer, `entry
      ensures nodes == Added(before, QueryOf(store), old(maxLayer), old(entry), id, level)
      ensures maxLayer == (if level > old(maxLayer) then level else old(maxLayer))
      ensures entry == (if level > old(maxLayer) then |nodes| - 1 else old(entry))
      ensures SameShape(old(nodes), nodes) && GraphOk(nodes, M) && EntryOk(nodes, maxLayer, entry)
      ensures StaleOk(before) ==> StaleOk(nodes)
    {
      hide GraphOk, StaleOk, EntryOk, SameShape, Staged, Insert, Descend, CanInsert, LinksBack;
      ghost var q := QueryOf(store);
      AddedKeeps(before, q, maxLayer, entry, id, level);
      var node := |nodes| - 1;
      if maxLayer < 0 {
        maxLayer, entry := level, node;
        return;
      }
      ReadyToInsert(before, q, maxLayer, entry, id, level);
      var cur := GreedyDescent(store[node], level);
      JoinLayers(node, cur, Min(level, maxLayer) + 1);
      ShapeSize(old(nodes), nodes);
      if level > maxLayer { maxLayer, entry := level, node; }
    }

    /**
     * Insert or replace the vector of an id; `level` is the random level drawn for the new node.
     * A vector of another dimension is ignored.
     */
    method Add(id: nat, vec: Vector, level: nat)
      requires Valid() && level <= 255
      modifies this
      ensures Valid() && (old(StaleOk(nodes)) ==> StaleOk(nodes))
      ensures dim == if old(dim) == 0 then |vec| else old(dim)
      ensures |vec| != dim || dim == 0 ==> nodes == old(nodes) && store == old(store) && deleted == old(deleted)
      ensures |vec| == dim > 0 ==>
        && store == old(store) + [normalise(vec)] && deleted == old(deleted) - {id}
        && nodes == Added(old(nodes), QueryOf(store), old(maxLayer), old(entry), id, level)
        && maxLayer == (if level > old(maxLayer) then level else old(maxLayer))
        && entry == (if level > old(maxLayer) then |nodes| - 1 else old(entry))
    {
      hide GraphOk, EntryOk, StaleOk, IndexOk, Added, Staged, SameShape;
      if dim == 0 { dim := |vec|; }
      if |vec| != dim || dim == 0 { return; }
      deleted := deleted - {id};
      ghost var before := nodes;
      Stage(id, vec, level);
      ghost var staged := nodes;
      JoinGraph(level, before, id);
      ShapeKeepsStale(staged, nodes, idToOrd);
      assert |nodes| == |store| by { ShapeSize(staged, nodes); }
    }

    // ----- Queries -----

    /** Where the base-layer search of a query starts. */
    ghost function Landing(q: Vector): nat
      requires Valid() && nodes != []
      reads this
    {
      Descend(nodes, QueryFor(store, q), entry, maxLayer, 0)
    }

    /** The nodes the base-layer search of a query returns. */
    ghost function FoundFor(q: Vector, ef: nat): seq<nat>
      requires Valid() && nodes != []
      reads this
    {
      LayerSearch.Search(nodes, 0, SimTo(store, walk, q), Landing(q), ef)
    }

    /**
     * Best first, starting at least as similar to q as the entry node, and no base-layer neighbour of a found node that was
     * not found itself is more similar than any found node.
     */
    ghost predicate NearestAround(found: seq<nat>, q: Vector, ef: nat)
      reads this
    {
      && |store| == |nodes| && entry < |nodes| && 1 <= |found| <= Max(ef, 1) && (forall i :: 0 <= i < |found| ==> found[i] < |nodes|)
      && (forall i, j :: 0 <= i < j < |found| ==> walk(store[found[i]], q) >= walk(store[found[j]], q))
      && (forall i, j, nb: nat ::
            0 <= i < |found| && 0 <= j < |found| && nb in Neighbours(nodes, found[i], 0) && nb < |nodes| && nb !in found ==>
              walk(store[nb], q) <= walk(store[found[j]], q))
      && walk(store[entry], q) <= walk(store[found[0]], q)
    }

    lemma {:induction false} SearchIsNearestAround(q: Vector, ef: nat)
      requires Valid() && nodes != []
      ensures NearestAround(FoundFor(q, ef), q, ef)
    {
      hide GraphOk, IndexOk, Reachable, LayerSearch.Search, VisitedBy, Descend, Neighbours, Found;
      var sim, cur := SimTo(store, walk, q), Landing(q);
      var found, visited := FoundFor(q, ef), VisitedBy(nodes, 0, sim, cur, ef);
      DescentLandsWell(q, 0);
      SearchFinds(nodes, 0, sim, cur, ef);
      FoundNonEmpty(nodes, 0, sim, cur, ef, visited, found);
      FoundInOrder(nodes, 0, sim, cur, ef, visited, found);
      forall i, j, nb: nat |
        0 <= i < |found| && 0 <= j < |found| && nb in Neighbours(nodes, found[i], 0) && nb < |nodes| && nb !in found
        ensures walk(store[nb], q) <= walk(store[found[j]], q)
      {
        NeighboursAreNoBetter(nodes, 0, sim, cur, ef, visited, found, i, j, nb);
      }
    }

    /** A beam as wide as an index whose base layer is connected finds every node. */
    lemma {:induction false} WideBeamFindsEverything(q: Vector, ef: nat, n: nat)
      requires Valid() && nodes != [] && ef >= |nodes| && n < |nodes|
      requires forall v: nat :: v < |nodes| ==> Reachable(nodes, 0, Landing(q), v)
      ensures n in FoundFor(q, ef)
    {
      hide GraphOk, IndexOk, Reachable, LayerSearch.Search, VisitedBy, Found, Descend;
      var sim, cur := SimTo(store, walk, q), Landing(q);
      SearchFinds(nodes, 0, sim, cur, ef);
      SubsetSize(ReachableSet(nodes, 0, cur), UpTo(|nodes|));
      WideBeamFindsAll(nodes, 0, sim, cur, ef, VisitedBy(nodes, 0, sim, cur, ef), FoundFor(q, ef));
      assert n in ReachableSet(nodes, 0, cur);
    }

    /** A found node that may be returned: neither stale nor of a tombstoned id. */
    predicate Returnable(n: nat)
      reads this
    {
      n < |nodes| && !nodes[n].superseded && nodes[n].id !in deleted
    }

    /** Exact scores of the returnable nodes among the found ones, by id. */
    ghost function ReturnableScores(found: seq<nat>, q: Vector): (m: map<nat, real>)
      requires Valid()
      reads this
    {
      if found == [] then map[]
      else
        var rest, n := ReturnableScores(found[..|found| - 1], q), found[|found| - 1];
        if Returnable(n) then rest[nodes[n].id := exact(store[n], q)] else rest
    }

    /** The same scores by node: an id may have several nodes. */
    ghost function NodeScores(found: seq<nat>, q: Vector): (m: map<nat, real>)
      requires Valid()
      reads this
      ensures forall n: nat :: n in m <==> n in found && n < |nodes| && !nodes[n].superseded && nodes[n].id !in deleted
      ensures forall n :: n in m ==> n < |store| && m[n] == exact(store[n], q)
    {
      if found == [] then map[]
      else
        var rest, n := NodeScores(found[..|found| - 1], q), found[|found| - 1];
        assert found == found[..|found| - 1] + [n];
        if Returnable(n) then rest[n := exact(store[n], q)] else rest
    }

    method Tombstone(id: nat)
      modifies `deleted
      ensures deleted == old(deleted) + {id}
    {
      deleted := deleted + {id};
    }

    /** Score the returnable nodes exactly, each as a hit that names the node. */
    method Rescore(found: seq<nat>, q: Vector) returns (hits: seq<Hit>)
      requires Valid() && Distinct(found)
      ensures DistinctDocs(hits)
      ensures ExactScores(hits, NodeScores(found, q))
      ensures forall n :: n in NodeScores(found, q) ==> Listed(hits, n)
    {
      hide GraphOk, EntryOk, IndexOk, Listed, DistinctDocs, ExactScores, Distinct;
      hits := [];
      NoHits(NodeScores([], q));
      for i := 0 to |found|
        invariant DistinctDocs(hits)
        invariant forall j :: 0 <= j < |hits| ==> hits[j].doc in found[..i]
        invariant ExactScores(hits, NodeScores(found[..i], q))
        invariant forall n :: n in NodeScores(found[..i], q) ==> Listed(hits, n)
      {
        var n := found[i];
        assert found[..i + 1][..i] == found[..i] && found[..i + 1][i] == n;
        EarlierOnes(found, i);
        if Returnable(n) {
          var x := Hit(n, exact(store[n], q));
          AddHit(hits, x, NodeScores(found[..i], q));
          hits := hits + [x];
        }
      }
      assert found[..|found|] == found;
    }

    /**
     * k-nearest-neighbour search; ef of 0 takes the configured beam, and the beam is never narrower than k. `top` tells
     * which nodes the hits are: a top-k of the returnable nodes found. By id the hits are a top-k when no two live nodes
     * share an id, as when every id was added one at a time; otherwise an id can occur more than once, and does when both
     * of its nodes are found and k leaves nobody out.
     */
    method SearchNearest(query: Vector, k: nat, ef: nat, efSearch: nat) returns (hits: seq<Hit>, ghost top: seq<Hit>)
      requires Valid()
      ensures nodes == [] ==> hits == [] && top == []
      ensures ById(nodes, top, hits)
      ensures nodes != [] ==>
        var q := normalise(Fitted(query, dim));
        var found := FoundFor(q, Max(if ef != 0 then ef else efSearch, k));
        && IsTopK(top, NodeScores(found, q), k) && NearestAround(found, q, Max(if ef != 0 then ef else efSearch, k))
        && (OneLiveEach(nodes) ==> IsTopK(hits, ReturnableScores(found, q), k))
        && (k >= |NodeScores(found, q)| ==> (DistinctDocs(hits) <==> OneEach(nodes, NodeScores(found, q).Keys)))
      ensures nodes != [] && |query| == dim ==>
        IsTopK(top, NodeScores(FoundFor(normalise(query), Max(if ef != 0 then ef else efSearch, k)), normalise(query)), k)
      ensures forall i :: 0 <= i < |hits| ==> hits[i].doc !in deleted && Used(nodes, hits[i].doc)
    {
      hide GraphOk, EntryOk, IndexOk, IsTopK, OneLiveEach, OneEach, DistinctDocs, ById, Fitted, NodeScores, ReturnableScores,
        NearestAround;
      if nodes == [] || dim == 0 {
        NobodyById(nodes);
        return [], [];
      }
      var q := normalise(Fitted(query, dim));
      var found := FindNearest(q, Max(if ef != 0 then ef else efSearch, k));
      SearchIsNearestAround(q, Max(if ef != 0 then ef else efSearch, k));
      hits, top := Report(found, q, k);
    }

    /** Descend to the base layer and search it. */
    method FindNearest(q: Vector, ef: nat) returns (found: seq<nat>)
      requires Valid() && nodes != []
      ensures found == FoundFor(q, ef) && Distinct(found)
    {
      hide GraphOk, EntryOk, IndexOk, Search, Found, VisitedBy, Scratch.Valid;
      EntrySpans(nodes, maxLayer, entry);
      var cur := GreedyDescent(q, 0);
      var sc := new Scratch();
      FoundInLayer(nodes, M, 0, SimTo(store, walk, q), cur, ef, 0);
      found := SearchLayer(sc, nodes, SimTo(store, walk, q), cur, 0, ef);
    }

    /** Rescore, sort and cut, and name the nodes by their ids. */
    method Report(found: seq<nat>, q: Vector, k: nat) returns (hits: seq<Hit>, ghost top: seq<Hit>)
      requires Valid() && Distinct(found)
      ensures ById(nodes, top, hits) && IsTopK(top, NodeScores(found, q), k)
      ensures OneLiveEach(nodes) ==> IsTopK(hits, ReturnableScores(found, q), k)
      ensures k >= |NodeScores(found, q)| ==> (DistinctDocs(hits) <==> OneEach(nodes, NodeScores(found, q).Keys))
      ensures forall i :: 0 <= i < |hits| ==> hits[i].doc !in deleted && Used(nodes, hits[i].doc)
    {
      hide GraphOk, EntryOk, IndexOk, IsTopK, OneLiveEach, OneEach, DistinctDocs, SameById, ExactScores, Listed, Descending,
        ReturnableScores;
      ghost var scores := NodeScores(found, q);
      var all := Rescore(found, q);
      var sorted := SortHits(all);
      SortedStays(all, sorted, scores);
      PrefixIsTopK(sorted, scores, k);
      var best := sorted[..Min(k, |sorted|)];
      top := best;
      TopIsFound(top, scores, k);
      hits := Named(nodes, best);
      hide ById, NodeScores;
      if OneLiveEach(nodes) {
        SameScores(found, q);
        TopById(nodes, scores, ReturnableScores(found, q), k, top, hits);
      }
      if k >= |scores| { RepeatsById(nodes, scores, k, top, hits); }
      ReportedIds(found, q, k, top, hits);
    }

    lemma {:induction false} ReportedIds(found: seq<nat>, q: Vector, k: nat, top: seq<Hit>, hits: seq<Hit>)
      requires Valid() && IsTopK(top, NodeScores(found, q), k) && ById(nodes, top, hits)
      ensures forall i :: 0 <= i < |hits| ==> hits[i].doc !in deleted && Used(nodes, hits[i].doc)
    {
      hide GraphOk, EntryOk, IndexOk;
      TopIsFound(top, NodeScores(found, q), k);
      hide IsTopK;
    }

    /** With one live node per id, scores by id and by node are the same scores. */
    lemma {:induction false} SameScores(found: seq<nat>, q: Vector)
      requires Valid() && Distinct(found) && OneLiveEach(nodes)
      ensures SameById(nodes, NodeScores(found, q), ReturnableScores(found, q))
    {
      hide GraphOk, EntryOk, IndexOk, SameById, OneLiveEach;
      if found == [] {
        NothingById(nodes);
      } else {
        var less, n := found[..|found| - 1], found[|found| - 1];
        assert found == less + [n] && n !in less;
        SameScores(less, q);
        if Returnable(n) {
          forall m | m in NodeScores(less, q) ensures m < |nodes| && nodes[m].id != nodes[n].id {
            LiveDiffer(nodes, m, n);
          }
          OneMoreById(nodes, NodeScores(less, q), ReturnableScores(less, q), n, exact(store[n], q));
        }
      }
    }
  }

  lemma {:induction false} EarlierOnes(found: seq<nat>, i: nat)
    requires Distinct(found) && i < |found|
    ensures forall x :: x in found[..i] ==> x in found[..i + 1] && x != found[i]
    ensures found[i] in found[..i + 1]
  {
    assert found[..i + 1] == found[..i] + [found[i]];
  }

  /** Nodes with pairwise different ids. */
  ghost predicate OneEach(nodes: seq<Node>, found: set<nat>) {
    forall m, n :: m in found && n in found && m < |nodes| && n < |nodes| && m != n ==> nodes[m].id != nodes[n].id
  }

  /** Every node's score is also its id's. */
  ghost predicate Renamed(nodes: seq<Node>, byNode: map<nat, real>, byId: map<nat, real>) {
    forall n :: n in byNode ==> n < |nodes| && nodes[n].id in byId && byId[nodes[n].id] == byNode[n]
  }

  /** Every id has one of the nodes. */
  ghost predicate HaveNodes(nodes: seq<Node>, found: set<nat>, ids: set<nat>) {
    forall d :: d in ids ==> exists n :: n in found && n < |nodes| && nodes[n].id == d
  }

  /** The scores of nodes with pairwise different ids, by node and by id. */
  ghost predicate SameById(nodes: seq<Node>, byNode: map<nat, real>, byId: map<nat, real>) {
    && |byNode| == |byId| && OneEach(nodes, byNode.Keys)
    && Renamed(nodes, byNode, byId) && HaveNodes(nodes, byNode.Keys, byId.Keys)
  }

  lemma {:induction false} NothingById(nodes: seq<Node>)
    ensures SameById(nodes, map[], map[])
  {}

  lemma {:induction false} LiveDiffer(nodes: seq<Node>, m: nat, n: nat)
    requires OneLiveEach(nodes) && m < |nodes| && n < |nodes| && m != n
    requires !nodes[m].superseded && !nodes[n].superseded
    ensures nodes[m].id != nodes[n].id
  {}

  lemma {:induction false} OneMoreById(nodes: seq<Node>, byNode: map<nat, real>, byId: map<nat, real>, n: nat, v: real)
    requires SameById(nodes, byNode, byId) && n < |nodes| && n !in byNode
    requires forall m :: m in byNode ==> m < |nodes| && nodes[m].id != nodes[n].id
    ensures SameById(nodes, byNode[n := v], byId[nodes[n].id := v])
  {
    hide OneEach, HaveNodes, Renamed;
    NewName(nodes, byNode.Keys, byId.Keys, n);
    AddedKey(byNode, n, v);
    AddedKey(byId, nodes[n].id, v);
    OneMoreEach(nodes, byNode.Keys, n);
    OneMoreNode(nodes, byNode.Keys, byId.Keys, n);
    OneMoreRenamed(nodes, byNode, byId, n, v);
  }

  lemma {:induction false} NewName(nodes: seq<Node>, found: set<nat>, ids: set<nat>, n: nat)
    requires HaveNodes(nodes, found, ids) && n < |nodes|
    requires forall m :: m in found ==> m < |nodes| && nodes[m].id != nodes[n].id
    ensures nodes[n].id !in ids
  {}

  lemma {:induction false} OneMoreRenamed(nodes: seq<Node>, byNode: map<nat, real>, byId: map<nat, real>, n: nat, v: real)
    requires Renamed(nodes, byNode, byId) && n < |nodes|
    requires forall m :: m in byNode ==> m < |nodes| && nodes[m].id != nodes[n].id
    ensures Renamed(nodes, byNode[n := v], byId[nodes[n].id := v])
  {}

  lemma {:induction false} OneMoreNode(nodes: seq<Node>, found: set<nat>, ids: set<nat>, n: nat)
    requires HaveNodes(nodes, found, ids) && n < |nodes|
    ensures HaveNodes(nodes, found + {n}, ids + {nodes[n].id})
  {
    forall d | d in ids + {nodes[n].id} ensures exists x :: x in found + {n} && x < |nodes| && nodes[x].id == d {
      if d == nodes[n].id {
        assert n in found + {n};
      } else {
        var x :| x in found && x < |nodes| && nodes[x].id == d;
        assert x in found + {n};
      }
    }
  }

  lemma {:induction false} OneMoreEach(nodes: seq<Node>, found: set<nat>, n: nat)
    requires OneEach(nodes, found) && n < |nodes| && forall m :: m in found ==> m < |nodes| && nodes[m].id != nodes[n].id
    ensures OneEach(nodes, found + {n})
  {}

  lemma {:induction false} TopById(nodes: seq<Node>, byNode: map<nat, real>, byId: map<nat, real>, k: nat, top: seq<Hit>,
                                   hits: seq<Hit>)
    requires SameById(nodes, byNode, byId) && IsTopK(top, byNode, k) && ById(nodes, top, hits)
    ensures IsTopK(hits, byId, k)
  {
    forall i, j | 0 <= i < j < |hits| ensures hits[i].doc != hits[j].doc {
      assert top[i].doc in byNode && top[j].doc in byNode && top[i].doc != top[j].doc;
    }
    forall d, i | d in byId && !Listed(hits, d) && 0 <= i < |hits| ensures byId[d] <= hits[i].score {
      var n :| n in byNode && n < |nodes| && nodes[n].id == d;
      if Listed(top, n) {
        ListedById(nodes, top, hits, n);
        assert false;
      }
    }
  }

  lemma {:induction false} ListedById(nodes: seq<Node>, top: seq<Hit>, hits: seq<Hit>, n: nat)
    requires ById(nodes, top, hits) && n < |nodes| && Listed(top, n)
    ensures Listed(hits, nodes[n].id)
  {
    var j :| 0 <= j < |top| && top[j].doc == n;
    assert hits[j].doc == nodes[n].id;
  }

  /** When nobody is left out, an id occurs twice exactly when two of the nodes carry it. */
  lemma {:induction false} RepeatsById(nodes: seq<Node>, scores: map<nat, real>, k: nat, top: seq<Hit>, hits: seq<Hit>)
    requires IsTopK(top, scores, k) && k >= |scores| && ById(nodes, top, hits)
    ensures DistinctDocs(hits) <==> OneEach(nodes, scores.Keys)
  {
    EverybodyListed(top, scores, k);
    TopIsFound(top, scores, k);
    if OneEach(nodes, scores.Keys) {
      forall i, j | 0 <= i < j < |hits| ensures hits[i].doc != hits[j].doc {
        assert top[i].doc != top[j].doc;
      }
    }
    if DistinctDocs(hits) {
      forall m, n | m in scores && n in scores && m < |nodes| && n < |nodes| && m != n ensures nodes[m].id != nodes[n].id {
        var i :| 0 <= i < |top| && top[i].doc == m;
        var j :| 0 <= j < |top| && top[j].doc == n;
        assert hits[i].doc == nodes[m].id && hits[j].doc == nodes[n].id;
      }
    }
  }

  /** The hits named by node, and the same ones named by id. */
  ghost predicate ById(nodes: seq<Node>, top: seq<Hit>, hits: seq<Hit>) {
    |hits| == |top| && forall i :: 0 <= i < |hits| ==>
      top[i].doc < |nodes| && hits[i] == Hit(nodes[top[i].doc].id, top[i].score)
  }

  function Named(nodes: seq<Node>, top: seq<Hit>): (hits: seq<Hit>)
    requires forall i :: 0 <= i < |top| ==> top[i].doc < |nodes|
    ensures ById(nodes, top, hits)
  {
    seq(|top|, i requires 0 <= i < |top| => Hit(nodes[top[i].doc].id, top[i].score))
  }

  lemma {:induction false} NobodyById(nodes: seq<Node>)
    ensures ById(nodes, [], [])
  {}

  /** No two live nodes share an id. */
  ghost predicate OneLiveEach(nodes: seq<Node>) {
    forall m, n :: 0 <= m < n < |nodes| && !nodes[m].superseded && !nodes[n].superseded ==> nodes[m].id != nodes[n].id
  }

  /** Adding ids one at a time keeps one live node each. */
  lemma {:induction false} StaleMeansOneLive(nodes: seq<Node>)
    requires StaleOk(nodes)
    ensures OneLiveEach(nodes)
  {
    forall m, n | 0 <= m < n < |nodes| && !nodes[m].superseded && !nodes[n].superseded
      ensures nodes[m].id != nodes[n].id
    {
      assert !UsedLater(nodes, m);
    }
  }

  lemma {:induction false} AddedKey(m: map<nat, real>, x: nat, v: real)
    requires x !in m
    ensures |m[x := v]| == |m| + 1 && m[x := v].Keys == m.Keys + {x}
  {
    assert m[x := v].Keys == m.Keys + {x};
    assert |m[x := v].Keys| == |m.Keys| + 1;
  }

  lemma {:induction false} TopIsFound(top: seq<Hit>, scores: map<nat, real>, k: nat)
    requires IsTopK(top, scores, k)
    ensures forall i :: 0 <= i < |top| ==> top[i].doc in scores
  {}

  /** A top-k that leaves nobody out lists everybody. */
  lemma {:induction false} EverybodyListed(top: seq<Hit>, scores: map<nat, real>, k: nat)
    requires IsTopK(top, scores, k) && k >= |scores|
    ensures forall n :: n in scores ==> Listed(top, n)
  {
    DocsOfSize(top);
    assert |scores| == |scores.Keys|;
    SubsetSize(DocsOf(top), scores.Keys);
  }

  function Max(a: nat, b: nat): (m: nat)
    ensures m >= a && m >= b && (m == a || m == b)
  {
    if a < b then b else a
  }

  /** A query vector cut or zero-padded to the index's dimension. */
  function Fitted(v: Vector, dim: nat): (r: Vector)
    ensures |r| == dim && (|v| == dim ==> r == v)
    ensures |v| < dim ==> v <= r && forall i :: |v| <= i < dim ==> r[i] == 0.0
    ensures |v| > dim ==> r <= v
  {
    seq(dim, i requires 0 <= i < dim => if i < |v| then v[i] else 0.0)
  }

  lemma {:induction false} EntrySpans(nodes: seq<Node>, maxLayer: int, entry: nat)
    requires EntryOk(nodes, maxLayer, entry) && nodes != []
    ensures 0 <= maxLayer && InLayer(nodes, entry, maxLayer)
  {}

  lemma {:induction false} NoHits(scores: map<nat, real>)
    requires scores == map[]
    ensures DistinctDocs([]) && ExactScores([], scores) && forall d :: d in scores ==> Listed([], d)
  {}

  /** One more scored id. */
  lemma {:induction false} AddHit(hits: seq<Hit>, x: Hit, scores: map<nat, real>)
    requires DistinctDocs(hits) && ExactScores(hits, scores) && forall d :: d in scores ==> Listed(hits, d)
    requires forall j :: 0 <= j < |hits| ==> hits[j].doc != x.doc
    ensures var more, wider := hits + [x], scores[x.doc := x.score];
      DistinctDocs(more) && ExactScores(more, wider) && forall d :: d in wider ==> Listed(more, d)
  {
    var more := hits + [x];
    assert more[|hits|] == x;
    forall d | d in scores ensures Listed(more, d) { ListedStays(hits, x, d); }
  }

  lemma {:induction false} ListedStays(hits: seq<Hit>, x: Hit, d: nat)
    requires Listed(hits, d)
    ensures Listed(hits + [x], d)
  {
    var i :| 0 <= i < |hits| && hits[i].doc == d;
    assert (hits + [x])[i] == hits[i];
  }

  lemma {:induction false} SortedStays(all: seq<Hit>, sorted: seq<Hit>, scores: map<nat, real>)
    requires ExactScores(all, scores) && forall d :: d in scores ==> Listed(all, d)
    requires forall h :: h in sorted <==> h in all
    ensures ExactScores(sorted, scores) && forall d :: d in scores ==> Listed(sorted, d)
  {
    forall i | 0 <= i < |sorted| ensures sorted[i].doc in scores && sorted[i].score == scores[sorted[i].doc] {
      assert sorted[i] in all;
    }
    forall d | d in scores ensures Listed(sorted, d) {
      var i :| 0 <= i < |all| && all[i].doc == d;
      assert all[i] in sorted;
    }
  }
}
