/** A wave of one node is an ordinary insertion: the bulk build starts out linking nodes one at a time. */
module WaveOfOne {
  import opened Sets
  import opened TopK
  import opened HnswGraph
  import opened LayerSearch
  import opened HnswLinks
  import opened HnswInsert
  import opened HnswIndex
  import opened WaveSearch
  import opened WaveLinks
  import opened WaveGroups
  import opened BulkBuild

  // ----- A search reads one layer -----

  ghost predicate SameLayer(a: seq<Node>, b: seq<Node>, L: nat) {
    |a| == |b| && forall n :: 0 <= n < |a| ==> Neighbours(a, n, L) == Neighbours(b, n, L)
  }

  lemma {:induction false} FinishSameLayer(a: seq<Node>, b: seq<Node>, L: nat, sim: nat -> real, ef: nat, beam: Beam)
    requires SameLayer(a, b, L) && Ordered(beam) && Inside(beam, |a|)
    ensures Finish(a, L, sim, ef, beam) == Finish(b, L, sim, ef, beam)
    decreases |a| - |beam.visited|, |beam.cand|
  {
    hide Ordered, Inside, VisitAll, Neighbours;
    if beam.cand != [] {
      RoundSameLayer(a, b, L, sim, ef, beam);
      hide Round;
      var r := Round(a, L, sim, ef, beam);
      LayerSearch.Progress(|a|, beam, r);
      FinishSameLayer(a, b, L, sim, ef, r);
    }
  }

  lemma {:induction false} RoundSameLayer(a: seq<Node>, b: seq<Node>, L: nat, sim: nat -> real, ef: nat, beam: Beam)
    requires SameLayer(a, b, L) && Ordered(beam) && Inside(beam, |a|) && beam.cand != []
    ensures Round(a, L, sim, ef, beam) == Round(b, L, sim, ef, beam)
  {
    hide VisitAll, Neighbours;
    var top := beam.cand[|beam.cand| - 1];
    assert top in beam.cand && top.doc < |a|;
  }

  lemma {:induction false} SearchSameLayer(a: seq<Node>, b: seq<Node>, L: nat, sim: nat -> real, entry: nat, ef: nat)
    requires SameLayer(a, b, L) && entry < |a|
    ensures Search(a, L, sim, entry, ef) == Search(b, L, sim, entry, ef)
  {
    hide SameLayer, Finish;
    FinishSameLayer(a, b, L, sim, ef, Start(entry, sim));
  }

  // ----- The lists one node chooses -----

  lemma {:induction false} BestInLayer(nodes: seq<Node>, q: Query, cur: nat, L: nat)
    requires GraphOk(nodes, q.M) && InLayer(nodes, cur, L)
    ensures var found := Search(nodes, L, q.sim, cur, q.ef);
      found != [] && found[0] < |nodes| && L < |nodes[found[0]].links|
  {
    hide Search, GraphOk;
    FoundInLayer(nodes, q.M, L, q.sim, cur, q.ef, 0);
  }

  /** The best node found in layer L, where the search of the layer below starts. */
  ghost function NextStart(nodes: seq<Node>, q: Query, cur: nat, L: nat): (r: nat)
    requires GraphOk(nodes, q.M) && InLayer(nodes, cur, L)
    ensures r < |nodes| && InLayer(nodes, r, L)
  {
    hide Search, GraphOk;
    BestInLayer(nodes, q, cur, L);
    Search(nodes, L, q.sim, cur, q.ef)[0]
  }

  /** The lists of layers below k that a node chooses. */
  ghost function ListsFrom(nodes: seq<Node>, q: Query, node: nat, cur: nat, k: nat): (lists: seq<seq<nat>>)
    requires GraphOk(nodes, q.M) && (k == 0 || InLayer(nodes, cur, k - 1))
    ensures |lists| == k
    decreases k
  {
    if k == 0 then []
    else
      hide GraphOk, Picked, Search, NextStart;
      ListsFrom(nodes, q, node, NextStart(nodes, q, cur, k - 1), k - 1) + [Picked(q, node, k - 1, Search(nodes, k - 1, q.sim, cur, q.ef))]
  }

  /** From its own top layer down, a walk ends with exactly these lists. */
  lemma {:induction false} OutcomeIsLists(nodes: seq<Node>, t: Task, w: Walker, cur: nat)
    requires GraphOk(nodes, t.q.M) && -1 <= w.lc <= t.level && WalkerOk(nodes, w) && |w.out| == t.level + 1
    requires cur < |nodes| && w.beam == Start(cur, t.q.sim) && (w.lc >= 0 ==> InLayer(nodes, cur, w.lc))
    ensures Outcome(nodes, t, w) == ListsFrom(nodes, t.q, t.node, cur, w.lc + 1) + w.out[w.lc + 1..]
    decreases w.lc + 1
  {
    hide GraphOk, Search, Start, Picked, Outcome, WalkerOk;
    if w.lc < 0 {
      NoLayersLeft(nodes, t, w);
    } else {
      var L := w.lc;
      var found := Search(nodes, L, t.q.sim, cur, t.q.ef);
      BestInLayer(nodes, t.q, cur, L);
      LayerDone(nodes, t, w, cur);
      var out := w.out[L := Picked(t.q, t.node, L, found)];
      OutcomeIsLists(nodes, t, Walker(L - 1, Start(found[0], t.q.sim), out), found[0]);
      assert out[L..] == [Picked(t.q, t.node, L, found)] + w.out[L + 1..];
    }
  }

  /** Above it a walk descends as an insertion does. */
  lemma {:induction false} OutcomeDescends(nodes: seq<Node>, t: Task, w: Walker, cur: nat)
    requires GraphOk(nodes, t.q.M) && t.level <= w.lc && WalkerOk(nodes, w) && |w.out| == t.level + 1
    requires w.beam == Start(cur, t.q.sim) && InLayer(nodes, cur, w.lc)
    ensures Outcome(nodes, t, w) == ListsFrom(nodes, t.q, t.node, Descend(nodes, t.q, cur, w.lc, t.level), t.level + 1)
    decreases w.lc
  {
    hide GraphOk, Search, Start, Picked, Outcome, WalkerOk, ListsFrom;
    if w.lc == t.level {
      OutcomeIsLists(nodes, t, w, cur);
      assert w.out[w.lc + 1..] == [];
    } else {
      FoundInLayer(nodes, t.q.M, w.lc, t.q.sim, cur, 1, 0);
      LayerDone(nodes, t, w, cur);
      var found := Search(nodes, w.lc, t.q.sim, cur, 1);
      OutcomeDescends(nodes, t, Walker(w.lc - 1, Start(found[0], t.q.sim), w.out), found[0]);
    }
  }

  /** The lists a node alone in its wave chooses; layers above the graph's highest stay empty. */
  lemma {:induction false} PicksAreLists(nodes: seq<Node>, t: Task, entry: nat, top: nat)
    requires GraphOk(nodes, t.q.M) && InLayer(nodes, entry, top)
    ensures var k := Min(t.level, top) + 1;
      var lists := ListsFrom(nodes, t.q, t.node, Descend(nodes, t.q, entry, top, t.level), k);
      Picks(nodes, t, entry, top) == lists + seq(t.level + 1 - k, _ => [])
  {
    hide GraphOk, Start, Outcome, WalkerOk, ListsFrom;
    PicksIs(nodes, t, entry, top);
    var w := FirstStep(t, entry, top);
    if t.level <= top {
      OutcomeDescends(nodes, t, w, entry);
    } else {
      OutcomeIsLists(nodes, t, w, entry);
      assert w.out[top + 1..] == seq(t.level - top, _ => []);
    }
  }

  // ----- What an insertion leaves -----

  /** The node holds its lists below layer k, those it lists take it into theirs, and nothing else changes. */
  ghost predicate Joined(nodes: seq<Node>, r: seq<Node>, q: Query, node: nat, lists: seq<seq<nat>>) {
    && SameShape(nodes, r) && node < |nodes| && |lists| <= |nodes[node].links|
    && forall n, L :: 0 <= n < |nodes| && 0 <= L < |nodes[n].links| ==> r[n].links[L] == JoinedList(nodes, q, node, lists, n, L)
  }

  /** Layer L of node n once the node has joined the layer with that list. */
  ghost function ListAfter(nodes: seq<Node>, q: Query, node: nat, list: seq<nat>, n: nat, L: nat): seq<nat>
    requires n < |nodes| && L < |nodes[n].links|
  {
    if n == node then list
    else if n in list then Pruned(WithBack(nodes[n].links[L], node), n, MaxLinks(q.M, L), q.near)
    else nodes[n].links[L]
  }

  ghost function JoinedList(nodes: seq<Node>, q: Query, node: nat, lists: seq<seq<nat>>, n: nat, L: nat): seq<nat>
    requires n < |nodes| && L < |nodes[n].links|
  {
    if L < |lists| then ListAfter(nodes, q, node, lists[L], n, L) else nodes[n].links[L]
  }

  lemma {:induction false} JoinedUnique(nodes: seq<Node>, a: seq<Node>, b: seq<Node>, q: Query, node: nat, lists: seq<seq<nat>>)
    requires Joined(nodes, a, q, node, lists) && Joined(nodes, b, q, node, lists)
    ensures a == b
  {
    hide JoinedList;
    forall n | 0 <= n < |nodes| ensures a[n] == b[n] {
      assert a[n].links == b[n].links;
    }
  }

  /** Every listed node takes the node into its own list of the layer, pruned when over-full. */
  lemma {:induction false} BackLinkAllLists(nodes: seq<Node>, links: seq<nat>, L: nat, node: nat, M: nat, near: (nat, nat) -> real,
                                            n: nat, l: nat)
    requires HaveLayer(nodes, L, links) && Distinct(links) && n < |nodes| && l < |nodes[n].links|
    ensures BackLinkAll(nodes, links, L, node, M, near)[n].links[l] ==
      if l == L && n in links then Pruned(WithBack(nodes[n].links[l], node), n, MaxLinks(M, L), near) else nodes[n].links[l]
  {
    hide Pruned, WithBack;
    if links != [] {
      var less, nb := links[..|links| - 1], links[|links| - 1];
      assert links == less + [nb];
      BackLinkAllLists(nodes, less, L, node, M, near, n, l);
      BackLinkAllLists(nodes, less, L, node, M, near, nb, L);
      assert nb !in less;
    }
  }

  lemma {:induction false} LinkedLists(nodes: seq<Node>, node: nat, L: nat, links: seq<nat>, M: nat, near: (nat, nat) -> real,
                                       n: nat, l: nat)
    requires node < |nodes| && L < |nodes[node].links| && HaveLayer(nodes, L, links) && Distinct(links) && node !in links
    requires n < |nodes| && l < |nodes[n].links|
    ensures Linked(nodes, node, L, links, M, near)[n].links[l] ==
      if l != L then nodes[n].links[l]
      else if n == node then links
      else if n in links then Pruned(WithBack(nodes[n].links[l], node), n, MaxLinks(M, L), near)
      else nodes[n].links[l]
  {
    hide Pruned, WithBack, BackLinkAll, HaveLayer, Distinct;
    InstallKeepsLayer(nodes, node, L, links);
    BackLinkAllLists(SetList(nodes, node, L, links), links, L, node, M, near, n, l);
  }

  /** Below layer k both graphs have the same lists. */
  ghost predicate SameBelow(a: seq<Node>, b: seq<Node>, k: nat) {
    SameShape(a, b) && forall n, L :: 0 <= n < |a| && 0 <= L < |a[n].links| && L < k ==> b[n].links[L] == a[n].links[L]
  }

  lemma {:induction false} SameBelowLayer(a: seq<Node>, b: seq<Node>, k: nat, L: nat)
    requires SameBelow(a, b, k) && L < k
    ensures SameLayer(a, b, L)
  {}

  /** One joined layer, list by list. */
  lemma {:induction false} JoinedLayerLists(base: seq<Node>, nodes: seq<Node>, q: Query, node: nat, cur: nat, L: nat)
    requires CanInsert(nodes, q.M, node, cur, L + 1) && SameBelow(base, nodes, L + 1)
    ensures var r, list := JoinedLayer(nodes, q, node, cur, L), Picked(q, node, L, Search(base, L, q.sim, cur, q.ef));
      && Search(nodes, L, q.sim, cur, q.ef) == Search(base, L, q.sim, cur, q.ef) && SameShape(nodes, r) && SameBelow(base, r, L)
      && forall n, l :: 0 <= n < |nodes| && 0 <= l < |nodes[n].links| ==>
           (r[n].links[l] == if l == L then ListAfter(base, q, node, list, n, L) else nodes[n].links[l])
  {
    hide Search, Picked, GraphOk, Linked, Pruned, WithBack, NoInLinks, SameLayer, Distinct, HaveLayer;
    SameBelowLayer(base, nodes, L + 1, L);
    SearchSameLayer(base, nodes, L, q.sim, cur, q.ef);
    PickedOk(nodes, q, node, cur, L);
    var list := Picked(q, node, L, Search(nodes, L, q.sim, cur, q.ef));
    forall n, l | 0 <= n < |nodes| && 0 <= l < |nodes[n].links|
      ensures JoinedLayer(nodes, q, node, cur, L)[n].links[l] == if l == L then ListAfter(nodes, q, node, list, n, L) else nodes[n].links[l]
    {
      LinkedLists(nodes, node, L, list, q.M, q.near, n, l);
    }
  }

  /** Joining the layers below k one by one leaves what joining them all with the lists of the first graph leaves. */
  lemma {:induction false} InsertLists(base: seq<Node>, nodes: seq<Node>, q: Query, node: nat, cur: nat, k: nat)
    requires CanInsert(nodes, q.M, node, cur, k) && SameBelow(base, nodes, k) && GraphOk(base, q.M)
    ensures k == 0 || InLayer(base, cur, k - 1)
    ensures var r, lists := Insert(nodes, q, node, cur, k), ListsFrom(base, q, node, cur, k);
      && SameShape(nodes, r)
      && forall n, L :: 0 <= n < |nodes| && 0 <= L < |nodes[n].links| ==>
           (r[n].links[L] == if L < k then JoinedList(base, q, node, lists, n, L) else nodes[n].links[L])
    decreases k
  {
    hide GraphOk, Search, Picked, JoinedLayer, NoInLinks, ListAfter;
    if k > 0 {
      var L := k - 1;
      JoinedLayerLists(base, nodes, q, node, cur, L);
      JoinedReady(nodes, q, node, cur, L);
      var r1, next := JoinedLayer(nodes, q, node, cur, L), Search(nodes, L, q.sim, cur, q.ef)[0];
      InsertLists(base, r1, q, node, next, L);
    }
  }

  // ----- What a wave of one leaves -----

  /** The links back of one node hold that node only. */
  lemma {:induction false} WithAllOne(list: seq<nat>, sources: seq<nat>, node: nat)
    requires sources != [] && forall i :: 0 <= i < |sources| ==> sources[i] == node
    ensures WithAll(list, sources) == WithBack(list, node)
    decreases sources
  {
    if |sources| > 1 {
      WithAllOne(WithBack(list, node), sources[1..], node);
    } else {
      assert sources[1..] == [];
    }
  }

  ghost predicate OneWave(nodes: seq<Node>, next: nat, out: seq<seq<nat>>) {
    && next < |nodes| && |out| == |nodes[next].links|
    && (forall n :: 0 <= n < |nodes| ==> |nodes[n].links| <= LAYERS)
    && forall L :: 0 <= L < |out| ==> next !in out[L]
  }

  /** The groups of a wave of one: one for each listed neighbour, and none for the node's own lists. */
  lemma {:induction false} GroupsOfOne(nodes: seq<Node>, next: nat, out: seq<seq<nat>>, n: nat, L: nat)
    requires OneWave(nodes, next, out) && n < |nodes| && L < |nodes[n].links|
    ensures HasGroup(GroupsOf(next, [out]), KeyOf(n, L)) <==> L < |out| && n in out[L]
    ensures forall g :: 0 <= g < |GroupsOf(next, [out])| ==>
      var sources := GroupsOf(next, [out])[g].sources;
      sources != [] && forall i :: 0 <= i < |sources| ==> sources[i] == next
  {
    hide GroupsOf, KeyOf, NeighbourOf, LayerOf;
    var gs, key := GroupsOf(next, [out]), KeyOf(n, L);
    GroupsMatchPicks(next, [out]);
    KeyUnpacks(n, L);
    if L < |out| && n in out[L] {
      assert Chosen(next, [out], Back(key, next));
    }
    if HasGroup(gs, key) {
      var g :| 0 <= g < |gs| && gs[g].key == key;
      assert Chosen(next, [out], Back(gs[g].key, gs[g].sources[0]));
    }
    forall g, i | 0 <= g < |gs| && 0 <= i < |gs[g].sources| ensures gs[g].sources[i] == next {
      assert Chosen(next, [out], Back(gs[g].key, gs[g].sources[i]));
    }
  }

  /** The wave's update of one list. */
  lemma {:induction false} AppliedOne(nodes: seq<Node>, next: nat, out: seq<seq<nat>>, q: Query, r: seq<Node>, n: nat, L: nat)
    requires OneWave(nodes, next, out) && n < |nodes| && L < |nodes[n].links|
    requires Applied(OwnLists(nodes, next, [out]), GroupsOf(next, [out]), q.M, q.near, r)
    ensures L < |r[n].links| && r[n].links[L] == JoinedList(nodes, q, next, out, n, L)
  {
    hide GroupsOf, KeyOf, NeighbourOf, LayerOf, Pruned, WithAll, WithBack, MaxLinks;
    var own, gs, key := OwnLists(nodes, next, [out]), GroupsOf(next, [out]), KeyOf(n, L);
    GroupsOfOne(nodes, next, out, n, L);
    KeyUnpacks(n, L);
    if HasGroup(gs, key) {
      var g :| 0 <= g < |gs| && gs[g].key == key;
      assert Fits(own, gs[g].key);
      WithAllOne(nodes[n].links[L], gs[g].sources, next);
    }
  }

  ghost function QueryAt(p: Setup, node: nat): Query
    requires node < |p.store|
  {
    Query(p.M, p.ef, SimTo(p.store, p.walk, p.store[node]), NearOf(p.store, p.dot))
  }

  ghost function TopLayer(nodes: seq<Node>, node: nat): nat
    requires node < |nodes| && nodes[node].links != []
  {
    |nodes[node].links| - 1
  }

  lemma {:induction false} ReadyAlone(p: Setup, nodes: seq<Node>, node: nat, maxLayer: int, entry: nat)
    requires Building(p, nodes, node, maxLayer, entry) && node < |nodes|
    ensures node < |p.store| && nodes[node].links != [] && maxLayer >= 0
    ensures GraphOk(nodes, p.M) && InLayer(nodes, entry, maxLayer)
    ensures var q, level := QueryAt(p, node), TopLayer(nodes, node);
      CanInsert(nodes, p.M, node, Descend(nodes, q, entry, maxLayer, level), Min(level, maxLayer) + 1)
  {
    hide GraphOk, Descend;
    var q, level := QueryAt(p, node), TopLayer(nodes, node);
    NoLinksIn(nodes, node);
    DescendAvoids(nodes, q, entry, maxLayer, level, node);
  }

  lemma {:induction false} NoLinksIn(nodes: seq<Node>, node: nat)
    requires Unlinked(nodes, node)
    ensures forall l: nat :: NoInLinks(nodes, node, l)
  {}

  /** The node is inserted by itself, as `add` does it. */
  ghost function InsertAlone(p: Setup, nodes: seq<Node>, node: nat, maxLayer: int, entry: nat): seq<Node>
    requires Building(p, nodes, node, maxLayer, entry) && node < |nodes|
  {
    hide Building, GraphOk, CanInsert, Descend, InLayer;
    ReadyAlone(p, nodes, node, maxLayer, entry);
    var q, level := QueryAt(p, node), TopLayer(nodes, node);
    Insert(nodes, q, node, Descend(nodes, q, entry, maxLayer, level), Min(level, maxLayer) + 1)
  }

  lemma {:induction false} AloneIsJoined(p: Setup, nodes: seq<Node>, node: nat, maxLayer: int, entry: nat)
    requires Building(p, nodes, node, maxLayer, entry) && node < |nodes|
    requires nodes[node].links != [] && GraphOk(nodes, p.M) && maxLayer >= 0 && InLayer(nodes, entry, maxLayer) && node < |p.store|
    ensures var q, level := QueryAt(p, node), TopLayer(nodes, node);
      var cur, k := Descend(nodes, q, entry, maxLayer, level), Min(level, maxLayer) + 1;
      (k == 0 || InLayer(nodes, cur, k - 1)) &&
      Joined(nodes, InsertAlone(p, nodes, node, maxLayer, entry), q, node, ListsFrom(nodes, q, node, cur, k))
  {
    hide Building, GraphOk, Descend, Insert, ListAfter, ListsFrom;
    ReadyAlone(p, nodes, node, maxLayer, entry);
    var q, level := QueryAt(p, node), TopLayer(nodes, node);
    var cur, k := Descend(nodes, q, entry, maxLayer, level), Min(level, maxLayer) + 1;
    InsertLists(nodes, nodes, q, node, cur, k);
  }

  lemma {:induction false} WaveIsJoined(p: Setup, nodes: seq<Node>, node: nat, maxLayer: int, entry: nat)
    requires Building(p, nodes, node, maxLayer, entry) && node < |nodes|
    requires nodes[node].links != [] && GraphOk(nodes, p.M) && maxLayer >= 0 && InLayer(nodes, entry, maxLayer)
    requires |p.store| == |nodes| && forall n :: 0 <= n < |nodes| ==> nodes[n].links != []
    ensures var q, level := QueryAt(p, node), TopLayer(nodes, node);
      var cur, k := Descend(nodes, q, entry, maxLayer, level), Min(level, maxLayer) + 1;
      (k == 0 || InLayer(nodes, cur, k - 1)) &&
      Joined(nodes, WaveResult(p, nodes, node, 1, entry, maxLayer), q, node, ListsFrom(nodes, q, node, cur, k))
  {
    hide GraphOk, Descend, ListAfter, ListsFrom, Picks, GroupsOf, ApplyAll, Applied, Building, SameShape;
    var q, level := QueryAt(p, node), TopLayer(nodes, node);
    var cur, k := Descend(nodes, q, entry, maxLayer, level), Min(level, maxLayer) + 1;
    ReadyAlone(p, nodes, node, maxLayer, entry);
    PicksAreLists(nodes, TaskOf(p, nodes, node), entry, maxLayer);
    var lists, out := ListsFrom(nodes, q, node, cur, k), Picks(nodes, TaskOf(p, nodes, node), entry, maxLayer);
    assert WavePicks(p, nodes, node, 1, entry, maxLayer) == [out];
    WaveListsAreOk(p, nodes, node, 1, maxLayer, entry);
    AloneInWave(p, nodes, node, maxLayer, entry, out);
    WaveKeeps(p, nodes, node, 1, maxLayer, entry);
    AllApplied(OwnLists(nodes, node, [out]), GroupsOf(node, [out]), p.M, NearOf(p.store, p.dot));
    hide OneWave, Joined;
    AppliedIsJoined(p, nodes, node, maxLayer, entry, q, lists, out, WaveResult(p, nodes, node, 1, entry, maxLayer));
  }

  lemma {:induction false} AppliedIsJoined(p: Setup, nodes: seq<Node>, node: nat, maxLayer: int, entry: nat, q: Query,
                                           lists: seq<seq<nat>>, out: seq<seq<nat>>, r: seq<Node>)
    requires Building(p, nodes, node, maxLayer, entry) && OneWave(nodes, node, out)
    requires |lists| <= |nodes[node].links| && out == lists + seq(|nodes[node].links| - |lists|, _ => [])
    requires Applied(OwnLists(nodes, node, [out]), GroupsOf(node, [out]), q.M, q.near, r)
    ensures Joined(nodes, r, q, node, lists)
  {
    hide Building, Applied, GroupsOf, JoinedList;
    AppliedShape(OwnLists(nodes, node, [out]), GroupsOf(node, [out]), q.M, q.near, r);
    forall n, L | 0 <= n < |nodes| && 0 <= L < |nodes[n].links|
      ensures L < |r[n].links| && r[n].links[L] == JoinedList(nodes, q, node, lists, n, L)
    {
      AppliedOne(nodes, node, out, q, r, n, L);
      EmptyAbove(p, nodes, node, maxLayer, entry, q, lists, out, n, L);
    }
  }

  lemma {:induction false} AloneInWave(p: Setup, nodes: seq<Node>, node: nat, maxLayer: int, entry: nat, out: seq<seq<nat>>)
    requires Building(p, nodes, node, maxLayer, entry) && node < |nodes| && WaveListsOk(nodes, p.M, node, [out])
    ensures OneWave(nodes, node, out)
  {
    hide GraphOk, Unlinked, ListOk;
    assert PicksOk(nodes, p.M, node, node, [out][0]);
    forall L | 0 <= L < |out| ensures node !in out[L] { assert PickOk(nodes, p.M, node, node, L, out[L]); }
  }

  /** Lists of layers above the graph's highest are empty before and after. */
  lemma {:induction false} EmptyAbove(p: Setup, nodes: seq<Node>, node: nat, maxLayer: int, entry: nat, q: Query, lists: seq<seq<nat>>,
                                      out: seq<seq<nat>>, n: nat, L: nat)
    requires Building(p, nodes, node, maxLayer, entry) && node < |nodes| && n < |nodes| && L < |nodes[n].links|
    requires |lists| <= |nodes[node].links| && out == lists + seq(|nodes[node].links| - |lists|, _ => [])
    ensures JoinedList(nodes, q, node, out, n, L) == JoinedList(nodes, q, node, lists, n, L)
  {
    hide GraphOk;
    assert n == node ==> nodes[n].links[L] == [];
  }

  /** A wave of one node leaves exactly the graph that inserting the node by itself leaves. */
  lemma {:induction false} WaveOfOneInserts(p: Setup, nodes: seq<Node>, node: nat, maxLayer: int, entry: nat)
    requires Building(p, nodes, node, maxLayer, entry) && node < |nodes|
    ensures entry < |nodes| == |p.store| && forall n :: 0 <= n < |nodes| ==> nodes[n].links != []
    ensures WaveResult(p, nodes, node, 1, entry, maxLayer) == InsertAlone(p, nodes, node, maxLayer, entry)
  {
    hide Building, GraphOk, Descend, WaveResult, InsertAlone, Joined, ListsFrom;
    WaveReady(p, nodes, node, 1, maxLayer, entry);
    ReadyAlone(p, nodes, node, maxLayer, entry);
    WaveIsJoined(p, nodes, node, maxLayer, entry);
    AloneIsJoined(p, nodes, node, maxLayer, entry);
    var q, level := QueryAt(p, node), TopLayer(nodes, node);
    var cur, k := Descend(nodes, q, entry, maxLayer, level), Min(level, maxLayer) + 1;
    JoinedUnique(nodes, WaveResult(p, nodes, node, 1, entry, maxLayer), InsertAlone(p, nodes, node, maxLayer, entry), q, node,
                 ListsFrom(nodes, q, node, cur, k));
  }

  // ----- The first thirty-two nodes -----

  /** Nodes next to `to` inserted one at a time, a taller node becoming the entry node. */
  ghost function OneByOne(p: Setup, nodes: seq<Node>, next: nat, to: nat, maxLayer: int, entry: nat): (r: Built)
    requires Building(p, nodes, next, maxLayer, entry) && next <= to <= |nodes|
    ensures |r.nodes| == |nodes| && Building(p, r.nodes, to, r.apex.layer, r.apex.entry)
  {
    hide Building, InsertAlone;
    if to == next then Built(nodes, Apex(maxLayer, entry))
    else
      var before, node := OneByOne(p, nodes, next, to - 1, maxLayer, entry), to - 1;
      AloneKeeps(p, before.nodes, node, before.apex.layer, before.apex.entry);
      Built(InsertAlone(p, before.nodes, node, before.apex.layer, before.apex.entry), ApexWith(before.nodes, node, before.apex))
  }

  ghost function ApexWith(nodes: seq<Node>, node: nat, a: Apex): Apex
    requires node < |nodes| && nodes[node].links != []
  {
    if TopLayer(nodes, node) > a.layer then Apex(TopLayer(nodes, node), node) else a
  }

  lemma {:induction false} AloneKeeps(p: Setup, nodes: seq<Node>, node: nat, maxLayer: int, entry: nat)
    requires Building(p, nodes, node, maxLayer, entry) && node < |nodes|
    ensures nodes[node].links != []
    ensures var r, a := InsertAlone(p, nodes, node, maxLayer, entry), ApexWith(nodes, node, Apex(maxLayer, entry));
      |r| == |nodes| && Building(p, r, node + 1, a.layer, a.entry)
    ensures TopAfter(nodes, node, node + 1, maxLayer, entry) == ApexWith(nodes, node, Apex(maxLayer, entry))
  {
    hide Building, InsertAlone, WaveResult;
    WaveReady(p, nodes, node, 1, maxLayer, entry);
    WaveOfOneInserts(p, nodes, node, maxLayer, entry);
    assert TopAfter(nodes, node, node, maxLayer, entry) == Apex(maxLayer, entry);
  }

  /** While fewer than thirty-two nodes are linked, the bulk build inserts nodes one at a time, each into all before it. */
  lemma {:induction false} BuildStartsOneByOne(p: Setup, nodes: seq<Node>, next: nat, to: nat, maxLayer: int, entry: nat)
    requires Building(p, nodes, next, maxLayer, entry) && next <= to <= |nodes| && to <= 32
    ensures var r := OneByOne(p, nodes, next, to, maxLayer, entry);
      BuildFrom(p, nodes, next, maxLayer, entry) == BuildFrom(p, r.nodes, to, r.apex.layer, r.apex.entry)
  {
    hide Building, InsertAlone, WaveResult, TopAfter, ApexWith;
    if next < to {
      BuildStartsOneByOne(p, nodes, next, to - 1, maxLayer, entry);
      var before, node := OneByOne(p, nodes, next, to - 1, maxLayer, entry), to - 1;
      AloneKeeps(p, before.nodes, node, before.apex.layer, before.apex.entry);
      WaveOfOneInserts(p, before.nodes, node, before.apex.layer, before.apex.entry);
      assert WaveSize(|nodes| - node, node) == 1;
    }
  }

  /** A bulk build that leaves at most thirty-two nodes inserts all of them one at a time. */
  lemma {:induction false} SmallBatchIsOneByOne(p: Setup, nodes: seq<Node>, maxLayer: int, entry: nat, kept: seq<Item>)
    requires GraphOk(nodes, p.M) && EntryOk(nodes, maxLayer, entry) && |p.store| == |nodes| + |kept| <= 32 && kept != []
    requires forall i :: 0 <= i < |kept| ==> kept[i].level <= 255
    ensures var staged := StagedBatch(nodes, kept);
      && (maxLayer < 0 ==> Building(p, staged, 1, kept[0].level, 0))
      && (maxLayer >= 0 ==> Building(p, staged, |nodes|, maxLayer, entry))
      && Batched(p, nodes, maxLayer, entry, kept) ==
           if maxLayer < 0 then OneByOne(p, staged, 1, |staged|, kept[0].level, 0)
           else OneByOne(p, staged, |nodes|, |staged|, maxLayer, entry)
  {
    hide Building, GraphOk, EntryOk, OneByOne;
    BatchReady(p, nodes, maxLayer, entry, kept);
    var staged := StagedBatch(nodes, kept);
    if maxLayer < 0 {
      BuildStartsOneByOne(p, staged, 1, |staged|, kept[0].level, 0);
    } else {
      BuildStartsOneByOne(p, staged, |nodes|, |staged|, maxLayer, entry);
    }
  }
}
