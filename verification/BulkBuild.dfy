/** Bulk construction: stage every node, then search and link them in growing waves. */
module BulkBuild {
  import opened Sets
  import opened HnswGraph
  import opened LayerSearch
  import opened HnswLinks
  import opened HnswInsert
  import opened HnswIndex
  import opened WaveSearch
  import opened WaveLinks
  import opened WaveGroups
  import opened Csr
  import opened Wrappers

  /** What the build reads but never writes. */
  datatype Setup = Setup(M: nat, ef: nat, store: seq<Vector>, walk: (Vector, Vector) -> real, dot: (Vector, Vector) -> real)

  ghost function TaskOf(p: Setup, nodes: seq<Node>, node: nat): Task
    requires node < |nodes| == |p.store| && nodes[node].links != []
  {
    Task(Query(p.M, p.ef, SimTo(p.store, p.walk, p.store[node]), NearOf(p.store, p.dot)), node, |nodes[node].links| - 1)
  }

  /** Nodes below `next` are linked and the entry node spans their layers; the rest are only staged. */
  ghost predicate Building(p: Setup, nodes: seq<Node>, next: nat, maxLayer: int, entry: nat) {
    && |p.store| == |nodes| && next <= |nodes|
    && GraphOk(nodes, p.M) && Unlinked(nodes, next)
    && entry < next && 0 <= maxLayer < LAYERS && |nodes[entry].links| == maxLayer + 1
    && (forall n :: 0 <= n < |nodes| ==> 1 <= |nodes[n].links| <= LAYERS)
    && forall n :: 0 <= n < next ==> |nodes[n].links| <= maxLayer + 1
  }

  // ----- One wave -----

  /** The tasks of a wave. */
  ghost function WaveTasks(p: Setup, nodes: seq<Node>, next: nat, wave: nat): (tasks: seq<Task>)
    requires next + wave <= |nodes| == |p.store| && forall n :: 0 <= n < |nodes| ==> nodes[n].links != []
    ensures |tasks| == wave && forall w :: 0 <= w < wave ==> tasks[w] == TaskOf(p, nodes, next + w)
  {
    seq(wave, w requires 0 <= w < wave => TaskOf(p, nodes, next + w))
  }

  ghost function AllPicks(nodes: seq<Node>, tasks: seq<Task>, entry: nat, top: nat): (picks: seq<seq<seq<nat>>>)
    requires entry < |nodes|
    ensures |picks| == |tasks| && forall w :: 0 <= w < |tasks| ==> picks[w] == Picks(nodes, tasks[w], entry, top)
  {
    seq(|tasks|, w requires 0 <= w < |tasks| => Picks(nodes, tasks[w], entry, top))
  }

  /** The lists the nodes of a wave choose, all in the graph the wave began with. */
  ghost function WavePicks(p: Setup, nodes: seq<Node>, next: nat, wave: nat, entry: nat, top: nat): (picks: seq<seq<seq<nat>>>)
    requires next + wave <= |nodes| == |p.store| && entry < |nodes|
    requires forall n :: 0 <= n < |nodes| ==> nodes[n].links != []
    ensures |picks| == wave
  {
    AllPicks(nodes, WaveTasks(p, nodes, next, wave), entry, top)
  }

  /** Each node of the wave takes the lists it chose. */
  ghost function OwnLists(nodes: seq<Node>, next: nat, picks: seq<seq<seq<nat>>>): (r: seq<Node>)
    requires next + |picks| <= |nodes|
    ensures |r| == |nodes|
    ensures forall n :: 0 <= n < |nodes| ==>
      r[n] == if next <= n < next + |picks| then nodes[n].(links := picks[n - next]) else nodes[n]
  {
    seq(|nodes|, n requires 0 <= n < |nodes| =>
      if next <= n < next + |picks| then nodes[n].(links := picks[n - next]) else nodes[n])
  }

  /** Lists that fit the nodes of a wave: within bounds, and only of nodes linked before it. */
  ghost predicate WaveListsOk(nodes: seq<Node>, M: nat, next: nat, picks: seq<seq<seq<nat>>>) {
    && next + |picks| <= |nodes|
    && forall w :: 0 <= w < |picks| ==>
         |picks[w]| == |nodes[next + w].links| <= LAYERS && PicksOk(nodes, M, next, next + w, picks[w])
  }

  lemma {:induction false} OwnListsKeep(nodes: seq<Node>, M: nat, next: nat, picks: seq<seq<seq<nat>>>)
    requires GraphOk(nodes, M) && Unlinked(nodes, next) && WaveListsOk(nodes, M, next, picks)
    ensures var own := OwnLists(nodes, next, picks);
      SameShape(nodes, own) && GraphOk(own, M) && Unlinked(own, next + |picks|)
  {
    var own := OwnLists(nodes, next, picks);
    assert SameShape(nodes, own);
    forall n, L | 0 <= n < |own| && 0 <= L < |own[n].links| ensures ListOk(own, M, n, L, own[n].links[L]) {
      hide ListOk, SameShape;
      if next <= n < next + |picks| {
        var w := n - next;
        assert PickOk(nodes, M, next, next + w, L, picks[w][L]);
      }
      ListOkAgrees(nodes, own, M, n, L, own[n].links[L]);
    }
    forall n, L | 0 <= n < |own| && 0 <= L < |own[n].links|
      ensures (n >= next + |picks| ==> own[n].links[L] == [])
      ensures forall i :: 0 <= i < |own[n].links[L]| ==> own[n].links[L][i] < next + |picks|
    {
      if next <= n < next + |picks| {
        var w := n - next;
        assert PickOk(nodes, M, next, next + w, L, picks[w][L]);
      }
    }
  }

  /** A group lands on an existing list of an older node, and its sources are nodes of the wave that have the layer. */
  ghost predicate GroupOk(nodes: seq<Node>, next: nat, count: nat, g: Group) {
    && Fits(nodes, g.key) && NeighbourOf(g.key) < next
    && forall i :: 0 <= i < |g.sources| ==>
         next <= g.sources[i] < next + count && g.sources[i] < |nodes| && LayerOf(g.key) < |nodes[g.sources[i]].links|
  }

  lemma {:induction false} WaveGroupsOk(nodes: seq<Node>, M: nat, next: nat, picks: seq<seq<seq<nat>>>)
    requires WaveListsOk(nodes, M, next, picks)
    ensures var gs := GroupsOf(next, picks);
      && (forall g :: 0 <= g < |gs| ==> GroupOk(nodes, next, |picks|, gs[g]))
      && GroupsFit(nodes, gs)
  {
    hide PicksOk, GroupsOf, NeighbourOf, LayerOf;
    var gs := GroupsOf(next, picks);
    GroupsMatchPicks(next, picks);
    forall g | 0 <= g < |gs| ensures GroupOk(nodes, next, |picks|, gs[g]) {
      assert Chosen(next, picks, Back(gs[g].key, gs[g].sources[0]));
      forall i | 0 <= i < |gs[g].sources| ensures Chosen(next, picks, Back(gs[g].key, gs[g].sources[i])) {}
      ChosenFits(nodes, M, next, picks, Back(gs[g].key, gs[g].sources[0]));
    }
  }

  lemma {:induction false} ChosenFits(nodes: seq<Node>, M: nat, next: nat, picks: seq<seq<seq<nat>>>, x: Back)
    requires WaveListsOk(nodes, M, next, picks) && Chosen(next, picks, x)
    ensures Fits(nodes, x.key) && NeighbourOf(x.key) < next
  {
    hide NeighbourOf, LayerOf;
    var w, L := x.node - next, LayerOf(x.key);
    var list := picks[w][L];
    assert PickOk(nodes, M, next, next + w, L, list);
    var i :| 0 <= i < |list| && list[i] == NeighbourOf(x.key);
  }

  lemma {:induction false} WithAllOk(list: seq<nat>, sources: seq<nat>)
    requires Distinct(list)
    ensures var r := WithAll(list, sources);
      Distinct(r) && forall x :: x in r ==> x in list || x in sources
    decreases sources
  {
    if sources != [] {
      WithBackDistinct(list, sources[0]);
      WithAllOk(WithBack(list, sources[0]), sources[1..]);
      assert sources == [sources[0]] + sources[1..];
    }
  }

  /** A merged list stays within its bound and names only linked nodes that have the layer. */
  lemma {:induction false} MergedOk(nodes: seq<Node>, M: nat, near: (nat, nat) -> real, next: nat, count: nat, g: Group)
    requires GraphOk(nodes, M) && Unlinked(nodes, next + count) && GroupOk(nodes, next, count, g)
    ensures var list := Merged(ListAt(nodes, g.key), g, M, near);
      && ListOk(nodes, M, NeighbourOf(g.key), LayerOf(g.key), list)
      && forall i :: 0 <= i < |list| ==> list[i] < next + count
  {
    hide NeighbourOf, LayerOf, Pruned, WithAll;
    var nb, L, held := NeighbourOf(g.key), LayerOf(g.key), ListAt(nodes, g.key);
    assert ListOk(nodes, M, nb, L, held);
    WithAllOk(held, g.sources);
    PrunedOk(WithAll(held, g.sources), nb, MaxLinks(M, L), near);
    var list := Merged(held, g, M, near);
    forall i | 0 <= i < |list|
      ensures list[i] != nb && list[i] < next + count && list[i] < |nodes| && L < |nodes[list[i]].links|
    {
      assert list[i] in list;
      if list[i] in held {
        var j :| 0 <= j < |held| && held[j] == list[i];
      } else {
        var j :| 0 <= j < |g.sources| && g.sources[j] == list[i];
      }
    }
  }

  /** Merging the groups keeps the bounds, and links nobody beyond the wave. */
  lemma {:induction false} AppliedKeeps(nodes: seq<Node>, groups: seq<Group>, M: nat, near: (nat, nat) -> real, next: nat, count: nat,
                                        r: seq<Node>)
    requires GraphOk(nodes, M) && Unlinked(nodes, next + count) && Applied(nodes, groups, M, near, r)
    requires forall g :: 0 <= g < |groups| ==> GroupOk(nodes, next, count, groups[g])
    ensures GraphOk(r, M) && Unlinked(r, next + count)
  {
    forall n, L | 0 <= n < |r| && 0 <= L < |r[n].links|
      ensures ListOk(r, M, n, L, r[n].links[L])
      ensures (n >= next + count ==> r[n].links[L] == [])
      ensures forall i :: 0 <= i < |r[n].links[L]| ==> r[n].links[L][i] < next + count
    {
      hide ListOk, Merged, NeighbourOf, LayerOf, KeyOf;
      if L < LAYERS && HasGroup(groups, KeyOf(n, L)) {
        var g :| 0 <= g < |groups| && groups[g].key == KeyOf(n, L);
        KeyUnpacks(n, L);
        MergedOk(nodes, M, near, next, count, groups[g]);
      }
      ListOkAgrees(nodes, r, M, n, L, r[n].links[L]);
    }
  }

  /** The graph after a wave. */
  ghost function WaveResult(p: Setup, nodes: seq<Node>, next: nat, wave: nat, entry: nat, top: nat): seq<Node>
    requires next + wave <= |nodes| == |p.store| && entry < |nodes|
    requires forall n :: 0 <= n < |nodes| ==> nodes[n].links != []
  {
    var picks := WavePicks(p, nodes, next, wave, entry, top);
    ApplyAll(OwnLists(nodes, next, picks), GroupsOf(next, picks), p.M, NearOf(p.store, p.dot))
  }

  datatype Apex = Apex(layer: int, entry: nat)

  /** Highest layer and entry node after the nodes lo..hi joined, a taller node taking over as it comes. */
  ghost function TopAfter(nodes: seq<Node>, lo: nat, hi: nat, maxLayer: int, entry: nat): Apex
    requires hi <= |nodes|
  {
    if hi <= lo then Apex(maxLayer, entry)
    else
      var a := TopAfter(nodes, lo, hi - 1, maxLayer, entry);
      if |nodes[hi - 1].links| - 1 > a.layer then Apex(|nodes[hi - 1].links| - 1, hi - 1) else a
  }

  lemma {:induction false} TopAfterSpans(p: Setup, nodes: seq<Node>, next: nat, hi: nat, maxLayer: int, entry: nat)
    requires Building(p, nodes, next, maxLayer, entry) && next <= hi <= |nodes|
    ensures var a := TopAfter(nodes, next, hi, maxLayer, entry);
      && a.entry < hi && 0 <= a.layer < LAYERS && |nodes[a.entry].links| == a.layer + 1
      && forall n :: 0 <= n < hi ==> |nodes[n].links| <= a.layer + 1
  {
    hide GraphOk, Unlinked;
    if hi > next {
      TopAfterSpans(p, nodes, next, hi - 1, maxLayer, entry);
    }
  }

  lemma {:induction false} WaveListsAreOk(p: Setup, nodes: seq<Node>, next: nat, wave: nat, maxLayer: int, entry: nat)
    requires Building(p, nodes, next, maxLayer, entry) && next + wave <= |nodes|
    ensures WaveListsOk(nodes, p.M, next, WavePicks(p, nodes, next, wave, entry, maxLayer))
  {
    hide GraphOk, Unlinked, Picks, PicksOk;
    var picks := WavePicks(p, nodes, next, wave, entry, maxLayer);
    forall w | 0 <= w < wave
      ensures |picks[w]| == |nodes[next + w].links| <= LAYERS && PicksOk(nodes, p.M, next, next + w, picks[w])
    {
      PicksAreOk(nodes, TaskOf(p, nodes, next + w), next, entry, maxLayer);
    }
  }

  /** After every wave the degree bounds and layer membership hold, and exactly the nodes of the wave became linked. */
  lemma {:induction false} WaveKeeps(p: Setup, nodes: seq<Node>, next: nat, wave: nat, maxLayer: int, entry: nat)
    requires Building(p, nodes, next, maxLayer, entry) && next + wave <= |nodes|
    ensures var r, a := WaveResult(p, nodes, next, wave, entry, maxLayer), TopAfter(nodes, next, next + wave, maxLayer, entry);
      SameShape(nodes, r) && Building(p, r, next + wave, a.layer, a.entry)
    ensures var picks := WavePicks(p, nodes, next, wave, entry, maxLayer);
      GroupsFit(OwnLists(nodes, next, picks), GroupsOf(next, picks))
  {
    hide GraphOk, Unlinked, GroupOk, WaveListsOk, GroupsFit, Applied, OwnLists, GroupsOf, ApplyAll, SameShape, TopAfter, Picks;
    var picks := WavePicks(p, nodes, next, wave, entry, maxLayer);
    WaveListsAreOk(p, nodes, next, wave, maxLayer, entry);
    OwnListsKeep(nodes, p.M, next, picks);
    WaveGroupsOk(nodes, p.M, next, picks);
    var own, groups, near := OwnLists(nodes, next, picks), GroupsOf(next, picks), NearOf(p.store, p.dot);
    SameShapeFits(nodes, own, next, wave, groups);
    AllApplied(own, groups, p.M, near);
    var r := ApplyAll(own, groups, p.M, near);
    AppliedKeeps(own, groups, p.M, near, next, wave, r);
    AppliedShape(own, groups, p.M, near, r);
    ShapeTransitive(nodes, own, r);
    BuildingAfter(p, nodes, next, wave, maxLayer, entry, r);
  }

  lemma {:induction false} BuildingAfter(p: Setup, nodes: seq<Node>, next: nat, wave: nat, maxLayer: int, entry: nat, r: seq<Node>)
    requires Building(p, nodes, next, maxLayer, entry) && next + wave <= |nodes|
    requires SameShape(nodes, r) && GraphOk(r, p.M) && Unlinked(r, next + wave)
    ensures var a := TopAfter(nodes, next, next + wave, maxLayer, entry); Building(p, r, next + wave, a.layer, a.entry)
  {
    hide GraphOk, Unlinked;
    TopAfterSpans(p, nodes, next, next + wave, maxLayer, entry);
  }

  lemma {:induction false} AppliedShape(nodes: seq<Node>, groups: seq<Group>, M: nat, near: (nat, nat) -> real, r: seq<Node>)
    requires Applied(nodes, groups, M, near, r)
    ensures SameShape(nodes, r)
  {}

  lemma {:induction false} SameShapeFits(a: seq<Node>, b: seq<Node>, next: nat, count: nat, groups: seq<Group>)
    requires SameShape(a, b) && GroupsFit(a, groups) && forall g :: 0 <= g < |groups| ==> GroupOk(a, next, count, groups[g])
    ensures GroupsFit(b, groups) && forall g :: 0 <= g < |groups| ==> GroupOk(b, next, count, groups[g])
  {
    hide NeighbourOf, LayerOf;
  }

  /**
   * A wave comes out the same however it is scheduled: for any interleaving of its walks over the graph it began with, and
   * any interleaving of its groups' updates of the shared graph.
   */
  lemma {:induction false} WaveIsScheduleIndependent(p: Setup, nodes: seq<Node>, next: nat, wave: nat, maxLayer: int, entry: nat,
                                                     walks: seq<nat>, merges: seq<nat>)
    requires Building(p, nodes, next, maxLayer, entry) && next + wave <= |nodes|
    requires var tasks := WaveTasks(p, nodes, next, wave);
      && CanRun(nodes, tasks, FirstSteps(tasks, entry, maxLayer), walks)
      && AllDone(RunWalks(nodes, tasks, FirstSteps(tasks, entry, maxLayer), walks))
    requires var tasks := WaveTasks(p, nodes, next, wave);
      var picks := ListsOf(RunWalks(nodes, tasks, FirstSteps(tasks, entry, maxLayer), walks));
      next + |picks| <= |nodes| &&
      var own, groups, near := OwnLists(nodes, next, picks), GroupsOf(next, picks), NearOf(p.store, p.dot);
      && CanRunGroups(groups, p.M, near, NotStarted(own, groups), merges)
      && AllFinished(groups, RunGroups(groups, p.M, near, NotStarted(own, groups), merges))
    ensures var tasks := WaveTasks(p, nodes, next, wave);
      var picks := ListsOf(RunWalks(nodes, tasks, FirstSteps(tasks, entry, maxLayer), walks));
      var own, groups, near := OwnLists(nodes, next, picks), GroupsOf(next, picks), NearOf(p.store, p.dot);
      RunGroups(groups, p.M, near, NotStarted(own, groups), merges).nodes
        == WaveResult(p, nodes, next, wave, entry, maxLayer)
  {
    hide CanRun, RunWalks, CanRunGroups, RunGroups, OwnLists, GroupsOf, ApplyAll, GroupsFit, AllFinished, NotStarted;
    var tasks := WaveTasks(p, nodes, next, wave);
    var picks := ListsOf(RunWalks(nodes, tasks, FirstSteps(tasks, entry, maxLayer), walks));
    WalksAreScheduleIndependent(nodes, tasks, entry, maxLayer, walks);
    assert picks == WavePicks(p, nodes, next, wave, entry, maxLayer);
    WaveKeeps(p, nodes, next, wave, maxLayer, entry);
    var own, groups, near := OwnLists(nodes, next, picks), GroupsOf(next, picks), NearOf(p.store, p.dot);
    GroupsAreScheduleIndependent(own, groups, p.M, near, merges);
  }

  /** There are complete schedules: the walks of a wave and its groups' updates can always be run to their end. */
  lemma {:induction false} WaveHasSchedule(p: Setup, nodes: seq<Node>, next: nat, wave: nat, maxLayer: int, entry: nat)
    returns (walks: seq<nat>, merges: seq<nat>)
    requires Building(p, nodes, next, maxLayer, entry) && next + wave <= |nodes|
    ensures var tasks := WaveTasks(p, nodes, next, wave);
      && CanRun(nodes, tasks, FirstSteps(tasks, entry, maxLayer), walks)
      && AllDone(RunWalks(nodes, tasks, FirstSteps(tasks, entry, maxLayer), walks))
    ensures var tasks := WaveTasks(p, nodes, next, wave);
      var picks := ListsOf(RunWalks(nodes, tasks, FirstSteps(tasks, entry, maxLayer), walks));
      next + |picks| <= |nodes| &&
      var own, groups, near := OwnLists(nodes, next, picks), GroupsOf(next, picks), NearOf(p.store, p.dot);
      && CanRunGroups(groups, p.M, near, NotStarted(own, groups), merges)
      && AllFinished(groups, RunGroups(groups, p.M, near, NotStarted(own, groups), merges))
  {
    hide CanRun, RunWalks, CanRunGroups, RunGroups, OwnLists, GroupsOf, ApplyAll, AllFinished, FirstStep, WalkerOk, Fits;
    var tasks := WaveTasks(p, nodes, next, wave);
    var ws := FirstSteps(tasks, entry, maxLayer);
    forall j | 0 <= j < |ws| ensures WalkerOk(nodes, ws[j]) { FirstStepOk(nodes, tasks[j], entry, maxLayer); }
    walks := WalksCanFinish(nodes, tasks, ws, 0);
    var picks := ListsOf(RunWalks(nodes, tasks, ws, walks));
    WalksAreScheduleIndependent(nodes, tasks, entry, maxLayer, walks);
    assert picks == WavePicks(p, nodes, next, wave, entry, maxLayer);
    WaveKeeps(p, nodes, next, wave, maxLayer, entry);
    var own, groups := OwnLists(nodes, next, picks), GroupsOf(next, picks);
    merges := GroupsCanFinish(groups, p.M, NearOf(p.store, p.dot), NotStarted(own, groups), 0);
  }

  /** The lists of finished walks. */
  ghost function ListsOf(ws: seq<Walker>): (picks: seq<seq<seq<nat>>>)
    ensures |picks| == |ws| && forall i :: 0 <= i < |ws| ==> picks[i] == ws[i].out
  {
    seq(|ws|, i requires 0 <= i < |ws| => ws[i].out)
  }

  // ----- All waves -----

  /** A sixteenth of what is linked, between 1 and 4096 nodes, and no more than are left. */
  function WaveSize(left: nat, linked: nat): (wave: nat)
    requires left > 0
    ensures 1 <= wave <= left && wave <= 4096 && (wave == 1 || 16 * wave <= linked)
    ensures wave < left && wave < 4096 ==> linked < 16 * (wave + 1)
  {
    var share := if linked / 16 < 1 then 1 else if linked / 16 > 4096 then 4096 else linked / 16;
    if left < share then left else share
  }

  datatype Built = Built(nodes: seq<Node>, apex: Apex)

  /** The finished graph with its highest layer and entry node. */
  ghost function BuildFrom(p: Setup, nodes: seq<Node>, next: nat, maxLayer: int, entry: nat): Built
    requires Building(p, nodes, next, maxLayer, entry)
    decreases |nodes| - next
  {
    hide WaveResult, Building, TopAfter, SameShape;
    BuildingBounds(p, nodes, next, maxLayer, entry);
    if next == |nodes| then Built(nodes, Apex(maxLayer, entry))
    else
      var wave := WaveSize(|nodes| - next, next);
      WaveReady(p, nodes, next, wave, maxLayer, entry);
      var a := TopAfter(nodes, next, next + wave, maxLayer, entry);
      BuildFrom(p, WaveResult(p, nodes, next, wave, entry, maxLayer), next + wave, a.layer, a.entry)
  }

  lemma {:induction false} WaveReady(p: Setup, nodes: seq<Node>, next: nat, wave: nat, maxLayer: int, entry: nat)
    requires Building(p, nodes, next, maxLayer, entry) && next + wave <= |nodes|
    ensures next + wave <= |nodes| == |p.store| && entry < |nodes| && forall n :: 0 <= n < |nodes| ==> nodes[n].links != []
    ensures var r, a := WaveResult(p, nodes, next, wave, entry, maxLayer), TopAfter(nodes, next, next + wave, maxLayer, entry);
      |r| == |nodes| && SameShape(nodes, r) && Building(p, r, next + wave, a.layer, a.entry)
  {
    hide WaveResult, GraphOk, Unlinked;
    WaveKeeps(p, nodes, next, wave, maxLayer, entry);
  }

  /** The finished graph is within its bounds in every layer, and its entry node spans all layers. */
  lemma {:induction false} BuildKeeps(p: Setup, nodes: seq<Node>, next: nat, maxLayer: int, entry: nat)
    requires Building(p, nodes, next, maxLayer, entry)
    ensures var r := BuildFrom(p, nodes, next, maxLayer, entry);
      SameShape(nodes, r.nodes) && GraphOk(r.nodes, p.M) && EntryOk(r.nodes, r.apex.layer, r.apex.entry)
    decreases |nodes| - next
  {
    hide Building, WaveResult, GraphOk, EntryOk, SameShape, TopAfter;
    BuildingBounds(p, nodes, next, maxLayer, entry);
    if next == |nodes| {
      BuildIsOver(p, nodes, maxLayer, entry);
    } else {
      var wave := WaveSize(|nodes| - next, next);
      WaveReady(p, nodes, next, wave, maxLayer, entry);
      var a := TopAfter(nodes, next, next + wave, maxLayer, entry);
      var r := WaveResult(p, nodes, next, wave, entry, maxLayer);
      BuildKeeps(p, r, next + wave, a.layer, a.entry);
      ShapeTransitive(nodes, r, BuildFrom(p, r, next + wave, a.layer, a.entry).nodes);
    }
  }

  lemma {:induction false} BuildIsOver(p: Setup, nodes: seq<Node>, maxLayer: int, entry: nat)
    requires Building(p, nodes, |nodes|, maxLayer, entry)
    ensures SameShape(nodes, nodes) && GraphOk(nodes, p.M) && EntryOk(nodes, maxLayer, entry)
  {
    hide GraphOk, Unlinked;
  }

  lemma {:induction false} BuildingBounds(p: Setup, nodes: seq<Node>, next: nat, maxLayer: int, entry: nat)
    requires Building(p, nodes, next, maxLayer, entry)
    ensures next <= |nodes| == |p.store| && 0 <= maxLayer
  {}

  // ----- Staging -----

  datatype Item = Item(id: nat, vec: Vector, level: nat)

  /** Vectors of another dimension are skipped. */
  ghost function Kept(items: seq<Item>, dim: nat): (r: seq<Item>)
    ensures forall i :: 0 <= i < |r| ==> |r[i].vec| == dim && r[i] in items
  {
    if items == [] then []
    else
      var rest, x := Kept(items[..|items| - 1], dim), items[|items| - 1];
      assert items == items[..|items| - 1] + [x];
      if |x.vec| == dim then rest + [x] else rest
  }

  /** Nothing of the right dimension is skipped, and nothing at all when all have it. */
  lemma {:induction false} KeptIsAll(items: seq<Item>, dim: nat)
    ensures forall x :: x in items && |x.vec| == dim ==> x in Kept(items, dim)
    ensures (forall x :: x in items ==> |x.vec| == dim) ==> Kept(items, dim) == items
  {
    if items != [] {
      var less, last := items[..|items| - 1], items[|items| - 1];
      assert items == less + [last];
      KeptIsAll(less, dim);
    }
  }

  ghost function StagedBatch(nodes: seq<Node>, kept: seq<Item>): (r: seq<Node>)
    ensures |r| == |nodes| + |kept|
    ensures forall n :: 0 <= n < |r| ==> r[n] == if n < |nodes| then nodes[n] else FreshNode(kept[n - |nodes|].id, kept[n - |nodes|].level)
  {
    nodes + seq(|kept|, i requires 0 <= i < |kept| => FreshNode(kept[i].id, kept[i].level))
  }

  ghost function StagedVectors(store: seq<Vector>, kept: seq<Item>, normalise: Vector -> Vector): (r: seq<Vector>)
    ensures |r| == |store| + |kept|
    ensures forall n :: 0 <= n < |r| ==> r[n] == if n < |store| then store[n] else normalise(kept[n - |store|].vec)
  {
    store + seq(|kept|, i requires 0 <= i < |kept| => normalise(kept[i].vec))
  }

  ghost predicate NewIds(nodes: seq<Node>, kept: seq<Item>) {
    && (forall i :: 0 <= i < |kept| ==> !Used(nodes, kept[i].id))
    && forall i, j :: 0 <= i < j < |kept| ==> kept[i].id != kept[j].id
  }

  /** Bulk staging marks nobody stale, so it keeps one live node per id exactly when every staged id is new. */
  lemma {:induction false} BatchKeepsOneLive(nodes: seq<Node>, kept: seq<Item>)
    requires StaleOk(nodes)
    ensures StaleOk(StagedBatch(nodes, kept)) <==> NewIds(nodes, kept)
  {
    var r, base := StagedBatch(nodes, kept), |nodes|;
    if StaleOk(r) {
      forall i | 0 <= i < |kept| ensures !Used(nodes, kept[i].id) {
        assert r[base + i].id == kept[i].id;
        forall n | 0 <= n < base ensures nodes[n].id != kept[i].id {
          NotLaterInBatch(nodes, kept, n, i);
        }
      }
      forall i, j | 0 <= i < j < |kept| ensures kept[i].id != kept[j].id {
        assert !UsedLater(r, base + i);
        assert r[base + j].id == kept[j].id && r[base + i].id == kept[i].id;
      }
    }
    if NewIds(nodes, kept) {
      forall n | 0 <= n < |r| ensures r[n].superseded <==> UsedLater(r, n) {
        if n < base {
          if UsedLater(nodes, n) {
            var m :| n < m < base && nodes[m].id == nodes[n].id;
            assert r[m].id == r[n].id;
          }
          forall m | n < m < |r| && r[m].id == r[n].id ensures m < base {
            assert Used(nodes, nodes[n].id);
          }
        }
      }
    }
  }

  /** Two live nodes share an id after staging exactly when some staged id is not new. */
  lemma {:induction false} BatchSharesIds(nodes: seq<Node>, kept: seq<Item>)
    requires StaleOk(nodes)
    ensures OneLiveEach(StagedBatch(nodes, kept)) <==> NewIds(nodes, kept)
  {
    var r, base := StagedBatch(nodes, kept), |nodes|;
    BatchKeepsOneLive(nodes, kept);
    if NewIds(nodes, kept) {
      StaleMeansOneLive(r);
    } else {
      hide StaleOk;
      if i :| 0 <= i < |kept| && Used(nodes, kept[i].id) {
        var n := OneLiveNode(nodes, kept[i].id);
        assert r[n] == nodes[n] && r[base + i] == FreshNode(kept[i].id, kept[i].level);
      } else {
        var i, j :| 0 <= i < j < |kept| && kept[i].id == kept[j].id;
        assert r[base + i] == FreshNode(kept[i].id, kept[i].level) && r[base + j] == FreshNode(kept[j].id, kept[j].level);
      }
    }
  }

  lemma {:induction false} ShapeKeepsOneLive(a: seq<Node>, b: seq<Node>)
    requires SameShape(a, b)
    ensures OneLiveEach(a) <==> OneLiveEach(b)
  {
    forall n | 0 <= n < |a| ensures b[n].id == a[n].id && b[n].superseded == a[n].superseded {}
  }

  /** An old node whose id is staged again would have had to go stale. */
  lemma {:induction false} NotLaterInBatch(nodes: seq<Node>, kept: seq<Item>, n: nat, i: nat)
    requires StaleOk(nodes) && StaleOk(StagedBatch(nodes, kept)) && n < |nodes| && i < |kept|
    ensures nodes[n].id != kept[i].id
    decreases |nodes| - n
  {
    var r := StagedBatch(nodes, kept);
    if UsedLater(nodes, n) {
      var m :| n < m < |nodes| && nodes[m].id == nodes[n].id;
      NotLaterInBatch(nodes, kept, m, i);
    } else {
      assert !r[n].superseded;
      assert !UsedLater(r, n);
      assert r[|nodes| + i].id == kept[i].id;
    }
  }

  // ----- The loops -----

  /** Search for every node of the wave, then apply what they chose. */
  method RunWave(p: Setup, nodes: seq<Node>, next: nat, wave: nat, ghost maxLayer: int, entry: nat, top: nat) returns (r: seq<Node>)
    requires Building(p, nodes, next, maxLayer, entry) && next + wave <= |nodes| && top == maxLayer
    ensures r == WaveResult(p, nodes, next, wave, entry, top)
  {
    hide Building, Picks, OwnLists, ApplyAll, GroupsFit, SameShape, WavePicks;
    WaveReady(p, nodes, next, wave, maxLayer, entry);
    WaveKeeps(p, nodes, next, wave, maxLayer, entry);
    var picks := PickAll(p, nodes, next, wave, entry, top);
    var own := TakeLists(nodes, next, picks);
    var back := CollectBacks(next, picks);
    var sorted := Sort(back);
    var groups := SplitByKey(sorted);
    r := ApplyGroups(own, groups, p.M, NearOf(p.store, p.dot));
  }

  /** The search phase: every node of the wave walks the graph the wave began with. */
  method PickAll(p: Setup, nodes: seq<Node>, next: nat, wave: nat, entry: nat, top: nat)
    returns (picks: seq<seq<seq<nat>>>)
    requires next + wave <= |nodes| == |p.store| && entry < |nodes|
    requires forall n :: 0 <= n < |nodes| ==> nodes[n].links != []
    ensures picks == WavePicks(p, nodes, next, wave, entry, top)
  {
    hide Picks;
    ghost var tasks := WaveTasks(p, nodes, next, wave);
    var near := NearOf(p.store, p.dot);
    picks := [];
    for w := 0 to wave
      invariant |picks| == w && forall v :: 0 <= v < w ==> picks[v] == Picks(nodes, tasks[v], entry, top)
    {
      var node := next + w;
      var q := Query(p.M, p.ef, SimTo(p.store, p.walk, p.store[node]), near);
      var lists := PickLists(nodes, tasks[w], q, node, |nodes[node].links| - 1, entry, top);
      picks := picks + [lists];
    }
  }

  method TakeLists(nodes: seq<Node>, next: nat, picks: seq<seq<seq<nat>>>) returns (r: seq<Node>)
    requires next + |picks| <= |nodes|
    ensures r == OwnLists(nodes, next, picks)
  {
    r := nodes;
    for w := 0 to |picks|
      invariant |r| == |nodes|
      invariant forall n :: 0 <= n < |nodes| ==>
        r[n] == if next <= n < next + w then nodes[n].(links := picks[n - next]) else nodes[n]
    {
      r := r[next + w := r[next + w].(links := picks[w])];
    }
  }

  /** The highest layer and its node, after the wave's nodes joined in order. */
  method Retop(nodes: seq<Node>, lo: nat, hi: nat, maxLayer: int, entry: nat) returns (a: Apex)
    requires lo <= hi <= |nodes|
    ensures a == TopAfter(nodes, lo, hi, maxLayer, entry)
  {
    a := Apex(maxLayer, entry);
    for n := lo to hi
      invariant a == TopAfter(nodes, lo, n, maxLayer, entry)
    {
      if |nodes[n].links| - 1 > a.layer { a := Apex(|nodes[n].links| - 1, n); }
    }
  }

  /** Link every staged node, wave by wave. */
  method LinkAll(p: Setup, staged: seq<Node>, start: nat, maxLayer: int, entry: nat) returns (r: Built)
    requires Building(p, staged, start, maxLayer, entry)
    ensures r == BuildFrom(p, staged, start, maxLayer, entry)
  {
    hide Building, WaveResult, SameShape, TopAfter;
    BuildingBounds(p, staged, start, maxLayer, entry);
    var nodes, apex := staged, Apex(maxLayer, entry);
    var next: nat := start;
    while next < |nodes|
      invariant next <= |nodes| && Building(p, nodes, next, apex.layer, apex.entry)
      invariant BuildFrom(p, nodes, next, apex.layer, apex.entry) == BuildFrom(p, staged, start, maxLayer, entry)
      decreases |nodes| - next
    {
      BuildingBounds(p, nodes, next, apex.layer, apex.entry);
      var wave := WaveSize(|nodes| - next, next);
      WaveReady(p, nodes, next, wave, apex.layer, apex.entry);
      var linked := RunWave(p, nodes, next, wave, apex.layer, apex.entry, apex.layer);
      apex := Retop(nodes, next, next + wave, apex.layer, apex.entry);
      nodes, next := linked, next + wave;
      BuildingBounds(p, nodes, next, apex.layer, apex.entry);
    }
    r := Built(nodes, apex);
  }

  // ----- The operation -----

  /** The graph a bulk build leaves: the staged nodes, linked from the first one not linked yet. */
  ghost function Batched(p: Setup, nodes: seq<Node>, maxLayer: int, entry: nat, kept: seq<Item>): Built
    requires GraphOk(nodes, p.M) && EntryOk(nodes, maxLayer, entry) && |p.store| == |nodes| + |kept|
    requires forall i :: 0 <= i < |kept| ==> kept[i].level <= 255
  {
    var staged := StagedBatch(nodes, kept);
    if kept == [] then Built(nodes, Apex(maxLayer, entry))
    else
      BatchReady(p, nodes, maxLayer, entry, kept);
      if maxLayer < 0 then BuildFrom(p, staged, 1, kept[0].level, 0) else BuildFrom(p, staged, |nodes|, maxLayer, entry)
  }

  lemma {:induction false} BatchReady(p: Setup, nodes: seq<Node>, maxLayer: int, entry: nat, kept: seq<Item>)
    requires GraphOk(nodes, p.M) && EntryOk(nodes, maxLayer, entry) && |p.store| == |nodes| + |kept| && kept != []
    requires forall i :: 0 <= i < |kept| ==> kept[i].level <= 255
    ensures maxLayer < 0 ==> Building(p, StagedBatch(nodes, kept), 1, kept[0].level, 0)
    ensures maxLayer >= 0 ==> Building(p, StagedBatch(nodes, kept), |nodes|, maxLayer, entry)
  {
    var r := StagedBatch(nodes, kept);
    forall n, L | 0 <= n < |r| && 0 <= L < |r[n].links|
      ensures ListOk(r, p.M, n, L, r[n].links[L])
      ensures (n >= |nodes| ==> r[n].links[L] == [])
      ensures forall i :: 0 <= i < |r[n].links[L]| ==> r[n].links[L][i] < |nodes|
    {
      if n < |nodes| {
        assert ListOk(nodes, p.M, n, L, nodes[n].links[L]);
      }
    }
  }

  lemma {:induction false} BatchedKeeps(p: Setup, nodes: seq<Node>, maxLayer: int, entry: nat, kept: seq<Item>)
    requires GraphOk(nodes, p.M) && EntryOk(nodes, maxLayer, entry) && |p.store| == |nodes| + |kept|
    requires forall i :: 0 <= i < |kept| ==> kept[i].level <= 255
    ensures var r := Batched(p, nodes, maxLayer, entry, kept);
      SameShape(StagedBatch(nodes, kept), r.nodes) && GraphOk(r.nodes, p.M) && EntryOk(r.nodes, r.apex.layer, r.apex.entry)
  {
    hide GraphOk, Building, EntryOk;
    if kept == [] {
      assert StagedBatch(nodes, kept) == nodes;
    } else {
      BatchReady(p, nodes, maxLayer, entry, kept);
      if maxLayer < 0 {
        BuildKeeps(p, StagedBatch(nodes, kept), 1, kept[0].level, 0);
      } else {
        BuildKeeps(p, StagedBatch(nodes, kept), |nodes|, maxLayer, entry);
      }
    }
  }

  ghost function IdsOf(kept: seq<Item>): set<nat> {
    if kept == [] then {} else IdsOf(kept[..|kept| - 1]) + {kept[|kept| - 1].id}
  }

  lemma {:induction false} IdsOfAll(kept: seq<Item>, id: nat)
    ensures id in IdsOf(kept) <==> exists i :: 0 <= i < |kept| && kept[i].id == id
  {
    if kept != [] {
      var less := kept[..|kept| - 1];
      IdsOfAll(less, id);
      assert forall i :: 0 <= i < |less| ==> less[i] == kept[i];
    }
  }

  lemma {:induction false} NothingStaged(nodes: seq<Node>, store: seq<Vector>, items: seq<Item>, dim: nat,
                                         normalise: Vector -> Vector)
    ensures Kept(items[..0], dim) == []
    ensures StagedBatch(nodes, []) == nodes && StagedVectors(store, [], normalise) == store && IdsOf([]) == {}
  {}

  lemma {:induction false} KeptNext(items: seq<Item>, i: nat, dim: nat)
    requires i < |items|
    ensures Kept(items[..i + 1], dim) ==
      if |items[i].vec| == dim then Kept(items[..i], dim) + [items[i]] else Kept(items[..i], dim)
  {
    assert items[..i + 1][..i] == items[..i];
  }

  lemma {:induction false} OneMoreStaged(nodes: seq<Node>, store: seq<Vector>, kept: seq<Item>, x: Item, normalise: Vector -> Vector)
    ensures StagedBatch(nodes, kept + [x]) == StagedBatch(nodes, kept) + [FreshNode(x.id, x.level)]
    ensures StagedVectors(store, kept + [x], normalise) == StagedVectors(store, kept, normalise) + [normalise(x.vec)]
    ensures IdsOf(kept + [x]) == IdsOf(kept) + {x.id}
  {
    assert (kept + [x])[..|kept|] == kept;
  }

  /** Append the nodes and vectors of the right dimension; their ids are no longer tombstoned. */
  method StageAll(index: Index, items: seq<Item>) returns (kept: seq<Item>)
    requires |index.store| == |index.nodes|
    modifies index`nodes, index`store, index`deleted
    ensures kept == Kept(items, index.dim)
    ensures index.nodes == StagedBatch(old(index.nodes), kept)
    ensures index.store == StagedVectors(old(index.store), kept, index.normalise)
    ensures index.deleted == old(index.deleted) - IdsOf(kept)
  {
    hide StagedBatch, StagedVectors, FreshNode, Kept, IdsOf;
    kept := [];
    NothingStaged(index.nodes, index.store, items, index.dim, index.normalise);
    for i := 0 to |items|
      invariant kept == Kept(items[..i], index.dim)
      invariant index.nodes == StagedBatch(old(index.nodes), kept)
      invariant index.store == StagedVectors(old(index.store), kept, index.normalise)
      invariant index.deleted == old(index.deleted) - IdsOf(kept)
    {
      var x := items[i];
      KeptNext(items, i, index.dim);
      if |x.vec| != index.dim { continue; }
      OneMoreStaged(old(index.nodes), old(index.store), kept, x, index.normalise);
      kept := kept + [x];
      index.store := index.store + [index.normalise(x.vec)];
      index.nodes := index.nodes + [FreshNode(x.id, x.level)];
      index.deleted := index.deleted - {x.id};
    }
    assert items[..|items|] == items;
  }

  lemma {:induction false} StoredFits(store: seq<Vector>, kept: seq<Item>, normalise: Vector -> Vector, dim: nat)
    requires (forall n :: 0 <= n < |store| ==> |store[n]| == dim) && forall v: Vector :: |normalise(v)| == |v|
    requires forall i :: 0 <= i < |kept| ==> |kept[i].vec| == dim
    ensures var r := StagedVectors(store, kept, normalise);
      forall n :: 0 <= n < |r| ==> |r[n]| == dim
  {}

  ghost predicate SealedAs(nodes: seq<Node>, p: Packed) {
    forall n: nat, L: nat :: n < |nodes| ==> RangeOk(p, n, L) && Lookup(p, n, L) == Neighbours(nodes, n, L)
  }

  /** Bulk construction; `level` of an item is the random level drawn for its node. */
  method BuildBatch(index: Index, items: seq<Item>) returns (sealed: Option<Packed>)
    requires index.Valid() && forall i :: 0 <= i < |items| ==> items[i].level <= 255
    modifies index
    ensures index.Valid()
    ensures index.dim == if old(index.dim) == 0 && items != [] then |items[0].vec| else old(index.dim)
    ensures items == [] || index.dim == 0 ==> index.nodes == old(index.nodes) && index.store == old(index.store)
    ensures items != [] && index.dim > 0 ==>
      var kept := Kept(items, index.dim);
      var p := Setup(index.M, index.efConstruction, index.store, index.walk, index.dot);
      && index.store == StagedVectors(old(index.store), kept, index.normalise)
      && index.deleted == old(index.deleted) - IdsOf(kept)
      && (forall i :: 0 <= i < |kept| ==> kept[i].level <= 255)
      && Built(index.nodes, Apex(index.maxLayer, index.entry))
           == Batched(p, old(index.nodes), old(index.maxLayer), old(index.entry), kept)
      && (old(StaleOk(index.nodes)) ==> (StaleOk(index.nodes) <==> NewIds(old(index.nodes), kept)))
      && (old(StaleOk(index.nodes)) ==> (OneLiveEach(index.nodes) <==> NewIds(old(index.nodes), kept)))
    ensures sealed.Some? <==> items != [] && index.dim > 0 && Kept(items, index.dim) != []
    ensures sealed.Some? ==> SealedAs(index.nodes, sealed.value)
  {
    hide SealedAs, GraphOk, EntryOk, IndexOk, StaleOk, OneLiveEach, NewIds, Batched, SameShape, StagedVectors, StagedBatch, Kept, IdsOf;
    if items == [] { return None; }
    if index.dim == 0 { index.dim := |items[0].vec|; }
    if index.dim == 0 { return None; }
    ghost var before := index.nodes;
    var base := |index.nodes|;
    var kept := StageAll(index, items);
    index.idIndexBuilt, index.idToOrd := false, map[];
    KeptLevels(items, kept);
    StoredFits(old(index.store), kept, index.normalise, index.dim);
    JoinBatch(index, base, before, kept);
    if kept == [] { return None; }
    var p := SealGraph(index.nodes);
    sealed := Some(p);
  }

  /** Freeze the finished graph: the packed form answers every neighbour query as the lists do. */
  method SealGraph(nodes: seq<Node>) returns (p: Packed)
    ensures SealedAs(nodes, p)
  {
    hide RangeOk, Lookup, Neighbours, Seals;
    p := Csr.Seal(nodes);
    forall n: nat, L: nat | n < |nodes| ensures RangeOk(p, n, L) && Lookup(p, n, L) == Neighbours(nodes, n, L) {
      LookupIsNeighbours(nodes, p, n, L);
    }
  }

  /** Link the staged nodes: the graph is the batch's, within its bounds, and one node per id is live if all ids were new. */
  method JoinBatch(index: Index, base: nat, ghost before: seq<Node>, ghost kept: seq<Item>)
    requires GraphOk(before, index.M) && EntryOk(before, index.maxLayer, index.entry)
    requires index.nodes == StagedBatch(before, kept) && |index.store| == |index.nodes| && base == |before|
    requires forall i :: 0 <= i < |kept| ==> kept[i].level <= 255
    modifies index`nodes, index`maxLayer, index`entry
    ensures Built(index.nodes, Apex(index.maxLayer, index.entry))
         == Batched(Setup(index.M, index.efConstruction, index.store, index.walk, index.dot), before,
                    old(index.maxLayer), old(index.entry), kept)
    ensures |index.nodes| == |index.store|
    ensures GraphOk(index.nodes, index.M) && EntryOk(index.nodes, index.maxLayer, index.entry)
    ensures StaleOk(before) ==> (StaleOk(index.nodes) <==> NewIds(before, kept))
    ensures StaleOk(before) ==> (OneLiveEach(index.nodes) <==> NewIds(before, kept))
  {
    hide GraphOk, EntryOk, StaleOk, OneLiveEach, NewIds, Batched, SameShape, StagedBatch;
    ghost var p := Setup(index.M, index.efConstruction, index.store, index.walk, index.dot);
    BatchStale(p, before, index.maxLayer, index.entry, kept);
    BatchedKeeps(p, before, index.maxLayer, index.entry, kept);
    LinkBatch(index, base, before, kept);
    ShapeSize(StagedBatch(before, kept), index.nodes);
  }

  /** Seed an empty graph with the first new node, then link the rest. */
  method LinkBatch(index: Index, base: nat, ghost before: seq<Node>, ghost kept: seq<Item>)
    requires GraphOk(before, index.M) && EntryOk(before, index.maxLayer, index.entry)
    requires index.nodes == StagedBatch(before, kept) && |index.store| == |index.nodes| && base == |before|
    requires forall i :: 0 <= i < |kept| ==> kept[i].level <= 255
    modifies index`nodes, index`maxLayer, index`entry
    ensures Built(index.nodes, Apex(index.maxLayer, index.entry))
         == Batched(Setup(index.M, index.efConstruction, index.store, index.walk, index.dot), before,
                    old(index.maxLayer), old(index.entry), kept)
  {
    hide GraphOk, EntryOk, Building, BuildFrom;
    var p := Setup(index.M, index.efConstruction, index.store, index.walk, index.dot);
    if |index.nodes| == base {
      assert kept == [];
      return;
    }
    BatchReady(p, before, index.maxLayer, index.entry, kept);
    var start := base;
    if index.maxLayer < 0 {
      NoNodes(before, index.maxLayer, index.entry);
      index.maxLayer, index.entry := |index.nodes[base].links| - 1, base;
      start := base + 1;
    }
    var built := LinkAll(p, index.nodes, start, index.maxLayer, index.entry);
    index.nodes, index.maxLayer, index.entry := built.nodes, built.apex.layer, built.apex.entry;
  }

  lemma {:induction false} NoNodes(nodes: seq<Node>, maxLayer: int, entry: nat)
    requires EntryOk(nodes, maxLayer, entry) && maxLayer < 0
    ensures nodes == []
  {}

  lemma {:induction false} KeptLevels(items: seq<Item>, kept: seq<Item>)
    requires forall i :: 0 <= i < |items| ==> items[i].level <= 255
    requires forall i :: 0 <= i < |kept| ==> kept[i] in items
    ensures forall i :: 0 <= i < |kept| ==> kept[i].level <= 255
  {}

  lemma {:induction false} BatchStale(p: Setup, nodes: seq<Node>, maxLayer: int, entry: nat, kept: seq<Item>)
    requires GraphOk(nodes, p.M) && EntryOk(nodes, maxLayer, entry) && |p.store| == |nodes| + |kept|
    requires forall i :: 0 <= i < |kept| ==> kept[i].level <= 255
    ensures StaleOk(nodes) ==> (StaleOk(Batched(p, nodes, maxLayer, entry, kept).nodes) <==> NewIds(nodes, kept))
    ensures StaleOk(nodes) ==> (OneLiveEach(Batched(p, nodes, maxLayer, entry, kept).nodes) <==> NewIds(nodes, kept))
  {
    hide GraphOk, EntryOk, StaleOk, OneLiveEach, NewIds, Batched;
    BatchedKeeps(p, nodes, maxLayer, entry, kept);
    if StaleOk(nodes) {
      BatchKeepsOneLive(nodes, kept);
      BatchSharesIds(nodes, kept);
    }
    var staged, r := StagedBatch(nodes, kept), Batched(p, nodes, maxLayer, entry, kept).nodes;
    ShapeKeepsStale(staged, r, map[]);
    ShapeSymmetric(staged, r);
    ShapeKeepsStale(r, staged, map[]);
    ShapeKeepsOneLive(staged, r);
  }

  lemma {:induction false} ShapeSymmetric(a: seq<Node>, b: seq<Node>)
    requires SameShape(a, b)
    ensures SameShape(b, a)
  {}
}
