/**
 * Applying one wave of the bulk build: every new node takes its own lists, and the links back are grouped by the
 * neighbour list they land on. Each group writes one list only, so the groups may run in any interleaving.
 */
module WaveLinks {
  import opened HnswGraph
  import opened Selection
  import opened HnswLinks

  /** The new nodes that link to one neighbour in one layer; the key packs the neighbour and the layer. */
  datatype Group = Group(key: nat, sources: seq<nat>)

  const LAYERS: nat := 256

  function NeighbourOf(key: nat): nat { key / LAYERS }
  function LayerOf(key: nat): nat { key % LAYERS }
  function KeyOf(nb: nat, lc: nat): nat { nb * LAYERS + lc }

  lemma {:induction false} KeyUnpacks(nb: nat, lc: nat)
    requires lc < LAYERS
    ensures NeighbourOf(KeyOf(nb, lc)) == nb && LayerOf(KeyOf(nb, lc)) == lc
  {}

  lemma {:induction false} KeyPacks(key: nat)
    ensures KeyOf(NeighbourOf(key), LayerOf(key)) == key && LayerOf(key) < LAYERS
  {}

  // ----- One group -----

  function WithAll(list: seq<nat>, sources: seq<nat>): seq<nat>
    decreases sources
  {
    if sources == [] then list else WithAll(WithBack(list, sources[0]), sources[1..])
  }

  /** A list that took all its links back and was then pruned once. */
  ghost function Merged(list: seq<nat>, g: Group, M: nat, near: (nat, nat) -> real): seq<nat> {
    Pruned(WithAll(list, g.sources), NeighbourOf(g.key), MaxLinks(M, LayerOf(g.key)), near)
  }

  ghost predicate Fits(nodes: seq<Node>, key: nat) {
    NeighbourOf(key) < |nodes| && LayerOf(key) < |nodes[NeighbourOf(key)].links|
  }

  /** Every group has a list to land on, and no two share one. */
  ghost predicate GroupsFit(nodes: seq<Node>, groups: seq<Group>) {
    && (forall g :: 0 <= g < |groups| ==> Fits(nodes, groups[g].key))
    && forall g, h :: 0 <= g < h < |groups| ==> groups[g].key != groups[h].key
  }

  function ListAt(nodes: seq<Node>, key: nat): seq<nat>
    requires NeighbourOf(key) < |nodes| && LayerOf(key) < |nodes[NeighbourOf(key)].links|
  {
    nodes[NeighbourOf(key)].links[LayerOf(key)]
  }

  ghost predicate HasGroup(groups: seq<Group>, key: nat) { exists g :: 0 <= g < |groups| && groups[g].key == key }

  /** `r` is `nodes` with every group merged into its list and nothing else changed. */
  ghost predicate Applied(nodes: seq<Node>, groups: seq<Group>, M: nat, near: (nat, nat) -> real, r: seq<Node>) {
    && SameShape(nodes, r)
    && (forall g :: 0 <= g < |groups| && Fits(nodes, groups[g].key) ==>
          ListAt(r, groups[g].key) == Merged(ListAt(nodes, groups[g].key), groups[g], M, near))
    && forall n, L :: 0 <= n < |nodes| && 0 <= L < |nodes[n].links| && (L >= LAYERS || !HasGroup(groups, KeyOf(n, L))) ==>
         r[n].links[L] == nodes[n].links[L]
  }

  /** The groups determine the resulting graph. */
  lemma {:induction false} AppliedUnique(nodes: seq<Node>, groups: seq<Group>, M: nat, near: (nat, nat) -> real, a: seq<Node>, b: seq<Node>)
    requires Applied(nodes, groups, M, near, a) && Applied(nodes, groups, M, near, b)
    ensures a == b
  {
    hide Merged;
    forall n | 0 <= n < |nodes| ensures a[n] == b[n] {
      forall L | 0 <= L < |nodes[n].links| ensures a[n].links[L] == b[n].links[L] {
        if L < LAYERS && HasGroup(groups, KeyOf(n, L)) {
          var g :| 0 <= g < |groups| && groups[g].key == KeyOf(n, L);
          KeyUnpacks(n, L);
          assert Fits(nodes, groups[g].key);
        }
      }
      assert a[n].links == b[n].links;
    }
  }

  // ----- Any interleaving of the groups -----

  /** The shared graph, and how far each group has come: its next source, then pruning, then done. */
  datatype Progress = Progress(nodes: seq<Node>, pc: seq<nat>)

  ghost predicate Finished(groups: seq<Group>, s: Progress, g: nat)
    requires g < |groups| == |s.pc|
  {
    s.pc[g] > |groups[g].sources|
  }

  /** One step of a group: push one link back, or prune. */
  ghost function GroupStep(groups: seq<Group>, M: nat, near: (nat, nat) -> real, s: Progress, g: nat): (r: Progress)
    requires g < |groups| == |s.pc| && !Finished(groups, s, g) && Fits(s.nodes, groups[g].key)
    ensures |r.pc| == |s.pc| && SameShape(s.nodes, r.nodes)
  {
    var key, list := groups[g].key, ListAt(s.nodes, groups[g].key);
    var next := if s.pc[g] < |groups[g].sources| then WithBack(list, groups[g].sources[s.pc[g]])
                else Pruned(list, NeighbourOf(key), MaxLinks(M, LayerOf(key)), near);
    Progress(SetList(s.nodes, NeighbourOf(key), LayerOf(key), next), s.pc[g := s.pc[g] + 1])
  }

  /** What is left to do to a group's list. */
  ghost function Remaining(list: seq<nat>, g: Group, pc: nat, M: nat, near: (nat, nat) -> real): seq<nat> {
    if pc <= |g.sources| then Pruned(WithAll(list, g.sources[pc..]), NeighbourOf(g.key), MaxLinks(M, LayerOf(g.key)), near)
    else list
  }

  /** Every list will end up merged, and lists without a group are untouched. */
  ghost predicate OnTrack(nodes: seq<Node>, groups: seq<Group>, M: nat, near: (nat, nat) -> real, s: Progress) {
    && |s.pc| == |groups| && SameShape(nodes, s.nodes)
    && (forall g :: 0 <= g < |groups| && Fits(nodes, groups[g].key) ==>
          Remaining(ListAt(s.nodes, groups[g].key), groups[g], s.pc[g], M, near)
            == Merged(ListAt(nodes, groups[g].key), groups[g], M, near))
    && forall n, L :: 0 <= n < |nodes| && 0 <= L < |nodes[n].links| && (L >= LAYERS || !HasGroup(groups, KeyOf(n, L))) ==>
         s.nodes[n].links[L] == nodes[n].links[L]
  }

  lemma {:induction false} StepKeepsRemaining(list: seq<nat>, g: Group, pc: nat, M: nat, near: (nat, nat) -> real)
    requires pc <= |g.sources|
    ensures Remaining(list, g, pc, M, near) ==
      Remaining(if pc < |g.sources| then WithBack(list, g.sources[pc])
                else Pruned(list, NeighbourOf(g.key), MaxLinks(M, LayerOf(g.key)), near), g, pc + 1, M, near)
  {
    hide Pruned;
    if pc < |g.sources| {
      assert g.sources[pc..][0] == g.sources[pc] && g.sources[pc..][1..] == g.sources[pc + 1..];
    }
  }

  lemma {:induction false} StepKeepsTrack(nodes: seq<Node>, groups: seq<Group>, M: nat, near: (nat, nat) -> real, s: Progress, g: nat)
    requires OnTrack(nodes, groups, M, near, s) && GroupsFit(nodes, groups) && g < |groups| && !Finished(groups, s, g)
    ensures Fits(s.nodes, groups[g].key) && OnTrack(nodes, groups, M, near, GroupStep(groups, M, near, s, g))
  {
    hide Remaining, Merged, Pruned;
    var key := groups[g].key;
    assert Fits(nodes, key);
    StepKeepsRemaining(ListAt(s.nodes, key), groups[g], s.pc[g], M, near);
    var r := GroupStep(groups, M, near, s, g);
    KeyPacks(key);
    forall h | 0 <= h < |groups| && Fits(nodes, groups[h].key)
      ensures Remaining(ListAt(r.nodes, groups[h].key), groups[h], r.pc[h], M, near)
           == Merged(ListAt(nodes, groups[h].key), groups[h], M, near)
    {
      KeyPacks(groups[h].key);
      assert h != g ==> groups[h].key != key;
    }
    forall n, L | 0 <= n < |nodes| && 0 <= L < |nodes[n].links| && (L >= LAYERS || !HasGroup(groups, KeyOf(n, L)))
      ensures r.nodes[n].links[L] == nodes[n].links[L]
    {
      assert HasGroup(groups, KeyOf(NeighbourOf(key), LayerOf(key)));
    }
  }

  ghost predicate CanRunGroups(groups: seq<Group>, M: nat, near: (nat, nat) -> real, s: Progress, schedule: seq<nat>)
    decreases schedule
  {
    schedule != [] ==>
      && schedule[0] < |groups| == |s.pc| && !Finished(groups, s, schedule[0]) && Fits(s.nodes, groups[schedule[0]].key)
      && CanRunGroups(groups, M, near, GroupStep(groups, M, near, s, schedule[0]), schedule[1..])
  }

  ghost function RunGroups(groups: seq<Group>, M: nat, near: (nat, nat) -> real, s: Progress, schedule: seq<nat>): Progress
    requires CanRunGroups(groups, M, near, s, schedule)
    decreases schedule
  {
    if schedule == [] then s
    else RunGroups(groups, M, near, GroupStep(groups, M, near, s, schedule[0]), schedule[1..])
  }

  lemma {:induction false} RunKeepsTrack(nodes: seq<Node>, groups: seq<Group>, M: nat, near: (nat, nat) -> real, s: Progress, schedule: seq<nat>)
    requires OnTrack(nodes, groups, M, near, s) && GroupsFit(nodes, groups) && CanRunGroups(groups, M, near, s, schedule)
    ensures OnTrack(nodes, groups, M, near, RunGroups(groups, M, near, s, schedule))
    decreases schedule
  {
    hide OnTrack, GroupStep, GroupsFit;
    if schedule != [] {
      StepKeepsTrack(nodes, groups, M, near, s, schedule[0]);
      RunKeepsTrack(nodes, groups, M, near, GroupStep(groups, M, near, s, schedule[0]), schedule[1..]);
    }
  }

  ghost predicate AllFinished(groups: seq<Group>, s: Progress) {
    |s.pc| == |groups| && forall g :: 0 <= g < |groups| ==> Finished(groups, s, g)
  }

  ghost function NotStarted(nodes: seq<Node>, groups: seq<Group>): Progress { Progress(nodes, seq(|groups|, g => 0)) }

  lemma {:induction false} ShapeFits(a: seq<Node>, b: seq<Node>, key: nat)
    requires SameShape(a, b) && Fits(a, key)
    ensures Fits(b, key)
  {
    hide NeighbourOf, LayerOf;
  }

  /** From every state, however it was reached, the groups can be run to their end; a step brings its group closer to it. */
  lemma {:induction false} GroupsCanFinish(groups: seq<Group>, M: nat, near: (nat, nat) -> real, s: Progress, g: nat)
    returns (schedule: seq<nat>)
    requires |s.pc| == |groups| && g <= |groups| && forall h :: 0 <= h < |groups| ==> Fits(s.nodes, groups[h].key)
    requires forall h :: 0 <= h < g ==> Finished(groups, s, h)
    ensures CanRunGroups(groups, M, near, s, schedule) && AllFinished(groups, RunGroups(groups, M, near, s, schedule))
    decreases |groups| - g, if g < |groups| then |groups[g].sources| + 1 - s.pc[g] else 0
  {
    if g == |groups| {
      schedule := [];
    } else if Finished(groups, s, g) {
      schedule := GroupsCanFinish(groups, M, near, s, g + 1);
    } else {
      var next := GroupStep(groups, M, near, s, g);
      assert next.pc == s.pc[g := s.pc[g] + 1];
      forall h | 0 <= h < |groups| ensures Fits(next.nodes, groups[h].key) { ShapeFits(s.nodes, next.nodes, groups[h].key); }
      forall h | 0 <= h < g ensures Finished(groups, next, h) { assert Finished(groups, s, h); }
      hide GroupStep;
      var rest := GroupsCanFinish(groups, M, near, next, g);
      schedule := [g] + rest;
      assert schedule[0] == g && schedule[1..] == rest;
    }
  }

  /** However the groups' steps are interleaved on the shared graph, it ends up as if they ran one after the other. */
  lemma {:induction false} GroupsAreScheduleIndependent(nodes: seq<Node>, groups: seq<Group>, M: nat, near: (nat, nat) -> real,
                                                        schedule: seq<nat>)
    requires GroupsFit(nodes, groups) && CanRunGroups(groups, M, near, NotStarted(nodes, groups), schedule)
    requires AllFinished(groups, RunGroups(groups, M, near, NotStarted(nodes, groups), schedule))
    ensures RunGroups(groups, M, near, NotStarted(nodes, groups), schedule).nodes == ApplyAll(nodes, groups, M, near)
  {
    hide OnTrack, Applied, AllFinished, CanRunGroups, RunGroups, NotStarted;
    var start := NotStarted(nodes, groups);
    StartsOnTrack(nodes, groups, M, near);
    RunKeepsTrack(nodes, groups, M, near, start, schedule);
    var end := RunGroups(groups, M, near, start, schedule);
    FinishedIsApplied(nodes, groups, M, near, end);
    AllApplied(nodes, groups, M, near);
    AppliedUnique(nodes, groups, M, near, end.nodes, ApplyAll(nodes, groups, M, near));
  }

  lemma {:induction false} StartsOnTrack(nodes: seq<Node>, groups: seq<Group>, M: nat, near: (nat, nat) -> real)
    ensures OnTrack(nodes, groups, M, near, NotStarted(nodes, groups))
  {
    hide Pruned, WithAll;
    forall g | 0 <= g < |groups| ensures groups[g].sources[0..] == groups[g].sources {}
  }

  lemma {:induction false} FinishedIsApplied(nodes: seq<Node>, groups: seq<Group>, M: nat, near: (nat, nat) -> real, s: Progress)
    requires OnTrack(nodes, groups, M, near, s) && AllFinished(groups, s)
    ensures Applied(nodes, groups, M, near, s.nodes)
  {
    hide Merged, WithAll, Pruned, HasGroup;
    forall g | 0 <= g < |groups| && Fits(nodes, groups[g].key)
      ensures ListAt(s.nodes, groups[g].key) == Merged(ListAt(nodes, groups[g].key), groups[g], M, near)
    {
      assert Finished(groups, s, g);
    }
  }

  // ----- The groups one after the other -----

  method MergeGroup(nodes: seq<Node>, g: Group, M: nat, near: (nat, nat) -> real) returns (list: seq<nat>)
    requires Fits(nodes, g.key)
    ensures list == Merged(ListAt(nodes, g.key), g, M, near)
  {
    hide Selected, Scored, Fits;
    assert NeighbourOf(g.key) < |nodes| && LayerOf(g.key) < |nodes[NeighbourOf(g.key)].links| by { FitsMeans(nodes, g.key); }
    list := ListAt(nodes, g.key);
    ghost var first := list;
    assert g.sources[0..] == g.sources;
    for i := 0 to |g.sources|
      invariant WithAll(list, g.sources[i..]) == WithAll(first, g.sources)
    {
      assert g.sources[i..][0] == g.sources[i] && g.sources[i..][1..] == g.sources[i + 1..];
      if g.sources[i] !in list { list := list + [g.sources[i]]; }
    }
    var maxM := MaxLinks(M, LayerOf(g.key));
    if |list| > maxM {
      var scored := ScoreAndSort(NeighbourOf(g.key), list, near);
      list := SelectNeighbours(scored, maxM, near);
    }
  }

  lemma {:induction false} FitsMeans(nodes: seq<Node>, key: nat)
    requires Fits(nodes, key)
    ensures NeighbourOf(key) < |nodes| && LayerOf(key) < |nodes[NeighbourOf(key)].links|
  {}

  ghost function ApplyAll(nodes: seq<Node>, groups: seq<Group>, M: nat, near: (nat, nat) -> real): seq<Node> {
    if groups == [] then nodes
    else
      var r, g := ApplyAll(nodes, groups[..|groups| - 1], M, near), groups[|groups| - 1];
      if Fits(r, g.key) then SetList(r, NeighbourOf(g.key), LayerOf(g.key), Merged(ListAt(r, g.key), g, M, near)) else r
  }

  method ApplyGroups(nodes: seq<Node>, groups: seq<Group>, M: nat, near: (nat, nat) -> real) returns (r: seq<Node>)
    requires GroupsFit(nodes, groups)
    ensures r == ApplyAll(nodes, groups, M, near)
  {
    hide Merged, Applied;
    r := nodes;
    for i := 0 to |groups|
      invariant r == ApplyAll(nodes, groups[..i], M, near)
    {
      FewerFit(nodes, groups, i);
      AllApplied(nodes, groups[..i], M, near);
      SlotUntouched(nodes, groups, M, near, r, i);
      assert groups[..i + 1][..i] == groups[..i];
      var list := MergeGroup(r, groups[i], M, near);
      r := SetList(r, NeighbourOf(groups[i].key), LayerOf(groups[i].key), list);
    }
    assert groups[..|groups|] == groups;
  }

  /** One after the other, the groups end up merged, each into its own list. */
  lemma {:induction false} AllApplied(nodes: seq<Node>, groups: seq<Group>, M: nat, near: (nat, nat) -> real)
    requires GroupsFit(nodes, groups)
    ensures Applied(nodes, groups, M, near, ApplyAll(nodes, groups, M, near))
  {
    hide Merged, GroupsFit, Fits;
    if groups == [] {
      NoGroups(nodes, M, near);
    } else {
      hide Applied;
      var i := |groups| - 1;
      FewerFit(nodes, groups, i);
      AllApplied(nodes, groups[..i], M, near);
      var before := ApplyAll(nodes, groups[..i], M, near);
      SlotUntouched(nodes, groups, M, near, before, i);
      OneMoreApplied(nodes, groups, M, near, before, ApplyAll(nodes, groups, M, near), i);
      assert groups[..i + 1] == groups;
    }
  }

  lemma {:induction false} NoGroups(nodes: seq<Node>, M: nat, near: (nat, nat) -> real)
    ensures Applied(nodes, [], M, near, nodes)
  {}

  lemma {:induction false} FewerFit(nodes: seq<Node>, groups: seq<Group>, i: nat)
    requires GroupsFit(nodes, groups) && i <= |groups|
    ensures GroupsFit(nodes, groups[..i])
  {}

  lemma {:induction false} SlotUntouched(nodes: seq<Node>, groups: seq<Group>, M: nat, near: (nat, nat) -> real, r: seq<Node>, i: nat)
    requires i < |groups| && GroupsFit(nodes, groups) && Applied(nodes, groups[..i], M, near, r)
    ensures Fits(nodes, groups[i].key) && Fits(r, groups[i].key)
    ensures ListAt(r, groups[i].key) == ListAt(nodes, groups[i].key)
  {
    var key := groups[i].key;
    KeyPacks(key);
    forall g | 0 <= g < i ensures groups[..i][g].key != key {
      assert groups[g].key != groups[i].key;
    }
    assert !HasGroup(groups[..i], KeyOf(NeighbourOf(key), LayerOf(key)));
  }

  lemma {:induction false} MoreGroups(less: seq<Group>, g: Group, key: nat)
    ensures HasGroup(less, key) ==> HasGroup(less + [g], key)
  {
    if HasGroup(less, key) {
      var h :| 0 <= h < |less| && less[h].key == key;
      assert (less + [g])[h].key == key;
    }
  }

  lemma {:induction false} OneMoreApplied(nodes: seq<Node>, groups: seq<Group>, M: nat, near: (nat, nat) -> real,
                                          before: seq<Node>, r: seq<Node>, i: nat)
    requires i < |groups| && GroupsFit(nodes, groups) && Applied(nodes, groups[..i], M, near, before)
    requires Fits(before, groups[i].key) && Fits(nodes, groups[i].key)
    requires r == SetList(before, NeighbourOf(groups[i].key), LayerOf(groups[i].key),
                          Merged(ListAt(nodes, groups[i].key), groups[i], M, near))
    ensures Applied(nodes, groups[..i + 1], M, near, r)
  {
    hide Merged;
    var key, less, more := groups[i].key, groups[..i], groups[..i + 1];
    assert more == less + [groups[i]];
    KeyPacks(key);
    forall g | 0 <= g < |more| && Fits(nodes, more[g].key)
      ensures ListAt(r, more[g].key) == Merged(ListAt(nodes, more[g].key), more[g], M, near)
    {
      KeyPacks(more[g].key);
      if g < i {
        assert more[g] == less[g] && groups[g].key != key;
      }
    }
    forall n, L | 0 <= n < |nodes| && 0 <= L < |nodes[n].links| && (L >= LAYERS || !HasGroup(more, KeyOf(n, L)))
      ensures r[n].links[L] == nodes[n].links[L]
    {
      assert more[i].key == key;
      MoreGroups(less, groups[i], KeyOf(n, L));
    }
  }
}
