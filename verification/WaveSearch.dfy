/**
 * The searches of one wave of the bulk build: every new node walks the graph as it stood when the wave began.
 * A walk is a small-step machine with its own state, so any interleaving of the walks can be described.
 */
module WaveSearch {
  import opened HnswGraph
  import opened LayerSearch
  import opened Selection
  import opened HnswLinks
  import opened HnswInsert

  /** One node's walk: the layer being searched (-1 when done), the search in progress, and the lists chosen so far. */
  datatype Walker = Walker(lc: int, beam: Beam, out: seq<seq<nat>>)

  /** What a walk reads but never writes. */
  datatype Task = Task(q: Query, node: nat, level: nat)

  ghost predicate WalkerOk(nodes: seq<Node>, w: Walker) {
    w.lc >= 0 ==> Ordered(w.beam) && Inside(w.beam, |nodes|)
  }

  function BeamWidth(t: Task, lc: int): nat { if lc > t.level then 1 else t.q.ef }

  /** The layer's search is over: record the chosen list when the node belongs to the layer, and go one layer down. */
  ghost function NextLayer(nodes: seq<Node>, t: Task, w: Walker): (r: Walker)
    requires WalkerOk(nodes, w) && w.lc >= 0
    ensures WalkerOk(nodes, r) && r.lc == w.lc - 1 && |r.out| == |w.out|
  {
    var found := Drained(w.beam.result);
    assert found[0] == w.beam.result[|w.beam.result| - 1].doc;
    assert w.beam.result[|w.beam.result| - 1] in w.beam.result;
    var out := if w.lc < |w.out| && w.lc <= t.level then w.out[w.lc := Picked(t.q, t.node, w.lc, found)] else w.out;
    Walker(w.lc - 1, Start(found[0], t.q.sim), out)
  }

  /** One step of a walk: expand one candidate, or finish the layer. */
  ghost function WalkStep(nodes: seq<Node>, t: Task, w: Walker): (r: Walker)
    requires WalkerOk(nodes, w) && w.lc >= 0
    ensures WalkerOk(nodes, r) && |r.out| == |w.out|
  {
    if w.beam.cand != [] then
      w.(beam := Round(nodes, w.lc, t.q.sim, BeamWidth(t, w.lc), w.beam))
    else
      NextLayer(nodes, t, w)
  }

  /** The lists a walk will have chosen when it is done. */
  ghost function Outcome(nodes: seq<Node>, t: Task, w: Walker): (out: seq<seq<nat>>)
    requires WalkerOk(nodes, w)
    ensures |out| == |w.out|
    decreases w.lc + 1
  {
    if w.lc < 0 then w.out
    else
      var beam := Finish(nodes, w.lc, t.q.sim, BeamWidth(t, w.lc), w.beam);
      Outcome(nodes, t, NextLayer(nodes, t, w.(beam := beam)))
  }

  /** A step never changes the lists the walk will end with. */
  lemma {:induction false} StepKeepsOutcome(nodes: seq<Node>, t: Task, w: Walker)
    requires WalkerOk(nodes, w) && w.lc >= 0
    ensures Outcome(nodes, t, WalkStep(nodes, t, w)) == Outcome(nodes, t, w)
  {
    hide Round, NextLayer, Ordered, Inside;
    FinishStep(nodes, w.lc, t.q.sim, BeamWidth(t, w.lc), w.beam);
    assert w.beam.cand == [] ==> w.(beam := w.beam) == w;
  }

  /** A walk about to search the top layer from the entry node. */
  ghost function FirstStep(t: Task, entry: nat, top: nat): Walker {
    Walker(top, Start(entry, t.q.sim), seq(t.level + 1, l => []))
  }

  lemma {:induction false} FirstStepOk(nodes: seq<Node>, t: Task, entry: nat, top: nat)
    requires entry < |nodes|
    ensures WalkerOk(nodes, FirstStep(t, entry, top))
  {}

  /** The lists a node chooses in the graph the wave began with. */
  ghost function Picks(nodes: seq<Node>, t: Task, entry: nat, top: nat): (out: seq<seq<nat>>)
    requires entry < |nodes|
    ensures |out| == t.level + 1
  {
    FirstStepOk(nodes, t, entry, top);
    Outcome(nodes, t, FirstStep(t, entry, top))
  }

  // ----- Any interleaving of the walks -----

  /** The walks run in the given order, one step at a time; a finished walk is not scheduled. */
  ghost predicate CanRun(nodes: seq<Node>, tasks: seq<Task>, ws: seq<Walker>, schedule: seq<nat>)
    requires |tasks| == |ws|
    decreases schedule
  {
    (forall i :: 0 <= i < |ws| ==> WalkerOk(nodes, ws[i]))
    && (schedule != [] ==>
          && schedule[0] < |ws| && ws[schedule[0]].lc >= 0
          && CanRun(nodes, tasks, Stepped(nodes, tasks, ws, schedule[0]), schedule[1..]))
  }

  ghost function Stepped(nodes: seq<Node>, tasks: seq<Task>, ws: seq<Walker>, i: nat): (r: seq<Walker>)
    requires |tasks| == |ws| && i < |ws| && WalkerOk(nodes, ws[i]) && ws[i].lc >= 0
    ensures |r| == |ws|
  {
    ws[i := WalkStep(nodes, tasks[i], ws[i])]
  }

  ghost function RunWalks(nodes: seq<Node>, tasks: seq<Task>, ws: seq<Walker>, schedule: seq<nat>): (r: seq<Walker>)
    requires |tasks| == |ws| && CanRun(nodes, tasks, ws, schedule)
    ensures |r| == |ws| && forall i :: 0 <= i < |r| ==> WalkerOk(nodes, r[i])
    decreases schedule
  {
    if schedule == [] then ws
    else RunWalks(nodes, tasks, Stepped(nodes, tasks, ws, schedule[0]), schedule[1..])
  }

  lemma {:induction false} RunKeepsOutcomes(nodes: seq<Node>, tasks: seq<Task>, ws: seq<Walker>, schedule: seq<nat>, i: nat)
    requires |tasks| == |ws| && CanRun(nodes, tasks, ws, schedule) && i < |ws|
    ensures Outcome(nodes, tasks[i], RunWalks(nodes, tasks, ws, schedule)[i]) == Outcome(nodes, tasks[i], ws[i])
    decreases schedule
  {
    hide Outcome, WalkStep, WalkerOk;
    if schedule != [] {
      StepKeepsOutcome(nodes, tasks[schedule[0]], ws[schedule[0]]);
      RunKeepsOutcomes(nodes, tasks, Stepped(nodes, tasks, ws, schedule[0]), schedule[1..], i);
    }
  }

  ghost predicate AllDone(ws: seq<Walker>) { forall i :: 0 <= i < |ws| ==> ws[i].lc < 0 }

  ghost function FirstSteps(tasks: seq<Task>, entry: nat, top: nat): (ws: seq<Walker>)
    ensures |ws| == |tasks| && forall i :: 0 <= i < |ws| ==> ws[i] == FirstStep(tasks[i], entry, top)
  {
    seq(|tasks|, i requires 0 <= i < |tasks| => FirstStep(tasks[i], entry, top))
  }

  /** However the walks of a wave are interleaved, each ends with the lists it would choose running alone. */
  lemma {:induction false} WalksAreScheduleIndependent(nodes: seq<Node>, tasks: seq<Task>, entry: nat, top: nat, schedule: seq<nat>)
    requires entry < |nodes| && CanRun(nodes, tasks, FirstSteps(tasks, entry, top), schedule)
    requires AllDone(RunWalks(nodes, tasks, FirstSteps(tasks, entry, top), schedule))
    ensures forall i :: 0 <= i < |tasks| ==>
      RunWalks(nodes, tasks, FirstSteps(tasks, entry, top), schedule)[i].out == Picks(nodes, tasks[i], entry, top)
  {
    hide CanRun, RunWalks;
    forall i | 0 <= i < |tasks|
      ensures RunWalks(nodes, tasks, FirstSteps(tasks, entry, top), schedule)[i].out == Picks(nodes, tasks[i], entry, top)
    {
      RunKeepsOutcomes(nodes, tasks, FirstSteps(tasks, entry, top), schedule, i);
    }
  }

  /** Every step goes a layer down, or visits more of the layer, or visits as much and shortens the frontier. */
  lemma {:induction false} StepLowers(nodes: seq<Node>, t: Task, w: Walker)
    requires WalkerOk(nodes, w) && w.lc >= 0
    ensures var r := WalkStep(nodes, t, w);
      || r.lc == w.lc - 1
      || (r.lc == w.lc && |w.beam.visited| < |r.beam.visited| <= |nodes|)
      || (r.lc == w.lc && |w.beam.visited| == |r.beam.visited| <= |nodes| && |r.beam.cand| < |w.beam.cand|)
  {
    if w.beam.cand != [] { Progress(|nodes|, w.beam, WalkStep(nodes, t, w).beam); }
  }

  /** From every state, however it was reached, the walks can be run to their end. */
  lemma {:induction false} WalksCanFinish(nodes: seq<Node>, tasks: seq<Task>, ws: seq<Walker>, i: nat) returns (schedule: seq<nat>)
    requires |tasks| == |ws| && i <= |ws|
    requires (forall j :: 0 <= j < |ws| ==> WalkerOk(nodes, ws[j])) && forall j :: 0 <= j < i ==> ws[j].lc < 0
    ensures CanRun(nodes, tasks, ws, schedule) && AllDone(RunWalks(nodes, tasks, ws, schedule))
    decreases |ws| - i, if i < |ws| then ws[i].lc + 1 else 0,
      if i < |ws| then |nodes| - |ws[i].beam.visited| else 0, if i < |ws| then |ws[i].beam.cand| else 0
  {
    hide WalkStep, WalkerOk;
    if i == |ws| {
      schedule := [];
    } else if ws[i].lc < 0 {
      schedule := WalksCanFinish(nodes, tasks, ws, i + 1);
    } else {
      StepLowers(nodes, tasks[i], ws[i]);
      var rest := WalksCanFinish(nodes, tasks, Stepped(nodes, tasks, ws, i), i);
      schedule := [i] + rest;
      assert schedule[0] == i && schedule[1..] == rest;
    }
  }

  // ----- What a node chooses -----

  /** Nodes from `next` on are not linked yet, in either direction. */
  ghost predicate Unlinked(nodes: seq<Node>, next: nat) {
    forall n, L :: 0 <= n < |nodes| && 0 <= L < |nodes[n].links| ==>
      (n >= next ==> nodes[n].links[L] == []) && forall i :: 0 <= i < |nodes[n].links[L]| ==> nodes[n].links[L][i] < next
  }

  lemma {:induction false} ReachesOnlyLinked(nodes: seq<Node>, next: nat, L: nat, entry: nat, v: nat)
    requires Unlinked(nodes, next) && entry < next && Reachable(nodes, L, entry, v)
    ensures v < next
  {
    var path :| IsPath(nodes, L, path) && path[0] == entry && path[|path| - 1] == v;
    if |path| > 1 {
      assert path[|path| - 1] in Neighbours(nodes, path[|path| - 2], L);
    }
  }

  /** A list for a node not linked yet, of linked nodes only. */
  ghost predicate PickOk(nodes: seq<Node>, M: nat, next: nat, node: nat, L: nat, list: seq<nat>) {
    ListOk(nodes, M, node, L, list) && forall i :: 0 <= i < |list| ==> list[i] < next
  }

  ghost predicate PicksOk(nodes: seq<Node>, M: nat, next: nat, node: nat, out: seq<seq<nat>>) {
    forall L :: 0 <= L < |out| ==> PickOk(nodes, M, next, node, L, out[L])
  }

  lemma {:induction false} SearchPicks(nodes: seq<Node>, t: Task, next: nat, cur: nat, L: nat)
    requires GraphOk(nodes, t.q.M) && Unlinked(nodes, next) && cur < next <= t.node && InLayer(nodes, cur, L)
    ensures var found := Search(nodes, L, t.q.sim, cur, BeamWidth(t, L));
      && found != [] && found[0] < next && InLayer(nodes, found[0], L)
      && PickOk(nodes, t.q.M, next, t.node, L, Picked(t.q, t.node, L, found))
  {
    hide Search, VisitedBy, GraphOk, Unlinked, Selected, Scored;
    var ef := BeamWidth(t, L);
    var found, visited := Search(nodes, L, t.q.sim, cur, ef), VisitedBy(nodes, L, t.q.sim, cur, ef);
    SearchFinds(nodes, L, t.q.sim, cur, ef);
    FoundNonEmpty(nodes, L, t.q.sim, cur, ef, visited, found);
    FoundInLayer(nodes, t.q.M, L, t.q.sim, cur, ef, t.node);
    forall i | 0 <= i < |found| ensures found[i] < next {
      ReachesOnlyLinked(nodes, next, L, cur, found[i]);
    }
    SelectionOk(found, t.node, MaxLinks(t.q.M, L), t.q.near);
    var list := Picked(t.q, t.node, L, found);
    PartHasLayer(nodes, L, found, list);
    forall i | 0 <= i < |list| ensures list[i] < next { assert list[i] in list; }
  }

  /** The state of a walk between two layers. */
  ghost predicate BetweenLayers(nodes: seq<Node>, t: Task, next: nat, w: Walker, cur: nat) {
    && cur < next && (w.lc >= 0 ==> InLayer(nodes, cur, w.lc))
    && w.beam == Start(cur, t.q.sim) && cur < |nodes|
    && PicksOk(nodes, t.q.M, next, t.node, w.out)
  }

  lemma {:induction false} OutcomeOk(nodes: seq<Node>, t: Task, next: nat, w: Walker, cur: nat)
    requires GraphOk(nodes, t.q.M) && Unlinked(nodes, next) && next <= t.node
    requires WalkerOk(nodes, w) && BetweenLayers(nodes, t, next, w, cur)
    ensures PicksOk(nodes, t.q.M, next, t.node, Outcome(nodes, t, w))
    decreases w.lc + 1
  {
    hide GraphOk, Unlinked, PickOk, Picked, Finish, Start;
    if w.lc >= 0 {
      SearchPicks(nodes, t, next, cur, w.lc);
      var found := Search(nodes, w.lc, t.q.sim, cur, BeamWidth(t, w.lc));
      var beam := Finish(nodes, w.lc, t.q.sim, BeamWidth(t, w.lc), w.beam);
      OutcomeOk(nodes, t, next, NextLayer(nodes, t, w.(beam := beam)), found[0]);
    }
  }

  /** Every list a node chooses is within bounds and names only nodes linked before the wave, all of them in the layer. */
  lemma {:induction false} PicksAreOk(nodes: seq<Node>, t: Task, next: nat, entry: nat, top: nat)
    requires GraphOk(nodes, t.q.M) && Unlinked(nodes, next) && entry < next <= t.node && InLayer(nodes, entry, top)
    ensures PicksOk(nodes, t.q.M, next, t.node, Picks(nodes, t, entry, top))
  {
    FirstStepOk(nodes, t, entry, top);
    OutcomeOk(nodes, t, next, FirstStep(t, entry, top), entry);
  }

  /** The walk of one node, layer by layer. */
  method PickLists(nodes: seq<Node>, ghost t: Task, q: Query, node: nat, level: nat, entry: nat, top: nat)
    returns (out: seq<seq<nat>>)
    requires entry < |nodes| && t == Task(q, node, level)
    ensures out == Picks(nodes, t, entry, top)
  {
    hide Start, Finish, WalkerOk, Outcome, Search, Found, VisitedBy, Picked, Selected, Scored, Scratch.Valid;
    var cur: nat := entry;
    var lc: int := top;
    out := seq(level + 1, _ => []);
    FirstStepOk(nodes, t, entry, top);
    assert Walker(lc, Start(cur, q.sim), out) == FirstStep(t, entry, top);
    var sc := new Scratch();
    PicksIs(nodes, t, entry, top);
    while lc >= 0
      invariant -1 <= lc && cur < |nodes| && |out| == level + 1
      invariant sc.Valid() && fresh(sc) && fresh(sc.visitEpoch)
      invariant WalkerOk(nodes, Walker(lc, Start(cur, q.sim), out))
      invariant Outcome(nodes, t, Walker(lc, Start(cur, q.sim), out)) == Picks(nodes, t, entry, top)
    {
      ghost var w := Walker(lc, Start(cur, q.sim), out);
      var hop := SearchLayer(sc, nodes, q.sim, cur, lc, if lc > level then 1 else q.ef);
      LayerDone(nodes, t, w, cur);
      PickedIs(t, lc, hop);
      cur := hop[0];
      if lc <= level {
        var scored := ScoreAndSort(node, hop, q.near);
        var list := SelectNeighbours(scored, MaxLinks(q.M, lc), q.near);
        out := out[lc := list];
      }
      lc := lc - 1;
    }
    NoLayersLeft(nodes, t, Walker(lc, Start(cur, q.sim), out));
  }

  lemma {:induction false} PickedIs(t: Task, L: nat, hop: seq<nat>)
    ensures Picked(t.q, t.node, L, hop) == Selected(Scored(hop, t.node, t.q.near), MaxLinks(t.q.M, L), t.q.near)
  {}

  lemma {:induction false} PicksIs(nodes: seq<Node>, t: Task, entry: nat, top: nat)
    requires entry < |nodes|
    ensures WalkerOk(nodes, FirstStep(t, entry, top))
    ensures Picks(nodes, t, entry, top) == Outcome(nodes, t, FirstStep(t, entry, top))
  {
    FirstStepOk(nodes, t, entry, top);
  }

  lemma {:induction false} NoLayersLeft(nodes: seq<Node>, t: Task, w: Walker)
    requires w.lc < 0
    ensures WalkerOk(nodes, w) && Outcome(nodes, t, w) == w.out
  {}

  lemma {:induction false} LayerDone(nodes: seq<Node>, t: Task, w: Walker, cur: nat)
    requires WalkerOk(nodes, w) && w.lc >= 0 && cur < |nodes| && w.beam == Start(cur, t.q.sim) && |w.out| == t.level + 1
    ensures var hop := Search(nodes, w.lc, t.q.sim, cur, BeamWidth(t, w.lc));
      && hop != [] && hop[0] < |nodes|
      && var r := Walker(w.lc - 1, Start(hop[0], t.q.sim),
                         if w.lc <= t.level then w.out[w.lc := Picked(t.q, t.node, w.lc, hop)] else w.out);
         WalkerOk(nodes, r) && Outcome(nodes, t, r) == Outcome(nodes, t, w)
  {
    hide Start, Finish, Picked;
    var hop := Search(nodes, w.lc, t.q.sim, cur, BeamWidth(t, w.lc));
    var beam := Finish(nodes, w.lc, t.q.sim, BeamWidth(t, w.lc), w.beam);
    assert hop == Drained(beam.result);
    assert beam.result[|beam.result| - 1] in beam.result;
    var r := NextLayer(nodes, t, w.(beam := beam));
    assert hop[0] == beam.result[|beam.result| - 1].doc;
    assert r == Walker(w.lc - 1, Start(hop[0], t.q.sim),
                       if w.lc <= t.level then w.out[w.lc := Picked(t.q, t.node, w.lc, hop)] else w.out);
  }
}
