/** Best-first beam search in one layer of the graph. */
module LayerSearch {
  import opened Sets
  import opened TopK
  import opened ScoreHeap
  import opened HnswGraph

  // ----- The epoch-stamped visited marks -----

  const EPOCHS: nat := 0x1_0000_0000

  /** Buffers reused across searches; a node is visited when its stamp equals the current epoch. */
  class Scratch {
    var visitEpoch: array<nat>
    var epoch: nat
    var cand: seq<Hit>
    var result: seq<Hit>

    /** No stamp is from the future, so a new epoch starts with nothing visited. */
    ghost predicate Valid()
      reads this`epoch, this`visitEpoch, visitEpoch
    {
      epoch < EPOCHS && forall i :: 0 <= i < visitEpoch.Length ==> visitEpoch[i] <= epoch
    }

    ghost function Visited(): set<nat>
      reads this`epoch, this`visitEpoch, visitEpoch
    {
      set i | i in UpTo(visitEpoch.Length) && visitEpoch[i] == epoch
    }

    /** The search in progress. */
    ghost function State(): Beam
      reads this, visitEpoch
    {
      Beam(Visited(), cand, result)
    }

    constructor ()
      ensures Valid() && fresh(visitEpoch)
    {
      visitEpoch := new nat[0];
      epoch, cand, result := 0, [], [];
    }

    /** Forget every mark by moving to the next epoch; the 32-bit epoch wraps to 0, and then the stamps are cleared. */
    method Reset(n: nat)
      requires Valid()
      modifies this, visitEpoch
      ensures Valid() && Visited() == {} && visitEpoch.Length >= n
      ensures visitEpoch == old(visitEpoch) || fresh(visitEpoch)
      ensures cand == [] && result == []
    {
      if visitEpoch.Length < n {
        visitEpoch := new nat[n](_ => 0);
      }
      epoch := (epoch + 1) % EPOCHS;
      if epoch == 0 {
        ClearStamps();
        epoch := 1;
      }
      cand, result := [], [];
    }

    method ClearStamps()
      modifies visitEpoch
      ensures forall i :: 0 <= i < visitEpoch.Length ==> visitEpoch[i] == 0
    {
      for i := 0 to visitEpoch.Length
        invariant forall j :: 0 <= j < i ==> visitEpoch[j] == 0
      {
        visitEpoch[i] := 0;
      }
    }

    /** Mark a node; says whether it was not marked yet. */
    method Mark(id: nat) returns (isNew: bool)
      requires Valid() && id < visitEpoch.Length
      modifies visitEpoch
      ensures Valid()
      ensures isNew <==> id !in old(Visited())
      ensures Visited() == old(Visited()) + {id}
    {
      if visitEpoch[id] == epoch {
        assert Visited() == Visited() + {id};
        return false;
      }
      visitEpoch[id] := epoch;
      isNew := true;
      assert Visited() == old(Visited()) + {id};
    }
  }

  // ----- What the search returns -----

  /** The beam is never narrower than the entry node. */
  function Width(ef: nat): nat { if ef < 1 then 1 else ef }

  /** The result of a search that visited `visited`: the best of them, best first, with nothing left to expand. */
  ghost predicate Found(nodes: seq<Node>, L: nat, sim: nat -> real, entry: nat, ef: nat, visited: set<nat>, out: seq<nat>) {
    && entry in visited
    && (forall v :: v in visited ==> v < |nodes| && Reachable(nodes, L, entry, v))
    && Distinct(out)
    && (forall i :: 0 <= i < |out| ==> out[i] in visited)
    && |out| == Min(Width(ef), |visited|)
    && (forall i, j :: 0 <= i < j < |out| ==> sim(out[i]) >= sim(out[j]))
    && (forall v, i :: v in visited && v !in out && 0 <= i < |out| ==> sim(v) <= sim(out[i]))
    && (forall i :: 0 <= i < |out| && out[i] < |nodes| ==> Expanded(nodes, L, visited, out[i]))
  }

  /** Every existing neighbour of v has been visited. */
  ghost predicate Expanded(nodes: seq<Node>, L: nat, visited: set<nat>, v: nat)
    requires v < |nodes|
  {
    forall nb: nat :: nb in Neighbours(nodes, v, L) && nb < |nodes| ==> nb in visited
  }

  lemma {:induction false} FoundNonEmpty(nodes: seq<Node>, L: nat, sim: nat -> real, entry: nat, ef: nat, visited: set<nat>, out: seq<nat>)
    requires Found(nodes, L, sim, entry, ef, visited, out)
    ensures out != [] && forall i :: 0 <= i < |out| ==> out[i] < |nodes| && Reachable(nodes, L, entry, out[i])
    ensures sim(entry) <= sim(out[0])
  {
    assert |visited| >= 1 by { SubsetSize({entry}, visited); }
    if entry in out {
      var i :| 0 <= i < |out| && out[i] == entry;
    }
  }

  /** A neighbour of a found node that was not found itself is no better than any found node. */
  lemma {:induction false} NeighboursAreNoBetter(nodes: seq<Node>, L: nat, sim: nat -> real, entry: nat, ef: nat, visited: set<nat>,
                                                 out: seq<nat>, i: nat, j: nat, nb: nat)
    requires Found(nodes, L, sim, entry, ef, visited, out) && i < |out| && j < |out|
    requires out[i] < |nodes| && nb in Neighbours(nodes, out[i], L) && nb < |nodes| && nb !in out
    ensures sim(nb) <= sim(out[j])
  {
    assert Expanded(nodes, L, visited, out[i]);
  }

  lemma {:induction false} FoundInOrder(nodes: seq<Node>, L: nat, sim: nat -> real, entry: nat, ef: nat, visited: set<nat>, out: seq<nat>)
    requires Found(nodes, L, sim, entry, ef, visited, out)
    ensures |out| <= (if ef < 1 then 1 else ef) && forall i, j :: 0 <= i < j < |out| ==> sim(out[i]) >= sim(out[j])
  {}

  /** A beam at least as wide as the reachable part of the layer returns exactly that part. */
  lemma {:induction false} WideBeamFindsAll(nodes: seq<Node>, L: nat, sim: nat -> real, entry: nat, ef: nat, visited: set<nat>, out: seq<nat>)
    requires Found(nodes, L, sim, entry, ef, visited, out) && |ReachableSet(nodes, L, entry)| <= Width(ef)
    ensures ElementsOf(out) == ReachableSet(nodes, L, entry)
  {
    var r := ReachableSet(nodes, L, entry);
    SubsetSize(visited, r);
    DistinctSize(out);
    SubsetSize(ElementsOf(out), visited);
    hide Reachable, ReachableSet, Neighbours;
    assert ElementsOf(out) == visited;
    forall v: nat, nb: nat | v in visited && v < |nodes| && nb < |nodes| && nb in Neighbours(nodes, v, L)
      ensures nb in visited
    {
      var i :| 0 <= i < |out| && out[i] == v;
      assert Expanded(nodes, L, visited, out[i]);
    }
    assert Closed(nodes, L, visited);
    forall v | v in r ensures v in visited {
      ClosedHoldsReachable(nodes, L, entry, visited, v);
    }
  }

  // ----- The search as a function -----

  /** The state of a search: what was visited, the frontier, and the kept nodes, weakest first. */
  datatype Beam = Beam(visited: set<nat>, cand: seq<Hit>, result: seq<Hit>)

  ghost predicate Ordered(b: Beam) {
    AscendingScores(b.cand) && AscendingScores(b.result) && b.result != []
  }

  /** Every candidate and kept node was visited, and every visited node exists. */
  ghost predicate Inside(b: Beam, n: nat) {
    b.visited <= UpTo(n) && forall h :: h in b.cand || h in b.result ==> h.doc in b.visited
  }

  /** A node seen for the first time joins the kept nodes when there is room or when it beats the weakest of them. */
  function Admit(result: seq<Hit>, x: Hit, ef: nat): (next: seq<Hit>)
    requires AscendingScores(result) && result != []
    ensures AscendingScores(next) && next != []
    ensures forall h :: h in next ==> h in result || h == x
  {
    if |result| < ef then InsertByScore(result, x)
    else if x.score > result[0].score then InsertByScore(result[1..], x)
    else result
  }

  predicate Admitted(result: seq<Hit>, x: Hit, ef: nat)
    requires result != []
  {
    |result| < ef || x.score > result[0].score
  }

  ghost function Visit(b: Beam, nb: nat, sim: nat -> real, ef: nat): (r: Beam)
    requires Ordered(b)
    ensures Ordered(r) && r.visited == b.visited + {nb}
    ensures nb in b.visited ==> r == b
    ensures forall h :: h in b.cand ==> h in r.cand
    ensures forall h :: h in r.cand ==> h in b.cand || h.doc == nb
    ensures forall h :: h in r.result ==> h in b.result || h.doc == nb
  {
    if nb in b.visited then b
    else
      var x := Hit(nb, sim(nb));
      Beam(b.visited + {nb}, if Admitted(b.result, x, ef) then InsertByScore(b.cand, x) else b.cand, Admit(b.result, x, ef))
  }

  /** Visit a list of neighbours in order, skipping ordinals that do not exist. */
  ghost function VisitAll(b: Beam, n: nat, links: seq<nat>, sim: nat -> real, ef: nat): (r: Beam)
    requires Ordered(b) && Inside(b, n)
    ensures Ordered(r) && Inside(r, n) && b.visited <= r.visited
    ensures forall nb :: nb in links && nb < n ==> nb in r.visited
    ensures r.visited == b.visited ==> r == b
  {
    if links == [] then b
    else
      var r, last := VisitAll(b, n, links[..|links| - 1], sim, ef), links[|links| - 1];
      assert links == links[..|links| - 1] + [last];
      if last < n then Visit(r, last, sim, ef) else r
  }

  /** Expand the most similar candidate; drop the frontier once even that one is weaker than every kept node. */
  ghost function Round(nodes: seq<Node>, L: nat, sim: nat -> real, ef: nat, b: Beam): (r: Beam)
    requires Ordered(b) && Inside(b, |nodes|) && b.cand != []
    ensures Ordered(r) && Inside(r, |nodes|) && b.visited <= r.visited
    ensures r.visited == b.visited ==> |r.cand| < |b.cand|
  {
    var top, rest := b.cand[|b.cand| - 1], b.cand[..|b.cand| - 1];
    assert top in b.cand;
    if top.score < b.result[0].score && |b.result| >= ef then b.(cand := [])
    else VisitAll(b.(cand := rest), |nodes|, Neighbours(nodes, top.doc, L), sim, ef)
  }

  lemma {:induction false} Progress(n: nat, b: Beam, r: Beam)
    requires Inside(r, n) && b.visited <= r.visited
    ensures |b.visited| <= |r.visited| <= n
    ensures |b.visited| == |r.visited| ==> b.visited == r.visited
  {
    SubsetSize(b.visited, r.visited);
    SubsetSize(r.visited, UpTo(n));
  }

  /** Rounds until the frontier is empty. */
  ghost function Finish(nodes: seq<Node>, L: nat, sim: nat -> real, ef: nat, b: Beam): (r: Beam)
    requires Ordered(b) && Inside(b, |nodes|)
    ensures Ordered(r) && Inside(r, |nodes|)
    decreases |nodes| - |b.visited|, |b.cand|
  {
    if b.cand == [] then b
    else
      var r := Round(nodes, L, sim, ef, b);
      Progress(|nodes|, b, r);
      Finish(nodes, L, sim, ef, r)
  }

  ghost function Start(entry: nat, sim: nat -> real): (b: Beam)
    ensures Ordered(b)
  {
    var first := [Hit(entry, sim(entry))];
    Beam({entry}, first, first)
  }

  /** The kept nodes, best first. */
  function Drained(result: seq<Hit>): (out: seq<nat>)
    ensures |out| == |result| && forall i :: 0 <= i < |out| ==> out[i] == result[|result| - 1 - i].doc
  {
    seq(|result|, i requires 0 <= i < |result| => result[|result| - 1 - i].doc)
  }

  /** What a search of layer L from `entry` returns. */
  ghost function Search(nodes: seq<Node>, L: nat, sim: nat -> real, entry: nat, ef: nat): (out: seq<nat>)
    requires entry < |nodes|
  {
    Drained(Finish(nodes, L, sim, ef, Start(entry, sim)).result)
  }

  // ----- What every round keeps -----

  ghost predicate ExactHits(h: seq<Hit>, visited: set<nat>, sim: nat -> real) {
    forall i :: 0 <= i < |h| ==> h[i].doc in visited && h[i].score == sim(h[i].doc)
  }

  /** `result` holds the best of the visited nodes. */
  ghost predicate Best(result: seq<Hit>, visited: set<nat>, sim: nat -> real, e: nat) {
    && AscendingScores(result) && DistinctDocs(result) && ExactHits(result, visited, sim)
    && |result| == Min(e, |visited|)
    && forall v, i :: v in visited && !Listed(result, v) && 0 <= i < |result| ==> sim(v) <= result[i].score
  }

  ghost predicate AllReached(nodes: seq<Node>, L: nat, entry: nat, visited: set<nat>) {
    forall v :: v in visited ==> v < |nodes| && Reachable(nodes, L, entry, v)
  }

  ghost predicate Searching(nodes: seq<Node>, L: nat, sim: nat -> real, entry: nat, ef: nat, b: Beam) {
    && entry in b.visited && AllReached(nodes, L, entry, b.visited)
    && Ordered(b) && ExactHits(b.cand, b.visited, sim) && Best(b.result, b.visited, sim, Width(ef))
  }

  /** Every kept node is still to be expanded, being expanded, or done; `current` is |nodes| when none is being expanded. */
  ghost predicate Pending(nodes: seq<Node>, L: nat, b: Beam, current: nat) {
    forall i :: 0 <= i < |b.result| && b.result[i].doc < |nodes| ==>
      b.result[i] in b.cand || b.result[i].doc == current || Expanded(nodes, L, b.visited, b.result[i].doc)
  }

  lemma {:induction false} Joined(result: seq<Hit>, next: seq<Hit>, x: Hit, visited: set<nat>, sim: nat -> real, e: nat)
    requires Best(result, visited, sim, e) && |result| < e && x.doc !in visited && x.score == sim(x.doc)
    requires AscendingScores(next) && DistinctDocs(next) && |next| == |result| + 1
    requires forall h :: h in next <==> h in result || h == x
    ensures Best(next, visited + {x.doc}, sim, e)
  {
    KeepsExact(result, next, x, visited, sim);
    AllListed(result, visited, sim);
    forall v | v in visited + {x.doc} ensures Listed(next, v) {
      if v == x.doc { ListedWhenIn(next, x); } else { ListedCarries(result, next, v); }
    }
  }

  lemma {:induction false} Replaced(result: seq<Hit>, next: seq<Hit>, x: Hit, visited: set<nat>, sim: nat -> real, e: nat)
    requires Best(result, visited, sim, e) && |result| == e > 0 && x.doc !in visited && x.score == sim(x.doc)
    requires x.score > result[0].score
    requires AscendingScores(next) && DistinctDocs(next) && |next| == |result|
    requires forall h :: h in next <==> h in result[1..] || h == x
    ensures Best(next, visited + {x.doc}, sim, e)
  {
    KeepsExact(result, next, x, visited, sim);
    forall v, i | v in visited + {x.doc} && !Listed(next, v) && 0 <= i < |next| ensures sim(v) <= next[i].score {
      assert next[i] in next;
      assert next[i] == x || next[i] in result[1..];
      assert result[0].score <= next[i].score;
      if v == x.doc {
        ListedWhenIn(next, x);
      } else if Listed(result, v) {
        var p :| 0 <= p < |result| && result[p].doc == v;
        if p > 0 {
          assert result[p] == result[1..][p - 1];
          ListedWhenIn(next, result[p]);
        }
      }
    }
  }

  lemma {:induction false} KeepsExact(result: seq<Hit>, next: seq<Hit>, x: Hit, visited: set<nat>, sim: nat -> real)
    requires ExactHits(result, visited, sim) && x.score == sim(x.doc)
    requires forall h :: h in next ==> h in result || h == x
    ensures ExactHits(next, visited + {x.doc}, sim)
  {
    forall i | 0 <= i < |next| ensures next[i].doc in visited + {x.doc} && next[i].score == sim(next[i].doc) {
      assert next[i] in next;
    }
  }

  lemma {:induction false} ListedWhenIn(hits: seq<Hit>, x: Hit)
    requires x in hits
    ensures Listed(hits, x.doc)
  {}

  lemma {:induction false} ListedCarries(a: seq<Hit>, b: seq<Hit>, v: nat)
    requires Listed(a, v) && forall h :: h in a ==> h in b
    ensures Listed(b, v)
  {
    var p :| 0 <= p < |a| && a[p].doc == v;
    assert a[p] in b;
  }

  /** While there is room, the result holds every visited node. */
  lemma {:induction false} AllListed(result: seq<Hit>, visited: set<nat>, sim: nat -> real)
    requires DistinctDocs(result) && ExactHits(result, visited, sim) && |result| == |visited|
    ensures forall v :: v in visited ==> Listed(result, v)
  {
    DocsOfSize(result);
    SubsetSize(DocsOf(result), visited);
  }

  lemma {:induction false} AdmitKeepsBest(result: seq<Hit>, x: Hit, ef: nat, visited: set<nat>, sim: nat -> real)
    requires Best(result, visited, sim, Width(ef)) && result != []
    requires x.doc !in visited && x.score == sim(x.doc)
    ensures Best(Admit(result, x, ef), visited + {x.doc}, sim, Width(ef))
    ensures x in Admit(result, x, ef) ==> Admitted(result, x, ef)
  {
    forall i | 0 <= i < |result| ensures result[i].doc != x.doc {}
    var next := Admit(result, x, ef);
    if |result| < ef {
      Joined(result, next, x, visited, sim, Width(ef));
    } else if x.score > result[0].score {
      Replaced(result, next, x, visited, sim, Width(ef));
    }
  }

  lemma {:induction false} VisitKeeps(nodes: seq<Node>, L: nat, sim: nat -> real, entry: nat, ef: nat, b: Beam, current: nat, nb: nat)
    requires Searching(nodes, L, sim, entry, ef, b) && Pending(nodes, L, b, current)
    requires current < |nodes| && nb < |nodes| && current in b.visited && nb in Neighbours(nodes, current, L)
    ensures Searching(nodes, L, sim, entry, ef, Visit(b, nb, sim, ef)) && Pending(nodes, L, Visit(b, nb, sim, ef), current)
  {
    hide Best, AscendingScores, Reachable, Neighbours;
    var r, x := Visit(b, nb, sim, ef), Hit(nb, sim(nb));
    if nb !in b.visited {
      NextReachable(nodes, L, entry, current, nb);
      AdmitKeepsBest(b.result, x, ef, b.visited, sim);
      KeepsExact(b.cand, r.cand, x, b.visited, sim);
      forall i | 0 <= i < |r.result| && r.result[i].doc < |nodes|
        ensures r.result[i] in r.cand || r.result[i].doc == current || Expanded(nodes, L, r.visited, r.result[i].doc)
      {
        assert r.result[i] in r.result;
        if r.result[i] in b.result {
          var p :| 0 <= p < |b.result| && b.result[p] == r.result[i];
        }
      }
    }
  }

  lemma {:induction false} VisitAllKeeps(nodes: seq<Node>, L: nat, sim: nat -> real, entry: nat, ef: nat, b: Beam, current: nat, links: seq<nat>)
    requires Searching(nodes, L, sim, entry, ef, b) && Pending(nodes, L, b, current) && Inside(b, |nodes|)
    requires current < |nodes| && current in b.visited && links <= Neighbours(nodes, current, L)
    ensures var r := VisitAll(b, |nodes|, links, sim, ef);
      Searching(nodes, L, sim, entry, ef, r) && Pending(nodes, L, r, current)
  {
    hide Searching, Pending, Neighbours, Visit;
    if links != [] {
      var less, last := links[..|links| - 1], links[|links| - 1];
      SearchingIsOrdered(nodes, L, sim, entry, ef, b);
      VisitAllKeeps(nodes, L, sim, entry, ef, b, current, less);
      if last < |nodes| {
        assert last in Neighbours(nodes, current, L);
        VisitKeeps(nodes, L, sim, entry, ef, VisitAll(b, |nodes|, less, sim, ef), current, last);
      }
    }
  }

  lemma {:induction false} SearchingIsOrdered(nodes: seq<Node>, L: nat, sim: nat -> real, entry: nat, ef: nat, b: Beam)
    requires Searching(nodes, L, sim, entry, ef, b)
    ensures Ordered(b)
  {}

  lemma {:induction false} RoundKeeps(nodes: seq<Node>, L: nat, sim: nat -> real, entry: nat, ef: nat, b: Beam)
    requires Searching(nodes, L, sim, entry, ef, b) && Pending(nodes, L, b, |nodes|)
    requires Inside(b, |nodes|) && b.cand != []
    ensures var r := Round(nodes, L, sim, ef, b);
      Searching(nodes, L, sim, entry, ef, r) && Pending(nodes, L, r, |nodes|)
  {
    hide Best, Reachable, AscendingScores;
    var top, rest := b.cand[|b.cand| - 1], b.cand[..|b.cand| - 1];
    PoppedKeeps(nodes, L, sim, entry, ef, b);
    if top.score < b.result[0].score && |b.result| >= ef {
      WeakFrontierIsDone(nodes, L, b);
      NothingIsOrdered(b, sim);
    } else {
      var popped, links := b.(cand := rest), Neighbours(nodes, top.doc, L);
      VisitAllKeeps(nodes, L, sim, entry, ef, popped, top.doc, links);
      var r := VisitAll(popped, |nodes|, links, sim, ef);
      assert Expanded(nodes, L, r.visited, top.doc);
    }
  }

  lemma {:induction false} NothingIsOrdered(b: Beam, sim: nat -> real)
    requires Ordered(b)
    ensures Ordered(b.(cand := [])) && ExactHits([], b.visited, sim)
  {}

  /** Taking the best candidate off the frontier singles it out as the node being expanded. */
  lemma {:induction false} PoppedKeeps(nodes: seq<Node>, L: nat, sim: nat -> real, entry: nat, ef: nat, b: Beam)
    requires Searching(nodes, L, sim, entry, ef, b) && Pending(nodes, L, b, |nodes|)
    requires Inside(b, |nodes|) && b.cand != []
    ensures var top, popped := b.cand[|b.cand| - 1], b.(cand := b.cand[..|b.cand| - 1]);
      top.doc < |nodes| && top.doc in b.visited && Inside(popped, |nodes|)
      && Searching(nodes, L, sim, entry, ef, popped) && Pending(nodes, L, popped, top.doc)
  {
    hide Best, Reachable;
    var top, rest := b.cand[|b.cand| - 1], b.cand[..|b.cand| - 1];
    assert b.cand == rest + [top];
    forall h | h in b.cand ensures h in rest || h == top {}
  }

  /** When even the best candidate is weaker than every kept node, every kept node is done. */
  lemma {:induction false} WeakFrontierIsDone(nodes: seq<Node>, L: nat, b: Beam)
    requires Ordered(b) && b.cand != [] && Pending(nodes, L, b, |nodes|)
    requires b.cand[|b.cand| - 1].score < b.result[0].score
    ensures Pending(nodes, L, b.(cand := []), |nodes|)
  {
    forall i | 0 <= i < |b.result| ensures b.result[i] !in b.cand {
      forall j | 0 <= j < |b.cand| ensures b.cand[j].score < b.result[i].score {}
    }
  }

  lemma {:induction false} FinishKeeps(nodes: seq<Node>, L: nat, sim: nat -> real, entry: nat, ef: nat, b: Beam)
    requires Searching(nodes, L, sim, entry, ef, b) && Pending(nodes, L, b, |nodes|) && Ordered(b) && Inside(b, |nodes|)
    ensures var r := Finish(nodes, L, sim, ef, b);
      r.cand == [] && Searching(nodes, L, sim, entry, ef, r) && Pending(nodes, L, r, |nodes|)
    decreases |nodes| - |b.visited|, |b.cand|
  {
    hide Searching, Pending;
    if b.cand != [] {
      var r := Round(nodes, L, sim, ef, b);
      RoundKeeps(nodes, L, sim, entry, ef, b);
      Progress(|nodes|, b, r);
      FinishKeeps(nodes, L, sim, entry, ef, r);
    }
  }

  lemma {:induction false} DrainedBest(result: seq<Hit>, visited: set<nat>, sim: nat -> real, e: nat)
    requires Best(result, visited, sim, e)
    ensures var out := Drained(result);
      && Distinct(out)
      && (forall i :: 0 <= i < |out| ==> out[i] in visited)
      && (forall i, j :: 0 <= i < j < |out| ==> sim(out[i]) >= sim(out[j]))
      && forall v, i :: v in visited && v !in out && 0 <= i < |out| ==> sim(v) <= sim(out[i])
  {
    var out, n := Drained(result), |result|;
    forall v, i | v in visited && v !in out && 0 <= i < |out| ensures sim(v) <= sim(out[i]) {
      forall p | 0 <= p < n ensures result[p].doc != v { assert out[n - 1 - p] == result[p].doc; }
      assert out[i] == result[n - 1 - i].doc;
    }
  }

  lemma {:induction false} DrainedIsFound(nodes: seq<Node>, L: nat, sim: nat -> real, entry: nat, ef: nat, b: Beam)
    requires Searching(nodes, L, sim, entry, ef, b) && Pending(nodes, L, b, |nodes|) && b.cand == []
    ensures Found(nodes, L, sim, entry, ef, b.visited, Drained(b.result))
  {
    hide Reachable, Expanded, Drained;
    var out, n := Drained(b.result), |b.result|;
    DrainedBest(b.result, b.visited, sim, Width(ef));
    forall i | 0 <= i < |out| && out[i] < |nodes| ensures Expanded(nodes, L, b.visited, out[i]) {
      assert out[i] == b.result[n - 1 - i].doc;
    }
  }

  /** Everything a search visits. */
  ghost function VisitedBy(nodes: seq<Node>, L: nat, sim: nat -> real, entry: nat, ef: nat): set<nat>
    requires entry < |nodes|
  {
    Finish(nodes, L, sim, ef, Start(entry, sim)).visited
  }

  /** A search ends with the best of everything it visited, and nothing left to expand. */
  lemma {:induction false} SearchFinds(nodes: seq<Node>, L: nat, sim: nat -> real, entry: nat, ef: nat)
    requires entry < |nodes|
    ensures Found(nodes, L, sim, entry, ef, VisitedBy(nodes, L, sim, entry, ef), Search(nodes, L, sim, entry, ef))
  {
    hide Best, Found;
    StartSearching(nodes, L, sim, entry, ef);
    FinishKeeps(nodes, L, sim, entry, ef, Start(entry, sim));
    DrainedIsFound(nodes, L, sim, entry, ef, Finish(nodes, L, sim, ef, Start(entry, sim)));
  }

  lemma {:induction false} StartSearching(nodes: seq<Node>, L: nat, sim: nat -> real, entry: nat, ef: nat)
    requires entry < |nodes|
    ensures Searching(nodes, L, sim, entry, ef, Start(entry, sim)) && Pending(nodes, L, Start(entry, sim), |nodes|)
  {
    EntryReachable(nodes, L, entry);
    var first := [Hit(entry, sim(entry))];
    assert first[0].doc == entry;
  }

  // ----- The loops -----

  /** Score one neighbour the first time it is seen. */
  method VisitNeighbour(sc: Scratch, sim: nat -> real, ef: nat, nb: nat)
    requires sc.Valid() && Ordered(sc.State()) && nb < sc.visitEpoch.Length
    modifies sc, sc.visitEpoch
    ensures sc.Valid() && sc.visitEpoch == old(sc.visitEpoch)
    ensures sc.State() == Visit(old(sc.State()), nb, sim, ef)
  {
    hide Scratch.Visited, Scratch.Valid;
    var isNew := sc.Mark(nb);
    if !isNew { return; }
    var x := Hit(nb, sim(nb));
    if |sc.result| < ef {
      sc.result := InsertByScore(sc.result, x);
      sc.cand := InsertByScore(sc.cand, x);
    } else if x.score > sc.result[0].score {
      sc.result := InsertByScore(sc.result[1..], x);
      sc.cand := InsertByScore(sc.cand, x);
    }
  }

  /** Beam search of layer L from `entry`. */
  method SearchLayer(sc: Scratch, nodes: seq<Node>, sim: nat -> real, entry: nat, L: nat, ef: nat) returns (out: seq<nat>)
    requires sc.Valid() && entry < |nodes|
    modifies sc, sc.visitEpoch
    ensures sc.Valid() && (sc.visitEpoch == old(sc.visitEpoch) || fresh(sc.visitEpoch))
    ensures out == Search(nodes, L, sim, entry, ef)
    ensures Found(nodes, L, sim, entry, ef, VisitedBy(nodes, L, sim, entry, ef), out)
  {
    hide Found, Round, AscendingScores, Start, Finish;
    BeginSearch(sc, |nodes|, sim, entry);
    while sc.cand != []
      invariant sc.Valid() && sc.visitEpoch.Length >= |nodes|
      invariant sc.visitEpoch == old(sc.visitEpoch) || fresh(sc.visitEpoch)
      invariant Ordered(sc.State()) && Inside(sc.State(), |nodes|)
      invariant Finish(nodes, L, sim, ef, sc.State()) == Finish(nodes, L, sim, ef, Start(entry, sim))
      decreases |nodes| - |sc.Visited()|, |sc.cand|
    {
      ghost var before := sc.State();
      FinishStep(nodes, L, sim, ef, before);
      SearchRound(sc, nodes, sim, L, ef);
      Progress(|nodes|, before, sc.State());
    }
    FinishStep(nodes, L, sim, ef, sc.State());
    out := Drained(sc.result);
    SearchFinds(nodes, L, sim, entry, ef);
  }

  lemma {:induction false} FinishStep(nodes: seq<Node>, L: nat, sim: nat -> real, ef: nat, b: Beam)
    requires Ordered(b) && Inside(b, |nodes|)
    ensures Finish(nodes, L, sim, ef, b) ==
      if b.cand == [] then b else Finish(nodes, L, sim, ef, Round(nodes, L, sim, ef, b))
  {}

  method BeginSearch(sc: Scratch, n: nat, sim: nat -> real, entry: nat)
    requires sc.Valid() && entry < n
    modifies sc, sc.visitEpoch
    ensures sc.Valid() && (sc.visitEpoch == old(sc.visitEpoch) || fresh(sc.visitEpoch))
    ensures sc.visitEpoch.Length >= n
    ensures sc.State() == Start(entry, sim) && Inside(sc.State(), n)
  {
    hide Scratch.Visited, Scratch.Valid;
    sc.Reset(n);
    var first := Hit(entry, sim(entry));
    var _ := sc.Mark(entry);
    sc.cand, sc.result := [first], [first];
  }

  method SearchRound(sc: Scratch, nodes: seq<Node>, sim: nat -> real, L: nat, ef: nat)
    requires sc.Valid() && sc.visitEpoch.Length >= |nodes| && sc.cand != []
    requires Ordered(sc.State()) && Inside(sc.State(), |nodes|)
    modifies sc, sc.visitEpoch
    ensures sc.Valid() && sc.visitEpoch == old(sc.visitEpoch)
    ensures sc.State() == Round(nodes, L, sim, ef, old(sc.State()))
  {
    hide AscendingScores, Visit, Scratch.Visited, Scratch.Valid;
    ghost var before := sc.State();
    var last := |sc.cand| - 1;
    var top := sc.cand[last];
    assert top in sc.cand;
    sc.cand := sc.cand[..last];
    assert sc.State() == before.(cand := sc.cand);
    if top.score < sc.result[0].score && |sc.result| >= ef {
      sc.cand := [];
      return;
    }
    var links := Neighbours(nodes, top.doc, L);
    ghost var popped := sc.State();
    for i := 0 to |links|
      invariant sc.Valid() && sc.visitEpoch == old(sc.visitEpoch)
      invariant Ordered(popped) && Inside(popped, |nodes|)
      invariant sc.State() == VisitAll(popped, |nodes|, links[..i], sim, ef)
    {
      assert links[..i + 1][..i] == links[..i];
      var nb := links[i];
      if nb >= |nodes| { continue; }
      VisitNeighbour(sc, sim, ef, nb);
    }
    assert links[..|links|] == links;
  }
}
