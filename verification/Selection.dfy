/** Choosing a node's neighbours among scored candidates: diverse ones first, then the best of the rest. */
module Selection {
  import opened Sets
  import opened TopK
  import opened ScoreHeap

  // ----- Scoring -----

  /** Score every candidate against the node once and sort best first. */
  function Scored(cands: seq<nat>, node: nat, near: (nat, nat) -> real): (s: seq<Hit>)
    ensures |s| == |cands| && Descending(s)
    ensures forall h :: h in s <==> h.doc in cands && h.score == near(node, h.doc)
    ensures Distinct(cands) ==> DistinctDocs(s)
  {
    if cands == [] then []
    else
      var last, rest := cands[|cands| - 1], cands[..|cands| - 1];
      var s := Scored(rest, node, near);
      assert cands == rest + [last];
      assert Distinct(cands) ==> Distinct(rest) && last !in rest;
      assert last !in rest ==> !Listed(s, last) by {
        forall i | 0 <= i < |s| ensures s[i].doc in rest { assert s[i] in s; }
      }
      InsertDescending(s, Hit(last, near(node, last)))
  }

  lemma {:induction false} ScoredNone(node: nat, near: (nat, nat) -> real)
    ensures Scored([], node, near) == []
  {}

  lemma {:induction false} ScoredSnoc(cands: seq<nat>, i: nat, node: nat, near: (nat, nat) -> real)
    requires i < |cands|
    ensures Descending(Scored(cands[..i], node, near))
    ensures Scored(cands[..i + 1], node, near) ==
      InsertDescending(Scored(cands[..i], node, near), Hit(cands[i], near(node, cands[i])))
  {
    hide InsertDescending;
    assert cands[..i + 1][..i] == cands[..i];
  }

  method ScoreAndSort(node: nat, cands: seq<nat>, near: (nat, nat) -> real) returns (s: seq<Hit>)
    ensures s == Scored(cands, node, near)
  {
    hide Scored, InsertDescending, Descending;
    s := [];
    ScoredNone(node, near);
    for i := 0 to |cands|
      invariant s == Scored(cands[..i], node, near)
    {
      ScoredSnoc(cands, i, node, near);
      s := InsertDescending(s, Hit(cands[i], near(node, cands[i])));
    }
    assert cands[..|cands|] == cands;
  }

  // ----- The diversity heuristic -----

  /** Some already picked neighbour is nearer to the candidate than the node is. */
  ghost predicate Covered(c: Hit, picked: seq<nat>, near: (nat, nat) -> real) {
    exists i :: 0 <= i < |picked| && near(c.doc, picked[i]) > c.score
  }

  /** First pass: candidates no pick covers, best first, until M are picked. */
  ghost function Diverse(scored: seq<Hit>, M: nat, near: (nat, nat) -> real): seq<nat> {
    if scored == [] then []
    else
      var p, c := Diverse(scored[..|scored| - 1], M, near), scored[|scored| - 1];
      if |p| >= M || Covered(c, p, near) then p else p + [c.doc]
  }

  /** Second pass: the best remaining candidates, until M are picked. */
  ghost function Backfill(scored: seq<Hit>, M: nat, picked: seq<nat>): seq<nat> {
    if scored == [] then picked
    else
      var p, c := Backfill(scored[..|scored| - 1], M, picked), scored[|scored| - 1];
      if |p| >= M || c.doc in p then p else p + [c.doc]
  }

  ghost function Selected(scored: seq<Hit>, M: nat, near: (nat, nat) -> real): seq<nat> {
    Backfill(scored, M, Diverse(scored, M, near))
  }

  /** Whether some pick covers the candidate, by scanning the picks. */
  method IsCovered(c: Hit, picked: seq<nat>, near: (nat, nat) -> real) returns (covered: bool)
    ensures covered <==> Covered(c, picked, near)
  {
    for i := 0 to |picked|
      invariant forall j :: 0 <= j < i ==> near(c.doc, picked[j]) <= c.score
    {
      if near(c.doc, picked[i]) > c.score { return true; }
    }
    covered := false;
  }

  method SelectNeighbours(scored: seq<Hit>, M: nat, near: (nat, nat) -> real) returns (picked: seq<nat>)
    ensures picked == Selected(scored, M, near)
  {
    hide Covered;
    picked := [];
    for i := 0 to |scored|
      invariant picked == Diverse(scored[..i], M, near)
    {
      if |picked| >= M {
        DiverseFull(scored, i, M, near);
        break;
      }
      assert scored[..i + 1][..i] == scored[..i];
      var covered := IsCovered(scored[i], picked, near);
      if !covered { picked := picked + [scored[i].doc]; }
    }
    assert scored[..|scored|] == scored;
    ghost var diverse := picked;
    if |picked| < M {
      for i := 0 to |scored|
        invariant picked == Backfill(scored[..i], M, diverse)
      {
        if |picked| >= M {
          BackfillFull(scored, i, M, diverse);
          break;
        }
        assert scored[..i + 1][..i] == scored[..i];
        if scored[i].doc !in picked { picked := picked + [scored[i].doc]; }
      }
    } else {
      BackfillFull(scored, 0, M, diverse);
    }
  }

  /** Once M are picked the rest of the candidates changes nothing. */
  lemma {:induction false} DiverseFull(scored: seq<Hit>, i: nat, M: nat, near: (nat, nat) -> real)
    requires i <= |scored| && |Diverse(scored[..i], M, near)| >= M
    ensures Diverse(scored, M, near) == Diverse(scored[..i], M, near)
    decreases |scored| - i
  {
    if i < |scored| {
      assert scored[..i + 1][..i] == scored[..i];
      DiverseFull(scored, i + 1, M, near);
    } else {
      assert scored[..i] == scored;
    }
  }

  lemma {:induction false} BackfillFull(scored: seq<Hit>, i: nat, M: nat, picked: seq<nat>)
    requires i <= |scored| && |Backfill(scored[..i], M, picked)| >= M
    ensures Backfill(scored, M, picked) == Backfill(scored[..i], M, picked)
    decreases |scored| - i
  {
    if i < |scored| {
      assert scored[..i + 1][..i] == scored[..i];
      BackfillFull(scored, i + 1, M, picked);
    } else {
      assert scored[..i] == scored;
    }
  }

  // ----- What is selected -----

  ghost predicate AmongHits(s: seq<nat>, scored: seq<Hit>) {
    forall i :: 0 <= i < |s| ==> Listed(scored, s[i])
  }

  /** Every pick is at least as near to the node as to each earlier pick. */
  ghost predicate Spread(s: seq<nat>, scored: seq<Hit>, near: (nat, nat) -> real) {
    forall i, j, c: Hit :: 0 <= j < i < |s| && c in scored && c.doc == s[i] ==> near(s[i], s[j]) <= c.score
  }

  /**
   * The first part of a selection is spread out; it is cut short only when every candidate outside it is covered by it,
   * and a candidate left out of the second part is no better than those taken there.
   */
  ghost predicate WellSelected(scored: seq<Hit>, M: nat, near: (nat, nat) -> real, k: nat, s: seq<nat>) {
    && k <= |s| == Min(M, |scored|)
    && Distinct(s) && AmongHits(s, scored)
    && Spread(s[..k], scored, near)
    && (k < M ==> forall c :: c in scored && c.doc !in s[..k] ==> Covered(c, s[..k], near))
    && (forall c, d :: c in scored && d in scored && c.doc in s[k..] && d.doc !in s ==> d.score <= c.score)
  }

  lemma {:induction false} PrefixDistinct(scored: seq<Hit>)
    requires DistinctDocs(scored) && scored != []
    ensures var less := scored[..|scored| - 1];
      DistinctDocs(less) && !Listed(less, scored[|scored| - 1].doc) && scored == less + [scored[|scored| - 1]]
  {}

  lemma {:induction false} StillListed(less: seq<Hit>, c: Hit, s: seq<nat>)
    requires AmongHits(s, less)
    ensures AmongHits(s, less + [c]) && Listed(less + [c], c.doc)
  {
    var more := less + [c];
    assert more[|less|] == c;
    forall i | 0 <= i < |s| ensures Listed(more, s[i]) {
      var p :| 0 <= p < |less| && less[p].doc == s[i];
      assert more[p] == less[p];
    }
  }

  lemma {:induction false} CoveredByMore(c: Hit, p: seq<nat>, x: nat, near: (nat, nat) -> real)
    requires Covered(c, p, near)
    ensures Covered(c, p + [x], near)
  {
    var i :| 0 <= i < |p| && near(c.doc, p[i]) > c.score;
    assert (p + [x])[i] == p[i];
  }

  /** What the first pass guarantees. */
  lemma {:induction false} DiverseIsSpread(scored: seq<Hit>, M: nat, near: (nat, nat) -> real)
    requires DistinctDocs(scored)
    ensures var p := Diverse(scored, M, near);
      && |p| <= M && Distinct(p) && AmongHits(p, scored) && Spread(p, scored, near)
      && (|p| < M ==> forall c :: c in scored && c.doc !in p ==> Covered(c, p, near))
  {
    if scored != [] {
      var less, c := scored[..|scored| - 1], scored[|scored| - 1];
      PrefixDistinct(scored);
      DiverseIsSpread(less, M, near);
      DiverseStep(less, c, M, near, Diverse(less, M, near));
    }
  }

  lemma {:induction false} DiverseStep(less: seq<Hit>, c: Hit, M: nat, near: (nat, nat) -> real, p: seq<nat>)
    requires |p| <= M && Distinct(p) && AmongHits(p, less) && Spread(p, less, near) && !Listed(less, c.doc)
    requires |p| < M ==> forall d :: d in less && d.doc !in p ==> Covered(d, p, near)
    ensures var scored, q := less + [c], if |p| >= M || Covered(c, p, near) then p else p + [c.doc];
      && |q| <= M && Distinct(q) && AmongHits(q, scored) && Spread(q, scored, near)
      && (|q| < M ==> forall d :: d in scored && d.doc !in q ==> Covered(d, q, near))
  {
    StillListed(less, c, p);
    if |p| >= M || Covered(c, p, near) {
      SpreadKept(less, c, near, p);
      hide Spread, AmongHits;
      assert |p| < M ==> forall d :: d in less + [c] && d.doc !in p ==> d in less || d == c;
    } else {
      PickKept(less, c, near, p);
      hide Covered, Spread, AmongHits;
      if |p| + 1 < M {
        forall d | d in less + [c] && d.doc !in p + [c.doc] ensures Covered(d, p + [c.doc], near) {
          CoveredByMore(d, p, c.doc, near);
        }
      }
    }
  }

  /** A new candidate changes nothing about what is already picked. */
  lemma {:induction false} SpreadKept(less: seq<Hit>, c: Hit, near: (nat, nat) -> real, p: seq<nat>)
    requires AmongHits(p, less) && Spread(p, less, near) && !Listed(less, c.doc)
    ensures Spread(p, less + [c], near) && c.doc !in p
  {
    forall i | 0 <= i < |p| ensures p[i] != c.doc { assert Listed(less, p[i]); }
    forall d: Hit | d in less + [c] && d.doc in p ensures d in less {}
  }

  /** Picking a candidate no pick covers. */
  lemma {:induction false} PickKept(less: seq<Hit>, c: Hit, near: (nat, nat) -> real, p: seq<nat>)
    requires Distinct(p) && AmongHits(p, less) && Spread(p, less, near) && !Listed(less, c.doc) && !Covered(c, p, near)
    ensures Distinct(p + [c.doc]) && AmongHits(p + [c.doc], less + [c]) && Spread(p + [c.doc], less + [c], near)
  {
    StillListed(less, c, p);
    SpreadKept(less, c, near, p);
    var scored, q := less + [c], p + [c.doc];
    forall i, j, d: Hit | 0 <= j < i < |q| && d in scored && d.doc == q[i] ensures near(q[i], q[j]) <= d.score {
      assert q[j] == p[j];
      if i < |p| {
        assert q[i] == p[i];
      } else {
        UnlistedOnly(less, c, d);
      }
    }
  }

  lemma {:induction false} UnlistedOnly(less: seq<Hit>, c: Hit, d: Hit)
    requires !Listed(less, c.doc) && d in less + [c] && d.doc == c.doc
    ensures d == c
  {
    assert forall i :: 0 <= i < |less| ==> less[i].doc != c.doc;
  }

  /** What the second pass adds. */
  lemma {:induction false} BackfillTakesBest(scored: seq<Hit>, M: nat, picked: seq<nat>, all: seq<Hit>)
    requires DistinctDocs(all) && Descending(all) && scored <= all
    requires |picked| <= M && Distinct(picked) && AmongHits(picked, all)
    ensures var s := Backfill(scored, M, picked);
      && picked <= s && |s| <= M && Distinct(s) && AmongHits(s, all)
      && (|s| < M ==> forall c :: c in scored ==> c.doc in s)
      && (forall c, d :: c in scored && d in scored && c.doc in s[|picked|..] && d.doc !in s ==> d.score <= c.score)
      && (forall i :: |picked| <= i < |s| ==> Listed(scored, s[i]))
  {
    if scored != [] {
      var less, c := scored[..|scored| - 1], scored[|scored| - 1];
      assert scored == less + [c] && all[|less|] == c;
      BackfillTakesBest(less, M, picked, all);
      BackfillStep(less, c, M, picked, Backfill(less, M, picked), all);
    }
  }

  lemma {:induction false} BackfillStep(less: seq<Hit>, c: Hit, M: nat, picked: seq<nat>, p: seq<nat>, all: seq<Hit>)
    requires DistinctDocs(all) && Descending(all) && less + [c] <= all
    requires picked <= p && |p| <= M && Distinct(p) && AmongHits(p, all)
    requires |p| < M ==> forall d :: d in less ==> d.doc in p
    requires forall d, e :: d in less && e in less && d.doc in p[|picked|..] && e.doc !in p ==> e.score <= d.score
    requires forall i :: |picked| <= i < |p| ==> Listed(less, p[i])
    ensures var scored, s := less + [c], if |p| >= M || c.doc in p then p else p + [c.doc];
      && picked <= s && |s| <= M && Distinct(s) && AmongHits(s, all)
      && (|s| < M ==> forall d :: d in scored ==> d.doc in s)
      && (forall d, e :: d in scored && e in scored && d.doc in s[|picked|..] && e.doc !in s ==> e.score <= d.score)
      && (forall i :: |picked| <= i < |s| ==> Listed(scored, s[i]))
  {
    var scored, s := less + [c], if |p| >= M || c.doc in p then p else p + [c.doc];
    assert all[|less|] == c;
    forall i | |picked| <= i < |s| ensures Listed(scored, s[i]) {
      if i < |p| {
        var q :| 0 <= q < |less| && less[q].doc == p[i];
        assert scored[q] == less[q];
      } else {
        assert scored[|less|] == c;
      }
    }
    forall d, e | d in scored && e in scored && d.doc in s[|picked|..] && e.doc !in s ensures e.score <= d.score {
      if e == c {
        EarlierIsBetter(less, c, d, all);
      } else if s == p {
        TakenBefore(less, c, d, picked, p, all);
      }
    }
  }

  lemma {:induction false} EarlierIsBetter(less: seq<Hit>, c: Hit, d: Hit, all: seq<Hit>)
    requires Descending(all) && less + [c] <= all && d in less + [c]
    ensures c.score <= d.score
  {
    var i :| 0 <= i < |less| + 1 && (less + [c])[i] == d;
    assert all[i] == d && all[|less|] == c;
  }

  /** A backfilled pick is one of the candidates looked at so far. */
  lemma {:induction false} TakenBefore(less: seq<Hit>, c: Hit, d: Hit, picked: seq<nat>, p: seq<nat>, all: seq<Hit>)
    requires DistinctDocs(all) && less + [c] <= all && picked <= p && d in less + [c] && d.doc in p[|picked|..]
    requires forall i :: |picked| <= i < |p| ==> Listed(less, p[i])
    ensures d in less
  {
    var i :| |picked| <= i < |p| && p[i] == d.doc;
    var q :| 0 <= q < |less| && less[q].doc == d.doc;
    var t :| 0 <= t < |less| + 1 && (less + [c])[t] == d;
    assert all[q] == less[q] && all[t] == d;
  }

  /** The heuristic returns min(M, candidates) distinct candidates: a spread-out part, then the best of the covered rest. */
  lemma {:induction false} SelectedIsWell(scored: seq<Hit>, M: nat, near: (nat, nat) -> real)
    requires DistinctDocs(scored) && Descending(scored)
    ensures WellSelected(scored, M, near, |Diverse(scored, M, near)|, Selected(scored, M, near))
  {
    var p, s := Diverse(scored, M, near), Selected(scored, M, near);
    DiverseIsSpread(scored, M, near);
    BackfillTakesBest(scored, M, p, scored);
    assert s[..|p|] == p;
    SelectedSize(scored, M, s);
  }

  lemma {:induction false} SelectedSize(scored: seq<Hit>, M: nat, s: seq<nat>)
    requires DistinctDocs(scored) && Distinct(s) && AmongHits(s, scored) && |s| <= M
    requires |s| < M ==> forall c :: c in scored ==> c.doc in s
    ensures |s| == Min(M, |scored|)
  {
    var docs := DocsOf(scored);
    DocsOfSize(scored);
    var picks := ElementsOf(s);
    DistinctSize(s);
    forall x | x in picks ensures x in docs {
      var i :| 0 <= i < |s| && s[i] == x;
      var q :| 0 <= q < |scored| && scored[q].doc == s[i];
    }
    SubsetSize(picks, docs);
    if |s| < M {
      forall x | x in docs ensures x in picks {
        var q :| 0 <= q < |scored| && scored[q].doc == x;
        assert scored[q] in scored;
      }
      SubsetSize(docs, picks);
    }
  }
}
