/** Community detection by in-place label propagation: what a sweep improves, and why sweeps settle. */
module LabelPropagation {
  import opened Sets
  import opened Sums
  import opened Adjacency
  import opened MinLabels

  function SameAs(labels: seq<nat>, lab: nat): int -> real {
    (x: int) => if 0 <= x < |labels| && labels[x] == lab then 1.0 else 0.0
  }

  /** The weight of the neighbours that carry label lab. */
  ghost function Vote(l: seq<Link>, labels: seq<nat>, lab: nat): real { LinkSum(l, SameAs(labels, lab)) }

  /** The weight of the links to v, when v bears the label. */
  ghost function BearerWeight(l: seq<Link>, labels: seq<nat>, lab: nat): int -> real {
    (v: int) => if 0 <= v < |labels| && labels[v] == lab then Weight(l, v) else 0.0
  }

  /** A label's vote is the weight of the links to all nodes that bear it. */
  lemma {:induction false} VoteByBearers(l: seq<Link>, labels: seq<nat>, lab: nat)
    requires forall i :: 0 <= i < |l| ==> l[i].0 < |labels|
    ensures Vote(l, labels, lab) == Sum(|labels|, BearerWeight(l, labels, lab))
  {
    hide Weight, Sum;
    LinkSumAsSum(l, |labels|, SameAs(labels, lab));
    SumEqual(|labels|, WeightTimes(l, SameAs(labels, lab)), BearerWeight(l, labels, lab));
  }

  ghost predicate Labelling(labels: seq<nat>, n: nat) {
    |labels| == n && forall u :: 0 <= u < n ==> labels[u] < n
  }

  // ----- The potential -----

  ghost function Agreement(adj: Adj, labels: seq<nat>): int -> real {
    (u: int) => if 0 <= u < |adj| && u < |labels| then Vote(adj[u], labels, labels[u]) else 0.0
  }

  /** The total weight of links between nodes with equal labels (each link counted from both ends). */
  ghost function Potential(adj: Adj, labels: seq<nat>): real { Sum(|adj|, Agreement(adj, labels)) }

  function Choice(c: bool): real { if c then 1.0 else 0.0 }

  /** How much better label b suits a neighbour labelled as x is than label a does. */
  ghost function Shift(labels: seq<nat>, a: nat, b: nat): int -> real {
    (x: int) => if 0 <= x < |labels| then Choice(labels[x] == b) - Choice(labels[x] == a) else 0.0
  }

  lemma {:induction false} ShiftVotes(l: seq<Link>, labels: seq<nat>, a: nat, b: nat)
    ensures LinkSum(l, Shift(labels, a, b)) == Vote(l, labels, b) - Vote(l, labels, a)
  {
    LinkSumLinear(l, SameAs(labels, b), -1.0, SameAs(labels, a), Shift(labels, a, b));
  }

  /** Relabelling u changes the agreement of another node x by the weight between them. */
  lemma {:induction false} OtherAgreement(adj: Adj, labels: seq<nat>, u: nat, b: nat, x: nat)
    requires u < |labels| == |adj| && x < |adj| && x != u
    ensures Agreement(adj, labels[u := b])(x)
         == Agreement(adj, labels)(x) + Shift(labels, labels[u], b)(x) * Weight(adj[x], u)
  {
    var c := Shift(labels, labels[u], b)(x);
    LinkSumLinear(adj[x], SameAs(labels, labels[x]), c, Indicator(u), SameAs(labels[u := b], labels[x]));
  }

  lemma {:induction false} OwnAgreement(adj: Adj, labels: seq<nat>, u: nat, b: nat)
    requires u < |labels| == |adj| && LinksOk(adj[u], u, |adj|)
    ensures Agreement(adj, labels[u := b])(u) == Vote(adj[u], labels, b)
    ensures Weight(adj[u], u) == 0.0
  {
    LinkSumEqual(adj[u], SameAs(labels[u := b], b), SameAs(labels, b));
    LinkSumEqual(adj[u], Indicator(u), (x: int) => 0.0);
    LinkSumLinear(adj[u], (x: int) => 0.0, -1.0, (x: int) => 0.0, (x: int) => 0.0);
    assert LinkSum(adj[u], (x: int) => 0.0) == 0.0;
  }

  /** Agreement plus what every node would gain from u's relabelling. */
  ghost function Shifted(adj: Adj, labels: seq<nat>, u: nat, b: nat): int -> real
    requires u < |adj| && u < |labels|
  {
    (x: int) => Agreement(adj, labels)(x) + WeightTimes(adj[u], Shift(labels, labels[u], b))(x)
  }

  /** Giving u label b changes the potential by twice the difference of the two labels' votes. */
  lemma {:induction false} RelabelPotential(adj: Adj, labels: seq<nat>, u: nat, b: nat)
    requires GraphOk(adj) && u < |adj| == |labels|
    ensures Potential(adj, labels[u := b])
         == Potential(adj, labels) + 2.0 * (Vote(adj[u], labels, b) - Vote(adj[u], labels, labels[u]))
  {
    var n, next := |adj|, labels[u := b];
    var shift := Shift(labels, labels[u], b);
    forall x | 0 <= x < n && x != u ensures Shifted(adj, labels, u, b)(x) == Agreement(adj, next)(x) {
      OtherAgreement(adj, labels, u, b, x);
      assert Weight(adj[x], u) == Weight(adj[u], x);
    }
    SumChangeOne(n, Shifted(adj, labels, u, b), Agreement(adj, next), u);
    SumPlus(n, Agreement(adj, labels), WeightTimes(adj[u], shift), Shifted(adj, labels, u, b));
    LinkSumAsSum(adj[u], n, shift);
    ShiftVotes(adj[u], labels, labels[u], b);
    OwnAgreement(adj, labels, u, b);
    assert WeightTimes(adj[u], shift)(u) == 0.0 * shift(u);
  }

  // ----- Progress -----

  ghost function LabelSum(labels: seq<nat>): nat {
    if labels == [] then 0 else LabelSum(labels[..|labels| - 1]) + labels[|labels| - 1]
  }

  /** More agreement, or as much with smaller labels. */
  ghost predicate Better(adj: Adj, next: seq<nat>, labels: seq<nat>) {
    Potential(adj, next) > Potential(adj, labels)
    || (Potential(adj, next) == Potential(adj, labels) && LabelSum(next) < LabelSum(labels))
  }

  lemma {:induction false} LabelSumUpdate(labels: seq<nat>, u: nat, b: nat)
    requires u < |labels|
    ensures LabelSum(labels[u := b]) == LabelSum(labels) - labels[u] + b
  {
    var r := labels[..|labels| - 1];
    if u < |labels| - 1 {
      LabelSumUpdate(r, u, b);
      assert labels[u := b][..|labels| - 1] == r[u := b];
    } else {
      assert labels[u := b][..|labels| - 1] == r;
    }
  }

  /** b is the heaviest label among u's neighbours, the smallest one on ties. */
  ghost predicate Winner(l: seq<Link>, labels: seq<nat>, b: nat) {
    && (exists i :: 0 <= i < |l| && l[i].0 < |labels| && labels[l[i].0] == b)
    && (forall i :: 0 <= i < |l| && l[i].0 < |labels| ==>
         Vote(l, labels, labels[l[i].0]) < Vote(l, labels, b)
         || (Vote(l, labels, labels[l[i].0]) == Vote(l, labels, b) && b <= labels[l[i].0]))
  }

  ghost predicate Carried(l: seq<Link>, labels: seq<nat>, lab: nat) {
    exists i :: 0 <= i < |l| && l[i].0 < |labels| && labels[l[i].0] == lab
  }

  predicate Beats(b: nat, bw: real, c: nat, w: real) { w < bw || (w == bw && b <= c) }

  /** b with bw votes comes out ahead of every label carried by a neighbour, and of the own label with -1 vote. */
  ghost predicate Top(l: seq<Link>, labels: seq<nat>, own: nat, b: nat, bw: real) {
    && Beats(b, bw, own, -1.0)
    && forall i :: 0 <= i < |l| && l[i].0 < |labels| ==> Beats(b, bw, labels[l[i].0], Vote(l, labels, labels[l[i].0]))
  }

  /** The label a node settles on: the scan of the votes starts from its own label with -1 vote. */
  ghost predicate Chosen(l: seq<Link>, labels: seq<nat>, own: nat, b: nat) {
    || (b == own && Top(l, labels, own, b, -1.0))
    || (Carried(l, labels, b) && Top(l, labels, own, b, Vote(l, labels, b)))
  }

  lemma {:induction false} ChosenUnique(l: seq<Link>, labels: seq<nat>, own: nat, a: nat, b: nat)
    requires Chosen(l, labels, own, a) && Chosen(l, labels, own, b)
    ensures a == b
  {
    if Carried(l, labels, a) { var i :| 0 <= i < |l| && l[i].0 < |labels| && labels[l[i].0] == a; }
    if Carried(l, labels, b) { var j :| 0 <= j < |l| && l[j].0 < |labels| && labels[l[j].0] == b; }
  }

  /** A label no neighbour carries gets no votes. */
  lemma {:induction false} NoVotes(l: seq<Link>, labels: seq<nat>, u: nat, lab: nat)
    requires LinksOk(l, u, |labels|) && !Carried(l, labels, lab)
    ensures Vote(l, labels, lab) == 0.0
  {
    LinkSumEqual(l, SameAs(labels, lab), (x: int) => 0.0);
    LinkSumLinear(l, (x: int) => 0.0, -1.0, (x: int) => 0.0, (x: int) => 0.0);
  }

  /**
   * A change of label improves the labelling if and only if the old label was some neighbour's, or the new one has
   * positive votes, or it has none and is smaller.
   */
  lemma {:induction false} ChangeImproves(adj: Adj, labels: seq<nat>, u: nat, b: nat)
    requires GraphOk(adj) && Labelling(labels, |adj|) && u < |adj|
    requires Chosen(adj[u], labels, labels[u], b) && b != labels[u]
    ensures b < |adj| && Labelling(labels[u := b], |adj|)
    ensures var v := Vote(adj[u], labels, b);
      Better(adj, labels[u := b], labels)
      <==> Carried(adj[u], labels, labels[u]) || v > 0.0 || (v == 0.0 && b < labels[u])
  {
    hide LinkSum;
    var l := adj[u];
    var i :| 0 <= i < |l| && l[i].0 < |labels| && labels[l[i].0] == b;
    RelabelPotential(adj, labels, u, b);
    LabelSumUpdate(labels, u, b);
    hide Potential, LabelSum;
    if Carried(l, labels, labels[u]) {
      var j :| 0 <= j < |l| && l[j].0 < |labels| && labels[l[j].0] == labels[u];
      assert Beats(b, Vote(l, labels, b), labels[u], Vote(l, labels, labels[u]));
    } else {
      NoVotes(l, labels, u, labels[u]);
    }
  }

  // ----- Which graphs every change improves -----

  function One(): int -> real { (x: int) => 1.0 }

  /** The total weight of a node's links. */
  ghost function Degree(l: seq<Link>): real { LinkSum(l, One()) }

  /** Every node with links has positive total weight, as when every weight is positive. */
  ghost predicate Fed(adj: Adj) { forall u :: 0 <= u < |adj| && adj[u] != [] ==> Degree(adj[u]) > 0.0 }

  ghost function VotesFor(l: seq<Link>, labels: seq<nat>): int -> real {
    (lab: int) => if lab >= 0 then Vote(l, labels, lab) else 0.0
  }

  lemma {:induction false} VoteSnoc(l: seq<Link>, x: Link, labels: seq<nat>, lab: nat)
    requires x.0 < |labels|
    ensures Vote(l + [x], labels, lab) == Vote(l, labels, lab) + if labels[x.0] == lab then x.1 else 0.0
  {
    assert (l + [x])[..|l|] == l;
  }

  /** The votes for all labels together are the node's total weight. */
  lemma {:induction false} VotesAddUp(l: seq<Link>, labels: seq<nat>, n: nat)
    requires forall i :: 0 <= i < |l| ==> l[i].0 < |labels|
    requires forall v :: 0 <= v < |labels| ==> labels[v] < n
    ensures Sum(n, VotesFor(l, labels)) == Degree(l)
  {
    hide Sum, Vote;
    if l == [] {
      forall lab | 0 <= lab < n ensures VotesFor(l, labels)(lab) == 0.0 { NobodyVotes(labels, lab); }
      SumZero(n, VotesFor(l, labels));
    } else {
      var r, x := l[..|l| - 1], l[|l| - 1];
      assert l == r + [x] && forall i :: 0 <= i < |r| ==> r[i] == l[i];
      VotesAddUp(r, labels, n);
      forall lab | 0 <= lab < n && lab != labels[x.0] ensures VotesFor(l, labels)(lab) == VotesFor(r, labels)(lab) {
        VoteSnoc(r, x, labels, lab);
      }
      VoteSnoc(r, x, labels, labels[x.0]);
      SumChangeOne(n, VotesFor(r, labels), VotesFor(l, labels), labels[x.0]);
    }
  }

  lemma {:induction false} NobodyVotes(labels: seq<nat>, lab: nat)
    ensures Vote([], labels, lab) == 0.0
  {}

  /** In a node of positive total weight the label settled on has positive votes, and is a heaviest one. */
  lemma {:induction false} FedPicksWinner(l: seq<Link>, labels: seq<nat>, u: nat, own: nat, b: nat)
    requires LinksOk(l, u, |labels|) && Labelling(labels, |labels|) && Degree(l) > 0.0 && Chosen(l, labels, own, b)
    ensures Vote(l, labels, b) > 0.0 && Winner(l, labels, b)
  {
    hide Sum, LinkSum;
    var n := |labels|;
    var lab := SomePositive(n, VotesFor(l, labels)) by { VotesAddUp(l, labels, n); }
    if !Carried(l, labels, lab) { NoVotes(l, labels, u, lab); }
    var i :| 0 <= i < |l| && l[i].0 < |labels| && labels[l[i].0] == lab;
    assert !Top(l, labels, own, own, -1.0);
  }

  lemma {:induction false} SomePositive(n: nat, f: int -> real) returns (i: nat)
    requires Sum(n, f) > 0.0
    ensures i < n && f(i) > 0.0
  {
    if f(n - 1) > 0.0 {
      i := n - 1;
    } else {
      i := SomePositive(n - 1, f);
    }
  }

  /** Every change of label the loop can make, from whatever labelling, improves it. */
  ghost predicate AllImprove(adj: Adj) {
    forall labels, u: nat, b ::
      Labelling(labels, |adj|) && u < |adj| && Chosen(adj[u], labels, labels[u], b) && b != labels[u] ==>
        Better(adj, labels[u := b], labels)
  }

  function Among(group: set<int>): int -> real { (x: int) => if x in group then 1.0 else 0.0 }

  /** The weight of the links to a group of nodes. */
  ghost function GroupWeight(l: seq<Link>, group: set<int>): real { LinkSum(l, Among(group)) }

  /** Some of the neighbours weigh between -1 and 0 together. */
  ghost predicate Starves(l: seq<Link>) {
    exists group: set<int>, i :: 0 <= i < |l| && l[i].0 in group && -1.0 <= GroupWeight(l, group) <= 0.0
  }

  /**
   * Every change improves if and only if every node with links has positive total weight, or no group of neighbours that
   * weighs between -1 and 0: such a group can come out ahead of the own label's -1 without giving anything.
   */
  lemma {:induction false} AllImproveIffNoneStarves(adj: Adj)
    requires GraphOk(adj)
    ensures AllImprove(adj) <==> forall u :: 0 <= u < |adj| && adj[u] != [] ==> Degree(adj[u]) > 0.0 || !Starves(adj[u])
  {
    hide Better, Chosen, Degree, GraphOk, Starves, GroupWeight;
    if forall u :: 0 <= u < |adj| && adj[u] != [] ==> Degree(adj[u]) > 0.0 || !Starves(adj[u]) {
      forall labels, u: nat, b |
        Labelling(labels, |adj|) && u < |adj| && Chosen(adj[u], labels, labels[u], b) && b != labels[u]
        ensures Better(adj, labels[u := b], labels)
      {
        if adj[u] == [] || Degree(adj[u]) > 0.0 { FedImproves(adj, labels, u, b); } else { WorseStarves(adj, labels, u, b); }
      }
    } else {
      var u :| 0 <= u < |adj| && adj[u] != [] && Degree(adj[u]) <= 0.0 && Starves(adj[u]);
      if Degree(adj[u]) >= -1.0 {
        var labels, b := StarvedWorsens(adj, u);
      } else {
        var labels, b := DividedWorsens(adj, u);
      }
    }
  }

  /** A change that does not improve is to the label of a group that weighs between -1 and 0. */
  lemma {:induction false} WorseStarves(adj: Adj, labels: seq<nat>, u: nat, b: nat)
    requires GraphOk(adj) && Labelling(labels, |adj|) && u < |adj|
    requires Chosen(adj[u], labels, labels[u], b) && b != labels[u]
    ensures Better(adj, labels[u := b], labels) || Starves(adj[u])
  {
    ChangeImproves(adj, labels, u, b);
    var l, group := adj[u], set x: int | 0 <= x < |labels| && labels[x] == b;
    LinkSumEqual(l, SameAs(labels, b), Among(group));
    assert Vote(l, labels, b) == GroupWeight(l, group);
    hide Vote, GroupWeight, Better;
    var i :| 0 <= i < |l| && l[i].0 < |labels| && labels[l[i].0] == b;
    assert l[i].0 in group;
  }

  /** When no total lies at -1 or below: every change improves if and only if every node with links has positive total weight. */
  lemma {:induction false} AllImproveIffFed(adj: Adj)
    requires GraphOk(adj) && forall u :: 0 <= u < |adj| && adj[u] != [] ==> Degree(adj[u]) > -1.0
    ensures AllImprove(adj) <==> Fed(adj)
  {
    hide AllImprove, Degree, GraphOk, Starves;
    AllImproveIffNoneStarves(adj);
    forall u | 0 <= u < |adj| && adj[u] != [] && Degree(adj[u]) <= 0.0 ensures Starves(adj[u]) { AllStarve(adj[u]); }
  }

  lemma {:induction false} AllStarve(l: seq<Link>)
    requires l != [] && -1.0 <= Degree(l) <= 0.0
    ensures Starves(l)
  {
    var group := Targets(l);
    LinkSumEqual(l, Among(group), One());
    assert l[0].0 in group;
    assert GroupWeight(l, group) == Degree(l);
  }

  ghost function Targets(l: seq<Link>): set<int> { set i | 0 <= i < |l| :: l[i].0 as int }

  lemma {:induction false} FedImproves(adj: Adj, labels: seq<nat>, u: nat, b: nat)
    requires GraphOk(adj) && Labelling(labels, |adj|) && u < |adj| && (adj[u] != [] ==> Degree(adj[u]) > 0.0)
    requires Chosen(adj[u], labels, labels[u], b) && b != labels[u]
    ensures b < |adj| && Labelling(labels[u := b], |adj|) && Better(adj, labels[u := b], labels)
  {
    hide Better, Vote, Degree;
    ChangeImproves(adj, labels, u, b);
    FedPicksWinner(adj[u], labels, u, labels[u], b);
  }

  ghost predicate NonNegative(l: seq<Link>) { forall i :: 0 <= i < |l| ==> l[i].1 >= 0.0 }

  ghost predicate SomeWeight(l: seq<Link>) { exists i :: 0 <= i < |l| && l[i].1 > 0.0 }

  /** Without negative weights: every change improves if and only if every node with links has one of positive weight. */
  lemma {:induction false} AllImproveIffSomeWeight(adj: Adj)
    requires GraphOk(adj) && forall u :: 0 <= u < |adj| ==> NonNegative(adj[u])
    ensures AllImprove(adj) <==> forall u :: 0 <= u < |adj| && adj[u] != [] ==> SomeWeight(adj[u])
  {
    hide AllImprove, NonNegative, SomeWeight, Degree, GraphOk;
    forall u | 0 <= u < |adj| ensures Degree(adj[u]) >= 0.0 && (Degree(adj[u]) > 0.0 <==> SomeWeight(adj[u])) {
      DegreeOf(adj[u]);
    }
    AllImproveIffFed(adj);
  }

  lemma {:induction false} DegreeOf(l: seq<Link>)
    requires NonNegative(l)
    ensures Degree(l) >= 0.0 && (Degree(l) > 0.0 <==> SomeWeight(l))
  {
    if l != [] {
      var r := l[..|l| - 1];
      assert forall i :: 0 <= i < |r| ==> r[i] == l[i];
      DegreeOf(r);
      assert Degree(l) == Degree(r) + l[|l| - 1].1;
      if SomeWeight(l) && l[|l| - 1].1 == 0.0 {
        var i :| 0 <= i < |l| && l[i].1 > 0.0;
        assert r[i].1 > 0.0;
      }
      if SomeWeight(r) {
        var i :| 0 <= i < |r| && r[i].1 > 0.0;
        assert l[i].1 > 0.0;
      }
    }
  }

  /** All other nodes carry one label: the node takes it, and nothing gets better. */
  lemma {:induction false} StarvedWorsens(adj: Adj, u: nat) returns (labels: seq<nat>, b: nat)
    requires GraphOk(adj) && u < |adj| && adj[u] != [] && -1.0 <= Degree(adj[u]) <= 0.0
    ensures Labelling(labels, |adj|) && Chosen(adj[u], labels, labels[u], b) && b != labels[u]
    ensures !Better(adj, labels[u := b], labels)
  {
    var l := adj[u];
    var own: nat := if Degree(l) == -1.0 then 1 else 0;
    b := 1 - own;
    labels := seq(|adj|, x => if x == u then own else b);
    assert l[0].0 < |adj| && l[0].0 != u;
    LinkSumEqual(l, SameAs(labels, b), One());
    assert Vote(l, labels, b) == Degree(l);
    hide LinkSum, Vote, Degree, Better;
    assert labels[l[0].0] == b;
    assert Carried(l, labels, b) && !Carried(l, labels, own) && Top(l, labels, own, b, Vote(l, labels, b));
    ChangeImproves(adj, labels, u, b);
  }

  /** A group of neighbours carries one label and all other nodes another. */
  ghost function Divided(n: nat, u: nat, group: set<int>, own: nat, p: nat, q: nat): (labels: seq<nat>)
    ensures |labels| == n
    ensures forall x :: 0 <= x < n ==> labels[x] == if x == u then own else if x in group then p else q
  {
    seq(n, x => if x == u then own else if x in group then p else q)
  }

  lemma {:induction false} DividedVotes(l: seq<Link>, n: nat, u: nat, group: set<int>, own: nat, p: nat, q: nat)
    requires LinksOk(l, u, n) && own != p && own != q && p != q
    ensures var labels := Divided(n, u, group, own, p, q);
      && Vote(l, labels, p) == GroupWeight(l, group)
      && Vote(l, labels, q) == Degree(l) - GroupWeight(l, group)
      && !Carried(l, labels, own)
  {
    var labels := Divided(n, u, group, own, p, q);
    LinkSumEqual(l, SameAs(labels, p), Among(group));
    LinkSumLinear(l, One(), -1.0, Among(group), SameAs(labels, q));
  }

  /** With a total below -1, a starving group and the others carry a label each: the node takes the heavier one's. */
  lemma {:induction false} DividedWorsens(adj: Adj, u: nat) returns (labels: seq<nat>, b: nat)
    requires GraphOk(adj) && u < |adj| && Degree(adj[u]) < -1.0 && Starves(adj[u])
    ensures Labelling(labels, |adj|) && Chosen(adj[u], labels, labels[u], b) && b != labels[u]
    ensures !Better(adj, labels[u := b], labels)
  {
    var l := adj[u];
    var group: set<int>, i :| 0 <= i < |l| && l[i].0 in group && -1.0 <= GroupWeight(l, group) <= 0.0;
    var j := SomeOutside(l, group);
    hide GroupWeight, Degree, Vote, Better;
    var s, rest := GroupWeight(l, group), Degree(l) - GroupWeight(l, group);
    var v := if rest <= s then s else rest;
    var own: nat, p: nat, q: nat := if v == -1.0 then 2 else 0, if v == -1.0 then 0 else 1, if v == -1.0 then 1 else 2;
    b := if rest <= s then p else q;
    labels := Divided(|adj|, u, group, own, p, q);
    ThreeNodes(u, l[i].0, l[j].0, |adj|);
    DividedVotes(l, |adj|, u, group, own, p, q);
    assert labels[l[i].0] == p && labels[l[j].0] == q && Vote(l, labels, b) == v;
    assert Carried(l, labels, b);
    TopOfTwo(l, labels, own, p, q, b);
    hide Top, Carried;
    ChangeImproves(adj, labels, u, b);
  }

  lemma {:induction false} TopOfTwo(l: seq<Link>, labels: seq<nat>, own: nat, p: nat, q: nat, b: nat)
    requires forall k :: 0 <= k < |l| && l[k].0 < |labels| ==> labels[l[k].0] == p || labels[l[k].0] == q
    requires var v := Vote(l, labels, b);
      Beats(b, v, own, -1.0) && Beats(b, v, p, Vote(l, labels, p)) && Beats(b, v, q, Vote(l, labels, q))
    ensures Top(l, labels, own, b, Vote(l, labels, b))
  {
    hide Vote;
  }

  lemma {:induction false} ThreeNodes(x: nat, y: nat, z: nat, n: nat)
    requires x < n && y < n && z < n && x != y && x != z && y != z
    ensures n >= 3
  {}

  lemma {:induction false} SomeOutside(l: seq<Link>, group: set<int>) returns (j: nat)
    requires GroupWeight(l, group) != Degree(l)
    ensures j < |l| && l[j].0 !in group
  {
    if forall k :: 0 <= k < |l| ==> l[k].0 in group { LinkSumEqual(l, Among(group), One()); }
    j :| j < |l| && l[j].0 !in group;
  }

  /** With one edge of weight 0, node 0 takes its neighbour's label: no more agreement, and larger labels. */
  lemma {:induction false} ZeroWeightWorsens()
    ensures var adj: Adj, labels: seq<nat> := [[(1, 0.0)], [(0, 0.0)]], [0, 1];
      && GraphOk(adj) && Labelling(labels, 2) && Chosen(adj[0], labels, 0, 1)
      && Potential(adj, labels[0 := 1]) == Potential(adj, labels) && LabelSum(labels[0 := 1]) > LabelSum(labels)
      && !Better(adj, labels[0 := 1], labels)
  {
    var adj: Adj, labels: seq<nat> := [[(1, 0.0)], [(0, 0.0)]], [0, 1];
    OneLink((1, 0.0));
    OneLink((0, 0.0));
    assert forall v :: Weight(adj[0], v) == 0.0 && Weight(adj[1], v) == 0.0;
    assert adj[0][0].0 == 1 && labels[adj[0][0].0] == 1;
    hide LinkSum, LabelSum;
    assert Top(adj[0], labels, 0, 1, Vote(adj[0], labels, 1));
    RelabelPotential(adj, labels, 0, 1);
    LabelSumUpdate(labels, 0, 1);
  }

  lemma {:induction false} OneLink(x: Link)
    requires x.1 == 0.0
    ensures forall f: int -> real :: LinkSum([x], f) == 0.0
  {
    forall f: int -> real ensures LinkSum([x], f) == 0.0 { assert [x][..0] == []; }
  }

  // ----- Why the loop comes to rest -----

  /** All of the node's links weigh nothing: no label gets votes, so it takes the smallest one it sees. */
  ghost predicate Weightless(l: seq<Link>) { l != [] && forall i :: 0 <= i < |l| ==> l[i].1 == 0.0 }

  /**
   * Every node with links has positive total weight or only links of weight 0, and the links between nodes of the second
   * kind run both ways.
   */
  ghost predicate Tame(adj: Adj) {
    && (forall u :: 0 <= u < |adj| && adj[u] != [] ==> Degree(adj[u]) > 0.0 || Weightless(adj[u]))
    && (forall u, v :: 0 <= u < |adj| && 0 <= v < |adj| && Weightless(adj[u]) && Weightless(adj[v]) && Linked(adj[u], v) ==>
         Linked(adj[v], u))
  }

  lemma {:induction false} WeightlessSum(l: seq<Link>, f: int -> real)
    requires forall i :: 0 <= i < |l| ==> l[i].1 == 0.0
    ensures LinkSum(l, f) == 0.0
  {
    if l != [] {
      assert forall i :: 0 <= i < |l| - 1 ==> l[..|l| - 1][i] == l[i];
      WeightlessSum(l[..|l| - 1], f);
    }
  }

  lemma {:induction false} FedIsTame(adj: Adj)
    requires Fed(adj)
    ensures Tame(adj)
  {
    forall u | 0 <= u < |adj| && Weightless(adj[u]) ensures Degree(adj[u]) == 0.0 { WeightlessSum(adj[u], One()); }
  }

  /** Graphs built from edges of non-negative weight are tame, links of weight 0 included. */
  lemma {:induction false} NonNegativeIsTame(adj: Adj)
    requires TwoWay(adj) && forall u :: 0 <= u < |adj| ==> NonNegative(adj[u])
    ensures Tame(adj)
  {
    hide Degree;
    forall u | 0 <= u < |adj| && adj[u] != [] ensures Degree(adj[u]) > 0.0 || Weightless(adj[u]) { DegreeOf(adj[u]); }
  }

  lemma {:induction false} EdgesAreTame(adj: Adj, e: Edges)
    requires TwoWay(adj) && CarriesEdges(adj, e) && forall k :: k in e ==> e[k] >= 0.0
    ensures Tame(adj)
  {
    hide Tame, TwoWay;
    forall u: nat, i | u < |adj| && 0 <= i < |adj[u]| ensures adj[u][i].1 >= 0.0 {
      assert Key(u, adj[u][i].0) in e;
    }
    NonNegativeIsTame(adj);
  }

  ghost predicate Near(adj: Adj, x: int, y: int) {
    && 0 <= x < |adj| && 0 <= y < |adj|
    && ((Weightless(adj[x]) && Linked(adj[x], y)) || (Weightless(adj[y]) && Linked(adj[y], x)))
  }

  ghost predicate Free(adj: Adj, x: int) { 0 <= x < |adj| && Weightless(adj[x]) }

  /** The links of weightless nodes, which take the smallest label they see. */
  ghost function WeightlessNet(adj: Adj): Net {
    Net(|adj|, (x: int, y: int) => Near(adj, x, y), (x: int) => Free(adj, x))
  }

  lemma {:induction false} WeightlessNetOk(adj: Adj)
    requires GraphOk(adj)
    ensures NetOk(WeightlessNet(adj))
  {
    hide Weight;
    forall x | 0 <= x < |adj| ensures !Near(adj, x, x) { assert LinksOk(adj[x], x, |adj|); }
  }

  /** The labels of the nodes that are not weightless. */
  ghost function DrivenLabel(adj: Adj, labels: seq<nat>): int -> real {
    (x: int) => if 0 <= x < |adj| && x < |labels| && !Weightless(adj[x]) then labels[x] as real else 0.0
  }

  ghost function DrivenSum(adj: Adj, labels: seq<nat>): real { Sum(|adj|, DrivenLabel(adj, labels)) }

  lemma {:induction false} DrivenUpdate(adj: Adj, labels: seq<nat>, u: nat, b: nat)
    requires u < |labels| == |adj|
    ensures DrivenSum(adj, labels[u := b])
         == DrivenSum(adj, labels) + if Weightless(adj[u]) then 0.0 else b as real - labels[u] as real
  {
    hide Sum, Weightless;
    SumChangeOne(|adj|, DrivenLabel(adj, labels), DrivenLabel(adj, labels[u := b]), u);
  }

  /**
   * More agreement, or as much with smaller labels where there is weight, or as much of both with less unrest among the
   * weightless nodes.
   */
  ghost predicate Closer(adj: Adj, next: seq<nat>, labels: seq<nat>) {
    || Potential(adj, next) > Potential(adj, labels)
    || (Potential(adj, next) == Potential(adj, labels)
        && (DrivenSum(adj, next) < DrivenSum(adj, labels)
            || (DrivenSum(adj, next) == DrivenSum(adj, labels)
                && Unrest(WeightlessNet(adj), next) < Unrest(WeightlessNet(adj), labels))))
  }

  lemma {:induction false} CloserTransitive(adj: Adj, a: seq<nat>, b: seq<nat>, c: seq<nat>)
    requires Closer(adj, a, b) && Closer(adj, b, c)
    ensures Closer(adj, a, c)
  {
    hide Potential, DrivenSum, Unrest, WeightlessNet;
  }

  /** In a tame graph every change of label comes closer. */
  lemma {:induction false} ChangeCloser(adj: Adj, labels: seq<nat>, u: nat, b: nat)
    requires GraphOk(adj) && Tame(adj) && Labelling(labels, |adj|) && u < |adj| && adj[u] != []
    requires Chosen(adj[u], labels, labels[u], b) && b != labels[u]
    ensures Closer(adj, labels[u := b], labels)
  {
    hide Potential, DrivenSum, Unrest, WeightlessNet, GraphOk, Chosen, Degree, Weightless;
    DrivenUpdate(adj, labels, u, b);
    if Weightless(adj[u]) {
      WeightlessChange(adj, labels, u, b);
    } else {
      FedImproves(adj, labels, u, b);
      LabelSumUpdate(labels, u, b);
    }
  }

  /** A weightless node changes no agreement and takes the smallest label it sees. */
  lemma {:induction false} WeightlessChange(adj: Adj, labels: seq<nat>, u: nat, b: nat)
    requires GraphOk(adj) && Tame(adj) && Labelling(labels, |adj|) && u < |adj| && Weightless(adj[u])
    requires Chosen(adj[u], labels, labels[u], b) && b != labels[u]
    ensures Potential(adj, labels[u := b]) == Potential(adj, labels)
    ensures Unrest(WeightlessNet(adj), labels[u := b]) < Unrest(WeightlessNet(adj), labels)
  {
    hide Potential, Unrest, NetOk;
    var l, net := adj[u], WeightlessNet(adj);
    forall lab: nat ensures Vote(l, labels, lab) == 0.0 { WeightlessSum(l, SameAs(labels, lab)); }
    hide Vote;
    RelabelPotential(adj, labels, u, b);
    WeightlessNetOk(adj);
    TakesSmallest(adj, labels, u, b);
    TakingMinimumCalms(net, labels, u, b);
  }

  lemma {:induction false} TakesSmallest(adj: Adj, labels: seq<nat>, u: nat, b: nat)
    requires GraphOk(adj) && Tame(adj) && Labelling(labels, |adj|) && u < |adj| && Weightless(adj[u])
    requires Chosen(adj[u], labels, labels[u], b) && b != labels[u]
    requires forall lab: nat :: Vote(adj[u], labels, lab) == 0.0
    ensures Smallest(WeightlessNet(adj), labels, u, b)
  {
    hide Vote, Weight, Degree;
    var l, net := adj[u], WeightlessNet(adj);
    assert LinksOk(l, u, |adj|);
    var i :| 0 <= i < |l| && l[i].0 < |labels| && labels[l[i].0] == b;
    assert Linked(l, l[i].0);
    assert net.near(u, l[i].0);
    forall v | 0 <= v < |adj| && net.near(u, v) ensures b <= labels[v] {
      assert Linked(l, v);
      var j :| 0 <= j < |l| && l[j].0 == v;
    }
  }

  // ----- Finitely many labellings -----

  ghost function Labellings(n: nat, m: nat): (s: set<seq<nat>>)
    ensures forall l :: l in s <==> |l| == n && forall u :: 0 <= u < n ==> l[u] < m
  {
    if n == 0 then {[]}
    else
      var s := set l, x | l in Labellings(n - 1, m) && x in UpTo(m) :: l + [x];
      assert forall l: seq<nat> :: |l| == n && (forall u :: 0 <= u < n ==> l[u] < m) ==> l in s by {
        forall l: seq<nat> | |l| == n && (forall u :: 0 <= u < n ==> l[u] < m) ensures l in s {
          assert l == l[..n - 1] + [l[n - 1]];
          assert l[..n - 1] in Labellings(n - 1, m) && l[n - 1] in UpTo(m);
        }
      }
      s
  }

  /** How many labellings are closer to rest than this one: it falls with every step closer. */
  ghost function Rank(adj: Adj, labels: seq<nat>): nat {
    |set l | l in Labellings(|adj|, |adj|) && Closer(adj, l, labels)|
  }

  lemma {:induction false} RankFalls(adj: Adj, next: seq<nat>, labels: seq<nat>)
    requires Labelling(next, |adj|) && Closer(adj, next, labels)
    ensures Rank(adj, next) < Rank(adj, labels)
  {
    var a := set l | l in Labellings(|adj|, |adj|) && Closer(adj, l, next);
    var b := set l | l in Labellings(|adj|, |adj|) && Closer(adj, l, labels);
    assert next in b && next !in a by { NotCloser(adj, next); }
    forall l | l in a ensures l in b { CloserTransitive(adj, l, next, labels); }
    hide Closer;
    SubsetSize(a + {next}, b);
  }

  lemma {:induction false} NotCloser(adj: Adj, labels: seq<nat>)
    ensures !Closer(adj, labels, labels)
  {}

  lemma {:induction false} RankBound(adj: Adj, labels: seq<nat>)
    ensures Rank(adj, labels) <= |Labellings(|adj|, |adj|)|
  {
    var closer := set l | l in Labellings(|adj|, |adj|) && Closer(adj, l, labels);
    SubsetSize(closer, Labellings(|adj|, |adj|));
  }

  // ----- The loops -----

  /** Every node with links holds the winning label of its neighbourhood. */
  ghost predicate Stable(adj: Adj, labels: seq<nat>) {
    |labels| == |adj| && forall u :: 0 <= u < |adj| && adj[u] != [] ==> Winner(adj[u], labels, labels[u])
  }

  /** No node would change its label. */
  ghost predicate Settled(adj: Adj, labels: seq<nat>) {
    |labels| == |adj| && forall u :: 0 <= u < |adj| && adj[u] != [] ==> Chosen(adj[u], labels, labels[u], labels[u])
  }

  lemma {:induction false} SettledIsStable(adj: Adj, labels: seq<nat>)
    requires GraphOk(adj) && Labelling(labels, |adj|) && Fed(adj) && Settled(adj, labels)
    ensures Stable(adj, labels)
  {
    hide Chosen, Winner, Degree;
    forall u | 0 <= u < |adj| && adj[u] != [] ensures Winner(adj[u], labels, labels[u]) {
      FedPicksWinner(adj[u], labels, u, labels[u], labels[u]);
    }
  }

  /** Node u takes the label it settles on; a node without links keeps its own. */
  ghost function Adopt(l: seq<Link>, labels: seq<nat>, u: nat): (r: seq<nat>)
    requires u < |labels|
    ensures |r| == |labels|
  {
    if l != [] && exists b: nat :: Chosen(l, labels, labels[u], b) then
      var b: nat :| Chosen(l, labels, labels[u], b);
      labels[u := b]
    else labels
  }

  /** The labels after the nodes below n have had their turn, in order, each seeing what the ones before it took. */
  ghost function Swept(adj: Adj, labels: seq<nat>, n: nat): (r: seq<nat>)
    requires n <= |adj| == |labels|
    ensures |r| == |labels|
  {
    if n == 0 then labels else Adopt(adj[n - 1], Swept(adj, labels, n - 1), n - 1)
  }

  /** The labels after t sweeps. */
  ghost function Rounds(adj: Adj, labels: seq<nat>, t: nat): (r: seq<nat>)
    requires |adj| == |labels|
    ensures |r| == |labels|
  {
    if t == 0 then labels else Swept(adj, Rounds(adj, labels, t - 1), |adj|)
  }

  lemma {:induction false} AdoptIs(l: seq<Link>, labels: seq<nat>, u: nat, b: nat)
    requires u < |labels| && l != [] && Chosen(l, labels, labels[u], b)
    ensures Adopt(l, labels, u) == labels[u := b]
  {
    hide Chosen;
    var a: nat :| Chosen(l, labels, labels[u], a) && Adopt(l, labels, u) == labels[u := a];
    ChosenUnique(l, labels, labels[u], a, b);
  }

  /** Once a sweep changes nothing, further sweeps change nothing. */
  lemma {:induction false} SettledRounds(adj: Adj, labels: seq<nat>, t: nat, more: nat)
    requires |adj| == |labels| && t <= more
    requires Swept(adj, Rounds(adj, labels, t), |adj|) == Rounds(adj, labels, t)
    ensures Rounds(adj, labels, more) == Rounds(adj, labels, t)
  {
    hide Swept;
    if t < more { SettledRounds(adj, labels, t, more - 1); }
  }

  method CastVotes(l: seq<Link>, labels: array<nat>, ghost u: nat) returns (votes: map<nat, real>)
    requires LinksOk(l, u, labels.Length)
    ensures forall lab :: lab in votes <==> exists i :: 0 <= i < |l| && labels[l[i].0] == lab
    ensures forall lab :: lab in votes ==> votes[lab] == Vote(l, labels[..], lab)
  {
    votes := map[];
    for i := 0 to |l|
      invariant forall lab :: lab in votes <==> exists j :: 0 <= j < i && labels[l[j].0] == lab
      invariant forall lab: nat :: (if lab in votes then votes[lab] else 0.0) == Vote(l[..i], labels[..], lab)
    {
      var (v, w) := l[i];
      assert l[..i + 1][..i] == l[..i];
      forall lab: nat
        ensures Vote(l[..i + 1], labels[..], lab) == Vote(l[..i], labels[..], lab) + if labels[v] == lab then w else 0.0
      {}
      votes := votes[labels[v] := (if labels[v] in votes then votes[labels[v]] else 0.0) + w];
    }
    assert l[..|l|] == l;
  }

  /** The heaviest label, the smallest on ties, the own label counting for -1, in whatever order the map is read. */
  method PickLabel(votes: map<nat, real>, own: nat) returns (best: nat)
    ensures (best == own && PicksAll(votes, own, best, -1.0)) || (best in votes && PicksAll(votes, own, best, votes[best]))
  {
    best := own;
    var bestw := -1.0;
    var rest := votes.Keys;
    while rest != {}
      invariant rest <= votes.Keys
      invariant (best == own && bestw == -1.0) || (best in votes && bestw == votes[best])
      invariant Beats(best, bestw, own, -1.0)
      invariant forall lab :: lab in votes && lab !in rest ==> Beats(best, bestw, lab, votes[lab])
      decreases |rest|
    {
      var lab :| lab in rest;
      var w := votes[lab];
      if w > bestw || (w == bestw && lab < best) { bestw, best := w, lab; }
      rest := rest - {lab};
    }
  }

  ghost predicate PicksAll(votes: map<nat, real>, own: nat, b: nat, bw: real) {
    Beats(b, bw, own, -1.0) && forall lab :: lab in votes ==> Beats(b, bw, lab, votes[lab])
  }

  method BestLabel(l: seq<Link>, labels: array<nat>, u: nat) returns (best: nat)
    requires LinksOk(l, u, labels.Length) && u < labels.Length
    ensures Chosen(l, labels[..], labels[u], best)
  {
    hide Vote, Beats;
    var votes := CastVotes(l, labels, u);
    best := PickLabel(votes, labels[u]);
    forall i | 0 <= i < |l| ensures labels[..][l[i].0] in votes {}
  }

  /** One in-place sweep over all nodes. */
  method Sweep(adj: Adj, labels: array<nat>) returns (changed: bool)
    requires GraphOk(adj) && Labelling(labels[..], |adj|)
    modifies labels
    ensures Labelling(labels[..], |adj|) && labels[..] == Swept(adj, old(labels[..]), |adj|)
    ensures changed <==> labels[..] != old(labels[..])
    ensures changed && Fed(adj) ==> Better(adj, labels[..], old(labels[..]))
    ensures changed && Tame(adj) ==> Closer(adj, labels[..], old(labels[..]))
    ensures !changed ==> Settled(adj, labels[..])
  {
    hide Better, Closer, Chosen, GraphOk, LinksOk, Adopt, Degree, Tame;
    changed := false;
    ghost var start := labels[..];
    for u := 0 to |adj|
      invariant Labelling(labels[..], |adj|) && labels[..] == Swept(adj, start, u)
      invariant changed <==> labels[..] != start
      invariant forall x :: u <= x < |adj| ==> labels[x] == start[x]
      invariant changed && Fed(adj) ==> Better(adj, labels[..], start)
      invariant changed && Tame(adj) ==> Closer(adj, labels[..], start)
      invariant !changed ==> forall x :: 0 <= x < u && adj[x] != [] ==> Chosen(adj[x], start, start[x], start[x])
    {
      if adj[u] == [] {
        AdoptNothing(labels[..], u);
        continue;
      }
      NodeLinksOk(adj, u);
      var best := BestLabel(adj[u], labels, u);
      AdoptIs(adj[u], labels[..], u, best);
      if best != labels[u] {
        ghost var was := labels[..];
        ChosenIsLabel(adj[u], was, u, best);
        labels[u] := best;
        assert labels[..] == was[u := best];
        assert labels[..][u] != start[u];
        if Fed(adj) {
          FedImproves(adj, was, u, best);
          if changed { BetterTransitive(adj, labels[..], was, start); }
        }
        if Tame(adj) {
          ChangeCloser(adj, was, u, best);
          if changed { CloserTransitive(adj, labels[..], was, start); }
        }
        changed := true;
      } else {
        assert labels[..][u := best] == labels[..];
      }
    }
  }

  lemma {:induction false} ChosenIsLabel(l: seq<Link>, labels: seq<nat>, u: nat, b: nat)
    requires u < |labels| && Chosen(l, labels, labels[u], b)
    ensures b in labels
  {}

  lemma {:induction false} AdoptNothing(labels: seq<nat>, u: nat)
    requires u < |labels|
    ensures Adopt([], labels, u) == labels
  {}

  lemma {:induction false} NodeLinksOk(adj: Adj, u: nat)
    requires GraphOk(adj) && u < |adj|
    ensures LinksOk(adj[u], u, |adj|)
  {}

  lemma {:induction false} BetterTransitive(adj: Adj, a: seq<nat>, b: seq<nat>, c: seq<nat>)
    requires Better(adj, a, b) && Better(adj, b, c)
    ensures Better(adj, a, c)
  {}

  /**
   * Sweeps under a round cap. In a tame graph, such as one without negative weights, a cap above the number of labellings
   * never bites: no node would change any more. When every node with links has positive total weight the result is stable.
   */
  method Propagate(adj: Adj, rounds: nat) returns (labels: array<nat>)
    requires GraphOk(adj)
    ensures Labelling(labels[..], |adj|)
    ensures labels[..] == Rounds(adj, seq(|adj|, i requires 0 <= i < |adj| => i), rounds)
    ensures Tame(adj) && rounds > |Labellings(|adj|, |adj|)| ==> Settled(adj, labels[..])
    ensures Fed(adj) && rounds > |Labellings(|adj|, |adj|)| ==> Stable(adj, labels[..])
    ensures Tame(adj) ==> Potential(adj, labels[..]) >= Potential(adj, seq(|adj|, i requires 0 <= i < |adj| => i))
  {
    hide GraphOk, Potential, Winner, Chosen, Rank, Swept, Fed, Tame, Settled, Stable, Closer;
    if Fed(adj) { FedIsTame(adj); }
    ghost var start := seq(|adj|, i requires 0 <= i < |adj| => i);
    labels := new nat[|adj|](i => i);
    assert labels[..] == start;
    RankBound(adj, start);
    for round := 0 to rounds
      invariant fresh(labels) && Labelling(labels[..], |adj|)
      invariant labels[..] == Rounds(adj, start, round)
      invariant Tame(adj) ==> labels[..] == start || Closer(adj, labels[..], start)
      invariant Tame(adj) ==> Rank(adj, labels[..]) + round <= |Labellings(|adj|, |adj|)|
    {
      ghost var was := labels[..];
      var changed := Sweep(adj, labels);
      if !changed {
        SettledRounds(adj, start, round, rounds);
        if Fed(adj) { SettledIsStable(adj, labels[..]); }
        break;
      }
      if Tame(adj) {
        RankFalls(adj, labels[..], was);
        if was != start { CloserTransitive(adj, labels[..], was, start); }
      }
    }
    if Tame(adj) && labels[..] != start { CloserAgrees(adj, labels[..], start); }
  }

  lemma {:induction false} CloserAgrees(adj: Adj, next: seq<nat>, labels: seq<nat>)
    requires Closer(adj, next, labels)
    ensures Potential(adj, next) >= Potential(adj, labels)
  {}

  // ----- Compaction -----

  /** The labels seen so far are numbered in order of first appearance; firsts[c] is where the label of c first appears. */
  ghost predicate Compacted(labels: seq<nat>, community: seq<nat>, firsts: seq<nat>, remap: map<nat, nat>) {
    && |community| <= |labels|
    && (forall c :: 0 <= c < |firsts| ==> firsts[c] < |community| && community[firsts[c]] == c)
    && (forall c, e :: 0 <= c < e < |firsts| ==> firsts[c] < firsts[e])
    && (forall lab :: lab in remap ==> remap[lab] < |firsts| && labels[firsts[remap[lab]]] == lab)
    && (forall x :: 0 <= x < |community| ==> labels[x] in remap && community[x] == remap[labels[x]])
    && (forall x :: 0 <= x < |community| ==> community[x] < |firsts| && firsts[community[x]] <= x)
  }

  lemma {:induction false} SeenLabel(labels: seq<nat>, community: seq<nat>, firsts: seq<nat>, remap: map<nat, nat>)
    requires Compacted(labels, community, firsts, remap) && |community| < |labels| && labels[|community|] in remap
    ensures Compacted(labels, community + [remap[labels[|community|]]], firsts, remap)
  {}

  lemma {:induction false} NewLabel(labels: seq<nat>, community: seq<nat>, firsts: seq<nat>, remap: map<nat, nat>)
    requires Compacted(labels, community, firsts, remap) && |community| < |labels| && labels[|community|] !in remap
    ensures Compacted(labels, community + [|firsts|], firsts + [|community|], remap[labels[|community|] := |firsts|])
  {}

  /** Dense community ids in order of first appearance: the same partition as the labels. */
  method Compact(labels: seq<nat>) returns (community: seq<nat>, count: nat)
    ensures |community| == |labels|
    ensures forall u, v :: 0 <= u < |labels| && 0 <= v < |labels| ==> (community[u] == community[v] <==> labels[u] == labels[v])
    ensures forall u :: 0 <= u < |labels| ==> community[u] < count
    ensures forall c: nat :: c < count ==> c in community
    ensures forall u, v :: 0 <= u < |labels| && 0 <= v < |labels| && community[u] < community[v] ==>
      exists first :: 0 <= first < v && labels[first] == labels[u]
  {
    community, count := [], 0;
    var remap: map<nat, nat> := map[];
    ghost var firsts: seq<nat> := [];
    for u := 0 to |labels|
      invariant |community| == u && |firsts| == count && Compacted(labels, community, firsts, remap)
    {
      hide Compacted;
      if labels[u] !in remap {
        NewLabel(labels, community, firsts, remap);
        remap := remap[labels[u] := count];
        count := count + 1;
        firsts := firsts + [u];
      } else {
        SeenLabel(labels, community, firsts, remap);
      }
      community := community + [remap[labels[u]]];
    }
    CompactedIs(labels, community, firsts, remap);
  }

  lemma {:induction false} CompactedIs(labels: seq<nat>, community: seq<nat>, firsts: seq<nat>, remap: map<nat, nat>)
    requires Compacted(labels, community, firsts, remap) && |community| == |labels|
    ensures forall u, v :: 0 <= u < |labels| && 0 <= v < |labels| ==> (community[u] == community[v] <==> labels[u] == labels[v])
    ensures forall u :: 0 <= u < |labels| ==> community[u] < |firsts|
    ensures forall c: nat :: c < |firsts| ==> c in community
    ensures forall u, v :: 0 <= u < |labels| && 0 <= v < |labels| && community[u] < community[v] ==>
      exists first :: 0 <= first < v && labels[first] == labels[u]
  {
    forall c: nat | c < |firsts| ensures c in community { assert community[firsts[c]] == c; }
    forall u, v | 0 <= u < |labels| && 0 <= v < |labels| && community[u] < community[v]
      ensures exists first :: 0 <= first < v && labels[first] == labels[u]
    {
      assert firsts[community[u]] < v;
    }
  }
}
