/** With negative weights label propagation may go round for ever. */
module Oscillation {
  import opened Adjacency
  import opened LabelPropagation

  /** Four nodes; 0-2, 0-3, 1-3 and 2-3 weigh -1/2, 1-2 weighs -1/4. */
  function Repelling(): Adj {
    [[(2, -0.5), (3, -0.5)], [(2, -0.25), (3, -0.5)], [(0, -0.5), (1, -0.25), (3, -0.5)], [(0, -0.5), (1, -0.5), (2, -0.5)]]
  }

  lemma {:induction false} SumOfTwo(x: Link, y: Link, f: int -> real)
    ensures LinkSum([x, y], f) == x.1 * f(x.0) + y.1 * f(y.0)
  {
    assert [x][..0] == [];
    assert LinkSum([x], f) == x.1 * f(x.0);
    assert [x, y][..1] == [x];
  }

  lemma {:induction false} SumOfThree(x: Link, y: Link, z: Link, f: int -> real)
    ensures LinkSum([x, y, z], f) == x.1 * f(x.0) + y.1 * f(y.0) + z.1 * f(z.0)
  {
    assert [x, y, z][..2] == [x, y];
    SumOfTwo(x, y, f);
  }

  // ----- The graph -----

  lemma {:induction false} RepellingWeights(v: int)
    ensures var adj := Repelling();
      && Weight(adj[0], v) == (if v == 2 || v == 3 then -0.5 else 0.0)
      && Weight(adj[1], v) == (if v == 2 then -0.25 else if v == 3 then -0.5 else 0.0)
      && Weight(adj[2], v) == (if v == 1 then -0.25 else if v == 0 || v == 3 then -0.5 else 0.0)
      && Weight(adj[3], v) == (if v == 0 || v == 1 || v == 2 then -0.5 else 0.0)
  {
    SumOfTwo((2, -0.5), (3, -0.5), Indicator(v));
    SumOfTwo((2, -0.25), (3, -0.5), Indicator(v));
    SumOfThree((0, -0.5), (1, -0.25), (3, -0.5), Indicator(v));
    SumOfThree((0, -0.5), (1, -0.5), (2, -0.5), Indicator(v));
  }

  lemma {:induction false} RepellingOk()
    ensures GraphOk(Repelling()) && TwoWay(Repelling())
  {
    hide LinkSum, Weight;
    RepellingWeights(0);
    RepellingWeights(1);
    RepellingWeights(2);
    RepellingWeights(3);
    forall v: nat
      ensures Linked(Repelling()[0], v) <==> v == 2 || v == 3
      ensures Linked(Repelling()[1], v) <==> v == 2 || v == 3
      ensures Linked(Repelling()[2], v) <==> v == 0 || v == 1 || v == 3
      ensures Linked(Repelling()[3], v) <==> v == 0 || v == 1 || v == 2
    {
      LinkedTwo((2, -0.5), (3, -0.5), v);
      LinkedTwo((2, -0.25), (3, -0.5), v);
      LinkedThree((0, -0.5), (1, -0.25), (3, -0.5), v);
      LinkedThree((0, -0.5), (1, -0.5), (2, -0.5), v);
    }
    hide Linked;
  }

  lemma {:induction false} LinkedTwo(x: Link, y: Link, v: nat)
    ensures Linked([x, y], v) <==> x.0 == v || y.0 == v
  {
    var l := [x, y];
    assert l[0] == x && l[1] == y;
  }

  lemma {:induction false} LinkedThree(x: Link, y: Link, z: Link, v: nat)
    ensures Linked([x, y, z], v) <==> x.0 == v || y.0 == v || z.0 == v
  {
    var l := [x, y, z];
    assert l[0] == x && l[1] == y && l[2] == z;
  }

  // ----- One turn -----

  function Share(x: Link, labels: seq<nat>, lab: nat): real {
    if x.0 < |labels| && labels[x.0] == lab then x.1 else 0.0
  }

  /** The label the scan of these two votes ends with. */
  ghost predicate TwoPick(x: Link, y: Link, labels: seq<nat>, own: nat, b: nat, bw: real)
    requires x.0 < |labels| && y.0 < |labels|
  {
    var p, q := labels[x.0], labels[y.0];
    && Beats(b, bw, own, -1.0)
    && Beats(b, bw, p, Share(x, labels, p) + Share(y, labels, p))
    && Beats(b, bw, q, Share(x, labels, q) + Share(y, labels, q))
    && ((b == own && bw == -1.0) || ((b == p || b == q) && bw == Share(x, labels, b) + Share(y, labels, b)))
  }

  lemma {:induction false} TwoChosen(x: Link, y: Link, labels: seq<nat>, own: nat, b: nat, bw: real)
    requires x.0 < |labels| && y.0 < |labels| && TwoPick(x, y, labels, own, b, bw)
    ensures Chosen([x, y], labels, own, b)
  {
    var l := [x, y];
    assert l[0] == x && l[1] == y;
    forall lab: nat ensures Vote(l, labels, lab) == Share(x, labels, lab) + Share(y, labels, lab) {
      SumOfTwo(x, y, SameAs(labels, lab));
    }
    hide Vote, Share;
  }

  ghost predicate ThreePick(x: Link, y: Link, z: Link, labels: seq<nat>, own: nat, b: nat, bw: real)
    requires x.0 < |labels| && y.0 < |labels| && z.0 < |labels|
  {
    var p, q, r := labels[x.0], labels[y.0], labels[z.0];
    && Beats(b, bw, own, -1.0)
    && Beats(b, bw, p, Share(x, labels, p) + Share(y, labels, p) + Share(z, labels, p))
    && Beats(b, bw, q, Share(x, labels, q) + Share(y, labels, q) + Share(z, labels, q))
    && Beats(b, bw, r, Share(x, labels, r) + Share(y, labels, r) + Share(z, labels, r))
    && ((b == own && bw == -1.0)
        || ((b == p || b == q || b == r) && bw == Share(x, labels, b) + Share(y, labels, b) + Share(z, labels, b)))
  }

  lemma {:induction false} ThreeChosen(x: Link, y: Link, z: Link, labels: seq<nat>, own: nat, b: nat, bw: real)
    requires x.0 < |labels| && y.0 < |labels| && z.0 < |labels| && ThreePick(x, y, z, labels, own, b, bw)
    ensures Chosen([x, y, z], labels, own, b)
  {
    var l := [x, y, z];
    assert l[0] == x && l[1] == y && l[2] == z;
    forall lab: nat
      ensures Vote(l, labels, lab) == Share(x, labels, lab) + Share(y, labels, lab) + Share(z, labels, lab)
    {
      SumOfThree(x, y, z, SameAs(labels, lab));
    }
    hide Vote, Share;
  }

  // ----- The sweeps -----

  /** A sweep in which the nodes take the labels a, b, c and d in turn, with these votes. */
  lemma {:induction false} SweepIs(s: seq<nat>, a: nat, b: nat, c: nat, d: nat, votes: seq<real>)
    requires |s| == 4 == |votes|
    requires TwoPick((2, -0.5), (3, -0.5), s, s[0], a, votes[0])
    requires TwoPick((2, -0.25), (3, -0.5), [a, s[1], s[2], s[3]], s[1], b, votes[1])
    requires ThreePick((0, -0.5), (1, -0.25), (3, -0.5), [a, b, s[2], s[3]], s[2], c, votes[2])
    requires ThreePick((0, -0.5), (1, -0.5), (2, -0.5), [a, b, c, s[3]], s[3], d, votes[3])
    ensures Swept(Repelling(), s, 4) == [a, b, c, d]
  {
    hide TwoPick, ThreePick, Chosen, Adopt;
    var adj := Repelling();
    var s1, s2, s3 := [a, s[1], s[2], s[3]], [a, b, s[2], s[3]], [a, b, c, s[3]];
    assert Swept(adj, s, 0) == s;
    TwoChosen((2, -0.5), (3, -0.5), s, s[0], a, votes[0]);
    AdoptIs(adj[0], s, 0, a);
    assert Swept(adj, s, 1) == s1;
    TwoChosen((2, -0.25), (3, -0.5), s1, s[1], b, votes[1]);
    AdoptIs(adj[1], s1, 1, b);
    assert Swept(adj, s, 2) == s2;
    ThreeChosen((0, -0.5), (1, -0.25), (3, -0.5), s2, s[2], c, votes[2]);
    AdoptIs(adj[2], s2, 2, c);
    assert Swept(adj, s, 3) == s3;
    ThreeChosen((0, -0.5), (1, -0.5), (2, -0.5), s3, s[3], d, votes[3]);
    AdoptIs(adj[3], s3, 3, d);
  }

  lemma {:induction false} FirstSweep()
    ensures Swept(Repelling(), [0, 1, 2, 3], 4) == [2, 2, 3, 3]
  {
    SweepIs([0, 1, 2, 3], 2, 2, 3, 3, [-0.5, -0.25, -0.5, -0.5]);
  }

  lemma {:induction false} ThereAndBack()
    ensures Swept(Repelling(), [2, 2, 3, 3], 4) == [2, 3, 2, 3]
    ensures Swept(Repelling(), [2, 3, 2, 3], 4) == [2, 2, 3, 3]
  {
    SweepIs([2, 2, 3, 3], 2, 3, 2, 3, [-1.0, -0.75, -0.5, -0.5]);
    SweepIs([2, 3, 2, 3], 2, 2, 3, 3, [-0.5, -0.25, -0.5, -0.5]);
  }

  lemma {:induction false} SettledStays(adj: Adj, labels: seq<nat>, n: nat)
    requires Settled(adj, labels) && n <= |adj|
    ensures Swept(adj, labels, n) == labels
  {
    hide Chosen;
    if n > 0 {
      SettledStays(adj, labels, n - 1);
      if adj[n - 1] != [] { AdoptIs(adj[n - 1], labels, n - 1, labels[n - 1]); }
    }
  }

  /** From the start the labels of this graph alternate between two labellings: whatever the cap, they are not settled. */
  lemma {:induction false} NegativeWeightsOscillate(rounds: nat)
    ensures GraphOk(Repelling()) && TwoWay(Repelling())
    ensures var r := Rounds(Repelling(), [0, 1, 2, 3], rounds);
      && (rounds > 0 ==> r == if rounds % 2 == 1 then [2, 2, 3, 3] else [2, 3, 2, 3])
      && !Settled(Repelling(), r)
  {
    hide Swept, Settled, GraphOk, TwoWay;
    RepellingOk();
    FirstSweep();
    ThereAndBack();
    var r := Rounds(Repelling(), [0, 1, 2, 3], rounds);
    if rounds > 0 { NegativeWeightsOscillate(rounds - 1); }
    if Settled(Repelling(), r) {
      SettledStays(Repelling(), r, 4);
      assert false;
    }
  }
}
