/** Taking the smallest of the neighbours' labels, one node at a time: why it comes to rest. */
module MinLabels {
  import opened Sums

  /** Which nodes are neighbours, and which of them take the minimum; the others keep their labels. */
  datatype Net = Net(n: nat, near: (int, int) -> bool, free: int -> bool)

  ghost predicate NetOk(t: Net) {
    forall x, y :: 0 <= x < t.n && 0 <= y < t.n ==> t.near(x, y) == t.near(y, x) && !t.near(x, x)
  }

  function Label(labels: seq<nat>, x: int): real { if 0 <= x < |labels| then labels[x] as real else 0.0 }

  function MinOf(a: real, b: real): real { if a < b then a else b }

  /** The smaller label of a pair of neighbours. */
  ghost function Pair(t: Net, labels: seq<nat>, x: int): int -> real {
    (y: int) => if t.near(x, y) then MinOf(Label(labels, x), Label(labels, y)) else 0.0
  }

  ghost function Ones(t: Net, x: int): int -> real { (y: int) => if t.near(x, y) then 1.0 else 0.0 }

  /** Twice the number of neighbours, less one, for a node that takes the minimum. */
  ghost function Pull(t: Net, x: int): real { if t.free(x) then 2.0 * Sum(t.n, Ones(t, x)) - 1.0 else 0.0 }

  ghost function Part(t: Net, labels: seq<nat>): int -> real {
    (x: int) => Label(labels, x) * Pull(t, x) - Sum(t.n, Pair(t, labels, x))
  }

  /** What every change lowers: labels weighted by the number of neighbours, less the minima over all pairs. */
  ghost function Unrest(t: Net, labels: seq<nat>): real { Sum(t.n, Part(t, labels)) }

  /** How much u's new label raises the minimum it has with x. */
  ghost function Lift(t: Net, labels: seq<nat>, u: int, b: nat): int -> real {
    (x: int) => if t.near(u, x) then MinOf(b as real, Label(labels, x)) - MinOf(Label(labels, u), Label(labels, x)) else 0.0
  }

  ghost function Minus(f: int -> real, g: int -> real): int -> real { (x: int) => f(x) - g(x) }

  lemma {:induction false} SumMinus(n: nat, f: int -> real, g: int -> real)
    ensures Sum(n, Minus(f, g)) == Sum(n, f) - Sum(n, g)
  {
    SumPlus(n, Minus(f, g), g, f);
  }

  lemma {:induction false} OtherPairs(t: Net, labels: seq<nat>, u: nat, b: nat, x: nat)
    requires NetOk(t) && |labels| == t.n && u < t.n && x < t.n && x != u
    ensures Sum(t.n, Pair(t, labels[u := b], x)) == Sum(t.n, Pair(t, labels, x)) + Lift(t, labels, u, b)(x)
  {
    hide Sum;
    var next := labels[u := b];
    assert t.near(x, u) == t.near(u, x);
    forall y | 0 <= y < t.n && y != u ensures Pair(t, labels, x)(y) == Pair(t, next, x)(y) {}
    SumChangeOne(t.n, Pair(t, labels, x), Pair(t, next, x), u);
  }

  /** The part of another node x falls by the lift of the minimum it has with u. */
  lemma {:induction false} OtherPart(t: Net, labels: seq<nat>, u: nat, b: nat, x: nat)
    requires NetOk(t) && |labels| == t.n && u < t.n && x < t.n && x != u
    ensures Part(t, labels[u := b])(x) == Part(t, labels)(x) - Lift(t, labels, u, b)(x)
  {
    hide Sum, Pull, Lift, Pair;
    OtherPairs(t, labels, u, b, x);
    assert Label(labels[u := b], x) == Label(labels, x);
  }

  lemma {:induction false} OwnPart(t: Net, labels: seq<nat>, u: nat, b: nat)
    requires NetOk(t) && |labels| == t.n && u < t.n
    ensures Part(t, labels[u := b])(u)
         == Part(t, labels)(u) + (b as real - labels[u] as real) * Pull(t, u) - Sum(t.n, Lift(t, labels, u, b))
    ensures Lift(t, labels, u, b)(u) == 0.0
  {
    var next := labels[u := b];
    assert !t.near(u, u);
    forall y | 0 <= y < t.n ensures Pair(t, next, u)(y) == Pair(t, labels, u)(y) + Lift(t, labels, u, b)(y) {}
    SumPlus(t.n, Pair(t, labels, u), Lift(t, labels, u, b), Pair(t, next, u));
  }

  /** Relabelling u counts its own change with its pull and every lifted minimum twice. */
  lemma {:induction false} UnrestChanges(t: Net, labels: seq<nat>, u: nat, b: nat)
    requires NetOk(t) && |labels| == t.n && u < t.n
    ensures Unrest(t, labels[u := b])
         == Unrest(t, labels) + (b as real - labels[u] as real) * Pull(t, u) - 2.0 * Sum(t.n, Lift(t, labels, u, b))
  {
    hide Sum, Lift, Part, Pull;
    var next, lift := labels[u := b], Lift(t, labels, u, b);
    var less := Minus(Part(t, labels), lift);
    forall x | 0 <= x < t.n && x != u ensures less(x) == Part(t, next)(x) { OtherPart(t, labels, u, b, x); }
    SumChangeOne(t.n, less, Part(t, next), u);
    SumMinus(t.n, Part(t, labels), lift);
    OwnPart(t, labels, u, b);
  }

  /** b is the smallest of u's neighbours' labels. */
  ghost predicate Smallest(t: Net, labels: seq<nat>, u: nat, b: nat) {
    && (exists v :: 0 <= v < t.n && v < |labels| && t.near(u, v) && labels[v] == b)
    && (forall v :: 0 <= v < t.n && v < |labels| && t.near(u, v) ==> b <= labels[v])
  }

  /** The lift if every minimum with a neighbour moved with u's label. */
  ghost function Full(t: Net, u: int, d: real): int -> real { (x: int) => if t.near(u, x) then d else 0.0 }

  lemma {:induction false} FullSum(t: Net, u: nat, d: real)
    ensures Sum(t.n, Full(t, u, d)) == d * Sum(t.n, Ones(t, u))
  {
    forall x | 0 <= x < t.n ensures Full(t, u, d)(x) == d * Ones(t, u)(x) {}
    SumTimes(t.n, d, Ones(t, u), Full(t, u, d));
  }

  lemma {:induction false} LiftAt(t: Net, labels: seq<nat>, u: nat, b: nat, x: nat)
    requires |labels| == t.n && u < t.n && x < t.n && Smallest(t, labels, u, b)
    ensures var d := b as real - labels[u] as real;
      && Lift(t, labels, u, b)(x) >= Full(t, u, d)(x)
      && (t.near(u, x) && labels[x] == b && d < 0.0 ==> Lift(t, labels, u, b)(x) == 0.0 && Full(t, u, d)(x) == d)
  {}

  /** A rising label lifts every minimum fully, and a falling one leaves at least one as it is. */
  lemma {:induction false} LiftAtLeast(t: Net, labels: seq<nat>, u: nat, b: nat)
    requires |labels| == t.n && u < t.n && Smallest(t, labels, u, b)
    ensures var d := b as real - labels[u] as real;
      Sum(t.n, Lift(t, labels, u, b)) >= Sum(t.n, Full(t, u, d)) - if d < 0.0 then d else 0.0
  {
    var d, lift := b as real - labels[u] as real, Lift(t, labels, u, b);
    var v: nat :| v < t.n && v < |labels| && t.near(u, v) && labels[v] == b;
    var gap := Minus(lift, Full(t, u, d));
    SumMinus(t.n, lift, Full(t, u, d));
    hide Sum, Lift, Full, Smallest;
    forall x | 0 <= x < t.n ensures gap(x) >= 0.0 { LiftAt(t, labels, u, b, x); }
    LiftAt(t, labels, u, b, v);
    SumTermAtMost(t.n, gap, v);
  }

  /** A free node that takes the smallest of its neighbours' labels, other than its own, lowers the unrest. */
  lemma {:induction false} TakingMinimumCalms(t: Net, labels: seq<nat>, u: nat, b: nat)
    requires NetOk(t) && |labels| == t.n && u < t.n && t.free(u) && Smallest(t, labels, u, b) && b != labels[u]
    ensures Unrest(t, labels[u := b]) < Unrest(t, labels)
  {
    hide Sum, Lift, Smallest;
    UnrestChanges(t, labels, u, b);
    LiftAtLeast(t, labels, u, b);
    FullSum(t, u, b as real - labels[u] as real);
    var d, degree := b as real - labels[u] as real, Sum(t.n, Ones(t, u));
    assert d * (2.0 * degree - 1.0) == 2.0 * (d * degree) - d;
  }
}
