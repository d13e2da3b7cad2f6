/** Lloyd iterations over the points of one subspace, with empty clusters respawned. */
module Kmeans {
  import opened Arithmetic
  import opened Sums

  type Vec = seq<real>

  function Square(x: real): real { x * x }

  /** Squared distance over the first d coordinates. */
  function SqUpTo(a: Vec, b: Vec, d: nat): real
    requires d <= |a| && d <= |b|
  {
    if d == 0 then 0.0 else SqUpTo(a, b, d - 1) + Square(a[d - 1] - b[d - 1])
  }

  ghost predicate AllDim(points: seq<Vec>, d: nat) { forall i :: 0 <= i < |points| ==> |points[i]| == d }

  method SquaredDistance(a: Vec, b: Vec) returns (s: real)
    requires |a| == |b|
    ensures s == SqUpTo(a, b, |a|)
  {
    s := 0.0;
    for i := 0 to |a|
      invariant s == SqUpTo(a, b, i)
    {
      var d := a[i] - b[i];
      s := s + d * d;
    }
  }

  lemma {:induction false} SquareNonNegative(x: real)
    ensures Square(x) >= 0.0
  {}

  lemma {:induction false} SqNonNegative(a: Vec, b: Vec, d: nat)
    requires d <= |a| && d <= |b|
    ensures SqUpTo(a, b, d) >= 0.0
  {
    if d > 0 {
      SqNonNegative(a, b, d - 1);
      SquareNonNegative(a[d - 1] - b[d - 1]);
    }
  }

  lemma {:induction false} SqSelf(a: Vec, d: nat)
    requires d <= |a|
    ensures SqUpTo(a, a, d) == 0.0
  {
    if d > 0 { SqSelf(a, d - 1); }
  }

  // ----- Distortion -----

  ghost predicate AssignOk(points: seq<Vec>, cents: seq<Vec>, assign: seq<nat>) {
    |assign| == |points| && forall i :: 0 <= i < |assign| ==> assign[i] < |cents|
  }

  /** Squared distance of point i to the centroid it is assigned to. */
  ghost function Error(points: seq<Vec>, cents: seq<Vec>, assign: seq<nat>, d: nat): int -> real {
    (i: int) =>
      if 0 <= i < |points| && i < |assign| && assign[i] < |cents| && d <= |points[i]| && d <= |cents[assign[i]]|
      then SqUpTo(points[i], cents[assign[i]], d) else 0.0
  }

  /** Total squared distance of the points to their assigned centroids. */
  ghost function Distortion(points: seq<Vec>, cents: seq<Vec>, assign: seq<nat>, d: nat): real {
    Sum(|points|, Error(points, cents, assign, d))
  }

  // ----- Means minimise -----

  /** Squared distance of the members of cluster c to z, over the first k coordinates. */
  ghost function MemberError(points: seq<Vec>, assign: seq<nat>, c: nat, z: Vec, k: nat): int -> real {
    (i: int) =>
      if 0 <= i < |points| && i < |assign| && assign[i] == c && k <= |points[i]| && k <= |z|
      then SqUpTo(points[i], z, k) else 0.0
  }

  ghost function MemberSquare(points: seq<Vec>, assign: seq<nat>, c: nat, x: real, k: nat): int -> real {
    (i: int) =>
      if 0 <= i < |points| && i < |assign| && assign[i] == c && k < |points[i]| then Square(points[i][k] - x) else 0.0
  }

  ghost function MemberCoord(points: seq<Vec>, assign: seq<nat>, c: nat, k: nat): int -> real {
    (i: int) => if 0 <= i < |points| && i < |assign| && assign[i] == c && k < |points[i]| then points[i][k] else 0.0
  }

  ghost function Members(assign: seq<nat>, c: nat, n: nat): nat
    requires n <= |assign|
  {
    if n == 0 then 0 else Members(assign, c, n - 1) + if assign[n - 1] == c then 1 else 0
  }

  /** What moving the reference from x to y adds to the sum of squares of m values that sum to s. */
  ghost function Moved(x: real, y: real, s: real, m: real): real {
    2.0 * (x - y) * (s - m * x) + m * Square(x - y)
  }

  lemma {:induction false} MovedStep(p: real, x: real, y: real, s: real, m: real)
    ensures Moved(x, y, s + p, m + 1.0) == Moved(x, y, s, m) + Square(p - y) - Square(p - x)
  {
    var u, w := x - y, p - x;
    assert s + p - (m + 1.0) * x == (s - m * x) + w;
    assert 2.0 * u * ((s - m * x) + w) == 2.0 * u * (s - m * x) + 2.0 * u * w;
    assert Square(p - y) == Square(u + w) == Square(u) + 2.0 * u * w + Square(w);
    assert (m + 1.0) * Square(u) == m * Square(u) + Square(u);
  }

  /** At the mean, moving the reference can only add. */
  lemma {:induction false} MovedFromMean(x: real, y: real, s: real, m: real)
    requires m * x == s && m >= 0.0
    ensures Moved(x, y, s, m) >= 0.0
  {
    SquareNonNegative(x - y);
    ProductNonNegative(m, Square(x - y));
    assert 2.0 * (x - y) * 0.0 == 0.0;
  }

  lemma {:induction false} SquaresAround(points: seq<Vec>, assign: seq<nat>, c: nat, x: real, y: real, k: nat, n: nat, d: nat)
    requires n <= |points| == |assign| && AllDim(points, d) && k < d
    ensures Sum(n, MemberSquare(points, assign, c, y, k)) == Sum(n, MemberSquare(points, assign, c, x, k))
      + Moved(x, y, Sum(n, MemberCoord(points, assign, c, k)), Members(assign, c, n) as real)
  {
    hide Square, Moved;
    if n > 0 {
      SquaresAround(points, assign, c, x, y, k, n - 1, d);
      if assign[n - 1] == c {
        MovedStep(points[n - 1][k], x, y, Sum(n - 1, MemberCoord(points, assign, c, k)), Members(assign, c, n - 1) as real);
      }
    } else {
      NothingMoved(x, y);
    }
  }

  lemma {:induction false} NothingMoved(x: real, y: real)
    ensures Moved(x, y, 0.0, 0.0) == 0.0
  {}

  /** The mean of the members is at least as good a centroid as any other point. */
  lemma {:induction false} MeanMinimises(points: seq<Vec>, assign: seq<nat>, c: nat, mean: Vec, z: Vec, k: nat)
    requires |points| == |assign| && AllDim(points, |mean|) && |z| == |mean| && k <= |mean|
    requires IsMean(points, assign, c, mean)
    ensures Sum(|points|, MemberError(points, assign, c, mean, k)) <= Sum(|points|, MemberError(points, assign, c, z, k))
  {
    hide Square, Moved, SqUpTo, Sum;
    var n := |points|;
    if k == 0 {
      NoCoordinates(points, assign, c, mean, z);
    } else {
      var j := k - 1;
      MeanMinimises(points, assign, c, mean, z, j);
      SquaresAround(points, assign, c, mean[j], z[j], j, n, |mean|);
      MovedFromMean(mean[j], z[j], Sum(n, MemberCoord(points, assign, c, j)), Members(assign, c, n) as real);
      OneMoreCoordinate(points, assign, c, mean, j);
      OneMoreCoordinate(points, assign, c, z, j);
    }
  }

  /** The mean times the number of members is their coordinate-wise sum. */
  ghost predicate IsMean(points: seq<Vec>, assign: seq<nat>, c: nat, mean: Vec)
    requires |points| == |assign|
  {
    forall j :: 0 <= j < |mean| ==>
      Members(assign, c, |points|) as real * mean[j] == Sum(|points|, MemberCoord(points, assign, c, j))
  }

  lemma {:induction false} NoCoordinates(points: seq<Vec>, assign: seq<nat>, c: nat, y: Vec, z: Vec)
    ensures Sum(|points|, MemberError(points, assign, c, y, 0)) == Sum(|points|, MemberError(points, assign, c, z, 0))
  {
    SumEqual(|points|, MemberError(points, assign, c, y, 0), MemberError(points, assign, c, z, 0));
  }

  lemma {:induction false} OneMoreCoordinate(points: seq<Vec>, assign: seq<nat>, c: nat, z: Vec, j: nat)
    requires |points| == |assign| && AllDim(points, |z|) && j < |z|
    ensures Sum(|points|, MemberError(points, assign, c, z, j + 1))
      == Sum(|points|, MemberError(points, assign, c, z, j)) + Sum(|points|, MemberSquare(points, assign, c, z[j], j))
  {
    var k := j + 1;
    SumPlus(|points|, MemberError(points, assign, c, z, j), MemberSquare(points, assign, c, z[j], j),
            MemberError(points, assign, c, z, k));
  }

  ghost function OtherError(points: seq<Vec>, cents: seq<Vec>, assign: seq<nat>, d: nat, c: nat): int -> real {
    (i: int) => if 0 <= i < |assign| && assign[i] != c then Error(points, cents, assign, d)(i) else 0.0
  }

  /** The distortion is what the members of one cluster contribute plus the rest. */
  lemma {:induction false} DistortionSplits(points: seq<Vec>, cents: seq<Vec>, assign: seq<nat>, d: nat, c: nat)
    requires AllDim(points, d) && AllDim(cents, d) && AssignOk(points, cents, assign) && c < |cents|
    ensures Distortion(points, cents, assign, d)
      == Sum(|points|, MemberError(points, assign, c, cents[c], d)) + Sum(|points|, OtherError(points, cents, assign, d, c))
  {
    SumPlus(|points|, MemberError(points, assign, c, cents[c], d), OtherError(points, cents, assign, d, c),
            Error(points, cents, assign, d));
  }

  /** Moving one centroid to a point no worse for its members does not raise the distortion. */
  lemma {:induction false} MoveCentroid(points: seq<Vec>, cents: seq<Vec>, assign: seq<nat>, d: nat, c: nat, z: Vec)
    requires AllDim(points, d) && AllDim(cents, d) && AssignOk(points, cents, assign) && c < |cents| && |z| == d
    requires Sum(|points|, MemberError(points, assign, c, z, d)) <= Sum(|points|, MemberError(points, assign, c, cents[c], d))
    ensures AllDim(cents[c := z], d)
    ensures Distortion(points, cents[c := z], assign, d) <= Distortion(points, cents, assign, d)
  {
    var next := cents[c := z];
    DistortionSplits(points, cents, assign, d, c);
    DistortionSplits(points, next, assign, d, c);
    SumEqual(|points|, OtherError(points, cents, assign, d, c), OtherError(points, next, assign, d, c));
  }

  /** A cluster without members contributes nothing wherever its centroid is. */
  lemma {:induction false} NoMembers(points: seq<Vec>, assign: seq<nat>, c: nat, z: Vec, d: nat)
    requires |points| == |assign| && forall i :: 0 <= i < |assign| ==> assign[i] != c
    ensures Sum(|points|, MemberError(points, assign, c, z, d)) == 0.0
  {
    SumZero(|points|, MemberError(points, assign, c, z, d));
  }

  // ----- The assignment step -----

  /** The first nearest centroid. */
  ghost predicate Nearest(v: Vec, cents: seq<Vec>, c: nat) {
    && c < |cents| && |cents[c]| == |v|
    && (forall b :: 0 <= b < |cents| && |cents[b]| == |v| ==> SqUpTo(v, cents[c], |v|) <= SqUpTo(v, cents[b], |v|))
    && (forall b :: 0 <= b < c && |cents[b]| == |v| ==> SqUpTo(v, cents[c], |v|) < SqUpTo(v, cents[b], |v|))
  }

  method NearestCentroid(v: Vec, cents: seq<Vec>) returns (best: nat)
    requires cents != [] && AllDim(cents, |v|)
    ensures Nearest(v, cents, best)
  {
    best := 0;
    var bestd := SquaredDistance(v, cents[0]);
    for c := 1 to |cents|
      invariant best < c && bestd == SqUpTo(v, cents[best], |v|)
      invariant forall b :: 0 <= b < c ==> bestd <= SqUpTo(v, cents[b], |v|)
      invariant forall b :: 0 <= b < best ==> bestd < SqUpTo(v, cents[b], |v|)
    {
      var d := SquaredDistance(v, cents[c]);
      if d < bestd { bestd, best := d, c; }
    }
  }

  /** Assigning every point to its nearest centroid does not raise the distortion. */
  lemma {:induction false} NearestIsBest(points: seq<Vec>, cents: seq<Vec>, before: seq<nat>, after: seq<nat>, d: nat)
    requires AllDim(points, d) && AllDim(cents, d) && AssignOk(points, cents, before) && AssignOk(points, cents, after)
    requires forall i :: 0 <= i < |points| ==> Nearest(points[i], cents, after[i])
    ensures Distortion(points, cents, after, d) <= Distortion(points, cents, before, d)
  {
    SumAtMost(|points|, Error(points, cents, after, d), Error(points, cents, before, d));
  }

  lemma {:induction false} NearestUnique(v: Vec, cents: seq<Vec>, a: nat, b: nat)
    requires Nearest(v, cents, a) && Nearest(v, cents, b)
    ensures a == b
  {}

  // ----- What an iteration computes -----

  /** The state of the training of one subspace. */
  datatype Fit = Fit(cents: seq<Vec>, assign: seq<nat>)

  ghost predicate FitOk(points: seq<Vec>, f: Fit, d: nat) {
    points != [] && AllDim(points, d) && AllDim(f.cents, d) && f.cents != [] && AssignOk(points, f.cents, f.assign)
  }

  ghost function NearestOf(v: Vec, cents: seq<Vec>): (c: nat)
    requires cents != []
    ensures c < |cents|
  {
    if exists c: nat :: Nearest(v, cents, c) then
      var c: nat :| Nearest(v, cents, c);
      c
    else 0
  }

  /** Every point's nearest centroid. */
  ghost function Assigned(points: seq<Vec>, cents: seq<Vec>): (a: seq<nat>)
    requires cents != []
    ensures |a| == |points| && AssignOk(points, cents, a)
  {
    seq(|points|, i requires 0 <= i < |points| => NearestOf(points[i], cents))
  }

  /** The coordinate-wise mean of the members of a cluster. */
  ghost function Mean(points: seq<Vec>, assign: seq<nat>, c: nat, d: nat): (z: Vec)
    requires |assign| == |points| && Members(assign, c, |points|) > 0
    ensures |z| == d
  {
    seq(d, j requires 0 <= j < d => Sum(|points|, MemberCoord(points, assign, c, j)) / Members(assign, c, |points|) as real)
  }

  /** The first of the first n points that is furthest from the centroid it is assigned to. */
  ghost function Worst(points: seq<Vec>, f: Fit, d: nat, n: nat): (w: nat)
    requires FitOk(points, f, d) && 0 < n <= |points|
    ensures w < n
    ensures forall i :: 0 <= i < n ==>
      SqUpTo(points[i], f.cents[f.assign[i]], d) <= SqUpTo(points[w], f.cents[f.assign[w]], d)
  {
    if n == 1 then 0
    else
      var w := Worst(points, f, d, n - 1);
      if SqUpTo(points[n - 1], f.cents[f.assign[n - 1]], d) > SqUpTo(points[w], f.cents[f.assign[w]], d) then n - 1 else w
  }

  /** Cluster c moves to the mean of the points `first` gives it, or, having none, onto the worst-served point. */
  ghost function Reseat(points: seq<Vec>, first: seq<nat>, f: Fit, d: nat, c: nat): (r: Fit)
    requires FitOk(points, f, d) && |first| == |points| && c < |f.cents|
    ensures FitOk(points, r, d) && |r.cents| == |f.cents|
  {
    if Members(first, c, |points|) > 0 then f.(cents := f.cents[c := Mean(points, first, c, d)])
    else
      var w := Worst(points, f, d, |points|);
      Fit(f.cents[c := points[w]], f.assign[w := c])
  }

  /** The clusters below n reseated one after the other. */
  ghost function Reseated(points: seq<Vec>, first: seq<nat>, f: Fit, d: nat, n: nat): (r: Fit)
    requires FitOk(points, f, d) && |first| == |points| && n <= |f.cents|
    ensures FitOk(points, r, d) && |r.cents| == |f.cents|
  {
    if n == 0 then f else Reseat(points, first, Reseated(points, first, f, d, n - 1), d, n - 1)
  }

  /** One iteration. */
  ghost function Iterated(points: seq<Vec>, f: Fit, d: nat): (r: Fit)
    requires FitOk(points, f, d)
    ensures FitOk(points, r, d) && |r.cents| == |f.cents|
  {
    var first := Assigned(points, f.cents);
    Reseated(points, first, f.(assign := first), d, |f.cents|)
  }

  /** An iteration moves some point to another cluster, or respawns a cluster. */
  ghost predicate Changes(points: seq<Vec>, f: Fit, d: nat)
    requires FitOk(points, f, d)
  {
    var first := Assigned(points, f.cents);
    first != f.assign || exists c :: 0 <= c < |f.cents| && Members(first, c, |points|) == 0
  }

  /** Iterations it, it + 1, ... below iters, ending early after one (not the first) that changes nothing. */
  ghost function Trained(points: seq<Vec>, f: Fit, d: nat, it: nat, iters: nat): (r: Fit)
    requires FitOk(points, f, d)
    ensures FitOk(points, r, d)
    decreases iters - it
  {
    if it >= iters then f
    else if it > 0 && !Changes(points, f, d) then Iterated(points, f, d)
    else Trained(points, Iterated(points, f, d), d, it + 1, iters)
  }

  // ----- One iteration -----

  /** Give every point its nearest centroid; says whether any assignment changed. */
  method AssignAll(points: seq<Vec>, cents: seq<Vec>, assign: array<nat>, d: nat) returns (changed: bool)
    requires AllDim(points, d) && AllDim(cents, d) && cents != [] && assign.Length == |points|
    modifies assign
    ensures forall i :: 0 <= i < |points| ==> Nearest(points[i], cents, assign[i])
    ensures assign[..] == Assigned(points, cents)
    ensures changed <==> assign[..] != old(assign[..])
  {
    hide Nearest;
    changed := false;
    for i := 0 to |points|
      invariant forall j :: 0 <= j < i ==> Nearest(points[j], cents, assign[j])
      invariant forall j :: i <= j < |points| ==> assign[j] == old(assign[j])
      invariant changed <==> exists j :: 0 <= j < i && assign[j] != old(assign[j])
    {
      var best := NearestCentroid(points[i], cents);
      if assign[i] != best {
        assign[i] := best;
        changed := true;
      }
    }
    if !changed { assert assign[..] == old(assign[..]); }
    forall i | 0 <= i < |points| ensures assign[i] == NearestOf(points[i], cents) {
      var c: nat :| Nearest(points[i], cents, c) && NearestOf(points[i], cents) == c;
      NearestUnique(points[i], cents, c, assign[i]);
    }
  }

  function AddVec(a: Vec, b: Vec): (r: Vec)
    requires |a| == |b|
    ensures |r| == |a| && forall j :: 0 <= j < |a| ==> r[j] == a[j] + b[j]
  {
    seq(|a|, j requires 0 <= j < |a| => a[j] + b[j])
  }

  /** Sum and number of the points of every cluster. */
  method Accumulate(points: seq<Vec>, assign: seq<nat>, ksub: nat, d: nat) returns (acc: array<Vec>, cnt: array<nat>)
    requires |assign| == |points| && AllDim(points, d) && forall i :: 0 <= i < |assign| ==> assign[i] < ksub
    ensures fresh(acc) && fresh(cnt) && acc.Length == cnt.Length == ksub
    ensures forall c :: 0 <= c < ksub ==> cnt[c] == Members(assign, c, |points|) && |acc[c]| == d
    ensures forall c, j :: 0 <= c < ksub && 0 <= j < d ==> acc[c][j] == Sum(|points|, MemberCoord(points, assign, c, j))
  {
    acc := new Vec[ksub](_ => seq(d, _ => 0.0));
    cnt := new nat[ksub](_ => 0);
    for i := 0 to |points|
      invariant forall c :: 0 <= c < ksub ==> cnt[c] == Members(assign, c, i) && |acc[c]| == d
      invariant forall c, j :: 0 <= c < ksub && 0 <= j < d ==> acc[c][j] == Sum(i, MemberCoord(points, assign, c, j))
    {
      acc[assign[i]] := AddVec(acc[assign[i]], points[i]);
      cnt[assign[i]] := cnt[assign[i]] + 1;
    }
  }

  /** The point furthest from the centroid it is assigned to. */
  method FurthestPoint(points: seq<Vec>, cents: seq<Vec>, assign: seq<nat>, d: nat) returns (worst: nat)
    requires FitOk(points, Fit(cents, assign), d)
    ensures worst == Worst(points, Fit(cents, assign), d, |points|)
  {
    worst := 0;
    var worstD := -1.0;
    for i := 0 to |points|
      invariant worst < |points| && (i > 0 ==> worstD == SqUpTo(points[worst], cents[assign[worst]], d))
      invariant i == 0 ==> worstD == -1.0
      invariant i > 0 ==> worst == Worst(points, Fit(cents, assign), d, i)
    {
      SqNonNegative(points[i], cents[assign[i]], d);
      var e := SquaredDistance(points[i], cents[assign[i]]);
      if e > worstD { worstD, worst := e, i; }
    }
  }

  function DivideVec(a: Vec, n: nat): (r: Vec)
    requires n > 0
    ensures |r| == |a| && forall j :: 0 <= j < |a| ==> r[j] == a[j] / n as real && n as real * r[j] == a[j]
  {
    var r := seq(|a|, j requires 0 <= j < |a| => a[j] / n as real);
    assert forall j :: 0 <= j < |a| ==> n as real * r[j] == a[j] by {
      forall j | 0 <= j < |a| ensures n as real * r[j] == a[j] { TimesQuotient(a[j], n as real); }
    }
    r
  }

  lemma {:induction false} TimesQuotient(x: real, n: real)
    requires n > 0.0
    ensures n * (x / n) == x
  {}

  /** A point either keeps its cluster, or sits on the respawned centroid it was given. */
  ghost predicate KeptOrOwn(points: seq<Vec>, cents: seq<Vec>, first: seq<nat>, assign: seq<nat>, done: nat) {
    && |first| == |assign| == |points| && done <= |cents|
    && forall i :: 0 <= i < |points| ==> assign[i] == first[i] || (assign[i] < done && cents[assign[i]] == points[i])
  }

  /** Points on their own centroid cost nothing, so respawning does not raise the distortion either. */
  lemma {:induction false} RespawnsAreFree(points: seq<Vec>, cents: seq<Vec>, first: seq<nat>, assign: seq<nat>, d: nat)
    requires AllDim(points, d) && AllDim(cents, d) && AssignOk(points, cents, first) && AssignOk(points, cents, assign)
    requires KeptOrOwn(points, cents, first, assign, |cents|)
    ensures Distortion(points, cents, assign, d) <= Distortion(points, cents, first, d)
  {
    forall i | 0 <= i < |points| ensures Error(points, cents, assign, d)(i) <= Error(points, cents, first, d)(i) {
      SqNonNegative(points[i], cents[first[i]], d);
      SqSelf(points[i], d);
    }
    SumAtMost(|points|, Error(points, cents, assign, d), Error(points, cents, first, d));
  }

  /** Centroid c after the update: the mean of its cluster, or anywhere when the cluster is empty. */
  lemma {:induction false} CentroidUpdated(points: seq<Vec>, cents: seq<Vec>, first: seq<nat>, d: nat, c: nat, z: Vec)
    requires AllDim(points, d) && AllDim(cents, d) && AssignOk(points, cents, first) && c < |cents| && |z| == d
    requires IsMean(points, first, c, z) || Members(first, c, |points|) == 0
    ensures AllDim(cents[c := z], d)
    ensures Distortion(points, cents[c := z], first, d) <= Distortion(points, cents, first, d)
  {
    hide Distortion, IsMean;
    if Members(first, c, |points|) == 0 {
      NoneAssigned(first, c, |points|);
      NoMembers(points, first, c, z, d);
      NoMembers(points, first, c, cents[c], d);
    } else {
      MeanMinimises(points, first, c, z, cents[c], d);
    }
    MoveCentroid(points, cents, first, d, c, z);
  }

  lemma {:induction false} NoneAssigned(assign: seq<nat>, c: nat, n: nat)
    requires n <= |assign| && Members(assign, c, n) == 0
    ensures forall i :: 0 <= i < n ==> assign[i] != c
  {
    if n > 0 { NoneAssigned(assign, c, n - 1); }
  }

  lemma {:induction false} MeanIsMean(points: seq<Vec>, first: seq<nat>, c: nat, d: nat)
    requires |first| == |points| && Members(first, c, |points|) > 0
    ensures IsMean(points, first, c, Mean(points, first, c, d))
  {
    hide Members, Sum, MemberCoord;
    var n := Members(first, c, |points|) as real;
    forall j | 0 <= j < d ensures n * Mean(points, first, c, d)[j] == Sum(|points|, MemberCoord(points, first, c, j)) {
      TimesQuotient(Sum(|points|, MemberCoord(points, first, c, j)), n);
    }
  }

  /** Reseating a cluster does not raise the distortion of the original assignment. */
  lemma {:induction false} ReseatKeeps(points: seq<Vec>, first: seq<nat>, f: Fit, d: nat, c: nat)
    requires FitOk(points, f, d) && AssignOk(points, f.cents, first) && c < |f.cents|
    requires KeptOrOwn(points, f.cents, first, f.assign, c)
    ensures var r := Reseat(points, first, f, d, c);
      && KeptOrOwn(points, r.cents, first, r.assign, c + 1)
      && Distortion(points, r.cents, first, d) <= Distortion(points, f.cents, first, d)
  {
    hide Distortion, IsMean, Mean, Members, Worst;
    if Members(first, c, |points|) > 0 {
      MeanIsMean(points, first, c, d);
      CentroidUpdated(points, f.cents, first, d, c, Mean(points, first, c, d));
    } else {
      CentroidUpdated(points, f.cents, first, d, c, points[Worst(points, f, d, |points|)]);
    }
  }

  lemma {:induction false} ReseatedKeeps(points: seq<Vec>, f: Fit, d: nat, n: nat)
    requires FitOk(points, f, d) && n <= |f.cents|
    ensures var r := Reseated(points, f.assign, f, d, n);
      && KeptOrOwn(points, r.cents, f.assign, r.assign, n)
      && Distortion(points, r.cents, f.assign, d) <= Distortion(points, f.cents, f.assign, d)
  {
    hide Distortion, Reseat;
    if n > 0 {
      ReseatedKeeps(points, f, d, n - 1);
      ReseatKeeps(points, f.assign, Reseated(points, f.assign, f, d, n - 1), d, n - 1);
    }
  }

  lemma {:induction false} NearestExists(v: Vec, cents: seq<Vec>, n: nat) returns (c: nat)
    requires 0 < n <= |cents| && AllDim(cents, |v|)
    ensures Nearest(v, cents[..n], c)
  {
    if n == 1 {
      c := 0;
    } else {
      c := NearestExists(v, cents, n - 1);
      if SqUpTo(v, cents[n - 1], |v|) < SqUpTo(v, cents[c], |v|) { c := n - 1; }
    }
  }

  lemma {:induction false} AssignedIsNearest(points: seq<Vec>, cents: seq<Vec>, d: nat)
    requires AllDim(points, d) && AllDim(cents, d) && cents != []
    ensures forall i :: 0 <= i < |points| ==> Nearest(points[i], cents, Assigned(points, cents)[i])
  {
    hide Nearest;
    forall i | 0 <= i < |points| ensures Nearest(points[i], cents, NearestOf(points[i], cents)) {
      var c := NearestExists(points[i], cents, |cents|);
      assert cents[..|cents|] == cents;
    }
  }

  /** One iteration, respawns included, never raises the distortion. */
  lemma {:induction false} IterationKeeps(points: seq<Vec>, f: Fit, d: nat)
    requires FitOk(points, f, d)
    ensures var r := Iterated(points, f, d);
      Distortion(points, r.cents, r.assign, d) <= Distortion(points, f.cents, f.assign, d)
  {
    hide Distortion, Nearest, Reseated, Assigned;
    var first, r := Assigned(points, f.cents), Iterated(points, f, d);
    AssignedIsNearest(points, f.cents, d);
    NearestIsBest(points, f.cents, f.assign, first, d);
    ReseatedKeeps(points, f.(assign := first), d, |f.cents|);
    RespawnsAreFree(points, r.cents, first, r.assign, d);
  }

  /** Move every centroid to its cluster's mean; respawn the centroid of an empty cluster on the worst-served point. */
  lemma {:induction false} ReseatedNone(points: seq<Vec>, f: Fit, d: nat)
    requires FitOk(points, f, d)
    ensures |f.assign| == |points| && Reseated(points, f.assign, f, d, 0) == f
  {}

  lemma {:induction false} ReseatedNext(points: seq<Vec>, first: seq<nat>, f: Fit, d: nat, c: nat)
    requires FitOk(points, f, d) && |first| == |points| && c < |f.cents|
    ensures Reseated(points, first, f, d, c + 1) == Reseat(points, first, Reseated(points, first, f, d, c), d, c)
  {
    hide Reseat;
  }

  lemma {:induction false} MeanIs(points: seq<Vec>, first: seq<nat>, c: nat, d: nat, a: Vec, mean: Vec)
    requires |first| == |points| && Members(first, c, |points|) > 0 && |a| == d == |mean|
    requires forall j :: 0 <= j < d ==> a[j] == Sum(|points|, MemberCoord(points, first, c, j))
    requires forall j :: 0 <= j < d ==> mean[j] == a[j] / Members(first, c, |points|) as real
    ensures mean == Mean(points, first, c, d)
  {
    hide Members, Sum, MemberCoord;
  }

  method UpdateCentroids(points: seq<Vec>, cents: array<Vec>, assign: array<nat>, acc: array<Vec>, cnt: array<nat>, d: nat)
    returns (changed: bool)
    requires FitOk(points, Fit(cents[..], assign[..]), d)
    requires acc.Length == cnt.Length == cents.Length && acc != cents && cnt != assign
    requires forall c :: 0 <= c < cents.Length ==> cnt[c] == Members(assign[..], c, |points|) && |acc[c]| == d
    requires forall c, j :: 0 <= c < cents.Length && 0 <= j < d ==>
      acc[c][j] == Sum(|points|, MemberCoord(points, assign[..], c, j))
    modifies cents, assign
    ensures FitOk(points, Fit(cents[..], assign[..]), d)
    ensures Fit(cents[..], assign[..]) == Reseated(points, old(assign[..]), old(Fit(cents[..], assign[..])), d, cents.Length)
    ensures changed <==> exists c :: 0 <= c < cents.Length && cnt[c] == 0
  {
    hide Sum, MemberCoord, Members, SqUpTo, Worst, FitOk, Reseated;
    ghost var first, start := assign[..], Fit(cents[..], assign[..]);
    ReseatedNone(points, start, d);
    changed := false;
    for c: nat := 0 to cents.Length
      invariant FitOk(points, Fit(cents[..], assign[..]), d)
      invariant Fit(cents[..], assign[..]) == Reseated(points, first, start, d, c)
      invariant changed <==> exists b :: 0 <= b < c && cnt[b] == 0
    {
      ghost var before, given := cents[..], assign[..];
      ReseatedNext(points, first, start, d, c);
      if cnt[c] > 0 {
        var mean := DivideVec(acc[c], cnt[c]);
        MeanIs(points, first, c, d, acc[c], mean);
        cents[c] := mean;
        assert cents[..] == before[c := mean];
      } else {
        var worst := FurthestPoint(points, cents[..], assign[..], d);
        cents[c] := points[worst];
        assert cents[..] == before[c := points[worst]];
        assign[worst] := c;
        assert assign[..] == given[worst := c];
        changed := true;
      }
    }
  }

  /** One Lloyd iteration, empty clusters respawned: the distortion never goes up. */
  method LloydIteration(points: seq<Vec>, cents: array<Vec>, assign: array<nat>, d: nat) returns (changed: bool)
    requires FitOk(points, Fit(cents[..], assign[..]), d)
    modifies cents, assign
    ensures FitOk(points, Fit(cents[..], assign[..]), d)
    ensures Fit(cents[..], assign[..]) == Iterated(points, old(Fit(cents[..], assign[..])), d)
    ensures changed <==> Changes(points, old(Fit(cents[..], assign[..])), d)
    ensures Distortion(points, cents[..], assign[..], d) <= old(Distortion(points, cents[..], assign[..], d))
    ensures !changed ==> forall c :: 0 <= c < cents.Length ==> c in assign[..]
  {
    hide Distortion, Members, MemberCoord, Sum, Reseated, Assigned;
    var moved := AssignAll(points, cents[..], assign, d);
    IterationKeeps(points, old(Fit(cents[..], assign[..])), d);
    var acc, cnt := Accumulate(points, assign[..], cents.Length, d);
    ghost var start, first := cents[..], assign[..];
    var respawned := UpdateCentroids(points, cents, assign, acc, cnt, d);
    changed := moved || respawned;
    if !changed {
      Unrespawned(points, first, Fit(start, first), d, |start|);
      forall c | 0 <= c < cents.Length ensures c in assign[..] {
        assert cnt[c] != 0;
        SomeAssigned(first, c, |points|);
      }
    }
  }

  /** Without empty clusters, reseating leaves the assignment alone. */
  lemma {:induction false} Unrespawned(points: seq<Vec>, first: seq<nat>, f: Fit, d: nat, n: nat)
    requires FitOk(points, f, d) && |first| == |points| && n <= |f.cents|
    requires forall c :: 0 <= c < n ==> Members(first, c, |points|) > 0
    ensures Reseated(points, first, f, d, n).assign == f.assign
  {
    hide Members, Mean, Worst;
    if n > 0 { Unrespawned(points, first, f, d, n - 1); }
  }

  lemma {:induction false} SomeAssigned(assign: seq<nat>, c: nat, n: nat)
    requires n <= |assign| && Members(assign, c, n) > 0
    ensures c in assign
  {
    if assign[n - 1] != c { SomeAssigned(assign, c, n - 1); }
  }

  /** A whole training never raises the distortion. */
  lemma {:induction false} TrainingKeeps(points: seq<Vec>, f: Fit, d: nat, it: nat, iters: nat)
    requires FitOk(points, f, d)
    ensures var r := Trained(points, f, d, it, iters);
      Distortion(points, r.cents, r.assign, d) <= Distortion(points, f.cents, f.assign, d)
    decreases iters - it
  {
    hide Distortion, Iterated, Changes;
    if it < iters {
      IterationKeeps(points, f, d);
      if it == 0 || Changes(points, f, d) { TrainingKeeps(points, Iterated(points, f, d), d, it + 1, iters); }
    }
  }

  /** Lloyd iterations until nothing changes or the budget is spent. */
  method Lloyd(points: seq<Vec>, cents: array<Vec>, iters: nat, d: nat) returns (assign: array<nat>)
    requires points != [] && AllDim(points, d) && cents.Length > 0 && AllDim(cents[..], d)
    modifies cents
    ensures fresh(assign) && FitOk(points, Fit(cents[..], assign[..]), d)
    ensures Fit(cents[..], assign[..]) == Trained(points, Fit(old(cents[..]), seq(|points|, _ => 0)), d, 0, iters)
    ensures Distortion(points, cents[..], assign[..], d)
         <= old(Distortion(points, cents[..], seq(|points|, _ => 0), d))
  {
    hide Distortion, Iterated, Changes;
    assign := new nat[|points|](_ => 0);
    assert assign[..] == seq(|points|, _ => 0);
    ghost var start := Fit(cents[..], assign[..]);
    TrainingKeeps(points, start, d, 0, iters);
    for it := 0 to iters
      invariant FitOk(points, Fit(cents[..], assign[..]), d)
      invariant Trained(points, Fit(cents[..], assign[..]), d, it, iters) == Trained(points, start, d, 0, iters)
    {
      ghost var f := Fit(cents[..], assign[..]);
      var changed := LloydIteration(points, cents, assign, d);
      if !changed && it > 0 {
        assert Trained(points, f, d, it, iters) == Fit(cents[..], assign[..]);
        return;
      }
    }
  }
}
