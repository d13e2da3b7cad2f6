/** Product quantization: one centroid per subspace, optimal codes, and scores by table lookup. */
module Pq {
  import opened Kmeans

  /** m subspaces of dsub coordinates, ksub centroids in each. */
  datatype Codebook = Codebook(m: nat, ksub: nat, dsub: nat, cents: seq<seq<Vec>>)

  type Code = seq<nat>

  /** Where block s starts when blocks have d entries. */
  function At(s: nat, d: nat): (r: nat)
    ensures s == 0 ==> r == 0
  {
    s * d
  }

  ghost predicate CodebookOk(b: Codebook) {
    && b.ksub > 0 && |b.cents| == b.m
    && forall s :: 0 <= s < b.m ==> |b.cents[s]| == b.ksub && AllDim(b.cents[s], b.dsub)
  }

  /** How many bytes of a code are looked at: a code may be shorter or longer than the number of subspaces. */
  function Used(b: Codebook, code: Code): nat { if |code| < b.m then |code| else b.m }

  /** Every code byte that is looked at names a centroid. */
  ghost predicate CodeOk(b: Codebook, code: Code) { forall s :: 0 <= s < Used(b, code) ==> code[s] < b.ksub }

  // ----- Decoding -----

  /** The centroids named by the first s code bytes, one after the other. */
  ghost function DecodedTo(b: Codebook, code: Code, s: nat): (r: Vec)
    requires CodebookOk(b) && CodeOk(b, code) && s <= Used(b, code)
    ensures |r| == At(s, b.dsub)
  {
    hide At;
    if s == 0 then []
    else
      Block(s - 1, b.dsub);
      DecodedTo(b, code, s - 1) + b.cents[s - 1][code[s - 1]]
  }

  /** The decoded vector; subspaces without a code byte are zero. */
  ghost function Decoded(b: Codebook, code: Code): (r: Vec)
    requires CodebookOk(b) && CodeOk(b, code)
    ensures |r| == At(b.m, b.dsub)
  {
    hide At;
    BlocksFit(Used(b, code), b.m, b.dsub);
    DecodedTo(b, code, Used(b, code)) + seq(At(b.m, b.dsub) - At(Used(b, code), b.dsub), _ => 0.0)
  }

  lemma {:induction false} Block(s: nat, d: nat)
    ensures At(s + 1, d) == At(s, d) + d
  {}

  lemma {:induction false} BlocksFit(s: nat, m: nat, d: nat)
    requires s <= m
    ensures At(s, d) <= At(m, d)
  {}

  /** Coordinates of subspace s. */
  function SubOf(v: Vec, s: nat, d: nat): (r: Vec)
    requires At(s, d) + d <= |v|
    ensures |r| == d
  {
    v[At(s, d)..At(s, d) + d]
  }

  lemma {:induction false} SubFits(s: nat, m: nat, d: nat)
    requires s < m
    ensures At(s, d) + d <= At(m, d)
  {
    hide At;
    Block(s, d);
    BlocksFit(s + 1, m, d);
  }

  method Decode(b: Codebook, code: Code) returns (out: array<real>)
    requires CodebookOk(b) && CodeOk(b, code)
    ensures fresh(out) && out[..] == Decoded(b, code)
  {
    hide Decoded, DecodedTo, At;
    var dim, at := At(b.m, b.dsub), 0;
    out := new real[dim](_ => 0.0);
    DecodedNone(b, code);
    var s := 0;
    while s < b.m && s < |code|
      invariant 0 <= s <= Used(b, code) && at == At(s, b.dsub) <= dim
      invariant out[..at] == DecodedTo(b, code, s)
      invariant forall i :: at <= i < dim ==> out[i] == 0.0
    {
      CopyCentroid(b, code, s, out, at);
      at := at + b.dsub;
      s := s + 1;
    }
    assert out[..] == out[..at] + out[at..];
    DecodedIs(b, code, out[..at], out[at..]);
  }

  /** Subspace s of the decoded vector. */
  method CopyCentroid(b: Codebook, code: Code, s: nat, out: array<real>, at: nat)
    requires CodebookOk(b) && CodeOk(b, code) && s < Used(b, code) && at == At(s, b.dsub) && out.Length == At(b.m, b.dsub)
    requires at <= out.Length && out[..at] == DecodedTo(b, code, s)
    modifies out
    ensures at + b.dsub == At(s + 1, b.dsub) <= out.Length
    ensures out[..at + b.dsub] == DecodedTo(b, code, s + 1)
    ensures forall i :: at + b.dsub <= i < out.Length ==> out[i] == old(out[i])
  {
    hide DecodedTo, At;
    DecodedStep(b, code, s);
    SubFits(s, b.m, b.dsub);
    CopyInto(out, at, b.cents[s][code[s]]);
  }

  lemma {:induction false} DecodedNone(b: Codebook, code: Code)
    requires CodebookOk(b) && CodeOk(b, code)
    ensures DecodedTo(b, code, 0) == []
  {}

  lemma {:induction false} DecodedIs(b: Codebook, code: Code, head: Vec, tail: Vec)
    requires CodebookOk(b) && CodeOk(b, code) && head == DecodedTo(b, code, Used(b, code))
    requires |head| + |tail| == At(b.m, b.dsub) && forall i :: 0 <= i < |tail| ==> tail[i] == 0.0
    ensures head + tail == Decoded(b, code)
  {
    hide DecodedTo, At;
  }

  lemma {:induction false} DecodedStep(b: Codebook, code: Code, s: nat)
    requires CodebookOk(b) && CodeOk(b, code) && s < Used(b, code)
    ensures At(s + 1, b.dsub) == At(s, b.dsub) + b.dsub
    ensures DecodedTo(b, code, s + 1) == DecodedTo(b, code, s) + b.cents[s][code[s]]
  {
    hide At;
    Block(s, b.dsub);
  }

  method CopyInto(out: array<real>, at: nat, v: Vec)
    requires at + |v| <= out.Length
    modifies out
    ensures out[..at + |v|] == old(out[..at]) + v
    ensures forall i :: at + |v| <= i < out.Length ==> out[i] == old(out[i])
  {
    for j := 0 to |v|
      invariant out[..at + j] == old(out[..at]) + v[..j]
      invariant forall i :: at + j <= i < out.Length ==> out[i] == old(out[i])
    {
      out[at + j] := v[j];
    }
  }

  // ----- Optimal codes -----

  lemma {:induction false} SqSplit(v: Vec, a: Vec, tail: Vec, n: nat, d: nat)
    requires |a| == n && d <= |tail| && n + d <= |v|
    ensures SqUpTo(v, a + tail, n + d) == SqUpTo(v, a, n) + SqUpTo(v[n..n + d], tail, d)
  {
    if d == 0 {
      SqPrefix(v, a + tail, a, n);
    } else {
      SqSplit(v, a, tail, n, d - 1);
      SqPrefix2(v[n..n + d], v[n..n + d - 1], tail, d - 1);
    }
  }

  lemma {:induction false} SqPrefix(v: Vec, a: Vec, b: Vec, n: nat)
    requires n <= |a| && n <= |b| && n <= |v| && a[..n] == b[..n]
    ensures SqUpTo(v, a, n) == SqUpTo(v, b, n)
  {
    if n > 0 {
      assert a[n - 1] == a[..n][n - 1] && b[n - 1] == b[..n][n - 1];
      assert a[..n - 1] == a[..n][..n - 1] && b[..n - 1] == b[..n][..n - 1];
      SqPrefix(v, a, b, n - 1);
    }
  }

  lemma {:induction false} SqPrefix2(v: Vec, w: Vec, a: Vec, n: nat)
    requires n <= |v| && n <= |w| && n <= |a| && v[..n] == w[..n]
    ensures SqUpTo(v, a, n) == SqUpTo(w, a, n)
  {
    if n > 0 {
      assert v[n - 1] == v[..n][n - 1] && w[n - 1] == w[..n][n - 1];
      assert v[..n - 1] == v[..n][..n - 1] && w[..n - 1] == w[..n][..n - 1];
      SqPrefix2(v, w, a, n - 1);
    }
  }

  /** Each byte names the first nearest centroid of its subspace. */
  ghost predicate NearestCode(b: Codebook, v: Vec, code: Code) {
    && |code| == b.m && |b.cents| == b.m
    && forall s :: 0 <= s < b.m && At(s, b.dsub) + b.dsub <= |v| ==> Nearest(SubOf(v, s, b.dsub), b.cents[s], code[s])
  }

  lemma {:induction false} NearestToPrefix(b: Codebook, v: Vec, code: Code, other: Code, s: nat)
    requires CodebookOk(b) && |v| == At(b.m, b.dsub) && NearestCode(b, v, code)
    requires CodeOk(b, code) && CodeOk(b, other) && |other| >= b.m && s <= b.m
    ensures At(s, b.dsub) <= |v|
    ensures SqUpTo(v, DecodedTo(b, code, s), At(s, b.dsub)) <= SqUpTo(v, DecodedTo(b, other, s), At(s, b.dsub))
  {
    hide SqUpTo, Nearest, At;
    BlocksFit(s, b.m, b.dsub);
    if s > 0 {
      var t := s - 1;
      NearestToPrefix(b, v, code, other, t);
      SubFits(t, b.m, b.dsub);
      Block(t, b.dsub);
      SqSplit(v, DecodedTo(b, code, t), b.cents[t][code[t]], At(t, b.dsub), b.dsub);
      SqSplit(v, DecodedTo(b, other, t), b.cents[t][other[t]], At(t, b.dsub), b.dsub);
      NearestIsLeast(SubOf(v, t, b.dsub), b.cents[t], code[t], other[t]);
    }
  }

  lemma {:induction false} NearestIsLeast(v: Vec, cents: seq<Vec>, c: nat, other: nat)
    requires Nearest(v, cents, c) && other < |cents| && |cents[other]| == |v|
    ensures SqUpTo(v, cents[c], |v|) <= SqUpTo(v, cents[other], |v|)
  {}

  /** The code chosen subspace by subspace decodes at least as close to the vector as any other code. */
  lemma {:induction false} NearestCodeIsOptimal(b: Codebook, v: Vec, code: Code, other: Code)
    requires CodebookOk(b) && |v| == At(b.m, b.dsub) && NearestCode(b, v, code)
    requires CodeOk(b, code) && CodeOk(b, other) && |other| >= b.m
    ensures SqUpTo(v, Decoded(b, code), |v|) <= SqUpTo(v, Decoded(b, other), |v|)
  {
    hide SqUpTo, Nearest, At;
    NearestToPrefix(b, v, code, other, b.m);
    FullCodeDecodes(b, code);
    FullCodeDecodes(b, other);
  }

  lemma {:induction false} FullCodeDecodes(b: Codebook, code: Code)
    requires CodebookOk(b) && CodeOk(b, code) && |code| >= b.m
    ensures Decoded(b, code) == DecodedTo(b, code, b.m)
  {}

  /** Encode into a caller's buffer: as many bytes as it holds, at most one per subspace. */
  method EncodeInto(b: Codebook, v: Vec, out: array<nat>)
    requires CodebookOk(b) && |v| == At(b.m, b.dsub)
    modifies out
    ensures out.Length >= b.m ==> NearestCode(b, v, out[..b.m]) && CodeOk(b, out[..b.m])
    ensures out.Length >= b.m ==> out[b.m..] == old(out[b.m..])
    ensures forall s :: 0 <= s < b.m && s < out.Length && At(s, b.dsub) + b.dsub <= |v| ==>
      Nearest(SubOf(v, s, b.dsub), b.cents[s], out[s])
  {
    hide Nearest, At;
    var s := 0;
    while s < b.m && s < out.Length
      invariant 0 <= s <= b.m && s <= out.Length
      invariant forall t :: 0 <= t < s && At(t, b.dsub) + b.dsub <= |v| ==>
        out[t] < b.ksub && Nearest(SubOf(v, t, b.dsub), b.cents[t], out[t])
      invariant forall t :: s <= t < out.Length ==> out[t] == old(out[t])
    {
      SubFits(s, b.m, b.dsub);
      var best := NearestCentroid(SubOf(v, s, b.dsub), b.cents[s]);
      NearestInRange(SubOf(v, s, b.dsub), b.cents[s], best);
      out[s] := best;
      s := s + 1;
    }
    forall t | 0 <= t < b.m ensures At(t, b.dsub) + b.dsub <= |v| { SubFits(t, b.m, b.dsub); }
  }

  lemma {:induction false} NearestInRange(v: Vec, cents: seq<Vec>, c: nat)
    requires Nearest(v, cents, c)
    ensures c < |cents|
  {}

  // ----- Scores by table lookup -----

  function DotUpTo(a: Vec, b: Vec, n: nat): real
    requires n <= |a| && n <= |b|
  {
    if n == 0 then 0.0 else DotUpTo(a, b, n - 1) + a[n - 1] * b[n - 1]
  }

  method Dot(a: Vec, b: Vec) returns (s: real)
    requires |a| == |b|
    ensures s == DotUpTo(a, b, |a|)
  {
    s := 0.0;
    for i := 0 to |a|
      invariant s == DotUpTo(a, b, i)
    {
      s := s + a[i] * b[i];
    }
  }

  lemma {:induction false} DotPrefix(v: Vec, w: Vec, a: Vec, b: Vec, n: nat)
    requires n <= |v| && n <= |w| && n <= |a| && n <= |b| && v[..n] == w[..n] && a[..n] == b[..n]
    ensures DotUpTo(v, a, n) == DotUpTo(w, b, n)
  {
    if n > 0 {
      assert v[n - 1] == v[..n][n - 1] && w[n - 1] == w[..n][n - 1] && a[n - 1] == a[..n][n - 1] && b[n - 1] == b[..n][n - 1];
      assert v[..n - 1] == v[..n][..n - 1] && w[..n - 1] == w[..n][..n - 1];
      assert a[..n - 1] == a[..n][..n - 1] && b[..n - 1] == b[..n][..n - 1];
      DotPrefix(v, w, a, b, n - 1);
    }
  }

  lemma {:induction false} DotSplit(v: Vec, a: Vec, tail: Vec, n: nat, d: nat)
    requires |a| == n && d <= |tail| && n + d <= |v|
    ensures DotUpTo(v, a + tail, n + d) == DotUpTo(v, a, n) + DotUpTo(v[n..n + d], tail, d)
  {
    if d == 0 {
      DotPrefix(v, v, a + tail, a, n);
    } else {
      DotSplit(v, a, tail, n, d - 1);
      DotPrefix(v[n..n + d], v[n..n + d - 1], tail, tail, d - 1);
    }
  }

  lemma {:induction false} DotZero(v: Vec, z: Vec, n: nat)
    requires n <= |v| && n <= |z| && forall i :: 0 <= i < n ==> z[i] == 0.0
    ensures DotUpTo(v, z, n) == 0.0
  {
    if n > 0 { DotZero(v, z, n - 1); }
  }

  /** Squared distances and dot products belong together: |a - b|^2 = a.a - 2 a.b + b.b. */
  lemma {:induction false} DistanceByDots(a: Vec, b: Vec, n: nat)
    requires n <= |a| && n <= |b|
    ensures SqUpTo(a, b, n) == DotUpTo(a, a, n) - 2.0 * DotUpTo(a, b, n) + DotUpTo(b, b, n)
  {
    if n > 0 {
      DistanceByDots(a, b, n - 1);
      SquareOfDifference(a[n - 1], b[n - 1]);
    }
  }

  lemma {:induction false} SquareOfDifference(x: real, y: real)
    ensures Square(x - y) == x * x - 2.0 * (x * y) + y * y
  {}

  /** Entry s * ksub + c of the table: the query's part in subspace s times centroid c. */
  ghost predicate TableOk(b: Codebook, q: Vec, table: seq<real>) {
    && |table| == At(b.m, b.ksub) && |b.cents| == b.m
    && forall s, c :: 0 <= s < b.m && 0 <= c < b.ksub ==> EntryOk(b, q, table, s, c)
  }

  ghost predicate EntryOk(b: Codebook, q: Vec, table: seq<real>, s: nat, c: nat) {
    && At(s, b.ksub) + c < |table| && s < |b.cents| && c < |b.cents[s]| && |b.cents[s][c]| == b.dsub && At(s, b.dsub) + b.dsub <= |q|
    && table[At(s, b.ksub) + c] == DotUpTo(SubOf(q, s, b.dsub), b.cents[s][c], b.dsub)
  }

  /** The score: one table entry per code byte. */
  ghost function Score(b: Codebook, code: Code, table: seq<real>, s: nat): real
    requires CodeOk(b, code) && s <= Used(b, code) && |table| == At(b.m, b.ksub)
  {
    hide At;
    if s == 0 then 0.0
    else
      TableIndex(s - 1, code[s - 1], b.m, b.ksub);
      Score(b, code, table, s - 1) + table[At(s - 1, b.ksub) + code[s - 1]]
  }

  lemma {:induction false} TableIndex(s: nat, c: nat, m: nat, k: nat)
    requires s < m && c < k
    ensures At(s, k) + c < At(m, k)
  {
    hide At;
    SubFits(s, m, k);
  }

  lemma {:induction false} ScoreIsDotTo(b: Codebook, q: Vec, code: Code, table: seq<real>, s: nat)
    requires CodebookOk(b) && CodeOk(b, code) && |q| == At(b.m, b.dsub) && TableOk(b, q, table) && s <= Used(b, code)
    ensures At(s, b.dsub) <= |q| && Score(b, code, table, s) == DotUpTo(q, DecodedTo(b, code, s), At(s, b.dsub))
  {
    hide DotUpTo, At;
    BlocksFit(s, b.m, b.dsub);
    if s > 0 {
      var t := s - 1;
      ScoreIsDotTo(b, q, code, table, t);
      SubFits(t, b.m, b.dsub);
      Block(t, b.dsub);
      assert EntryOk(b, q, table, t, code[t]);
      DotSplit(q, DecodedTo(b, code, t), b.cents[t][code[t]], At(t, b.dsub), b.dsub);
    } else {
      NoDot(q, DecodedTo(b, code, 0));
    }
  }

  lemma {:induction false} NoDot(a: Vec, b: Vec)
    ensures DotUpTo(a, b, 0) == 0.0
  {}

  /** Table lookup scores a code exactly as a dot product of the query with the decoded vector. */
  lemma {:induction false} ScoreIsDot(b: Codebook, q: Vec, code: Code, table: seq<real>)
    requires CodebookOk(b) && CodeOk(b, code) && |q| == At(b.m, b.dsub) && TableOk(b, q, table)
    ensures Score(b, code, table, Used(b, code)) == DotUpTo(q, Decoded(b, code), |q|)
  {
    hide DotUpTo, TableOk, Score, At;
    var used := Used(b, code);
    var n := At(used, b.dsub);
    BlocksFit(used, b.m, b.dsub);
    ScoreIsDotTo(b, q, code, table, used);
    var zeros := seq(At(b.m, b.dsub) - n, _ => 0.0);
    DotSplit(q, DecodedTo(b, code, used), zeros, n, |q| - n);
    DotZero(q[n..n + (|q| - n)], zeros, |q| - n);
  }

  method AdcTable(b: Codebook, q: Vec) returns (table: array<real>)
    requires CodebookOk(b) && |q| == At(b.m, b.dsub)
    ensures fresh(table) && TableOk(b, q, table[..])
  {
    hide DotUpTo, EntryOk, At;
    table := new real[At(b.m, b.ksub)](_ => 0.0);
    for s := 0 to b.m
      invariant forall t, c :: 0 <= t < s && 0 <= c < b.ksub ==> EntryOk(b, q, table[..], t, c)
    {
      FillRow(b, q, table, s);
    }
  }

  /** The table entries of one subspace. */
  method FillRow(b: Codebook, q: Vec, table: array<real>, s: nat)
    requires CodebookOk(b) && |q| == At(b.m, b.dsub) && s < b.m && table.Length == At(b.m, b.ksub)
    modifies table
    ensures forall t: nat, c: nat :: t < s && c < b.ksub && EntryOk(b, q, old(table[..]), t, c) ==> EntryOk(b, q, table[..], t, c)
    ensures forall c :: 0 <= c < b.ksub ==> EntryOk(b, q, table[..], s, c)
  {
    hide DotUpTo, EntryOk, At;
    SubFits(s, b.m, b.dsub);
    for c := 0 to b.ksub
      invariant forall t: nat, e: nat :: t < s && e < b.ksub && EntryOk(b, q, old(table[..]), t, e) ==> EntryOk(b, q, table[..], t, e)
      invariant forall e :: 0 <= e < c ==> EntryOk(b, q, table[..], s, e)
    {
      TableIndex(s, c, b.m, b.ksub);
      var x := Dot(SubOf(q, s, b.dsub), b.cents[s][c]);
      ghost var before := table[..];
      table[At(s, b.ksub) + c] := x;
      assert table[..] == before[At(s, b.ksub) + c := x];
      NewEntry(b, q, before, s, c, x);
    }
  }

  /** Writing one entry leaves the entries before it alone. */
  lemma {:induction false} NewEntry(b: Codebook, q: Vec, table: seq<real>, s: nat, c: nat, x: real)
    requires CodebookOk(b) && |q| == At(b.m, b.dsub) && s < b.m && c < b.ksub && |table| == At(b.m, b.ksub)
    requires At(s, b.ksub) + c < |table| && At(s, b.dsub) + b.dsub <= |q|
    requires x == DotUpTo(SubOf(q, s, b.dsub), b.cents[s][c], b.dsub)
    ensures var next := table[At(s, b.ksub) + c := x];
      && EntryOk(b, q, next, s, c)
      && (forall e: nat :: e < c && EntryOk(b, q, table, s, e) ==> EntryOk(b, q, next, s, e))
      && forall t: nat, e: nat :: t < s && e < b.ksub && EntryOk(b, q, table, t, e) ==> EntryOk(b, q, next, t, e)
  {
    hide DotUpTo, At;
    var next := table[At(s, b.ksub) + c := x];
    forall t: nat, e: nat | t < s && e < b.ksub && EntryOk(b, q, table, t, e) ensures EntryOk(b, q, next, t, e) {
      TableIndex(t, e, s, b.ksub);
    }
  }

  method AdcScore(b: Codebook, code: Code, table: seq<real>) returns (s: real)
    requires CodeOk(b, code) && |table| == At(b.m, b.ksub)
    ensures s == Score(b, code, table, Used(b, code))
  {
    hide At;
    s := 0.0;
    var t := 0;
    while t < b.m && t < |code|
      invariant 0 <= t <= Used(b, code) && s == Score(b, code, table, t)
    {
      TableIndex(t, code[t], b.m, b.ksub);
      s := s + table[At(t, b.ksub) + code[t]];
      t := t + 1;
    }
  }
}
