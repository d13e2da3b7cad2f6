/** Finite sums of reals, over a sequence and over an index range. */
module Sums {

  // ----- Sums over a sequence -----

  /** f(s[0]) + ... + f(s[|s|-1]). */
  ghost function SeqSum<T>(s: seq<T>, f: T -> real): real {
    if s == [] then 0.0 else SeqSum(s[..|s| - 1], f) + f(s[|s| - 1])
  }

  lemma {:induction false} SeqSumAppend<T>(a: seq<T>, b: seq<T>, f: T -> real)
    ensures SeqSum(a + b, f) == SeqSum(a, f) + SeqSum(b, f)
  {
    if b == [] {
      assert a + b == a;
    } else {
      assert (a + b)[..|a + b| - 1] == a + b[..|b| - 1];
      SeqSumAppend(a, b[..|b| - 1], f);
    }
  }

  /** A sum does not depend on the order of its terms. */
  lemma {:induction false} SeqSumPermutation<T>(a: seq<T>, b: seq<T>, f: T -> real)
    requires multiset(a) == multiset(b)
    ensures SeqSum(a, f) == SeqSum(b, f)
  {
    if a == [] {
      assert |multiset(b)| == 0;
      assert b == [];
    } else {
      var x := a[|a| - 1];
      assert a == a[..|a| - 1] + [x];
      assert x in multiset(b);
      var i :| 0 <= i < |b| && b[i] == x;
      var rest := b[..i] + b[i + 1..];
      assert b == b[..i] + [x] + b[i + 1..];
      assert multiset(b) == multiset(rest) + multiset{x};
      assert multiset(a) == multiset(a[..|a| - 1]) + multiset{x};
      assert multiset(rest) == multiset(b) - multiset{x};
      assert multiset(a[..|a| - 1]) == multiset(a) - multiset{x};
      SeqSumPermutation(a[..|a| - 1], rest, f);
      SeqSumAppend(b[..i] + [x], b[i + 1..], f);
      SeqSumAppend(b[..i], [x], f);
      SeqSumAppend(b[..i], b[i + 1..], f);
      SeqSumSingle(x, f);
    }
  }

  lemma {:induction false} SeqSumSingle<T>(x: T, f: T -> real)
    ensures SeqSum([x], f) == f(x)
  {
    assert [x][..0] == [];
    assert SeqSum([x], f) == SeqSum([x][..0], f) + f(x);
  }

  /** Term-by-term comparison of two sums. */
  lemma {:induction false} SeqSumCompare<T>(a: seq<T>, f: T -> real, b: seq<T>, g: T -> real)
    requires |a| == |b|
    requires forall i :: 0 <= i < |a| ==> f(a[i]) <= g(b[i])
    ensures SeqSum(a, f) <= SeqSum(b, g)
  {
    if a != [] {
      var ra, rb := a[..|a| - 1], b[..|b| - 1];
      assert forall i :: 0 <= i < |ra| ==> ra[i] == a[i] && rb[i] == b[i];
      SeqSumCompare(ra, f, rb, g);
      assert f(a[|a| - 1]) <= g(b[|b| - 1]);
    }
  }

  lemma {:induction false} SeqSumPrefix<T>(s: seq<T>, t: nat, f: T -> real)
    requires t < |s|
    ensures SeqSum(s[..t + 1], f) == SeqSum(s[..t], f) + f(s[t])
  {
    assert s[..t + 1][..t] == s[..t];
  }

  lemma {:induction false} SeqSumZero<T>(s: seq<T>, f: T -> real)
    requires forall i :: 0 <= i < |s| ==> f(s[i]) == 0.0
    ensures SeqSum(s, f) == 0.0
  {
    if s != [] {
      var r := s[..|s| - 1];
      assert forall i :: 0 <= i < |r| ==> r[i] == s[i];
      SeqSumZero(r, f);
      assert f(s[|s| - 1]) == 0.0;
    }
  }

  lemma {:induction false} SeqSumNonNegative<T>(s: seq<T>, f: T -> real)
    requires forall i :: 0 <= i < |s| ==> 0.0 <= f(s[i])
    ensures SeqSum(s, f) >= 0.0
  {
    if s != [] {
      var r := s[..|s| - 1];
      assert forall i :: 0 <= i < |r| ==> r[i] == s[i];
      SeqSumNonNegative(r, f);
      assert 0.0 <= f(s[|s| - 1]);
    }
  }

  // ----- Sums over an index range -----

  /** f(0) + ... + f(n-1). */
  ghost function Sum(n: nat, f: int -> real): real {
    if n == 0 then 0.0 else Sum(n - 1, f) + f(n - 1)
  }

  lemma {:induction false} SumEqual(n: nat, f: int -> real, g: int -> real)
    requires forall i :: 0 <= i < n ==> f(i) == g(i)
    ensures Sum(n, f) == Sum(n, g)
  {
    if n > 0 { SumEqual(n - 1, f, g); }
  }

  lemma {:induction false} SumAtMost(n: nat, f: int -> real, g: int -> real)
    requires forall i :: 0 <= i < n ==> f(i) <= g(i)
    ensures Sum(n, f) <= Sum(n, g)
  {
    if n > 0 { SumAtMost(n - 1, f, g); }
  }

  lemma {:induction false} SumNonNegative(n: nat, f: int -> real)
    requires forall i :: 0 <= i < n ==> f(i) >= 0.0
    ensures Sum(n, f) >= 0.0
  {
    if n > 0 { SumNonNegative(n - 1, f); }
  }

  lemma {:induction false} SumTermAtMost(n: nat, f: int -> real, i: nat)
    requires i < n && forall j :: 0 <= j < n ==> f(j) >= 0.0
    ensures f(i) <= Sum(n, f)
  {
    if i < n - 1 { SumTermAtMost(n - 1, f, i); } else { SumNonNegative(n - 1, f); }
  }

  lemma {:induction false} SumPlus(n: nat, f: int -> real, g: int -> real, h: int -> real)
    requires forall i :: 0 <= i < n ==> h(i) == f(i) + g(i)
    ensures Sum(n, h) == Sum(n, f) + Sum(n, g)
  {
    if n > 0 { SumPlus(n - 1, f, g, h); }
  }

  lemma {:induction false} SumTimes(n: nat, c: real, f: int -> real, h: int -> real)
    requires forall i :: 0 <= i < n ==> h(i) == c * f(i)
    ensures Sum(n, h) == c * Sum(n, f)
  {
    if n > 0 {
      SumTimes(n - 1, c, f, h);
      assert c * (Sum(n - 1, f) + f(n - 1)) == c * Sum(n - 1, f) + c * f(n - 1);
    }
  }

  /** Two families that agree everywhere but at u differ in sum by their difference there. */
  lemma {:induction false} SumChangeOne(n: nat, f: int -> real, g: int -> real, u: nat)
    requires u < n && forall i :: 0 <= i < n && i != u ==> f(i) == g(i)
    ensures Sum(n, g) == Sum(n, f) + g(u) - f(u)
  {
    if u < n - 1 {
      SumChangeOne(n - 1, f, g, u);
    } else {
      SumEqual(n - 1, f, g);
    }
  }

  function Row(h: (int, int) -> real, i: int): int -> real { (j: int) => h(i, j) }

  function Col(h: (int, int) -> real, j: int): int -> real { (i: int) => h(i, j) }

  ghost function RowSum(m: nat, h: (int, int) -> real): int -> real { (i: int) => Sum(m, Row(h, i)) }

  ghost function ColSum(n: nat, h: (int, int) -> real): int -> real { (j: int) => Sum(n, Col(h, j)) }

  /** A double sum may be taken by rows or by columns. */
  lemma {:induction false} SumSwap(n: nat, m: nat, h: (int, int) -> real)
    ensures Sum(n, RowSum(m, h)) == Sum(m, ColSum(n, h))
  {
    if n == 0 {
      SumZero(m, ColSum(0, h));
    } else {
      SumSwap(n - 1, m, h);
      forall j | 0 <= j < m ensures ColSum(n, h)(j) == ColSum(n - 1, h)(j) + Row(h, n - 1)(j) {
        assert Col(h, j)(n - 1) == h(n - 1, j);
      }
      SumPlus(m, ColSum(n - 1, h), Row(h, n - 1), ColSum(n, h));
    }
  }

  lemma {:induction false} SumZero(n: nat, f: int -> real)
    requires forall i :: 0 <= i < n ==> f(i) == 0.0
    ensures Sum(n, f) == 0.0
  {
    if n > 0 { SumZero(n - 1, f); }
  }
}
