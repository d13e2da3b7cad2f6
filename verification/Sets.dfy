/** Sizes of finite sets. */
module Sets {

  lemma {:induction false} SubsetSize<T>(a: set<T>, b: set<T>)
    requires a <= b
    ensures |a| <= |b|
    ensures |a| == |b| ==> a == b
  {
    assert b == a + (b - a);
    assert |b| == |a| + |b - a|;
  }

  lemma {:induction false} SmallerSetMisses<T>(a: set<T>, b: set<T>) returns (d: T)
    requires |a| > |b|
    ensures d in a && d !in b
  {
    assert !(a <= b) by {
      if a <= b { SubsetSize(a, b); }
    }
    d :| d in a && d !in b;
  }

  ghost function UpTo(n: nat): (s: set<nat>)
    ensures |s| == n
    ensures forall i: nat :: i in s <==> i < n
  {
    if n == 0 then {} else UpTo(n - 1) + {n - 1}
  }

  ghost function ElementsOf<T(!new)>(a: seq<T>): (s: set<T>)
    ensures |s| <= |a|
    ensures forall x :: x in s <==> x in a
  {
    if a == [] then {}
    else
      assert a == a[..|a| - 1] + [a[|a| - 1]];
      ElementsOf(a[..|a| - 1]) + {a[|a| - 1]}
  }

  ghost predicate Distinct(a: seq<nat>) {
    forall i, j :: 0 <= i < j < |a| ==> a[i] != a[j]
  }

  lemma {:induction false} DistinctSize(a: seq<nat>)
    requires Distinct(a)
    ensures |ElementsOf(a)| == |a|
  {
    if a != [] {
      var r, last := a[..|a| - 1], a[|a| - 1];
      assert forall i :: 0 <= i < |r| ==> r[i] == a[i];
      DistinctSize(r);
      assert last !in ElementsOf(r);
      assert ElementsOf(a) == ElementsOf(r) + {last};
    }
  }

  /** Fewer than n picks leave one of 0..n-1 unpicked. */
  lemma {:induction false} Unpicked(a: seq<nat>, n: nat) returns (d: nat)
    requires |a| < n
    ensures d < n && d !in a
  {
    d := SmallerSetMisses(UpTo(n), ElementsOf(a));
  }
}
