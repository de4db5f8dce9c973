/** Sizes of sets, and taking the same element out of two sequences. */
module Multisets {

  lemma SubsetSize<T>(small: set<T>, large: set<T>)
    requires small <= large
    ensures |small| <= |large|
  {
    assert large == small + (large - small);
  }

  lemma OneOut<T>(b: seq<T>, k: nat)
    requires k < |b|
    ensures multiset(b) == multiset(b[..k] + b[k + 1..]) + multiset{b[k]}
  {
    assert b == b[..k] + [b[k]] + b[k + 1..];
  }

  lemma Cancel<T>(a: multiset<T>, b: multiset<T>, c: multiset<T>, d: multiset<T>, x: T)
    requires c == a + multiset{x} && d == b + multiset{x} && c <= d
    ensures a <= b && (c == d ==> a == b)
  {
    forall y ensures a[y] <= b[y] {
      assert c[y] <= d[y];
    }
    if c == d {
      forall y ensures a[y] == b[y] {
        assert c[y] == d[y];
      }
    }
  }

  /** The last element of `a` occurs in `b`; without it the two stay related as they were. */
  lemma TakeOut<T>(a: seq<T>, b: seq<T>) returns (k: nat)
    requires multiset(a) <= multiset(b) && a != []
    ensures k < |b| && b[k] == a[|a| - 1]
    ensures multiset(a[..|a| - 1]) <= multiset(b[..k] + b[k + 1..])
    ensures multiset(a) == multiset(b) ==> multiset(a[..|a| - 1]) == multiset(b[..k] + b[k + 1..])
  {
    var n := |a| - 1;
    assert a[n] in multiset(b);
    k :| 0 <= k < |b| && b[k] == a[n];
    OneOut(a, n);
    assert a[..n] + a[n + 1..] == a[..n];
    OneOut(b, k);
    Cancel(multiset(a[..n]), multiset(b[..k] + b[k + 1..]), multiset(a), multiset(b), a[n]);
  }
}
