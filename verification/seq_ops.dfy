/** Sequence operations the tile pipeline relies on: swap-and-pop removal,
    the index range 0..n-1, and distinctness read off multiset counts. */
module SeqOps {

  /** Removes slot `k` the way `std::swap(v[k], v.back()); v.pop_back();` does:
      the last element moves into slot `k` and the last slot is dropped. */
  function SwapPop<T>(a: seq<T>, k: nat): (r: seq<T>)
    requires k < |a|
    ensures |r| == |a| - 1
    ensures k < |a| - 1 ==> r[k] == a[|a| - 1]
    ensures forall j :: 0 <= j < |r| && j != k ==> r[j] == a[j]
  {
    a[k := a[|a| - 1]][..|a| - 1]
  }

  /** Swap-and-pop loses exactly the removed element and nothing else. */
  lemma SwapPopMultiset<T>(a: seq<T>, k: nat)
    requires k < |a|
    ensures multiset(SwapPop(a, k)) == multiset(a) - multiset{a[k]}
  {
    var l := |a| - 1;
    if k == l {
      assert a == a[..l] + [a[l]];
      assert SwapPop(a, k) == a[..l];
    } else {
      assert a == a[..k] + [a[k]] + a[k + 1..l] + [a[l]];
      assert SwapPop(a, k) == a[..k] + [a[l]] + a[k + 1..l];
    }
  }

  /** The indices 0, 1, ..., n-1 in increasing order. */
  function Range(n: nat): (r: seq<nat>)
    ensures |r| == n
    ensures forall i :: 0 <= i < n ==> r[i] == i
  {
    if n == 0 then [] else Range(n - 1) + [n - 1]
  }

  predicate Distinct<T(==)>(a: seq<T>) {
    forall i, j :: 0 <= i < j < |a| ==> a[i] != a[j]
  }

  /** A sequence without repeats holds every value at most once. */
  lemma {:induction false} DistinctCount<T>(a: seq<T>, x: T)
    requires Distinct(a)
    ensures multiset(a)[x] <= 1
  {
    if |a| > 0 {
      var l := |a| - 1;
      assert a == a[..l] + [a[l]];
      assert Distinct(a[..l]);
      DistinctCount(a[..l], x);
      if x == a[l] {
        assert x !in a[..l];
      }
    }
  }

  /** Two equal slots make their value occur at least twice. */
  lemma RepeatCount<T>(a: seq<T>, i: nat, j: nat)
    requires i < j < |a|
    ensures a[i] == a[j] ==> multiset(a)[a[i]] >= 2
  {
    if a[i] == a[j] {
      assert a == a[..i] + [a[i]] + a[i + 1..j] + [a[j]] + a[j + 1..];
    }
  }

  /** Conversely, a sequence whose counts are all at most one has no repeats. */
  lemma CountDistinct<T>(a: seq<T>)
    requires forall x :: multiset(a)[x] <= 1
    ensures Distinct(a)
  {
    forall i, j | 0 <= i < j < |a|
      ensures a[i] != a[j]
    {
      RepeatCount(a, i, j);
    }
  }

  lemma RangeCount(n: nat, x: nat)
    ensures multiset(Range(n))[x] == (if x < n then 1 else 0)
  {
    DistinctCount(Range(n), x);
    if x < n {
      assert Range(n)[x] == x;
    } else {
      assert x !in Range(n);
    }
  }
}
