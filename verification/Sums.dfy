/** Finite sums over sequences and index ranges, the bookkeeping behind every
    counter in the model. */
module Sums {

  /** The sequence without its k-th element. */
  function Without<T>(s: seq<T>, k: nat): (r: seq<T>)
    requires k < |s|
    ensures |r| == |s| - 1
  {
    s[..k] + s[k + 1..]
  }

  /** Sum of a weight over the elements of a sequence. */
  function Sum<T>(s: seq<T>, g: T -> nat): nat {
    if s == [] then 0 else g(s[0]) + Sum(s[1..], g)
  }

  lemma {:induction false} SumConcat<T>(a: seq<T>, b: seq<T>, g: T -> nat)
    ensures Sum(a + b, g) == Sum(a, g) + Sum(b, g)
  {
    if a == [] {
      assert a + b == b;
    } else {
      assert (a + b)[1..] == a[1..] + b;
      SumConcat(a[1..], b, g);
    }
  }

  lemma SumAppend<T>(a: seq<T>, x: T, g: T -> nat)
    ensures Sum(a + [x], g) == Sum(a, g) + g(x)
  {
    SumConcat(a, [x], g);
    assert [x][1..] == [];
  }

  lemma {:induction false} SumWithout<T>(s: seq<T>, k: nat, g: T -> nat)
    requires k < |s|
    ensures Sum(s, g) == g(s[k]) + Sum(Without(s, k), g)
  {
    if k == 0 {
      assert Without(s, 0) == s[1..];
    } else {
      SumWithout(s[1..], k - 1, g);
      assert Without(s, k)[1..] == Without(s[1..], k - 1);
    }
  }

  lemma {:induction false} SumMember<T>(s: seq<T>, g: T -> nat, x: T)
    requires x in s
    ensures g(x) <= Sum(s, g)
  {
    if x != s[0] {
      SumMember(s[1..], g, x);
    }
  }

  lemma WithoutMember<T>(s: seq<T>, k: nat, x: T)
    requires k < |s|
    ensures x in s <==> x == s[k] || x in Without(s, k)
  {
    assert s == s[..k] + [s[k]] + s[k + 1..];
  }

  /** Sum of g over the indices below n. */
  function Total(n: nat, g: nat -> int): int {
    if n == 0 then 0 else Total(n - 1, g) + g(n - 1)
  }

  /** Sum of a cost over a list of indices. */
  function ListSum(s: seq<nat>, c: nat -> int): int {
    if s == [] then 0 else c(s[0]) + ListSum(s[1..], c)
  }

  ghost predicate Distinct(s: seq<nat>) {
    forall i, j :: 0 <= i < j < |s| ==> s[i] != s[j]
  }

  lemma {:induction false} TotalSame(n: nat, g: nat -> int, h: nat -> int)
    requires forall i: nat :: i < n ==> g(i) == h(i)
    ensures Total(n, g) == Total(n, h)
  {
    if n > 0 {
      TotalSame(n - 1, g, h);
    }
  }

  lemma {:induction false} TotalChange(n: nat, g: nat -> int, h: nat -> int, j: nat)
    requires j < n
    requires forall i: nat :: i < n && i != j ==> g(i) == h(i)
    ensures Total(n, h) == Total(n, g) + h(j) - g(j)
  {
    if j == n - 1 {
      TotalSame(n - 1, g, h);
    } else {
      TotalChange(n - 1, g, h, j);
    }
  }

  /** Adding c at each index of a duplicate-free list adds the list's cost. */
  lemma {:induction false} TotalList(n: nat, g: nat -> int, h: nat -> int, s: seq<nat>, c: nat -> int)
    requires Distinct(s) && forall k :: 0 <= k < |s| ==> s[k] < n
    requires forall i: nat :: i < n ==> h(i) == g(i) + if i in s then c(i) else 0
    ensures Total(n, h) == Total(n, g) + ListSum(s, c)
  {
    if s == [] {
      TotalSame(n, g, h);
    } else {
      var j := s[0];
      assert s == [j] + s[1..];
      var m := (i: nat) => if i == j then g(i) + c(i) else g(i);
      TotalChange(n, g, m, j);
      forall i: nat | i < n ensures h(i) == m(i) + if i in s[1..] then c(i) else 0 {
        assert i in s <==> i == j || i in s[1..];
      }
      TotalList(n, m, h, s[1..], c);
    }
  }

  lemma {:induction false} ListSumConst(s: seq<nat>, c: nat -> int, v: int)
    requires forall k :: 0 <= k < |s| ==> c(s[k]) == v
    ensures ListSum(s, c) == |s| * v
  {
    if s != [] {
      ListSumConst(s[1..], c, v);
    }
  }

  lemma {:induction false} TotalBounds(n: nat, g: nat -> int, h: nat -> int)
    requires forall i: nat :: i < n ==> g(i) <= h(i)
    ensures Total(n, g) <= Total(n, h)
    ensures Total(n, g) == Total(n, h) ==> forall i: nat :: i < n ==> g(i) == h(i)
  {
    if n > 0 {
      TotalBounds(n - 1, g, h);
    }
  }

  /** The indices first, first + 1, ..., first + count - 1. */
  function Range(first: nat, count: nat): (r: seq<nat>)
    ensures |r| == count && Distinct(r)
    ensures forall k :: 0 <= k < count ==> r[k] == first + k
    ensures forall i :: i in r <==> first <= i < first + count
  {
    var r := seq(count, k requires 0 <= k => first + k);
    assert forall i :: first <= i < first + count ==> i in r by {
      forall i | first <= i < first + count ensures i in r {
        assert r[i - first] == i;
      }
    }
    r
  }
}
