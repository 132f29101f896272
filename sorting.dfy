/**
 * Ordering by a numeric key, largest first: the predicate both descending orders in the server
 * share, a reference insertion sort on sequences, and the in-place sort `Array.prototype.sort`
 * performs with the comparator `(a, b) => key(b) - key(a)`.
 */
module Sorting {

  predicate SortedDesc<T>(s: seq<T>, key: T -> int) {
    forall i, j :: 0 <= i < j < |s| ==> key(s[i]) >= key(s[j])
  }

  /** Inserts `x` before the first element with a smaller key. */
  function Insert<T>(x: T, s: seq<T>, key: T -> int): (r: seq<T>)
    requires SortedDesc(s, key)
    ensures SortedDesc(r, key)
    ensures multiset(r) == multiset(s) + multiset{x}
    ensures |r| == |s| + 1
    ensures r[0] == x || (s != [] && r[0] == s[0])
  {
    if s == [] then [x]
    else if key(s[0]) < key(x) then [x] + s
    else
      var rest := Insert(x, s[1..], key);
      assert s == [s[0]] + s[1..];
      [s[0]] + rest
  }

  /** The reference sort: the elements of `s`, rearranged so that keys never increase. */
  function SortDesc<T>(s: seq<T>, key: T -> int): (r: seq<T>)
    ensures SortedDesc(r, key)
    ensures multiset(r) == multiset(s)
    ensures |r| == |s|
  {
    if s == [] then []
    else
      assert s == s[..|s| - 1] + [s[|s| - 1]];
      Insert(s[|s| - 1], SortDesc(s[..|s| - 1], key), key)
  }

  /** The first `n` elements of `a` are in descending key order. */
  predicate PrefixSorted<T>(a: array<T>, n: int, key: T -> int)
    requires 0 <= n <= a.Length
    reads a
  {
    forall p, q :: 0 <= p < q < n ==> key(a[p]) >= key(a[q])
  }

  /** Sorts `a` in place, largest key first, by insertion with adjacent swaps. */
  method SortDescInPlace<T>(a: array<T>, key: T -> int)
    modifies a
    ensures SortedDesc(a[..], key)
    ensures multiset(a[..]) == multiset(old(a[..]))
  {
    var i := 0;
    while i < a.Length
      invariant 0 <= i <= a.Length
      invariant PrefixSorted(a, i, key)
      invariant multiset(a[..]) == multiset(old(a[..]))
    {
      InsertLast(a, i, key);
      i := i + 1;
    }
  }

  /** Moves `a[i]` left past every element with a smaller key; the prefix `a[..i + 1]` is then sorted. */
  method InsertLast<T>(a: array<T>, i: int, key: T -> int)
    requires 0 <= i < a.Length && PrefixSorted(a, i, key)
    modifies a
    ensures PrefixSorted(a, i + 1, key)
    ensures multiset(a[..]) == multiset(old(a[..]))
  {
    var j := i;
    while j > 0 && key(a[j - 1]) < key(a[j])
      invariant 0 <= j <= i
      invariant multiset(a[..]) == multiset(old(a[..]))
      invariant SortedAround(a[..], i, j, key) && AboveRest(a[..], i, j, key)
    {
      ghost var before := a[..];
      Swap(a, j - 1, j);
      SwapStep(before, a[..], i, j, key);
      j := j - 1;
    }
    InsertedPrefixSorted(a[..], i, j, key);
  }

  /** The keys of `s[..i + 1]` descend once the element at `j` is left out. */
  predicate SortedAround<T>(s: seq<T>, i: int, j: int, key: T -> int)
    requires i < |s|
  {
    forall p, q :: 0 <= p < q <= i && p != j && q != j ==> key(s[p]) >= key(s[q])
  }

  /** The element at `j` has a larger key than everything after it up to `i`. */
  predicate AboveRest<T>(s: seq<T>, i: int, j: int, key: T -> int)
    requires 0 <= j && i < |s|
  {
    forall q :: j < q <= i ==> key(s[j]) > key(s[q])
  }

  /** Swapping the element at `j` with a smaller-keyed left neighbour moves the gap one step left. */
  lemma SwapStep<T>(s: seq<T>, t: seq<T>, i: int, j: int, key: T -> int)
    requires 0 < j <= i < |s| == |t|
    requires t[j - 1] == s[j] && t[j] == s[j - 1]
    requires forall k :: 0 <= k < |s| && k != j - 1 && k != j ==> t[k] == s[k]
    requires SortedAround(s, i, j, key) && AboveRest(s, i, j, key)
    requires key(s[j - 1]) < key(s[j])
    ensures SortedAround(t, i, j - 1, key) && AboveRest(t, i, j - 1, key)
  {
  }

  /** The element at `j` is in place once its left neighbour's key is not smaller. */
  lemma InsertedPrefixSorted<T>(s: seq<T>, i: int, j: int, key: T -> int)
    requires 0 <= j <= i < |s|
    requires SortedAround(s, i, j, key) && AboveRest(s, i, j, key)
    requires j == 0 || key(s[j - 1]) >= key(s[j])
    ensures forall p, q :: 0 <= p < q <= i ==> key(s[p]) >= key(s[q])
  {
    forall p, q | 0 <= p < q <= i
      ensures key(s[p]) >= key(s[q])
    {
      if q == j {
        assert p <= j - 1;
        assert p < j - 1 ==> key(s[p]) >= key(s[j - 1]);
      }
    }
  }

  /** Exchanges two elements of `a`. */
  method Swap<T>(a: array<T>, i: int, j: int)
    requires 0 <= i < a.Length && 0 <= j < a.Length
    modifies a
    ensures a[i] == old(a[j]) && a[j] == old(a[i])
    ensures forall k :: 0 <= k < a.Length && k != i && k != j ==> a[k] == old(a[k])
    ensures multiset(a[..]) == multiset(old(a[..]))
  {
    a[i], a[j] := a[j], a[i];
  }

  /** The first `n` elements, or all of them when there are fewer (`take: n`). */
  function TakeAtMost<T>(s: seq<T>, n: nat): (r: seq<T>)
    ensures |r| <= n && |r| <= |s|
    ensures r == s[..|r|]
    ensures |s| <= n ==> r == s
    ensures |s| > n ==> |r| == n
  {
    if |s| <= n then s else s[..n]
  }

  /** What a prefix of a descending sequence leaves out has no larger key than anything it keeps. */
  lemma PrefixIsTop<T>(s: seq<T>, n: nat, key: T -> int)
    requires SortedDesc(s, key)
    ensures forall x, y :: x in s && x !in TakeAtMost(s, n) && y in TakeAtMost(s, n) ==> key(x) <= key(y)
  {
    var t := TakeAtMost(s, n);
    forall x, y | x in s && x !in t && y in t
      ensures key(x) <= key(y)
    {
      var p :| 0 <= p < |s| && s[p] == x;
      var q :| 0 <= q < |t| && t[q] == y;
      assert s[q] == y;
    }
  }

  /** Taking a prefix keeps the order. */
  lemma TakeKeepsOrder<T>(s: seq<T>, n: nat, key: T -> int)
    requires SortedDesc(s, key)
    ensures SortedDesc(TakeAtMost(s, n), key)
  {
  }

  /**
   * The first `n` of `all` sorted by key (`orderBy … desc, take: n`): as many as there are up to
   * `n`, each taken from `all`, and none of those left out with a larger key than one taken.
   */
  function Top<T>(all: seq<T>, n: nat, key: T -> int): (r: seq<T>)
    ensures |r| == if |all| <= n then |all| else n
    ensures SortedDesc(r, key)
    ensures forall x :: x in r ==> x in all
    ensures forall x, y :: x in all && x !in r && y in r ==> key(x) <= key(y)
    ensures |all| <= n ==> multiset(r) == multiset(all)
  {
    var sorted := SortDesc(all, key);
    SameMembers(sorted, all);
    TakeKeepsOrder(sorted, n, key);
    PrefixIsTop(sorted, n, key);
    TakeAtMost(sorted, n)
  }

  /** When no two elements of `all` share an `f`, no two of its top `n` do. */
  lemma TopKeepsDistinct<T, K>(all: seq<T>, n: nat, key: T -> int, f: T -> K)
    requires forall i, j :: 0 <= i < j < |all| ==> f(all[i]) != f(all[j])
    ensures forall i, j :: 0 <= i < j < |Top(all, n, key)| ==> f(Top(all, n, key)[i]) != f(Top(all, n, key)[j])
  {
    var sorted := SortDesc(all, key);
    PermutationKeepsDistinct(sorted, all, f);
    assert Top(all, n, key) == sorted[..|Top(all, n, key)|];
  }

  /** Rearrangements have the same elements. */
  lemma SameMembers<T>(a: seq<T>, b: seq<T>)
    requires multiset(a) == multiset(b)
    ensures forall x :: x in a <==> x in b
  {
    forall x ensures x in a <==> x in b {
      assert x in a <==> x in multiset(a);
      assert x in b <==> x in multiset(b);
    }
  }

  /** An element at two positions is counted at least twice. */
  lemma TwiceCounted<T>(r: seq<T>, p: int, q: int)
    requires 0 <= p < q < |r| && r[p] == r[q]
    ensures multiset(r)[r[p]] >= 2
  {
    assert r == r[..p] + [r[p]] + r[p + 1..];
    assert r[p + 1..][q - p - 1] == r[q];
    assert r[q] in multiset(r[p + 1..]);
  }

  /** In a sequence without repeated keys, each element is counted once. */
  lemma CountedOnce<T, K>(all: seq<T>, x: int, f: T -> K)
    requires 0 <= x < |all|
    requires forall i, j :: 0 <= i < j < |all| ==> f(all[i]) != f(all[j])
    ensures multiset(all)[all[x]] == 1
  {
    assert all == all[..x] + [all[x]] + all[x + 1..];
    assert all[x] !in all[..x];
    assert all[x] !in all[x + 1..];
  }

  /** Rearranging a sequence without repeated keys gives one without repeated keys. */
  lemma PermutationKeepsDistinct<T, K>(r: seq<T>, all: seq<T>, f: T -> K)
    requires multiset(r) == multiset(all)
    requires forall i, j :: 0 <= i < j < |all| ==> f(all[i]) != f(all[j])
    ensures forall i, j :: 0 <= i < j < |r| ==> f(r[i]) != f(r[j])
  {
    SameMembers(r, all);
    forall p, q | 0 <= p < q < |r| ensures f(r[p]) != f(r[q]) {
      if f(r[p]) == f(r[q]) {
        assert r[p] in r && r[q] in r;
        var x :| 0 <= x < |all| && all[x] == r[p];
        var y :| 0 <= y < |all| && all[y] == r[q];
        assert x == y by {
          if x < y {} else if y < x {}
        }
        TwiceCounted(r, p, q);
        CountedOnce(all, x, f);
      }
    }
  }
}
