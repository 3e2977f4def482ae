/** Go's sort.Sort over a caller-supplied order. */
module Sorting {
  import opened Heap

  ghost predicate Sorted<T>(less: (T, T) -> bool, s: seq<T>) {
    forall i, j :: 0 <= i < j < |s| ==> !less(s[j], s[i])
  }

  method Sort<T(!new)>(less: (T, T) -> bool, s: seq<T>) returns (r: seq<T>)
    requires WeakOrder(less)
    ensures Sorted(less, r) && multiset(r) == multiset(s)
  {
    r := [];
    for i := 0 to |s|
      invariant Sorted(less, r) && multiset(r) == multiset(s[..i])
    {
      assert s[..i + 1] == s[..i] + [s[i]];
      r := Insert(less, r, s[i]);
    }
    assert s[..|s|] == s;
  }

  method Insert<T(!new)>(less: (T, T) -> bool, s: seq<T>, x: T) returns (r: seq<T>)
    requires WeakOrder(less) && Sorted(less, s)
    ensures Sorted(less, r) && multiset(r) == multiset(s) + multiset{x}
  {
    var k := |s|;
    while 0 < k && less(x, s[k - 1])
      invariant 0 <= k <= |s|
      invariant forall j :: k <= j < |s| ==> less(x, s[j])
    {
      k := k - 1;
    }
    r := s[..k] + [x] + s[k..];
    assert s == s[..k] + s[k..];
    InsertSorts(less, s, x, k);
  }

  lemma InsertSorts<T(!new)>(less: (T, T) -> bool, s: seq<T>, x: T, k: nat)
    requires WeakOrder(less) && Sorted(less, s) && k <= |s|
    requires 0 < k ==> !less(x, s[k - 1])
    requires forall j :: k <= j < |s| ==> less(x, s[j])
    ensures Sorted(less, s[..k] + [x] + s[k..])
  {
    hide Sorted;
    forall i | 0 <= i < k
      ensures !less(x, s[i])
    {
      if i < k - 1 {
        SortedAt(less, s, i, k - 1);
        assert Chains(less, x, s[k - 1], s[i]);
      }
    }
    forall j | k <= j < |s|
      ensures !less(s[j], x)
    {
      assert Asymmetric(less, x, s[j]);
    }
    SortedAround(less, s, x, k);
  }

  lemma SortedAt<T>(less: (T, T) -> bool, s: seq<T>, i: nat, j: nat)
    requires Sorted(less, s) && i < j < |s|
    ensures !less(s[j], s[i])
  {
  }

  lemma SortedAround<T>(less: (T, T) -> bool, s: seq<T>, x: T, k: nat)
    requires Sorted(less, s) && k <= |s|
    requires forall i :: 0 <= i < k ==> !less(x, s[i])
    requires forall j :: k <= j < |s| ==> !less(s[j], x)
    ensures Sorted(less, s[..k] + [x] + s[k..])
  {
  }

  lemma TwiceCounted<T>(s: seq<T>, i: nat, j: nat)
    requires i < j < |s| && s[i] == s[j]
    ensures multiset(s)[s[i]] >= 2
  {
    assert s == s[..i] + [s[i]] + s[i + 1..j] + [s[j]] + s[j + 1..];
  }
}
