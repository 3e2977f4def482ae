/** What the nonce-indexed views of an account's transactions mean: maps from nonce to
    transaction, and their nonce-sorted listings. */
module NonceMap {
  import opened Types

  type Items = map<uint64, Tx>

  ghost predicate KeyedByNonce(items: Items) {
    forall n :: n in items ==> items[n].nonce == n
  }

  ghost predicate StrictlyAscending(s: seq<Tx>) {
    forall i, j :: 0 <= i < j < |s| ==> s[i].nonce < s[j].nonce
  }

  ghost predicate Distinct(s: seq<Tx>) {
    forall i, j :: 0 <= i < j < |s| ==> s[i].nonce != s[j].nonce
  }

  ghost predicate Covers(s: seq<Tx>, items: Items) {
    forall n :: n in items ==> items[n].nonce == n && items[n] in s
  }

  /** s holds the contents of items once each, in whatever order. */
  ghost predicate Enumerates(s: seq<Tx>, items: Items) {
    && Distinct(s)
    && (forall i :: 0 <= i < |s| ==> s[i].nonce in items && items[s[i].nonce] == s[i])
    && Covers(s, items)
  }

  /** s lists the contents of items in ascending nonce order. */
  ghost predicate Lists(s: seq<Tx>, items: Items) {
    StrictlyAscending(s) && Enumerates(s, items)
  }

  ghost function Below(items: Items, t: int): Items {
    map n | n in items && n < t :: items[n]
  }

  ghost function From(items: Items, t: int): Items {
    map n | n in items && t <= n :: items[n]
  }

  /** kept is what is left of items after some of its highest nonces are dropped. */
  ghost predicate Prefix(kept: Items, items: Items) {
    && (forall n :: n in kept ==> n in items && items[n] == kept[n])
    && (forall n, m :: n in items && m in kept && n < m ==> n in kept)
  }

  /** The nonces form one interval. */
  ghost predicate Consecutive(items: Items) {
    forall n, m, k: int :: n in items && m in items && n <= k <= m ==> k in items
  }

  lemma {:induction false} ListsLength(s: seq<Tx>, items: Items)
    requires Enumerates(s, items)
    ensures |s| == |items|
  {
    if s == [] {
      assert items.Keys == {};
    } else {
      var n := s[0].nonce;
      var rest := items - {n};
      assert rest.Keys == items.Keys - {n};
      forall m | m in rest
        ensures rest[m] in s[1..]
      {
        assert items[m] in s && items[m] != s[0];
      }
      ListsLength(s[1..], rest);
    }
  }

  lemma FirstIsLeast(s: seq<Tx>, items: Items, n: uint64)
    requires Lists(s, items) && n in items
    ensures s != [] && s[0].nonce <= n
  {
    assert items[n] in s;
  }

  lemma DropFirst(s: seq<Tx>, items: Items)
    requires Lists(s, items) && s != []
    ensures Lists(s[1..], items - {s[0].nonce})
  {
    forall m | m in items && m != s[0].nonce
      ensures items[m] in s[1..]
    {
      assert items[m] in s && items[m] != s[0];
    }
  }

  lemma {:induction false} ListsUnique(s: seq<Tx>, t: seq<Tx>, items: Items)
    requires Lists(s, items) && Lists(t, items)
    ensures s == t
  {
    if s != [] {
      FirstIsLeast(t, items, s[0].nonce);
      FirstIsLeast(s, items, t[0].nonce);
      DropFirst(s, items);
      DropFirst(t, items);
      ListsUnique(s[1..], t[1..], items - {s[0].nonce});
    } else if t != [] {
      FirstIsLeast(s, items, t[0].nonce);
    }
  }

  ghost predicate CutAt(s: seq<Tx>, k: nat, t: int) {
    && k <= |s|
    && (forall i :: 0 <= i < k ==> s[i].nonce < t)
    && (forall i :: k <= i < |s| ==> t <= s[i].nonce)
  }

  /** Cutting a listing in two cuts the map at the nonce in between. */
  lemma ListsBelow(s: seq<Tx>, items: Items, k: nat, t: int)
    requires Lists(s, items) && CutAt(s, k, t)
    ensures Lists(s[..k], Below(items, t))
  {
    forall n | n in items && n < t
      ensures items[n] in s[..k]
    {
      var i :| 0 <= i < |s| && s[i] == items[n];
      assert s[..k][i] == s[i];
    }
  }

  lemma ListsFrom(s: seq<Tx>, items: Items, k: nat, t: int)
    requires Lists(s, items) && CutAt(s, k, t)
    ensures Lists(s[k..], From(items, t))
  {
    forall n | n in items && t <= n
      ensures items[n] in s[k..]
    {
      var i :| 0 <= i < |s| && s[i] == items[n];
      assert s[k..][i - k] == s[i];
    }
  }

  /** Every threshold cuts a listing somewhere. */
  lemma CutPoint(s: seq<Tx>, t: int) returns (k: nat)
    requires StrictlyAscending(s)
    ensures CutAt(s, k, t)
  {
    k := 0;
    while k < |s| && s[k].nonce < t
      invariant k <= |s| && forall i :: 0 <= i < k ==> s[i].nonce < t
    {
      k := k + 1;
    }
  }

  lemma PrefixTransitive(a: Items, b: Items, c: Items)
    requires Prefix(a, b) && Prefix(b, c)
    ensures Prefix(a, c)
  {
  }

  /** How many are kept decides which are kept. */
  lemma PrefixDetermined(a: Items, b: Items, items: Items)
    requires Prefix(a, items) && Prefix(b, items) && |a| == |b|
    ensures a == b
  {
    if a.Keys <= b.Keys {
      SubsetSameSize(a.Keys, b.Keys);
    } else {
      var n :| n in a && n !in b;
      assert b.Keys <= a.Keys;
      SubsetSameSize(b.Keys, a.Keys);
    }
  }

  lemma SubsetSameSize<T>(a: set<T>, b: set<T>)
    requires a <= b && |a| == |b|
    ensures a == b
  {
    assert b == a + (b - a);
  }
}
