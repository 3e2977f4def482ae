/** The nonce-indexed transaction map of one account: a hash map, a heap of its
    nonces and a cache of its sorted contents, kept in agreement. */
module TxSortedMaps {
  import opened Types
  import opened NonceMap
  import opened Heap
  import opened Sorting

  predicate NonceLess(x: uint64, y: uint64) {
    x < y
  }

  predicate TxByNonce(x: Tx, y: Tx) {
    x.nonce < y.nonce
  }

  /** The nonce heap holds exactly the keys of the map, once each. */
  ghost predicate Indexes(index: seq<uint64>, items: Items) {
    IsHeap(NonceLess, index) && multiset(index) == multiset(items.Keys)
  }

  ghost predicate SortedKeys(index: seq<uint64>, items: Items) {
    && (forall i, j :: 0 <= i < j < |index| ==> index[i] < index[j])
    && (forall n :: n in index <==> n in items)
  }

  ghost function Accepted(filter: Tx -> bool, items: Items): Items {
    map n | n in items && filter(items[n]) :: items[n]
  }

  ghost function Rejected(filter: Tx -> bool, items: Items): Items {
    map n | n in items && !filter(items[n]) :: items[n]
  }

  ghost function Restrict(items: Items, keys: seq<uint64>): Items {
    map n | n in items && n in keys :: items[n]
  }

  /** ready is the maximal run of consecutive nonces from the least one in items, if that one
      is not above start, and rest is what the run leaves behind. */
  ghost predicate ReadyRun(ready: seq<Tx>, rest: Items, items: Items, start: int) {
    if forall n :: n in items ==> start < n then
      ready == [] && rest == items
    else
      && ready != [] && ready[0].nonce <= start
      && (forall i :: 0 <= i < |ready| ==> ready[i].nonce == ready[0].nonce + i)
      && ready[0].nonce + |ready| !in items
      && Lists(ready, Below(items, ready[0].nonce + |ready|))
      && rest == From(items, ready[0].nonce + |ready|)
  }

  /** Whose list the map serves: every account has at most one strict and one gapped list. */
  datatype Owner = Owner(account: Address, strict: bool)

  class TxSortedMap {
    ghost const owner: Owner
    var items: Items
    var index: seq<uint64>
    var cache: Option<seq<Tx>>

    ghost predicate Valid()
      reads this
    {
      && KeyedByNonce(items)
      && Indexes(index, items)
      && (cache.Some? ==> Lists(cache.value, items))
    }

    constructor (ghost owner: Owner)
      ensures Valid() && items == map[] && this.owner == owner
    {
      this.owner := owner;
      items, index, cache := map[], [], None;
    }

    /** Overwrites whatever is stored under the transaction's nonce. */
    method Put(tx: Tx)
      requires Valid()
      modifies this
      ensures Valid() && items == old(items)[tx.nonce := tx]
    {
      hide Lists, Indexes;
      if tx.nonce !in items {
        index := PushIndex(index, items, tx);
      } else {
        SameKeys(index, items, tx);
      }
      items, cache := items[tx.nonce := tx], None;
    }

    /** Takes the least nonce off the heap and its transaction out of the map. */
    method PopLeast() returns (tx: Tx)
      requires Indexes(index, items) && index != []
      modifies this`items, this`index
      ensures IsLeast(old(index)[0], old(items)) && tx == old(items)[old(index)[0]]
      ensures items == old(items) - {old(index)[0]}
      ensures Indexes(index, items) && |index| < |old(index)|
    {
      var nonce := index[0];
      RootIsLeastKey(index, items);
      tx := items[nonce];
      index := PopIndex(index, items);
      items := items - {nonce};
    }

    /** Removes everything below the threshold and returns it in nonce order. */
    method Forward(threshold: nat) returns (removed: seq<Tx>)
      requires Valid()
      modifies this
      ensures Valid() && items == From(old(items), threshold)
      ensures Lists(removed, Below(old(items), threshold))
    {
      hide Lists, Indexes, IsLeast, From, Below;
      removed := [];
      ghost var was, bound: nat := items, 0;
      NothingBelow(items, 0);
      while 0 < |index| && index[0] < threshold
        invariant Indexes(index, items) && KeyedByNonce(items) && cache == old(cache)
        invariant bound <= threshold
        invariant items == From(was, bound) && Lists(removed, Below(was, bound))
        decreases |index|
      {
        ghost var before, nonce := items, index[0];
        var tx := PopLeast();
        TakeNext(removed, before, was, bound, nonce);
        removed := removed + [tx];
        bound := nonce as int + 1;
      }
      RestIsAbove(index, items, was, bound, threshold);
      if cache.Some? {
        TrimFront(cache.value, removed, was, threshold);
        cache := Some(cache.value[|removed|..]);
      }
    }

    /** Removes whatever the filter accepts; the order of the result is that of map iteration. */
    method Filter(filter: Tx -> bool) returns (removed: seq<Tx>)
      requires Valid()
      modifies this
      ensures Valid() && items == Rejected(filter, old(items))
      ensures Enumerates(removed, Accepted(filter, old(items)))
    {
      hide Lists, Enumerates, Indexes, Filtering;
      removed := [];
      var todo := items.Keys;
      FilterEnds(filter, removed, items, items);
      while todo != {}
        invariant todo <= old(items).Keys && Filtering(filter, removed, items, todo, old(items))
        invariant index == old(index) && cache == old(cache)
        decreases todo
      {
        var n :| n in todo;
        FilterOne(filter, removed, items, todo, old(items), n);
        if filter(items[n]) {
          removed := removed + [items[n]];
          items := items - {n};
        }
        todo := todo - {n};
      }
      FilterEnds(filter, removed, items, old(items));
      if 0 < |removed| {
        index := BuildIndex(items);
        cache := None;
      } else {
        NothingAccepted(filter, removed, old(items));
      }
    }

    /** Drops the highest nonces off a sorted index until `threshold` remain. */
    method DropHighest(threshold: nat) returns (drops: seq<Tx>)
      requires SortedKeys(index, items) && KeyedByNonce(items) && threshold < |index|
      modifies this`items
      ensures items == Restrict(old(items), index[..threshold])
      ensures Enumerates(drops, old(items) - items.Keys)
    {
      hide Enumerates, SortedKeys, KeyedByNonce, Restrict;
      drops := [];
      ghost var was := items;
      RestrictAll(index, items);
      for size := |index| downto threshold
        invariant items == Restrict(was, index[..size])
        invariant Enumerates(drops, was - items.Keys)
      {
        RestrictOne(index, was, size);
        DropOne(drops, was, items, index[size]);
        drops := drops + [items[index[size]]];
        items := items - {index[size]};
      }
    }

    /** Drops the highest nonces until at most `threshold` remain. */
    method Cap(threshold: nat) returns (drops: seq<Tx>)
      requires Valid()
      modifies this
      ensures Valid() && Prefix(items, old(items))
      ensures |items| == if |old(items)| <= threshold then |old(items)| else threshold
      ensures Enumerates(drops, old(items) - items.Keys)
    {
      hide Lists, Enumerates, Prefix, SortedKeys, KeyedByNonce, Restrict, Indexes;
      NothingDropped(items);
      if |items| <= threshold {
        return [];
      }
      index := SortIndex(index, items);
      drops := DropHighest(threshold);
      CapSplits(index, old(items), threshold, items);
      ghost var cut := index[threshold];
      index := Reheap(index[..threshold], items);
      if cache.Some? {
        TrimBack(cache.value, items, drops, old(items), cut);
        cache := Some(cache.value[..|cache.value| - |drops|]);
      }
    }

    /** Removes the transaction with the given nonce, if there is one. */
    method Remove(nonce: uint64) returns (found: bool)
      requires Valid()
      modifies this
      ensures Valid() && found == (nonce in old(items)) && items == old(items) - {nonce}
    {
      hide Lists, Indexes;
      if nonce !in items {
        assert items - {nonce} == items;
        return false;
      }
      index := RemoveIndex(index, items, nonce);
      items, cache, found := items - {nonce}, None, true;
    }

    /** Removes and returns the run of consecutive nonces from the least one, provided that
        one is not above `start`. */
    method Ready(start: nat) returns (ready: seq<Tx>)
      requires Valid()
      modifies this
      ensures Valid() && ReadyRun(ready, items, old(items), start)
    {
      hide Lists, Indexes, KeyedByNonce, IsLeast, From, Below;
      ready := [];
      ghost var was := items;
      if |index| == 0 || start < index[0] {
        NoRun(index, items, start);
        return;
      }
      var next := index[0];
      ghost var bound: nat := next;
      RunStarts(index, items);
      while 0 < |index| && index[0] == next
        invariant Indexes(index, items) && KeyedByNonce(items)
        invariant bound == old(index)[0] + |ready| && (bound < TWO_64 ==> next == bound)
        invariant items == From(was, bound) && Lists(ready, Below(was, bound))
        invariant forall i :: 0 <= i < |ready| ==> ready[i].nonce == old(index)[0] + i
        invariant ready == [] ==> index == old(index) && next == index[0]
        decreases |index|
      {
        ghost var before := items;
        RunGoesOn(index, items, was, bound);
        var tx := PopLeast();
        TakeNext(ready, before, was, bound, next);
        ready := ready + [tx];
        bound := bound + 1;
        next := AddWrap(next, 1);
      }
      cache := None;
      RunEnds(index, items, was, bound);
    }

    /** The contents in nonce order. The listing is cached until the contents change. */
    method Flatten() returns (txs: seq<Tx>)
      requires Valid()
      modifies this`cache
      ensures Valid() && Lists(txs, items)
    {
      if cache.None? {
        var todo, all := items.Keys, [];
        while todo != {}
          invariant todo <= items.Keys && Enumerates(all, items - todo)
          decreases todo
        {
          var n :| n in todo;
          AppendAny(all, items - todo, items[n]);
          assert items - (todo - {n}) == (items - todo)[n := items[n]];
          todo, all := todo - {n}, all + [items[n]];
        }
        assert items - todo == items;
        ghost var unsorted := all;
        all := Sort(TxByNonce, all);
        SortedListing(unsorted, all, items);
        cache := Some(all);
      }
      txs := cache.value;
    }
  }

  // ---------- the nonce heap ----------

  ghost predicate IsLeast(n: uint64, items: Items) {
    n in items && forall m :: m in items ==> n <= m
  }

  lemma RootIsLeastKey(index: seq<uint64>, items: Items)
    requires Indexes(index, items)
    ensures index == [] ==> items == map[]
    ensures index != [] ==> IsLeast(index[0], items)
  {
    if index == [] {
      assert items.Keys == {};
      return;
    }
    assert index[0] in multiset(index);
    forall n | n in items
      ensures index[0] <= n
    {
      assert n in multiset(index);
      var i :| 0 <= i < |index| && index[i] == n;
      RootIsLeast(NonceLess, index, i);
    }
  }

  lemma WithoutKey(items: Items, n: uint64)
    requires n in items
    ensures multiset(items.Keys) == multiset((items - {n}).Keys) + multiset{n}
  {
    assert items.Keys == (items - {n}).Keys + {n};
  }

  lemma SameKeys(index: seq<uint64>, items: Items, tx: Tx)
    requires Indexes(index, items) && tx.nonce in items
    ensures Indexes(index, items[tx.nonce := tx])
  {
    assert items[tx.nonce := tx].Keys == items.Keys;
  }

  method PushIndex(index: seq<uint64>, ghost items: Items, tx: Tx) returns (r: seq<uint64>)
    requires Indexes(index, items) && tx.nonce !in items
    ensures Indexes(r, items[tx.nonce := tx])
  {
    r := Push(NonceLess, index, tx.nonce);
    assert items[tx.nonce := tx].Keys == items.Keys + {tx.nonce};
  }

  method PopIndex(index: seq<uint64>, ghost items: Items) returns (r: seq<uint64>)
    requires Indexes(index, items) && index != []
    ensures index[0] in items && Indexes(r, items - {index[0]}) && |r| < |index|
  {
    var x;
    assert index[0] in multiset(index);
    WithoutKey(items, index[0]);
    r, x := Pop(NonceLess, index);
    assert |multiset(index)| == |multiset(r)| + 1;
    assert multiset(r) == multiset(index) - multiset{x};
  }

  method RemoveIndex(index: seq<uint64>, ghost items: Items, nonce: uint64) returns (r: seq<uint64>)
    requires Indexes(index, items) && nonce in items
    ensures Indexes(r, items - {nonce})
  {
    assert nonce in multiset(index);
    var i := 0;
    while index[i] != nonce
      invariant i < |index| && nonce in index[i..]
      decreases |index| - i
    {
      i := i + 1;
    }
    var x;
    WithoutKey(items, nonce);
    r, x := Heap.Remove(NonceLess, index, i);
    assert multiset(r) == multiset(index) - multiset{nonce};
  }

  /** The index of a map rebuilt from its keys. */
  method BuildIndex(items: Items) returns (index: seq<uint64>)
    ensures Indexes(index, items)
  {
    var todo := items.Keys;
    index := [];
    while todo != {}
      invariant todo <= items.Keys && multiset(index) + multiset(todo) == multiset(items.Keys)
      decreases todo
    {
      var n :| n in todo;
      assert multiset(todo) == multiset(todo - {n}) + multiset{n};
      todo, index := todo - {n}, index + [n];
    }
    index := Reheap(index, items);
  }

  method Reheap(keys: seq<uint64>, ghost items: Items) returns (index: seq<uint64>)
    requires multiset(keys) == multiset(items.Keys)
    ensures Indexes(index, items)
  {
    index := Init(NonceLess, keys);
  }

  method SortIndex(index: seq<uint64>, ghost items: Items) returns (sorted: seq<uint64>)
    requires Indexes(index, items)
    ensures SortedKeys(sorted, items) && |sorted| == |items|
  {
    sorted := Sort(NonceLess, index);
    SortedKeysOf(sorted, items);
  }

  lemma SortedKeysOf(index: seq<uint64>, items: Items)
    requires Sorted(NonceLess, index) && multiset(index) == multiset(items.Keys)
    ensures SortedKeys(index, items) && |index| == |items|
  {
    forall i, j | 0 <= i < j < |index|
      ensures index[i] < index[j]
    {
      if index[i] == index[j] {
        TwiceCounted(index, i, j);
      }
    }
    assert forall n :: n in index <==> n in multiset(index);
    assert |multiset(index)| == |items.Keys|;
  }

  lemma NothingDropped(items: Items)
    ensures Enumerates([], items - items.Keys) && Prefix(items, items)
  {
    assert items - items.Keys == map[];
  }

  lemma RestrictAll(index: seq<uint64>, items: Items)
    requires SortedKeys(index, items) && KeyedByNonce(items)
    ensures Restrict(items, index[..|index|]) == items && Enumerates([], items - items.Keys)
  {
    assert index[..|index|] == index;
    NothingDropped(items);
  }

  lemma DropOne(drops: seq<Tx>, items: Items, kept: Items, n: uint64)
    requires KeyedByNonce(items) && Enumerates(drops, items - kept.Keys)
    requires n in kept && n in items && kept[n] == items[n]
    ensures Enumerates(drops + [kept[n]], items - (kept - {n}).Keys)
  {
    AppendAny(drops, items - kept.Keys, kept[n]);
    assert items - (kept - {n}).Keys == (items - kept.Keys)[n := kept[n]];
  }

  lemma RestrictOne(index: seq<uint64>, items: Items, size: nat)
    requires SortedKeys(index, items) && size < |index|
    ensures index[size] in Restrict(items, index[..size + 1]) && index[size] in items
    ensures Restrict(items, index[..size + 1])[index[size]] == items[index[size]]
    ensures Restrict(items, index[..size + 1]) - {index[size]} == Restrict(items, index[..size])
  {
    assert index[..size + 1] == index[..size] + [index[size]];
  }

  /** Keeping the first keys of a sorted index keeps what lies below the next key. */
  lemma CapSplits(index: seq<uint64>, items: Items, threshold: nat, kept: Items)
    requires SortedKeys(index, items) && threshold < |index| && KeyedByNonce(items)
    requires kept == Restrict(items, index[..threshold])
    ensures kept == Below(items, index[threshold]) && Prefix(kept, items) && KeyedByNonce(kept)
    ensures multiset(index[..threshold]) == multiset(kept.Keys) && |kept| == threshold
  {
    var low := index[..threshold];
    forall n | n in items
      ensures n in low <==> n < index[threshold]
    {
      var i :| 0 <= i < |index| && index[i] == n;
      assert i < threshold ==> low[i] == n;
    }
    assert kept == Below(items, index[threshold]);
    assert Prefix(kept, items);
    LowKeys(index, items, threshold, kept);
  }

  lemma LowKeys(index: seq<uint64>, items: Items, threshold: nat, kept: Items)
    requires SortedKeys(index, items) && threshold < |index|
    requires kept == Restrict(items, index[..threshold])
    ensures multiset(index[..threshold]) == multiset(kept.Keys) && |kept| == threshold
  {
    var low := index[..threshold];
    assert forall n :: n in low ==> n in index;
    KeysMultiset(low, kept.Keys);
    assert |multiset(low)| == |multiset(kept.Keys)|;
  }

  lemma {:induction false} KeysMultiset(s: seq<uint64>, keys: set<uint64>)
    requires forall i, j :: 0 <= i < j < |s| ==> s[i] < s[j]
    requires forall n :: n in s <==> n in keys
    ensures multiset(s) == multiset(keys)
  {
    if s == [] {
      assert keys == {};
    } else {
      KeysMultiset(s[1..], keys - {s[0]});
      assert s == [s[0]] + s[1..];
      assert multiset(keys) == multiset(keys - {s[0]}) + multiset{s[0]};
    }
  }

  // ---------- listings ----------

  lemma AppendAny(s: seq<Tx>, items: Items, tx: Tx)
    requires Enumerates(s, items) && tx.nonce !in items
    ensures Enumerates(s + [tx], items[tx.nonce := tx])
  {
    var r := s + [tx];
    assert r[|s|] == tx;
    forall n | n in items
      ensures items[n] in r
    {
      var i :| 0 <= i < |s| && s[i] == items[n];
      assert r[i] == s[i];
    }
  }

  lemma ListedBelow(s: seq<Tx>, items: Items, bound: int)
    requires Lists(s, Below(items, bound))
    ensures forall i :: 0 <= i < |s| ==> s[i].nonce < bound
  {
  }

  /** Taking the least remaining nonce extends a listing of everything below a bound. */
  lemma TakeNext(s: seq<Tx>, items: Items, was: Items, bound: int, n: uint64)
    requires KeyedByNonce(was) && items == From(was, bound) && Lists(s, Below(was, bound))
    requires IsLeast(n, items)
    ensures items - {n} == From(was, n + 1) && KeyedByNonce(items - {n})
    ensures Lists(s + [items[n]], Below(was, n + 1)) && items[n].nonce == n
  {
    ListedBelow(s, was, bound);
    hide Enumerates;
    AppendAny(s, Below(was, bound), was[n]);
    assert forall m :: m in was && bound <= m ==> m in items;
    assert Below(was, bound)[n := was[n]] == Below(was, n + 1);
  }

  lemma NothingBelow(items: Items, t: int)
    requires KeyedByNonce(items) && forall n :: n in items ==> t <= n
    ensures From(items, t) == items && Lists([], Below(items, t))
  {
    assert Below(items, t) == map[];
  }

  /** Once the least remaining nonce has reached u, a cut at t is a cut at u. */
  lemma RestIsAbove(index: seq<uint64>, items: Items, was: Items, t: int, u: int)
    requires Indexes(index, items) && items == From(was, t) && t <= u
    requires index != [] ==> u <= index[0]
    ensures items == From(was, u) && Below(was, t) == Below(was, u)
  {
    RootIsLeastKey(index, items);
    assert forall n :: n in was && t <= n ==> n in items;
  }

  lemma NoRun(index: seq<uint64>, items: Items, start: int)
    requires Indexes(index, items) && (index != [] ==> start < index[0])
    ensures forall n :: n in items ==> start < n
  {
    RootIsLeastKey(index, items);
  }

  lemma RunStarts(index: seq<uint64>, items: Items)
    requires Indexes(index, items) && index != [] && KeyedByNonce(items)
    ensures index[0] in items
    ensures items == From(items, index[0]) && Lists([], Below(items, index[0]))
  {
    RootIsLeastKey(index, items);
    NothingBelow(items, index[0]);
  }

  lemma RunGoesOn(index: seq<uint64>, items: Items, was: Items, bound: nat)
    requires Indexes(index, items) && items == From(was, bound) && index != []
    ensures bound <= index[0]
  {
    RootIsLeastKey(index, items);
  }

  lemma RunEnds(index: seq<uint64>, items: Items, was: Items, bound: nat)
    requires Indexes(index, items) && items == From(was, bound)
    requires bound < TWO_64 && index != [] ==> index[0] != bound
    ensures bound !in was
  {
    RootIsLeastKey(index, items);
    assert bound in was ==> bound in items;
  }

  /** Half-way through filtering: the nonces in todo have not been looked at. */
  ghost predicate Filtering(filter: Tx -> bool, removed: seq<Tx>, items: Items, todo: set<uint64>, was: Items) {
    && Enumerates(removed, AcceptedOutside(filter, was, todo))
    && items == map n | n in was && (n in todo || !filter(was[n])) :: was[n]
  }

  ghost function AcceptedOutside(filter: Tx -> bool, items: Items, todo: set<uint64>): Items {
    map n | n in items && n !in todo && filter(items[n]) :: items[n]
  }

  lemma FilterOne(filter: Tx -> bool, removed: seq<Tx>, items: Items, todo: set<uint64>, was: Items, n: uint64)
    requires KeyedByNonce(was) && Filtering(filter, removed, items, todo, was) && n in todo && n in was
    ensures n in items
    ensures if filter(items[n]) then Filtering(filter, removed + [items[n]], items - {n}, todo - {n}, was)
            else Filtering(filter, removed, items, todo - {n}, was)
  {
    hide Enumerates;
    if filter(was[n]) {
      AppendAny(removed, AcceptedOutside(filter, was, todo), was[n]);
      assert AcceptedOutside(filter, was, todo - {n}) == AcceptedOutside(filter, was, todo)[n := was[n]];
    } else {
      assert AcceptedOutside(filter, was, todo - {n}) == AcceptedOutside(filter, was, todo);
    }
  }

  lemma FilterEnds(filter: Tx -> bool, removed: seq<Tx>, items: Items, was: Items)
    ensures Filtering(filter, [], was, was.Keys, was)
    ensures Filtering(filter, removed, items, {}, was) ==>
      Enumerates(removed, Accepted(filter, was)) && items == Rejected(filter, was)
  {
    assert AcceptedOutside(filter, was, was.Keys) == map[];
    assert AcceptedOutside(filter, was, {}) == Accepted(filter, was);
  }

  lemma NothingAccepted(filter: Tx -> bool, removed: seq<Tx>, items: Items)
    requires Enumerates(removed, Accepted(filter, items)) && removed == []
    ensures Rejected(filter, items) == items
  {
    assert forall n :: n in items && filter(items[n]) ==> Accepted(filter, items)[n] in removed;
  }

  lemma ListsEnumerates(s: seq<Tx>, items: Items)
    requires Lists(s, items)
    ensures Enumerates(s, items) && StrictlyAscending(s)
  {
  }

  lemma TrimFront(c: seq<Tx>, removed: seq<Tx>, items: Items, t: int)
    requires Lists(c, items) && Lists(removed, Below(items, t))
    ensures |removed| <= |c| && Lists(c[|removed|..], From(items, t))
  {
    var k := CutPoint(c, t);
    ListsBelow(c, items, k, t);
    ListsFrom(c, items, k, t);
    ListsUnique(c[..k], removed, Below(items, t));
  }

  lemma TrimBack(c: seq<Tx>, kept: Items, drops: seq<Tx>, items: Items, t: int)
    requires Lists(c, items) && kept == Below(items, t) && Enumerates(drops, items - kept.Keys)
    ensures |drops| <= |c| && Lists(c[..|c| - |drops|], kept)
  {
    hide Lists, Enumerates;
    ListsEnumerates(c, items);
    var k := CutPoint(c, t);
    ListsBelow(c, items, k, t);
    ListsLength(c, items);
    ListsEnumerates(c[..k], kept);
    ListsLength(c[..k], kept);
    ListsLength(drops, items - kept.Keys);
    assert items.Keys == kept.Keys + (items - kept.Keys).Keys;
  }

  lemma {:induction false} CountedOnce(s: seq<Tx>, tx: Tx)
    requires Distinct(s)
    ensures multiset(s)[tx] <= 1
  {
    if s != [] {
      CountedOnce(s[1..], tx);
      assert s == [s[0]] + s[1..];
      if tx == s[0] {
        assert tx !in s[1..];
      }
    }
  }

  lemma SortedListing(s: seq<Tx>, r: seq<Tx>, items: Items)
    requires Enumerates(s, items) && multiset(r) == multiset(s) && Sorted(TxByNonce, r)
    ensures Lists(r, items)
  {
    forall i | 0 <= i < |r|
      ensures r[i].nonce in items && items[r[i].nonce] == r[i]
    {
      assert r[i] in multiset(s);
    }
    forall i, j | 0 <= i < j < |r|
      ensures r[i].nonce < r[j].nonce
    {
      if r[i].nonce == r[j].nonce {
        TwiceCounted(r, i, j);
        CountedOnce(s, r[i]);
      }
    }
    forall n | n in items
      ensures items[n] in r
    {
      assert items[n] in multiset(s) && items[n] in multiset(r);
    }
  }
}
