/** One account's transactions: a nonce-sorted map with cached spending caps, strict for the
    executable ones and gapped for the queued ones. */
module TxLists {
  import opened Types
  import opened NonceMap
  import opened TxSortedMaps

  /** The price a replacement has to reach; the percentage is summed as an int64. */
  function BumpThreshold(oldPrice: nat, priceBump: uint64): int {
    var sum := 100 + ToInt64(priceBump);
    var percent := if sum < TWO_64 / 2 then sum else sum - TWO_64;
    oldPrice * percent / 100
  }

  predicate Outbids(prev: Tx, tx: Tx, priceBump: uint64) {
    prev.gasPrice < tx.gasPrice && BumpThreshold(prev.gasPrice, priceBump) <= tx.gasPrice
  }

  /** A replacement is dearer and, unless the percentage does not fit the machine's arithmetic, dearer by
      that percentage rounded down. */
  predicate Replaces(prev: Tx, tx: Tx, priceBump: uint64) {
    && prev.gasPrice < tx.gasPrice
    && (priceBump < 0x7fff_ffff_ffff_ff9c ==> prev.gasPrice * (100 + priceBump) < 100 * (tx.gasPrice + 1))
  }

  lemma OutbidsReplaces(prev: Tx, tx: Tx, priceBump: uint64)
    ensures Outbids(prev, tx, priceBump) <==> Replaces(prev, tx, priceBump)
  {
    var percent := if priceBump < 0x7fff_ffff_ffff_ff9c then 100 + priceBump else 100 + priceBump - TWO_64;
    assert BumpThreshold(prev.gasPrice, priceBump) == prev.gasPrice * percent / 100;
    FloorAtMost(prev.gasPrice * percent, tx.gasPrice);
    if percent < 100 { ProductAtMost(prev.gasPrice, percent); }
    hide BumpThreshold;
  }

  lemma FloorAtMost(x: int, y: int)
    ensures x / 100 <= y <==> x < 100 * (y + 1)
  {
  }

  lemma ProductAtMost(x: nat, percent: int)
    requires percent < 100
    ensures x * percent <= x * 100
  {
  }

  /** No transaction costs more than costcap or asks for more gas than gascap. */
  ghost predicate Capped(items: Items, costcap: int, gascap: int) {
    forall n :: n in items ==> items[n].Cost() <= costcap && items[n].gas <= gascap
  }

  function OverLimits(costLimit: int, gasLimit: int): Tx -> bool {
    (tx: Tx) => tx.Cost() > costLimit || tx.gas > gasLimit
  }

  /** What filtering leaves: everything within the limits and, in a strict list, only what
      lies below every transaction that is over them. */
  ghost function Affordable(strict: bool, items: Items, costLimit: int, gasLimit: int): Items {
    map n | n in items && !OverLimits(costLimit, gasLimit)(items[n])
      && (strict ==> forall m :: m in items && OverLimits(costLimit, gasLimit)(items[m]) ==> n < m) :: items[n]
  }

  class TxList {
    const strict: bool
    const txs: TxSortedMap
    var costcap: int
    var gascap: uint64

    ghost predicate Valid()
      reads this, txs
    {
      && txs.Valid()
      && Capped(txs.items, costcap, gascap)
      && txs.owner.strict == strict
    }

    constructor (strict: bool, ghost account: Address)
      ensures Valid() && fresh(txs) && this.strict == strict
      ensures txs.owner == Owner(account, strict) && txs.items == map[]
    {
      this.strict := strict;
      costcap, gascap := 0, 0;
      txs := new TxSortedMap(Owner(account, strict));
    }

    /** Whether a transaction with the same nonce is in the list. */
    predicate Overlaps(tx: Tx)
      reads txs
    {
      tx.nonce in txs.items
    }

    /** Inserts the transaction unless one with the same nonce is not sufficiently outbid. */
    method Add(tx: Tx, priceBump: uint64) returns (inserted: bool, replaced: Option<Tx>)
      requires Valid()
      modifies this, txs
      ensures Valid()
      ensures inserted <==> tx.nonce in old(txs.items) ==> Outbids(old(txs.items)[tx.nonce], tx, priceBump)
      ensures inserted <==> tx.nonce in old(txs.items) ==> (
        var price := old(txs.items)[tx.nonce].gasPrice;
        price < tx.gasPrice
        && (priceBump < 0x7fff_ffff_ffff_ff9c ==> price * (100 + priceBump) < 100 * (tx.gasPrice + 1)))
      ensures replaced == if inserted && tx.nonce in old(txs.items) then Some(old(txs.items)[tx.nonce]) else None
      ensures txs.items == if inserted then old(txs.items)[tx.nonce := tx] else old(txs.items)
    {
      replaced := None;
      if Overlaps(tx) {
        var previous := txs.items[tx.nonce];
        OutbidsReplaces(previous, tx, priceBump);
        var threshold := BumpThreshold(previous.gasPrice, priceBump);
        if previous.gasPrice >= tx.gasPrice || threshold > tx.gasPrice {
          return false, None;
        }
        replaced := Some(previous);
      }
      txs.Put(tx);
      if costcap < tx.Cost() {
        costcap := tx.Cost();
      }
      if gascap < tx.gas {
        gascap := tx.gas;
      }
      inserted := true;
    }

    method Forward(threshold: nat) returns (removed: seq<Tx>)
      requires Valid()
      modifies txs
      ensures Valid() && txs.items == From(old(txs.items), threshold)
      ensures Lists(removed, Below(old(txs.items), threshold))
    {
      removed := txs.Forward(threshold);
    }

    /** Removes whatever is over the limits and, in a strict list, whatever comes after it. The
        caps decide whether the scan is made at all, yet the outcome is that of the full scan. */
    method Filter(costLimit: int, gasLimit: uint64) returns (removed: seq<Tx>, invalids: seq<Tx>)
      requires Valid()
      modifies this, txs
      ensures Valid()
      ensures txs.items == Affordable(strict, old(txs.items), costLimit, gasLimit)
      ensures Enumerates(removed, Accepted(OverLimits(costLimit, gasLimit), old(txs.items)))
      ensures Enumerates(invalids, Rejected(OverLimits(costLimit, gasLimit), old(txs.items)) - txs.items.Keys)
    {
      hide Enumerates, Lists, Indexes;
      var over := OverLimits(costLimit, gasLimit);
      ghost var was := txs.items;
      if costcap <= costLimit && gascap <= gasLimit {
        WithinCaps(strict, was, costcap, gascap, costLimit, gasLimit);
        return [], [];
      }
      costcap, gascap := costLimit, gasLimit;
      removed := txs.Filter(over);
      invalids := [];
      if strict && 0 < |removed| {
        var lowest := LowestNonce(removed, Accepted(over, was));
        ghost var within := txs.items;
        invalids := txs.Filter((tx: Tx) => tx.nonce > lowest);
        CutAtLowest(was, within, txs.items, costLimit, gasLimit, lowest);
      } else {
        NothingCut(strict, was, removed, costLimit, gasLimit);
      }
    }

    method Cap(threshold: nat) returns (drops: seq<Tx>)
      requires Valid()
      modifies txs
      ensures Valid() && Prefix(txs.items, old(txs.items))
      ensures |txs.items| == if |old(txs.items)| <= threshold then |old(txs.items)| else threshold
      ensures Enumerates(drops, old(txs.items) - txs.items.Keys)
    {
      drops := txs.Cap(threshold);
    }

    /** Removes by nonce; a strict list also gives up everything after it. */
    method Remove(tx: Tx) returns (found: bool, invalids: seq<Tx>)
      requires Valid()
      modifies txs
      ensures Valid() && found == (tx.nonce in old(txs.items))
      ensures txs.items == if strict && found then Below(old(txs.items), tx.nonce) else old(txs.items) - {tx.nonce}
      ensures Enumerates(invalids, if strict && found then From(old(txs.items), tx.nonce + 1) else map[])
    {
      hide Lists, Indexes;
      found := txs.Remove(tx.nonce);
      invalids := [];
      if found && strict {
        invalids := txs.Filter((other: Tx) => other.nonce > tx.nonce);
        assert txs.items == Below(old(txs.items), tx.nonce);
        assert From(old(txs.items), tx.nonce + 1)
            == Accepted((other: Tx) => other.nonce > tx.nonce, old(txs.items) - {tx.nonce});
      }
    }

    method Ready(start: nat) returns (ready: seq<Tx>)
      requires Valid()
      modifies txs
      ensures Valid() && ReadyRun(ready, txs.items, old(txs.items), start)
    {
      ready := txs.Ready(start);
      assert forall n :: n in txs.items ==> n in old(txs.items) && txs.items[n] == old(txs.items)[n];
    }

    function Len(): nat
      reads txs
    {
      |txs.items|
    }

    predicate Empty()
      reads txs
      ensures Empty() <==> txs.items == map[]
    {
      Len() == 0
    }

    method Flatten() returns (listing: seq<Tx>)
      requires Valid()
      modifies txs`cache
      ensures Valid() && Lists(listing, txs.items)
    {
      listing := txs.Flatten();
    }
  }

  /** The lowest nonce among the removed transactions. */
  method LowestNonce(removed: seq<Tx>, ghost items: Items) returns (lowest: uint64)
    requires Enumerates(removed, items) && removed != []
    ensures IsLeast(lowest, items)
  {
    lowest := MAX_UINT64;
    for i := 0 to |removed|
      invariant forall j :: 0 <= j < i ==> lowest <= removed[j].nonce
      invariant lowest == MAX_UINT64 || exists j :: 0 <= j < i && removed[j].nonce == lowest
    {
      if lowest > removed[i].nonce {
        lowest := removed[i].nonce;
      }
    }
    forall n | n in items
      ensures lowest <= n
    {
      assert items[n] in removed;
    }
    assert removed[0].nonce in items;
  }

  lemma WithinCaps(strict: bool, items: Items, costcap: int, gascap: int, costLimit: int, gasLimit: int)
    requires Capped(items, costcap, gascap) && costcap <= costLimit && gascap <= gasLimit
    ensures Affordable(strict, items, costLimit, gasLimit) == items
    ensures Enumerates([], Accepted(OverLimits(costLimit, gasLimit), items))
    ensures Enumerates([], Rejected(OverLimits(costLimit, gasLimit), items) - items.Keys)
  {
    assert Accepted(OverLimits(costLimit, gasLimit), items) == map[];
    assert Rejected(OverLimits(costLimit, gasLimit), items) - items.Keys == map[];
  }

  lemma CutAtLowest(items: Items, within: Items, kept: Items, costLimit: int, gasLimit: int, lowest: uint64)
    requires KeyedByNonce(items) && within == Rejected(OverLimits(costLimit, gasLimit), items)
    requires IsLeast(lowest, Accepted(OverLimits(costLimit, gasLimit), items))
    requires kept == Rejected((tx: Tx) => tx.nonce > lowest, within)
    ensures kept == Affordable(true, items, costLimit, gasLimit)
    ensures Accepted((tx: Tx) => tx.nonce > lowest, within) == within - kept.Keys
  {
    var over := OverLimits(costLimit, gasLimit);
    assert lowest in items && over(items[lowest]);
    forall n | n in items && !over(items[n])
      ensures n <= lowest <==> forall m :: m in items && over(items[m]) ==> n < m
    {
      assert forall m :: m in items && over(items[m]) ==> m in Accepted(over, items);
    }
  }

  lemma NothingCut(strict: bool, items: Items, removed: seq<Tx>, costLimit: int, gasLimit: int)
    requires Enumerates(removed, Accepted(OverLimits(costLimit, gasLimit), items))
    requires strict ==> removed == []
    ensures Affordable(strict, items, costLimit, gasLimit) == Rejected(OverLimits(costLimit, gasLimit), items)
    ensures Enumerates([], Rejected(OverLimits(costLimit, gasLimit), items) - Affordable(strict, items, costLimit,
      gasLimit).Keys)
  {
    var over := OverLimits(costLimit, gasLimit);
    if strict {
      ListsLength(removed, Accepted(over, items));
      assert forall m :: m in items && over(items[m]) <==> m in Accepted(over, items);
    }
    assert Affordable(strict, items, costLimit, gasLimit) == Rejected(over, items);
    assert Rejected(over, items) - Affordable(strict, items, costLimit, gasLimit).Keys == map[];
  }

  /** What a strict filter keeps is the beginning of the list. */
  lemma AffordablePrefix(items: Items, costLimit: int, gasLimit: int)
    requires KeyedByNonce(items)
    ensures Prefix(Affordable(true, items, costLimit, gasLimit), items)
  {
    var over, kept := OverLimits(costLimit, gasLimit), Affordable(true, items, costLimit, gasLimit);
    forall n, m | n in items && m in kept && n < m ensures n in kept {
      assert m in items && forall k :: k in items && over(items[k]) ==> m < k;
      assert !over(items[n]);
    }
  }

  lemma PrefixConsecutive(kept: Items, items: Items)
    requires Prefix(kept, items) && Consecutive(items)
    ensures Consecutive(kept)
  {
    forall n, m, k: int | n in kept && m in kept && n <= k <= m ensures k in kept {
      assert n in items && m in items && k in items;
    }
  }

  /** A strict list without gaps stays without gaps, whatever is done to shorten it: forwarding,
      filtering, capping or removing a transaction. */
  lemma StrictStaysConsecutive(items: Items, kept: Items, threshold: nat, costLimit: int, gasLimit: int, nonce: uint64)
    requires KeyedByNonce(items) && Consecutive(items) && Prefix(kept, items)
    ensures Consecutive(kept)
    ensures Consecutive(From(items, threshold))
    ensures Consecutive(Affordable(true, items, costLimit, gasLimit))
    ensures Consecutive(Below(items, nonce))
  {
    PrefixConsecutive(kept, items);
    AffordablePrefix(items, costLimit, gasLimit);
    PrefixConsecutive(Affordable(true, items, costLimit, gasLimit), items);
    PrefixConsecutive(Below(items, nonce), items);
    var from := From(items, threshold);
    forall n, m, k: int | n in from && m in from && n <= k <= m ensures k in from {
      assert n in items && m in items && k in items;
    }
  }

  /** Filtering tells every transaction of the old list apart: it is kept, removed for its price or
      gas, or invalidated by one removed below it, and only one of these. */
  lemma FilterPartitions(strict: bool, items: Items, costLimit: int, gasLimit: int)
    requires KeyedByNonce(items)
    ensures var over, kept := OverLimits(costLimit, gasLimit), Affordable(strict, items, costLimit, gasLimit);
      var removed, invalids := Accepted(over, items), Rejected(over, items) - kept.Keys;
      && kept.Keys !! removed.Keys !! invalids.Keys
      && items == kept + removed + invalids
      && (!strict ==> invalids == map[])
      && (strict ==> forall n :: n in invalids ==> exists m :: m in removed && m < n)
  {
    var over, kept := OverLimits(costLimit, gasLimit), Affordable(strict, items, costLimit, gasLimit);
    var removed, invalids := Accepted(over, items), Rejected(over, items) - kept.Keys;
    if strict {
      forall n | n in invalids ensures exists m :: m in removed && m < n {
        var m :| m in items && over(items[m]) && m <= n;
        assert m in removed && m != n;
      }
    }
  }
}
