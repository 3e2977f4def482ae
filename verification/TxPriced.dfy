/** The lookup of all pooled transactions, the set of local accounts, and the lazily cleaned
    heap that orders the pool by price. */
module TxPriceds {
  import opened Types
  import opened Heap

  class TxLookup {
    var all: map<TxHash, Tx>

    constructor ()
      ensures all == map[]
    {
      all := map[];
    }

    /** The transactions that can be looked up. */
    ghost function Live(): set<Tx>
      reads this
    {
      set h | h in all :: h.content
    }

    /** Every entry is stored under its own hash. */
    ghost predicate Valid()
      reads this
    {
      forall h :: h in all ==> all[h] == h.content
    }

    method Add(tx: Tx)
      requires Valid()
      modifies this
      ensures Valid() && Live() == old(Live()) + {tx}
    {
      assert forall h :: h in all[tx.Hash() := tx] <==> h in all || h == tx.Hash();
      all := all[tx.Hash() := tx];
      assert tx.Hash() in all;
      assert forall t :: t in old(Live()) ==> t.Hash() in old(all) && t.Hash() in all;
    }

    method Remove(hash: TxHash)
      requires Valid()
      modifies this
      ensures Valid() && Live() == old(Live()) - {hash.content}
    {
      all := all - {hash};
      assert forall t :: t in old(Live()) && t != hash.content ==> t.Hash() in old(all) && t.Hash() in all;
    }

    lemma LiveCount()
      ensures |Live()| == |all|
    {
      ContentCount(all.Keys);
      assert Live() == ContentsOf(all.Keys);
    }

    lemma LiveIs(tx: Tx)
      ensures tx in Live() <==> tx.Hash() in all
    {
      assert tx == tx.Hash().content;
    }
  }

  ghost function ContentsOf(hashes: set<TxHash>): set<Tx> {
    set h | h in hashes :: h.content
  }

  /** Hashes are injective, so there are as many transactions as hashes. */
  lemma {:induction false} ContentCount(hashes: set<TxHash>)
    ensures |ContentsOf(hashes)| == |hashes|
  {
    if hashes != {} {
      var h :| h in hashes;
      ContentCount(hashes - {h});
      assert ContentsOf(hashes) == ContentsOf(hashes - {h}) + {h.content};
    }
  }

  class AccountSet {
    var accounts: set<Address>

    constructor (accounts: set<Address>)
      ensures this.accounts == accounts
    {
      this.accounts := accounts;
    }

    predicate Contains(addr: Address)
      reads this
    {
      addr in accounts
    }

    /** Whether the sender of the transaction can be derived and is in the set. */
    predicate ContainsTx(tx: Tx)
      reads this
    {
      tx.signed && Contains(tx.sender)
    }

    method Add(addr: Address)
      modifies this
      ensures accounts == old(accounts) + {addr}
    {
      accounts := accounts + {addr};
    }
  }

  /** Cheaper first; at the same price the higher nonce is worse. */
  predicate PriceLess(x: Tx, y: Tx) {
    x.gasPrice < y.gasPrice || (x.gasPrice == y.gasPrice && x.nonce > y.nonce)
  }

  /** The remote transactions among `live` cheaper than the threshold. */
  ghost predicate RemoteBelow(tx: Tx, live: set<Tx>, local: set<Address>, threshold: int) {
    tx in live && !(tx.signed && tx.sender in local) && tx.gasPrice < threshold
  }

  class TxPricedList {
    const all: TxLookup
    var items: seq<Tx>
    var stales: int

    constructor (all: TxLookup)
      ensures this.all == all && Valid() && items == []
    {
      this.all := all;
      items, stales := [], 0;
    }

    ghost predicate Valid()
      reads this
    {
      IsHeap(PriceLess, items)
    }

    /** Every live transaction, save the exempt ones, is in the heap; the heap may hold others. */
    ghost predicate Covers(exempt: set<Tx>)
      reads this, all
    {
      forall tx :: tx in all.Live() ==> tx in items || tx in exempt
    }

    method Put(tx: Tx)
      requires Valid()
      modifies this
      ensures Valid() && multiset(items) == multiset(old(items)) + multiset{tx} && stales == old(stales)
      ensures forall t :: t in items <==> t in old(items) || t == tx
    {
      items := PricePush(items, tx);
    }

    /** Takes note that a transaction left the pool, rebuilding the heap from the live ones when
        a quarter of it has gone stale. */
    method Removed()
      requires Valid() && all.Valid()
      modifies this
      ensures Valid()
      ensures forall exempt :: old(Covers(exempt)) ==> Covers(exempt)
      ensures if old(stales) + 1 <= |old(items)| / 4 then items == old(items) && stales == old(stales) + 1
        else multiset(items) == multiset(all.Live()) && stales == 0
    {
      stales := stales + 1;
      if stales <= |items| / 4 {
        return;
      }
      var todo, reheap := all.all.Keys, [];
      ghost var done: set<Tx> := {};
      while todo != {}
        invariant todo <= all.all.Keys && multiset(reheap) == multiset(done)
        invariant forall tx: Tx :: tx in done <==> tx.Hash() in all.all && tx.Hash() !in todo
        decreases todo
      {
        var h :| h in todo;
        assert h == h.content.Hash() && h.content !in done;
        assert multiset(done + {h.content}) == multiset(done) + multiset{h.content};
        todo, reheap, done := todo - {h}, reheap + [all.all[h]], done + {h.content};
      }
      reheap := Init(PriceLess, reheap);
      forall tx: Tx
        ensures tx in done <==> tx in all.Live()
      {
        all.LiveIs(tx);
      }
      assert done == all.Live();
      assert forall tx :: tx in reheap <==> tx in multiset(reheap);
      stales, items := 0, reheap;
    }

    /** Takes every remote transaction cheaper than the threshold off the heap. */
    method Cap(threshold: nat, local: AccountSet) returns (drop: seq<Tx>)
      requires Valid() && Covers({}) && all.Valid()
      modifies this
      ensures Valid() && Covers(set tx | tx in drop)
      ensures forall tx :: tx in drop <==> RemoteBelow(tx, all.Live(), local.accounts, threshold)
    {
      drop := [];
      var save: seq<Tx> := [];
      ghost var live := all.Live();
      while 0 < |items|
        invariant Valid() && live == all.Live()
        invariant forall tx :: tx in live ==> tx in items || tx in save || tx in drop
        invariant forall tx :: tx in drop ==> RemoteBelow(tx, live, local.accounts, threshold)
        invariant forall tx :: tx in save ==> !RemoteBelow(tx, live, local.accounts, threshold)
        decreases |items|
      {
        var tx;
        items, tx := PricePop(items);
        all.LiveIs(tx);
        if tx.Hash() !in all.all {
          stales := stales - 1;
          continue;
        }
        if tx.gasPrice >= threshold {
          save := save + [tx];
          break;
        }
        if local.ContainsTx(tx) {
          save := save + [tx];
        } else {
          drop := drop + [tx];
        }
      }
      Restore(save);
    }

    /** Whether nothing live is cheaper than the given remote transaction. */
    method Underpriced(tx: Tx, local: AccountSet) returns (under: bool)
      requires Valid() && Covers({}) && all.Valid()
      modifies this
      ensures Valid() && Covers({})
      ensures under <==>
        !local.ContainsTx(tx) && all.Live() != {} && forall t :: t in all.Live() ==> tx.gasPrice <= t.gasPrice
    {
      if local.ContainsTx(tx) {
        return false;
      }
      ghost var live := all.Live();
      while 0 < |items| && items[0].Hash() !in all.all
        invariant Valid() && live == all.Live()
        invariant forall t :: t in live ==> t in items
        decreases |items|
      {
        var head;
        stales := stales - 1;
        all.LiveIs(items[0]);
        items, head := PricePop(items);
      }
      if |items| == 0 {
        return false;
      }
      all.LiveIs(items[0]);
      forall t | t in items
        ensures items[0].gasPrice <= t.gasPrice
      {
        var i :| 0 <= i < |items| && items[i] == t;
        RootIsLeast(PriceLess, items, i);
      }
      under := items[0].gasPrice >= tx.gasPrice;
    }

    /** Takes up to `count` of the cheapest remote transactions off the heap. */
    method Discard(count: int, local: AccountSet) returns (drop: seq<Tx>)
      requires Valid() && Covers({}) && all.Valid()
      modifies this
      ensures Valid() && Covers(set tx | tx in drop)
      ensures forall tx :: tx in drop ==> tx in all.Live() && !local.ContainsTx(tx)
      ensures forall d, tx ::
        d in drop && tx in all.Live() && !local.ContainsTx(tx) && tx !in drop ==> !PriceLess(tx, d)
      ensures if 0 <= count then |drop| <= count else drop == []
      ensures |drop| < count ==> forall tx :: tx in all.Live() && !local.ContainsTx(tx) ==> tx in drop
    {
      drop := [];
      var save: seq<Tx> := [];
      var left := count;
      ghost var live := all.Live();
      while 0 < |items| && 0 < left
        invariant Valid() && live == all.Live() && |drop| + left == count
        invariant if 0 <= count then 0 <= left else drop == []
        invariant forall tx :: tx in live ==> tx in items || tx in save || tx in drop
        invariant forall tx :: tx in drop ==> tx in live && !local.ContainsTx(tx)
        invariant forall tx :: tx in save ==> local.ContainsTx(tx)
        invariant forall d, tx :: d in drop && tx in items ==> !PriceLess(tx, d)
        decreases |items|
      {
        var tx;
        items, tx := PricePop(items);
        all.LiveIs(tx);
        if tx.Hash() !in all.all {
          stales := stales - 1;
          continue;
        }
        if local.ContainsTx(tx) {
          save := save + [tx];
        } else {
          drop := drop + [tx];
          left := left - 1;
        }
      }
      Restore(save);
    }

    /** Pushes the saved transactions back. */
    method Restore(save: seq<Tx>)
      requires Valid()
      modifies this
      ensures Valid() && forall t :: t in items <==> t in old(items) || t in save
    {
      for i := 0 to |save|
        invariant Valid() && forall t :: t in items <==> t in old(items) || t in save[..i]
      {
        items := PricePush(items, save[i]);
      }
    }
  }

  method PricePush(h: seq<Tx>, tx: Tx) returns (r: seq<Tx>)
    requires IsHeap(PriceLess, h)
    ensures IsHeap(PriceLess, r) && multiset(r) == multiset(h) + multiset{tx}
    ensures forall t :: t in r <==> t in h || t == tx
  {
    r := Push(PriceLess, h, tx);
    assert forall t :: t in r <==> t in multiset(r);
  }

  method PricePop(h: seq<Tx>) returns (r: seq<Tx>, tx: Tx)
    requires IsHeap(PriceLess, h) && h != []
    ensures IsHeap(PriceLess, r) && |r| < |h| && tx == h[0]
    ensures forall t :: t in h <==> t in r || t == tx
    ensures forall t :: t in h ==> !PriceLess(t, tx)
  {
    r, tx := Pop(PriceLess, h);
    assert |multiset(h)| == |multiset(r)| + 1;
    assert forall t :: t in h <==> t in multiset(h);
    assert forall t :: t in r <==> t in multiset(r);
  }
}
