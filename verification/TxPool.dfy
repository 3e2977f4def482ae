/** The transaction pool. */
module TxPools {
  import opened Types
  import opened NonceMap
  import opened TxSortedMaps
  import opened TxLists
  import opened TxPriceds
  import opened PoolViews
  import opened Sums
  import opened FairShares
  import opened QueueCaps
  import opened Ledgers
  import opened IntrinsicGases

  type ListsByAccount = map<Address, TxList>

  class TxPool {
    const config: Config
    const all: TxLookup
    const priced: TxPricedList
    const locals: AccountSet
    var gasPrice: nat
    var homestead: bool
    var currentState: ChainState
    var currentMaxGas: uint64
    var pendingNonces: map<Address, uint64>
    var pending: ListsByAccount
    var queue: ListsByAccount
    var beats: map<Address, nat>
    var clock: nat
    /** Transactions between two lists, and transactions already off the price heap. */
    ghost var limbo: set<Tx>
    ghost var exempt: set<Tx>
    /** The objects the two families of lists are made of. */
    ghost var pendingRepr: set<object>
    ghost var queueRepr: set<object>

    ghost function Repr(): set<object>
      reads this
    {
      {this, all, priced, locals} + pendingRepr + queueRepr
    }

    /** Every list belongs to its account, and the heap and the lookup are sound. */
    ghost predicate Shape()
      reads this`pending, this`queue, this`exempt, this`pendingRepr, this`queueRepr, all, priced, pendingRepr, queueRepr
    {
      && priced.all == all && all.Valid() && priced.Valid() && priced.Covers(exempt)
      && Owned(pending, true, pendingRepr) && Owned(queue, false, queueRepr)
      && pendingRepr !! queueRepr && this !in pendingRepr && this !in queueRepr
      && all !in pendingRepr && all !in queueRepr && priced !in pendingRepr && priced !in queueRepr
      && locals !in pendingRepr && locals !in queueRepr
    }

    ghost function View(): View
      reads this`pending, this`queue, this`limbo, this`pendingRepr, this`queueRepr, all, pendingRepr, queueRepr
    {
      Views(Contents(pending, pendingRepr), Contents(queue, queueRepr), all.Live(), limbo)
    }

    /** The view and what the pool remembers of each account. */
    ghost function Ledger(): Ledger
      reads this`pending, this`queue, this`limbo, this`pendingRepr, this`queueRepr, all, pendingRepr, queueRepr
      reads this`pendingNonces, this`beats, locals
    {
      Entries(View(), pendingNonces, beats, locals.accounts)
    }

    ghost predicate Valid()
      reads this`pending, this`queue, this`limbo, this`exempt, this`pendingRepr, this`queueRepr
      reads all, priced, pendingRepr, queueRepr
    {
      Shape() && Partition(View())
    }

    /** How the view shows in the fields. */
    lemma Facts()
      requires Shape()
      ensures View().limbo == limbo && View().all == all.Live()
      ensures View().pending.Keys == pending.Keys && View().queue.Keys == queue.Keys
      ensures pendingRepr !! queueRepr && this !in pendingRepr && this !in queueRepr
      ensures all !in pendingRepr && all !in queueRepr && priced !in pendingRepr && priced !in queueRepr
      ensures locals !in pendingRepr && locals !in queueRepr
    {
      hide Owned;
    }

    lemma ListInRepr(strict: bool, a: Address)
      requires Shape() && a in ListsOf(strict)
      ensures ListsOf(strict)[a] in ReprOf(strict) && ListsOf(strict)[a].txs in ReprOf(strict)
    {
      hide Mine;
    }

    /** Transactions have arrived where they were going. */
    ghost method Arrive(txs: set<Tx>)
      requires Shape()
      modifies this`limbo
      ensures Shape() && View() == old(View()).(limbo := old(View()).limbo - txs)
    {
      hide Owned, Contents, TxPricedList.Valid, TxPricedList.Covers, TxLookup.Valid;
      limbo := limbo - txs;
    }

    /** An empty pool over the given head state, with unworkable limits replaced by the defaults. */
    constructor (config: Config, locals: set<Address>, head: ChainState, maxGas: uint64)
      ensures Valid() && Settled() && fresh(Repr())
      ensures View() == Views(map[], map[], {}, {})
      ensures this.config == config.(priceLimit := if config.priceLimit == 0 then 1 else config.priceLimit,
        priceBump := if config.priceBump == 0 then 10 else config.priceBump)
      ensures Ledger() == Entries(View(), map[], map[], locals)
      ensures Setting() == Settings(this.config, head, maxGas, this.config.priceLimit, false, 0)
    {
      this.config := Sanitize(config);
      var lookup := new TxLookup();
      this.all := lookup;
      this.priced := new TxPricedList(lookup);
      this.locals := new AccountSet(locals);
      gasPrice := Sanitize(config).priceLimit;
      homestead, clock := false, 0;
      currentState, currentMaxGas, pendingNonces := head, maxGas, map[];
      pending, queue, beats := map[], map[], map[];
      limbo, exempt, pendingRepr, queueRepr := {}, {}, {}, {};
      new;
      hide Partition;
      EmptyPartition();
      assert Contents(pending, {}) == map[] && all.Live() == {};
    }

    /** Between operations nothing is on its way anywhere and no account keeps an empty queue. */
    ghost predicate Settled()
      reads this`pending, this`queue, this`limbo, this`exempt, this`pendingRepr, this`queueRepr
      reads all, pendingRepr, queueRepr
    {
      Tidy(View()) && exempt == {}
    }

    // ---------- single list operations, as the pool sees them ----------

    function ListsOf(strict: bool): ListsByAccount
      reads this`pending, this`queue
    {
      if strict then pending else queue
    }

    ghost function ReprOf(strict: bool): set<object>
      reads this`pendingRepr, this`queueRepr
    {
      if strict then pendingRepr else queueRepr
    }

    method ForwardList(strict: bool, addr: Address, threshold: nat) returns (removed: seq<Tx>)
      requires Shape() && addr in ListsOf(strict)
      modifies ListsOf(strict)[addr].txs, this`limbo
      ensures Shape()
      ensures View() == Take(old(View()), strict, addr, From(Of(old(View()).Lists(strict), addr), threshold))
      ensures Lists(removed, Below(Of(old(View()).Lists(strict), addr), threshold))
    {
      hide TxList.Valid, Lists, Enumerates, From, Below, Gone, TxPricedList.Valid, TxPricedList.Covers,
        TxLookup.Valid, TxLookup.Live, Owned, Contents;
      ghost var v, list := View(), ListsOf(strict)[addr];
      Split(ListsOf(strict), strict, ReprOf(strict), addr);
      removed := ListsOf(strict)[addr].Forward(threshold);
      limbo := limbo + Gone(v.Lists(strict)[addr], list.txs.items);
      Rejoin(ListsOf(strict), strict, ReprOf(strict), addr);
      assert Contents(ListsOf(strict), ReprOf(strict)) == v.Lists(strict)[addr := list.txs.items];
      assert Contents(ListsOf(!strict), ReprOf(!strict)) == v.Lists(!strict);
    }

    method FilterList(strict: bool, addr: Address) returns (removed: seq<Tx>, invalids: seq<Tx>)
      requires Shape() && addr in ListsOf(strict)
      modifies ListsOf(strict)[addr], ListsOf(strict)[addr].txs, this`limbo
      ensures Shape()
      ensures View() == Take(old(View()), strict, addr, Affordable(strict, Of(old(View()).Lists(strict), addr),
        currentState.Balance(addr), currentMaxGas))
      ensures Enumerates(removed, Accepted(OverLimits(currentState.Balance(addr), currentMaxGas),
        Of(old(View()).Lists(strict), addr)))
      ensures Enumerates(invalids, Rejected(OverLimits(currentState.Balance(addr), currentMaxGas),
        Of(old(View()).Lists(strict), addr))
        - Of(View().Lists(strict), addr).Keys)
    {
      hide TxList.Valid, Lists, Enumerates, From, Below, Gone, TxPricedList.Valid, TxPricedList.Covers,
        TxLookup.Valid, TxLookup.Live, Owned, Contents, Affordable, Accepted, Rejected, OverLimits;
      ghost var v, list := View(), ListsOf(strict)[addr];
      Split(ListsOf(strict), strict, ReprOf(strict), addr);
      removed, invalids := ListsOf(strict)[addr].Filter(currentState.Balance(addr), currentMaxGas);
      limbo := limbo + Gone(v.Lists(strict)[addr], list.txs.items);
      Rejoin(ListsOf(strict), strict, ReprOf(strict), addr);
      assert Contents(ListsOf(strict), ReprOf(strict)) == v.Lists(strict)[addr := list.txs.items];
      assert Contents(ListsOf(!strict), ReprOf(!strict)) == v.Lists(!strict);
    }

    method CapList(strict: bool, addr: Address, threshold: nat) returns (drops: seq<Tx>)
      requires Shape() && addr in ListsOf(strict)
      modifies ListsOf(strict)[addr].txs, this`limbo
      ensures Shape()
      ensures View() == Take(old(View()), strict, addr, Of(View().Lists(strict), addr))
      ensures Capping(Of(View().Lists(strict), addr), Of(old(View()).Lists(strict), addr), threshold)
      ensures Enumerates(drops, Of(old(View()).Lists(strict), addr) - Of(View().Lists(strict), addr).Keys)
    {
      hide TxList.Valid, Lists, Enumerates, From, Below, Gone, TxPricedList.Valid, TxPricedList.Covers,
        TxLookup.Valid, TxLookup.Live, Owned, Contents, Prefix;
      ghost var v, list := View(), ListsOf(strict)[addr];
      Split(ListsOf(strict), strict, ReprOf(strict), addr);
      drops := ListsOf(strict)[addr].Cap(threshold);
      limbo := limbo + Gone(v.Lists(strict)[addr], list.txs.items);
      Rejoin(ListsOf(strict), strict, ReprOf(strict), addr);
      assert Contents(ListsOf(strict), ReprOf(strict)) == v.Lists(strict)[addr := list.txs.items];
      assert Contents(ListsOf(!strict), ReprOf(!strict)) == v.Lists(!strict);
    }

    method ReadyList(strict: bool, addr: Address, start: nat) returns (ready: seq<Tx>)
      requires Shape() && addr in ListsOf(strict)
      modifies ListsOf(strict)[addr].txs, this`limbo
      ensures Shape()
      ensures View() == Take(old(View()), strict, addr, Of(View().Lists(strict), addr))
      ensures ReadyRun(ready, Of(View().Lists(strict), addr), Of(old(View()).Lists(strict), addr), start)
    {
      hide TxList.Valid, Lists, Enumerates, From, Below, Gone, TxPricedList.Valid, TxPricedList.Covers,
        TxLookup.Valid, TxLookup.Live, Owned, Contents, ReadyRun;
      ghost var v, list := View(), ListsOf(strict)[addr];
      Split(ListsOf(strict), strict, ReprOf(strict), addr);
      ready := ListsOf(strict)[addr].Ready(start);
      limbo := limbo + Gone(v.Lists(strict)[addr], list.txs.items);
      Rejoin(ListsOf(strict), strict, ReprOf(strict), addr);
      assert Contents(ListsOf(strict), ReprOf(strict)) == v.Lists(strict)[addr := list.txs.items];
      assert Contents(ListsOf(!strict), ReprOf(!strict)) == v.Lists(!strict);
    }

    method RemoveFromList(strict: bool, addr: Address, tx: Tx) returns (found: bool, invalids: seq<Tx>)
      requires Shape() && addr in ListsOf(strict)
      modifies ListsOf(strict)[addr].txs, this`limbo
      ensures Shape()
      ensures found == (tx.nonce in Of(old(View()).Lists(strict), addr))
      ensures View() == Take(old(View()), strict, addr, Without(strict, Of(old(View()).Lists(strict), addr), tx.nonce))
      ensures Enumerates(invalids, if strict && found
        then From(Of(old(View()).Lists(strict), addr), tx.nonce + 1) else map[])
    {
      hide TxList.Valid, Lists, Enumerates, From, Below, Gone, TxPricedList.Valid, TxPricedList.Covers,
        TxLookup.Valid, TxLookup.Live, Owned, Contents, Without;
      ghost var v, list := View(), ListsOf(strict)[addr];
      Split(ListsOf(strict), strict, ReprOf(strict), addr);
      found, invalids := ListsOf(strict)[addr].Remove(tx);
      limbo := limbo + Gone(v.Lists(strict)[addr], list.txs.items);
      WithoutIs(strict, v.Lists(strict)[addr], tx.nonce);
      Rejoin(ListsOf(strict), strict, ReprOf(strict), addr);
      assert Contents(ListsOf(strict), ReprOf(strict)) == v.Lists(strict)[addr := list.txs.items];
      assert Contents(ListsOf(!strict), ReprOf(!strict)) == v.Lists(!strict);
    }

    method AddToList(strict: bool, addr: Address, tx: Tx) returns (inserted: bool, replaced: Option<Tx>)
      requires Shape() && addr in ListsOf(strict) && addr == tx.sender
      modifies ListsOf(strict)[addr], ListsOf(strict)[addr].txs
      ensures Shape()
      ensures inserted <==> Accepts(Of(old(View()).Lists(strict), addr), tx, config.priceBump)
      ensures replaced == if inserted && tx.nonce in Of(old(View()).Lists(strict), addr)
        then Some(Of(old(View()).Lists(strict), addr)[tx.nonce]) else None
      ensures View() == if inserted then Insert(old(View()), strict, tx) else old(View())
    {
      hide TxList.Valid, Lists, Enumerates, From, Below, Gone, TxPricedList.Valid, TxPricedList.Covers,
        TxLookup.Valid, TxLookup.Live, Owned, Contents, Outbids;
      ghost var v, list := View(), ListsOf(strict)[addr];
      Split(ListsOf(strict), strict, ReprOf(strict), addr);
      inserted, replaced := ListsOf(strict)[addr].Add(tx, config.priceBump);
      Rejoin(ListsOf(strict), strict, ReprOf(strict), addr);
      assert Contents(ListsOf(strict), ReprOf(strict)) == v.Lists(strict)[addr := list.txs.items];
      assert Contents(ListsOf(!strict), ReprOf(!strict)) == v.Lists(!strict);
    }

    /** An account's transactions in nonce order. */
    method ListingOf(strict: bool, addr: Address) returns (listing: seq<Tx>)
      requires Shape() && addr in ListsOf(strict)
      modifies ListsOf(strict)[addr].txs
      ensures Shape() && View() == old(View()) && Lists(listing, Of(View().Lists(strict), addr))
    {
      hide TxList.Valid, Lists, TxPricedList.Valid, TxPricedList.Covers, TxLookup.Valid, TxLookup.Live, Owned, Contents;
      ghost var v, list := View(), ListsOf(strict)[addr];
      Split(ListsOf(strict), strict, ReprOf(strict), addr);
      listing := ListsOf(strict)[addr].Flatten();
      Rejoin(ListsOf(strict), strict, ReprOf(strict), addr);
      assert Contents(ListsOf(strict), ReprOf(strict)) == v.Lists(strict);
      assert Contents(ListsOf(!strict), ReprOf(!strict)) == v.Lists(!strict);
    }

    /** Opens an empty list for an account that has none. */
    method OpenList(strict: bool, addr: Address)
      requires Shape() && addr !in ListsOf(strict)
      modifies this`pending, this`queue, this`pendingRepr, this`queueRepr
      ensures Shape() && fresh(ReprOf(strict) - old(ReprOf(strict)))
      ensures View() == old(View()).WithLists(strict, old(View()).Lists(strict)[addr := map[]])
      ensures ReprOf(!strict) == old(ReprOf(!strict))
      ensures addr in ListsOf(strict) && ListsOf(!strict) == old(ListsOf(!strict))
    {
      hide TxList.Valid, TxPricedList.Valid, TxPricedList.Covers, TxLookup.Valid, TxLookup.Live, Owned, Contents;
      ghost var v := View();
      var list := new TxList(strict, addr);
      if strict {
        Opened(pending, true, pendingRepr, addr, list);
        pending, pendingRepr := pending[addr := list], pendingRepr + {list, list.txs};
        assert View() == v.(pending := v.pending[addr := map[]]);
      } else {
        Opened(queue, false, queueRepr, addr, list);
        queue, queueRepr := queue[addr := list], queueRepr + {list, list.txs};
        assert View() == v.(queue := v.queue[addr := map[]]);
      }
    }

    /** Lets go of a list. */
    method CloseList(strict: bool, addr: Address)
      requires Shape() && addr in ListsOf(strict)
      modifies this`pending, this`queue
      ensures Shape() && Kept(!strict, old(ListsOf(!strict)), old(ReprOf(!strict)))
      ensures ListsOf(strict) == old(ListsOf(strict)) - {addr}
      ensures View() == old(View()).WithLists(strict, old(View()).Lists(strict) - {addr})
    {
      hide TxList.Valid, TxPricedList.Valid, TxPricedList.Covers, TxLookup.Valid, TxLookup.Live, Owned, Contents;
      ghost var v := View();
      Closed(ListsOf(strict), strict, ReprOf(strict), addr);
      if strict {
        pending := pending - {addr};
      } else {
        queue := queue - {addr};
      }
      assert Contents(ListsOf(strict), ReprOf(strict)) == v.Lists(strict) - {addr};
    }

    /** Strikes a transaction off the lookup and tells the price heap. */
    method Strike(tx: Tx)
      requires Shape()
      modifies all, priced
      ensures Shape() && View() == old(View()).(all := old(View()).all - {tx})
    {
      hide TxList.Valid, TxPricedList.Valid, TxLookup.Valid, TxLookup.Live, Owned, Contents;
      all.Remove(tx.Hash());
      assert priced.Covers(exempt);
      priced.Removed();
    }

    method Enter(tx: Tx)
      requires Shape()
      modifies all, priced
      ensures Shape() && View() == old(View()).(all := old(View()).all + {tx})
    {
      hide TxList.Valid, TxPricedList.Valid, TxLookup.Valid, TxLookup.Live, Owned, Contents;
      all.Add(tx);
      priced.Put(tx);
    }

    // ---------- operations on single transactions ----------

    /** Adds a transaction to its account's list, opening the list if there is none. */
    method AddOrOpen(strict: bool, tx: Tx) returns (inserted: bool, previous: Option<Tx>)
      requires Shape()
      modifies this`pending, this`queue, this`pendingRepr, this`queueRepr, ReprOf(strict)
      ensures Shape() && fresh(ReprOf(strict) - old(ReprOf(strict)))
      ensures Kept(!strict, old(ListsOf(!strict)), old(ReprOf(!strict)))
      ensures inserted <==> Accepts(Of(old(View()).Lists(strict), tx.sender), tx, config.priceBump)
      ensures previous == if inserted && tx.nonce in Of(old(View()).Lists(strict), tx.sender)
        then Some(Of(old(View()).Lists(strict), tx.sender)[tx.nonce]) else None
      ensures View() == if inserted then Insert(old(View()), strict, tx) else old(View())
    {
      hide Shape, View, Outbids, TxLookup.Live, Insert, Of;
      ghost var v := View();
      Facts();
      if tx.sender !in ListsOf(strict) {
        OpenList(strict, tx.sender);
        InsertIntoOpened(v, strict, tx);
      }
      ListInRepr(strict, tx.sender);
      inserted, previous := AddToList(strict, tx.sender, tx);
    }

    /** Swaps a displaced transaction for the newcomer in the lookup and on the price heap. */
    method Supersede(previous: Option<Tx>, tx: Tx)
      requires Shape()
      modifies this`limbo, all, priced
      ensures Shape()
      ensures View() == old(View()).(limbo := old(View()).limbo - {tx},
        all := old(View()).all - (if previous.Some? then {previous.value} else {}) + {tx})
    {
      hide Shape, View, TxLookup.Live;
      if previous.Some? {
        Strike(previous.value);
      }
      Facts();
      all.LiveIs(tx);
      ghost var v := View();
      if tx.Hash() !in all.all {
        Enter(tx);
      } else {
        assert v.all + {tx} == v.all;
      }
      Arrive({tx});
    }

    /** Places a transaction on its account's list, unless the one already there is not outbid. */
    method Admit(strict: bool, tx: Tx) returns (inserted: bool, replaced: bool)
      requires Valid() && tx.signed && tx.nonce !in Of(View().Lists(!strict), tx.sender)
      modifies this`pending, this`queue, this`pendingRepr, this`queueRepr, this`limbo, all, priced, ReprOf(strict)
      ensures Valid() && fresh(ReprOf(strict) - old(ReprOf(strict)))
      ensures Kept(!strict, old(ListsOf(!strict)), old(ReprOf(!strict)))
      ensures inserted <==> Accepts(Of(old(View()).Lists(strict), tx.sender), tx, config.priceBump)
      ensures replaced == (inserted && tx.nonce in Of(old(View()).Lists(strict), tx.sender))
      ensures View() == if inserted then Place(old(View()), strict, tx) else old(View())
    {
      hide Shape, View, Partition, Accepts;
      ghost var v := View();
      var previous;
      inserted, previous := AddOrOpen(strict, tx);
      if !inserted {
        return false, false;
      }
      Supersede(previous, tx);
      replaced := previous.Some?;
      PlaceKeeps(v, strict, tx);
    }

    /** Puts a transaction into its account's queue, unless the one already there is not outbid. */
    method EnqueueTx(tx: Tx) returns (inserted: bool, replaced: bool)
      requires Valid() && tx.signed && tx.nonce !in View().Pending(tx.sender)
      modifies this`pending, this`pendingRepr, this`queue, this`queueRepr, this`limbo, all, priced, queueRepr
      ensures Valid() && fresh(queueRepr - old(queueRepr)) && Kept(true, old(pending), old(pendingRepr))
      ensures inserted <==> Accepts(old(View()).Queued(tx.sender), tx, config.priceBump)
      ensures replaced == (inserted && tx.nonce in old(View()).Queued(tx.sender))
      ensures View() == if inserted then Place(old(View()), false, tx) else old(View())
    {
      hide Shape, View, Partition, Accepts;
      inserted, replaced := Admit(false, tx);
    }

    /** Puts a transaction into its account's pending list; drops it if the one there is not outbid. */
    method PromoteTx(tx: Tx) returns (promoted: bool)
      requires Valid() && tx in View().limbo && tx.nonce !in View().Queued(tx.sender)
      modifies this`pending, this`pendingRepr, this`queue, this`queueRepr, this`limbo, this`beats, this`pendingNonces
      modifies all, priced, pendingRepr
      ensures Valid() && fresh(pendingRepr - old(pendingRepr)) && Kept(false, old(queue), old(queueRepr))
      ensures promoted <==> Accepts(old(View()).Pending(tx.sender), tx, config.priceBump)
      ensures View() == if promoted then Place(old(View()), true, tx) else Forget(old(View()), {tx})
      ensures beats == if promoted then old(beats)[tx.sender := clock] else old(beats)
      ensures pendingNonces == if promoted then old(pendingNonces)[tx.sender := AddWrap(tx.nonce, 1)]
        else old(pendingNonces)
    {
      hide Shape, View, Accepts, Place;
      assert TxOk(View(), tx);
      hide Partition;
      Facts();
      var replaced;
      promoted, replaced := Admit(true, tx);
      Facts();
      if !promoted {
        StrikeOne(tx);
        return;
      }
      beats := beats[tx.sender := clock];
      pendingNonces := pendingNonces[tx.sender := AddWrap(tx.nonce, 1)];
    }

    /** Drops a transaction taken off a list from the lookup as well. */
    method StrikeOne(tx: Tx)
      requires Valid() && tx in View().limbo
      modifies this`limbo, all, priced
      ensures Valid() && View() == Forget(old(View()), {tx})
    {
      hide Shape, View, Partition;
      ForgetKeeps(View(), {tx});
      Strike(tx);
      Arrive({tx});
    }

    method StrikeAll(txs: seq<Tx>)
      requires Valid() && Set(txs) <= View().limbo
      modifies this`limbo, all, priced
      ensures Valid() && View() == Forget(old(View()), Set(txs))
    {
      hide Shape, View, Partition, Set;
      ghost var v := View();
      ForgetKeeps(v, Set(txs));
      SetOf(txs);
      for i := 0 to |txs|
        invariant Shape() && View() == v.(all := v.all - Set(txs[..i]))
      {
        Strike(txs[i]);
      }
      Arrive(Set(txs));
    }

    /** Queues transactions of one account that were taken off its pending list. */
    method EnqueueAll(txs: seq<Tx>, ghost a: Address, ghost items: Items)
      requires Valid() && Enumerates(txs, items) && Movable(View(), a, items)
      modifies this`pending, this`pendingRepr, this`queue, this`queueRepr, this`limbo, all, priced, queueRepr
      ensures Valid() && fresh(queueRepr - old(queueRepr)) && Kept(true, old(pending), old(pendingRepr))
      ensures View() == Move(old(View()), false, a, items)
    {
      hide Shape, View, Partition, Enumerates, Move, Place;
      ghost var v, moved: Items := View(), map[];
      MoveNothing(v, false, a, txs);
      for i := 0 to |txs|
        invariant Valid() && fresh(queueRepr - old(queueRepr)) && Kept(true, old(pending), old(pendingRepr))
        invariant View() == Move(v, false, a, moved) && Enumerates(txs[..i], moved)
      {
        MoveNext(v, false, a, txs, i, items, moved);
        var inserted, replaced := EnqueueTx(txs[i]);
        moved := moved[txs[i].nonce := txs[i]];
      }
      assert txs[..|txs|] == txs;
      EnumeratesUnique(txs, items, moved);
    }

    /** Takes a transaction off the lookup, telling the price heap only about removals out of its bounds. */
    method Unlist(hash: TxHash, outOfBound: bool)
      requires Shape()
      modifies all, priced
      ensures Shape() && View() == old(View()).(all := old(View()).all - {hash.content})
    {
      hide TxList.Valid, TxPricedList.Valid, TxLookup.Valid, TxLookup.Live, Owned, Contents;
      all.Remove(hash);
      assert priced.Covers(exempt);
      if outOfBound {
        priced.Removed();
      }
    }

    /** Closes an account's list if nothing is left on it. */
    method CloseIfEmpty(strict: bool, addr: Address)
      requires Shape() && addr in ListsOf(strict)
      modifies this`pending, this`queue, this`beats
      ensures Shape() && Kept(!strict, old(ListsOf(!strict)), old(ReprOf(!strict)))
      ensures ReprOf(strict) == old(ReprOf(strict))
      ensures View() == old(View()).WithLists(strict,
        Keep(old(View()).Lists(strict), addr, Of(old(View()).Lists(strict), addr)))
      ensures beats ==
        if strict && Of(old(View()).Lists(strict), addr) == map[] then old(beats) - {addr} else old(beats)
    {
      hide Shape, View, Keep, Of;
      ListIs(strict, addr);
      KeepIs(View().Lists(strict), addr);
      if ListsOf(strict)[addr].Empty() {
        CloseList(strict, addr);
        if strict {
          Facts();
          beats := beats - {addr};
        }
      }
    }

    lemma ListIs(strict: bool, a: Address)
      requires Shape() && a in ListsOf(strict)
      ensures a in View().Lists(strict) && View().Lists(strict)[a] == ListsOf(strict)[a].txs.items
      ensures Of(View().Lists(strict), a) == ListsOf(strict)[a].txs.items
    {
      hide TxList.Valid;
    }

    /** Removes a transaction; whatever followed it in its account's pending list is queued again. */
    method RemoveTx(hash: TxHash, outOfBound: bool)
      requires Valid() && View().limbo == {}
      modifies this`pending, this`pendingRepr, this`queue, this`queueRepr, this`limbo, this`beats, this`pendingNonces
      modifies all, priced, pendingRepr, queueRepr
      ensures Valid() && View().limbo == {} && fresh(pendingRepr - old(pendingRepr))
      ensures fresh(queueRepr - old(queueRepr))
      ensures Ledger() == RemovalOf(old(Ledger()), hash.content, currentState)
    {
      hide Shape, View, Partition, RemovalOf, TxLookup.Live;
      ghost var l := Ledger();
      Facts();
      all.LiveIs(hash.content);
      RemovalOfNone(l, hash.content, currentState);
      if hash !in all.all {
        return;
      }
      Unlist(hash, outOfBound);
      Facts();
      RemoveListing(l.view, hash.content);
      RemovalOfParts(l, Ledger(), hash.content, currentState);
    }

    /** The part of removal that deals with the lists; v is the view before it began. */
    method RemoveListing(ghost v: View, tx: Tx)
      requires Shape() && Partition(v) && v.limbo == {} && tx in v.all && View() == v.(all := v.all - {tx})
      modifies this`pending, this`pendingRepr, this`queue, this`queueRepr, this`limbo, this`beats, this`pendingNonces
      modifies all, priced, pendingRepr, queueRepr
      ensures Valid() && View().limbo == {} && View() == Removal(v, tx)
      ensures fresh(pendingRepr - old(pendingRepr)) && fresh(queueRepr - old(queueRepr))
      ensures pendingNonces == if tx.nonce in v.Pending(tx.sender) && tx.nonce < old(PendingNonce(tx.sender))
        then old(pendingNonces)[tx.sender := tx.nonce] else old(pendingNonces)
      ensures beats == if tx.nonce in v.Pending(tx.sender) && Below(v.Pending(tx.sender), tx.nonce) == map[]
        then old(beats) - {tx.sender} else old(beats)
    {
      hide Shape, View, Partition, Removal, TxLookup.Live, Below;
      Facts();
      if tx.sender in pending {
        var removed := RemovePendingTx(v, tx);
        if removed {
          return;
        }
      }
      Facts();
      RemoveQueued(v, tx);
      if tx.sender in queue {
        RemoveQueuedTx(v, tx);
      }
    }

    /** The part of removal that deals with the pending list; v is the view before it began. */
    method RemovePendingTx(ghost v: View, tx: Tx) returns (removed: bool)
      requires Shape() && Partition(v) && v.limbo == {} && tx in v.all
      requires View() == v.(all := v.all - {tx}) && tx.sender in pending
      modifies this`pending, this`pendingRepr, this`queue, this`queueRepr, this`limbo, this`beats, this`pendingNonces
      modifies all, priced, pendingRepr, queueRepr
      ensures removed == (tx.nonce in v.Pending(tx.sender))
      ensures fresh(pendingRepr - old(pendingRepr)) && fresh(queueRepr - old(queueRepr))
      ensures if removed then Valid() && View().limbo == {} && View() == Removal(v, tx)
        else Shape() && View() == old(View()) && queue == old(queue)
      ensures pendingNonces == if removed && tx.nonce < old(PendingNonce(tx.sender))
        then old(pendingNonces)[tx.sender := tx.nonce] else old(pendingNonces)
      ensures beats == if removed && Below(v.Pending(tx.sender), tx.nonce) == map[]
        then old(beats) - {tx.sender} else old(beats)
    {
      hide Shape, View, Partition, Removal, Without, Movable, Move, From, TxLookup.Live, Trim, Below;
      Facts();
      var invalids;
      removed, invalids := CutPendingTx(v, tx);
      if !removed {
        return;
      }
      EnqueueAll(invalids, tx.sender, From(v.Pending(tx.sender), tx.nonce + 1));
      Facts();
      if PendingNonce(tx.sender) > tx.nonce {
        pendingNonces := pendingNonces[tx.sender := tx.nonce];
      }
    }

    /** Cuts an account's pending list before a transaction, and is done with the transaction itself. */
    method CutPendingTx(ghost v: View, tx: Tx) returns (removed: bool, invalids: seq<Tx>)
      requires Shape() && Partition(v) && v.limbo == {} && tx in v.all
      requires View() == v.(all := v.all - {tx}) && tx.sender in pending
      modifies this`pending, this`queue, this`limbo, this`beats, pendingRepr
      ensures Shape() && pendingRepr == old(pendingRepr) && Kept(false, old(queue), old(queueRepr))
      ensures removed == (tx.nonce in v.Pending(tx.sender))
      ensures !removed ==> View() == old(View())
      ensures var rest := From(v.Pending(tx.sender), tx.nonce + 1);
        removed ==> (
          && Valid() && Enumerates(invalids, rest) && Movable(View(), tx.sender, rest)
          && Move(View(), false, tx.sender, rest) == Removal(v, tx) && Removal(v, tx).limbo == {})
      ensures beats == if removed && Below(v.Pending(tx.sender), tx.nonce) == map[]
        then old(beats) - {tx.sender} else old(beats)
    {
      hide Shape, View, Partition, Removal, Without, Movable, Move, From, TxLookup.Live, Trim, Below, Enumerates;
      removed, invalids := CutPending(tx);
      if removed {
        RemovePending(v, tx);
        Arrive({tx});
      }
    }

    /** Cuts an account's pending list before a transaction, if that is on it. */
    method CutPending(tx: Tx) returns (removed: bool, invalids: seq<Tx>)
      requires Shape() && tx.sender in pending
      modifies this`pending, this`queue, this`limbo, this`beats, pendingRepr
      ensures Shape() && pendingRepr == old(pendingRepr) && Kept(false, old(queue), old(queueRepr))
      ensures removed == (tx.nonce in old(View()).Pending(tx.sender))
      ensures View() == if !removed then old(View())
        else Trim(old(View()), true, tx.sender, Without(true, old(View()).Pending(tx.sender), tx.nonce))
      ensures removed ==> Enumerates(invalids, From(old(View()).Pending(tx.sender), tx.nonce + 1))
      ensures beats == if removed && Below(old(View()).Pending(tx.sender), tx.nonce) == map[]
        then old(beats) - {tx.sender} else old(beats)
    {
      hide Shape, View, Without, From, TxLookup.Live, Take, Trim, Keep, Below;
      Facts();
      ListInRepr(true, tx.sender);
      ghost var v, kept := View(), Without(true, View().Pending(tx.sender), tx.nonce);
      removed, invalids := RemoveFromList(true, tx.sender, tx);
      if !removed {
        NotThere(v, true, tx.sender, tx.nonce);
        return;
      }
      WithoutIs(true, v.Pending(tx.sender), tx.nonce);
      TakeLeaves(v, true, tx.sender, kept);
      TrimTake(v, true, tx.sender, kept);
      CloseIfEmpty(true, tx.sender);
    }

    method RemoveQueuedTx(ghost v: View, tx: Tx)
      requires Shape() && Partition(v) && v.limbo == {} && tx in v.all && tx.nonce !in v.Pending(tx.sender)
      requires View() == v.(all := v.all - {tx}) && tx.sender in queue
      modifies this`pending, this`pendingRepr, this`queue, this`queueRepr, this`limbo, this`beats, this`pendingNonces
      modifies all, priced, pendingRepr, queueRepr
      ensures Valid() && View().limbo == {} && View() == Removal(v, tx)
      ensures pendingNonces == old(pendingNonces) && beats == old(beats)
      ensures fresh(pendingRepr - old(pendingRepr)) && fresh(queueRepr - old(queueRepr))
    {
      hide Shape, View, Partition, Removal, Without, TxLookup.Live, Take, Trim, Keep;
      Facts();
      ListInRepr(false, tx.sender);
      TrimTake(View(), false, tx.sender, Without(false, v.Queued(tx.sender), tx.nonce));
      var found, invalids := RemoveFromList(false, tx.sender, tx);
      CloseIfEmpty(false, tx.sender);
      RemoveQueued(v, tx);
      Arrive({tx});
    }

    // ---------- promotion ----------

    /** Drops what is below a nonce, from a list and from the pool. */
    method DropOld(strict: bool, addr: Address, threshold: nat)
      requires Valid() && View().limbo == {} && addr in ListsOf(strict)
      modifies ListsOf(strict)[addr].txs, this`limbo, all, priced
      ensures Valid() && View() == Drop(old(View()), strict, addr, From(Of(old(View()).Lists(strict), addr), threshold))
    {
      hide Shape, View, Partition, Take, Drop, From, Below, Lists, Gone;
      ghost var v, items := View(), Of(View().Lists(strict), addr);
      var removed := ForwardList(strict, addr, threshold);
      CutIs(strict, items, threshold);
      ListsEnumerates(removed, Below(items, threshold));
      GoneSet(removed, items, From(items, threshold));
      DropKeeps(v, strict, addr, From(items, threshold));
      StrikeAll(removed);
    }

    /** Drops the highest nonces, from a list and from the pool. */
    method DropHighest(strict: bool, addr: Address, threshold: nat) returns (drops: seq<Tx>)
      requires Valid() && View().limbo == {} && addr in ListsOf(strict)
      modifies ListsOf(strict)[addr].txs, this`limbo, all, priced
      ensures Valid() && View() == Drop(old(View()), strict, addr, Of(View().Lists(strict), addr))
      ensures Capping(Of(View().Lists(strict), addr), Of(old(View()).Lists(strict), addr), threshold)
      ensures Enumerates(drops, Of(old(View()).Lists(strict), addr) - Of(View().Lists(strict), addr).Keys)
    {
      hide Shape, View, Partition, Take, Drop, Gone, Enumerates, Prefix;
      ghost var v, items := View(), Of(View().Lists(strict), addr);
      drops := CapList(strict, addr, threshold);
      ghost var kept := Of(View().Lists(strict), addr);
      PrefixIsSub(kept, items);
      GoneSet(drops, items, kept);
      DropKeeps(v, strict, addr, kept);
      StrikeAll(drops);
      DropParts(v, strict, addr, kept);
    }

    /** Drops what an account cannot pay for from its queue and from the pool. */
    method DropUnpayable(addr: Address)
      requires Valid() && View().limbo == {} && addr in queue
      modifies queue[addr], queue[addr].txs, this`limbo, all, priced
      ensures Valid()
      ensures View() == Drop(old(View()), false, addr,
        Affordable(false, old(View()).Queued(addr), currentState.Balance(addr), currentMaxGas))
    {
      hide Shape, View, Partition, Take, Drop, Gone, Enumerates, Affordable, Accepted, Rejected, OverLimits;
      ghost var v, items := View(), View().Queued(addr);
      ghost var balance, gas := currentState.Balance(addr), currentMaxGas;
      var drops, invalids := FilterList(false, addr);
      ghost var kept := Affordable(false, items, balance, gas);
      PayableIs(items, balance, gas);
      GoneSet(drops, items, kept);
      DropKeeps(v, false, addr, kept);
      StrikeAll(drops);
    }

    /** Moves the run of executable transactions from an account's queue to its pending list. */
    method PromoteReady(addr: Address) returns (ready: seq<Tx>)
      requires Valid() && View().limbo == {} && addr in queue
      modifies this`pending, this`pendingRepr, this`queue, this`queueRepr, this`limbo, this`beats, this`pendingNonces
      modifies all, priced, pendingRepr, queue[addr].txs
      ensures Valid() && View().limbo == {} && fresh(pendingRepr - old(pendingRepr))
      ensures Kept(false, old(queue), old(queueRepr))
      ensures ReadyRun(ready, View().Queued(addr), old(View()).Queued(addr), old(PendingNonce(addr)))
      ensures View() == Move(Take(old(View()), false, addr, View().Queued(addr)), true, addr,
        old(View()).Queued(addr) - View().Queued(addr).Keys)
      ensures pendingNonces == if ready == [] then old(pendingNonces)
        else old(pendingNonces)[addr := AddWrap(ready[|ready| - 1].nonce, 1)]
      ensures beats == if ready == [] then old(beats) else old(beats)[addr := clock]
    {
      hide Shape, View, Partition, Take, Place, Enumerates, Move, ReadyRun;
      ghost var v, items := View(), View().Queued(addr);
      Facts();
      ListInRepr(false, addr);
      ready := ReadyList(false, addr, PendingNonce(addr));
      Facts();
      ghost var kept, taken := View().Queued(addr), items - View().Queued(addr).Keys;
      RunTaken(ready, kept, items, old(PendingNonce(addr)));
      TakenMovable(v, false, addr, kept, taken);
      MovedAll(v, false, addr, kept);
      MoveLeaves(View(), true, addr, taken);
      PromoteRun(addr, ready, taken);
    }

    /** Promotes the transactions of a run in turn. */
    method PromoteRun(addr: Address, ready: seq<Tx>, ghost taken: Items)
      requires Valid() && Enumerates(ready, taken) && Movable(View(), addr, taken)
      modifies this`pending, this`pendingRepr, this`queue, this`queueRepr, this`limbo, this`beats, this`pendingNonces
      modifies all, priced, pendingRepr
      ensures Valid() && fresh(pendingRepr - old(pendingRepr)) && Kept(false, old(queue), old(queueRepr))
      ensures View() == Move(old(View()), true, addr, taken)
      ensures pendingNonces == if ready == [] then old(pendingNonces)
        else old(pendingNonces)[addr := AddWrap(ready[|ready| - 1].nonce, 1)]
      ensures beats == if ready == [] then old(beats) else old(beats)[addr := clock]
    {
      hide Shape, View, Partition, Place, Enumerates, Move;
      Facts();
      ghost var w, moved: Items := View(), map[];
      MoveNothing(w, true, addr, ready);
      for i := 0 to |ready|
        invariant Valid() && fresh(pendingRepr - old(pendingRepr)) && Kept(false, old(queue), old(queueRepr))
        invariant View() == Move(w, true, addr, moved) && Enumerates(ready[..i], moved)
        invariant pendingNonces == if i == 0 then old(pendingNonces)
          else old(pendingNonces)[addr := AddWrap(ready[i - 1].nonce, 1)]
        invariant beats == if i == 0 then old(beats) else old(beats)[addr := clock]
      {
        MoveNext(w, true, addr, ready, i, taken, moved);
        var promoted := PromoteTx(ready[i]);
        moved := moved[ready[i].nonce := ready[i]];
      }
      assert ready[..|ready|] == ready;
      EnumeratesUnique(ready, taken, moved);
    }

    /** Drops what is stale or unpayable from one account's queue. */
    method DropUseless(addr: Address)
      requires Valid() && View().limbo == {} && addr in queue
      modifies this`limbo, all, priced, queueRepr
      ensures Valid() && View().limbo == {} && View().pending == old(View()).pending
      ensures View().queue == old(View()).queue[addr := Payable(old(View()).Queued(addr), addr)]
      ensures View().Queued(addr) == Payable(old(View()).Queued(addr), addr)
    {
      hide Shape, View, Partition, Drop, Affordable, From;
      Facts();
      ghost var v := View();
      ListInRepr(false, addr);
      DropOld(false, addr, currentState.Nonce(addr));
      DropParts(v, false, addr, From(v.Queued(addr), currentState.Nonce(addr)));
      Facts();
      ghost var w := View();
      DropUnpayable(addr);
      DropParts(w, false, addr, Payable(v.Queued(addr), addr));
    }

    /** Promotes what has become executable of one account's queue and drops what is stale, unpayable
        or, unless the account is local, too much. */
    method PromoteAccount(addr: Address) returns (ghost ready: seq<Tx>, ghost rest: Items)
      requires Valid() && View().limbo == {}
      modifies this`pending, this`pendingRepr, this`queue, this`queueRepr, this`limbo, this`beats, this`pendingNonces
      modifies all, priced, pendingRepr, queueRepr
      ensures Valid() && View().limbo == {} && fresh(pendingRepr - old(pendingRepr))
      ensures fresh(queueRepr - old(queueRepr))
      ensures addr !in old(View()).queue ==> View() == old(View()) && ready == []
      ensures addr in old(View()).queue ==>
        Promotion(old(View()), View(), addr, Payable(old(View()).Queued(addr), addr), old(PendingNonce(addr)), ready,
          rest, CapOf(Setting(), Ledger(), addr))
      ensures NoneEmpty(old(View()).queue) ==> NoneEmpty(View().queue)
      ensures pendingNonces == if ready == [] then old(pendingNonces)
        else old(pendingNonces)[addr := AddWrap(ready[|ready| - 1].nonce, 1)]
      ensures beats == if ready == [] then old(beats) else old(beats)[addr := clock]
    {
      hide Shape, View, Partition, Keep, Payable, Promotion, NoneEmpty;
      Facts();
      ready, rest := [], map[];
      if addr in queue {
        ready, rest := PromoteOwner(addr);
      }
    }

    /** The part of promoting an account that deals with its queue. */
    method PromoteOwner(addr: Address) returns (ghost ready: seq<Tx>, ghost rest: Items)
      requires Valid() && View().limbo == {} && addr in queue
      modifies this`pending, this`pendingRepr, this`queue, this`queueRepr, this`limbo, this`beats, this`pendingNonces
      modifies all, priced, pendingRepr, queueRepr
      ensures Valid() && View().limbo == {} && fresh(pendingRepr - old(pendingRepr))
      ensures fresh(queueRepr - old(queueRepr))
      ensures Promotion(old(View()), View(), addr, Payable(old(View()).Queued(addr), addr), old(PendingNonce(addr)),
        ready, rest, CapOf(Setting(), Ledger(), addr))
      ensures NoneEmpty(old(View()).queue) ==> NoneEmpty(View().queue)
      ensures pendingNonces == if ready == [] then old(pendingNonces)
        else old(pendingNonces)[addr := AddWrap(ready[|ready| - 1].nonce, 1)]
      ensures beats == if ready == [] then old(beats) else old(beats)[addr := clock]
    {
      hide Shape, View, Partition, Keep, Payable, Promotion, Promoting, NoneEmpty, OpenPromotion;
      Facts();
      ghost var v, payable, start := View(), Payable(View().Queued(addr), addr), PendingNonce(addr);
      ready, rest := PromotePayable(addr);
      ghost var x := View();
      Facts();
      CloseKeeps(x, false, addr);
      CloseIfEmpty(false, addr);
      PromotionBuilt(v, x, View(), addr, payable, start, ready, rest, CapOf(Setting(), Ledger(), addr));
      Facts();
    }

    /** Drops what is useless from a queue, promotes the executable run and caps the rest. */
    method PromotePayable(addr: Address) returns (ghost ready: seq<Tx>, ghost rest: Items)
      requires Valid() && View().limbo == {} && addr in queue
      modifies this`pending, this`pendingRepr, this`queue, this`queueRepr, this`limbo, this`beats, this`pendingNonces
      modifies all, priced, pendingRepr, queueRepr
      ensures Valid() && View().limbo == {} && fresh(pendingRepr - old(pendingRepr))
      ensures fresh(queueRepr - old(queueRepr)) && addr in queue
      ensures OpenPromotion(old(View()), View(), addr, Payable(old(View()).Queued(addr), addr), old(PendingNonce(addr)),
        ready, rest, CapOf(Setting(), Ledger(), addr))
      ensures pendingNonces == if ready == [] then old(pendingNonces)
        else old(pendingNonces)[addr := AddWrap(ready[|ready| - 1].nonce, 1)]
      ensures beats == if ready == [] then old(beats) else old(beats)[addr := clock]
    {
      hide Shape, View, Partition, Payable, ReadyRun, Capping, OpenPromotion;
      Facts();
      ghost var v, payable, start := View(), Payable(View().Queued(addr), addr), PendingNonce(addr);
      DropUseless(addr);
      Facts();
      ghost var w := View();
      ready, rest := PromoteQueued(addr);
      PromotionOpened(v, w, View(), addr, payable, start, ready, rest, CapOf(Setting(), Ledger(), addr));
    }

    /** Promotes the executable run of a queue and caps what is left of it. */
    method PromoteQueued(addr: Address) returns (ghost ready: seq<Tx>, ghost rest: Items)
      requires Valid() && View().limbo == {} && addr in queue
      modifies this`pending, this`pendingRepr, this`queue, this`queueRepr, this`limbo, this`beats, this`pendingNonces
      modifies all, priced, pendingRepr, queueRepr
      ensures Valid() && View().limbo == {} && fresh(pendingRepr - old(pendingRepr))
      ensures fresh(queueRepr - old(queueRepr))
      ensures addr in queue && View().queue == old(View()).queue[addr := View().Queued(addr)]
      ensures ReadyRun(ready, rest, old(View()).Queued(addr), old(PendingNonce(addr)))
      ensures View().pending == if ready == [] then old(View()).pending
        else old(View()).pending[addr := old(View()).Pending(addr) + (old(View()).Queued(addr) - rest.Keys)]
      ensures if addr in locals.accounts then View().Queued(addr) == rest
        else Capping(View().Queued(addr), rest, config.accountQueue)
      ensures pendingNonces == if ready == [] then old(pendingNonces)
        else old(pendingNonces)[addr := AddWrap(ready[|ready| - 1].nonce, 1)]
      ensures beats == if ready == [] then old(beats) else old(beats)[addr := clock]
    {
      hide Shape, View, Partition, ReadyRun, Capping, Take, Move;
      Facts();
      ghost var w := View();
      ListInRepr(false, addr);
      ready := PromoteReady(addr);
      rest := View().Queued(addr);
      RunMoved(w, addr, ready, rest, old(PendingNonce(addr)));
      Facts();
      if !locals.Contains(addr) {
        CapQueued(addr);
      }
    }

    method CapQueued(addr: Address)
      requires Valid() && View().limbo == {} && addr in queue
      modifies queueRepr, this`limbo, all, priced
      ensures Valid() && View().limbo == {} && View().pending == old(View()).pending
      ensures View().queue == old(View()).queue[addr := View().Queued(addr)]
      ensures Capping(View().Queued(addr), old(View()).Queued(addr), config.accountQueue)
    {
      hide Shape, View, Partition, Drop, Capping;
      Facts();
      ghost var v := View();
      ListInRepr(false, addr);
      var drops := DropHighest(false, addr, config.accountQueue);
      DropParts(v, false, addr, View().Queued(addr));
    }

    /** What an account has queued that is neither stale nor beyond its means. */
    ghost function Payable(items: Items, a: Address): Items
      reads this`currentState, this`currentMaxGas
    {
      Affordable(false, From(items, currentState.Nonce(a)), currentState.Balance(a), currentMaxGas)
    }

    // ---------- the limit on pending transactions ----------

    /** Drops the last pending transaction of an account and steps its next nonce back to it. */
    method CutOne(addr: Address)
      requires Valid() && View().limbo == {} && addr in pending && Of(View().pending, addr) != map[]
      modifies pending[addr].txs, this`limbo, this`pendingNonces, all, priced
      ensures Valid() && View().limbo == {} && View().queue == old(View()).queue
      ensures View().pending == old(View()).pending[addr := Of(View().pending, addr)]
      ensures Capping(Of(View().pending, addr), Of(old(View()).pending, addr), |Of(old(View()).pending, addr)| - 1)
      ensures SteppedBack(old(View()).pending, View().pending, old(pendingNonces), pendingNonces, currentState)
    {
      hide Shape, View, Partition, Prefix, Enumerates, Of, SteppedBack;
      ghost var v, nonces := View().pending, pendingNonces;
      var drops := CutLast(addr);
      ghost var now := View().pending;
      Facts();
      StepBack(addr, drops);
      SteppedBackOne(v, now, addr, drops, nonces, pendingNonces, currentState);
    }

    /** Drops the last pending transaction of an account. */
    method CutLast(addr: Address) returns (drops: seq<Tx>)
      requires Valid() && View().limbo == {} && addr in pending && Of(View().pending, addr) != map[]
      modifies pending[addr].txs, this`limbo, all, priced
      ensures Valid() && View().limbo == {} && View().queue == old(View()).queue
      ensures View().pending == old(View()).pending[addr := Of(View().pending, addr)]
      ensures Capping(Of(View().pending, addr), Of(old(View()).pending, addr), |Of(old(View()).pending, addr)| - 1)
      ensures Enumerates(drops, Of(old(View()).pending, addr) - Of(View().pending, addr).Keys)
    {
      hide Shape, View, Partition, Prefix, Enumerates, Drop, Of;
      Facts();
      ghost var v := View();
      ListIs(true, addr);
      ListInRepr(true, addr);
      drops := DropHighest(true, addr, pending[addr].Len() - 1);
      DropParts(v, true, addr, Of(View().pending, addr));
      Facts();
    }

    /** Steps an account's next nonce back to the lowest of the dropped ones. */
    method StepBack(addr: Address, drops: seq<Tx>)
      modifies this`pendingNonces
      ensures pendingNonces - {addr} == old(pendingNonces) - {addr}
      ensures Lowest(old(PendingNonce(addr)), PendingNonce(addr), NoncesOf(drops))
    {
      for i := 0 to |drops|
        invariant pendingNonces - {addr} == old(pendingNonces) - {addr}
        invariant Lowest(old(PendingNonce(addr)), PendingNonce(addr), NoncesOf(drops[..i]))
      {
        assert drops[..i + 1] == drops[..i] + [drops[i]];
        assert NoncesOf(drops[..i + 1]) == NoncesOf(drops[..i]) + {drops[i].nonce};
        if PendingNonce(addr) > drops[i].nonce {
          pendingNonces := pendingNonces[addr := drops[i].nonce];
        }
      }
      assert drops[..|drops|] == drops;
    }

    /** One round of equalisation: every offender loses its last transaction. */
    method CutRound(offenders: seq<Address>, count: nat) returns (left: nat)
      requires Valid() && View().limbo == {} && DistinctAddresses(offenders)
      requires forall a :: a in offenders ==> a in View().pending && View().pending[a] != map[]
      requires count == Total(View().pending)
      modifies this`limbo, this`pendingNonces, all, priced, pendingRepr
      ensures Valid() && View().limbo == {} && View().queue == old(View()).queue
      ensures SteppedBack(old(View()).pending, View().pending, old(pendingNonces), pendingNonces, currentState)
      ensures Lowered(old(View()).pending, View().pending, offenders)
      ensures left == Total(View().pending) && left == count - |offenders|
    {
      hide Shape, View, Partition, Lowered, Total, Prefix, SteppedBack, DistinctAddresses;
      left := count;
      ghost var v := View().pending;
      Facts();
      LoweredNothing(v);
      NoStepBack(v, pendingNonces, currentState);
      for i := 0 to |offenders|
        invariant Valid() && View().limbo == {} && View().queue == old(View()).queue
        invariant Kept(true, old(pending), old(pendingRepr)) && Kept(false, old(queue), old(queueRepr))
        invariant SteppedBack(v, View().pending, old(pendingNonces), pendingNonces, currentState)
        invariant Lowered(v, View().pending, offenders[..i])
        invariant left == Total(View().pending) && left == count - i
      {
        ghost var w, nonces := View(), pendingNonces;
        CutOffender(v, offenders, i);
        StepsBack(v, w.pending, View().pending, old(pendingNonces), nonces, pendingNonces, currentState);
        left := left - 1;
      }
      assert offenders[..|offenders|] == offenders;
    }

    /** The turn of one offender. */
    method CutOffender(ghost v: Accounts, offenders: seq<Address>, i: nat)
      requires Valid() && View().limbo == {} && i < |offenders| && DistinctAddresses(offenders)
      requires offenders[i] in v && v[offenders[i]] != map[] && Lowered(v, View().pending, offenders[..i])
      modifies this`limbo, this`pendingNonces, all, priced, pendingRepr
      ensures Valid() && View().limbo == {} && View().queue == old(View()).queue
      ensures SteppedBack(old(View()).pending, View().pending, old(pendingNonces), pendingNonces, currentState)
      ensures Lowered(v, View().pending, offenders[..i + 1]) && Total(View().pending) == Total(old(View()).pending) - 1
    {
      hide Shape, View, Partition, Lowered, Total, Prefix, SteppedBack, DistinctAddresses;
      Facts();
      LoweredNext(v, View().pending, offenders, i);
      ListInRepr(true, offenders[i]);
      ghost var w := View();
      CutOne(offenders[i]);
      LoweredOne(v, w.pending, View().pending, offenders, i);
    }

    /** The number of pending transactions. */
    method CountLists(strict: bool) returns (count: nat)
      requires Shape()
      ensures count == Total(View().Lists(strict))
    {
      hide Shape, View, Sum;
      Facts();
      count := 0;
      var lists := ListsOf(strict);
      var todo := lists.Keys;
      ghost var sizes := SizesOf(View().Lists(strict));
      assert sizes.Keys == todo;
      CountEnds(sizes);
      while todo != {}
        invariant todo <= lists.Keys && count == Sum(sizes - todo)
        decreases todo
      {
        var a :| a in todo;
        ListIs(strict, a);
        CountNext(sizes, todo, a);
        count, todo := count + lists[a].Len(), todo - {a};
      }
    }

    /** The accounts that may be cut, as a priority queue. */
    method CollectSpammers() returns (heap: seq<Spammer>)
      requires Shape()
      ensures Queues(heap, Spammers(View().pending, locals.accounts, config.accountSlots))
    {
      hide Shape, View, Queues;
      Facts();
      heap := [];
      ghost var v, rest: set<Spammer> := View().pending, {};
      var todo := pending.Keys;
      NoSpammers();
      while todo != {}
        invariant todo <= pending.Keys && Queues(heap, rest)
        invariant forall s :: s in rest <==> s in Spammers(v, locals.accounts, config.accountSlots) && s.addr !in todo
        decreases todo
      {
        var a :| a in todo;
        ListIs(true, a);
        if !locals.Contains(a) && pending[a].Len() > config.accountSlots {
          var s := Spammer(a, pending[a].Len());
          heap := PushSpammer(heap, rest, s);
          rest := rest + {s};
        }
        todo := todo - {a};
      }
      assert rest == Spammers(v, locals.accounts, config.accountSlots);
    }

    /** Takes the offenders in turn, largest first, and brings those before down to each. */
    method EqualiseOffenders(ghost was: Accounts, count: nat, spammers: seq<Spammer>)
      returns (left: nat, offenders: seq<Address>, ghost rest: set<Spammer>, ghost level: nat)
      requires Valid() && View().limbo == {} && View().pending == was
      requires count == Total(was) && config.globalSlots < count
      requires Queues(spammers, Spammers(was, locals.accounts, config.accountSlots))
      modifies this`limbo, this`pendingNonces, all, priced, pendingRepr
      ensures Valid() && View().limbo == {} && View().queue == old(View()).queue && left == Total(View().pending)
      ensures Equalising(was, View().pending, offenders, rest, locals.accounts, config.accountSlots, level,
        config.globalSlots)
      ensures SteppedBack(old(View()).pending, View().pending, old(pendingNonces), pendingNonces, currentState)
      ensures config.globalSlots < left ==> rest == {} && AllAbove(was, offenders, level)
    {
      hide Shape, View, Partition, Equalising, Levelling, Total, Queues, AllAbove, SteppedBack;
      Facts();
      var heap, local, slots, limit := spammers, locals.accounts, config.accountSlots, config.globalSlots;
      left, offenders, rest, level := count, [], Spammers(was, local, slots), count + slots;
      StartsEqual(was, local, slots, limit);
      NoStepBack(was, pendingNonces, currentState);
      while left > limit && heap != []
        invariant Valid() && View().limbo == {} && View().queue == old(View()).queue && left == Total(View().pending)
        invariant Equalising(was, View().pending, offenders, rest, local, slots, level, limit) && Queues(heap, rest)
        invariant limit < left ==> AllAbove(was, offenders, level)
        invariant offenders == [] ==> View().pending == was
        invariant SteppedBack(was, View().pending, old(pendingNonces), pendingNonces, currentState)
        decreases |heap|
      {
        var s;
        ghost var before := rest;
        heap, s := PopSpammer(heap, rest);
        rest := rest - {s};
        if offenders == [] {
          FirstOffender(was, before, s, local, slots, level, limit);
          level := s.size;
        }
        StartLevelling(was, View().pending, offenders, before, s, local, slots, level, limit);
        ghost var v, nonces := View().pending, pendingNonces;
        left, level := Equalise(was, left, offenders, s, rest, level);
        StepsBack(was, v, View().pending, old(pendingNonces), nonces, pendingNonces, currentState);
        EndLevelling(was, View().pending, offenders, s, rest, local, slots, level, limit);
        offenders := offenders + [s.addr];
      }
      QueueEmpty(heap, rest);
    }

    /** Brings all earlier offenders down to the size of the latest one, unless the limit is met first. */
    method Equalise(ghost was: Accounts, count: nat, earlier: seq<Address>, last: Spammer,
      ghost rest: set<Spammer>, ghost high: nat)
      returns (left: nat, ghost level: nat)
      requires Valid() && View().limbo == {} && count == Total(View().pending) && config.globalSlots < count
      requires Levelling(was, View().pending, earlier, last, rest, locals.accounts, config.accountSlots, high,
        config.globalSlots)
      requires earlier == [] ==> high == last.size
      modifies this`limbo, this`pendingNonces, all, priced, pendingRepr
      ensures Valid() && View().limbo == {} && View().queue == old(View()).queue && left == Total(View().pending)
      ensures Levelling(was, View().pending, earlier, last, rest, locals.accounts, config.accountSlots, level,
        config.globalSlots)
      ensures config.globalSlots < left ==> level == last.size
      ensures SteppedBack(old(View()).pending, View().pending, old(pendingNonces), pendingNonces, currentState)
    {
      hide Shape, View, Partition, Total, Levelling, SteppedBack;
      left, level := count, high;
      NoStepBack(View().pending, pendingNonces, currentState);
      Facts();
      LastUncut(was, View().pending, earlier, last, rest, locals.accounts, config.accountSlots, level,
        config.globalSlots);
      ListIs(true, last.addr);
      var threshold := pending[last.addr].Len();
      while left > config.globalSlots && 0 < |earlier| && LenOf(earlier[|earlier| - 1]) > threshold
        invariant Valid() && View().limbo == {} && View().queue == old(View()).queue && left == Total(View().pending)
        invariant Levelling(was, View().pending, earlier, last, rest, locals.accounts, config.accountSlots, level,
          config.globalSlots)
        invariant earlier == [] ==> level == high
        invariant SteppedBack(old(View()).pending, View().pending, old(pendingNonces), pendingNonces, currentState)
        decreases level
      {
        ghost var v, nonces := View().pending, pendingNonces;
        left, level := EqualiseRound(was, left, earlier, last, rest, level);
        StepsBack(old(View()).pending, v, View().pending, old(pendingNonces), nonces, pendingNonces, currentState);
      }
      Facts();
      if earlier != [] {
        EarlierAtLevel(was, View().pending, earlier, last, rest, locals.accounts, config.accountSlots, level,
          config.globalSlots);
        ListIs(true, earlier[|earlier| - 1]);
      }
    }

    method EqualiseRound(ghost was: Accounts, count: nat, earlier: seq<Address>, last: Spammer,
      ghost rest: set<Spammer>, ghost high: nat)
      returns (left: nat, ghost level: nat)
      requires Valid() && View().limbo == {} && count == Total(View().pending) && config.globalSlots < count
      requires Levelling(was, View().pending, earlier, last, rest, locals.accounts, config.accountSlots, high,
        config.globalSlots)
      requires earlier != [] && last.size < LenOf(earlier[|earlier| - 1])
      modifies this`limbo, this`pendingNonces, all, priced, pendingRepr
      ensures Valid() && View().limbo == {} && View().queue == old(View()).queue && left == Total(View().pending)
      ensures Levelling(was, View().pending, earlier, last, rest, locals.accounts, config.accountSlots, level,
        config.globalSlots)
      ensures level == high - 1
      ensures SteppedBack(old(View()).pending, View().pending, old(pendingNonces), pendingNonces, currentState)
    {
      hide Shape, View, Partition, Total, Levelling, Lowered, SteppedBack;
      Facts();
      ghost var v := View().pending;
      EarlierAtLevel(was, v, earlier, last, rest, locals.accounts, config.accountSlots, high, config.globalSlots);
      ListIs(true, earlier[|earlier| - 1]);
      left := CutRound(earlier, count);
      LevellingRound(was, v, View().pending, earlier, last, rest, locals.accounts, config.accountSlots, high,
        config.globalSlots);
      level := high - 1;
    }

    /** The length of an account's pending list. */
    function LenOf(a: Address): nat
      reads this`pending, if a in pending then {pending[a].txs} else {}
    {
      if a in pending then pending[a].Len() else 0
    }

    /** Cuts all offenders evenly until the limit is met or they are down to the allowance. */
    method CutToAllowance(ghost was: Accounts, count: nat, offenders: seq<Address>, ghost high: nat)
      returns (left: nat, ghost level: nat)
      requires Valid() && View().limbo == {} && count == Total(View().pending) && offenders != []
      requires Equalising(was, View().pending, offenders, {}, locals.accounts, config.accountSlots, high,
        config.globalSlots)
      requires AllAbove(was, offenders, high)
      modifies this`limbo, this`pendingNonces, all, priced, pendingRepr
      ensures Valid() && View().limbo == {} && View().queue == old(View()).queue && left == Total(View().pending)
      ensures Equalising(was, View().pending, offenders, {}, locals.accounts, config.accountSlots, level,
        config.globalSlots)
      ensures SteppedBack(old(View()).pending, View().pending, old(pendingNonces), pendingNonces, currentState)
      ensures left <= config.globalSlots || level == config.accountSlots
    {
      hide Shape, View, Partition, Equalising, Lowered, Total, Prefix, MayCut, AllAbove, Even, SteppedBack;
      var limit := config.globalSlots;
      ghost var local, slots := locals.accounts, config.accountSlots;
      left, level := count, high;
      NoStepBack(View().pending, pendingNonces, currentState);
      Facts();
      EvenOffenders(was, View().pending, offenders, {}, local, slots, level, limit);
      while left > limit && LenOf(offenders[|offenders| - 1]) > config.accountSlots
        invariant Valid() && View().limbo == {} && View().queue == old(View()).queue && left == Total(View().pending)
        invariant Equalising(was, View().pending, offenders, {}, local, slots, level, limit)
        invariant SteppedBack(old(View()).pending, View().pending, old(pendingNonces), pendingNonces, currentState)
        invariant AllAbove(was, offenders, level) && Even(View().pending, offenders, level)
        decreases level
      {
        ghost var v, nonces := View().pending, pendingNonces;
        left, level := EvenRound(was, left, offenders, level);
        StepsBack(old(View()).pending, v, View().pending, old(pendingNonces), nonces, pendingNonces, currentState);
      }
      Facts();
      LastEven(View().pending, offenders, level);
      ListIs(true, offenders[|offenders| - 1]);
      NotBelowSlots(was, View().pending, offenders, {}, local, slots, level, limit);
    }

    /** One round of cutting all offenders evenly. */
    method EvenRound(ghost was: Accounts, count: nat, offenders: seq<Address>, ghost high: nat)
      returns (left: nat, ghost level: nat)
      requires Valid() && View().limbo == {} && count == Total(View().pending) && offenders != []
      requires Equalising(was, View().pending, offenders, {}, locals.accounts, config.accountSlots, high,
        config.globalSlots)
      requires AllAbove(was, offenders, high) && Even(View().pending, offenders, high)
      requires config.globalSlots < count && config.accountSlots < LenOf(offenders[|offenders| - 1])
      modifies this`limbo, this`pendingNonces, all, priced, pendingRepr
      ensures Valid() && View().limbo == {} && View().queue == old(View()).queue && left == Total(View().pending)
      ensures Equalising(was, View().pending, offenders, {}, locals.accounts, config.accountSlots, level,
        config.globalSlots)
      ensures AllAbove(was, offenders, level) && Even(View().pending, offenders, level) && level == high - 1
      ensures SteppedBack(old(View()).pending, View().pending, old(pendingNonces), pendingNonces, currentState)
    {
      hide Shape, View, Partition, Equalising, Lowered, Total, Prefix, MayCut, AllAbove, Even, SteppedBack;
      Facts();
      ghost var v := View().pending;
      LastEven(v, offenders, high);
      ListIs(true, offenders[|offenders| - 1]);
      left := CutRound(offenders, count);
      AllowanceRound(was, v, View().pending, offenders, locals.accounts, config.accountSlots, high, config.globalSlots);
      level := high - 1;
    }

    /** Brings the pending lists within the global limit, at the cost of the largest remote senders. */
    method CapPending() returns (ghost level: nat)
      requires Valid() && View().limbo == {}
      modifies this`limbo, this`pendingNonces, all, priced, pendingRepr
      ensures Valid() && View().limbo == {} && View().queue == old(View()).queue
      ensures SteppedBack(old(View()).pending, View().pending, old(pendingNonces), pendingNonces, currentState)
      ensures FairCut(old(View()).pending, View().pending, locals.accounts, config.accountSlots, level,
        config.globalSlots)
    {
      hide Shape, View, Partition, Equalising, Total, AllAbove, Queues, FairCut, SteppedBack;
      ghost var was, local, slots, limit := View().pending, locals.accounts, config.accountSlots, config.globalSlots;
      Facts();
      var count := CountLists(true);
      level := count + slots;
      StartsEqual(was, local, slots, limit);
      NoStepBack(was, pendingNonces, currentState);
      if count <= config.globalSlots {
        Fair(was, was, [], Spammers(was, local, slots), local, slots, level, limit);
        return;
      }
      var spammers := CollectSpammers();
      var offenders;
      ghost var rest;
      count, offenders, rest, level := EqualiseOffenders(was, count, spammers);
      Facts();
      if count > config.globalSlots && 0 < |offenders| {
        ghost var v, nonces := View().pending, pendingNonces;
        count, level := CutToAllowance(was, count, offenders, level);
        StepsBack(was, v, View().pending, old(pendingNonces), nonces, pendingNonces, currentState);
      } else if count > config.globalSlots {
        NoOffenders(was, View().pending, local, slots, level, limit);
        level := slots;
      }
      Fair(was, View().pending, offenders, rest, local, slots, level, limit);
    }

    // ---------- the limit on queued transactions ----------

    /** Removes one queued transaction. */
    method RemoveListed(addr: Address, tx: Tx)
      requires Valid() && View().limbo == {} && Holds(View().Queued(addr), tx)
      modifies this`pending, this`pendingRepr, this`queue, this`queueRepr, this`limbo, this`beats, this`pendingNonces
      modifies all, priced, pendingRepr, queueRepr
      ensures Valid() && View().limbo == {} && fresh(pendingRepr - old(pendingRepr))
      ensures fresh(queueRepr - old(queueRepr))
      ensures pendingNonces == old(pendingNonces) && beats == old(beats)
      ensures View().pending == old(View()).pending
      ensures View().queue == Keep(old(View()).queue, addr, old(View()).Queued(addr) - {tx.nonce})
    {
      hide Shape, View, Partition, Removal, Keep;
      QueuedRemoval(View(), addr, tx);
      RemoveTx(tx.Hash(), true);
    }

    /** Removes everything an account has queued. */
    method RemoveQueue(addr: Address, listing: seq<Tx>, ghost items: Items)
      requires Valid() && View().limbo == {} && Lists(listing, items)
      requires addr in View().queue && View().queue[addr] == items
      requires items != map[]
      modifies this`pending, this`pendingRepr, this`queue, this`queueRepr, this`limbo, this`beats, this`pendingNonces
      modifies all, priced, pendingRepr, queueRepr
      ensures Valid() && View().limbo == {} && fresh(pendingRepr - old(pendingRepr))
      ensures fresh(queueRepr - old(queueRepr))
      ensures pendingNonces == old(pendingNonces) && beats == old(beats)
      ensures View().pending == old(View()).pending && View().queue == old(View()).queue - {addr}
    {
      hide Shape, View, Partition, Keep, Lists;
      ghost var v, cur := View(), items;
      KeepWhole(v.queue, addr);
      for i := 0 to |listing|
        invariant Valid() && View().limbo == {} && fresh(pendingRepr - old(pendingRepr))
        invariant fresh(queueRepr - old(queueRepr))
        invariant pendingNonces == old(pendingNonces) && beats == old(beats)
        invariant View().pending == v.pending && View().queue == Keep(v.queue, addr, cur) && Lists(listing[i..], cur)
      {
        NextListed(v.queue, addr, listing, i, cur);
        RemoveListed(addr, listing[i]);
        cur := cur - {listing[i].nonce};
      }
      KeepNothing(v.queue, addr, listing, cur);
    }

    /** Removes the last few transactions an account has queued. */
    method RemoveTail(addr: Address, listing: seq<Tx>, drop: nat, ghost items: Items) returns (ghost kept: Items)
      requires Valid() && View().limbo == {} && Lists(listing, items)
      requires addr in View().queue && View().queue[addr] == items
      requires drop < |listing|
      modifies this`pending, this`pendingRepr, this`queue, this`queueRepr, this`limbo, this`beats, this`pendingNonces
      modifies all, priced, pendingRepr, queueRepr
      ensures Valid() && View().limbo == {} && fresh(pendingRepr - old(pendingRepr))
      ensures fresh(queueRepr - old(queueRepr))
      ensures pendingNonces == old(pendingNonces) && beats == old(beats)
      ensures View().pending == old(View()).pending && View().queue == Keep(old(View()).queue, addr, kept)
      ensures Prefix(kept, items) && |kept| + drop == |items|
    {
      hide Shape, View, Partition, Keep, Lists, Prefix;
      ghost var v := View();
      kept := items;
      KeepWhole(v.queue, addr);
      PrefixSame(items);
      ListedSize(listing, items);
      var left, i := drop, |listing|;
      while 0 < i && 0 < left
        invariant 0 <= i <= |listing| && left == drop - (|listing| - i) && 0 <= left
        invariant Valid() && View().limbo == {} && fresh(pendingRepr - old(pendingRepr))
        invariant fresh(queueRepr - old(queueRepr))
        invariant pendingNonces == old(pendingNonces) && beats == old(beats)
        invariant View().pending == v.pending && View().queue == Keep(v.queue, addr, kept) && Lists(listing[..i], kept)
        invariant Prefix(kept, items) && |kept| == i
      {
        i := i - 1;
        LastListed(v.queue, addr, listing, i, kept, items);
        RemoveListed(addr, listing[i]);
        kept := kept - {listing[i].nonce};
        left := left - 1;
      }
    }

    /** The remote accounts with something queued and when they were last heard from. */
    method CollectRemotes() returns (s: seq<AddressByHeartbeat>)
      requires Shape()
      ensures multiset(s) == multiset(Remotes(View().queue, locals.accounts, beats))
    {
      hide Shape, View;
      Facts();
      s := [];
      ghost var remotes: set<AddressByHeartbeat> := {};
      var todo := queue.Keys;
      while todo != {}
        invariant todo <= queue.Keys && multiset(s) == multiset(remotes)
        invariant forall x :: x in remotes <==> x in Remotes(View().queue, locals.accounts, beats) && x.address !in todo
        decreases todo
      {
        var a :| a in todo;
        if !locals.Contains(a) {
          var x := AddressByHeartbeat(a, Beat(beats, a));
          assert multiset(remotes + {x}) == multiset(remotes) + multiset{x};
          s, remotes := s + [x], remotes + {x};
        }
        todo := todo - {a};
      }
      assert remotes == Remotes(View().queue, locals.accounts, beats);
    }

    /** Brings the queues within the global limit, at the cost of the remote accounts heard from last. */
    method CapQueue()
      requires Valid() && View().limbo == {} && NoneEmpty(View().queue)
      modifies this`pending, this`pendingRepr, this`queue, this`queueRepr, this`limbo, this`beats, this`pendingNonces
      modifies all, priced, pendingRepr, queueRepr
      ensures Valid() && View().limbo == {} && fresh(pendingRepr - old(pendingRepr))
      ensures fresh(queueRepr - old(queueRepr))
      ensures pendingNonces == old(pendingNonces) && beats == old(beats)
      ensures View().pending == old(View()).pending && NoneEmpty(View().queue)
      ensures QueueCapped(old(View()).queue, View().queue, locals.accounts, beats, config.globalQueue)
    {
      hide Shape, View, Partition, Cutting, QueueCapped, Total, Remotes, Ordered;
      Facts();
      ghost var was, local, heard, limit := View().queue, locals.accounts, beats, config.globalQueue;
      var count := CountLists(false);
      if count <= config.globalQueue {
        NothingCapped(was, local, heard, limit);
        return;
      }
      var addresses := CollectRemotes();
      RemotesDistinct(was, local, heard);
      addresses := SortByHeartbeat(addresses, Remotes(was, local, heard));
      var drop: nat := count - config.globalQueue;
      CuttingStarts(was, addresses, local, heard, limit);
      CappedAll(was, was, addresses, local, heard, limit, drop);
      while 0 < drop && 0 < |addresses|
        invariant Valid() && View().limbo == {} && fresh(pendingRepr - old(pendingRepr))
        invariant fresh(queueRepr - old(queueRepr))
        invariant pendingNonces == old(pendingNonces) && beats == old(beats)
        invariant View().pending == old(View()).pending && NoneEmpty(View().queue)
        invariant 0 < drop ==> Cutting(was, View().queue, addresses, local, heard, limit, drop)
        invariant drop == 0 || addresses == [] ==> QueueCapped(was, View().queue, local, heard, limit)
        decreases |addresses|
      {
        drop := CutQueue(was, addresses, drop, heard);
        addresses := addresses[..|addresses| - 1];
        Facts();
      }
    }

    /** Cuts the queue of the account heard from last, entirely if that is not too much. */
    method CutQueue(ghost was: Accounts, addresses: seq<AddressByHeartbeat>, drop: nat, ghost heard: map<Address, nat>)
      returns (left: nat)
      requires Valid() && View().limbo == {} && NoneEmpty(View().queue) && 0 < drop && addresses != []
      requires Cutting(was, View().queue, addresses, locals.accounts, heard, config.globalQueue, drop)
      requires config.globalQueue < Total(was)
      modifies this`pending, this`pendingRepr, this`queue, this`queueRepr, this`limbo, this`beats, this`pendingNonces
      modifies all, priced, pendingRepr, queueRepr
      ensures Valid() && View().limbo == {} && fresh(pendingRepr - old(pendingRepr))
      ensures fresh(queueRepr - old(queueRepr))
      ensures pendingNonces == old(pendingNonces) && beats == old(beats)
      ensures View().pending == old(View()).pending && NoneEmpty(View().queue)
      ensures var rest := addresses[..|addresses| - 1];
        && (0 < left ==> Cutting(was, View().queue, rest, locals.accounts, heard, config.globalQueue, left))
        && (left == 0 || rest == [] ==> QueueCapped(was, View().queue, locals.accounts, heard, config.globalQueue))
    {
      hide Shape, View, Partition, Cutting, QueueCapped, Total, NoneEmpty, Keep;
      ghost var now, local, limit := View().queue, locals.accounts, config.globalQueue;
      var addr := addresses[|addresses| - 1].address;
      CuttingNext(was, now, addresses, local, heard, limit, drop);
      Facts();
      ListIs(false, addr);
      ListInRepr(false, addr);
      var size := queue[addr].Len();
      var listing := ListingOf(false, addr);
      ListedSize(listing, now[addr]);
      KeepTidy(now, addr);
      if size <= drop {
        CuttingAll(was, now, addresses, local, heard, limit, drop);
        RemoveQueue(addr, listing, now[addr]);
        left := drop - size;
        CappedAll(was, View().queue, addresses[..|addresses| - 1], local, heard, limit, left);
      } else {
        ghost var kept := RemoveTail(addr, listing, drop, now[addr]);
        CappedPart(was, now, View().queue, addresses, local, heard, limit, drop, kept);
        left := 0;
      }
      Facts();
    }

    // ---------- the pool's operations ----------

    /** Promotes what has become executable on the given accounts' queues, or on all of them. */
    method PromoteAll(accounts: Option<seq<Address>>)
      requires Valid() && Tidy(View())
      modifies this`pending, this`pendingRepr, this`queue, this`queueRepr, this`limbo, this`beats, this`pendingNonces
      modifies all, priced, pendingRepr, queueRepr
      ensures Valid() && Tidy(View()) && fresh(pendingRepr - old(pendingRepr)) && fresh(queueRepr - old(queueRepr))
      ensures locals.accounts == old(locals.accounts)
      ensures (accounts.Some? ==> DistinctAddresses(accounts.value)) ==>
        AllPromotedOf(Setting(), old(Ledger()), Ledger(), accounts)
    {
      hide Shape, View, Partition, Promoting, AllPromotedOf, DistinctAddresses, Tidy, OnlyOf, Promoted;
      Facts();
      var addrs;
      if accounts.Some? {
        addrs := accounts.value;
      } else {
        addrs := AddressesOf(queue);
      }
      PromotingStart(Setting(), Ledger(), addrs);
      for i := 0 to |addrs|
        invariant Valid() && Tidy(View()) && fresh(pendingRepr - old(pendingRepr)) && fresh(queueRepr - old(queueRepr))
        invariant Promoting(Setting(), old(Ledger()), Ledger(), addrs, i)
      {
        ghost var l := Ledger();
        PromoteOne(addrs[i]);
        PromotingNext(Setting(), old(Ledger()), l, Ledger(), addrs, i);
        Facts();
      }
      PromotedEnd(Setting(), old(Ledger()), Ledger(), accounts, addrs);
    }

    method PromoteOne(addr: Address)
      requires Valid() && Tidy(View())
      modifies this`pending, this`pendingRepr, this`queue, this`queueRepr, this`limbo, this`beats, this`pendingNonces
      modifies all, priced, pendingRepr, queueRepr
      ensures Valid() && Tidy(View()) && fresh(pendingRepr - old(pendingRepr)) && fresh(queueRepr - old(queueRepr))
      ensures OnlyOf(old(Ledger()), Ledger(), addr) && Promoted(Setting(), old(Ledger()), Ledger(), addr)
    {
      hide Shape, View, Partition, Promotion, Promoted, Affordable, From, ReadyRun, Capping;
      Facts();
      ghost var l := Ledger();
      ghost var ready, rest := PromoteAccount(addr);
      if addr in l.view.queue {
        PromotionPromotes(Setting(), l, Ledger(), addr, ready, rest);
      } else {
        NothingPromoted(Setting(), l, Ledger(), addr);
      }
      Facts();
    }

    /** Promotes what has become executable on the given accounts' queues, or on all of them, and
        brings the pool within its global limits: first the pending lists, then the queues. */
    method PromoteExecutables(accounts: Option<seq<Address>>) returns (ghost round: Round)
      requires Valid() && Tidy(View())
      modifies this`pending, this`pendingRepr, this`queue, this`queueRepr, this`limbo, this`beats, this`pendingNonces
      modifies all, priced, pendingRepr, queueRepr
      ensures Valid() && Tidy(View()) && fresh(pendingRepr - old(pendingRepr)) && fresh(queueRepr - old(queueRepr))
      ensures Rounded(Setting(), old(Ledger()), round, Ledger(), accounts)
      ensures WithinLimit(View().pending, locals.accounts, config.accountSlots, config.globalSlots)
      ensures WithinLimit(View().queue, locals.accounts, 0, config.globalQueue)
    {
      hide Shape, View, Partition, FairCut, QueueCapped, WithinLimit, AllPromotedOf, DistinctAddresses, SteppedBack;
      Facts();
      PromoteAll(accounts);
      Facts();
      ghost var promoted := Ledger();
      ghost var level := CapPending();
      FairWithin(promoted.view.pending, View().pending, locals.accounts, config.accountSlots, level,
        config.globalSlots);
      Facts();
      ghost var mid := View();
      CapQueue();
      CappedWithin(mid.queue, View().queue, locals.accounts, promoted.beats, config.globalQueue);
      Facts();
      round := Round(promoted, level);
    }

    /** Queues again what follows an unpayable transaction in one account's pending list, and drops
        what is unpayable. */
    method DemoteUnpayable(addr: Address)
      requires Valid() && Tidy(View()) && addr in pending
      modifies this`pending, this`pendingRepr, this`queue, this`queueRepr
      modifies this`limbo, all, priced, pendingRepr, queueRepr
      ensures Valid() && Tidy(View()) && fresh(queueRepr - old(queueRepr)) && Kept(true, old(pending), old(pendingRepr))
      ensures Demotion(old(View()), View(), addr,
        Affordable(true, old(View()).Pending(addr), currentState.Balance(addr), currentMaxGas),
        Stranded(old(View()).Pending(addr), currentState.Balance(addr), currentMaxGas))
    {
      hide Shape, View, Partition, Affordable, Accepted, Rejected, OverLimits, Enumerates, Take, Move, Movable,
        Demotion, Forget;
      Facts();
      ghost var v, balance, gas := View(), currentState.Balance(addr), currentMaxGas;
      ListInRepr(true, addr);
      var drops, invalids := FilterList(true, addr);
      TakeLeaves(v, true, addr, Affordable(true, v.Pending(addr), balance, gas));
      FilterParts(v, addr, balance, gas, drops);
      StrikeAll(drops);
      Facts();
      ghost var moved := Stranded(v.Pending(addr), balance, gas);
      FilterDone(v, View(), Set(drops), addr, Affordable(true, v.Pending(addr), balance, gas), moved);
      EnqueueAll(invalids, addr, moved);
    }

    /** Queues again everything an account has pending. */
    method DemoteAll(addr: Address)
      requires Valid() && Tidy(View()) && addr in pending
      modifies this`pending, this`pendingRepr, this`queue, this`queueRepr
      modifies this`limbo, all, priced, pendingRepr, queueRepr
      ensures Valid() && Tidy(View()) && fresh(queueRepr - old(queueRepr)) && Kept(true, old(pending), old(pendingRepr))
      ensures Demotion(old(View()), View(), addr, map[], old(View()).Pending(addr))
    {
      hide Shape, View, Partition, Enumerates, Take, Move, Movable, Demotion, Prefix;
      Facts();
      ghost var v := View();
      ListInRepr(true, addr);
      var drops := CapList(true, addr, 0);
      EverythingGone(View().Pending(addr), v.Pending(addr));
      TakenMovable(v, true, addr, map[], v.Pending(addr));
      Facts();
      EnqueueAll(drops, addr, v.Pending(addr));
      AllDemoted(v, addr);
    }

    /** Demotes what can no longer be executed from one account's pending list, and closes the list if
        nothing is left on it. */
    method DemoteAccount(addr: Address)
      requires Valid() && Tidy(View()) && addr in pending
      modifies this`pending, this`pendingRepr, this`queue, this`queueRepr, this`limbo, this`beats
      modifies all, priced, pendingRepr, queueRepr
      ensures Valid() && Tidy(View()) && fresh(pendingRepr - old(pendingRepr)) && fresh(queueRepr - old(queueRepr))
      ensures Forgotten(old(View()).pending, View().pending, old(beats), beats)
      ensures OthersKept(old(View()), View(), addr)
      ensures Demoted(old(View()), View(), addr, currentState.Nonce(addr), currentState.Balance(addr), currentMaxGas)
      ensures addr in View().pending ==> View().pending[addr] != map[]
      ensures Runnable(View().Pending(addr), currentState.Nonce(addr), currentState.Balance(addr), currentMaxGas)
    {
      hide Shape, View, Partition, Tidy, Runnable, OthersKept, Demoted, Keep, Forgotten;
      ghost var v, before := View(), beats;
      Facts();
      DemoteList(addr);
      ghost var x := View();
      CloseKeeps(x, true, addr);
      ClosedKeeps(v, x, addr);
      Facts();
      CloseIfEmpty(true, addr);
      DemotedClosed(v, x, View(), addr, currentState.Nonce(addr), currentState.Balance(addr), currentMaxGas);
      ForgottenClosed(v, x, addr, before);
    }

    /** Demotes what can no longer be executed from one account's pending list. */
    method DemoteList(addr: Address)
      requires Valid() && Tidy(View()) && addr in pending
      modifies this`pending, this`pendingRepr, this`queue, this`queueRepr, this`limbo
      modifies all, priced, pendingRepr, queueRepr
      ensures Valid() && Tidy(View()) && fresh(pendingRepr - old(pendingRepr)) && fresh(queueRepr - old(queueRepr))
      ensures addr in View().pending && OthersKept(old(View()), View(), addr)
      ensures Demoted(old(View()), View(), addr, currentState.Nonce(addr), currentState.Balance(addr), currentMaxGas)
      ensures Runnable(View().Pending(addr), currentState.Nonce(addr), currentState.Balance(addr), currentMaxGas)
    {
      hide Shape, View, Partition, Tidy, Demotion, Affordable, Stranded, Runnable, OthersKept, Demoted, From;
      ghost var v := View();
      Facts();
      DropStale(addr);
      Facts();
      ghost var u := View();
      DemoteUnpayable(addr);
      ghost var nonce, balance, gas := currentState.Nonce(addr), currentState.Balance(addr), currentMaxGas;
      DemotionKeeps(u, View(), addr, Affordable(true, u.Pending(addr), balance, gas), Stranded(u.Pending(addr),
        balance, gas));
      FromFront(v.Pending(addr), nonce);
      NonceFront(u.Pending(addr), nonce, balance, gas);
      ghost var w := View();
      DemoteGapped(addr);
      OthersTwice(v, u, w, View(), addr);
      DemotedSteps(v, u, w, View(), addr, nonce, balance, gas);
    }

    /** Demotes all of an account's pending transactions if its next nonce is not among them. */
    method DemoteGapped(addr: Address)
      requires Valid() && Tidy(View()) && addr in pending
      modifies this`pending, this`pendingRepr, this`queue, this`queueRepr
      modifies this`limbo, all, priced, pendingRepr, queueRepr
      ensures Valid() && Tidy(View()) && fresh(queueRepr - old(queueRepr)) && Kept(true, old(pending), old(pendingRepr))
      ensures OthersKept(old(View()), View(), addr) && addr in View().pending
      ensures View().Pending(addr) ==
        if currentState.Nonce(addr) in old(View()).Pending(addr) then old(View()).Pending(addr) else map[]
      ensures View().Queued(addr) == old(View()).Queued(addr) +
        if currentState.Nonce(addr) in old(View()).Pending(addr) then map[] else old(View()).Pending(addr)
    {
      hide Shape, View, Partition, Tidy, Demotion;
      Facts();
      ListIs(true, addr);
      ghost var w := View();
      if pending[addr].Len() > 0 && currentState.Nonce(addr) !in pending[addr].txs.items {
        DemoteAll(addr);
        DemotionKeeps(w, View(), addr, map[], w.Pending(addr));
        DemotionQueues(w, View(), addr, map[], w.Pending(addr));
      }
      Facts();
    }

    /** Drops what is stale from one account's pending list. */
    method DropStale(addr: Address)
      requires Valid() && Tidy(View()) && addr in pending
      modifies this`limbo, all, priced, pendingRepr
      ensures Valid() && Tidy(View()) && OthersKept(old(View()), View(), addr)
      ensures View().Pending(addr) == From(old(View()).Pending(addr), currentState.Nonce(addr))
      ensures View().queue == old(View()).queue
    {
      hide Shape, View, Partition, Drop, From, NoneEmpty;
      ghost var v := View();
      Facts();
      ListInRepr(true, addr);
      DropOld(true, addr, currentState.Nonce(addr));
      DropParts(v, true, addr, From(v.Pending(addr), currentState.Nonce(addr)));
    }

    /** Demotes what can no longer be executed; every pending list left starts with its account's
        next nonce, is within its means and is not empty. */
    method DemoteUnexecutables()
      requires Valid() && Tidy(View())
      modifies this`pending, this`pendingRepr, this`queue, this`queueRepr, this`limbo, this`beats
      modifies all, priced, pendingRepr, queueRepr
      ensures Valid() && Tidy(View()) && fresh(pendingRepr - old(pendingRepr)) && fresh(queueRepr - old(queueRepr))
      ensures Forgotten(old(View()).pending, View().pending, old(beats), beats)
      ensures AllRunnable(View().pending, [], currentState, currentMaxGas)
      ensures AllDemotedOf(old(View()), View(), None, currentState, currentMaxGas)
    {
      hide Shape, View, Partition, Tidy, AllRunnable, OthersKept, Runnable, AllDemotedOf, Demoted, Forgotten;
      Facts();
      var addrs := AddressesOf(pending);
      RunnableStart(View().pending, addrs, currentState, currentMaxGas);
      DemotedStart(View(), currentState, currentMaxGas);
      NothingForgotten(View().pending, beats);
      for i := 0 to |addrs|
        invariant Forgotten(old(View()).pending, View().pending, old(beats), beats)
        invariant AllDemotedOf(old(View()), View(), Some(addrs[..i]), currentState, currentMaxGas)
        invariant Valid() && Tidy(View()) && fresh(pendingRepr - old(pendingRepr)) && fresh(queueRepr - old(queueRepr))
        invariant AllRunnable(View().pending, addrs[i..], currentState, currentMaxGas)
      {
        Facts();
        ghost var v, before := View(), beats;
        if addrs[i] in pending {
          DemoteAccount(addrs[i]);
          ForgottenOn(old(View()).pending, v.pending, View().pending, old(beats), before, beats);
          RunnableNext(v, View(), addrs, i, currentState, currentMaxGas);
          DemotedNext(old(View()), v, View(), addrs, i, currentState, currentMaxGas);
          Facts();
        } else {
          RunnableSkip(v.pending, addrs, i, currentState, currentMaxGas);
          DemotedSkip(old(View()), v, addrs, i, currentState, currentMaxGas);
        }
      }
      DemotedEnd(old(View()), View(), addrs, currentState, currentMaxGas);
      assert addrs[|addrs|..] == [];
    }

    /** Why a transaction from outside is refused before anything else is looked at, if it is. */
    function ValidateTx(tx: Tx, local: bool): (r: Option<PoolError>)
      reads this`currentMaxGas, this`gasPrice, this`currentState, this`homestead, this`clock, locals
      ensures r.None? <==>
        && tx.size <= 32 * 1024 && 0 <= tx.value && tx.signed && currentState.Nonce(tx.sender) <= tx.nonce
        && (local || tx.sender in locals.accounts || gasPrice <= tx.gasPrice)
        && tx.Cost() <= currentState.Balance(tx.sender)
        && ExactGas(tx.data, tx.to.None?, homestead) <= tx.gas <= currentMaxGas
    {
      Verdict(Setting(), tx, local || locals.Contains(tx.sender))
    }

    /** What the pool goes by. */
    function Setting(): Setting
      reads this`currentMaxGas, this`gasPrice, this`currentState, this`homestead, this`clock
    {
      Settings(config, currentState, currentMaxGas, gasPrice, homestead, clock)
    }

    /** Whether a remote transaction is no better than anything in the pool. */
    method IsUnderpriced(tx: Tx) returns (under: bool)
      requires Valid() && exempt == {}
      modifies priced
      ensures Valid() && View() == old(View())
      ensures under <==> Remote(tx, locals.accounts) && NoneCheaper(View().all, tx)
    {
      hide TxList.Valid, TxPricedList.Valid, TxLookup.Valid, TxLookup.Live, Owned, Contents, Partition;
      under := priced.Underpriced(tx, locals);
    }

    /** Takes transactions off the price heap, so many of the cheapest remote ones. */
    method DiscardCheapest(count: int) returns (drop: seq<Tx>)
      requires Valid() && exempt == {}
      modifies priced, this`exempt
      ensures Valid() && View() == old(View()) && exempt == Set(drop)
      ensures Cheapest(drop, View().all, locals.accounts, count)
    {
      hide TxList.Valid, TxPricedList.Valid, TxLookup.Valid, TxLookup.Live, Owned, Contents, Partition;
      drop := priced.Discard(count, locals);
      exempt := Set(drop);
    }

    /** Takes the remote transactions below a price off the price heap. */
    method DiscardBelow(price: nat) returns (drop: seq<Tx>)
      requires Valid() && exempt == {}
      modifies priced, this`exempt
      ensures Valid() && View() == old(View()) && exempt == Set(drop)
      ensures forall tx :: tx in drop <==> RemoteBelow(tx, View().all, locals.accounts, price)
    {
      hide TxList.Valid, TxPricedList.Valid, TxLookup.Valid, TxLookup.Live, Owned, Contents, Partition;
      drop := priced.Cap(price, locals);
      exempt := Set(drop);
    }

    /** Removes transactions that are off the price heap already. */
    method RemoveDiscarded(drop: seq<Tx>)
      requires Valid() && Tidy(View()) && exempt == Set(drop)
      modifies this`pending, this`pendingRepr, this`queue, this`queueRepr, this`limbo, this`beats, this`pendingNonces
      modifies all, priced, pendingRepr, queueRepr
      modifies this`exempt
      ensures Valid() && Tidy(View()) && fresh(pendingRepr - old(pendingRepr))
      ensures fresh(queueRepr - old(queueRepr)) && exempt == {}
      ensures View().all == old(View()).all - Set(drop) && Ledger() == Removals(old(Ledger()), drop, currentState)
    {
      hide Shape, View, Partition, Removal, RemovalOf, NoneEmpty, Set;
      Facts();
      ghost var v := View();
      SetOf(drop);
      for i := 0 to |drop|
        invariant Valid() && Tidy(View()) && fresh(pendingRepr - old(pendingRepr))
        invariant fresh(queueRepr - old(queueRepr)) && exempt == Set(drop)
        invariant View().all == v.all - Set(drop[..i])
        invariant Ledger() == Removals(old(Ledger()), drop[..i], currentState)
      {
        RemovalTidy(View(), drop[i]);
        RemovalView(Ledger(), drop[i], currentState);
        RemovalsNext(old(Ledger()), drop, currentState, i);
        RemoveTx(drop[i].Hash(), false);
        Facts();
      }
      assert drop[..|drop|] == drop;
      NothingExempt();
    }

    /** Nothing live is exempt any more. */
    ghost method NothingExempt()
      requires Shape() && View().all !! exempt
      modifies this`exempt
      ensures Shape() && View() == old(View()) && exempt == {}
    {
      hide TxList.Valid, TxPricedList.Valid, TxLookup.Valid, TxLookup.Live, Owned, Contents;
      exempt := {};
    }

    /** Takes in a transaction from outside: replaces a pending one, or queues it for promotion. A full
        pool first makes room by removing its cheapest remote transactions. */
    method Add(tx: Tx, local: bool) returns (r: AddResult, ghost drop: seq<Tx>)
      requires Valid() && Tidy(View()) && exempt == {}
      modifies this`pending, this`pendingRepr, this`queue, this`queueRepr, this`limbo, this`beats, this`pendingNonces
      modifies all, priced, pendingRepr, queueRepr
      modifies this`exempt, locals
      ensures Valid() && Tidy(View()) && exempt == {}
      ensures fresh(pendingRepr - old(pendingRepr)) && fresh(queueRepr - old(queueRepr))
      ensures Addition(Setting(), old(Ledger()), Ledger(), tx, local, drop, r)
    {
      hide Shape, View, Partition, Tidy, TxLookup.Live, NoneCheaper, RoomMade, Verdict;
      Facts();
      all.LiveIs(tx);
      drop := [];
      if tx.Hash() in all.all {
        return Refused(KnownTransaction), drop;
      }
      var err := ValidateTx(tx, local);
      if err.Some? {
        return Refused(err.value), drop;
      }
      ghost var l := Ledger();
      all.LiveCount();
      var full := |all.all| >= config.globalSlots + config.globalQueue;
      if full && !local {
        var under := IsUnderpriced(tx);
        if under {
          return Refused(Underpriced), drop;
        }
      }
      Facts();
      r, drop := AddValid(tx, local, full);
    }

    /** Takes in a valid transaction that is not underpriced. */
    method AddValid(tx: Tx, local: bool, full: bool) returns (r: AddResult, ghost drop: seq<Tx>)
      requires Valid() && Tidy(View()) && exempt == {} && tx.signed && tx !in View().all
      requires full == Full(config, View())
      modifies this`pending, this`pendingRepr, this`queue, this`queueRepr, this`limbo, this`beats, this`pendingNonces
      modifies all, priced, pendingRepr, queueRepr
      modifies this`exempt, locals
      ensures Valid() && Tidy(View()) && exempt == {}
      ensures fresh(pendingRepr - old(pendingRepr)) && fresh(queueRepr - old(queueRepr))
      ensures RoomMade(Setting(), old(Ledger()), Ledger(), tx, local, drop, r)
    {
      hide Shape, View, Partition, Tidy, Arrived, TxLookup.Live, Cheapest, Removals, RoomMade;
      ghost var l := Ledger();
      NoRemovals(l, currentState);
      Facts();
      all.LiveCount();
      drop := [];
      if full {
        drop := MakeRoom(|all.all| - (config.globalSlots + config.globalQueue - 1));
      }
      ghost var u := Ledger();
      Facts();
      r := PlaceNew(tx, local);
      Facts();
      RoomMadeParts(Setting(), l, u, Ledger(), tx, local, drop, r);
    }

    /** Removes the cheapest remote transactions, so many of them. */
    method MakeRoom(count: int) returns (ghost drop: seq<Tx>)
      requires Valid() && Tidy(View()) && exempt == {}
      modifies this`pending, this`pendingRepr, this`queue, this`queueRepr, this`limbo, this`beats, this`pendingNonces
      modifies all, priced, pendingRepr, queueRepr
      modifies this`exempt
      ensures Valid() && Tidy(View()) && exempt == {}
      ensures fresh(pendingRepr - old(pendingRepr)) && fresh(queueRepr - old(queueRepr))
      ensures Cheapest(drop, old(View()).all, locals.accounts, count)
      ensures View().all == old(View()).all - Set(drop) && Ledger() == Removals(old(Ledger()), drop, currentState)
    {
      hide Shape, View, Partition, Tidy, Cheapest, Removals;
      Facts();
      var cheapest := DiscardCheapest(count);
      Facts();
      RemoveDiscarded(cheapest);
      Facts();
      drop := cheapest;
    }

    /** Replaces a pending transaction or queues the newcomer. */
    method PlaceNew(tx: Tx, local: bool) returns (r: AddResult)
      requires Valid() && Tidy(View()) && exempt == {} && tx.signed && tx !in View().all
      modifies this`pending, this`pendingRepr, this`queue, this`queueRepr, this`limbo
      modifies all, priced, pendingRepr, queueRepr, locals
      ensures Valid() && Tidy(View()) && exempt == {}
      ensures fresh(pendingRepr - old(pendingRepr)) && fresh(queueRepr - old(queueRepr))
      ensures Arrived(old(View()), View(), tx, config.priceBump, r)
      ensures locals.accounts == if r.Added? && local && tx.nonce !in old(View()).Pending(tx.sender)
        then old(locals.accounts) + {tx.sender} else old(locals.accounts)
      ensures pendingNonces == old(pendingNonces) && beats == old(beats)
    {
      hide Shape, View, Partition, NoneEmpty, Place, Outbids;
      Facts();
      ghost var v := View();
      PlaceTidy(v, tx);
      var overlaps := false;
      if tx.sender in pending {
        ListIs(true, tx.sender);
        overlaps := pending[tx.sender].Overlaps(tx);
      }
      PendingElsewhere(v, tx);
      var inserted, replaced;
      if overlaps {
        inserted, replaced := Admit(true, tx);
        Facts();
        return if inserted then Added(replaced) else Refused(ReplaceUnderpriced);
      }
      inserted, replaced := EnqueueTx(tx);
      Facts();
      if !inserted {
        return Refused(ReplaceUnderpriced);
      }
      if local && !locals.Contains(tx.sender) {
        locals.Add(tx.sender);
      }
      return Added(replaced);
    }

    /** Takes in one transaction and promotes what it made executable. */
    method AddTx(tx: Tx, local: bool)
      returns (r: AddResult, ghost drop: seq<Tx>, ghost placed: Ledger, ghost round: Round)
      requires Valid() && Settled()
      modifies this`pending, this`pendingRepr, this`queue, this`queueRepr, this`limbo, this`beats, this`pendingNonces
      modifies all, priced, pendingRepr, queueRepr
      modifies this`exempt, locals
      ensures Valid() && Settled() && fresh(pendingRepr - old(pendingRepr)) && fresh(queueRepr - old(queueRepr))
      ensures Addition(Setting(), old(Ledger()), placed, tx, local, drop, r)
      ensures if r == Added(false) then Rounded(Setting(), placed, round, Ledger(), Some([tx.sender]))
        else Ledger() == placed
    {
      hide Shape, View, Partition, Addition, Tidy, WithinLimit, Rounded;
      Facts();
      r, drop := Add(tx, local);
      Facts();
      placed, round := Ledger(), NoRound(Ledger());
      if r.Added? && !r.replaced {
        round := PromoteExecutables(Some([tx.sender]));
      }
      Facts();
    }

    /** Takes in a batch of transactions and promotes what they made executable. */
    method AddTxs(txs: seq<Tx>, local: bool) returns (results: seq<AddResult>, ghost intake: Intake)
      requires Valid() && Settled()
      modifies this`pending, this`pendingRepr, this`queue, this`queueRepr, this`limbo, this`beats, this`pendingNonces
      modifies all, priced, pendingRepr, queueRepr
      modifies this`exempt, locals
      ensures Valid() && Settled() && fresh(pendingRepr - old(pendingRepr)) && fresh(queueRepr - old(queueRepr))
      ensures results == intake.results && TakenIn(Setting(), old(Ledger()), Ledger(), txs, local, intake)
    {
      hide Shape, View, Partition, TakingIn, Addition, DistinctAddresses, Tidy, WithinLimit, Rounded;
      results := [];
      ghost var trail, drops := [Ledger()], [];
      var dirty: seq<Address> := [];
      TakingInStarts(Setting(), Ledger(), txs, local);
      for i := 0 to |txs|
        invariant Valid() && Settled() && fresh(pendingRepr - old(pendingRepr))
        invariant fresh(queueRepr - old(queueRepr)) && |results| == i
        invariant TakingIn(Setting(), old(Ledger()), trail, Ledger(), txs, local, drops, results, i)
        invariant dirty == Newcomers(txs[..i], results)
      {
        Facts();
        ghost var before, drop := Ledger(), [];
        var r;
        r, drop := Add(txs[i], local);
        Facts();
        TakingInNext(Setting(), old(Ledger()), trail, before, Ledger(), txs, local, drops, drop, results, r);
        assert txs[..i + 1][..i] == txs[..i] && (results + [r])[..i] == results;
        results, trail, drops := results + [r], trail + [Ledger()], drops + [drop];
        if r.Added? && !r.replaced && txs[i].sender !in dirty {
          dirty := dirty + [txs[i].sender];
        }
      }
      assert txs[..|txs|] == txs;
      BatchTaken(Setting(), old(Ledger()), trail, Ledger(), txs, local, drops, results);
      NewcomersOnce(txs, results);
      Facts();
      ghost var round := NoRound(Ledger());
      if 0 < |dirty| {
        round := PromoteExecutables(Some(dirty));
      }
      Facts();
      intake := Intake(trail, drops, results, round);
    }

    /** Raises or lowers the price a remote transaction has to offer and removes the remote
        transactions that no longer do. */
    method SetGasPrice(price: nat) returns (ghost drop: seq<Tx>)
      requires Valid() && Settled()
      modifies this`pending, this`pendingRepr, this`queue, this`queueRepr, this`limbo, this`beats, this`pendingNonces
      modifies all, priced, pendingRepr, queueRepr
      modifies this`exempt, this`gasPrice
      ensures Valid() && Settled() && fresh(pendingRepr - old(pendingRepr))
      ensures fresh(queueRepr - old(queueRepr)) && gasPrice == price
      ensures forall tx :: tx in drop <==>
        tx in old(View()).all && tx.sender !in locals.accounts && tx.gasPrice < price
      ensures View().all == old(View()).all - Set(drop) && Ledger() == Removals(old(Ledger()), drop, currentState)
    {
      hide Shape, View, Partition, Tidy, Removals;
      Facts();
      gasPrice := price;
      var below := DiscardBelow(price);
      AllSigned(View());
      Facts();
      RemoveDiscarded(below);
      Facts();
      drop := below;
    }

    /** Removes everything queued by one account. */
    method EvictAccount(addr: Address)
      requires Valid() && Settled() && addr in queue
      modifies this`pending, this`pendingRepr, this`queue, this`queueRepr, this`limbo, this`beats, this`pendingNonces
      modifies all, priced, pendingRepr, queueRepr
      ensures Valid() && Settled() && fresh(pendingRepr - old(pendingRepr)) && fresh(queueRepr - old(queueRepr))
      ensures pendingNonces == old(pendingNonces) && beats == old(beats)
      ensures View().pending == old(View()).pending && View().queue == old(View()).queue - {addr}
    {
      hide Shape, View, Partition, NoneEmpty, Of;
      Facts();
      ListInRepr(false, addr);
      ListIs(false, addr);
      KeepTidy(View().queue, addr);
      ghost var v := View();
      var listing := ListingOf(false, addr);
      RemoveQueue(addr, listing, v.queue[addr]);
      Facts();
    }

    /** Removes an account's queue if it is remote and not heard from for the given time. */
    method EvictIfIdle(addr: Address)
      requires Valid() && Settled()
      modifies this`pending, this`pendingRepr, this`queue, this`queueRepr, this`limbo, this`beats, this`pendingNonces
      modifies all, priced, pendingRepr, queueRepr
      ensures Valid() && Settled() && fresh(pendingRepr - old(pendingRepr)) && fresh(queueRepr - old(queueRepr))
      ensures pendingNonces == old(pendingNonces) && beats == old(beats)
      ensures View().pending == old(View()).pending
      ensures View().queue == if Idle(addr) then old(View()).queue - {addr} else old(View()).queue
      ensures forall a :: Idle(a) == old(Idle(a))
    {
      hide Shape, View, Partition, Tidy;
      Facts();
      QueueKeys();
      if addr in queue && !locals.Contains(addr) && (addr !in beats || clock - beats[addr] > config.lifetime) {
        EvictAccount(addr);
        Facts();
      }
    }

    lemma QueueKeys()
      requires Valid()
      ensures forall a :: a in queue <==> a in View().queue
    {
    }

    /** Removes everything queued by remote accounts not heard from for the given time. */
    method EvictIdle()
      requires Valid() && Settled()
      modifies this`pending, this`pendingRepr, this`queue, this`queueRepr, this`limbo, this`beats, this`pendingNonces
      modifies all, priced, pendingRepr, queueRepr
      ensures Valid() && Settled() && fresh(pendingRepr - old(pendingRepr)) && fresh(queueRepr - old(queueRepr))
      ensures pendingNonces == old(pendingNonces) && beats == old(beats)
      ensures View().pending == old(View()).pending
      ensures View().queue.Keys == set a | a in old(View()).queue &&
        (a in locals.accounts || (a in beats && clock - beats[a] <= config.lifetime))
      ensures forall a :: a in View().queue ==> View().queue[a] == old(View()).queue[a]
    {
      hide Shape, View, Partition, NoneEmpty, Tidy, Idle, Evicted;
      Facts();
      QueueKeys();
      IdleIs();
      var addrs := AddressesOf(queue);
      ghost var idle := set a | a in addrs && Idle(a);
      EvictedNone(View().queue, addrs, idle);
      for i := 0 to |addrs|
        invariant Valid() && Settled() && fresh(pendingRepr - old(pendingRepr)) && fresh(queueRepr - old(queueRepr))
        invariant pendingNonces == old(pendingNonces) && beats == old(beats)
        invariant View().pending == old(View()).pending && Evicted(old(View()).queue, View().queue, addrs, i, idle)
        invariant forall a :: Idle(a) == old(Idle(a))
      {
        ghost var before := View().queue;
        EvictIfIdle(addrs[i]);
        EvictedNext(old(View()).queue, before, View().queue, addrs, i, idle);
      }
      EvictedAll(old(View()).queue, View().queue, addrs, idle);
    }

    lemma IdleIs()
      ensures forall a :: Idle(a) <==>
        a !in locals.accounts && (a in beats ==> config.lifetime < clock - beats[a])
    {
    }

    /** A remote account not heard from for longer than the lifetime; one never heard from is idle at once. */
    predicate Idle(a: Address)
      reads locals, this`clock, this`beats
    {
      !locals.Contains(a) && (a !in beats || clock - beats[a] > config.lifetime)
    }

    /** Adapts the pool to a new head: what a reorganisation gave back is taken in again, what can no
        longer be executed is demoted, what has become executable is promoted. */
    method Reset(head: ChainState, maxGas: uint64, reinject: seq<Tx>) returns (ghost change: Change)
      requires Valid() && Settled()
      modifies this`pending, this`pendingRepr, this`queue, this`queueRepr, this`limbo, this`beats, this`pendingNonces
      modifies all, priced, pendingRepr, queueRepr
      modifies this`exempt, this`currentState, this`currentMaxGas, locals
      ensures Valid() && Settled() && fresh(pendingRepr - old(pendingRepr)) && fresh(queueRepr - old(queueRepr))
      ensures Setting() == old(Setting()).(head := head, maxGas := maxGas)
      ensures Adapted(Setting(), old(Ledger()), Ledger(), reinject, change)
      ensures WithinLimit(View().pending, locals.accounts, config.accountSlots, config.globalSlots)
      ensures WithinLimit(View().queue, locals.accounts, 0, config.globalQueue)
    {
      hide Shape, View, Partition, Tidy, WithinLimit, Rounded, Rearranged, TakenIn;
      Facts();
      currentState, pendingNonces, currentMaxGas := head, map[], maxGas;
      ghost var intake;
      var results;
      results, intake := AddTxs(reinject, false);
      Facts();
      ghost var taken := Ledger();
      Rearrange();
      ghost var noted := Ledger();
      Facts();
      ghost var round := PromoteExecutables(None);
      Facts();
      change := Change(intake, taken, noted, round);
    }

    /** Demotes what can no longer be executed and sets the next nonces accordingly. */
    method Rearrange()
      requires Valid() && Settled()
      modifies this`pending, this`pendingRepr, this`queue, this`queueRepr, this`limbo, this`beats, this`pendingNonces
      modifies all, priced, pendingRepr, queueRepr
      ensures Valid() && Settled() && fresh(pendingRepr - old(pendingRepr)) && fresh(queueRepr - old(queueRepr))
      ensures Rearranged(Setting(), old(Ledger()), Ledger())
    {
      hide Shape, View, Partition, Tidy, AllDemotedOf, AllRunnable, Noted, Forgotten;
      Facts();
      DemoteUnexecutables();
      RunnableTidy(View().pending, currentState, currentMaxGas);
      Facts();
      NoteNonces();
      Facts();
    }

    /** The nonce after the last pending transaction of an account. */
    method NonceAfter(addr: Address) returns (nonce: uint64)
      requires Valid() && addr in pending && View().pending[addr] != map[]
      modifies pendingRepr
      ensures Valid() && View() == old(View()) && FollowsLast(nonce, View().pending[addr])
    {
      hide Shape, View, Partition, FollowsLast, Lists;
      Facts();
      ListInRepr(true, addr);
      ListIs(true, addr);
      ghost var items := View().pending[addr];
      var txs := ListingOf(true, addr);
      LastFollowed(txs, items);
      nonce := AddWrap(txs[|txs| - 1].nonce, 1);
    }

    /** The turn of one account. */
    method NoteOne(addrs: seq<Address>, i: nat)
      requires Valid() && i < |addrs| && addrs[i] in View().pending && View().pending[addrs[i]] != map[]
      requires Noted(pendingNonces, View().pending, addrs[i..])
      modifies this`pendingNonces, pendingRepr
      ensures Valid() && View() == old(View()) && Noted(pendingNonces, View().pending, addrs[i + 1..])
      ensures pendingNonces - {addrs[i]} == old(pendingNonces) - {addrs[i]}
    {
      hide Shape, View, Partition, Noted;
      Facts();
      var nonce := NonceAfter(addrs[i]);
      Facts();
      NotedNext(pendingNonces, View().pending, addrs, i, nonce);
      OneEntry(pendingNonces, addrs[i], nonce);
      pendingNonces := pendingNonces[addrs[i] := nonce];
    }

    /** Sets every account's next nonce after its last pending transaction. */
    method NoteNonces()
      requires Valid() && NoneEmpty(View().pending)
      modifies this`pendingNonces, pendingRepr
      ensures pendingNonces - View().pending.Keys == old(pendingNonces) - View().pending.Keys
      ensures Valid() && View() == old(View()) && Noted(pendingNonces, View().pending, [])
    {
      hide Shape, View, Partition, Noted, DistinctAddresses;
      Facts();
      ghost var lists := View().pending;
      var addrs := AddressesOf(pending);
      NotedStart(pendingNonces, lists, addrs);
      for i := 0 to |addrs|
        invariant pendingNonces - lists.Keys == old(pendingNonces) - lists.Keys
        invariant Valid() && View() == old(View()) && Noted(pendingNonces, lists, addrs[i..])
      {
        ghost var before := pendingNonces;
        NoteOne(addrs, i);
        OneOf(before, pendingNonces, addrs[i], lists.Keys);
      }
      assert addrs[|addrs|..] == [];
    }

    /** The next nonce of an account, counting its pending transactions. */
    function PendingNonce(a: Address): uint64
      reads this`pendingNonces, this`currentState
    {
      NextNonce(pendingNonces, currentState, a)
    }

    /** One family of lists is made of what it was made of. */
    ghost predicate Kept(strict: bool, lists: ListsByAccount, repr: set<object>)
      reads this`pending, this`queue, this`pendingRepr, this`queueRepr
    {
      ListsOf(strict) == lists && ReprOf(strict) == repr
    }

  }

  lemma InsertIntoOpened(v: View, strict: bool, tx: Tx)
    requires tx.sender !in v.Lists(strict)
    ensures Insert(v.WithLists(strict, v.Lists(strict)[tx.sender := map[]]), strict, tx) == Insert(v, strict, tx)
    ensures Of(v.Lists(strict), tx.sender) == map[]
    ensures Of(v.WithLists(strict, v.Lists(strict)[tx.sender := map[]]).Lists(strict), tx.sender) == map[]
  {
  }

  ghost function Set(txs: seq<Tx>): set<Tx> {
    set tx | tx in txs
  }

  lemma SetOf(txs: seq<Tx>)
    ensures Set(txs[..0]) == {} && Set(txs[..|txs|]) == Set(txs)
    ensures forall i :: 0 <= i < |txs| ==> Set(txs[..i + 1]) == Set(txs[..i]) + {txs[i]}
  {
    assert txs[..|txs|] == txs;
    forall i | 0 <= i < |txs|
      ensures Set(txs[..i + 1]) == Set(txs[..i]) + {txs[i]}
    {
      assert txs[..i + 1] == txs[..i] + [txs[i]];
    }
  }

  lemma AllSigned(v: View)
    requires Partition(v)
    ensures forall tx :: tx in v.all ==> tx.signed
  {
    forall tx | tx in v.all
      ensures tx.signed
    {
      assert TxOk(v, tx) && AccountOk(v, tx.sender);
    }
  }

  lemma EmptyPartition()
    ensures Partition(Views(map[], map[], {}, {}))
  {
  }

  lemma CutIs(strict: bool, items: Items, t: int)
    ensures Sub(From(items, t), items) && Below(items, t) == items - From(items, t).Keys
  {
  }

  lemma PrefixIsSub(kept: Items, items: Items)
    requires Prefix(kept, items)
    ensures Sub(kept, items)
  {
  }

  lemma PayableIs(items: Items, balance: int, gas: int)
    ensures var kept := Affordable(false, items, balance, gas);
      Sub(kept, items) && Accepted(OverLimits(balance, gas), items) == items - kept.Keys
  {
  }

  /** A listing of what was cut off holds just what is gone. */
  lemma GoneSet(txs: seq<Tx>, items: Items, kept: Items)
    requires Enumerates(txs, items - kept.Keys)
    ensures Set(txs) == Gone(items, kept)
  {
    var rest := items - kept.Keys;
    forall n | n in items && n !in kept
      ensures items[n] in txs
    {
      assert rest[n] in txs;
    }
  }

  lemma TakeLeaves(v: View, strict: bool, a: Address, kept: Items)
    ensures Of(Take(v, strict, a, kept).Lists(strict), a) == kept
  {
  }

  lemma DropParts(v: View, strict: bool, a: Address, kept: Items)
    ensures var w := Drop(v, strict, a, kept);
      && w.limbo == v.limbo && w.Lists(!strict) == v.Lists(!strict)
      && w.Lists(strict) == v.Lists(strict)[a := kept] && Of(w.Lists(strict), a) == kept
  {
  }

  lemma MoveLeaves(v: View, strict: bool, a: Address, moved: Items)
    ensures Move(v, strict, a, moved).Lists(!strict) == v.Lists(!strict)
  {
  }

  lemma RunTaken(ready: seq<Tx>, kept: Items, items: Items, start: int)
    requires ReadyRun(ready, kept, items, start)
    ensures Sub(kept, items) && Sub(items - kept.Keys, items - kept.Keys)
    ensures Enumerates(ready, items - kept.Keys)
  {
    if ready == [] {
      assert items - kept.Keys == map[];
    } else {
      assert items - kept.Keys == Below(items, ready[0].nonce + |ready|);
    }
  }

  ghost function NoncesOf(txs: seq<Tx>): set<uint64> {
    set tx | tx in txs :: tx.nonce
  }

  lemma SteppedBackOne(was: Accounts, now: Accounts, a: Address, drops: seq<Tx>, before: map<Address, uint64>,
                       after: map<Address, uint64>, head: ChainState)
    requires now == was[a := Of(now, a)] && Prefix(Of(now, a), Of(was, a))
    requires Enumerates(drops, Of(was, a) - Of(now, a).Keys) && after - {a} == before - {a}
    requires Lowest(NextNonce(before, head, a), NextNonce(after, head, a), NoncesOf(drops))
    ensures SteppedBack(was, now, before, after, head)
  {
    var gone := Of(was, a) - Of(now, a).Keys;
    forall n
      ensures n in NoncesOf(drops) <==> n in gone
    {
      assert n in gone ==> gone[n] in drops;
    }
    assert NoncesOf(drops) == gone.Keys == Of(was, a).Keys - Of(now, a).Keys;
    hide Prefix, Enumerates;
    PrefixIsSub(Of(now, a), Of(was, a));
    forall b
      ensures Sub(Of(now, b), Of(was, b)) && Lowest(NextNonce(before, head, b), NextNonce(after, head, b),
        Of(was, b).Keys - Of(now, b).Keys)
    {
      if b != a {
        Elsewhere(before, after, a, b);
        assert Of(was, b).Keys - Of(now, b).Keys == {};
      }
    }
  }

  lemma LoweredNothing(v: Accounts)
    ensures Lowered(v, v, [])
  {
  }

  lemma LoweredNext(v: Accounts, w: Accounts, offenders: seq<Address>, i: nat)
    requires i < |offenders| && DistinctAddresses(offenders) && Lowered(v, w, offenders[..i])
    requires offenders[i] in v
    ensures offenders[i] in w && w[offenders[i]] == v[offenders[i]]
  {
  }

  lemma LoweredOne(v: Accounts, w: Accounts, u: Accounts, offenders: seq<Address>, i: nat)
    requires i < |offenders| && DistinctAddresses(offenders) && Lowered(v, w, offenders[..i])
    requires var a := offenders[i];
      && a in v && a in u && u == w[a := u[a]] && Prefix(u[a], v[a]) && |u[a]| == |v[a]| - 1
    ensures Lowered(v, u, offenders[..i + 1]) && Total(u) == Total(w) - 1
  {
    hide Prefix, Total;
    var a := offenders[i];
    assert offenders[..i + 1] == offenders[..i] + [a];
    LoweredNext(v, w, offenders, i);
    TotalUpdate(w, a, u[a]);
  }

  lemma QueuedRemoval(v: View, a: Address, tx: Tx)
    requires Partition(v) && v.limbo == {} && Holds(v.Queued(a), tx)
    ensures tx in v.all && tx.sender == a && tx.nonce !in v.Pending(a) && Removal(v, tx).pending == v.pending
    ensures Removal(v, tx).queue == Keep(v.queue, a, v.Queued(a) - {tx.nonce})
  {
    assert AccountOk(v, a) && TxOk(v, tx);
  }

  /** No account has a list with nothing on it. */
  ghost predicate NoneEmpty(lists: Accounts) {
    forall a :: a in lists ==> lists[a] != map[]
  }

  lemma KeepTidy(lists: Accounts, a: Address)
    requires NoneEmpty(lists)
    ensures NoneEmpty(lists - {a}) && (a in lists ==> lists[a] != map[])
    ensures forall kept :: NoneEmpty(Keep(lists, a, kept))
  {
  }

  lemma KeepWhole(lists: Accounts, a: Address)
    requires a in lists
    ensures lists[a] != map[] ==> Keep(lists, a, lists[a]) == lists
  {
  }

  lemma ListedSize(listing: seq<Tx>, items: Items)
    requires Lists(listing, items)
    ensures |listing| == |items| && listing[..|listing|] == listing
  {
    ListsLength(listing, items);
  }

  lemma NextListed(lists: Accounts, a: Address, listing: seq<Tx>, i: nat, cur: Items)
    requires i < |listing| && Lists(listing[i..], cur)
    ensures Holds(Of(Keep(lists, a, cur), a), listing[i])
    ensures Keep(Keep(lists, a, cur), a, Of(Keep(lists, a, cur), a) - {listing[i].nonce}) == Keep(lists, a,
      cur - {listing[i].nonce})
    ensures Lists(listing[i + 1..], cur - {listing[i].nonce})
  {
    assert listing[i..][0] == listing[i] && listing[i..][1..] == listing[i + 1..];
    DropFirst(listing[i..], cur);
    KeepAgain(lists, a, cur, cur - {listing[i].nonce});
  }

  lemma LastListed(lists: Accounts, a: Address, listing: seq<Tx>, i: nat, cur: Items, items: Items)
    requires i < |listing| && Lists(listing[..i + 1], cur) && Prefix(cur, items) && |cur| == i + 1
    ensures Holds(Of(Keep(lists, a, cur), a), listing[i])
    ensures Keep(Keep(lists, a, cur), a, Of(Keep(lists, a, cur), a) - {listing[i].nonce}) == Keep(lists, a,
      cur - {listing[i].nonce})
    ensures Lists(listing[..i], cur - {listing[i].nonce}) && Prefix(cur - {listing[i].nonce}, items)
    ensures |cur - {listing[i].nonce}| == i
  {
    var s := listing[..i + 1];
    assert s[i] == listing[i] && s[..i] == listing[..i];
    DropLast(s, cur);
    PrefixTransitive(cur - {listing[i].nonce}, cur, items);
    KeepAgain(lists, a, cur, cur - {listing[i].nonce});
    assert (cur - {listing[i].nonce}).Keys == cur.Keys - {listing[i].nonce};
  }

  lemma KeepNothing(lists: Accounts, a: Address, listing: seq<Tx>, cur: Items)
    requires Lists(listing[|listing|..], cur)
    ensures Keep(lists, a, cur) == lists - {a}
  {
    ListsLength(listing[|listing|..], cur);
  }

  lemma NothingCapped(was: Accounts, local: set<Address>, beats: map<Address, nat>, limit: nat)
    requires Total(was) <= limit
    ensures QueueCapped(was, was, local, beats, limit)
  {
  }

  lemma RemotesDistinct(was: Accounts, local: set<Address>, beats: map<Address, nat>)
    ensures var remotes := Remotes(was, local, beats);
      forall x, y :: x in remotes && y in remotes && x.address == y.address ==> x == y
  {
  }

  /** How promotion changes one account, given what of its queue is payable: the run of consecutive
      nonces from the least one joins the pending list, the rest stays up to the cap. */
  ghost predicate Promotion(v: View, w: View, a: Address, payable: Items, start: int, ready: seq<Tx>, rest: Items,
    cap: Option<nat>) {
    && ReadyRun(ready, rest, payable, start)
    && w.pending == (if ready == [] then v.pending else v.pending[a := v.Pending(a) + (payable - rest.Keys)])
    && w.queue == Keep(v.queue, a, w.Queued(a))
    && (if cap.None? then w.Queued(a) == rest else Capping(w.Queued(a), rest, cap.value))
  }

  /** The same before the queue is closed should nothing be left on it. */
  ghost predicate OpenPromotion(v: View, x: View, a: Address, payable: Items, start: int, ready: seq<Tx>, rest: Items,
    cap: Option<nat>) {
    && ReadyRun(ready, rest, payable, start)
    && x.pending == (if ready == [] then v.pending else v.pending[a := v.Pending(a) + (payable - rest.Keys)])
    && x.queue == v.queue[a := x.Queued(a)]
    && (if cap.None? then x.Queued(a) == rest else Capping(x.Queued(a), rest, cap.value))
  }

  lemma PromotionOpened(v: View, w: View, x: View, a: Address, payable: Items, start: int, ready: seq<Tx>,
                        rest: Items, cap: Option<nat>)
    requires w.pending == v.pending && w.queue == v.queue[a := payable] && ReadyRun(ready, rest, payable, start)
    requires x.pending == if ready == [] then v.pending else v.pending[a := v.Pending(a) + (payable - rest.Keys)]
    requires x.queue == w.queue[a := x.Queued(a)]
    requires if cap.None? then x.Queued(a) == rest else Capping(x.Queued(a), rest, cap.value)
    ensures OpenPromotion(v, x, a, payable, start, ready, rest, cap)
  {
    hide ReadyRun, Capping;
  }

  /** Dropping, promoting and capping, and closing the queue if it is empty, make one promotion. */
  lemma PromotionBuilt(v: View, x: View, y: View, a: Address, payable: Items, start: int, ready: seq<Tx>, rest: Items,
                       cap: Option<nat>)
    requires OpenPromotion(v, x, a, payable, start, ready, rest, cap)
    requires y == x.WithLists(false, Keep(x.Lists(false), a, Of(x.Lists(false), a)))
    ensures Promotion(v, y, a, payable, start, ready, rest, cap)
    ensures NoneEmpty(v.queue) ==> NoneEmpty(y.queue)
  {
    hide ReadyRun, Capping;
    assert y.Queued(a) == x.Queued(a);
    assert y.queue == Keep(v.queue, a, y.Queued(a));
  }

  /** Moving the whole run of ready transactions to the pending list. */
  lemma RunMoved(v: View, a: Address, ready: seq<Tx>, rest: Items, start: int)
    requires ReadyRun(ready, rest, v.Queued(a), start) && v.limbo == {}
    ensures var w := Move(Take(v, false, a, rest), true, a, v.Queued(a) - rest.Keys);
      && w.pending == (if ready == [] then v.pending else v.pending[a := v.Pending(a) + (v.Queued(a) - rest.Keys)])
      && w.queue == v.queue[a := rest]
  {
    RunTakenSize(ready, rest, v.Queued(a), start);
  }

  lemma RunTakenSize(ready: seq<Tx>, rest: Items, items: Items, start: int)
    requires ReadyRun(ready, rest, items, start)
    ensures ready == [] <==> items - rest.Keys == map[]
  {
    RunTaken(ready, rest, items, start);
    hide ReadyRun, Enumerates;
    ListsLength(ready, items - rest.Keys);
  }

  /** Between operations nothing is in limbo and no account keeps an empty queue. */
  ghost predicate Tidy(v: View) {
    v.limbo == {} && NoneEmpty(v.queue)
  }

  /** Within a global limit, unless no remote account has more than its allowance. */
  ghost predicate WithinLimit(lists: Accounts, local: set<Address>, slots: nat, limit: nat) {
    Total(lists) <= limit || forall a :: a in lists && a !in local ==> |lists[a]| <= slots
  }

  lemma FairWithin(was: Accounts, now: Accounts, local: set<Address>, slots: nat, level: nat, limit: nat)
    requires FairCut(was, now, local, slots, level, limit)
    ensures WithinLimit(now, local, slots, limit)
  {
    if level == slots {
      forall a | a in now && a !in local
        ensures |now[a]| <= slots
      {
        assert SizesOf(now)[a] == Levelled(was, local, slots, level)[a];
      }
    }
  }

  lemma CappedWithin(was: Accounts, now: Accounts, local: set<Address>, beats: map<Address, nat>, limit: nat)
    requires QueueCapped(was, now, local, beats, limit)
    ensures WithinLimit(now, local, 0, limit)
  {
  }

  method AddressesOf(lists: ListsByAccount) returns (s: seq<Address>)
    ensures (forall a :: a in s <==> a in lists) && DistinctAddresses(s)
  {
    var todo := lists.Keys;
    s := [];
    while todo != {}
      invariant todo <= lists.Keys && DistinctAddresses(s) && forall a :: a in s <==> a in lists && a !in todo
      decreases todo
    {
      var a :| a in todo;
      s, todo := s + [a], todo - {a};
    }
  }

  /** Of the first `i` accounts, the queues of those chosen are gone. */
  ghost predicate Evicted(was: Accounts, now: Accounts, addrs: seq<Address>, i: nat, chosen: set<Address>) {
    i <= |addrs| && now == was - (set a | a in addrs[..i]) * chosen
  }

  lemma EvictedNone(was: Accounts, addrs: seq<Address>, chosen: set<Address>)
    ensures Evicted(was, was, addrs, 0, chosen)
  {
  }

  lemma EvictedNext(was: Accounts, mid: Accounts, now: Accounts, addrs: seq<Address>, i: nat, chosen: set<Address>)
    requires i < |addrs| && Evicted(was, mid, addrs, i, chosen)
    requires now == if addrs[i] in chosen then mid - {addrs[i]} else mid
    ensures Evicted(was, now, addrs, i + 1, chosen)
  {
    assert addrs[..i + 1] == addrs[..i] + [addrs[i]];
  }

  lemma EvictedAll(was: Accounts, now: Accounts, addrs: seq<Address>, chosen: set<Address>)
    requires Evicted(was, now, addrs, |addrs|, chosen) && forall a :: a in addrs <==> a in was
    ensures now.Keys == was.Keys - chosen && forall a :: a in now ==> now[a] == was[a]
  {
    assert addrs[..|addrs|] == addrs;
  }

  ghost predicate AccountSame(v: View, w: View, a: Address) {
    w.Pending(a) == v.Pending(a) && w.Queued(a) == v.Queued(a)
  }

  /** What promoting does to one account: of its queue, what is stale or unpayable is dropped, the run
      that starts at or below the next nonce becomes pending, and the rest stays, up to the cap. If
      anything was promoted, the next nonce follows it and the account has been heard from. */
  ghost predicate Promoted(s: Setting, l: Ledger, m: Ledger, a: Address) {
    exists ready, rest :: PromotedRun(s, l, m, a, ready, rest)
  }

  ghost predicate PromotedRun(s: Setting, l: Ledger, m: Ledger, a: Address, ready: seq<Tx>, rest: Items) {
    var payable := Affordable(false, From(l.view.Queued(a), s.head.Nonce(a)), s.head.Balance(a), s.maxGas);
    var start := NextNonce(l.nonces, s.head, a);
    && ReadyRun(ready, rest, payable, start)
    && m.view.Pending(a) == l.view.Pending(a) + (payable - rest.Keys)
    && (if a in l.locals then m.view.Queued(a) == rest else Capping(m.view.Queued(a), rest, s.config.accountQueue))
    && NextNonce(m.nonces, s.head, a) == (if ready == [] then start else AddWrap(ready[|ready| - 1].nonce, 1))
    && Beat(m.beats, a) == if ready == [] then Beat(l.beats, a) else s.now
  }

  /** How many transactions an account may have queued; a local one any number. */
  ghost function CapOf(s: Setting, l: Ledger, a: Address): Option<nat> {
    if a in l.locals then None else Some(s.config.accountQueue)
  }

  lemma PromotionPromotes(s: Setting, l: Ledger, m: Ledger, a: Address, ready: seq<Tx>, rest: Items)
    requires Promotion(l.view, m.view, a,
      Affordable(false, From(l.view.Queued(a), s.head.Nonce(a)), s.head.Balance(a), s.maxGas),
      NextNonce(l.nonces, s.head, a), ready, rest, CapOf(s, l, a))
    requires m.nonces == if ready == [] then l.nonces else l.nonces[a := AddWrap(ready[|ready| - 1].nonce, 1)]
    requires m.beats == (if ready == [] then l.beats else l.beats[a := s.now]) && m.locals == l.locals
    ensures Promoted(s, l, m, a) && OnlyOf(l, m, a)
  {
    var payable := Affordable(false, From(l.view.Queued(a), s.head.Nonce(a)), s.head.Balance(a), s.maxGas);
    hide Affordable, From, ReadyRun, Capping, OthersKept;
    var start := NextNonce(l.nonces, s.head, a);
    RunTakenSize(ready, rest, payable, start);
    PromotionOthers(l.view, m.view, a, payable, start, ready, rest, CapOf(s, l, a));
    hide Promotion;
    if ready != [] {
      OneEntry(l.nonces, a, AddWrap(ready[|ready| - 1].nonce, 1));
      OneEntry(l.beats, a, s.now);
    }
    assert PromotedRun(s, l, m, a, ready, rest);
  }

  lemma OneOf<T>(before: map<Address, T>, after: map<Address, T>, a: Address, all: set<Address>)
    requires after - {a} == before - {a} && a in all
    ensures after - all == before - all
  {
    assert after - all == after - {a} - all && before - all == before - {a} - all;
  }

  lemma OneEntry<T>(before: map<Address, T>, a: Address, value: T)
    ensures before[a := value] - {a} == before - {a}
  {
  }

  lemma PromotionOthers(v: View, w: View, a: Address, payable: Items, start: int, ready: seq<Tx>, rest: Items,
                        cap: Option<nat>)
    requires Promotion(v, w, a, payable, start, ready, rest, cap)
    requires ready == [] <==> payable - rest.Keys == map[]
    ensures OthersKept(v, w, a) && ReadyRun(ready, rest, payable, start)
    ensures w.Pending(a) == v.Pending(a) + (payable - rest.Keys)
    ensures if cap.None? then w.Queued(a) == rest else Capping(w.Queued(a), rest, cap.value)
  {
    hide ReadyRun, Capping;
  }

  /** Nothing but one account's entries differs. */
  ghost predicate OnlyOf(l: Ledger, m: Ledger, a: Address) {
    && OthersKept(l.view, m.view, a) && m.nonces - {a} == l.nonces - {a} && m.beats - {a} == l.beats - {a}
    && m.locals == l.locals
  }

  ghost predicate EntriesSame(s: Setting, l: Ledger, m: Ledger, a: Address) {
    && AccountSame(l.view, m.view, a) && NextNonce(m.nonces, s.head, a) == NextNonce(l.nonces, s.head, a)
    && Beat(m.beats, a) == Beat(l.beats, a)
  }

  lemma OnlyOfOthers(s: Setting, l: Ledger, m: Ledger, a: Address)
    requires OnlyOf(l, m, a)
    ensures forall b :: b != a ==> EntriesSame(s, l, m, b)
  {
    OthersAt(l.view, m.view, a);
    forall b | b != a
      ensures EntriesSame(s, l, m, b)
    {
      assert AccountSame(l.view, m.view, b);
      Elsewhere(l.nonces, m.nonces, a, b);
      Elsewhere(l.beats, m.beats, a, b);
    }
  }

  lemma Elsewhere<T>(before: map<Address, T>, after: map<Address, T>, a: Address, b: Address)
    requires after - {a} == before - {a} && b != a
    ensures (b in after <==> b in before) && (b in after ==> after[b] == before[b])
  {
    assert b in after <==> b in after - {a};
    assert b in before <==> b in before - {a};
    assert b in before ==> (after - {a})[b] == (before - {a})[b];
  }

  /** One round of promotion: how things stand after promoting, and the level the pending lists
      are cut to then. */
  datatype Round = Round(promoted: Ledger, level: nat)

  ghost function NoRound(l: Ledger): Round {
    Round(l, 0)
  }

  /** A round of promotion: each of the accounts is promoted, then the pending lists are cut fairly and
      the queues from the most recently active account on, as far as the global limits demand. */
  ghost predicate Rounded(s: Setting, l: Ledger, r: Round, m: Ledger, accounts: Option<seq<Address>>) {
    var p := r.promoted;
    && ((accounts.Some? ==> DistinctAddresses(accounts.value)) ==> AllPromotedOf(s, l, p, accounts))
    && FairCut(p.view.pending, m.view.pending, l.locals, s.config.accountSlots, r.level, s.config.globalSlots)
    && SteppedBack(p.view.pending, m.view.pending, p.nonces, m.nonces, s.head)
    && QueueCapped(p.view.queue, m.view.queue, l.locals, p.beats, s.config.globalQueue)
    && m.beats == p.beats && m.locals == p.locals == l.locals
  }

  // ---------- stepping next nonces back ----------

  /** Lists have lost some transactions, and the next nonces of their accounts have been lowered to the
      least nonce lost, where they were higher. */
  ghost predicate SteppedBack(was: Accounts, now: Accounts, before: map<Address, uint64>, after: map<Address, uint64>,
                              head: ChainState) {
    forall a :: Sub(Of(now, a), Of(was, a)) && Lowest(NextNonce(before, head, a), NextNonce(after, head, a),
      Of(was, a).Keys - Of(now, a).Keys)
  }

  /** The least of some nonces and a first one. */
  ghost predicate Lowest(first: uint64, least: uint64, others: set<uint64>) {
    least <= first && (forall n :: n in others ==> least <= n) && (least == first || least in others)
  }

  lemma NoStepBack(lists: Accounts, nonces: map<Address, uint64>, head: ChainState)
    ensures SteppedBack(lists, lists, nonces, nonces, head)
  {
  }

  lemma StepsBack(was: Accounts, mid: Accounts, now: Accounts, before: map<Address, uint64>,
                  between: map<Address, uint64>, after: map<Address, uint64>, head: ChainState)
    requires SteppedBack(was, mid, before, between, head) && SteppedBack(mid, now, between, after, head)
    ensures SteppedBack(was, now, before, after, head)
  {
    forall a
      ensures Sub(Of(now, a), Of(was, a)) && Lowest(NextNonce(before, head, a), NextNonce(after, head, a),
        Of(was, a).Keys - Of(now, a).Keys)
    {
      assert Sub(Of(now, a), Of(mid, a)) && Sub(Of(mid, a), Of(was, a));
      assert Of(was, a).Keys - Of(now, a).Keys ==
        (Of(was, a).Keys - Of(mid, a).Keys) + (Of(mid, a).Keys - Of(now, a).Keys);
    }
  }

  // ---------- batches ----------

  /** A batch being taken in: the ledger before each transaction and at the end, what was removed to
      make room for each, the outcomes, and the round of promotion afterwards. */
  datatype Intake = Intake(trail: seq<Ledger>, drops: seq<seq<Tx>>, results: seq<AddResult>, round: Round)

  /** Each of the transactions is taken in where the one before it left the pool. */
  ghost predicate Additions(s: Setting, trail: seq<Ledger>, txs: seq<Tx>, local: bool, drops: seq<seq<Tx>>,
                            results: seq<AddResult>) {
    && |trail| == |txs| + 1 && |drops| == |results| == |txs|
    && forall i, j :: 0 <= i < |txs| && j == i + 1 ==>
      Addition(s, trail[i], trail[j], txs[i], local, drops[i], results[i])
  }

  lemma NoAdditions(s: Setting, l: Ledger, txs: seq<Tx>, local: bool)
    ensures Additions(s, [l], txs[..0], local, [], [])
  {
  }

  lemma AdditionsNext(s: Setting, trail: seq<Ledger>, m: Ledger, txs: seq<Tx>, local: bool, drops: seq<seq<Tx>>,
                      drop: seq<Tx>, results: seq<AddResult>, r: AddResult)
    requires var i := |results|;
      && i < |txs| && |trail| == i + 1 && Additions(s, trail, txs[..i], local, drops, results)
      && Addition(s, trail[i], m, txs[i], local, drop, r)
    ensures Additions(s, trail + [m], txs[..|results| + 1], local, drops + [drop], results + [r])
  {
    hide Addition;
  }

  ghost predicate AllPartitions(trail: seq<Ledger>) {
    forall i :: 0 <= i < |trail| ==> Partition(trail[i].view)
  }

  /** Half-way through a batch. */
  ghost predicate TakingIn(s: Setting, l: Ledger, trail: seq<Ledger>, m: Ledger, txs: seq<Tx>, local: bool,
                           drops: seq<seq<Tx>>, results: seq<AddResult>, i: nat) {
    && i <= |txs| && |results| == i && |trail| == i + 1 && trail[0] == l && trail[i] == m
    && Additions(s, trail, txs[..i], local, drops, results) && AllPartitions(trail)
  }

  lemma TakingInStarts(s: Setting, l: Ledger, txs: seq<Tx>, local: bool)
    requires Partition(l.view)
    ensures TakingIn(s, l, [l], l, txs, local, [], [], 0)
  {
    hide Partition;
    NoAdditions(s, l, txs, local);
  }

  lemma TakingInNext(s: Setting, l: Ledger, trail: seq<Ledger>, before: Ledger, m: Ledger, txs: seq<Tx>, local: bool,
                     drops: seq<seq<Tx>>, drop: seq<Tx>, results: seq<AddResult>, r: AddResult)
    requires TakingIn(s, l, trail, before, txs, local, drops, results, |results|) && |results| < |txs|
    requires Addition(s, before, m, txs[|results|], local, drop, r) && Partition(m.view)
    ensures TakingIn(s, l, trail + [m], m, txs, local, drops + [drop], results + [r], |results| + 1)
  {
    hide Addition, Additions, AllPartitions, Partition;
    AdditionsNext(s, trail, m, txs, local, drops, drop, results, r);
    AllPartitionsNext(trail, m);
  }

  lemma AllPartitionsNext(trail: seq<Ledger>, m: Ledger)
    requires AllPartitions(trail) && Partition(m.view)
    ensures AllPartitions(trail + [m])
  {
    hide Partition;
  }

  /** What taking in a batch comes to: every addition in turn, then a round of promotion for the senders
      of what was added without replacing anything, if there are any. */
  ghost predicate TakenIn(s: Setting, l: Ledger, m: Ledger, txs: seq<Tx>, local: bool, k: Intake) {
    && Additions(s, k.trail, txs, local, k.drops, k.results) && k.trail[0] == l && AllPartitions(k.trail)
    && var newcomers := Newcomers(txs, k.results);
      && DistinctAddresses(newcomers)
      && if newcomers == [] then m == k.trail[|txs|] else Rounded(s, k.trail[|txs|], k.round, m, Some(newcomers))
  }

  lemma BatchTaken(s: Setting, l: Ledger, trail: seq<Ledger>, m: Ledger, txs: seq<Tx>, local: bool,
                   drops: seq<seq<Tx>>, results: seq<AddResult>)
    requires TakingIn(s, l, trail, m, txs, local, drops, results, |txs|)
    ensures |trail| == |txs| + 1 && trail[0] == l && trail[|txs|] == m && |results| == |txs|
    ensures Additions(s, trail, txs, local, drops, results) && AllPartitions(trail)
  {
    assert txs[..|txs|] == txs;
    hide Additions;
  }

  lemma {:induction false} NewcomersOnce(txs: seq<Tx>, results: seq<AddResult>)
    requires |txs| == |results|
    ensures DistinctAddresses(Newcomers(txs, results))
  {
    if txs != [] {
      NewcomersOnce(txs[..|txs| - 1], results[..|txs| - 1]);
    }
  }

  // ---------- a new head ----------

  /** Adapting to a new head: the batch taken in again, and the ledger after it and after demotion,
      with the next nonces set. */
  datatype Change = Change(intake: Intake, taken: Ledger, noted: Ledger, round: Round)

  /** What adapting to a new head comes to. Next nonces are forgotten; the batch is taken in as if remote;
      every account is demoted; next nonces follow the pending lists; all queues get a round of promotion. */
  ghost predicate Adapted(s: Setting, l: Ledger, m: Ledger, txs: seq<Tx>, c: Change) {
    && TakenIn(s, l.(nonces := map[]), c.taken, txs, false, c.intake) && Rearranged(s, c.taken, c.noted)
    && Rounded(s, c.noted, c.round, m, None) && Partition(c.taken.view) && Partition(c.noted.view)
  }

  lemma {:induction false} AdditionsCome(s: Setting, trail: seq<Ledger>, txs: seq<Tx>, local: bool,
                                         drops: seq<seq<Tx>>, results: seq<AddResult>)
    requires Additions(s, trail, txs, local, drops, results)
    ensures |results| == |txs| && |trail| == |txs| + 1 && Comes(trail[0].view, trail[|txs|].view, Set(txs))
  {
    hide Addition;
    if txs != [] {
      var n := |txs| - 1;
      AdditionsCome(s, trail[..n + 1], txs[..n], local, drops[..n], results[..n]);
      AdditionComes(s, trail[n], trail[n + 1], txs[n], local, drops[n], results[n]);
      assert Set(txs) == Set(txs[..n]) + {txs[n]} by {
        assert txs == txs[..n] + [txs[n]];
      }
    }
  }

  lemma MovedOrKept(pending: Items, queued: Items, payable: Items, rest: Items, nowPending: Items, nowQueued: Items)
    requires Sub(payable, queued) && Sub(nowQueued, rest) && Sub(rest, payable)
    requires nowPending == pending + (payable - rest.Keys)
    ensures forall tx :: Holds(nowPending, tx) || Holds(nowQueued, tx) ==> Holds(pending, tx) || Holds(queued, tx)
  {
  }

  lemma PromotedRunComes(s: Setting, l: Ledger, m: Ledger, a: Address, ready: seq<Tx>, rest: Items)
    requires PromotedRun(s, l, m, a, ready, rest)
    ensures forall tx :: Holds(m.view.Pending(a), tx) || Holds(m.view.Queued(a), tx) ==>
      Holds(l.view.Pending(a), tx) || Holds(l.view.Queued(a), tx)
  {
    var queued := l.view.Queued(a);
    var payable := Affordable(false, From(queued, s.head.Nonce(a)), s.head.Balance(a), s.maxGas);
    RunTaken(ready, rest, payable, NextNonce(l.nonces, s.head, a));
    PayableIs(From(queued, s.head.Nonce(a)), s.head.Balance(a), s.maxGas);
    CutIs(false, queued, s.head.Nonce(a));
    hide ReadyRun, Affordable, Accepted, OverLimits, From, Below, NextNonce, Holds;
    if a !in l.locals {
      PrefixIsSub(m.view.Queued(a), rest);
    }
    hide Prefix;
    MovedOrKept(l.view.Pending(a), queued, payable, rest, m.view.Pending(a), m.view.Queued(a));
  }

  lemma PromotedComes(s: Setting, l: Ledger, m: Ledger, accounts: Option<seq<Address>>)
    requires AllPromotedOf(s, l, m, accounts)
    ensures Comes(l.view, m.view, {})
  {
    hide PromotedRun;
    forall tx | m.view.Listed(tx)
      ensures l.view.Listed(tx)
    {
      var a := tx.sender;
      if accounts.None? || a in accounts.value {
        assert Promoted(s, l, m, a);
        var ready, rest :| PromotedRun(s, l, m, a, ready, rest);
        PromotedRunComes(s, l, m, a, ready, rest);
      } else {
        assert EntriesSame(s, l, m, a);
      }
    }
  }

  /** Neither promotion nor the global limits bring anything in. */
  lemma RoundedComes(s: Setting, l: Ledger, r: Round, m: Ledger, accounts: Option<seq<Address>>)
    requires Rounded(s, l, r, m, accounts) && (accounts.Some? ==> DistinctAddresses(accounts.value))
    ensures Comes(l.view, m.view, {})
  {
    hide AllPromotedOf, DistinctAddresses, LatestFirst, Total;
    PromotedComes(s, l, r.promoted, accounts);
    forall tx | m.view.Listed(tx)
      ensures r.promoted.view.Listed(tx)
    {
      assert Sub(Of(m.view.pending, tx.sender), Of(r.promoted.view.pending, tx.sender));
    }
  }

  lemma DemotedComes(v: View, w: View, head: ChainState, gas: int)
    requires AllDemotedOf(v, w, None, head, gas)
    ensures Comes(v, w, {})
  {
    forall tx | w.Listed(tx)
      ensures v.Listed(tx)
    {
      assert Demoted(v, w, tx.sender, head.Nonce(tx.sender), head.Balance(tx.sender), gas);
    }
  }

  /** A batch brings in nothing but its own transactions. */
  lemma TakenInComes(s: Setting, l: Ledger, m: Ledger, txs: seq<Tx>, local: bool, k: Intake)
    requires TakenIn(s, l, m, txs, local, k)
    ensures Comes(l.view, m.view, Set(txs))
  {
    hide Additions, Rounded, DistinctAddresses;
    AdditionsCome(s, k.trail, txs, local, k.drops, k.results);
    if Newcomers(txs, k.results) != [] {
      RoundedComes(s, k.trail[|txs|], k.round, m, Some(Newcomers(txs, k.results)));
    }
  }

  /** Whatever the pool holds after adapting to a new head, it held before or was given back. */
  lemma AdaptedComes(s: Setting, l: Ledger, m: Ledger, txs: seq<Tx>, c: Change)
    requires Adapted(s, l, m, txs, c)
    ensures Comes(l.view, m.view, Set(txs))
  {
    hide TakenIn, Rounded, AllDemotedOf, AllRunnable;
    TakenInComes(s, l.(nonces := map[]), c.taken, txs, false, c.intake);
    DemotedComes(c.taken.view, c.noted.view, s.head, s.maxGas);
    RoundedComes(s, c.noted, c.round, m, None);
  }

  /** Every account is demoted, and next nonces follow the pending lists that are left. */
  ghost predicate Rearranged(s: Setting, l: Ledger, m: Ledger) {
    var lists := m.view.pending;
    && AllDemotedOf(l.view, m.view, None, s.head, s.maxGas) && AllRunnable(lists, [], s.head, s.maxGas)
    && Forgotten(l.view.pending, lists, l.beats, m.beats) && m.locals == l.locals
    && Noted(m.nonces, lists, []) && m.nonces - lists.Keys == l.nonces - lists.Keys
  }

  /** Accounts whose pending lists have been closed are as if never heard from. */
  ghost predicate Forgotten(was: Accounts, now: Accounts, before: map<Address, nat>, after: map<Address, nat>) {
    now.Keys <= was.Keys && after == before - (was.Keys - now.Keys)
  }

  lemma NothingForgotten(lists: Accounts, beats: map<Address, nat>)
    ensures Forgotten(lists, lists, beats, beats)
  {
  }

  /** Closing one account's list if it is empty. */
  lemma ForgottenClosed(v: View, x: View, a: Address, beats: map<Address, nat>)
    requires OthersKept(v, x, a) && a in v.pending && a in x.pending
    ensures Forgotten(v.pending, Keep(x.pending, a, x.Pending(a)), beats,
      if x.Pending(a) == map[] then beats - {a} else beats)
  {
    forall b
      ensures b in x.pending <==> b in v.pending
    {
      assert b != a ==> (b in v.pending - {a} <==> b in x.pending - {a});
    }
    assert x.pending.Keys == v.pending.Keys;
    assert v.pending.Keys - (x.pending - {a}).Keys == {a};
    assert v.pending.Keys - x.pending.Keys == {} && beats - {} == beats;
  }

  lemma ForgottenOn(was: Accounts, mid: Accounts, now: Accounts, before: map<Address, nat>,
                    between: map<Address, nat>, after: map<Address, nat>)
    requires Forgotten(was, mid, before, between) && Forgotten(mid, now, between, after)
    ensures Forgotten(was, now, before, after)
  {
    assert was.Keys - now.Keys == (was.Keys - mid.Keys) + (mid.Keys - now.Keys);
  }

  /** The senders of the transactions added without replacing another, each once. */
  function Newcomers(txs: seq<Tx>, results: seq<AddResult>): seq<Address>
    requires |txs| == |results|
  {
    if txs == [] then []
    else
      var n := |txs| - 1;
      var before := Newcomers(txs[..n], results[..n]);
      if results[n] == Added(false) && txs[n].sender !in before then before + [txs[n].sender] else before
  }

  /** Every account looked at is promoted, all the others are as they were. */
  ghost predicate AllPromotedOf(s: Setting, l: Ledger, m: Ledger, done: Option<seq<Address>>) {
    forall a :: if done.None? || a in done.value then Promoted(s, l, m, a) else EntriesSame(s, l, m, a)
  }

  /** After the first `i` accounts, none of which may come twice. */
  ghost predicate Promoting(s: Setting, l: Ledger, m: Ledger, addrs: seq<Address>, i: nat) {
    i <= |addrs| && m.locals == l.locals && (DistinctAddresses(addrs) ==> AllPromotedOf(s, l, m, Some(addrs[..i])))
  }

  lemma PromotingStart(s: Setting, l: Ledger, addrs: seq<Address>)
    ensures Promoting(s, l, l, addrs, 0)
  {
  }

  lemma PromotingNext(s: Setting, l0: Ledger, l: Ledger, m: Ledger, addrs: seq<Address>, i: nat)
    requires i < |addrs| && Promoting(s, l0, l, addrs, i) && OnlyOf(l, m, addrs[i]) && Promoted(s, l, m, addrs[i])
    ensures Promoting(s, l0, m, addrs, i + 1)
  {
    if DistinctAddresses(addrs) {
      OnlyOfOthers(s, l, m, addrs[i]);
      NotYetSeen(addrs, i);
      assert forall a :: a in addrs[..i + 1] <==> a in addrs[..i] || a == addrs[i];
      hide Promoted, EntriesSame, DistinctAddresses;
      forall a ensures if a in addrs[..i + 1] then Promoted(s, l0, m, a) else EntriesSame(s, l0, m, a) {
        PromotingAt(s, l0, l, m, addrs, i, a);
      }
    }
  }

  lemma NotYetSeen(addrs: seq<Address>, i: nat)
    requires i < |addrs| && DistinctAddresses(addrs)
    ensures addrs[i] !in addrs[..i]
  {
  }

  /** One account, whether it is its turn, it has had it or it is still to have it. */
  lemma PromotingAt(s: Setting, l0: Ledger, l: Ledger, m: Ledger, addrs: seq<Address>, i: nat, a: Address)
    requires i < |addrs| && addrs[i] !in addrs[..i]
    requires l0.locals == l.locals && AllPromotedOf(s, l0, l, Some(addrs[..i]))
    requires if a == addrs[i] then Promoted(s, l, m, a) else EntriesSame(s, l, m, a)
    ensures if a in addrs[..i] || a == addrs[i] then Promoted(s, l0, m, a) else EntriesSame(s, l0, m, a)
  {
    hide Promoted;
    if a == addrs[i] {
      assert EntriesSame(s, l0, l, a);
      PromotedBetween(s, l0, l, m, m, a);
    } else if a in addrs[..i] {
      assert Promoted(s, l0, l, a);
      PromotedBetween(s, l0, l0, l, m, a);
    } else {
      assert EntriesSame(s, l0, l, a);
    }
  }

  lemma PromotedBetween(s: Setting, l0: Ledger, l: Ledger, m: Ledger, m1: Ledger, a: Address)
    requires EntriesSame(s, l0, l, a) && EntriesSame(s, m, m1, a) && Promoted(s, l, m, a) && l0.locals == l.locals
    ensures Promoted(s, l0, m1, a)
  {
    hide PromotedRun, EntriesSame;
    var ready, rest :| PromotedRun(s, l, m, a, ready, rest);
    PromotedRunBetween(s, l0, l, m, m1, a, ready, rest);
  }

  lemma PromotedRunBetween(s: Setting, l0: Ledger, l: Ledger, m: Ledger, m1: Ledger, a: Address, ready: seq<Tx>,
                           rest: Items)
    requires EntriesSame(s, l0, l, a) && EntriesSame(s, m, m1, a) && l0.locals == l.locals
    requires PromotedRun(s, l, m, a, ready, rest)
    ensures PromotedRun(s, l0, m1, a, ready, rest)
  {
    hide ReadyRun, Affordable, From, Capping, NextNonce, Beat, AddWrap, Of;
  }

  lemma PromotedEnd(s: Setting, l: Ledger, m: Ledger, accounts: Option<seq<Address>>, addrs: seq<Address>)
    requires accounts.Some? ==> addrs == accounts.value
    requires accounts.None? ==> DistinctAddresses(addrs) && forall a :: a in l.view.queue ==> a in addrs
    requires Promoting(s, l, m, addrs, |addrs|)
    ensures DistinctAddresses(addrs) ==> AllPromotedOf(s, l, m, accounts)
  {
    assert addrs[..|addrs|] == addrs;
    hide DistinctAddresses, Promoted;
    if DistinctAddresses(addrs) && accounts.None? {
      forall a ensures Promoted(s, l, m, a) {
        if a !in addrs { NothingPromoted(s, l, m, a); }
      }
    }
  }

  lemma NothingPromoted(s: Setting, l: Ledger, m: Ledger, a: Address)
    requires EntriesSame(s, l, m, a) && l.view.Queued(a) == map[]
    ensures Promoted(s, l, m, a)
  {
    assert PromotedRun(s, l, m, a, [], map[]);
  }

  /** What demoting does to one account: of its pending list, what is stale or unpayable is dropped,
      what follows something unpayable is queued, and so is all the rest if it misses the next nonce. */
  ghost predicate Demoted(v: View, w: View, a: Address, nonce: int, balance: int, gas: int) {
    var live := From(v.Pending(a), nonce);
    var within := Affordable(true, live, balance, gas);
    && w.Pending(a) == (if nonce in within then within else map[])
    && w.Queued(a) == v.Queued(a) + Stranded(live, balance, gas) + if nonce in within then map[] else within
  }

  lemma DemotedSteps(v: View, u: View, w: View, x: View, a: Address, nonce: int, balance: int, gas: int)
    requires u.Pending(a) == From(v.Pending(a), nonce) && u.Queued(a) == v.Queued(a)
    requires Demotion(u, w, a, Affordable(true, u.Pending(a), balance, gas), Stranded(u.Pending(a), balance, gas))
    requires x.Pending(a) == if nonce in w.Pending(a) then w.Pending(a) else map[]
    requires x.Queued(a) == w.Queued(a) + if nonce in w.Pending(a) then map[] else w.Pending(a)
    ensures Demoted(v, x, a, nonce, balance, gas)
  {
  }

  /** Every account looked at is demoted, all the others are as they were. */
  ghost predicate AllDemotedOf(v: View, w: View, done: Option<seq<Address>>, head: ChainState, gas: int) {
    forall a :: if done.None? || a in done.value then Demoted(v, w, a, head.Nonce(a), head.Balance(a), gas)
                else AccountSame(v, w, a)
  }

  lemma DemotedStart(v: View, head: ChainState, gas: int)
    ensures AllDemotedOf(v, v, Some([]), head, gas)
  {
  }

  lemma DemotedNext(v0: View, v: View, w: View, addrs: seq<Address>, i: nat, head: ChainState, gas: int)
    requires i < |addrs| && DistinctAddresses(addrs) && AllDemotedOf(v0, v, Some(addrs[..i]), head, gas)
    requires OthersKept(v, w, addrs[i])
    requires Demoted(v, w, addrs[i], head.Nonce(addrs[i]), head.Balance(addrs[i]), gas)
    ensures AllDemotedOf(v0, w, Some(addrs[..i + 1]), head, gas)
  {
    OthersAt(v, w, addrs[i]);
    assert addrs[..i + 1] == addrs[..i] + [addrs[i]];
    assert addrs[i] !in addrs[..i] && AccountSame(v0, v, addrs[i]);
    hide OthersKept, Stranded, Affordable, From, Demoted;
    forall a ensures if a in addrs[..i + 1] then Demoted(v0, w, a, head.Nonce(a), head.Balance(a), gas)
                     else AccountSame(v0, w, a) {
      if a == addrs[i] {
        DemotedBefore(v0, v, w, a, head.Nonce(a), head.Balance(a), gas);
      } else if a in addrs[..i] {
        DemotedClosed(v0, v, w, a, head.Nonce(a), head.Balance(a), gas);
      } else {
        assert AccountSame(v0, v, a) && AccountSame(v, w, a);
      }
    }
  }

  lemma DemotedSkip(v0: View, v: View, addrs: seq<Address>, i: nat, head: ChainState, gas: int)
    requires i < |addrs| && DistinctAddresses(addrs) && AllDemotedOf(v0, v, Some(addrs[..i]), head, gas)
    requires addrs[i] !in v.pending
    ensures AllDemotedOf(v0, v, Some(addrs[..i + 1]), head, gas)
  {
    assert addrs[..i + 1] == addrs[..i] + [addrs[i]];
    assert AccountSame(v0, v, addrs[i]);
    NothingDemoted(v0, v, addrs[i], head.Nonce(addrs[i]), head.Balance(addrs[i]), gas);
    hide Demoted;
  }

  lemma DemotedEnd(v0: View, w: View, addrs: seq<Address>, head: ChainState, gas: int)
    requires AllDemotedOf(v0, w, Some(addrs[..|addrs|]), head, gas) && forall a :: a in v0.pending ==> a in addrs
    ensures AllDemotedOf(v0, w, None, head, gas)
  {
    assert addrs[..|addrs|] == addrs;
    forall a ensures Demoted(v0, w, a, head.Nonce(a), head.Balance(a), gas) {
      if a !in addrs { NothingDemoted(v0, w, a, head.Nonce(a), head.Balance(a), gas); }
    }
  }

  lemma OthersAt(v: View, w: View, a: Address)
    requires OthersKept(v, w, a)
    ensures forall b :: b != a ==> AccountSame(v, w, b)
  {
    forall b | b != a ensures AccountSame(v, w, b) {
      assert b in w.pending <==> b in w.pending - {a};
      assert b in v.pending <==> b in v.pending - {a};
      assert b in v.pending ==> (w.pending - {a})[b] == (v.pending - {a})[b];
    }
  }

  lemma DemotedClosed(v: View, x: View, y: View, a: Address, nonce: int, balance: int, gas: int)
    requires Demoted(v, x, a, nonce, balance, gas) && AccountSame(x, y, a)
    ensures Demoted(v, y, a, nonce, balance, gas)
  {
  }

  lemma DemotedBefore(v0: View, v: View, w: View, a: Address, nonce: int, balance: int, gas: int)
    requires AccountSame(v0, v, a) && Demoted(v, w, a, nonce, balance, gas)
    ensures Demoted(v0, w, a, nonce, balance, gas)
  {
  }

  lemma NothingDemoted(v: View, w: View, a: Address, nonce: int, balance: int, gas: int)
    requires AccountSame(v, w, a) && v.Pending(a) == map[]
    ensures Demoted(v, w, a, nonce, balance, gas)
  {
  }

  /** Pending transactions that start with the account's next nonce and are within its means. */
  ghost predicate Runnable(items: Items, nonce: uint64, balance: int, gas: int) {
    items != map[] ==> nonce in items && forall n :: n in items ==> nonce <= n && !OverLimits(balance, gas)(items[n])
  }

  lemma FromFront(items: Items, t: int)
    ensures forall n :: n in From(items, t) ==> t <= n
  {
  }

  lemma NonceFront(items: Items, nonce: uint64, balance: int, gas: int)
    requires forall n :: n in items ==> nonce <= n
    ensures nonce in Affordable(true, items, balance, gas) ==> Runnable(Affordable(true, items, balance, gas),
      nonce, balance, gas)
    ensures Runnable(map[], nonce, balance, gas)
  {
  }

  /** Within the limits, but after something that is not. */
  ghost function Stranded(items: Items, balance: int, gas: int): Items {
    Rejected(OverLimits(balance, gas), items) - Affordable(true, items, balance, gas).Keys
  }

  /** One account's pending list is cut down to kept, moved goes to its queue, the rest is dropped. */
  ghost predicate Demotion(v: View, w: View, a: Address, kept: Items, moved: Items) {
    && w.pending == v.pending[a := kept]
    && w.queue == if moved == map[] then v.queue else v.queue[a := v.Queued(a) + moved]
  }

  ghost predicate OthersKept(v: View, w: View, a: Address) {
    w.pending - {a} == v.pending - {a} && forall b :: b != a ==> w.Queued(b) == v.Queued(b)
  }

  lemma EnumeratesValues(txs: seq<Tx>, items: Items)
    requires Enumerates(txs, items)
    ensures Set(txs) == items.Values
  {
    forall t | t in items.Values
      ensures t in txs
    {
      var n :| n in items && items[n] == t;
    }
  }

  /** What filtering a pending list takes off it: the unpayable and, apart from them, the stranded. */
  lemma FilterParts(v: View, a: Address, balance: int, gas: int, drops: seq<Tx>)
    requires Partition(v) && v.limbo == {}
    requires Enumerates(drops, Accepted(OverLimits(balance, gas), v.Pending(a)))
    ensures var items := v.Pending(a);
      var kept, moved := Affordable(true, items, balance, gas), Stranded(items, balance, gas);
      var u := Forget(Take(v, true, a, kept), Set(drops));
      && Partition(Take(v, true, a, kept)) && Set(drops) <= Take(v, true, a, kept).limbo
      && u.limbo == moved.Values && Movable(u, a, moved)
  {
    var items := v.Pending(a);
    var kept, moved := Affordable(true, items, balance, gas), Stranded(items, balance, gas);
    var over := Accepted(OverLimits(balance, gas), items);
    EnumeratesValues(drops, over);
    TakenMovable(v, true, a, kept, moved);
    assert AccountOk(v, a);
    hide Partition;
    SplitGone(a, items, kept, over, moved);
    var w := Take(v, true, a, kept);
    assert w.limbo == Gone(items, kept);
  }

  lemma SplitGone(a: Address, items: Items, kept: Items, over: Items, moved: Items)
    requires OwnedBy(a, items) && Sub(over, items) && Sub(moved, items)
    requires over.Keys !! moved.Keys && over.Keys + moved.Keys == items.Keys - kept.Keys
    ensures Gone(items, kept) == over.Values + moved.Values && over.Values !! moved.Values
  {
    forall t
      ensures t in over.Values <==> Holds(over, t)
      ensures t in moved.Values <==> Holds(moved, t)
      ensures t in Gone(items, kept) <==> Holds(items, t) && t.nonce !in kept
    {
      GoneIs(a, items, kept, t);
      if t in over.Values {
        var n :| n in over && over[n] == t;
      }
      if t in moved.Values {
        var n :| n in moved && moved[n] == t;
      }
    }
  }

  lemma FilterDone(v: View, u: View, txs: set<Tx>, a: Address, kept: Items, moved: Items)
    requires Tidy(v) && u == Forget(Take(v, true, a, kept), txs) && u.limbo == moved.Values
    ensures Demotion(v, Move(u, false, a, moved), a, kept, moved) && Tidy(Move(u, false, a, moved))
  {
  }

  lemma DemotionKeeps(v: View, w: View, a: Address, kept: Items, moved: Items)
    requires Demotion(v, w, a, kept, moved)
    ensures OthersKept(v, w, a) && w.Pending(a) == kept && a in w.pending
  {
  }

  lemma DemotionQueues(v: View, w: View, a: Address, kept: Items, moved: Items)
    requires Demotion(v, w, a, kept, moved)
    ensures w.Queued(a) == v.Queued(a) + moved
  {
  }

  lemma OthersTwice(v: View, u: View, w: View, x: View, a: Address)
    requires OthersKept(v, u, a) && OthersKept(u, w, a) && (x == w || OthersKept(w, x, a))
    ensures OthersKept(v, x, a)
  {
  }

  lemma ClosedKeeps(v: View, w: View, a: Address)
    requires OthersKept(v, w, a) && Tidy(w)
    ensures var u := w.WithLists(true, Keep(w.Lists(true), a, Of(w.Lists(true), a)));
      OthersKept(v, u, a) && Tidy(u) && u.Pending(a) == w.Pending(a) && (a in u.pending ==> u.pending[a] != map[])
  {
  }

  lemma EverythingGone(kept: Items, items: Items)
    requires kept == map[]
    ensures items - kept.Keys == items
  {
  }

  lemma AllDemoted(v: View, a: Address)
    requires Tidy(v)
    ensures var w := Move(Take(v, true, a, map[]), false, a, v.Pending(a));
      Demotion(v, w, a, map[], v.Pending(a)) && Tidy(w)
  {
    var none: Items := map[];
    MovedAll(v, true, a, none);
    assert v.Pending(a) - none.Keys == v.Pending(a);
  }

  lemma OthersSame(v: View, w: View, a: Address)
    requires OthersKept(v, w, a)
    ensures forall b :: b in w.pending && b != a ==> b in v.pending && w.pending[b] == v.pending[b]
  {
    forall b | b in w.pending && b != a
      ensures b in v.pending && w.pending[b] == v.pending[b]
    {
      assert b in w.pending - {a};
    }
  }

  /** Removing a transaction leaves no empty queue behind and takes just that one off the lookup. */
  lemma RemovalTidy(v: View, tx: Tx)
    requires Partition(v) && Tidy(v)
    ensures tx in v.all ==> Tidy(Removal(v, tx)) && Removal(v, tx).all == v.all - {tx}
  {
    hide Partition;
    if tx in v.all {
      LiveIsListed(v, tx);
      if tx.nonce in v.Pending(tx.sender) {
        RemovePending(v, tx);
      } else {
        RemoveQueued(v, tx);
      }
    }
  }

  /** The nonce after the highest one, as a uint64. */
  ghost predicate FollowsLast(nonce: uint64, items: Items) {
    exists last: uint64 :: last in items && nonce == AddWrap(last, 1) && forall n :: n in items ==> n <= last
  }

  /** The noted nonces follow the pending lists, except for the accounts still to be looked at. */
  ghost predicate Noted(nonces: map<Address, uint64>, lists: Accounts, todo: seq<Address>) {
    forall a :: a in lists && a !in todo ==> a in nonces && FollowsLast(nonces[a], lists[a])
  }

  lemma NotedStart(nonces: map<Address, uint64>, lists: Accounts, addrs: seq<Address>)
    requires forall a :: a in lists ==> a in addrs
    ensures Noted(nonces, lists, addrs[0..])
  {
    assert addrs[0..] == addrs;
  }

  lemma NotedNext(nonces: map<Address, uint64>, lists: Accounts, addrs: seq<Address>, i: nat, nonce: uint64)
    requires i < |addrs| && Noted(nonces, lists, addrs[i..])
    requires addrs[i] in lists && FollowsLast(nonce, lists[addrs[i]])
    ensures Noted(nonces[addrs[i] := nonce], lists, addrs[i + 1..])
  {
    hide FollowsLast;
    assert addrs[i..] == [addrs[i]] + addrs[i + 1..];
  }

  /** Every pending list, except those still to be looked at, is non-empty, starts with its account's
      next nonce and is within its means. */
  ghost predicate AllRunnable(lists: Accounts, todo: seq<Address>, head: ChainState, gas: int) {
    forall a :: a in lists && a !in todo ==>
      lists[a] != map[] && Runnable(lists[a], head.Nonce(a), head.Balance(a), gas)
  }

  lemma RunnableStart(lists: Accounts, addrs: seq<Address>, head: ChainState, gas: int)
    requires forall a :: a in lists ==> a in addrs
    ensures AllRunnable(lists, addrs[0..], head, gas)
  {
    assert addrs[0..] == addrs;
  }

  lemma RunnableNext(v: View, w: View, addrs: seq<Address>, i: nat, head: ChainState, gas: int)
    requires i < |addrs| && AllRunnable(v.pending, addrs[i..], head, gas) && OthersKept(v, w, addrs[i])
    requires addrs[i] in w.pending ==> w.pending[addrs[i]] != map[]
    requires Runnable(w.Pending(addrs[i]), head.Nonce(addrs[i]), head.Balance(addrs[i]), gas)
    ensures AllRunnable(w.pending, addrs[i + 1..], head, gas)
  {
    hide Runnable;
    OthersSame(v, w, addrs[i]);
    assert addrs[i..] == [addrs[i]] + addrs[i + 1..];
  }

  lemma RunnableSkip(lists: Accounts, addrs: seq<Address>, i: nat, head: ChainState, gas: int)
    requires i < |addrs| && AllRunnable(lists, addrs[i..], head, gas) && addrs[i] !in lists
    ensures AllRunnable(lists, addrs[i + 1..], head, gas)
  {
    hide Runnable;
    assert addrs[i..] == [addrs[i]] + addrs[i + 1..];
  }

  lemma RunnableTidy(lists: Accounts, head: ChainState, gas: int)
    requires AllRunnable(lists, [], head, gas)
    ensures NoneEmpty(lists)
  {
    hide Runnable;
  }

  lemma LastFollowed(txs: seq<Tx>, items: Items)
    requires Lists(txs, items) && items != map[]
    ensures txs != [] && FollowsLast(AddWrap(txs[|txs| - 1].nonce, 1), items)
  {
    ListsLength(txs, items);
    LastIsGreatest(txs, items);
  }

  lemma PlaceTidy(v: View, tx: Tx)
    requires Tidy(v)
    ensures forall strict :: Tidy(Place(v, strict, tx))
  {
    forall strict
      ensures Tidy(Place(v, strict, tx))
    {
      assert tx.nonce in v.Queued(tx.sender)[tx.nonce := tx];
    }
  }

  lemma PendingElsewhere(v: View, tx: Tx)
    requires Partition(v)
    ensures tx.nonce in v.Pending(tx.sender) ==> tx.nonce !in v.Queued(tx.sender)
    ensures tx.sender !in v.pending ==> tx.nonce !in v.Pending(tx.sender)
  {
    assert AccountOk(v, tx.sender);
  }

  ghost predicate Capping(kept: Items, items: Items, threshold: nat) {
    Prefix(kept, items) && |kept| == if |items| <= threshold then |items| else threshold
  }

  ghost predicate Mine(list: TxList, a: Address, strict: bool)
    reads list, list.txs
  {
    list.Valid() && list.strict == strict && list.txs.owner == Owner(a, strict)
  }

  ghost predicate Owned(lists: ListsByAccount, strict: bool, repr: set<object>)
    reads repr
  {
    forall a :: a in lists ==> lists[a] in repr && lists[a].txs in repr && Mine(lists[a], a, strict)
  }

  ghost function Contents(lists: ListsByAccount, repr: set<object>): Accounts
    reads repr
  {
    map a | a in lists :: if lists[a].txs in repr then lists[a].txs.items else map[]
  }

  /** Sets one account's list apart from the others. */
  lemma Split(lists: ListsByAccount, strict: bool, repr: set<object>, a: Address)
    requires a in lists && Owned(lists, strict, repr)
    ensures lists[a] in repr && lists[a].txs in repr
    ensures lists[a].Valid() && lists[a].strict == strict && lists[a].txs.owner == Owner(a, strict)
    ensures Owned(lists - {a}, strict, repr - {lists[a], lists[a].txs})
    ensures Contents(lists, repr) == Contents(lists - {a}, repr - {lists[a], lists[a].txs})[a := lists[a].txs.items]
  {
    hide TxList.Valid;
    forall b | b in lists && b != a
      ensures lists[b] != lists[a] && lists[b].txs != lists[a].txs
    {
      assert Mine(lists[b], b, strict) && Mine(lists[a], a, strict);
    }
  }

  lemma Rejoin(lists: ListsByAccount, strict: bool, repr: set<object>, a: Address)
    requires a in lists && lists[a] in repr && lists[a].txs in repr
    requires lists[a].Valid() && lists[a].strict == strict && lists[a].txs.owner == Owner(a, strict)
    requires Owned(lists - {a}, strict, repr - {lists[a], lists[a].txs})
    ensures Owned(lists, strict, repr)
    ensures Contents(lists, repr) == Contents(lists - {a}, repr - {lists[a], lists[a].txs})[a := lists[a].txs.items]
  {
    hide TxList.Valid;
    var rest := lists - {a};
    assert forall b :: b in lists && b != a ==> b in rest;
    assert forall b :: b in rest ==>
      rest[b] == lists[b] && Mine(rest[b], b, strict) && lists[b].txs in repr - {lists[a], lists[a].txs};
  }

  lemma Opened(lists: ListsByAccount, strict: bool, repr: set<object>, a: Address, list: TxList)
    requires a !in lists && Owned(lists, strict, repr) && list !in repr && list.txs !in repr
    requires list.Valid() && list.strict == strict && list.txs.owner == Owner(a, strict)
    ensures Owned(lists[a := list], strict, repr + {list, list.txs})
    ensures Contents(lists[a := list], repr + {list, list.txs}) == Contents(lists, repr)[a := list.txs.items]
  {
    hide TxList.Valid;
    assert forall b :: b in lists ==> lists[b].txs in repr && Mine(lists[b], b, strict);
  }

  lemma Closed(lists: ListsByAccount, strict: bool, repr: set<object>, a: Address)
    requires Owned(lists, strict, repr)
    ensures Owned(lists - {a}, strict, repr)
    ensures Contents(lists - {a}, repr) == Contents(lists, repr) - {a}
  {
    hide Mine;
  }

  lemma MoveNothing(v: View, strict: bool, a: Address, txs: seq<Tx>)
    ensures Move(v, strict, a, map[]) == v && Enumerates(txs[..0], map[])
  {
  }

  lemma MoveNext(v: View, strict: bool, a: Address, txs: seq<Tx>, i: nat, items: Items, moved: Items)
    requires i < |txs| && Enumerates(txs, items) && Enumerates(txs[..i], moved) && Movable(v, a, items)
    requires Partition(v)
    ensures txs[i].signed && txs[i].sender == a && txs[i] in Move(v, strict, a, moved).limbo
    ensures txs[i].nonce !in Of(Move(v, strict, a, moved).Lists(!strict), a)
    ensures txs[i].nonce !in Of(Move(v, strict, a, moved).Lists(strict), a)
    ensures Place(Move(v, strict, a, moved), strict, txs[i]) == Move(v, strict, a, moved[txs[i].nonce := txs[i]])
    ensures Enumerates(txs[..i + 1], moved[txs[i].nonce := txs[i]])
  {
    var tx := txs[i];
    assert items[tx.nonce] == tx && tx in items.Values;
    assert TxOk(v, tx);
    hide Partition;
    forall n | n in moved
      ensures n != tx.nonce && moved[n] != tx
    {
      assert moved[n] in txs[..i];
    }
    assert txs[..i + 1] == txs[..i] + [tx];
    AppendAny(txs[..i], moved, tx);
    MoveOne(v, strict, a, moved, tx);
  }

  lemma EnumeratesUnique(txs: seq<Tx>, a: Items, b: Items)
    requires Enumerates(txs, a) && Enumerates(txs, b)
    ensures a == b
  {
    forall n | n in a
      ensures n in b && b[n] == a[n]
    {
      assert a[n] in txs;
    }
    forall n | n in b
      ensures n in a
    {
      assert b[n] in txs;
    }
  }
}
