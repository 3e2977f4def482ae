/** What the pool does not lose: a transaction of a local account goes only when it is stale or cannot be paid
    for, when it is replaced, or when it is removed by name. */
module PoolSurvivals {
  import opened Types
  import opened NonceMap
  import opened TxSortedMaps
  import opened TxLists
  import opened TxPriceds
  import opened PoolViews
  import opened FairShares
  import opened QueueCaps
  import opened Ledgers
  import opened TxPools

  /** Stale, or beyond its sender's means or the block's gas. */
  predicate Due(s: Setting, tx: Tx) {
    || (tx.sender in s.head.nonces && tx.nonce < s.head.nonces[tx.sender])
    || tx.gasPrice * tx.gas + tx.value > (if tx.sender in s.head.balances then s.head.balances[tx.sender] else 0)
    || tx.gas > s.maxGas
  }

  predicate SamePlace(x: Tx, y: Tx) {
    x.sender == y.sender && x.nonce == y.nonce
  }

  /** Removing a transaction unlists no other one. */
  lemma RemovalKeepsOthers(v: View, d: Tx, tx: Tx)
    requires Partition(v) && v.limbo == {} && d in v.all && tx != d && v.Listed(tx)
    ensures Removal(v, d).Listed(tx)
  {
    LiveIsListed(v, d);
    assert AccountOk(v, d.sender) && AccountOk(v, tx.sender);
    hide Partition;
    if tx.sender == d.sender {
      assert tx.nonce != d.nonce;
      hide OwnedBy;
      if d.nonce in v.Pending(d.sender) {
        CutKeepsOthers(v, d, tx);
      } else {
        assert Of(Removal(v, d).queue, d.sender) == v.Queued(d.sender) - {d.nonce};
      }
    } else {
      RemovalElsewhere(v, d, tx);
    }
  }

  lemma CutKeepsOthers(v: View, d: Tx, tx: Tx)
    requires d.nonce in v.Pending(d.sender) && v.Pending(d.sender).Keys !! v.Queued(d.sender).Keys
    requires tx.sender == d.sender && tx.nonce != d.nonce && v.Listed(tx)
    ensures Removal(v, d).Listed(tx)
  {
    var a, kept := d.sender, Below(v.Pending(d.sender), d.nonce);
    var rest := From(v.Pending(a), d.nonce + 1);
    var w := v.(pending := Keep(v.pending, a, kept), all := v.all - {d});
    RemovalIs(v, d);
    hide Removal;
    assert w.Pending(a) == kept && w.Queued(a) == v.Queued(a);
    assert Move(w, false, a, rest).Pending(a) == kept;
    assert Move(w, false, a, rest).Queued(a) == v.Queued(a) + rest;
  }

  lemma RemovalElsewhere(v: View, d: Tx, tx: Tx)
    requires tx.sender != d.sender && v.Listed(tx)
    ensures Removal(v, d).Listed(tx)
  {
    assert Removal(v, d).Pending(tx.sender) == v.Pending(tx.sender);
    assert Removal(v, d).Queued(tx.sender) == v.Queued(tx.sender);
  }

  lemma {:induction false} RemovalsElsewhere(l: Ledger, drop: seq<Tx>, head: ChainState, tx: Tx)
    requires l.view.Listed(tx) && forall d :: d in drop ==> d.sender != tx.sender
    ensures Removals(l, drop, head).view.Listed(tx)
  {
    if drop != [] {
      var m, last := Removals(l, drop[..|drop| - 1], head), drop[|drop| - 1];
      RemovalsElsewhere(l, drop[..|drop| - 1], head, tx);
      hide Removal;
      RemovalElsewhere(m.view, last, tx);
    }
  }

  lemma RemoteElsewhere(v: View, locals: set<Address>, d: Tx, a: Address)
    requires Partition(v) && d in v.all && Remote(d, locals) && a in locals
    ensures d.sender != a
  {
    assert TxOk(v, d) && AccountOk(v, d.sender);
  }

  lemma PlaceKeepsOthers(v: View, strict: bool, newcomer: Tx, tx: Tx)
    requires v.Listed(tx) && !SamePlace(newcomer, tx)
    ensures Place(v, strict, newcomer).Listed(tx)
  {
  }

  /** Taking in a transaction unlists none of a local account but the one it replaces. */
  lemma AdditionKeepsLocal(s: Setting, l: Ledger, m: Ledger, newcomer: Tx, local: bool, drop: seq<Tx>, r: AddResult,
                           tx: Tx)
    requires Addition(s, l, m, newcomer, local, drop, r) && Partition(l.view)
    requires l.view.Listed(tx) && tx.sender in l.locals
    ensures m.view.Listed(tx) || SamePlace(newcomer, tx)
  {
    hide Verdict, NoneCheaper, Full, Removals, Accepts, Partition;
    var u := Removals(l, drop, s.head);
    if m != l && !SamePlace(newcomer, tx) {
      forall d | d in drop
        ensures d.sender != tx.sender
      {
        RemoteElsewhere(l.view, l.locals, d, tx.sender);
      }
      RemovalsElsewhere(l, drop, s.head, tx);
      PlaceKeepsOthers(u.view, newcomer.nonce in u.view.Pending(newcomer.sender), newcomer, tx);
      hide Place;
    }
  }

  lemma {:induction false} AdditionsKeepLocal(s: Setting, trail: seq<Ledger>, txs: seq<Tx>, local: bool,
                                              drops: seq<seq<Tx>>, results: seq<AddResult>, tx: Tx)
    requires Additions(s, trail, txs, local, drops, results) && AllPartitions(trail)
    requires trail[0].view.Listed(tx) && tx.sender in trail[0].locals
    ensures |trail| == |txs| + 1 && tx.sender in trail[|txs|].locals
    ensures trail[|txs|].view.Listed(tx) || exists t :: t in txs && SamePlace(t, tx)
  {
    hide Addition, Partition;
    if txs != [] {
      var n := |txs| - 1;
      AdditionsKeepLocal(s, trail[..n + 1], txs[..n], local, drops[..n], results[..n], tx);
      AdditionComes(s, trail[n], trail[n + 1], txs[n], local, drops[n], results[n]);
      if trail[n].view.Listed(tx) {
        AdditionKeepsLocal(s, trail[n], trail[n + 1], txs[n], local, drops[n], results[n], tx);
      }
    }
  }

  lemma PayableKeeps(s: Setting, items: Items, tx: Tx)
    requires Holds(items, tx) && !Due(s, tx)
    ensures Holds(Affordable(false, From(items, s.head.Nonce(tx.sender)), s.head.Balance(tx.sender), s.maxGas), tx)
  {
  }

  /** Promotion unlists nothing of a local account that is not due. */
  lemma PromotionKeepsLocal(s: Setting, l: Ledger, m: Ledger, tx: Tx)
    requires Promoted(s, l, m, tx.sender) && AccountOk(l.view, tx.sender)
    requires l.view.Listed(tx) && tx.sender in l.locals && !Due(s, tx)
    ensures m.view.Listed(tx)
  {
    hide ReadyRun, Affordable, From, Below, Accepted, OverLimits, NextNonce, Capping, OwnedBy, Due, Holds;
    var a := tx.sender;
    var ready, rest :| PromotedRun(s, l, m, a, ready, rest);
    var queued := l.view.Queued(a);
    var payable := Affordable(false, From(queued, s.head.Nonce(a)), s.head.Balance(a), s.maxGas);
    RunTaken(ready, rest, payable, NextNonce(l.nonces, s.head, a));
    PayableIs(From(queued, s.head.Nonce(a)), s.head.Balance(a), s.maxGas);
    CutIs(false, queued, s.head.Nonce(a));
    if Holds(queued, tx) { PayableKeeps(s, queued, tx); }
    TakenKeeps(l.view.Pending(a), queued, payable, rest, m.view.Pending(a), tx);
  }

  lemma TakenKeeps(pending: Items, queued: Items, payable: Items, rest: Items, nowPending: Items, tx: Tx)
    requires pending.Keys !! queued.Keys && Sub(payable, queued) && Sub(rest, payable)
    requires nowPending == pending + (payable - rest.Keys) && (Holds(pending, tx) || Holds(payable, tx))
    ensures Holds(nowPending, tx) || Holds(rest, tx)
  {
  }

  /** Nor do the global limits. */
  lemma RoundKeepsLocal(s: Setting, l: Ledger, r: Round, m: Ledger, accounts: Option<seq<Address>>, tx: Tx)
    requires Rounded(s, l, r, m, accounts) && (accounts.Some? ==> DistinctAddresses(accounts.value))
    requires Partition(l.view) && l.view.Listed(tx) && tx.sender in l.locals && !Due(s, tx)
    ensures m.view.Listed(tx) && tx.sender in m.locals
  {
    var a, p := tx.sender, r.promoted;
    assert AccountOk(l.view, a);
    hide Partition, AccountOk, Promoted, DistinctAddresses, LatestFirst, Total, SteppedBack, Levelled, SizesOf, Due;
    if accounts.None? || a in accounts.value {
      PromotionKeepsLocal(s, l, p, tx);
    } else {
      assert EntriesSame(s, l, p, a);
    }
    assert Of(m.view.queue, a) == Of(p.view.queue, a);
    assert a in p.view.pending ==> !MayCut(p.view.pending, a, l.locals, s.config.accountSlots);
    assert Of(m.view.pending, a) == Of(p.view.pending, a);
  }

  lemma StrictKeeps(live: Items, balance: int, gas: int, tx: Tx)
    requires Holds(live, tx) && tx.Cost() <= balance && tx.gas <= gas
    ensures Holds(Affordable(true, live, balance, gas), tx) || Holds(Stranded(live, balance, gas), tx)
  {
  }

  lemma StrictIsSub(live: Items, balance: int, gas: int)
    ensures Sub(Affordable(true, live, balance, gas), live) && Sub(Stranded(live, balance, gas), live)
    ensures Affordable(true, live, balance, gas).Keys !! Stranded(live, balance, gas).Keys
  {
  }

  /** Demotion unlists nothing that is not due, of any account. */
  lemma DemotionKeeps(s: Setting, v: View, w: View, tx: Tx)
    requires var a := tx.sender;
      Demoted(v, w, a, s.head.Nonce(a), s.head.Balance(a), s.maxGas) && AccountOk(v, a)
    requires v.Listed(tx) && !Due(s, tx)
    ensures w.Listed(tx)
  {
    var a, nonce, balance := tx.sender, s.head.Nonce(tx.sender), s.head.Balance(tx.sender);
    var live := From(v.Pending(a), nonce);
    var within := Affordable(true, live, balance, s.maxGas);
    CutIs(true, v.Pending(a), nonce);
    StrictIsSub(live, balance, s.maxGas);
    if Holds(v.Pending(a), tx) {
      assert Holds(live, tx);
      StrictKeeps(live, balance, s.maxGas, tx);
    }
    hide Affordable, Stranded, From, Below, OwnedBy;
  }

  /** A batch unlists nothing of a local account but what is due or replaced. */
  lemma BatchKeepsLocal(s: Setting, l: Ledger, m: Ledger, txs: seq<Tx>, local: bool, k: Intake, tx: Tx)
    requires TakenIn(s, l, m, txs, local, k)
    requires l.view.Listed(tx) && tx.sender in l.locals && !Due(s, tx)
    ensures tx.sender in m.locals && (m.view.Listed(tx) || exists t :: t in txs && SamePlace(t, tx))
  {
    AdditionsKeepLocal(s, k.trail, txs, local, k.drops, k.results, tx);
    hide Additions, DistinctAddresses, Partition, Due;
    if Newcomers(txs, k.results) != [] {
      assert m.locals == k.trail[|txs|].locals;
      if k.trail[|txs|].view.Listed(tx) {
        RoundKeepsLocal(s, k.trail[|txs|], k.round, m, Some(Newcomers(txs, k.results)), tx);
      }
    }
  }

  /** Adapting to a new head unlists nothing of a local account but what is due at that head or replaced by
      something given back. */
  lemma AdaptationKeepsLocal(s: Setting, l: Ledger, m: Ledger, txs: seq<Tx>, c: Change, tx: Tx)
    requires Adapted(s, l, m, txs, c)
    requires l.view.Listed(tx) && tx.sender in l.locals && !Due(s, tx)
    ensures m.view.Listed(tx) || exists t :: t in txs && SamePlace(t, tx)
  {
    hide TakenIn, Rounded, AllRunnable, Demoted, Due;
    BatchKeepsLocal(s, l.(nonces := map[]), c.taken, txs, false, c.intake, tx);
    if c.taken.view.Listed(tx) {
      assert AccountOk(c.taken.view, tx.sender);
      hide Partition, AccountOk;
      DemotionKeeps(s, c.taken.view, c.noted.view, tx);
      RoundKeepsLocal(s, c.noted, c.round, m, None, tx);
    }
  }
}
