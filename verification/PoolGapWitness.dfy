/** A pool in which a new head leaves a gap: the chain went back, and only one of the two transactions it took
    back was given back to the pool. */
module PoolGapWitnesses {
  import opened Types
  import opened NonceMap
  import opened TxSortedMaps
  import opened TxLists
  import opened PoolViews
  import opened FairShares
  import opened QueueCaps
  import opened IntrinsicGases
  import opened Ledgers
  import opened TxPools
  import opened PoolSurvivals
  import opened PoolOutcomes
  import opened PoolGaps
  import opened Sums

  const SENDER := Address(0)

  function Paid(nonce: uint64): Tx {
    Tx(SENDER, true, nonce, 1, 21000, 0, Some(SENDER), [], 0)
  }

  /** The sender can pay for any one of them; its nonce on the chain is as given. */
  function At(nonce: uint64): Setting {
    Settings(Config(false, 1, 10, 16, 4096, 64, 1024, 0), ChainState(map[SENDER := nonce], map[SENDER := 21000]),
             21000, 1, false, 0)
  }

  function Last(): Items {
    map[5 := Paid(5)]
  }

  function First(): Items {
    map[3 := Paid(3)]
  }

  ghost function Lists(pending: Items, queue: Accounts, all: set<Tx>, nonces: map<Address, uint64>): Ledger {
    Entries(Views(map[SENDER := pending], queue, all, {}), nonces, map[SENDER := 0], {})
  }

  /** Nonce 5 is the next of the chain and pending. */
  ghost function Before(): Ledger {
    Lists(Last(), map[], {Paid(5)}, map[SENDER := 6])
  }

  ghost function Reset(): Ledger {
    Lists(Last(), map[], {Paid(5)}, map[])
  }

  ghost function Joined(): Ledger {
    Lists(Last(), map[SENDER := First()], {Paid(3), Paid(5)}, map[])
  }

  ghost function Both(next: uint64): Ledger {
    Lists(First() + Last(), map[], {Paid(3), Paid(5)}, map[SENDER := next])
  }

  lemma Partitions()
    ensures Partition(Before().view) && Partition(Reset().view) && Partition(Joined().view)
    ensures forall n: uint64 :: Partition(Both(n).view)
  {
    LastPartition();
    JoinedPartition();
    BothPartition();
    hide Partition;
  }

  lemma LastPartition()
    ensures Partition(Before().view) && Before().view == Reset().view
  {
  }

  lemma JoinedPartition()
    ensures Partition(Joined().view)
  {
  }

  lemma BothPartition()
    ensures forall n: uint64 :: Partition(Both(n).view)
  {
  }

  lemma BothSame()
    ensures AllPromotedOf(At(3), Both(6), Both(6), None) && Both(6).view.queue == map[] && Both(6).locals == {}
    ensures Both(6).view.pending.Keys == {SENDER} && |Both(6).view.pending[SENDER]| <= 2
  {
    hide Promoted;
    forall a
      ensures Promoted(At(3), Both(6), Both(6), a)
    {
      NothingPromoted(At(3), Both(6), Both(6), a);
    }
  }

  lemma AddedFirst()
    ensures Addition(At(3), Reset(), Joined(), Paid(3), false, [], Added(false))
  {
    var s, l, tx := At(3), Reset(), Paid(3);
    Partitions();
    assert ExactGas(tx.data, tx.to.None?, s.homestead) == 21000;
    assert Verdict(s, tx, false).None?;
    hide Partition, ExactGas;
    assert !Full(s.config, l.view);
    NoRemovals(l, s.head);
    assert l.view.Queued(SENDER) == map[];
    assert Place(l.view, false, tx) == Joined().view;
  }

  lemma TotalSmall(lists: Accounts)
    requires lists == map[] || (lists.Keys == {SENDER} && |lists[SENDER]| <= 2)
    ensures Total(lists) <= 2
  {
    if lists == map[] {
      assert SizesOf(lists) == map[];
    } else {
      var none: Amounts := map[];
      SumUpdate(none, SENDER, |lists[SENDER]|);
      assert SizesOf(lists) == none[SENDER := |lists[SENDER]|];
    }
  }

  /** Nothing is over the global limits. */
  lemma WithinRound(l: Ledger, p: Ledger, accounts: Option<seq<Address>>)
    requires AllPromotedOf(At(3), l, p, accounts) && p.locals == l.locals == {}
    requires p.view.queue == map[] && p.view.pending.Keys == {SENDER} && |p.view.pending[SENDER]| <= 2
    ensures Rounded(At(3), l, Round(p, 16), p, accounts)
  {
    TotalSmall(p.view.pending);
    TotalSmall(p.view.queue);
    hide Total, AllPromotedOf, Levelled;
    CutNothing(p.view.pending, {}, 16, 16);
    NoStepBack(p.view.pending, p.nonces, At(3).head);
    NothingCapped(p.view.queue, {}, p.beats, 1024);
  }

  lemma FirstReady()
    ensures Affordable(false, From(First(), 3), 21000, 21000) == First()
    ensures ReadyRun([Paid(3)], map[], First(), 3)
  {
    assert Below(First(), 4) == First() && From(First(), 4) == map[];
  }

  lemma PromotedFirst()
    ensures AllPromotedOf(At(3), Joined(), Both(4), Some([SENDER]))
  {
    FirstPromoted();
    hide Promoted;
    assert forall a :: a != SENDER ==> EntriesSame(At(3), Joined(), Both(4), a);
  }

  lemma FirstPromoted()
    ensures Promoted(At(3), Joined(), Both(4), SENDER)
  {
    var none: Items := map[];
    FirstReady();
    BothEntries();
    assert First() - none.Keys == First() && Capping(none, none, 64);
    hide Affordable, From, ReadyRun, Joined, Both, First, Capping;
    assert PromotedRun(At(3), Joined(), Both(4), SENDER, [Paid(3)], none);
  }

  lemma BothEntries()
    ensures var l, p := Joined(), Both(4);
      && l.view.Queued(SENDER) == First() && p.view.Queued(SENDER) == map[] && l.locals == {}
      && p.view.Pending(SENDER) == l.view.Pending(SENDER) + First()
      && NextNonce(l.nonces, At(3).head, SENDER) == 3 && NextNonce(p.nonces, At(3).head, SENDER) == 4
      && p.beats == map[SENDER := 0]
  {
  }

  lemma AddedInTurn()
    ensures Additions(At(3), [Reset(), Joined()], [Paid(3)], false, [[]], [Added(false)])
    ensures AllPartitions([Reset(), Joined()])
  {
    AddedFirst();
    Partitions();
    hide Addition, Partition;
  }

  lemma OnlyNewcomer()
    ensures Newcomers([Paid(3)], [Added(false)]) == [SENDER]
  {
    var txs, results := [Paid(3)], [Added(false)];
    assert Newcomers(txs[..0], results[..0]) == [];
  }

  lemma Taken()
    ensures TakenIn(At(3), Reset(), Both(4), [Paid(3)], false,
      Intake([Reset(), Joined()], [[]], [Added(false)], Round(Both(4), 16)))
  {
    AddedInTurn();
    OnlyNewcomer();
    PromotedFirst();
    WithinRound(Joined(), Both(4), Some([SENDER]));
    hide Additions, AllPartitions, Rounded, AllPromotedOf, Newcomers, Joined, Both, Reset;
  }

  lemma RearrangedBoth()
    ensures Rearranged(At(3), Both(4), Both(6))
  {
    BothDemoted();
    BothNoted();
    hide AllDemotedOf, AllRunnable, Noted;
  }

  lemma BothDemoted()
    ensures AllDemotedOf(Both(4).view, Both(6).view, None, At(3).head, 21000)
  {
    var s, v := At(3), Both(4).view;
    hide Demoted;
    forall a
      ensures Demoted(v, v, a, s.head.Nonce(a), s.head.Balance(a), s.maxGas)
    {
      if a == SENDER {
        BothStay();
      } else {
        NothingDemoted(v, v, a, s.head.Nonce(a), s.head.Balance(a), s.maxGas);
      }
    }
  }

  lemma BothNoted()
    ensures AllRunnable(Both(6).view.pending, [], At(3).head, 21000)
    ensures Noted(Both(6).nonces, Both(6).view.pending, [])
  {
    assert FollowsLast(6, First() + Last()) by { assert 5 in First() + Last() && AddWrap(5, 1) == 6; }
  }

  /** Where nothing is stale or over the limits everything is kept. */
  lemma AllAffordable(items: Items, next: uint64, balance: int, gas: int)
    requires forall n: uint64 :: n in items ==> next <= n && items[n].Cost() <= balance && items[n].gas <= gas
    ensures From(items, next) == items
    ensures Affordable(true, items, balance, gas) == items && Stranded(items, balance, gas) == map[]
  {
  }

  lemma BothStay()
    ensures Demoted(Both(4).view, Both(4).view, SENDER, 3, 21000, 21000)
  {
    hide From, Affordable, Stranded;
    BothListed();
    AllAffordable(First() + Last(), 3, 21000, 21000);
    hide Both, First, Last;
  }

  lemma BothListed()
    ensures Both(4).view.Pending(SENDER) == First() + Last() && Both(4).view.Queued(SENDER) == map[]
    ensures 3 in First() + Last()
    ensures forall n: uint64 :: n in First() + Last() ==>
      3 <= n && (First() + Last())[n].Cost() <= 21000 && (First() + Last())[n].gas <= 21000
  {
  }

  lemma BeforeGapless()
    ensures Gapless(At(5), Before(), SENDER)
  {
    assert !Due(At(5), Paid(5));
    hide Due;
    assert GoesOn(Before().nonces, At(5).head, SENDER) == 6 && ChainNonce(At(5), SENDER) == 5;
    assert RunsTo(At(5), Before().view.Pending(SENDER), 6, 5, 6);
  }

  lemma GapAfter()
    ensures !Gapless(At(3), Both(6), SENDER)
  {
    var pending := Both(6).view.Pending(SENDER);
    assert 3 in pending && 4 !in pending && 5 in pending;
    hide Both, Fit, GoesOn;
  }

  lemma AdaptedBoth()
    ensures Adapted(At(3), Before(), Both(6), [Paid(3)],
      Change(Intake([Reset(), Joined()], [[]], [Added(false)], Round(Both(4), 16)), Both(4), Both(6),
             Round(Both(6), 16)))
  {
    assert Before().(nonces := map[]) == Reset();
    hide Partition, TakenIn, Rearranged, Rounded, AllPromotedOf, Both, Joined, Reset, Before;
    Partitions();
    Taken();
    RearrangedBoth();
    BothSame();
    WithinRound(Both(6), Both(6), None);
  }

  /** An account that was gapless before the chain went back is not afterwards. */
  lemma GapHappens() returns (l: Ledger, m: Ledger, txs: seq<Tx>, c: Change)
    ensures Partition(l.view) && Gapless(At(5), l, SENDER)
    ensures Adapted(At(3), l, m, txs, c) && !Gapless(At(3), m, SENDER)
  {
    l, m, txs := Before(), Both(6), [Paid(3)];
    c := Change(Intake([Reset(), Joined()], [[]], [Added(false)], Round(Both(4), 16)), Both(4), Both(6),
                Round(Both(6), 16));
    hide Partition, Gapless, Adapted;
    Partitions();
    BeforeGapless();
    AdaptedBoth();
    GapAfter();
  }
}
