/** What the pool promises of pending transactions: from the nonce of the chain on, those of an account follow
    each other without a gap. */
module PoolGaps {
  import opened Types
  import opened NonceMap
  import opened TxLists
  import opened PoolViews
  import opened FairShares
  import opened QueueCaps
  import opened IntrinsicGases
  import opened Ledgers
  import opened TxPools
  import opened PoolSurvivals
  import opened PoolOutcomes

  function ChainNonce(s: Setting, a: Address): uint64 {
    if a in s.head.nonces then s.head.nonces[a] else 0
  }

  /** The pending nonces from that of the chain on are those below `end`. The account goes on at `end` or below,
      and nothing pending below where it goes on is due. */
  ghost predicate RunsTo(s: Setting, pending: Items, next: uint64, chain: uint64, end: int) {
    && chain <= end && next <= end
    && (forall n: uint64 :: chain <= n ==> (n in pending <==> n < end))
    && (forall n: uint64 :: chain <= n < next ==> Fit(s, pending, n))
  }

  ghost predicate Gapless(s: Setting, l: Ledger, a: Address) {
    exists end :: RunsTo(s, l.view.Pending(a), GoesOn(l.nonces, s.head, a), ChainNonce(s, a), end)
  }

  /** It is so of an account of which nothing is pending and no next nonce is held. */
  lemma NoneGapless(s: Setting, l: Ledger, a: Address)
    requires l.view.Pending(a) == map[] && a !in l.nonces
    ensures Gapless(s, l, a)
  {
    assert RunsTo(s, l.view.Pending(a), GoesOn(l.nonces, s.head, a), ChainNonce(s, a), ChainNonce(s, a));
  }

  /** What is the same before and after is gapless after if before. */
  lemma SameGapless(s: Setting, l: Ledger, m: Ledger, a: Address)
    requires Gapless(s, l, a) && m.view.Pending(a) == l.view.Pending(a)
    requires GoesOn(m.nonces, s.head, a) == GoesOn(l.nonces, s.head, a)
    ensures Gapless(s, m, a)
  {
  }

  /** Losing the highest nonces, and stepping back to the lowest lost, leaves no gap. */
  lemma CutGapless(s: Setting, l: Ledger, m: Ledger, a: Address, low: uint64)
    requires Gapless(s, l, a) && m.view.Pending(a) == Below(l.view.Pending(a), low)
    requires GoesOn(m.nonces, s.head, a) <= GoesOn(l.nonces, s.head, a) && GoesOn(m.nonces, s.head, a) <= low
    ensures Gapless(s, m, a)
  {
    hide GoesOn, Due;
    var chain := ChainNonce(s, a);
    var end :| RunsTo(s, l.view.Pending(a), GoesOn(l.nonces, s.head, a), chain, end);
    var cut := if low < chain then chain else if low < end then low else end;
    forall n: uint64 | n < low && Fit(s, l.view.Pending(a), n)
      ensures Fit(s, m.view.Pending(a), n)
    {
    }
    hide Fit;
    assert RunsTo(s, m.view.Pending(a), GoesOn(m.nonces, s.head, a), chain, cut);
  }

  // ---------- removals ----------

  lemma RemovalGapless(s: Setting, l: Ledger, d: Tx, a: Address)
    requires Gapless(s, l, a)
    ensures Gapless(s, RemovalOf(l, d, s.head), a)
  {
    var m := RemovalOf(l, d, s.head);
    RemovalPending(l.view, d, a);
    hide Gapless, Removal;
    if a == d.sender && d in l.view.all && d.nonce in l.view.Pending(a) {
      assert GoesOn(m.nonces, s.head, a) <= d.nonce;
      CutGapless(s, l, m, a, d.nonce);
    } else {
      SameGapless(s, l, m, a);
    }
  }

  lemma RemovalPending(v: View, d: Tx, a: Address)
    ensures Removal(v, d).Pending(a) ==
      if a == d.sender && d.nonce in v.Pending(a) then Below(v.Pending(a), d.nonce) else v.Pending(a)
  {
    if d.nonce in v.Pending(d.sender) {
      RemovalIs(v, d);
      hide Removal;
    }
  }

  lemma {:induction false} RemovalsGapless(s: Setting, l: Ledger, drop: seq<Tx>, a: Address)
    requires Gapless(s, l, a)
    ensures Gapless(s, Removals(l, drop, s.head), a)
  {
    hide Gapless, RemovalOf;
    if drop != [] {
      RemovalsGapless(s, l, drop[..|drop| - 1], a);
      RemovalGapless(s, Removals(l, drop[..|drop| - 1], s.head), drop[|drop| - 1], a);
    }
  }

  // ---------- taking in ----------

  /** Replacing a pending transaction by one that is not due. */
  lemma ReplacedGapless(s: Setting, l: Ledger, m: Ledger, tx: Tx, a: Address)
    requires Gapless(s, l, a) && !Due(s, tx) && tx.nonce in l.view.Pending(a)
    requires m.view.Pending(a) == l.view.Pending(a)[tx.nonce := tx]
    requires GoesOn(m.nonces, s.head, a) == GoesOn(l.nonces, s.head, a)
    ensures Gapless(s, m, a)
  {
    hide GoesOn, Due;
    var chain := ChainNonce(s, a);
    var end :| RunsTo(s, l.view.Pending(a), GoesOn(l.nonces, s.head, a), chain, end);
    forall n: uint64 | Fit(s, l.view.Pending(a), n)
      ensures Fit(s, m.view.Pending(a), n)
    {
    }
    hide Fit;
    assert RunsTo(s, m.view.Pending(a), GoesOn(m.nonces, s.head, a), chain, end);
  }

  lemma AdditionGapless(s: Setting, l: Ledger, m: Ledger, tx: Tx, local: bool, drop: seq<Tx>, r: AddResult, a: Address)
    requires Addition(s, l, m, tx, local, drop, r) && Gapless(s, l, a)
    ensures Gapless(s, m, a)
  {
    AdditionRefuses(s, l, m, tx, local, drop, r);
    hide Addition, Gapless, Admissible, Blocked, Due;
    if m != l {
      AdmissibleFits(s, l, tx, local);
      var u := Removals(l, drop, s.head);
      RemovalsGapless(s, l, drop, a);
      assert RoomMade(s, l, m, tx, local, drop, r);
      hide Removals, Cheapest, Full, Partition, Accepts;
      assert m.nonces == u.nonces;
      if a == tx.sender && m.view != u.view && tx.nonce in u.view.Pending(a) {
        PlacePending(u.view, true, tx, a);
        ReplacedGapless(s, u, m, tx, a);
      } else {
        PlacePending(u.view, tx.nonce in u.view.Pending(tx.sender), tx, a);
        SameGapless(s, u, m, a);
      }
    }
  }

  lemma AdmissibleFits(s: Setting, l: Ledger, tx: Tx, local: bool)
    requires Admissible(s, l, tx, local)
    ensures !Due(s, tx)
  {
    hide ExactGas;
  }

  lemma PlacePending(v: View, strict: bool, tx: Tx, a: Address)
    ensures Place(v, strict, tx).Pending(a) ==
      if strict && a == tx.sender then v.Pending(a)[tx.nonce := tx] else v.Pending(a)
  {
  }

  // ---------- promotion ----------

  /** In a gapless account what joins begins at the end of the run. */
  lemma JoinsAtEnd(s: Setting, l: Ledger, a: Address, end: int, n: uint64)
    requires RunsTo(s, l.view.Pending(a), GoesOn(l.nonces, s.head, a), ChainNonce(s, a), end)
    requires AccountOk(l.view, a) && Joins(s, l, a, n)
    ensures GoesOn(l.nonces, s.head, a) == end <= n
    ensures forall k: uint64 :: end <= k <= n ==> Joins(s, l, a, k)
  {
    var queued := l.view.Queued(a);
    hide Due, GoesOn;
    var first: uint64 :| Fit(s, queued, first) && first <= GoesOn(l.nonces, s.head, a)
      && first <= n && (forall k: uint64 :: first <= k <= n ==> Fit(s, queued, k))
      && (forall k: uint64 :: k < first ==> !Fit(s, queued, k));
    FitsFrom(s, queued, a, first);
    assert first !in l.view.Pending(a);
    hide Fit;
    forall k: uint64 | end <= k <= n
      ensures Joins(s, l, a, k)
    {
      assert Fit(s, queued, first);
    }
  }

  /** What an account has pending after promotion, told by nonces. */
  lemma PromotedNonces(s: Setting, l: Ledger, m: Ledger, a: Address, n: uint64)
    requires Promoted(s, l, m, a) && AccountOk(l.view, a)
    ensures n in m.view.Pending(a) <==> n in l.view.Pending(a) || Joins(s, l, a, n)
    ensures n in l.view.Pending(a) ==> n in m.view.Pending(a) && m.view.Pending(a)[n] == l.view.Pending(a)[n]
    ensures Joins(s, l, a, n) ==> Fit(s, m.view.Pending(a), n)
  {
    hide Joins, Promoted, Due;
    var payable, rest := PromotedTakes(s, l, m, a);
  }

  lemma PromotionGapless(s: Setting, l: Ledger, m: Ledger, a: Address)
    requires Promoted(s, l, m, a) && AccountOk(l.view, a) && Gapless(s, l, a)
    ensures Gapless(s, m, a)
  {
    hide Promoted, AccountOk, Joins, Fit, GoesOn;
    var chain, next := ChainNonce(s, a), GoesOn(l.nonces, s.head, a);
    var end :| RunsTo(s, l.view.Pending(a), next, chain, end);
    PromotionNotes(s, l, m, a);
    forall n: uint64
      ensures n in m.view.Pending(a) <==> n in l.view.Pending(a) || Joins(s, l, a, n)
      ensures n in l.view.Pending(a) ==> n in m.view.Pending(a) && m.view.Pending(a)[n] == l.view.Pending(a)[n]
      ensures Joins(s, l, a, n) ==> Fit(s, m.view.Pending(a), n)
    {
      PromotedNonces(s, l, m, a, n);
    }
    forall n: uint64 | n in l.view.Pending(a) && Fit(s, l.view.Pending(a), n)
      ensures Fit(s, m.view.Pending(a), n)
    {
      FitStays(s, l.view.Pending(a), m.view.Pending(a), n);
    }
    if last: uint64 :| GoesOnAfter(s, l, m, a, last) {
      forall n: uint64 | Joins(s, l, a, n)
        ensures next == end <= n
      {
        JoinsAtEnd(s, l, a, end, n);
      }
      JoinsAtEnd(s, l, a, end, last);
      assert RunsTo(s, m.view.Pending(a), GoesOn(m.nonces, s.head, a), chain, last + 1);
    } else {
      assert RunsTo(s, m.view.Pending(a), GoesOn(m.nonces, s.head, a), chain, end);
    }
  }

  lemma FitStays(s: Setting, x: Items, y: Items, n: uint64)
    requires Fit(s, x, n) && n in x && n in y && y[n] == x[n]
    ensures Fit(s, y, n)
  {
    hide Due;
  }

  // ---------- the global limits ----------

  lemma LowestLost(was: Items, now: Items, n: uint64) returns (low: uint64)
    requires n in was && n !in now
    ensures low in was && low !in now && forall k: uint64 :: k in was && k !in now ==> low <= k
  {
    low := 0;
    while !(low in was && low !in now)
      invariant low <= n && forall k: uint64 :: k in was && k !in now ==> low <= k
      decreases n - low
    {
      low := low + 1;
    }
  }

  lemma RoundGapless(s: Setting, l: Ledger, r: Round, m: Ledger, accounts: Option<seq<Address>>, a: Address)
    requires Rounded(s, l, r, m, accounts) && (accounts.Some? ==> DistinctAddresses(accounts.value))
    requires AccountOk(l.view, a) && Gapless(s, l, a)
    ensures Gapless(s, m, a)
  {
    hide Gapless, AccountOk, Promoted, DistinctAddresses, FairCut, QueueCapped, SteppedBack, GoesOn;
    var p := r.promoted;
    if accounts.None? || a in accounts.value {
      PromotionGapless(s, l, p, a);
    } else {
      EntriesGapless(s, l, p, a);
    }
    SharesGapless(s, p, m, l.locals, r.level, a);
  }

  lemma EntriesGapless(s: Setting, l: Ledger, m: Ledger, a: Address)
    requires Gapless(s, l, a) && EntriesSame(s, l, m, a)
    ensures Gapless(s, m, a)
  {
    SameGapless(s, l, m, a);
    hide Gapless;
  }

  lemma SharesGapless(s: Setting, p: Ledger, m: Ledger, locals: set<Address>, level: nat, a: Address)
    requires FairCut(p.view.pending, m.view.pending, locals, s.config.accountSlots, level, s.config.globalSlots)
    requires SteppedBack(p.view.pending, m.view.pending, p.nonces, m.nonces, s.head) && Gapless(s, p, a)
    ensures Gapless(s, m, a)
  {
    hide Gapless, FairCut, SteppedBack, GoesOn;
    var was, now := p.view.Pending(a), m.view.Pending(a);
    ShareLeft(p.view.pending, m.view.pending, locals, s.config.accountSlots, level, s.config.globalSlots, a);
    CutGoesOn(p.view.pending, m.view.pending, p.nonces, m.nonces, s.head, a);
    if n: uint64 :| n in was && n !in now {
      var low := LowestLost(was, now, n);
      assert now == Below(was, low);
      CutGapless(s, p, m, a, low);
    } else {
      assert now == was;
      SameGapless(s, p, m, a);
    }
  }

  // ---------- batches ----------

  lemma {:induction false} AdditionsGapless(s: Setting, trail: seq<Ledger>, txs: seq<Tx>, local: bool,
                                            drops: seq<seq<Tx>>, results: seq<AddResult>, a: Address)
    requires Additions(s, trail, txs, local, drops, results) && Gapless(s, trail[0], a)
    ensures |trail| == |txs| + 1 && Gapless(s, trail[|txs|], a)
  {
    hide Addition, Gapless;
    if txs != [] {
      var n := |txs| - 1;
      AdditionsGapless(s, trail[..n + 1], txs[..n], local, drops[..n], results[..n], a);
      AdditionGapless(s, trail[n], trail[n + 1], txs[n], local, drops[n], results[n], a);
    }
  }

  lemma BatchGapless(s: Setting, l: Ledger, m: Ledger, txs: seq<Tx>, local: bool, k: Intake, a: Address)
    requires TakenIn(s, l, m, txs, local, k) && Gapless(s, l, a)
    ensures Gapless(s, m, a)
  {
    AdditionsGapless(s, k.trail, txs, local, k.drops, k.results, a);
    assert Partition(k.trail[|txs|].view) && AccountOk(k.trail[|txs|].view, a);
    hide Additions, Gapless, Partition, AccountOk, Rounded, DistinctAddresses;
    if Newcomers(txs, k.results) != [] {
      RoundGapless(s, k.trail[|txs|], k.round, m, Some(Newcomers(txs, k.results)), a);
    }
  }

  // ---------- a new head ----------

  /** Without next nonces, as a new head finds it, an account is gapless exactly if from the nonce of the new chain
      on nothing is missing before something pending. */
  lemma ForgottenGapless(s: Setting, l: Ledger, a: Address)
    requires l.nonces == map[]
    ensures Gapless(s, l, a) <==>
      forall k: uint64, n: uint64 :: ChainNonce(s, a) <= k < n && n in l.view.Pending(a) ==> k in l.view.Pending(a)
  {
    var pending, chain := l.view.Pending(a), ChainNonce(s, a);
    assert GoesOn(l.nonces, s.head, a) == chain;
    hide Due, GoesOn;
    if forall k: uint64, n: uint64 :: chain <= k < n && n in pending ==> k in pending {
      var end := FirstMissing(pending, chain);
      assert RunsTo(s, pending, chain, chain, end);
    }
  }

  lemma FirstMissing(items: Items, chain: uint64) returns (end: int)
    ensures chain <= end <= TWO_64 && (forall n: uint64 :: chain <= n < end ==> n in items)
    ensures end < TWO_64 ==> end !in items
  {
    end := chain;
    while end < TWO_64 && end in items
      invariant chain <= end <= TWO_64 && forall n: uint64 :: chain <= n < end ==> n in items
      decreases TWO_64 - end
    {
      end := end + 1;
    }
  }

  /** An account's nonce on the chain that only rises leaves no gap behind. */
  lemma RisingGapless(s: Setting, t: Setting, l: Ledger, a: Address)
    requires Gapless(s, l, a) && ChainNonce(s, a) <= ChainNonce(t, a)
    ensures Gapless(t, l.(nonces := map[]), a)
  {
    ForgottenGapless(t, l.(nonces := map[]), a);
    hide GoesOn, Fit;
  }

  /** Demotion cuts a run where something is due, and the account goes on at its end. */
  lemma RearrangedGapless(s: Setting, l: Ledger, m: Ledger, a: Address)
    requires Rearranged(s, l, m) && AccountOk(l.view, a) && Gapless(s, l, a)
    ensures Gapless(s, m, a)
  {
    hide Rearranged, Due, GoesOn, Demoted, Alive, Fit, AccountOk;
    NotedGoesOn(s, l, m, a);
    RearrangedDemotes(s, l, m, a);
    var pending, chain := l.view.Pending(a), ChainNonce(s, a);
    var end :| RunsTo(s, pending, GoesOn(l.nonces, s.head, a), chain, end);
    forall n: uint64
      ensures n in m.view.Pending(a) <==> chain in pending && n in pending && Alive(s, pending, chain, n)
      ensures n in m.view.Pending(a) ==> m.view.Pending(a)[n] == pending[n]
    {
      DemotedNonces(s, l.view, m.view, a, n);
    }
    if m.view.Pending(a) == map[] {
      NoneAlive(s, pending, GoesOn(l.nonces, s.head, a), chain, end);
    } else {
      var last: uint64 :| last in m.view.Pending(a) && (forall n :: n in m.view.Pending(a) ==> n <= last)
        && GoesOn(m.nonces, s.head, a) == if last == 0xffff_ffff_ffff_ffff then 0 else last + 1;
      SomeAlive(s, pending, m.view.Pending(a), GoesOn(l.nonces, s.head, a), chain, end, last);
    }
    hide RunsTo;
  }

  lemma RearrangedDemotes(s: Setting, l: Ledger, m: Ledger, a: Address)
    requires Rearranged(s, l, m)
    ensures Demoted(l.view, m.view, a, s.head.Nonce(a), s.head.Balance(a), s.maxGas)
  {
    hide Demoted, AllRunnable, Forgotten, Noted;
  }

  /** If nothing stays the account goes on at the nonce of the chain or below. */
  lemma NoneAlive(s: Setting, pending: Items, next: uint64, chain: uint64, end: int)
    requires RunsTo(s, pending, next, chain, end)
    requires forall n: uint64 :: !(chain in pending && n in pending && Alive(s, pending, chain, n))
    ensures RunsTo(s, map[], next, chain, chain)
  {
    hide Due;
    assert chain < next ==> Fit(s, pending, chain);
    assert chain in pending && Fit(s, pending, chain) ==> Alive(s, pending, chain, chain);
  }

  /** What stays is a run up to the last that stays. */
  lemma SomeAlive(s: Setting, pending: Items, now: Items, next: uint64, chain: uint64, end: int, last: uint64)
    requires RunsTo(s, pending, next, chain, end)
    requires forall n: uint64 :: n in now <==> chain in pending && n in pending && Alive(s, pending, chain, n)
    requires forall n: uint64 :: n in now ==> now[n] == pending[n]
    requires last in now && forall n: uint64 :: n in now ==> n <= last
    ensures RunsTo(s, now, if last == 0xffff_ffff_ffff_ffff then 0 else last + 1, chain, last + 1)
  {
    hide Due;
    assert Alive(s, pending, chain, last);
    forall n: uint64 | chain <= n <= last
      ensures n in now && Fit(s, now, n)
    {
      assert Alive(s, pending, chain, n) && n in pending;
    }
  }

  /** What an account has pending after demotion, told by nonces. */
  lemma DemotedNonces(s: Setting, v: View, w: View, a: Address, n: uint64)
    requires Demoted(v, w, a, s.head.Nonce(a), s.head.Balance(a), s.maxGas) && AccountOk(v, a)
    ensures n in w.Pending(a) <==>
      ChainNonce(s, a) in v.Pending(a) && n in v.Pending(a) && Alive(s, v.Pending(a), ChainNonce(s, a), n)
    ensures n in w.Pending(a) ==> w.Pending(a)[n] == v.Pending(a)[n]
  {
    var pending, chain := v.Pending(a), ChainNonce(s, a);
    var live := From(pending, chain);
    if n in pending { AliveIs(s, pending, a, n); }
    if chain in pending { AliveIs(s, pending, a, chain); }
    StrictIsSub(live, s.head.Balance(a), s.maxGas);
    CutIs(true, pending, chain);
    hide Affordable, Stranded, From, Due, OwnedBy, Alive;
    if chain in pending { AliveFront(s, pending, chain, n); }
  }

  /** Adapting to a new head leaves no gap where there was none from the nonce of the new chain on. */
  lemma AdaptationGapless(s: Setting, l: Ledger, m: Ledger, txs: seq<Tx>, c: Change, a: Address)
    requires Adapted(s, l, m, txs, c)
    requires forall k: uint64, n: uint64 :: ChainNonce(s, a) <= k < n && n in l.view.Pending(a) ==>
      k in l.view.Pending(a)
    ensures Gapless(s, m, a)
  {
    var before := l.(nonces := map[]);
    ForgottenGapless(s, before, a);
    assert AccountOk(c.taken.view, a) && AccountOk(c.noted.view, a);
    hide Gapless, TakenIn, Rearranged, Rounded, Partition, AccountOk;
    BatchGapless(s, before, c.taken, txs, false, c.intake, a);
    RearrangedGapless(s, c.taken, c.noted, a);
    RoundGapless(s, c.noted, c.round, m, None, a);
  }

  // ---------- every run ----------

  /** What can happen to a pool. */
  datatype Event =
    | Batch(txs: seq<Tx>, local: bool, intake: Intake)
    | NewPrice(price: nat, drop: seq<Tx>)
    | Eviction
    | NewHead(head: ChainState, maxGas: uint64, txs: seq<Tx>, change: Change)
    | Tick(now: nat)

  datatype Pool = Pool(setting: Setting, ledger: Ledger)

  ghost predicate Step(p: Pool, e: Event, q: Pool) {
    var s, l, m := p.setting, p.ledger, q.ledger;
    match e
    case Batch(txs, local, intake) => q.setting == s && TakenIn(s, l, m, txs, local, intake)
    case NewPrice(price, drop) => q.setting == s.(gasPrice := price) && m == Removals(l, drop, s.head)
    case Eviction => q.setting == s && m.view.pending == l.view.pending && m.nonces == l.nonces
    case NewHead(head, maxGas, txs, change) =>
      q.setting == s.(head := head, maxGas := maxGas) && Adapted(q.setting, l, m, txs, change)
    case Tick(now) => q.setting == s.(now := now) && m == l
  }

  ghost predicate IsRun(run: seq<Pool>, events: seq<Event>) {
    && |run| == |events| + 1 && run[0].ledger.view.pending == map[] && run[0].ledger.nonces == map[]
    && forall i, j :: 0 <= i < |events| && j == i + 1 ==> Step(run[i], events[i], run[j])
  }

  lemma StepGapless(p: Pool, e: Event, q: Pool, a: Address)
    requires Step(p, e, q) && Gapless(p.setting, p.ledger, a)
    requires ChainNonce(p.setting, a) <= ChainNonce(q.setting, a)
    ensures Gapless(q.setting, q.ledger, a)
  {
    var s, l, m := p.setting, p.ledger, q.ledger;
    match e
    case Batch(txs, local, intake) =>
      hide Gapless, TakenIn;
      BatchGapless(s, l, m, txs, local, intake, a);
    case NewPrice(price, drop) =>
      hide Gapless, Removals;
      RemovalsGapless(s, l, drop, a);
      SettingGapless(s, q.setting, m, a);
    case Eviction =>
      SameGapless(s, l, m, a);
      hide Gapless;
    case NewHead(_, _, txs, change) =>
      hide Gapless, Adapted;
      RisingGapless(s, q.setting, l, a);
      ForgottenGapless(q.setting, l.(nonces := map[]), a);
      AdaptationGapless(q.setting, l, m, txs, change, a);
    case Tick(_) =>
      hide Gapless;
      SettingGapless(s, q.setting, m, a);
  }

  lemma SettingGapless(s: Setting, t: Setting, l: Ledger, a: Address)
    requires Gapless(s, l, a) && t.head == s.head && t.maxGas == s.maxGas
    ensures Gapless(t, l, a)
  {
    hide GoesOn;
    var end :| RunsTo(s, l.view.Pending(a), GoesOn(l.nonces, s.head, a), ChainNonce(s, a), end);
    assert forall n: uint64 :: Fit(s, l.view.Pending(a), n) ==> Fit(t, l.view.Pending(a), n);
    hide Fit;
    assert RunsTo(t, l.view.Pending(a), GoesOn(l.nonces, t.head, a), ChainNonce(t, a), end);
  }

  /** In every run of a pool, an account whose nonce on the chain never falls is gapless all along. */
  lemma {:induction false} RunGapless(run: seq<Pool>, events: seq<Event>, a: Address, i: nat)
    requires IsRun(run, events) && i < |run|
    requires forall j, k :: 0 <= j < i && k == j + 1 ==>
      ChainNonce(run[j].setting, a) <= ChainNonce(run[k].setting, a)
    ensures Gapless(run[i].setting, run[i].ledger, a)
  {
    hide Gapless, Step, ChainNonce;
    if i == 0 {
      NoneGapless(run[0].setting, run[0].ledger, a);
    } else {
      RunGapless(run, events, a, i - 1);
      StepGapless(run[i - 1], events[i - 1], run[i], a);
    }
  }

  /** In a gapless account a round of promotion always takes what is queued where the account goes on. */
  lemma GaplessPromotes(s: Setting, l: Ledger, r: Round, m: Ledger, accounts: Option<seq<Address>>, tx: Tx)
    requires Rounded(s, l, r, m, accounts) && (accounts.Some? ==> DistinctAddresses(accounts.value))
    requires accounts.None? || tx.sender in accounts.value
    requires Partition(l.view) && Gapless(s, l, tx.sender) && Holds(l.view.Queued(tx.sender), tx) && !Due(s, tx)
    requires tx.nonce == GoesOn(l.nonces, s.head, tx.sender)
    ensures Holds(r.promoted.view.Pending(tx.sender), tx)
  {
    var a, queued := tx.sender, l.view.Queued(tx.sender);
    assert AccountOk(l.view, a);
    RoundPromotes(s, l, r, m, accounts, tx);
    hide Rounded, Partition, DistinctAddresses, Due;
    forall k: uint64 | Fit(s, queued, k)
      ensures tx.nonce <= k
    {
      FitsFrom(s, queued, a, k);
    }
  }
}
