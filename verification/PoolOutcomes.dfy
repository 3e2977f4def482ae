/** What comes of the pool's operations for a transaction or an account, told by nonces, prices, balances
    and lists alone. */
module PoolOutcomes {
  import opened Types
  import opened NonceMap
  import opened TxSortedMaps
  import opened TxLists
  import opened TxPriceds
  import opened PoolViews
  import opened FairShares
  import opened QueueCaps
  import opened IntrinsicGases
  import opened Ledgers
  import opened TxPools
  import opened PoolSurvivals
  import opened Sums

  // ---------- taking in ----------

  /** Whether a transaction may be taken in at all. */
  predicate Admissible(s: Setting, l: Ledger, tx: Tx, local: bool) {
    && tx.size <= 32 * 1024 && 0 <= tx.value && tx.signed && tx.gas <= s.maxGas
    && (tx.sender in s.head.nonces ==> s.head.nonces[tx.sender] <= tx.nonce)
    && (local || tx.sender in l.locals || s.gasPrice <= tx.gasPrice)
    && tx.gasPrice * tx.gas + tx.value <= (if tx.sender in s.head.balances then s.head.balances[tx.sender] else 0)
    && ExactGas(tx.data, tx.to.None?, s.homestead) <= tx.gas
  }

  lemma VerdictAdmits(s: Setting, l: Ledger, tx: Tx, local: bool)
    ensures Verdict(s, tx, local || tx.sender in l.locals).None? <==> Admissible(s, l, tx, local)
    ensures Verdict(s, tx, local || tx.sender in l.locals) !in {Some(KnownTransaction), Some(ReplaceUnderpriced)}
  {
  }

  /** A full pool has no place for a remote transaction that is no dearer than any it holds. */
  ghost predicate Blocked(s: Setting, l: Ledger, tx: Tx, local: bool) {
    && |l.view.all| >= s.config.globalSlots + s.config.globalQueue
    && !local && tx.sender !in l.locals
    && l.view.all != {} && forall t :: t in l.view.all ==> tx.gasPrice <= t.gasPrice
  }

  /** A transaction that is known, not admissible or blocked changes nothing. */
  lemma AdditionRefuses(s: Setting, l: Ledger, m: Ledger, tx: Tx, local: bool, drop: seq<Tx>, r: AddResult)
    requires Addition(s, l, m, tx, local, drop, r)
    ensures r == Refused(KnownTransaction) <==> tx in l.view.all
    ensures tx in l.view.all || !Admissible(s, l, tx, local) || Blocked(s, l, tx, local) ==> r.Refused? && m == l
    ensures tx !in l.view.all && Admissible(s, l, tx, local) ==> (
      if Blocked(s, l, tx, local) then r == Refused(Underpriced) else RoomMade(s, l, m, tx, local, drop, r))
  {
    VerdictAdmits(s, l, tx, local);
    hide Verdict, Cheapest, Removals, Place, Accepts, Partition;
  }

  /** The room made in a full pool: remote transactions go, so many that one place is free or all of them,
      the cheapest first and of equally cheap ones those of the highest nonces. */
  lemma RoomMadeFor(s: Setting, l: Ledger, m: Ledger, tx: Tx, local: bool, drop: seq<Tx>, r: AddResult)
    requires RoomMade(s, l, m, tx, local, drop, r) && Partition(l.view)
    ensures var most := s.config.globalSlots + s.config.globalQueue;
      if |l.view.all| < most then drop == [] else
        && (forall d :: d in drop ==> d in l.view.all && d.sender !in l.locals)
        && (|drop| == |l.view.all| + 1 - most
            || (|drop| < |l.view.all| + 1 - most
                && forall t :: t in l.view.all && t.sender !in l.locals ==> t in drop))
        && forall d, t :: d in drop && t in l.view.all && t.sender !in l.locals && t !in drop ==>
          d.gasPrice < t.gasPrice || (d.gasPrice == t.gasPrice && t.nonce <= d.nonce)
  {
    hide Arrived;
    forall d | d in drop
      ensures d in l.view.all && d.sender !in l.locals
    {
      assert TxOk(l.view, d) && AccountOk(l.view, d.sender);
    }
    hide Partition;
  }

  /** What becomes of an admissible newcomer, given the lists once there is room: it replaces a transaction
      of its sender and nonce if it outbids it, in its list, and otherwise is refused; if there is none it
      is queued. */
  lemma NewcomerPlaced(s: Setting, l: Ledger, m: Ledger, tx: Tx, local: bool, drop: seq<Tx>, r: AddResult)
    requires RoomMade(s, l, m, tx, local, drop, r)
    ensures var u := Removals(l, drop, s.head).view;
      && (forall d :: u.Listed(d) && SamePlace(d, tx) ==>
            if Replaces(d, tx, s.config.priceBump)
            then r == Added(true) && (if Holds(u.Pending(tx.sender), d) then Holds(m.view.Pending(tx.sender), tx)
                                      else Holds(m.view.Queued(tx.sender), tx))
            else r == Refused(ReplaceUnderpriced) && m.view == u)
      && ((forall d :: u.Listed(d) ==> !SamePlace(d, tx)) ==>
            r == Added(false) && Holds(m.view.Queued(tx.sender), tx))
  {
    var u := Removals(l, drop, s.head).view;
    hide Removals, Full, Cheapest;
    assert AccountOk(u, tx.sender);
    hide Partition;
    forall d | u.Listed(d) && SamePlace(d, tx)
      ensures if Replaces(d, tx, s.config.priceBump)
              then r == Added(true) && (if Holds(u.Pending(tx.sender), d) then Holds(m.view.Pending(tx.sender), tx)
                                        else Holds(m.view.Queued(tx.sender), tx))
              else r == Refused(ReplaceUnderpriced) && m.view == u
    {
      OutbidsReplaces(d, tx, s.config.priceBump);
      hide Outbids, Replaces;
    }
    var pending, queued := u.Pending(tx.sender), u.Queued(tx.sender);
    if tx.nonce in pending { assert u.Listed(pending[tx.nonce]) && SamePlace(pending[tx.nonce], tx); }
    if tx.nonce in queued { assert u.Listed(queued[tx.nonce]) && SamePlace(queued[tx.nonce], tx); }
  }

  /** The newcomer displaces what it replaces and nothing else, and everything else stays where it was. */
  lemma NewcomerDisplaces(s: Setting, l: Ledger, m: Ledger, tx: Tx, local: bool, drop: seq<Tx>, r: AddResult, t: Tx)
    requires RoomMade(s, l, m, tx, local, drop, r) && r.Added? && t != tx
    ensures var u := Removals(l, drop, s.head).view;
      && (Holds(m.view.Pending(t.sender), t) <==> Holds(u.Pending(t.sender), t) && !SamePlace(t, tx))
      && (Holds(m.view.Queued(t.sender), t) <==> Holds(u.Queued(t.sender), t) && !SamePlace(t, tx))
  {
    var u := Removals(l, drop, s.head).view;
    hide Removals, Full, Cheapest, Accepts;
    assert AccountOk(u, tx.sender);
    hide Partition;
  }

  /** The sender of a local newcomer that did not replace a pending transaction is local from then on. */
  lemma NewcomerLocal(s: Setting, l: Ledger, m: Ledger, tx: Tx, local: bool, drop: seq<Tx>, r: AddResult)
    requires RoomMade(s, l, m, tx, local, drop, r)
    ensures m.locals == if local && r.Added? && Holds(m.view.Queued(tx.sender), tx) && tx.nonce !in
        Removals(l, drop, s.head).view.Pending(tx.sender) then l.locals + {tx.sender} else l.locals
    ensures r.Added? && local && !Holds(m.view.Pending(tx.sender), tx) ==> tx.sender in m.locals
  {
    RemovalsComes(l, drop, s.head);
    hide Removals, Full, Cheapest, Accepts, Partition;
  }

  /** With room to spare the outcome is about the lists as they were. */
  lemma RoomToSpare(s: Setting, l: Ledger, m: Ledger, tx: Tx, local: bool, drop: seq<Tx>, r: AddResult)
    requires RoomMade(s, l, m, tx, local, drop, r) && |l.view.all| < s.config.globalSlots + s.config.globalQueue
    ensures Removals(l, drop, s.head) == l && m.nonces == l.nonces && m.beats == l.beats
  {
  }

  /** The rule of replacement, in a pool with room to spare: a transaction of the same sender and nonce goes
      exactly if the newcomer replaces it; otherwise the newcomer is refused and nothing changes. */
  lemma ReplacementRule(s: Setting, l: Ledger, m: Ledger, tx: Tx, local: bool, drop: seq<Tx>, r: AddResult, d: Tx)
    requires Addition(s, l, m, tx, local, drop, r) && tx !in l.view.all && Admissible(s, l, tx, local)
    requires |l.view.all| < s.config.globalSlots + s.config.globalQueue && s.config.priceBump < 0x7fff_ffff_ffff_ff9c
    requires l.view.Listed(d) && d.sender == tx.sender && d.nonce == tx.nonce
    ensures if d.gasPrice < tx.gasPrice && d.gasPrice * (100 + s.config.priceBump) < 100 * (tx.gasPrice + 1)
      then r == Added(true) && !m.view.Listed(d) && m.view.Listed(tx)
      else r == Refused(ReplaceUnderpriced) && m == l
  {
    AdditionRefuses(s, l, m, tx, local, drop, r);
    RoomToSpare(s, l, m, tx, local, drop, r);
    NewcomerPlaced(s, l, m, tx, local, drop, r);
    hide Addition, Admissible, Blocked, Cheapest, Partition;
    if r.Added? && d != tx { NewcomerDisplaces(s, l, m, tx, local, drop, r, d); }
    hide Arrived, Removals;
    assert Replaces(d, tx, s.config.priceBump) <==>
      d.gasPrice < tx.gasPrice && d.gasPrice * (100 + s.config.priceBump) < 100 * (tx.gasPrice + 1);
  }

  // ---------- removal ----------

  /** Where an account goes on: with the next nonce the pool holds for it, or else with that of the chain. */
  function GoesOn(nonces: map<Address, uint64>, head: ChainState, a: Address): uint64 {
    if a in nonces then nonces[a] else if a in head.nonces then head.nonces[a] else 0
  }

  /** What removing a pending transaction does to its account: those before it stay, those after it are
      queued, the account goes on no later than with its nonce, and is forgotten if nothing stays. */
  lemma PendingRemoved(l: Ledger, d: Tx, head: ChainState, t: Tx)
    requires Partition(l.view) && l.view.limbo == {} && d in l.view.all && Holds(l.view.Pending(d.sender), d)
    requires t.sender == d.sender
    ensures var a, m := d.sender, RemovalOf(l, d, head);
      && (Holds(m.view.Pending(a), t) <==> Holds(l.view.Pending(a), t) && t.nonce < d.nonce)
      && (Holds(m.view.Queued(a), t) <==>
            Holds(l.view.Queued(a), t) || (Holds(l.view.Pending(a), t) && d.nonce < t.nonce))
      && GoesOn(m.nonces, head, a) == Min(GoesOn(l.nonces, head, a), d.nonce)
      && (m.view.Pending(a) == map[] ==> a !in m.beats) && (m.view.Pending(a) != map[] ==> m.beats == l.beats)
      && m.nonces - {a} == l.nonces - {a} && m.beats - {a} == l.beats - {a}
  {
    var a, kept := d.sender, Below(l.view.Pending(d.sender), d.nonce);
    var rest := From(l.view.Pending(a), d.nonce + 1);
    assert AccountOk(l.view, a);
    hide Partition;
    var w := l.view.(pending := Keep(l.view.pending, a, kept), all := l.view.all - {d});
    RemovalIs(l.view, d);
    hide Removal;
    assert w.Pending(a) == kept && w.Queued(a) == l.view.Queued(a);
    assert Move(w, false, a, rest).Pending(a) == kept;
    assert Move(w, false, a, rest).Queued(a) == l.view.Queued(a) + rest;
  }

  /** Removing a queued one takes it off the queue and does nothing else. */
  lemma QueuedRemoved(l: Ledger, d: Tx, head: ChainState, t: Tx)
    requires Partition(l.view) && l.view.limbo == {} && d in l.view.all && Holds(l.view.Queued(d.sender), d)
    ensures var m := RemovalOf(l, d, head);
      && m.view.pending == l.view.pending && m.nonces == l.nonces && m.beats == l.beats
      && (Holds(m.view.Queued(t.sender), t) <==> Holds(l.view.Queued(t.sender), t) && t != d)
  {
    assert AccountOk(l.view, d.sender) && AccountOk(l.view, t.sender);
    hide Partition;
    var q := l.view.Queued(d.sender) - {d.nonce};
    assert Removal(l.view, d).queue == Keep(l.view.queue, d.sender, q);
    KeepOf(l.view.queue, d.sender, q);
  }

  // ---------- promotion ----------

  /** Something that is not due stands under the nonce. */
  ghost predicate Fit(s: Setting, items: Items, n: uint64) {
    n in items && !Due(s, items[n])
  }

  /** Every queued nonce from the lowest that is not due, if that is at most where the account goes on, up to
      this one is there and not due. */
  ghost predicate Joins(s: Setting, l: Ledger, a: Address, n: uint64) {
    var queued := l.view.Queued(a);
    exists first: uint64 :: Fit(s, queued, first) && first <= GoesOn(l.nonces, s.head, a)
      && first <= n && (forall k: uint64 :: first <= k <= n ==> Fit(s, queued, k))
      && (forall k: uint64 :: k < first ==> !Fit(s, queued, k))
  }

  lemma PayableFits(s: Setting, items: Items, a: Address)
    requires OwnedBy(a, items)
    ensures var payable := Affordable(false, From(items, s.head.Nonce(a)), s.head.Balance(a), s.maxGas);
      Sub(payable, items) && forall n: uint64 :: n in payable <==> Fit(s, items, n)
  {
  }

  /** Which of some transactions a run takes. */
  lemma RunTakes(s: Setting, l: Ledger, ready: seq<Tx>, rest: Items, payable: Items, a: Address)
    requires ReadyRun(ready, rest, payable, GoesOn(l.nonces, s.head, a))
    requires forall n: uint64 :: n in payable <==> Fit(s, l.view.Queued(a), n)
    ensures forall n: uint64 :: n in payable && n !in rest <==> Joins(s, l, a, n)
    ensures Sub(rest, payable)
    ensures ready == [] ==> forall n: uint64 :: !Joins(s, l, a, n)
    ensures ready != [] ==> (
      var last := ready[|ready| - 1].nonce; Joins(s, l, a, last) && forall n: uint64 :: Joins(s, l, a, n) ==> n <= last)
  {
    NothingJoins(s, l, a);
    hide ReadyRun, GoesOn, Fit, Joins;
    RunIs(ready, rest, payable, GoesOn(l.nonces, s.head, a));
    if ready != [] {
      forall n: uint64
        ensures ready[0].nonce <= n < ready[0].nonce + |ready| <==> Joins(s, l, a, n)
      {
        RunJoins(s, l, a, ready[0].nonce, ready[0].nonce + |ready|, n);
      }
    }
  }

  lemma NothingJoins(s: Setting, l: Ledger, a: Address)
    ensures (forall n: uint64 :: Fit(s, l.view.Queued(a), n) ==> GoesOn(l.nonces, s.head, a) < n) ==>
      forall n: uint64 :: !Joins(s, l, a, n)
  {
    hide Fit, GoesOn;
  }

  /** What a run is made of, told by nonces. */
  lemma RunIs(ready: seq<Tx>, rest: Items, items: Items, start: uint64)
    requires ReadyRun(ready, rest, items, start)
    ensures ready == [] ==> rest == items && forall n: uint64 :: n in items ==> start < n
    ensures ready != [] ==> (
      var first, end: int := ready[0].nonce, ready[0].nonce + |ready|;
      && first <= start && ready[|ready| - 1].nonce == end - 1
      && (forall n: uint64 :: n in items && n < end <==> first <= n < end)
      && (forall n: uint64 :: n in rest <==> n in items && end <= n) && (forall n: uint64 :: n == end ==> n !in items))
    ensures forall n: uint64 :: n in rest ==> n in items && rest[n] == items[n]
  {
    if ready != [] {
      var first, end: int := ready[0].nonce, ready[0].nonce + |ready|;
      forall k: uint64
        ensures k in items && k < end <==> first <= k < end
      {
        if first <= k < end { assert ready[k - first].nonce == k; }
        if k in items && k < end { assert Below(items, end)[k] in ready; }
      }
    }
  }

  lemma RunJoins(s: Setting, l: Ledger, a: Address, first: uint64, end: int, n: uint64)
    requires first <= GoesOn(l.nonces, s.head, a) && first < end
    requires forall k: uint64 :: Fit(s, l.view.Queued(a), k) && k < end <==> first <= k < end
    requires !(end < TWO_64 && Fit(s, l.view.Queued(a), end))
    ensures first <= n < end <==> Joins(s, l, a, n)
  {
    hide Fit, GoesOn;
    var queued := l.view.Queued(a);
    assert Fit(s, queued, first) && forall k: uint64 :: k < first ==> !Fit(s, queued, k);
    if first <= n < end {
      assert forall k: uint64 :: first <= k <= n ==> Fit(s, queued, k);
    }
    assert Joins(s, l, a, n) ==> n < end;
  }

  /** What promotion does to an account's transactions: what joins is pending with what was; of the rest,
      what is not due stays queued, for a remote account up to the limit and the lowest nonces first. */
  lemma PromotionMoves(s: Setting, l: Ledger, m: Ledger, tx: Tx)
    requires Promoted(s, l, m, tx.sender) && AccountOk(l.view, tx.sender)
    ensures var a := tx.sender; var stays := Holds(l.view.Queued(a), tx) && !Due(s, tx) && !Joins(s, l, a, tx.nonce);
      && (Holds(m.view.Pending(a), tx) <==>
            Holds(l.view.Pending(a), tx) || (Holds(l.view.Queued(a), tx) && Joins(s, l, a, tx.nonce)))
      && (Holds(m.view.Queued(a), tx) ==> stays)
      && (stays && !Holds(m.view.Queued(a), tx) ==>
            && a !in l.locals && |m.view.Queued(a)| == s.config.accountQueue
            && forall n :: n in m.view.Queued(a) ==> n < tx.nonce)
      && (a !in l.locals ==> |m.view.Queued(a)| <= s.config.accountQueue)
  {
    var a := tx.sender;
    assert l.view.Pending(a).Keys !! l.view.Queued(a).Keys;
    FitIs(s, l.view.Queued(a), tx);
    hide Joins, Capping, Due, AccountOk, Promoted, Fit, Sub, OwnedBy;
    var payable, rest := PromotedTakes(s, l, m, a);
    Taken(l.view.Pending(a), l.view.Queued(a), payable, rest, m.view.Pending(a), tx);
    if a !in l.locals { CappingLeaves(m.view.Queued(a), rest, s.config.accountQueue, tx); }
  }

  lemma FitIs(s: Setting, items: Items, tx: Tx)
    ensures Holds(items, tx) ==> (Fit(s, items, tx.nonce) <==> !Due(s, tx))
  {
  }

  /** Of the queue, what is payable is what fits, and what is taken of it is what joins. */
  lemma PromotedTakes(s: Setting, l: Ledger, m: Ledger, a: Address) returns (payable: Items, rest: Items)
    requires Promoted(s, l, m, a) && AccountOk(l.view, a)
    ensures Sub(payable, l.view.Queued(a)) && Sub(rest, payable)
    ensures forall n: uint64 :: n in payable <==> Fit(s, l.view.Queued(a), n)
    ensures forall n: uint64 :: n in payable && n !in rest <==> Joins(s, l, a, n)
    ensures m.view.Pending(a) == l.view.Pending(a) + (payable - rest.Keys)
    ensures if a in l.locals then m.view.Queued(a) == rest
      else Capping(m.view.Queued(a), rest, s.config.accountQueue)
  {
    PayableFits(s, l.view.Queued(a), a);
    hide Affordable, From, ReadyRun, Joins, Capping, Fit, AccountOk, Sub, PromotedRun, GoesOn;
    payable := Affordable(false, From(l.view.Queued(a), s.head.Nonce(a)), s.head.Balance(a), s.maxGas);
    var ready: seq<Tx>, rest' :| PromotedRun(s, l, m, a, ready, rest');
    rest := rest';
    hide Promoted;
    PromotedParts(s, l, m, a, ready, rest);
    RunTakes(s, l, ready, rest, payable, a);
  }

  lemma PromotedParts(s: Setting, l: Ledger, m: Ledger, a: Address, ready: seq<Tx>, rest: Items)
    requires PromotedRun(s, l, m, a, ready, rest)
    ensures var payable := Affordable(false, From(l.view.Queued(a), s.head.Nonce(a)), s.head.Balance(a), s.maxGas);
      && ReadyRun(ready, rest, payable, GoesOn(l.nonces, s.head, a))
      && m.view.Pending(a) == l.view.Pending(a) + (payable - rest.Keys)
    ensures if a in l.locals then m.view.Queued(a) == rest
      else Capping(m.view.Queued(a), rest, s.config.accountQueue)
  {
    hide Affordable, From, ReadyRun, Capping;
  }

  lemma Taken(pending: Items, queued: Items, payable: Items, rest: Items, nowPending: Items, tx: Tx)
    requires pending.Keys !! queued.Keys && Sub(payable, queued) && Sub(rest, payable)
    requires nowPending == pending + (payable - rest.Keys)
    ensures Holds(nowPending, tx) <==>
      Holds(pending, tx) || (Holds(queued, tx) && tx.nonce in payable && tx.nonce !in rest)
    ensures Holds(rest, tx) <==> Holds(queued, tx) && tx.nonce in rest
  {
  }

  /** A cap drops the highest nonces, and only if there are too many. */
  lemma CappingLeaves(kept: Items, items: Items, threshold: nat, tx: Tx)
    requires Capping(kept, items, threshold)
    ensures Holds(kept, tx) ==> Holds(items, tx)
    ensures |kept| <= threshold
    ensures Holds(items, tx) && !Holds(kept, tx) ==> |kept| == threshold && forall n :: n in kept ==> n < tx.nonce
  {
    if |items| <= threshold {
      assert kept.Keys <= items.Keys;
      SubsetSameSize(kept.Keys, items.Keys);
    }
  }

  /** Where the account goes on afterwards, and when it was last heard from. */
  ghost predicate GoesOnAfter(s: Setting, l: Ledger, m: Ledger, a: Address, last: uint64) {
    && Joins(s, l, a, last) && (forall n: uint64 :: Joins(s, l, a, n) ==> n <= last)
    && GoesOn(m.nonces, s.head, a) == (if last == 0xffff_ffff_ffff_ffff then 0 else last + 1)
    && a in m.beats && m.beats[a] == s.now
  }

  lemma PromotionNotes(s: Setting, l: Ledger, m: Ledger, a: Address)
    requires Promoted(s, l, m, a) && AccountOk(l.view, a)
    ensures if forall n: uint64 :: !Joins(s, l, a, n) then
        GoesOn(m.nonces, s.head, a) == GoesOn(l.nonces, s.head, a) && (a in m.beats <==> a in l.beats)
        && (a in l.beats ==> m.beats[a] == l.beats[a])
      else exists last: uint64 :: GoesOnAfter(s, l, m, a, last)
  {
    var queued := l.view.Queued(a);
    var payable := Affordable(false, From(queued, s.head.Nonce(a)), s.head.Balance(a), s.maxGas);
    PayableFits(s, queued, a);
    hide Affordable, From, Due, ReadyRun, Joins, Capping, AccountOk, GoesOnAfter;
    var ready: seq<Tx>, rest :| PromotedRun(s, l, m, a, ready, rest);
    assert GoesOn(l.nonces, s.head, a) == NextNonce(l.nonces, s.head, a);
    RunTakes(s, l, ready, rest, payable, a);
    if ready != [] { RunNotes(s, l, m, a, ready[|ready| - 1].nonce); }
  }

  lemma RunNotes(s: Setting, l: Ledger, m: Ledger, a: Address, last: uint64)
    requires Joins(s, l, a, last) && forall n: uint64 :: Joins(s, l, a, n) ==> n <= last
    requires NextNonce(m.nonces, s.head, a) == AddWrap(last, 1) && Beat(m.beats, a) == s.now
    ensures GoesOnAfter(s, l, m, a, last)
  {
    hide Joins;
  }

  /** Below the nonce, everything after something that is not due is there and not due. */
  ghost predicate NoGap(s: Setting, items: Items, end: uint64) {
    forall k: uint64, n: uint64 :: Fit(s, items, k) && k < n < end ==> Fit(s, items, n)
  }

  /** A queued transaction with which the account goes on joins exactly if none before it that is not due is
      cut off from it by a gap. With no next nonce held for the account there is none before it. */
  lemma StartJoins(s: Setting, l: Ledger, tx: Tx)
    requires AccountOk(l.view, tx.sender) && Holds(l.view.Queued(tx.sender), tx) && !Due(s, tx)
    requires tx.nonce == GoesOn(l.nonces, s.head, tx.sender)
    ensures var a := tx.sender; var queued := l.view.Queued(a);
      && (Joins(s, l, a, tx.nonce) <==> NoGap(s, queued, tx.nonce))
      && (a !in l.nonces ==> Joins(s, l, a, tx.nonce))
  {
    var a, queued, n := tx.sender, l.view.Queued(tx.sender), tx.nonce;
    FitsAt(s, queued, tx);
    var first := LowestFit(s, queued, n);
    if a !in l.nonces { FitsFrom(s, queued, a, first); }
    LowestJoins(s, l, a, n, first);
    hide Due, Fit, OwnedBy, NoGap, Joins;
  }

  lemma LowestJoins(s: Setting, l: Ledger, a: Address, n: uint64, first: uint64)
    requires n == GoesOn(l.nonces, s.head, a) && Fit(s, l.view.Queued(a), n)
    requires first <= n && Fit(s, l.view.Queued(a), first)
    requires forall k: uint64 :: k < first ==> !Fit(s, l.view.Queued(a), k)
    ensures Joins(s, l, a, n) <==> NoGap(s, l.view.Queued(a), n)
    ensures first == n ==> Joins(s, l, a, n)
  {
    hide Fit, GoesOn;
  }

  lemma FitsAt(s: Setting, items: Items, tx: Tx)
    requires Holds(items, tx) && !Due(s, tx)
    ensures Fit(s, items, tx.nonce)
  {
  }

  lemma FitsFrom(s: Setting, items: Items, a: Address, n: uint64)
    requires OwnedBy(a, items) && Fit(s, items, n)
    ensures (if a in s.head.nonces then s.head.nonces[a] else 0) <= n
  {
  }

  lemma LowestFit(s: Setting, items: Items, n: uint64) returns (first: uint64)
    requires Fit(s, items, n)
    ensures first <= n && Fit(s, items, first) && forall k: uint64 :: k < first ==> !Fit(s, items, k)
  {
    hide Fit;
    first := 0;
    while !Fit(s, items, first)
      invariant first <= n && forall k: uint64 :: k < first ==> !Fit(s, items, k)
      decreases n - first
    {
      first := first + 1;
    }
  }

  /** What stands right after something that joins joins as well, unless it is due. */
  lemma NextJoins(s: Setting, l: Ledger, a: Address, n: uint64)
    requires Joins(s, l, a, n) && n < MAX_UINT64 && Fit(s, l.view.Queued(a), n + 1)
    ensures Joins(s, l, a, n + 1)
  {
    hide Fit;
  }

  /** The first nonces of an account the pool holds no next nonce for become pending in a round of promotion,
      as do those right after where it goes on, unless what is queued before is cut off by a gap. */
  lemma RoundPromotes(s: Setting, l: Ledger, r: Round, m: Ledger, accounts: Option<seq<Address>>, tx: Tx)
    requires Rounded(s, l, r, m, accounts) && (accounts.Some? ==> DistinctAddresses(accounts.value))
    requires accounts.None? || tx.sender in accounts.value
    requires Partition(l.view) && Holds(l.view.Queued(tx.sender), tx) && !Due(s, tx)
    requires tx.nonce == if tx.sender in l.nonces then l.nonces[tx.sender]
      else if tx.sender in s.head.nonces then s.head.nonces[tx.sender] else 0
    ensures Holds(r.promoted.view.Pending(tx.sender), tx) <==> NoGap(s, l.view.Queued(tx.sender), tx.nonce)
    ensures tx.sender !in l.nonces ==> Holds(r.promoted.view.Pending(tx.sender), tx)
  {
    assert AccountOk(l.view, tx.sender);
    hide Partition, Due, Joins, Promoted, Fit;
    StartJoins(s, l, tx);
    PromotionMoves(s, l, r.promoted, tx);
    assert tx.nonce !in l.view.Pending(tx.sender);
  }

  /** An account a round is not asked for keeps its lists, where it goes on and when it was last heard from, until
      the global limits. */
  lemma RoundLeaves(s: Setting, l: Ledger, r: Round, m: Ledger, accounts: seq<Address>, a: Address)
    requires Rounded(s, l, r, m, Some(accounts)) && DistinctAddresses(accounts) && a !in accounts
    ensures var p := r.promoted;
      && p.view.Pending(a) == l.view.Pending(a) && p.view.Queued(a) == l.view.Queued(a)
      && GoesOn(p.nonces, s.head, a) == GoesOn(l.nonces, s.head, a)
      && (a in p.beats <==> a in l.beats) && (a in l.beats ==> p.beats[a] == l.beats[a]) && m.locals == l.locals
  {
    hide Promoted, DistinctAddresses, FairCut, SteppedBack, QueueCapped;
    assert EntriesSame(s, l, r.promoted, a);
  }

  // ---------- the global limits ----------

  /** How many each account would keep if nobody remote kept more than a level beyond its allowance. */
  ghost function Shares(lists: Accounts, local: set<Address>, slots: nat, level: nat): Amounts {
    map a | a in lists :: if a in local || |lists[a]| <= slots then |lists[a]| else Min(|lists[a]|, level)
  }

  /** What a fair cut leaves an account: its lowest nonces, all of them if it is local or within its allowance
      and otherwise no more than the level. */
  lemma ShareLeft(was: Accounts, now: Accounts, local: set<Address>, slots: nat, level: nat, limit: nat, a: Address)
    requires FairCut(was, now, local, slots, level, limit)
    ensures |Of(now, a)| == if a in local || |Of(was, a)| <= slots then |Of(was, a)| else Min(|Of(was, a)|, level)
    ensures a in local || |Of(was, a)| <= slots ==> Of(now, a) == Of(was, a)
    ensures forall n :: n in Of(now, a) ==> n in Of(was, a) && Of(now, a)[n] == Of(was, a)[n]
    ensures forall n, k :: n in Of(was, a) && k in Of(now, a) && n < k ==> n in Of(now, a)
  {
    hide Total, Sum;
    if a in was { assert SizesOf(now)[a] == Levelled(was, local, slots, level)[a]; }
  }

  /** The level: nothing is cut unless the limit is exceeded; then it is met or every remote account is down to
      its allowance, while one level higher would still exceed the limit. */
  lemma SharesFair(was: Accounts, now: Accounts, local: set<Address>, slots: nat, level: nat, limit: nat)
    requires FairCut(was, now, local, slots, level, limit)
    ensures slots <= level && (Total(was) <= limit ==> now == was)
    ensures Total(now) <= limit || forall b :: b in now && b !in local ==> |now[b]| <= slots
    ensures now != was ==> limit < Sum(Shares(was, local, slots, level + 1))
  {
    hide Sum, Levelled, SizesOf, Shares, CutTo, Total;
    FairWithin(was, now, local, slots, level, limit);
    SharesAre(was, local, slots, level + 1);
    SharesAtMost(was, local, slots, level + 1);
  }

  lemma SharesAre(was: Accounts, local: set<Address>, slots: nat, level: nat)
    requires slots <= level
    ensures Shares(was, local, slots, level) == Levelled(was, local, slots, level)
  {
  }

  lemma SharesAtMost(was: Accounts, local: set<Address>, slots: nat, level: nat)
    ensures Sum(Levelled(was, local, slots, level)) <= Total(was)
  {
    SumMonotone(Levelled(was, local, slots, level), SizesOf(was));
  }

  /** What capping the queues leaves: the lowest nonces of each account, all that is local, and nothing of a
      remote account heard from later than one that lost something. */
  lemma QueueShare(was: Accounts, now: Accounts, local: set<Address>, beats: map<Address, nat>, limit: nat, a: Address)
    requires QueueCapped(was, now, local, beats, limit)
    ensures if Total(was) <= limit then now == was
      else Total(now) == limit || (limit < Total(now) && forall b :: b in now ==> b in local)
    ensures a in local ==> Of(now, a) == Of(was, a)
    ensures forall n :: n in Of(now, a) ==> n in Of(was, a) && Of(now, a)[n] == Of(was, a)[n]
    ensures forall n, k :: n in Of(was, a) && k in Of(now, a) && n < k ==> n in Of(now, a)
    ensures Of(now, a) != Of(was, a) ==> forall b :: b !in local && Of(now, b) != map[] ==>
      b !in beats || (a in beats && beats[b] <= beats[a])
  {
    hide Total;
    assert Prefix(Of(now, a), Of(was, a));
  }

  /** After cuts an account goes on where it did or, if that is lower, with the lowest nonce it lost. */
  lemma CutGoesOn(was: Accounts, now: Accounts, before: map<Address, uint64>, after: map<Address, uint64>,
                  head: ChainState, a: Address)
    requires SteppedBack(was, now, before, after, head)
    ensures var next, first := GoesOn(after, head, a), GoesOn(before, head, a);
      && next <= first && (forall n: uint64 :: n in Of(was, a) && n !in Of(now, a) ==> next <= n)
      && (next == first || (next in Of(was, a) && next !in Of(now, a)))
  {
    var lost := Of(was, a).Keys - Of(now, a).Keys;
    assert Lowest(NextNonce(before, head, a), NextNonce(after, head, a), lost);
    assert forall n: uint64 :: n in lost <==> n in Of(was, a) && n !in Of(now, a);
  }

  // ---------- a new head ----------

  /** From the nonce of the chain up to this one, nothing pending is due. */
  ghost predicate Alive(s: Setting, pending: Items, next: uint64, n: uint64) {
    next <= n && forall k: uint64 :: next <= k <= n && k in pending ==> !Due(s, pending[k])
  }

  lemma AliveIs(s: Setting, pending: Items, a: Address, n: uint64)
    requires OwnedBy(a, pending) && n in pending
    ensures var live := From(pending, s.head.Nonce(a));
      && (n in Affordable(true, live, s.head.Balance(a), s.maxGas) <==> Alive(s, pending, s.head.Nonce(a), n))
      && (n in Stranded(live, s.head.Balance(a), s.maxGas) <==>
            !Due(s, pending[n]) && !Alive(s, pending, s.head.Nonce(a), n))
  {
    var next, balance, gas := s.head.Nonce(a), s.head.Balance(a), s.maxGas;
    DueIs(s, pending, a);
    StrictIs(pending, next, balance, gas, n);
    hide Due, OverLimits, OwnedBy, From, Affordable, Stranded;
  }

  lemma StrictIs(items: Items, next: uint64, balance: int, gas: int, n: uint64)
    requires n in items
    ensures n in Affordable(true, From(items, next), balance, gas) <==> (
      next <= n && forall k: uint64 :: next <= k <= n && k in items ==> !OverLimits(balance, gas)(items[k]))
    ensures n in Stranded(From(items, next), balance, gas) <==> (
      next <= n && !OverLimits(balance, gas)(items[n]) && n !in Affordable(true, From(items, next), balance, gas))
  {
    var live, over := From(items, next), OverLimits(balance, gas);
    assert forall k: uint64 :: (k in live <==> next <= k && k in items) && (k in live ==> live[k] == items[k]);
    assert n in Affordable(true, live, balance, gas) <==>
      n in live && !over(live[n]) && forall k: uint64 :: k in live && over(live[k]) ==> n < k;
    hide OverLimits;
  }

  lemma DueIs(s: Setting, items: Items, a: Address)
    requires OwnedBy(a, items)
    ensures forall k :: k in items ==>
      (Due(s, items[k]) <==> k < s.head.Nonce(a) || OverLimits(s.head.Balance(a), s.maxGas)(items[k]))
  {
  }

  /** What demotion does to an account's transactions: one stays pending if the nonce of the chain is pending
      as well and nothing from there up to it is due; otherwise it is queued, unless it is due itself. */
  lemma DemotionMoves(s: Setting, v: View, w: View, tx: Tx)
    requires var a := tx.sender; Demoted(v, w, a, s.head.Nonce(a), s.head.Balance(a), s.maxGas) && AccountOk(v, a)
    ensures var a := tx.sender; var next := if a in s.head.nonces then s.head.nonces[a] else 0;
      var stays := Holds(v.Pending(a), tx) && next in v.Pending(a) && Alive(s, v.Pending(a), next, tx.nonce);
      && (Holds(w.Pending(a), tx) <==> stays)
      && (Holds(w.Queued(a), tx) <==> (Holds(v.Queued(a), tx) || (Holds(v.Pending(a), tx) && !Due(s, tx) && !stays)))
  {
    var a, pending, next := tx.sender, v.Pending(tx.sender), s.head.Nonce(tx.sender);
    assert OwnedBy(a, pending) && pending.Keys !! v.Queued(a).Keys;
    hide Affordable, Stranded, From, Due, OwnedBy, Alive, AccountOk, Sub;
    var live := From(pending, next);
    var within, stranded := Affordable(true, live, s.head.Balance(a), s.maxGas),
      Stranded(live, s.head.Balance(a), s.maxGas);
    if tx.nonce in pending { AliveIs(s, pending, a, tx.nonce); }
    if next in pending { AliveIs(s, pending, a, next); }
    StrictIsSub(live, s.head.Balance(a), s.maxGas);
    CutIs(true, pending, next);
    SubTransitive(within, live, pending);
    SubTransitive(stranded, live, pending);
    SplitUp(pending, v.Queued(a), within, stranded, w.Pending(a), w.Queued(a), next in within, tx);
    hide Demoted;
    NotInside(within, pending, next);
    if next in pending { AliveFront(s, pending, next, tx.nonce); }
  }

  lemma SubTransitive(x: Items, y: Items, z: Items)
    requires Sub(x, y) && Sub(y, z)
    ensures Sub(x, z)
  {
  }

  lemma NotInside(x: Items, y: Items, n: uint64)
    requires Sub(x, y)
    ensures n in x ==> n in y
  {
  }

  /** A list split up between itself and the queue. */
  lemma SplitUp(pending: Items, queued: Items, within: Items, stranded: Items, nowPending: Items, nowQueued: Items,
                front: bool, tx: Tx)
    requires Sub(within, pending) && Sub(stranded, pending) && within.Keys !! stranded.Keys
    requires pending.Keys !! queued.Keys && nowPending == if front then within else map[]
    requires nowQueued == queued + stranded + if front then map[] else within
    ensures Holds(nowPending, tx) <==> Holds(pending, tx) && front && tx.nonce in within
    ensures Holds(nowQueued, tx) <==> (
      Holds(queued, tx) || (Holds(pending, tx) && (tx.nonce in stranded || (!front && tx.nonce in within))))
  {
  }

  lemma AliveFront(s: Setting, pending: Items, next: uint64, n: uint64)
    ensures next in pending && Alive(s, pending, next, n) ==> Alive(s, pending, next, next)
  {
  }

  /** Where accounts go on after a new head, before the last round of promotion: after the last transaction
      left pending, or where they did. */
  lemma NotedGoesOn(s: Setting, l: Ledger, m: Ledger, a: Address)
    requires Rearranged(s, l, m)
    ensures if m.view.Pending(a) == map[] then GoesOn(m.nonces, s.head, a) == GoesOn(l.nonces, s.head, a)
      else exists last: uint64 :: (
        && last in m.view.Pending(a) && (forall n :: n in m.view.Pending(a) ==> n <= last)
        && GoesOn(m.nonces, s.head, a) == if last == 0xffff_ffff_ffff_ffff then 0 else last + 1)
    ensures a in m.beats <==> a in l.beats && (a in l.view.pending ==> m.view.Pending(a) != map[])
    ensures a in m.beats ==> m.beats[a] == l.beats[a]
  {
    hide AllDemotedOf, Runnable;
    var lists := m.view.pending;
    if a in lists {
      assert a in m.nonces && FollowsLast(m.nonces[a], lists[a]);
    } else {
      assert a in m.nonces <==> a in m.nonces - lists.Keys;
      assert a in l.nonces <==> a in l.nonces - lists.Keys;
    }
  }

  /** Once the pool has adapted to a head, nothing it lists is due at that head. */
  lemma NothingDue(s: Setting, l: Ledger, m: Ledger, txs: seq<Tx>, c: Change, tx: Tx)
    requires Adapted(s, l, m, txs, c) && m.view.Listed(tx)
    ensures !Due(s, tx)
  {
    var a, n, p := tx.sender, c.noted, c.round.promoted;
    hide TakenIn, Levelled, SizesOf, Total, LatestFirst, SteppedBack, Joins, Due;
    assert AccountOk(n.view, a);
    hide Partition, AccountOk;
    assert Promoted(s, n, p, a);
    hide Promoted;
    PromotionMoves(s, n, p, tx);
    ShareLeft(p.view.pending, m.view.pending, n.locals, s.config.accountSlots, c.round.level, s.config.globalSlots, a);
    QueueShare(p.view.queue, m.view.queue, n.locals, p.beats, s.config.globalQueue, a);
    assert Holds(p.view.Pending(a), tx) || Holds(p.view.Queued(a), tx);
    if Holds(n.view.Pending(a), tx) { PendingAlive(s, n, tx); }
    if Joins(s, n, a, tx.nonce) { JoinsFits(s, n, a, tx.nonce); }
  }

  lemma PendingAlive(s: Setting, l: Ledger, tx: Tx)
    requires AllRunnable(l.view.pending, [], s.head, s.maxGas) && Holds(l.view.Pending(tx.sender), tx)
    ensures !Due(s, tx)
  {
  }

  lemma JoinsFits(s: Setting, l: Ledger, a: Address, n: uint64)
    requires Joins(s, l, a, n)
    ensures Fit(s, l.view.Queued(a), n)
  {
    hide Fit;
  }

  // ---------- batches ----------

  /** Exactly those accounts are promoted after a batch of which a transaction joined without replacing one. */
  lemma {:induction false} NewcomersAre(txs: seq<Tx>, results: seq<AddResult>, a: Address)
    requires |txs| == |results|
    ensures a in Newcomers(txs, results) <==> (
      exists i :: 0 <= i < |txs| && results[i] == Added(false) && txs[i].sender == a)
  {
    if txs != [] {
      var n := |txs| - 1;
      NewcomersAre(txs[..n], results[..n], a);
      assert forall i :: 0 <= i < n ==> txs[..n][i] == txs[i] && results[..n][i] == results[i];
    }
  }

  /** A payable transaction that is queued, once a batch is in, where its account goes on becomes pending if
      anything of the account joined with the batch, unless what is queued before it is cut off by a gap. */
  lemma BatchPromotes(s: Setting, l: Ledger, m: Ledger, txs: seq<Tx>, local: bool, k: Intake, tx: Tx)
    requires TakenIn(s, l, m, txs, local, k)
    requires exists i :: 0 <= i < |txs| && k.results[i] == Added(false) && txs[i].sender == tx.sender
    requires var n := k.trail[|txs|];
      && Holds(n.view.Queued(tx.sender), tx) && !Due(s, tx) && tx.nonce == GoesOn(n.nonces, s.head, tx.sender)
    ensures var n := k.trail[|txs|];
      && (Holds(k.round.promoted.view.Pending(tx.sender), tx) <==> NoGap(s, n.view.Queued(tx.sender), tx.nonce))
      && (tx.sender !in n.nonces ==> Holds(k.round.promoted.view.Pending(tx.sender), tx))
  {
    hide Due, NoGap, DistinctAddresses, Partition, Rounded;
    NewcomersAre(txs, k.results, tx.sender);
    RoundPromotes(s, k.trail[|txs|], k.round, m, Some(Newcomers(txs, k.results)), tx);
  }

  lemma {:induction false} AdditionsLocals(s: Setting, trail: seq<Ledger>, txs: seq<Tx>, drops: seq<seq<Tx>>,
                                           results: seq<AddResult>)
    requires Additions(s, trail, txs, false, drops, results)
    ensures |trail| == |txs| + 1 && trail[|txs|].locals == trail[0].locals
  {
    hide Addition;
    if txs != [] {
      var n := |txs| - 1;
      AdditionsLocals(s, trail[..n + 1], txs[..n], drops[..n], results[..n]);
      AdditionComes(s, trail[n], trail[n + 1], txs[n], false, drops[n], results[n]);
    }
  }

  /** A batch from outside makes nobody local, and neither does a new head. */
  lemma BatchLocals(s: Setting, l: Ledger, m: Ledger, txs: seq<Tx>, k: Intake)
    requires TakenIn(s, l, m, txs, false, k)
    ensures m.locals == l.locals
  {
    AdditionsLocals(s, k.trail, txs, k.drops, k.results);
    hide Additions, AllPartitions, AllPromotedOf, FairCut, SteppedBack, QueueCapped, Newcomers, DistinctAddresses;
  }

  lemma HeadLocals(s: Setting, l: Ledger, m: Ledger, txs: seq<Tx>, c: Change)
    requires Adapted(s, l, m, txs, c)
    ensures m.locals == l.locals
  {
    BatchLocals(s, l.(nonces := map[]), c.taken, txs, c.intake);
    hide TakenIn, AllDemotedOf, AllRunnable, Partition, AllPromotedOf, FairCut, SteppedBack, QueueCapped;
  }

  // ---------- refusals ----------

  /** Which refusal is given where several rules are broken. */
  lemma VerdictOrder(s: Setting, tx: Tx, exempt: bool)
    ensures var verdict := Verdict(s, tx, exempt);
      var nonce := if tx.sender in s.head.nonces then s.head.nonces[tx.sender] else 0;
      var balance := if tx.sender in s.head.balances then s.head.balances[tx.sender] else 0;
      var gas := ExactGas(tx.data, tx.to.None?, s.homestead);
      && (verdict == Some(OversizedData) <==> tx.size > 32768)
      && (verdict == Some(NegativeValue) <==> tx.size <= 32768 && tx.value < 0)
      && (tx.size <= 32768 && tx.value >= 0 ==>
        && (verdict == Some(GasLimit) <==> tx.gas > s.maxGas)
        && (verdict == Some(InvalidSender) <==> tx.gas <= s.maxGas && !tx.signed)
        && (tx.gas <= s.maxGas && tx.signed ==>
          && (verdict == Some(Underpriced) <==> !exempt && tx.gasPrice < s.gasPrice)
          && (exempt || s.gasPrice <= tx.gasPrice ==>
            && (verdict == Some(NonceTooLow) <==> tx.nonce < nonce)
            && (verdict == Some(InsufficientFunds) <==>
                  nonce <= tx.nonce && balance < tx.gasPrice * tx.gas + tx.value)
            && (nonce <= tx.nonce && tx.gasPrice * tx.gas + tx.value <= balance ==>
              && (verdict == Some(OutOfGas) <==> gas > 0xffff_ffff_ffff_ffff)
              && (verdict == Some(IntrinsicGas) <==> tx.gas < gas <= 0xffff_ffff_ffff_ffff)))))
  {
  }
}
