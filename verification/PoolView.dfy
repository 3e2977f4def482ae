/** What the pool means: which transactions every account has pending and queued, which ones can
    be looked up, and which are on their way from one list to another. */
module PoolViews {
  import opened Types
  import opened NonceMap

  type Accounts = map<Address, Items>

  /** An account without a list has no transactions. */
  ghost function Of(lists: Accounts, a: Address): Items {
    if a in lists then lists[a] else map[]
  }

  ghost predicate Holds(items: Items, tx: Tx) {
    tx.nonce in items && items[tx.nonce] == tx
  }

  ghost predicate OwnedBy(a: Address, items: Items) {
    forall n :: n in items ==> items[n].nonce == n && items[n].sender == a && items[n].signed
  }

  /** `limbo` holds what has been taken off a list but neither placed on another one nor
      dropped from the lookup yet. */
  datatype View = Views(pending: Accounts, queue: Accounts, all: set<Tx>, limbo: set<Tx>) {
    ghost function Pending(a: Address): Items {
      Of(pending, a)
    }

    ghost function Queued(a: Address): Items {
      Of(queue, a)
    }

    /** The pending lists are the strict ones. */
    ghost function Lists(strict: bool): Accounts {
      if strict then pending else queue
    }

    ghost function WithLists(strict: bool, lists: Accounts): View {
      if strict then this.(pending := lists) else this.(queue := lists)
    }

    ghost predicate Listed(tx: Tx) {
      Holds(Pending(tx.sender), tx) || Holds(Queued(tx.sender), tx)
    }
  }

  /** No account has one nonce both pending and queued. */
  ghost predicate AccountOk(v: View, a: Address) {
    OwnedBy(a, v.Pending(a)) && OwnedBy(a, v.Queued(a)) && v.Pending(a).Keys !! v.Queued(a).Keys
  }

  /** The lookup is the disjoint union of the lists and of what is in limbo. */
  ghost predicate TxOk(v: View, tx: Tx) {
    && (tx in v.all <==> v.Listed(tx) || tx in v.limbo)
    && (tx in v.limbo ==> tx.signed && !v.Listed(tx))
  }

  ghost predicate Partition(v: View) {
    (forall a :: AccountOk(v, a)) && (forall tx :: TxOk(v, tx))
  }

  /** Whatever items has that kept has not. */
  ghost function Gone(items: Items, kept: Items): set<Tx> {
    set n | n in items && n !in kept :: items[n]
  }

  lemma GoneIs(a: Address, items: Items, kept: Items, tx: Tx)
    requires OwnedBy(a, items)
    ensures tx in Gone(items, kept) <==> Holds(items, tx) && tx.nonce !in kept
  {
  }

  ghost predicate Sub(kept: Items, items: Items) {
    forall n :: n in kept ==> n in items && items[n] == kept[n]
  }

  /** Cuts an account's list down to `kept`. */
  ghost function Take(v: View, strict: bool, a: Address, kept: Items): View {
    v.WithLists(strict, v.Lists(strict)[a := kept]).(limbo := v.limbo + Gone(Of(v.Lists(strict), a), kept))
  }

  ghost function Insert(v: View, strict: bool, tx: Tx): View {
    v.WithLists(strict, v.Lists(strict)[tx.sender := Of(v.Lists(strict), tx.sender)[tx.nonce := tx]])
  }

  ghost function Forget(v: View, txs: set<Tx>): View {
    v.(all := v.all - txs, limbo := v.limbo - txs)
  }

  /** Puts a transaction into a list, displacing what was under its nonce. */
  ghost function Displaced(items: Items, tx: Tx): set<Tx> {
    if tx.nonce in items then {items[tx.nonce]} else {}
  }

  /** Places a transaction on a list for good. */
  ghost function Place(v: View, strict: bool, tx: Tx): View {
    Insert(v, strict, tx).(all := v.all - Displaced(Of(v.Lists(strict), tx.sender), tx) + {tx}, limbo := v.limbo - {tx})
  }

  lemma TakeKeeps(v: View, strict: bool, a: Address, kept: Items)
    requires Partition(v) && Sub(kept, Of(v.Lists(strict), a))
    ensures Partition(Take(v, strict, a, kept))
  {
    var w, items := Take(v, strict, a, kept), Of(v.Lists(strict), a);
    forall b
      ensures AccountOk(w, b)
    {
      assert AccountOk(v, b);
    }
    forall tx
      ensures TxOk(w, tx)
    {
      assert TxOk(v, tx) && AccountOk(v, a);
      GoneIs(a, items, kept, tx);
    }
  }

  lemma ForgetKeeps(v: View, txs: set<Tx>)
    requires Partition(v) && txs <= v.limbo
    ensures Partition(Forget(v, txs))
  {
    var w := Forget(v, txs);
    assert forall a :: AccountOk(v, a) ==> AccountOk(w, a);
    assert forall tx :: TxOk(v, tx) ==> TxOk(w, tx);
  }

  lemma PlaceKeeps(v: View, strict: bool, tx: Tx)
    requires Partition(v) && tx.signed && tx.nonce !in Of(v.Lists(!strict), tx.sender)
    ensures Partition(Place(v, strict, tx))
  {
    var w := Place(v, strict, tx);
    forall b
      ensures AccountOk(w, b)
    {
      assert AccountOk(v, b);
    }
    forall t
      ensures TxOk(w, t)
    {
      assert TxOk(v, t) && AccountOk(v, tx.sender);
    }
  }

  /** A list emptied of its last transaction may go. */
  lemma DeleteKeeps(v: View, strict: bool, a: Address)
    requires Partition(v) && Of(v.Lists(strict), a) == map[]
    ensures Partition(v.WithLists(strict, v.Lists(strict) - {a}))
  {
    var w := v.WithLists(strict, v.Lists(strict) - {a});
    assert forall b :: AccountOk(v, b) ==> AccountOk(w, b);
    assert forall tx :: TxOk(v, tx) ==> TxOk(w, tx);
  }

  /** Transactions of one account go from limbo to one of its lists. */
  ghost function Move(v: View, strict: bool, a: Address, moved: Items): View {
    if moved == map[] then v
    else v.WithLists(strict, v.Lists(strict)[a := Of(v.Lists(strict), a) + moved]).(limbo := v.limbo - moved.Values)
  }

  /** Taking one more transaction along. */
  lemma MoveOne(v: View, strict: bool, a: Address, moved: Items, tx: Tx)
    requires tx.sender == a && tx.nonce !in moved && tx.nonce !in Of(v.Lists(strict), a) && tx in v.all
    ensures Move(v, strict, a, moved[tx.nonce := tx]) == Place(Move(v, strict, a, moved), strict, tx)
    ensures tx.nonce !in Of(Move(v, strict, a, moved).Lists(strict), a)
  {
    var next, w := moved[tx.nonce := tx], Move(v, strict, a, moved);
    NextValues(moved, tx);
    assert Of(w.Lists(strict), a) == Of(v.Lists(strict), a) + moved;
    assert Of(v.Lists(strict), a) + next == Of(w.Lists(strict), a)[tx.nonce := tx];
    assert w.all == v.all && v.all - {} + {tx} == v.all;
    assert Move(v, strict, a, next).limbo == w.limbo - {tx};
    assert Move(v, strict, a, next).Lists(strict) == w.Lists(strict)[a := Of(w.Lists(strict), a)[tx.nonce := tx]];
  }

  lemma NextValues(moved: Items, tx: Tx)
    requires tx.nonce !in moved
    ensures moved[tx.nonce := tx].Values == moved.Values + {tx}
  {
    var next := moved[tx.nonce := tx];
    assert forall n :: n in moved ==> next[n] == moved[n];
    assert next[tx.nonce] == tx;
    assert forall t :: t in moved.Values ==> exists n :: n in moved && moved[n] == t;
    assert forall t :: t in next.Values ==> exists n :: n in next && next[n] == t;
  }

  /** A list goes when it has become empty. */
  ghost function Keep(lists: Accounts, a: Address, kept: Items): Accounts {
    if kept == map[] then lists - {a} else lists[a := kept]
  }

  /** Removing a transaction from the pool: what followed it in the pending list is queued. */
  ghost function Removal(v: View, tx: Tx): View {
    var a, w := tx.sender, v.(all := v.all - {tx});
    if tx.nonce in v.Pending(a) then
      Move(w.(pending := Keep(v.pending, a, Below(v.Pending(a), tx.nonce))), false, a, From(v.Pending(a), tx.nonce + 1))
    else if a in v.queue then
      w.(queue := Keep(v.queue, a, v.Queued(a) - {tx.nonce}))
    else
      w
  }

  /** A list without one nonce; a strict one also loses whatever comes after it. */
  ghost function Without(strict: bool, items: Items, nonce: uint64): Items {
    if strict && nonce in items then Below(items, nonce) else items - {nonce}
  }

  lemma WithoutIs(strict: bool, items: Items, nonce: uint64)
    ensures Without(strict, items, nonce) == if strict && nonce in items then Below(items, nonce) else items - {nonce}
  {
  }

  /** Transactions in limbo that do not collide with anything their account has listed. */
  ghost predicate Movable(v: View, a: Address, items: Items) {
    && OwnedBy(a, items) && items.Values <= v.limbo
    && items.Keys !! v.Pending(a).Keys && items.Keys !! v.Queued(a).Keys
  }

  lemma KeepIs(lists: Accounts, a: Address)
    requires a in lists
    ensures Keep(lists, a, Of(lists, a)) == if lists[a] == map[] then lists - {a} else lists
  {
  }

  lemma CloseKeeps(v: View, strict: bool, a: Address)
    requires Partition(v) && a in v.Lists(strict)
    ensures Partition(v.WithLists(strict, Keep(v.Lists(strict), a, Of(v.Lists(strict), a))))
  {
    hide Partition;
    KeepIs(v.Lists(strict), a);
    if v.Lists(strict)[a] == map[] {
      DeleteKeeps(v, strict, a);
    }
  }

  /** One account's list cut down to `kept` and closed if that is nothing. */
  ghost function Trim(v: View, strict: bool, a: Address, kept: Items): View {
    v.WithLists(strict, Keep(v.Lists(strict), a, kept)).(limbo := v.limbo + Gone(Of(v.Lists(strict), a), kept))
  }

  lemma TrimKeeps(v: View, strict: bool, a: Address, kept: Items)
    requires Partition(v) && Sub(kept, Of(v.Lists(strict), a))
    ensures Partition(Trim(v, strict, a, kept))
  {
    TakeKeeps(v, strict, a, kept);
    var w := Take(v, strict, a, kept);
    if kept == map[] {
      DeleteKeeps(w, strict, a);
      assert w.Lists(strict) - {a} == v.Lists(strict) - {a};
    }
  }

  lemma TrimTake(v: View, strict: bool, a: Address, kept: Items)
    ensures var w := Take(v, strict, a, kept);
      w.WithLists(strict, Keep(w.Lists(strict), a, Of(w.Lists(strict), a))) == Trim(v, strict, a, kept)
  {
    var w := Take(v, strict, a, kept);
    assert Of(w.Lists(strict), a) == kept;
    assert Keep(w.Lists(strict), a, kept) == Keep(v.Lists(strict), a, kept);
  }

  lemma LiveIsListed(v: View, tx: Tx)
    requires Partition(v) && v.limbo == {} && tx in v.all
    ensures tx.signed
    ensures if tx.nonce in v.Pending(tx.sender) then v.Pending(tx.sender)[tx.nonce] == tx
            else tx.nonce in v.Queued(tx.sender) && v.Queued(tx.sender)[tx.nonce] == tx
  {
    assert TxOk(v, tx) && AccountOk(v, tx.sender);
  }

  lemma GoneAfter(a: Address, items: Items, tx: Tx)
    requires OwnedBy(a, items) && Holds(items, tx)
    ensures Gone(items, Below(items, tx.nonce)) == {tx} + From(items, tx.nonce + 1).Values
    ensures Gone(items, items - {tx.nonce}) == {tx}
    ensures tx !in From(items, tx.nonce + 1).Values
  {
    var kept, rest := Below(items, tx.nonce), From(items, tx.nonce + 1);
    forall t
      ensures t in Gone(items, kept) <==> t == tx || t in rest.Values
    {
      GoneIs(a, items, kept, t);
      assert t in rest.Values <==> t.nonce in rest && rest[t.nonce] == t by {
        if t in rest.Values {
          var n :| n in rest && rest[n] == t;
        }
      }
    }
    forall t
      ensures t in Gone(items, items - {tx.nonce}) <==> t == tx
    {
      GoneIs(a, items, items - {tx.nonce}, t);
    }
  }

  /** Cutting a pending list before a transaction, with the transaction itself struck off. */
  lemma RemovePending(v: View, tx: Tx)
    requires Partition(v) && v.limbo == {} && tx in v.all && tx.nonce in v.Pending(tx.sender)
    ensures var a, n := tx.sender, tx.nonce;
      var t := Trim(v.(all := v.all - {tx}), true, a, Without(true, v.Pending(a), n));
      var u := t.(limbo := t.limbo - {tx});
      && Partition(u) && Movable(u, a, From(v.Pending(a), n + 1)) && tx.signed
      && Move(u, false, a, From(v.Pending(a), n + 1)) == Removal(v, tx) && Removal(v, tx).limbo == {}
  {
    var a, items := tx.sender, v.Pending(tx.sender);
    LiveIsListed(v, tx);
    assert AccountOk(v, a);
    hide Partition;
    GoneAfter(a, items, tx);
    TrimKeeps(v, true, a, Below(items, tx.nonce));
    ForgetKeeps(Trim(v, true, a, Below(items, tx.nonce)), {tx});
    RemovalRequeues(v, tx);
  }

  lemma RemovalRequeues(v: View, tx: Tx)
    requires AccountOk(v, tx.sender) && v.limbo == {} && Holds(v.Pending(tx.sender), tx)
    requires var items := v.Pending(tx.sender);
      Gone(items, Below(items, tx.nonce)) == {tx} + From(items, tx.nonce + 1).Values
      && tx !in From(items, tx.nonce + 1).Values
    ensures var a, n := tx.sender, tx.nonce;
      var t := Trim(v, true, a, Below(v.Pending(a), n));
      var u := Forget(t, {tx});
      && Movable(u, a, From(v.Pending(a), n + 1))
      && Move(u, false, a, From(v.Pending(a), n + 1)) == Removal(v, tx) && Removal(v, tx).limbo == {}
  {
    var a, items := tx.sender, v.Pending(tx.sender);
    var kept, rest := Below(items, tx.nonce), From(items, tx.nonce + 1);
    hide Trim, Forget, Keep, Gone, Move, Below, From, AccountOk, Movable, Removal;
    TrimmedForgotten(v, a, kept, rest, tx);
    RemovalIs(v, tx);
    var u := Forget(Trim(v, true, a, kept), {tx});
    FollowersMovable(v, u, a, tx.nonce);
    MovesEither(v.(pending := Keep(v.pending, a, kept), all := v.all - {tx}), a, rest);
  }

  lemma RemovalIs(v: View, tx: Tx)
    requires tx.nonce in v.Pending(tx.sender)
    ensures var a, kept := tx.sender, Below(v.Pending(tx.sender), tx.nonce);
      Removal(v, tx) == Move(v.(pending := Keep(v.pending, a, kept), all := v.all - {tx}), false, a,
        From(v.Pending(a), tx.nonce + 1))
  {
    hide Move, Keep, Below, From;
  }

  lemma TrimmedForgotten(v: View, a: Address, kept: Items, rest: Items, tx: Tx)
    requires v.limbo == {} && Gone(v.Pending(a), kept) == {tx} + rest.Values && tx !in rest.Values
    ensures var u := Forget(Trim(v, true, a, kept), {tx});
      && u == v.(pending := Keep(v.pending, a, kept), all := v.all - {tx}, limbo := rest.Values)
      && u.Pending(a) == kept && u.Queued(a) == v.Queued(a)
  {
    hide Gone;
  }

  lemma FollowersMovable(v: View, u: View, a: Address, n: uint64)
    requires AccountOk(v, a) && u.Queued(a) == v.Queued(a) && u.limbo == From(v.Pending(a), n + 1).Values
    requires u.Pending(a) == Below(v.Pending(a), n)
    ensures Movable(u, a, From(v.Pending(a), n + 1))
  {
  }

  /** Moving transactions comes to the same whether they are in limbo or nothing is. */
  lemma MovesEither(w: View, a: Address, moved: Items)
    requires w.limbo == {}
    ensures Move(w.(limbo := moved.Values), false, a, moved) == Move(w, false, a, moved)
    ensures Move(w, false, a, moved).limbo == {}
  {
  }

  lemma RemoveQueued(v: View, tx: Tx)
    requires Partition(v) && v.limbo == {} && tx in v.all && tx.nonce !in v.Pending(tx.sender)
    ensures var a, n := tx.sender, tx.nonce;
      var t := Trim(v.(all := v.all - {tx}), false, a, Without(false, v.Queued(a), n));
      var u := t.(limbo := t.limbo - {tx});
      && a in v.queue && Partition(u) && u == Removal(v, tx) && u.limbo == {}
  {
    var a, n := tx.sender, tx.nonce;
    var items := v.Queued(a);
    LiveIsListed(v, tx);
    assert AccountOk(v, a);
    GoneAfter(a, items, tx);
    TrimKeeps(v, false, a, items - {n});
    ForgetKeeps(Trim(v, false, a, items - {n}), {tx});
  }

  /** Looking for a nonce that is not there leaves a list as it was. */
  lemma NotThere(v: View, strict: bool, a: Address, n: uint64)
    requires a in v.Lists(strict) && n !in Of(v.Lists(strict), a)
    ensures Take(v, strict, a, Without(strict, Of(v.Lists(strict), a), n)) == v
  {
    var items := Of(v.Lists(strict), a);
    assert items - {n} == items;
    assert Gone(items, items) == {};
    assert v.Lists(strict)[a := items] == v.Lists(strict);
  }

  /** Cuts a list and strikes off what is cut. */
  ghost function Drop(v: View, strict: bool, a: Address, kept: Items): View {
    v.WithLists(strict, v.Lists(strict)[a := kept]).(all := v.all - Gone(Of(v.Lists(strict), a), kept))
  }

  lemma DropKeeps(v: View, strict: bool, a: Address, kept: Items)
    requires Partition(v) && v.limbo == {} && Sub(kept, Of(v.Lists(strict), a))
    ensures Partition(Drop(v, strict, a, kept)) && Partition(Take(v, strict, a, kept))
    ensures Forget(Take(v, strict, a, kept), Gone(Of(v.Lists(strict), a), kept)) == Drop(v, strict, a, kept)
    ensures Gone(Of(v.Lists(strict), a), kept) == Take(v, strict, a, kept).limbo
  {
    hide Partition;
    TakeKeeps(v, strict, a, kept);
    ForgetKeeps(Take(v, strict, a, kept), Gone(Of(v.Lists(strict), a), kept));
  }

  /** Taking some transactions off one list so that they can go on the other. */
  lemma TakenMovable(v: View, strict: bool, a: Address, kept: Items, moved: Items)
    requires Partition(v) && v.limbo == {} && Sub(kept, Of(v.Lists(strict), a))
    requires Sub(moved, Of(v.Lists(strict), a) - kept.Keys)
    ensures Partition(Take(v, strict, a, kept)) && Movable(Take(v, strict, a, kept), a, moved)
  {
    TakeKeeps(v, strict, a, kept);
    assert AccountOk(v, a);
    hide Partition;
    var w := Take(v, strict, a, kept);
    assert Of(w.Lists(strict), a) == kept && Of(w.Lists(!strict), a) == Of(v.Lists(!strict), a);
    forall t | t in moved.Values
      ensures t in w.limbo
    {
      var n :| n in moved && moved[n] == t;
    }
  }

  /** Moving everything that was taken leaves nothing in limbo. */
  lemma MovedAll(v: View, strict: bool, a: Address, kept: Items)
    requires v.limbo == {}
    ensures Move(Take(v, strict, a, kept), !strict, a, Of(v.Lists(strict), a) - kept.Keys).limbo == {}
  {
    var items := Of(v.Lists(strict), a);
    var moved := items - kept.Keys;
    forall t | t in Gone(items, kept)
      ensures t in moved.Values
    {
      var n :| n in items && n !in kept && items[n] == t;
      assert moved[n] == t;
    }
  }
}
