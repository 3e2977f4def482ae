/** What the operations of the pool do, told on values: which transactions are valid, what removing
    some of them leaves, and what taking in another one comes to. */
module Ledgers {
  import opened Types
  import opened NonceMap
  import opened TxLists
  import opened TxPriceds
  import opened PoolViews
  import opened IntrinsicGases

  /** Pool limits, small enough for the machine arithmetic on them to be exact. */
  type Limit = x: int | 0 <= x < 0x4000_0000_0000_0000

  datatype Config = Config(noLocals: bool, priceLimit: nat, priceBump: uint64, accountSlots: Limit,
                           globalSlots: Limit, accountQueue: Limit, globalQueue: Limit, lifetime: nat)

  function Sanitize(config: Config): Config {
    config.(priceLimit := if config.priceLimit < 1 then 1 else config.priceLimit,
            priceBump := if config.priceBump < 1 then 10 else config.priceBump)
  }

  datatype PoolError = KnownTransaction | OversizedData | NegativeValue | GasLimit | InvalidSender | Underpriced
    | NonceTooLow | InsufficientFunds | OutOfGas | IntrinsicGas | ReplaceUnderpriced

  datatype AddResult = Added(replaced: bool) | Refused(error: PoolError)

  /** Nonces and balances at the head of the chain. */
  datatype ChainState = ChainState(nonces: map<Address, uint64>, balances: map<Address, nat>) {
    function Nonce(a: Address): uint64 {
      if a in nonces then nonces[a] else 0
    }

    function Balance(a: Address): nat {
      if a in balances then balances[a] else 0
    }
  }

  function NextNonce(nonces: map<Address, uint64>, head: ChainState, a: Address): uint64 {
    if a in nonces then nonces[a] else head.Nonce(a)
  }

  /** What the pool goes by: its limits, the head of the chain, the price it asks and the time. */
  datatype Setting = Settings(config: Config, head: ChainState, maxGas: uint64, gasPrice: nat, homestead: bool,
                              now: nat)

  // ---------- validity ----------

  /** What each refusal means, the gas being reckoned on unbounded numbers. */
  predicate Breaks(s: Setting, tx: Tx, exempt: bool, error: PoolError) {
    match error
    case OversizedData => 32 * 1024 < tx.size
    case NegativeValue => tx.value < 0
    case GasLimit => s.maxGas < tx.gas
    case InvalidSender => !tx.signed
    case Underpriced => !exempt && tx.gasPrice < s.gasPrice
    case NonceTooLow => tx.nonce < s.head.Nonce(tx.sender)
    case InsufficientFunds => s.head.Balance(tx.sender) < tx.Cost()
    case OutOfGas => TWO_64 <= ExactGas(tx.data, tx.to.None?, s.homestead)
    case IntrinsicGas => tx.gas < ExactGas(tx.data, tx.to.None?, s.homestead)
    case _ => false
  }

  /** The order in which the rules are looked at. */
  function Rank(error: PoolError): nat {
    match error
    case OversizedData => 0
    case NegativeValue => 1
    case GasLimit => 2
    case InvalidSender => 3
    case Underpriced => 4
    case NonceTooLow => 5
    case InsufficientFunds => 6
    case OutOfGas => 7
    case IntrinsicGas => 8
    case _ => 9
  }

  /** The first rule a transaction breaks. */
  function Verdict(s: Setting, tx: Tx, exempt: bool): (r: Option<PoolError>)
    ensures r.None? ==> forall error :: !Breaks(s, tx, exempt, error)
    ensures r.Some? ==> Breaks(s, tx, exempt, r.value)
    ensures r.Some? ==> forall error :: Breaks(s, tx, exempt, error) ==> Rank(r.value) <= Rank(error)
  {
    if tx.size > 32 * 1024 then Some(OversizedData)
    else if tx.value < 0 then Some(NegativeValue)
    else if s.maxGas < tx.gas then Some(GasLimit)
    else if !tx.signed then Some(InvalidSender)
    else if !exempt && s.gasPrice > tx.gasPrice then Some(Underpriced)
    else if s.head.Nonce(tx.sender) > tx.nonce then Some(NonceTooLow)
    else if s.head.Balance(tx.sender) < tx.Cost() then Some(InsufficientFunds)
    else match Intrinsic(tx.data, tx.to.None?, s.homestead)
      case None => Some(OutOfGas)
      case Some(gas) => if tx.gas < gas then Some(IntrinsicGas) else None
  }

  // ---------- removal ----------

  /** The transactions listed, the next nonces, when each account was last heard from, and which are local. */
  datatype Ledger = Entries(view: View, nonces: map<Address, uint64>, beats: map<Address, nat>, locals: set<Address>)

  /** Removing a transaction: its account's next nonce steps back to a pending one, and the account is
      forgotten when it has nothing pending any more. */
  ghost function RemovalOf(l: Ledger, tx: Tx, head: ChainState): Ledger {
    var a, pending := tx.sender, l.view.Pending(tx.sender);
    if tx !in l.view.all then l
    else if tx.nonce !in pending then l.(view := Removal(l.view, tx))
    else l.(view := Removal(l.view, tx),
            nonces := if tx.nonce < NextNonce(l.nonces, head, a) then l.nonces[a := tx.nonce] else l.nonces,
            beats := if Below(pending, tx.nonce) == map[] then l.beats - {a} else l.beats)
  }

  ghost function Removals(l: Ledger, drop: seq<Tx>, head: ChainState): Ledger {
    if drop == [] then l else RemovalOf(Removals(l, drop[..|drop| - 1], head), drop[|drop| - 1], head)
  }

  lemma NoRemovals(l: Ledger, head: ChainState)
    ensures Removals(l, [], head) == l
  {
  }

  lemma RemovalsNext(l: Ledger, drop: seq<Tx>, head: ChainState, i: nat)
    requires i < |drop|
    ensures Removals(l, drop[..i + 1], head) == RemovalOf(Removals(l, drop[..i], head), drop[i], head)
  {
    assert drop[..i + 1][..i] == drop[..i];
  }

  lemma RemovalOfNone(l: Ledger, tx: Tx, head: ChainState)
    ensures tx !in l.view.all ==> RemovalOf(l, tx, head) == l
  {
  }

  lemma RemovalOfParts(l: Ledger, m: Ledger, tx: Tx, head: ChainState)
    requires tx in l.view.all && m.view == Removal(l.view, tx) && m.locals == l.locals
    requires m.nonces == if tx.nonce in l.view.Pending(tx.sender) && tx.nonce < NextNonce(l.nonces, head, tx.sender)
      then l.nonces[tx.sender := tx.nonce] else l.nonces
    requires m.beats == if tx.nonce in l.view.Pending(tx.sender) && Below(l.view.Pending(tx.sender), tx.nonce) == map[]
      then l.beats - {tx.sender} else l.beats
    ensures m == RemovalOf(l, tx, head)
  {
    hide Removal, Below;
  }

  lemma RemovalView(l: Ledger, tx: Tx, head: ChainState)
    ensures RemovalOf(l, tx, head).view == if tx in l.view.all then Removal(l.view, tx) else l.view
    ensures RemovalOf(l, tx, head).locals == l.locals
  {
  }

  // ---------- taking in ----------

  predicate Remote(tx: Tx, locals: set<Address>) {
    !(tx.signed && tx.sender in locals)
  }

  /** There are transactions, and none of them is cheaper. */
  ghost predicate NoneCheaper(live: set<Tx>, tx: Tx) {
    live != {} && forall t :: t in live ==> tx.gasPrice <= t.gasPrice
  }

  /** Whether the pool holds as many transactions as its limits admit together. */
  ghost predicate Full(config: Config, v: View) {
    |v.all| >= config.globalSlots + config.globalQueue
  }

  /** Remote transactions of the lowest prices, at most `count` of them and fewer only if there are no more. */
  ghost predicate Cheapest(drop: seq<Tx>, live: set<Tx>, locals: set<Address>, count: int) {
    && (forall d :: d in drop ==> d in live && Remote(d, locals))
    && (forall d, tx :: d in drop && tx in live && Remote(tx, locals) && tx !in drop ==> !PriceLess(tx, d))
    && (if 0 <= count then |drop| <= count else drop == [])
    && (|drop| < count ==> forall tx :: tx in live && Remote(tx, locals) ==> tx in drop)
  }

  ghost predicate Accepts(items: Items, tx: Tx, priceBump: uint64) {
    tx.nonce in items ==> Outbids(items[tx.nonce], tx, priceBump)
  }

  /** How an accepted or refused newcomer shows once there is room for it. */
  ghost predicate Arrived(v: View, w: View, tx: Tx, priceBump: uint64, r: AddResult) {
    var pending := tx.nonce in v.Pending(tx.sender);
    var items := if pending then v.Pending(tx.sender) else v.Queued(tx.sender);
    if Accepts(items, tx, priceBump) then r == Added(tx.nonce in items) && w == Place(v, pending, tx)
    else r == Refused(ReplaceUnderpriced) && w == v
  }

  /** Room is made in a full pool before the newcomer is placed; the sender of a local one that did not
      replace a pending transaction becomes local. */
  ghost predicate RoomMade(s: Setting, l: Ledger, m: Ledger, tx: Tx, local: bool, drop: seq<Tx>, r: AddResult) {
    && (if Full(s.config, l.view)
        then Cheapest(drop, l.view.all, l.locals, |l.view.all| - (s.config.globalSlots + s.config.globalQueue - 1))
        else drop == [])
    && var u := Removals(l, drop, s.head);
      && Partition(u.view) && Arrived(u.view, m.view, tx, s.config.priceBump, r)
      && m == u.(view := m.view, locals := if r.Added? && local && tx.nonce !in u.view.Pending(tx.sender)
                                           then u.locals + {tx.sender} else u.locals)
  }

  lemma RoomMadeParts(s: Setting, l: Ledger, u: Ledger, m: Ledger, tx: Tx, local: bool, drop: seq<Tx>, r: AddResult)
    requires Full(s.config, l.view) ==>
      Cheapest(drop, l.view.all, l.locals, |l.view.all| - (s.config.globalSlots + s.config.globalQueue - 1))
    requires !Full(s.config, l.view) ==> drop == []
    requires u == Removals(l, drop, s.head) && Partition(u.view) && Arrived(u.view, m.view, tx, s.config.priceBump, r)
    requires m == u.(view := m.view, locals := if r.Added? && local && tx.nonce !in u.view.Pending(tx.sender)
                                               then u.locals + {tx.sender} else u.locals)
    ensures RoomMade(s, l, m, tx, local, drop, r)
  {
  }

  /** What taking in one transaction does to the pool, in every case. */
  ghost predicate Addition(s: Setting, l: Ledger, m: Ledger, tx: Tx, local: bool, drop: seq<Tx>, r: AddResult) {
    var verdict := Verdict(s, tx, local || tx.sender in l.locals);
    if tx in l.view.all then
      r == Refused(KnownTransaction) && m == l && drop == []
    else if verdict.Some? then
      r == Refused(verdict.value) && m == l && drop == []
    else if Full(s.config, l.view) && !local && Remote(tx, l.locals) && NoneCheaper(l.view.all, tx) then
      r == Refused(Underpriced) && m == l && drop == []
    else
      RoomMade(s, l, m, tx, local, drop, r)
  }

  // ---------- where transactions come from ----------

  /** Whatever is listed in the end was listed at the beginning or is one of some newcomers. */
  ghost predicate Comes(v: View, w: View, newcomers: set<Tx>) {
    forall tx :: w.Listed(tx) ==> v.Listed(tx) || tx in newcomers
  }

  lemma RemovalComes(v: View, tx: Tx)
    ensures Comes(v, Removal(v, tx), {})
  {
    var w, a := Removal(v, tx), tx.sender;
    var moved := From(v.Pending(a), tx.nonce + 1);
    forall t | w.Listed(t)
      ensures v.Listed(t)
    {
      if t.sender == a && tx.nonce in v.Pending(a) {
        assert w.Queued(a) == v.Queued(a) + moved || w.Queued(a) == v.Queued(a);
        assert w.Pending(a) == Below(v.Pending(a), tx.nonce);
      }
    }
  }

  lemma {:induction false} RemovalsComes(l: Ledger, drop: seq<Tx>, head: ChainState)
    ensures Comes(l.view, Removals(l, drop, head).view, {})
    ensures Removals(l, drop, head).locals == l.locals
  {
    if drop != [] {
      var m, last := Removals(l, drop[..|drop| - 1], head), drop[|drop| - 1];
      RemovalsComes(l, drop[..|drop| - 1], head);
      RemovalComes(m.view, last);
      hide Removal;
    }
  }

  /** Taking in a transaction brings nothing else in, and makes nobody local but the sender of an accepted
      local one. */
  lemma AdditionComes(s: Setting, l: Ledger, m: Ledger, tx: Tx, local: bool, drop: seq<Tx>, r: AddResult)
    requires Addition(s, l, m, tx, local, drop, r)
    ensures Comes(l.view, m.view, {tx})
    ensures l.locals <= m.locals <= l.locals + {tx.sender} && (m.locals != l.locals ==> r.Added? && local)
  {
    hide Verdict, NoneCheaper, Cheapest, Full, Removals, Accepts;
    var u := Removals(l, drop, s.head);
    RemovalsComes(l, drop, s.head);
    if m != l {
      var pending := tx.nonce in u.view.Pending(tx.sender);
      PlaceComes(u.view, pending, tx);
      hide Place;
      assert m.view == u.view || m.view == Place(u.view, pending, tx);
    }
  }

  lemma PlaceComes(v: View, strict: bool, tx: Tx)
    ensures Comes(v, Place(v, strict, tx), {tx})
  {
  }
}
