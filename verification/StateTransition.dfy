/** Applying one message: buying gas, running it, refunding what is left. */
module StateTransitions {
  import opened Types
  import opened IntrinsicGases
  import opened Sums

  type Balances = Amounts

  function BalanceOf(b: Balances, a: Address): nat {
    if a in b then b[a] else 0
  }

  function Credited(b: Balances, a: Address, amount: nat): Balances {
    b[a := BalanceOf(b, a) + amount]
  }

  /** No balance but that of `a` is different. */
  predicate OnlyAt(before: Balances, after: Balances, a: Address) {
    after == before[a := BalanceOf(after, a)]
  }

  /** All the ether there is. */
  ghost function Ether(b: Balances): nat {
    Sum(b)
  }

  /** The gas still available to a block. */
  class GasPool {
    var gas: uint64

    constructor ()
      ensures gas == 0
    {
      gas := 0;
    }

    method AddGas(amount: uint64)
      requires gas + amount < TWO_64
      modifies this
      ensures gas == old(gas) + amount
    {
      gas := gas + amount;
    }

    method SubGas(amount: uint64) returns (ok: bool)
      modifies this
      ensures ok <==> old(gas) >= amount
      ensures gas == if ok then old(gas) - amount else old(gas)
    {
      if gas < amount {
        return false;
      }
      gas := gas - amount;
      return true;
    }
  }

  datatype Message = Message(from: Address, to: Option<Address>, nonce: uint64, checkNonce: bool,
                             gas: uint64, gasPrice: nat, value: int, data: seq<byte>)

  datatype Failure =
    | NonceTooHigh
    | NonceTooLow
    | InsufficientBalanceForGas
    | GasLimitReached
    | OutOfGas
    | InsufficientBalance

  datatype Accounts = Accounts(balances: Balances, nonces: map<Address, uint64>)

  /** What running a message yields: the accounts after it, the gas left, the refund counter, the
      contents of the logs, whether it failed, and whether that was for want of balance. */
  datatype Outcome = Outcome(accounts: Accounts, left: nat, refund: nat, logs: seq<nat>, failed: bool, broke: bool)

  /** The virtual machine: a step that neither creates nor destroys ether and returns no more gas
      than it was given. */
  type Machine = (Accounts, Message, nat) -> Outcome

  ghost predicate Faithful(vm: Machine) {
    forall s, m, g {:trigger vm(s, m, g)} ::
      Ether(vm(s, m, g).accounts.balances) == Ether(s.balances) && vm(s, m, g).left <= g
  }

  datatype Result = Applied(used: uint64, failed: bool, logs: seq<nat>) | Rejected(failure: Failure)

  class State {
    var accounts: Accounts

    constructor (accounts': Accounts)
      ensures accounts == accounts'
    {
      accounts := accounts';
    }

    method AddBalance(a: Address, amount: nat)
      modifies this
      ensures Ether(accounts.balances) == old(Ether(accounts.balances)) + amount
      ensures accounts == old(accounts).(balances := Credited(old(accounts.balances), a, amount))
    {
      SumUpdate(accounts.balances, a, BalanceOf(accounts.balances, a) + amount);
      accounts := accounts.(balances := Credited(accounts.balances, a, amount));
    }

    method SubBalance(a: Address, amount: nat)
      requires BalanceOf(accounts.balances, a) >= amount
      modifies this
      ensures Ether(accounts.balances) == old(Ether(accounts.balances)) - amount
      ensures accounts == old(accounts).(balances := old(accounts.balances)[a := BalanceOf(old(accounts.balances),
        a) - amount])
    {
      SumUpdate(accounts.balances, a, BalanceOf(accounts.balances, a) - amount);
      accounts := accounts.(balances := accounts.balances[a := BalanceOf(accounts.balances, a) - amount]);
    }
  }

  function NonceOf(s: Accounts, a: Address): uint64 {
    if a in s.nonces then s.nonces[a] else 0
  }

  /** The gas charged: what was not left, less a refund of at most half of it. */
  function Charged(limit: nat, left: nat, refund: nat): nat
    requires left <= limit
  {
    var used := limit - left;
    used - if used / 2 > refund then refund else used / 2
  }

  /** What comes back of the gas used: the whole refund, or else as much as half of the gas used. */
  lemma RefundGranted(limit: nat, left: nat, refund: nat)
    requires left <= limit
    ensures var used, charged := limit - left, Charged(limit, left, refund);
      && 0 <= used - charged <= refund && 2 * (used - charged) <= used
      && (used - charged == refund || 2 * (used - charged + 1) > used)
  {
  }

  function Price(m: Message, gas: nat): nat {
    gas * m.gasPrice
  }

  /** The accounts once the sender has paid for all the gas. */
  function Debited(s: Accounts, m: Message): Accounts
    requires BalanceOf(s.balances, m.from) >= Price(m, m.gas)
  {
    s.(balances := s.balances[m.from := BalanceOf(s.balances, m.from) - Price(m, m.gas)])
  }

  /** Calls count the sender's nonce up themselves; for creations the machine does it. */
  function Counted(s: Accounts, m: Message): Accounts {
    if m.to.Some? then s.(nonces := s.nonces[m.from := AddWrap(NonceOf(s, m.from), 1)]) else s
  }

  /** Whether the nonce, the sender's means and the gas left in the block allow a message. */
  predicate Payable(s: Accounts, m: Message, pool: nat) {
    && (m.checkNonce ==> NonceOf(s, m.from) == m.nonce)
    && BalanceOf(s.balances, m.from) >= Price(m, m.gas) && pool >= m.gas
  }

  /** Why a message is rejected: the first of these conditions, of the price of its intrinsic gas and of the
      machine finding the sender without means that is not met. */
  ghost predicate Misses(s: Accounts, m: Message, pool: nat, homestead: bool, failure: Failure) {
    var nonce := if m.from in s.nonces then s.nonces[m.from] else 0;
    var balance := if m.from in s.balances then s.balances[m.from] else 0;
    failure == if m.checkNonce && nonce < m.nonce then NonceTooHigh
      else if m.checkNonce && m.nonce < nonce then NonceTooLow
      else if balance < m.gas * m.gasPrice then InsufficientBalanceForGas
      else if pool < m.gas then GasLimitReached
      else if m.gas < ExactGas(m.data, m.to.None?, homestead) then OutOfGas
      else InsufficientBalance
  }

  lemma PayableMisses(s: Accounts, m: Message, pool: nat, homestead: bool)
    ensures Payable(s, m, pool) ==>
      Misses(s, m, pool, homestead,
             if m.gas < ExactGas(m.data, m.to.None?, homestead) then OutOfGas else InsufficientBalance)
  {
    hide ExactGas;
    assert Price(m, m.gas) == m.gas * m.gasPrice;
  }

  /** What the machine makes of a message that has been paid for. */
  ghost function OutcomeOf(vm: Machine, s: Accounts, m: Message, homestead: bool): Outcome
    requires BalanceOf(s.balances, m.from) >= Price(m, m.gas) && ExactGas(m.data, m.to.None?, homestead) <= m.gas
  {
    vm(Counted(Debited(s, m), m), m, m.gas - ExactGas(m.data, m.to.None?, homestead))
  }

  /** Whether a message is applied: it must be paid for, its intrinsic gas included, and the machine must
      not find the sender unable to transfer the value. */
  ghost predicate Applies(vm: Machine, s: Accounts, m: Message, pool: nat, homestead: bool) {
    && Payable(s, m, pool) && ExactGas(m.data, m.to.None?, homestead) <= m.gas
    && var o := OutcomeOf(vm, s, m, homestead); !(o.failed && o.broke)
  }

  /** What applying a message comes to: the machine's outcome, with the gas not charged for returned to the
      sender and the rest paid to the miner. */
  ghost predicate AppliedAs(vm: Machine, s: Accounts, m: Message, homestead: bool, coinbase: Address, t: Accounts,
                            r: Result) {
    && BalanceOf(s.balances, m.from) >= Price(m, m.gas) && ExactGas(m.data, m.to.None?, homestead) <= m.gas
    && var o := OutcomeOf(vm, s, m, homestead);
      && o.left <= m.gas && r == Applied(Charged(m.gas, o.left, o.refund), o.failed, o.logs) && r.used <= m.gas
      && t == o.accounts.(balances := Credited(Credited(o.accounts.balances, m.from, Price(m, m.gas - r.used)),
                                               coinbase, Price(m, r.used)))
  }

  /** The same as functions, for a machine that returns no more gas than it was given. */
  ghost function AppliedResult(vm: Machine, s: Accounts, m: Message, homestead: bool): Result
    requires Faithful(vm) && BalanceOf(s.balances, m.from) >= Price(m, m.gas)
    requires ExactGas(m.data, m.to.None?, homestead) <= m.gas
  {
    var o := OutcomeOf(vm, s, m, homestead);
    Applied(Charged(m.gas, o.left, o.refund), o.failed, o.logs)
  }

  ghost function AppliedAccounts(vm: Machine, s: Accounts, m: Message, homestead: bool, coinbase: Address): Accounts
    requires Faithful(vm) && BalanceOf(s.balances, m.from) >= Price(m, m.gas)
    requires ExactGas(m.data, m.to.None?, homestead) <= m.gas
  {
    var o, used := OutcomeOf(vm, s, m, homestead), AppliedResult(vm, s, m, homestead).used;
    o.accounts.(balances := Credited(Credited(o.accounts.balances, m.from, Price(m, m.gas - used)),
                                     coinbase, Price(m, used)))
  }

  lemma AppliedAsIs(vm: Machine, s: Accounts, m: Message, pool: nat, homestead: bool, coinbase: Address, t: Accounts,
                    r: Result)
    requires Faithful(vm) && Applies(vm, s, m, pool, homestead) && AppliedAs(vm, s, m, homestead, coinbase, t, r)
    ensures r == AppliedResult(vm, s, m, homestead) && t == AppliedAccounts(vm, s, m, homestead, coinbase)
    ensures r.used <= m.gas <= pool
  {
    hide ExactGas, Price, Credited, OutcomeOf, Charged;
  }

  /** The machine's part of it, with so much gas left after the intrinsic gas. */
  ghost predicate Executed(vm: Machine, s: Accounts, m: Message, gas: nat, coinbase: Address, t: Accounts, r: Result) {
    var o := vm(Counted(s, m), m, gas);
    if o.failed && o.broke then r == Rejected(InsufficientBalance)
    else
      && o.left <= gas <= m.gas && r == Applied(Charged(m.gas, o.left, o.refund), o.failed, o.logs) && r.used <= m.gas
      && t == o.accounts.(balances := Credited(Credited(o.accounts.balances, m.from, Price(m, m.gas - r.used)),
                                               coinbase, Price(m, r.used)))
  }

  /** A message paid for is applied as promised unless the machine finds the sender without means, and at
      least half of the intrinsic gas is charged for. */
  lemma ExecutedApplies(vm: Machine, s: Accounts, m: Message, pool: nat, homestead: bool, coinbase: Address,
                        t: Accounts, r: Result)
    requires Payable(s, m, pool) && ExactGas(m.data, m.to.None?, homestead) <= m.gas
    requires Executed(vm, Debited(s, m), m, m.gas - ExactGas(m.data, m.to.None?, homestead), coinbase, t, r)
    ensures if r.Applied? then
        && Applies(vm, s, m, pool, homestead) && AppliedAs(vm, s, m, homestead, coinbase, t, r)
        && 2 * r.used >= ExactGas(m.data, m.to.None?, homestead)
      else !Applies(vm, s, m, pool, homestead) && r.failure == InsufficientBalance
  {
    hide ExactGas, Counted, Debited, Credited, Price;
  }

  /** The accounts the machine is run on: the sender has paid for all the gas, and a call has been counted. */
  ghost function PaidFor(s: Accounts, m: Message): Accounts
    requires BalanceOf(s.balances, m.from) >= m.gas * m.gasPrice
  {
    var nonce := if m.from in s.nonces then s.nonces[m.from] else 0;
    Accounts(s.balances[m.from := BalanceOf(s.balances, m.from) - m.gas * m.gasPrice],
             if m.to.None? then s.nonces
             else s.nonces[m.from := if nonce == 0xffff_ffff_ffff_ffff then 0 else nonce + 1])
  }

  /** What is left between the machine's accounts and the ones after it: the sender gets back the price of the
      gas not charged for, the miner gets the price of what was, and nothing else changes. */
  ghost predicate Settled(before: Accounts, after: Accounts, m: Message, coinbase: Address, used: int) {
    && after.nonces == before.nonces
    && forall a: Address :: (
      (if a in after.balances then after.balances[a] else 0) ==
      (if a in before.balances then before.balances[a] else 0)
      + (if a == m.from then (m.gas - used) * m.gasPrice else 0)
      + (if a == coinbase then used * m.gasPrice else 0))
  }

  /** The machine is run on what is left after paying for all the gas; of the gas used, the whole refund comes
      back, or else as much as half of the gas used, and that is settled. */
  ghost predicate RunAndSettled(vm: Machine, s: Accounts, m: Message, homestead: bool, coinbase: Address,
                                t: Accounts, r: Result) {
    var intrinsic := ExactGas(m.data, m.to.None?, homestead);
    && BalanceOf(s.balances, m.from) >= m.gas * m.gasPrice && intrinsic <= m.gas
    && var o := vm(PaidFor(s, m), m, m.gas - intrinsic);
      && o.left <= m.gas && r.Applied? && r.used <= m.gas - o.left && r.failed == o.failed && r.logs == o.logs
      && var used, back := m.gas - o.left, m.gas - o.left - r.used;
        && back <= o.refund && 2 * back <= used && (back == o.refund || 2 * (back + 1) > used)
        && Settled(o.accounts, t, m, coinbase, r.used)
  }

  /** An applied message is paid for, run, refunded and settled. */
  lemma AppliedSettles(vm: Machine, s: Accounts, m: Message, pool: nat, homestead: bool, coinbase: Address,
                       t: Accounts, r: Result)
    requires Applies(vm, s, m, pool, homestead) && AppliedAs(vm, s, m, homestead, coinbase, t, r)
    ensures RunAndSettled(vm, s, m, homestead, coinbase, t, r)
  {
    hide ExactGas;
    assert Price(m, m.gas) == m.gas * m.gasPrice;
    PaidForIs(s, m);
    hide Debited, Counted, PaidFor;
    var o := OutcomeOf(vm, s, m, homestead);
    RefundGranted(m.gas, o.left, o.refund);
    CreditedSettles(o.accounts, t, m, coinbase, r.used);
    hide Settled, Charged, Price, Credited;
  }

  lemma PaidForIs(s: Accounts, m: Message)
    requires BalanceOf(s.balances, m.from) >= m.gas * m.gasPrice
    ensures Price(m, m.gas) == m.gas * m.gasPrice && Counted(Debited(s, m), m) == PaidFor(s, m)
  {
  }

  lemma CreditedSettles(before: Accounts, after: Accounts, m: Message, coinbase: Address, used: nat)
    requires used <= m.gas
    requires after == before.(balances := Credited(Credited(before.balances, m.from, Price(m, m.gas - used)),
                                                   coinbase, Price(m, used)))
    ensures Settled(before, after, m, coinbase, used)
  {
    assert Price(m, m.gas - used) == (m.gas - used) * m.gasPrice && Price(m, used) == used * m.gasPrice;
    hide Price;
  }

  /** Exactly when a message is applied. */
  lemma AppliesExactly(vm: Machine, s: Accounts, m: Message, pool: nat, homestead: bool)
    ensures Applies(vm, s, m, pool, homestead) <==> (
      && (m.checkNonce ==> m.nonce == if m.from in s.nonces then s.nonces[m.from] else 0)
      && BalanceOf(s.balances, m.from) >= m.gas * m.gasPrice && m.gas <= pool
      && ExactGas(m.data, m.to.None?, homestead) <= m.gas
      && var o := vm(PaidFor(s, m), m, m.gas - ExactGas(m.data, m.to.None?, homestead)); !(o.failed && o.broke))
  {
    hide ExactGas;
    assert Price(m, m.gas) == m.gas * m.gasPrice;
    if BalanceOf(s.balances, m.from) >= m.gas * m.gasPrice { PaidForIs(s, m); }
    hide Debited, Counted, PaidFor, Price;
  }

  lemma NotApplied(vm: Machine, s: Accounts, m: Message, pool: nat, homestead: bool)
    requires !Payable(s, m, pool) || ExactGas(m.data, m.to.None?, homestead) > m.gas
    ensures !Applies(vm, s, m, pool, homestead)
  {
  }

  class StateTransition {
    const gp: GasPool
    const state: State
    const msg: Message
    const vm: Machine
    const coinbase: Address
    const homestead: bool
    var gas: uint64
    var initialGas: uint64

    constructor (vm': Machine, msg': Message, gp': GasPool, state': State, coinbase': Address, homestead': bool)
      ensures vm == vm' && msg == msg' && gp == gp' && state == state'
      ensures coinbase == coinbase' && homestead == homestead'
      ensures gas == initialGas == 0
    {
      vm, msg, gp, state, coinbase, homestead := vm', msg', gp', state', coinbase', homestead';
      gas, initialGas := 0, 0;
    }

    function GasUsed(): int
      reads this
    {
      initialGas - gas
    }

    method UseGas(amount: uint64) returns (ok: bool)
      modifies `gas
      ensures ok <==> old(gas) >= amount
      ensures gas == if ok then old(gas) - amount else old(gas)
    {
      if gas < amount {
        return false;
      }
      gas := gas - amount;
      return true;
    }

    /** Takes the price of all the gas from the sender and all the gas from the block. */
    method BuyGas() returns (r: Option<Failure>)
      requires gas == 0
      modifies this, gp, state
      ensures r.None? <==>
        BalanceOf(old(state.accounts.balances), msg.from) >= Price(msg, msg.gas) && old(gp.gas) >= msg.gas
      ensures r.Some? ==> r.value == if BalanceOf(old(state.accounts.balances), msg.from) < msg.gas * msg.gasPrice
        then InsufficientBalanceForGas else GasLimitReached
      ensures r.Some? ==> state.accounts == old(state.accounts) && gp.gas == old(gp.gas)
      ensures r.None? ==> gas == initialGas == msg.gas && gp.gas == old(gp.gas) - msg.gas
      ensures r.None? ==> Ether(state.accounts.balances) == old(Ether(state.accounts.balances)) - Price(msg, msg.gas)
      ensures r.None? ==> OnlyAt(old(state.accounts.balances), state.accounts.balances, msg.from)
      ensures r.None? ==> state.accounts == Debited(old(state.accounts), msg)
      ensures state.accounts.nonces == old(state.accounts.nonces)
    {
      var mgval := Price(msg, msg.gas);
      if BalanceOf(state.accounts.balances, msg.from) < mgval {
        return Some(InsufficientBalanceForGas);
      }
      var ok := gp.SubGas(msg.gas);
      if !ok {
        return Some(GasLimitReached);
      }
      gas := gas + msg.gas;
      initialGas := msg.gas;
      state.SubBalance(msg.from, mgval);
      return None;
    }

    /** Whether the nonce and the sender's means allow the message. */
    ghost predicate Affordable()
      reads this, gp, state
    {
      Payable(state.accounts, msg, gp.gas)
    }

    method PreCheck() returns (r: Option<Failure>)
      requires gas == 0
      modifies this, gp, state
      ensures r.None? <==> old(Affordable())
      ensures r.Some? ==> Misses(old(state.accounts), msg, old(gp.gas), homestead, r.value)
      ensures r.Some? ==> state.accounts == old(state.accounts) && gp.gas == old(gp.gas)
      ensures r.None? ==> gas == initialGas == msg.gas && gp.gas == old(gp.gas) - msg.gas
      ensures r.None? ==> Ether(state.accounts.balances) == old(Ether(state.accounts.balances)) - Price(msg, msg.gas)
      ensures r.None? ==> state.accounts == Debited(old(state.accounts), msg)
    {
      if msg.checkNonce {
        var nonce := NonceOf(state.accounts, msg.from);
        if nonce < msg.nonce {
          return Some(NonceTooHigh);
        } else if nonce > msg.nonce {
          return Some(NonceTooLow);
        }
      }
      r := BuyGas();
    }

    /** Gives the unused gas back, with a refund of at most half of the used gas. */
    method RefundGas(counter: nat)
      requires gas <= initialGas && gp.gas + initialGas < TWO_64
      modifies `gas, gp, state
      ensures gas <= initialGas && initialGas - gas == Charged(initialGas, old(gas), counter)
      ensures var used, back := initialGas - old(gas), gas - old(gas);
        0 <= back <= counter && 2 * back <= used && (back == counter || 2 * (back + 1) > used)
      ensures gp.gas == old(gp.gas) + gas
      ensures state.accounts == old(state.accounts).(balances := Credited(old(state.accounts.balances), msg.from,
        Price(msg, gas)))
      ensures Ether(state.accounts.balances) == old(Ether(state.accounts.balances)) + Price(msg, gas)
    {
      var refund := GasUsed() / 2;
      if refund > counter {
        refund := counter;
      }
      gas := gas + refund;
      state.AddBalance(msg.from, Price(msg, gas));
      gp.AddGas(gas);
    }

    /** Runs the message with the gas that is left. */
    method Run() returns (refund: nat, logs: seq<nat>, failed: bool, broke: bool)
      requires Faithful(vm)
      modifies `gas, state
      ensures var o := vm(Counted(old(state.accounts), msg), msg, old(gas));
        && state.accounts == o.accounts && gas == o.left
        && refund == o.refund && logs == o.logs && failed == o.failed && broke == (o.failed && o.broke)
      ensures gas <= old(gas) && Ether(state.accounts.balances) == old(Ether(state.accounts.balances))
    {
      if msg.to.Some? {
        var nonce := AddWrap(NonceOf(state.accounts, msg.from), 1);
        state.accounts := state.accounts.(nonces := state.accounts.nonces[msg.from := nonce]);
      }
      var outcome := vm(state.accounts, msg, gas);
      state.accounts := outcome.accounts;
      gas := outcome.left;
      return outcome.refund, outcome.logs, outcome.failed, outcome.failed && outcome.broke;
    }

    /** Refunds the sender and pays the miner: together what was paid for the gas. */
    method Settle(counter: nat)
      requires gas <= initialGas == msg.gas && gp.gas + initialGas < TWO_64
      modifies `gas, gp, state
      ensures gas <= initialGas && initialGas - gas == Charged(initialGas, old(gas), counter)
      ensures gp.gas == old(gp.gas) + gas
      ensures state.accounts.balances == Credited(Credited(old(state.accounts.balances), msg.from, Price(msg, gas)),
                                                  coinbase, Price(msg, initialGas - gas))
      ensures state.accounts.nonces == old(state.accounts.nonces)
      ensures Ether(state.accounts.balances) == old(Ether(state.accounts.balances)) + Price(msg, msg.gas)
    {
      hide Ether, Price;
      RefundGas(counter);
      PriceSplits(msg, gas);
      state.AddBalance(coinbase, Price(msg, initialGas - gas));
    }

    /** A message that is applied moves ether but neither creates nor destroys any, and takes from the
        block exactly the gas it is charged for. */
    method TransitionDb() returns (r: Result)
      requires gas == 0 && Faithful(vm) && |msg.data| < TWO_64
      modifies this, gp, state
      ensures r.Applied? <==> Applies(vm, old(state.accounts), msg, old(gp.gas), homestead)
      ensures r.Applied? ==> AppliedAs(vm, old(state.accounts), msg, homestead, coinbase, state.accounts, r)
      ensures r.Applied? ==> RunAndSettled(vm, old(state.accounts), msg, homestead, coinbase, state.accounts, r)
      ensures r.Applied? ==> Ether(state.accounts.balances) == old(Ether(state.accounts.balances))
      ensures r.Applied? ==> gp.gas == old(gp.gas) - r.used && r.used <= msg.gas
      ensures r.Applied? ==> 2 * r.used >= ExactGas(msg.data, msg.to.None?, homestead)
      ensures r.Rejected? ==> Misses(old(state.accounts), msg, old(gp.gas), homestead, r.failure)
      ensures !old(Affordable()) ==> state.accounts == old(state.accounts) && gp.gas == old(gp.gas)
    {
      var failure := PreCheck();
      hide Applies, AppliedAs, ExactGas, Ether, Debited, Executed, Misses, RunAndSettled;
      PayableMisses(old(state.accounts), msg, old(gp.gas), homestead);
      if failure.Some? {
        NotApplied(vm, old(state.accounts), msg, old(gp.gas), homestead);
        return Rejected(failure.value);
      }
      hide Payable;
      var intrinsic := IntrinsicGas(msg.data, msg.to.None?, homestead);
      if intrinsic.None? {
        NotApplied(vm, old(state.accounts), msg, old(gp.gas), homestead);
        return Rejected(OutOfGas);
      }
      var ok := UseGas(intrinsic.value);
      if !ok {
        NotApplied(vm, old(state.accounts), msg, old(gp.gas), homestead);
        return Rejected(OutOfGas);
      }
      r := Execute(intrinsic.value);
      ExecutedApplies(vm, old(state.accounts), msg, old(gp.gas), homestead, coinbase, state.accounts, r);
      if r.Applied? {
        AppliedSettles(vm, old(state.accounts), msg, old(gp.gas), homestead, coinbase, state.accounts, r);
      }
    }

    /** Runs a message that has been paid for and settles the price of its gas. */
    method Execute(intrinsic: uint64) returns (r: Result)
      requires Faithful(vm) && initialGas == msg.gas && intrinsic <= msg.gas && gas == msg.gas - intrinsic
      requires gp.gas + msg.gas < TWO_64
      modifies `gas, gp, state
      ensures Executed(vm, old(state.accounts), msg, msg.gas - intrinsic, coinbase, state.accounts, r)
      ensures r.Applied? ==> r.used <= msg.gas && gp.gas == old(gp.gas) + (msg.gas - r.used)
      ensures r.Applied? ==> Ether(state.accounts.balances) == old(Ether(state.accounts.balances)) + Price(msg, msg.gas)
    {
      hide Ether, Price;
      assert vm(Counted(state.accounts, msg), msg, gas).left <= gas;
      hide Faithful;
      var counter, logs, failed, broke := Run();
      if broke {
        return Rejected(InsufficientBalance);
      }
      Settle(counter);
      return Applied(GasUsed(), failed, logs);
    }
  }

  lemma PriceSplits(m: Message, left: nat)
    requires left <= m.gas
    ensures Price(m, m.gas) == Price(m, left) + Price(m, m.gas - left)
  {
  }
}
