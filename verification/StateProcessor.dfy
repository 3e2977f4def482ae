/** Processing the transactions of a block, and recomputing what stored receipts leave out. */
module StateProcessors {
  import opened Types
  import opened StateTransitions
  import opened GasLimits
  import opened IntrinsicGases

  datatype BlockId = BlockId(number: uint64, hash: nat)

  /** A log and what is derived from its place: the block, the transaction and the position in the block. */
  datatype Log = Log(content: nat, block: Option<BlockId>, txHash: Option<TxHash>, txIndex: nat, index: nat)

  /** The address of a contract, determined by who created it with which nonce. */
  datatype Contract = Created(from: Address, nonce: uint64)

  datatype Receipt = Receipt(failed: bool, cumulative: uint64, gasUsed: uint64, txHash: Option<TxHash>,
                             contract: Option<Contract>, logs: seq<Log>)

  /** The sender as recovered from the signature; the zero address if there is none to be recovered. */
  function Signer(tx: Tx): Address {
    if tx.signed then tx.sender else Address(0)
  }

  function AsMessage(tx: Tx): Message {
    Message(tx.sender, tx.to, tx.nonce, true, tx.gas, tx.gasPrice, tx.value, tx.data)
  }

  function Contents(logs: seq<Log>): (c: seq<nat>)
    ensures |c| == |logs|
  {
    seq(|logs|, i requires 0 <= i < |logs| => logs[i].content)
  }

  /** The logs of the transaction at `txIndex` of a block, numbered from `first` on. */
  function Logged(contents: seq<nat>, block: BlockId, tx: Tx, txIndex: nat, first: nat): (logs: seq<Log>)
    ensures |logs| == |contents|
  {
    seq(|contents|, k requires 0 <= k < |contents| =>
      Log(contents[k], Some(block), Some(tx.Hash()), txIndex, first + k))
  }

  /** How many logs the receipts hold. */
  function LogCount(receipts: seq<Receipt>): nat {
    if receipts == [] then 0 else LogCount(receipts[..|receipts| - 1]) + |receipts[|receipts| - 1].logs|
  }

  function GasBefore(receipts: seq<Receipt>, i: nat): uint64
    requires i <= |receipts|
  {
    if i == 0 then 0 else receipts[i - 1].cumulative
  }

  /** What execution records in receipt `i`. */
  ghost predicate RecordedAt(receipts: seq<Receipt>, block: BlockId, txs: seq<Tx>, i: nat)
    requires i < |receipts| == |txs|
  {
    && receipts[i].contract == (if txs[i].to.None? then Some(Created(Signer(txs[i]), txs[i].nonce)) else None)
    && receipts[i].txHash == Some(txs[i].Hash())
    && receipts[i].cumulative == GasBefore(receipts, i) + receipts[i].gasUsed
    && receipts[i].logs == Logged(Contents(receipts[i].logs), block, txs[i], i, LogCount(receipts[..i]))
  }

  ghost predicate Recorded(receipts: seq<Receipt>, block: BlockId, txs: seq<Tx>) {
    |receipts| == |txs| && forall i: nat | i < |receipts| :: RecordedAt(receipts, block, txs, i)
  }

  lemma RecordedMore(receipts: seq<Receipt>, block: BlockId, txs: seq<Tx>, r: Receipt, tx: Tx)
    requires Recorded(receipts, block, txs)
    requires r.txHash == Some(tx.Hash()) && r.cumulative == GasBefore(receipts, |receipts|) + r.gasUsed
    requires r.contract == if tx.to.None? then Some(Created(Signer(tx), tx.nonce)) else None
    requires r.logs == Logged(Contents(r.logs), block, tx, |txs|, LogCount(receipts))
    ensures Recorded(receipts + [r], block, txs + [tx])
    ensures GasBefore(receipts + [r], |receipts| + 1) == r.cumulative
    ensures LogCount(receipts + [r]) == LogCount(receipts) + |r.logs|
  {
    var all, txs' := receipts + [r], txs + [tx];
    assert all[..|receipts|] == receipts;
    forall i: nat | i < |all| ensures RecordedAt(all, block, txs', i) {
      if i < |receipts| {
        assert RecordedAt(receipts, block, txs, i);
        assert all[..i] == receipts[..i];
      }
    }
  }

  /** The logs of all receipts in one row. */
  function AllLogs(receipts: seq<Receipt>): seq<Log> {
    if receipts == [] then [] else AllLogs(receipts[..|receipts| - 1]) + receipts[|receipts| - 1].logs
  }

  lemma {:induction false} AllLogsCount(receipts: seq<Receipt>)
    ensures |AllLogs(receipts)| == LogCount(receipts)
  {
    if receipts != [] { AllLogsCount(receipts[..|receipts| - 1]); }
  }

  /** The logs of a block are numbered through by their places, and each names the block, and the transaction
      and the place of the receipt it is found in. */
  lemma {:induction false} LogIndexIsPlace(receipts: seq<Receipt>, block: BlockId, txs: seq<Tx>, n: nat)
    requires Recorded(receipts, block, txs) && n < |AllLogs(receipts)|
    ensures var log := AllLogs(receipts)[n];
      log.index == n && log.block == Some(block) && log.txIndex < |txs| && log in receipts[log.txIndex].logs
      && log.txHash == Some(TxHash(txs[log.txIndex]))
  {
    var i := |receipts| - 1;
    var before := receipts[..i];
    AllLogsCount(before);
    assert RecordedAt(receipts, block, txs, i);
    var log := AllLogs(receipts)[n];
    if n < |AllLogs(before)| {
      forall j: nat | j < i
        ensures RecordedAt(before, block, txs[..i], j)
      {
        assert RecordedAt(receipts, block, txs, j) && before[..j] == receipts[..j];
      }
      LogIndexIsPlace(before, block, txs[..i], n);
      assert before[log.txIndex] == receipts[log.txIndex];
    } else {
      assert log == receipts[i].logs[n - LogCount(before)];
    }
  }

  /** What every receipt of a block records of its transaction and of the gas used up to it. */
  lemma RecordsEach(receipts: seq<Receipt>, block: BlockId, txs: seq<Tx>, i: nat)
    requires Recorded(receipts, block, txs) && i < |txs|
    ensures receipts[i].txHash == Some(TxHash(txs[i]))
    ensures receipts[i].contract == if txs[i].to.Some? then None
      else Some(Created(if txs[i].signed then txs[i].sender else Address(0), txs[i].nonce))
    ensures receipts[i].cumulative == receipts[i].gasUsed + if i == 0 then 0 else receipts[i - 1].cumulative
  {
    assert RecordedAt(receipts, block, txs, i);
  }

  /** A receipt without what can be derived. */
  function Stored(r: Receipt): Receipt {
    Receipt(r.failed, r.cumulative, 0, None, None,
            seq(|r.logs|, k requires 0 <= k < |r.logs| => Log(r.logs[k].content, None, None, 0, 0)))
  }

  /** Storage tells two receipts apart by status, gas used so far and what the logs say, and by nothing else. */
  lemma StoredForgets(r: Receipt, q: Receipt)
    ensures Stored(r) == Stored(q) <==> (
      && r.failed == q.failed && r.cumulative == q.cumulative && |r.logs| == |q.logs|
      && forall k :: 0 <= k < |r.logs| ==> r.logs[k].content == q.logs[k].content)
  {
    if Stored(r) == Stored(q) {
      assert |Stored(r).logs| == |Stored(q).logs|;
      forall k | 0 <= k < |r.logs|
        ensures r.logs[k].content == q.logs[k].content
      {
        assert Stored(r).logs[k] == Stored(q).logs[k];
      }
    }
  }

  function StoredAll(receipts: seq<Receipt>): seq<Receipt> {
    seq(|receipts|, i requires 0 <= i < |receipts| => Stored(receipts[i]))
  }

  /** What is derived for receipt `j` from the stored receipts and the transactions. */
  function Derived(receipts: seq<Receipt>, block: BlockId, txs: seq<Tx>, j: nat): Receipt
    requires j < |receipts| == |txs|
  {
    receipts[j].(
      txHash := Some(txs[j].Hash()),
      contract := if txs[j].to.None? then Some(Created(Signer(txs[j]), txs[j].nonce)) else receipts[j].contract,
      gasUsed := SubWrap(receipts[j].cumulative, GasBefore(receipts, j)),
      logs := Logged(Contents(receipts[j].logs), block, txs[j], j, LogCount(receipts[..j])))
  }

  lemma {:induction false} StoredLogCount(receipts: seq<Receipt>, j: nat)
    requires j <= |receipts|
    ensures LogCount(StoredAll(receipts)[..j]) == LogCount(receipts[..j])
  {
    if j > 0 {
      StoredLogCount(receipts, j - 1);
      assert StoredAll(receipts)[..j][..j - 1] == StoredAll(receipts)[..j - 1];
      assert receipts[..j][..j - 1] == receipts[..j - 1];
    }
  }

  /** Deriving the fields of a stored receipt gives back what execution recorded. */
  lemma DerivedRecovers(receipts: seq<Receipt>, block: BlockId, txs: seq<Tx>, j: nat)
    requires Recorded(receipts, block, txs) && j < |receipts|
    ensures Derived(StoredAll(receipts), block, txs, j) == receipts[j]
  {
    assert RecordedAt(receipts, block, txs, j);
    StoredLogCount(receipts, j);
    assert Contents(StoredAll(receipts)[j].logs) == Contents(receipts[j].logs);
  }

  datatype BlockResult = Processed(receipts: seq<Receipt>, used: uint64) | Invalid

  /** The accounts and the gas left in the block after some transactions, and what each of them came to. */
  datatype Book = Book(accounts: Accounts, left: nat, results: seq<Result>)

  /** Running transactions in turn, each on the accounts and the gas the ones before it left; nothing if one
      of them is not signed or not applied. */
  ghost function Played(vm: Machine, txs: seq<Tx>, s: Accounts, gasLimit: nat, coinbase: Address, homestead: bool)
    : Option<Book>
    requires Faithful(vm)
  {
    if txs == [] then Some(Book(s, gasLimit, []))
    else
      var before, tx := Played(vm, txs[..|txs| - 1], s, gasLimit, coinbase, homestead), txs[|txs| - 1];
      if before.None? then None else OnePlayed(vm, before.value, tx, coinbase, homestead)
  }

  ghost function OnePlayed(vm: Machine, b: Book, tx: Tx, coinbase: Address, homestead: bool): Option<Book>
    requires Faithful(vm)
  {
    var m := AsMessage(tx);
    if !tx.signed || !Applies(vm, b.accounts, m, b.left, homestead) then None
    else
      var r := AppliedResult(vm, b.accounts, m, homestead);
      Some(Book(AppliedAccounts(vm, b.accounts, m, homestead, coinbase), b.left - r.used, b.results + [r]))
  }

  /** A receipt tells what its transaction came to. */
  ghost predicate Tells(receipt: Receipt, r: Result) {
    r == Applied(receipt.gasUsed, receipt.failed, Contents(receipt.logs))
  }

  ghost predicate AllTell(receipts: seq<Receipt>, results: seq<Result>) {
    |receipts| == |results| && forall i :: 0 <= i < |receipts| ==> Tells(receipts[i], results[i])
  }

  /** A block that stops at some transaction stops. */
  lemma {:induction false} PlayedStops(vm: Machine, txs: seq<Tx>, s: Accounts, gasLimit: nat, coinbase: Address,
                                       homestead: bool, i: nat)
    requires Faithful(vm) && i <= |txs| && Played(vm, txs[..i], s, gasLimit, coinbase, homestead).None?
    ensures Played(vm, txs, s, gasLimit, coinbase, homestead).None?
  {
    hide OnePlayed;
    if i < |txs| {
      assert txs[..|txs| - 1][..i] == txs[..i];
      PlayedStops(vm, txs[..|txs| - 1], s, gasLimit, coinbase, homestead, i);
    } else {
      assert txs[..i] == txs;
    }
  }

  /** What a transaction of a block that runs has to meet, and what it leaves to the next one. */
  lemma PlayedEach(vm: Machine, txs: seq<Tx>, s: Accounts, gasLimit: nat, coinbase: Address, homestead: bool, i: nat)
    requires Faithful(vm) && Played(vm, txs, s, gasLimit, coinbase, homestead).Some? && i < |txs|
    ensures Played(vm, txs[..i], s, gasLimit, coinbase, homestead).Some?
    ensures Played(vm, txs[..i + 1], s, gasLimit, coinbase, homestead).Some?
    ensures var before := Played(vm, txs[..i], s, gasLimit, coinbase, homestead).value;
      var after := Played(vm, txs[..i + 1], s, gasLimit, coinbase, homestead).value;
      var tx := txs[i];
      && tx.signed && tx.nonce == (if tx.sender in before.accounts.nonces then before.accounts.nonces[tx.sender] else 0)
      && BalanceOf(before.accounts.balances, tx.sender) >= tx.gas * tx.gasPrice && tx.gas <= before.left
      && |after.results| == |before.results| + 1
      && var m := Message(tx.sender, tx.to, tx.nonce, true, tx.gas, tx.gasPrice, tx.value, tx.data);
         var r := after.results[|before.results|];
        && RunAndSettled(vm, before.accounts, m, homestead, coinbase, after.accounts, r)
        && after.results[..|before.results|] == before.results && r.used <= tx.gas && after.left == before.left - r.used
  {
    hide Played, OnePlayed, Applies, Faithful, AppliedResult, AppliedAccounts, RunAndSettled;
    if Played(vm, txs[..i], s, gasLimit, coinbase, homestead).None? {
      PlayedStops(vm, txs, s, gasLimit, coinbase, homestead, i);
    }
    if Played(vm, txs[..i + 1], s, gasLimit, coinbase, homestead).None? {
      PlayedStops(vm, txs, s, gasLimit, coinbase, homestead, i + 1);
    }
    var before := Played(vm, txs[..i], s, gasLimit, coinbase, homestead).value;
    PlayedNext(vm, txs, s, gasLimit, coinbase, homestead, i);
    OnePlayedIs(vm, before, txs[i], coinbase, homestead);
    OnePlayedRuns(vm, before, txs[i], coinbase, homestead);
  }

  lemma OnePlayedRuns(vm: Machine, b: Book, tx: Tx, coinbase: Address, homestead: bool)
    requires Faithful(vm) && tx.signed && Applies(vm, b.accounts, AsMessage(tx), b.left, homestead)
    ensures var m := Message(tx.sender, tx.to, tx.nonce, true, tx.gas, tx.gasPrice, tx.value, tx.data);
      var r := AppliedResult(vm, b.accounts, AsMessage(tx), homestead);
      && tx.nonce == (if tx.sender in b.accounts.nonces then b.accounts.nonces[tx.sender] else 0)
      && BalanceOf(b.accounts.balances, tx.sender) >= tx.gas * tx.gasPrice && tx.gas <= b.left
      && r.Applied? && r.used <= tx.gas
      && RunAndSettled(vm, b.accounts, m, homestead, coinbase,
           AppliedAccounts(vm, b.accounts, AsMessage(tx), homestead, coinbase), r)
  {
    var m := AsMessage(tx);
    AppliesExactly(vm, b.accounts, m, b.left, homestead);
    var t, r := AppliedAccounts(vm, b.accounts, m, homestead, coinbase), AppliedResult(vm, b.accounts, m, homestead);
    assert AppliedAs(vm, b.accounts, m, homestead, coinbase, t, r);
    AppliedSettles(vm, b.accounts, m, b.left, homestead, coinbase, t, r);
    hide Applies, RunAndSettled, AppliedAs, AppliedAccounts, ExactGas;
  }

  /** A machine under which no nonce of the given accounts falls, and that counts a creation. */
  ghost predicate Steady(vm: Machine, owned: set<Address>) {
    forall s, m, g, a {:trigger vm(s, m, g), NonceOf(s, a)} :: a in owned ==>
      && NonceOf(s, a) <= NonceOf(vm(s, m, g).accounts, a)
      && (m.to.None? && m.from == a && NonceOf(s, a) < MAX_UINT64 ==> NonceOf(s, a) < NonceOf(vm(s, m, g).accounts, a))
  }

  /** Running a transaction lets no nonce fall, and that of its sender rise above its own. */
  lemma NonceRises(vm: Machine, owned: set<Address>, s: Accounts, tx: Tx, homestead: bool, coinbase: Address,
                   t: Accounts, r: Result, a: Address)
    requires Steady(vm, owned) && a in owned && tx.nonce < MAX_UINT64
    requires tx.nonce == if tx.sender in s.nonces then s.nonces[tx.sender] else 0
    requires RunAndSettled(vm, s, Message(tx.sender, tx.to, tx.nonce, true, tx.gas, tx.gasPrice, tx.value, tx.data),
      homestead, coinbase, t, r)
    ensures NonceOf(s, a) <= NonceOf(t, a) && (a == tx.sender ==> tx.nonce < NonceOf(t, a))
  {
    hide ExactGas;
    var m := Message(tx.sender, tx.to, tx.nonce, true, tx.gas, tx.gasPrice, tx.value, tx.data);
    var paid, g := PaidFor(s, m), m.gas - ExactGas(m.data, m.to.None?, homestead);
    assert NonceOf(paid, a) <= NonceOf(vm(paid, m, g).accounts, a);
    assert t.nonces == vm(paid, m, g).accounts.nonces;
  }

  /** No transaction is run twice in a block, nor two of the same nonce from one account: the nonces of an
      account's transactions rise, unless the last nonce there is has been reached. */
  lemma {:induction false} NoncesRise(vm: Machine, owned: set<Address>, txs: seq<Tx>, s: Accounts, gasLimit: nat,
                                      coinbase: Address, homestead: bool, i: nat, k: nat)
    requires Faithful(vm) && Steady(vm, owned) && Played(vm, txs, s, gasLimit, coinbase, homestead).Some?
    requires i < k <= |txs| && txs[i].sender in owned && forall j :: i <= j < k ==> txs[j].nonce < MAX_UINT64
    ensures Played(vm, txs[..k], s, gasLimit, coinbase, homestead).Some?
    ensures var book := Played(vm, txs[..k], s, gasLimit, coinbase, homestead).value;
      txs[i].nonce < NonceOf(book.accounts, txs[i].sender)
    ensures k < |txs| && txs[k].sender == txs[i].sender ==> txs[i].nonce < txs[k].nonce
    decreases k
  {
    hide Played, Faithful, Steady, RunAndSettled;
    if i < k - 1 {
      NoncesRise(vm, owned, txs, s, gasLimit, coinbase, homestead, i, k - 1);
    }
    PlayedEach(vm, txs, s, gasLimit, coinbase, homestead, k - 1);
    var before := Played(vm, txs[..k - 1], s, gasLimit, coinbase, homestead).value;
    var after := Played(vm, txs[..k - 1 + 1], s, gasLimit, coinbase, homestead).value;
    NonceRises(vm, owned, before.accounts, txs[k - 1], homestead, coinbase, after.accounts,
      after.results[|before.results|], txs[i].sender);
    if k < |txs| { PlayedEach(vm, txs, s, gasLimit, coinbase, homestead, k); }
  }

  lemma PlayedNext(vm: Machine, txs: seq<Tx>, s: Accounts, gasLimit: nat, coinbase: Address, homestead: bool, i: nat)
    requires Faithful(vm) && i < |txs| && Played(vm, txs[..i], s, gasLimit, coinbase, homestead).Some?
    ensures Played(vm, txs[..i + 1], s, gasLimit, coinbase, homestead) ==
      OnePlayed(vm, Played(vm, txs[..i], s, gasLimit, coinbase, homestead).value, txs[i], coinbase, homestead)
  {
    assert txs[..i + 1][..i] == txs[..i];
    hide OnePlayed;
  }

  /** Applies the transactions in turn. The block is processed exactly if all of them apply, and then the
      accounts and the receipts are what running them comes to. What the block uses and what is left in the
      pool always add up to its gas limit, so nothing overflows; ether is conserved. */
  method Process(vm: Machine, block: BlockId, txs: seq<Tx>, gasLimit: uint64, state: State, coinbase: Address,
                 homestead: bool) returns (r: BlockResult, ghost left: nat)
    requires Faithful(vm) && forall tx :: tx in txs ==> |tx.data| < TWO_64
    modifies state
    ensures r.Processed? <==> Played(vm, txs, old(state.accounts), gasLimit, coinbase, homestead).Some?
    ensures r.Processed? ==> var book := Played(vm, txs, old(state.accounts), gasLimit, coinbase, homestead).value;
      state.accounts == book.accounts && left == book.left && AllTell(r.receipts, book.results)
    ensures r.Processed? ==> Recorded(r.receipts, block, txs) && r.used == GasBefore(r.receipts, |txs|)
    ensures r.Processed? ==> left + r.used == gasLimit
    ensures r.Processed? ==> Ether(state.accounts.balances) == old(Ether(state.accounts.balances))
  {
    hide Played, OnePlayed, Applies, Faithful, AllTell, Tells, Recorded, Ether, AppliedResult, AppliedAccounts;
    var gp := new GasPool();
    gp.AddGas(gasLimit);
    var receipts, usedGas, logSize := [], 0, 0;
    ghost var book := Book(state.accounts, gasLimit, []);
    NothingPlayed(vm, txs, state.accounts, gasLimit, coinbase, homestead, block);
    for i := 0 to |txs|
      invariant Played(vm, txs[..i], old(state.accounts), gasLimit, coinbase, homestead) == Some(book)
      invariant state.accounts == book.accounts && gp.gas == book.left && AllTell(receipts, book.results)
      invariant gp.gas + usedGas == gasLimit && |receipts| == i
      invariant Recorded(receipts, block, txs[..i])
      invariant usedGas == GasBefore(receipts, i) && logSize == LogCount(receipts)
      invariant Ether(state.accounts.balances) == old(Ether(state.accounts.balances))
    {
      PlayedNext(vm, txs, old(state.accounts), gasLimit, coinbase, homestead, i);
      ghost var next := OnePlayed(vm, book, txs[i], coinbase, homestead);
      var receipt := ApplyTransaction(vm, block, txs[i], gp, state, coinbase, homestead, usedGas, i, logSize);
      OnePlayedIs(vm, book, txs[i], coinbase, homestead);
      if receipt.None? {
        PlayedStops(vm, txs, old(state.accounts), gasLimit, coinbase, homestead, i + 1);
        return Invalid, gp.gas;
      }
      RecordedMore(receipts, block, txs[..i], receipt.value, txs[i]);
      assert txs[..i + 1] == txs[..i] + [txs[i]];
      TellsMore(receipts, book.results, receipt.value, next.value.results);
      book := next.value;
      receipts := receipts + [receipt.value];
      usedGas := receipt.value.cumulative;
      logSize := logSize + |receipt.value.logs|;
    }
    assert txs[..|txs|] == txs;
    return Processed(receipts, usedGas), gp.gas;
  }

  lemma NothingPlayed(vm: Machine, txs: seq<Tx>, s: Accounts, gasLimit: nat, coinbase: Address, homestead: bool,
                      block: BlockId)
    requires Faithful(vm)
    ensures Played(vm, txs[..0], s, gasLimit, coinbase, homestead) == Some(Book(s, gasLimit, []))
    ensures AllTell([], []) && Recorded([], block, txs[..0])
  {
  }

  lemma OnePlayedIs(vm: Machine, b: Book, tx: Tx, coinbase: Address, homestead: bool)
    requires Faithful(vm)
    ensures var next, m := OnePlayed(vm, b, tx, coinbase, homestead), AsMessage(tx);
      && (next.Some? <==> tx.signed && Applies(vm, b.accounts, m, b.left, homestead))
      && (next.Some? ==>
            var r := AppliedResult(vm, b.accounts, m, homestead);
            && r.used <= b.left && next.value.results == b.results + [r] && next.value.left == b.left - r.used
            && next.value.accounts == AppliedAccounts(vm, b.accounts, m, homestead, coinbase))
  {
  }

  lemma TellsMore(receipts: seq<Receipt>, results: seq<Result>, receipt: Receipt, more: seq<Result>)
    requires AllTell(receipts, results) && |more| > 0 && more == results + [more[|more| - 1]]
    requires Tells(receipt, more[|more| - 1])
    ensures AllTell(receipts + [receipt], more)
    ensures more[|more| - 1].Applied? && more[|more| - 1].used == receipt.gasUsed
  {
  }

  /** Applies one transaction of a block in which `used` gas was used so far. */
  method ApplyTransaction(vm: Machine, block: BlockId, tx: Tx, gp: GasPool, state: State, coinbase: Address,
                          homestead: bool, used: uint64, txIndex: nat, logSize: nat) returns (r: Option<Receipt>)
    requires Faithful(vm) && |tx.data| < TWO_64 && used + gp.gas < TWO_64
    modifies gp, state
    ensures r.Some? <==> tx.signed && Applies(vm, old(state.accounts), AsMessage(tx), old(gp.gas), homestead)
    ensures r.Some? ==> Tells(r.value, AppliedResult(vm, old(state.accounts), AsMessage(tx), homestead))
    ensures r.Some? ==> state.accounts == AppliedAccounts(vm, old(state.accounts), AsMessage(tx), homestead, coinbase)
    ensures r.Some? ==> r.value.txHash == Some(tx.Hash())
    ensures r.Some? ==> r.value.cumulative == used + r.value.gasUsed && gp.gas == old(gp.gas) - r.value.gasUsed
    ensures r.Some? ==> r.value.logs == Logged(Contents(r.value.logs), block, tx, txIndex, logSize)
    ensures r.Some? ==> r.value.contract == if tx.to.None? then Some(Created(Signer(tx), tx.nonce)) else None
    ensures r.Some? ==> Ether(state.accounts.balances) == old(Ether(state.accounts.balances))
  {
    if !tx.signed {
      return None;
    }
    var message := AsMessage(tx);
    var st := new StateTransition(vm, message, gp, state, coinbase, homestead);
    var result := st.TransitionDb();
    if result.Rejected? {
      return None;
    }
    AppliedAsIs(vm, old(state.accounts), message, old(gp.gas), homestead, coinbase, state.accounts, result);
    hide Applies, AppliedAs, AppliedResult, AppliedAccounts, Faithful;
    var contract := if message.to.None? then Some(Created(message.from, tx.nonce)) else None;
    var logs := Logged(result.logs, block, tx, txIndex, logSize);
    assert Contents(logs) == result.logs;
    return Some(Receipt(result.failed, used + result.used, result.used, Some(tx.Hash()), contract, logs));
  }

  lemma DerivedParts(receipts: seq<Receipt>, block: BlockId, txs: seq<Tx>, j: nat)
    requires j < |receipts| == |txs|
    ensures Derived(receipts, block, txs, j).cumulative == receipts[j].cumulative
    ensures Derived(receipts, block, txs, j) == receipts[j].(
        txHash := Some(txs[j].Hash()),
        contract := if txs[j].to.None? then Some(Created(Signer(txs[j]), txs[j].nonce)) else receipts[j].contract,
        gasUsed := if j == 0 then receipts[j].cumulative
          else SubWrap(receipts[j].cumulative, receipts[j - 1].cumulative),
        logs := Logged(Contents(receipts[j].logs), block, txs[j], j, LogCount(receipts[..j])))
  {
    hide Contents, Logged, LogCount;
  }

  lemma LogCountMore(receipts: seq<Receipt>, j: nat)
    ensures LogCount(receipts[..0]) == 0
    ensures j < |receipts| ==> LogCount(receipts[..j + 1]) == LogCount(receipts[..j]) + |receipts[j].logs|
  {
    if j < |receipts| { assert receipts[..j + 1][..j] == receipts[..j]; }
  }

  /** Fills in what depends on the place of the logs. */
  method FillLogs(stored: seq<Log>, block: BlockId, tx: Tx, txIndex: nat, first: nat) returns (logs: seq<Log>)
    ensures logs == Logged(Contents(stored), block, tx, txIndex, first) && |logs| == |stored|
  {
    logs := stored;
    for k := 0 to |logs|
      invariant |logs| == |stored|
      invariant logs == Logged(Contents(stored), block, tx, txIndex, first)[..k] + stored[k..]
    {
      logs := logs[k := Log(logs[k].content, Some(block), Some(tx.Hash()), txIndex, first + k)];
    }
  }

  /** Fills in, in place, what stored receipts leave out; the counts must agree. */
  method SetReceiptsData(receipts: array<Receipt>, block: BlockId, txs: seq<Tx>) returns (ok: bool)
    modifies receipts
    ensures ok <==> receipts.Length == |txs|
    ensures if ok then forall j :: 0 <= j < receipts.Length ==> receipts[j] == Derived(old(receipts[..]), block, txs, j)
            else receipts[..] == old(receipts[..])
  {
    if |txs| != receipts.Length {
      return false;
    }
    hide Contents, Logged, Derived, LogCount;
    LogCountMore(receipts[..], 0);
    ghost var was := receipts[..];
    var logIndex := 0;
    for j := 0 to receipts.Length
      invariant forall i :: 0 <= i < j ==> receipts[i] == Derived(was, block, txs, i)
      invariant forall i :: j <= i < receipts.Length ==> receipts[i] == was[i]
      invariant logIndex == LogCount(was[..j])
    {
      LogCountMore(was, j);
      logIndex := DeriveOne(receipts, block, txs, j, logIndex, was);
    }
    return true;
  }

  /** Fills in one receipt. */
  method DeriveOne(receipts: array<Receipt>, block: BlockId, txs: seq<Tx>, j: nat, logIndex: nat,
                   ghost was: seq<Receipt>) returns (next: nat)
    requires j < receipts.Length == |txs| == |was| && receipts[j] == was[j] && logIndex == LogCount(was[..j])
    requires j > 0 ==> receipts[j - 1] == Derived(was, block, txs, j - 1)
    modifies receipts
    ensures receipts[j] == Derived(was, block, txs, j) && next == logIndex + |was[j].logs|
    ensures forall i :: 0 <= i < receipts.Length && i != j ==> receipts[i] == old(receipts[i])
  {
    hide Contents, Logged, Derived, LogCount;
    if j > 0 { DerivedParts(was, block, txs, j - 1); }
    DerivedParts(was, block, txs, j);
    var gasUsed :=
      if j == 0 then receipts[j].cumulative else SubWrap(receipts[j].cumulative, receipts[j - 1].cumulative);
    var logs := FillLogs(receipts[j].logs, block, txs[j], j, logIndex);
    if txs[j].to.None? {
      receipts[j] := receipts[j].(contract := Some(Created(Signer(txs[j]), txs[j].nonce)));
    }
    receipts[j] := receipts[j].(txHash := Some(txs[j].Hash()), gasUsed := gasUsed, logs := logs);
    next := logIndex + |logs|;
  }
}
