# A verified model of go-ethereum's core bookkeeping

This Dafny project models the parts of the bundled go-ethereum client in which several views of the
same data have to agree, and proves that they do: the transaction pool, the canonical chain and the
queries about it, reorganisation, the weighted selection tree and the retrieval protocol of the light
client, the event feed, the chain indexer, and the accounting of gas and ether. `dafny verify
dfyconfig.toml` checks everything.

| part | files |
|---|---|
| transaction pool | `Heap`, `Sorting`, `Sums`, `NonceMap`, `TxSortedMap`, `TxList`, `TxPriced`, `PoolView`, `FairShare`, `QueueCap`, `IntrinsicGas`, `PoolLedger`, `TxPool`, `PoolSurvival`, `PoolOutcomes`, `PoolGap`, `PoolGapWitness` |
| canonical chain | `Ancestry`, `HeaderChain`, `HeaderQuery`, `HeaderReply`, `Reorg` |
| weighted selection | `Slots`, `RandSelect` |
| retrieval protocol | `Retrieve`, `RetrieveOutcome` |
| event feed | `Feed` |
| section indexing | `ChainIndexer`, `ChainStatements`, `ChainEvents` |
| gas and ether | `Sums`, `IntrinsicGas`, `StateTransition`, `StateProcessor`, `GasLimit` |

How to read it:

- Objects whose methods update them are classes with the same fields. Where several threads interleave
  (retrieval, indexing, the feed during a send) every locked or atomic step is a method or a step of a
  state machine, and the invariants are kept by every step, hence in every interleaving of them. The one
  call of the indexer that takes no lock is taken apart into its statements in `ChainStatements`.
- A class has a value that says what it means: `View` of the pool (pending lists, queues, the set of
  live transactions), `Ledger` of the pool (the view with next nonces, heartbeats and local accounts),
  `State` of the header chain, the row `Flat` of the selection tree, and so on.
  Method contracts are equations between such values; the laws are lemmas about them. What an operation
  comes to is also told without the functions that specify it, by nonces, prices, balances and lists
  alone (`PoolOutcomes`, `HeaderReply`, `RetrieveOutcome` and, elsewhere, beside the functions).
- The pool's main invariant is `Partition`: the live set is the disjoint union of the transactions in
  the lists, each under its sender and nonce, and no nonce is in both lists of an account. Transactions
  on their way between two lists are in `limbo`, those already taken off the price heap in `exempt`;
  both are specification-only and empty between calls.
- A block's ancestry is the sequence `Line`, oldest first. The number index describes a head when it is
  that sequence.
- Hashes are injective identifiers: a transaction hash and a header hash are constructors around what is
  hashed, and no header has the empty hash. `types.Sender` is the pair of fields `signed` and `sender`.
- Big integers are unbounded; `uint64` and `int64` wrap-around is written out wherever the source can
  reach it (price bump, nonces, skips, gas limits, receipt differences).
- Random numbers, timers, clocks, the order of map iteration and the choices of `select` are parameters
  or nondeterministic choices; the EVM is a parameter that conserves ether and returns no more gas than
  it was given.

What the proofs brought to light, stated as theorems about the code as it is:

- A header query by number repeats one header up to the limit when `skip` is 2^64-1 and runs backwards,
  and jumps back when the number passes 2^64 forwards (`NumberReverseSpaced`, `NumberForwardSpaced`).
- A reorganisation that lands inside the section being processed leaves the head of an abandoned block
  in the index (`StaleSection`), and so does a reorganisation that is not announced because no common
  ancestor is found (`StaleUnannounced`). `HistorySafe` says exactly which steps are at fault; without
  them the stored heads are canonical whenever no notification is pending (`CanonicalUnlessLanded`).
- When the backend cannot be reset, the indexer clears its sections without the lock. A reorganisation that
  cuts sections meanwhile can leave a section stored that has no head, on which nothing can be built
  (`SectionLost`, `NothingBuilds`), or a head too many (`HeadLeftOver`). Without that overlap the heads
  always fit (`RunKeepsLinked`); `ClearingEnds` and `OverlapOutcome` say what comes of it.
- `SetHead` can leave headers without their parents (`RewindOrphans`): exactly when a side branch forks
  off above the number it rewinds to (`RewoundTree`).
- An account's pending transactions have no gap as long as its nonce on the chain does not fall
  (`RunGapless`). When a reorganisation takes transactions back and not all of them come back to the pool,
  a gap can be left that demotion does not see (`GapHappens`).
- At the lower end of all limits the gas limit a miner proposes can fail the client's own verification
  (`ProposalsRejected`; `ProposalAcceptable` says exactly when).
- Deleting lookup entries by transaction is right exactly when no deleted transaction is also on the
  shared part of the chain (`ReorgRelinks`).
- When the queues are cut, the accounts heard from most recently lose first, although the comment at
  `core/tx_pool.go:1053` says that the oldest are dropped; the model follows the code.

## Model

| member | source | states |
|---|---|---|
| Heap.Up | docker-geth-network-master/monitored-geth-client/go-ethereum-master/core/tx_list.go:73-79 | sifting up after an append restores the heap order and permutes the slice |
| Heap.Down | docker-geth-network-master/monitored-geth-client/go-ethereum-master/core/tx_list.go:84-98 | sifting down restores the heap order below its start, or reports that nothing had to move |
| Heap.Push | docker-geth-network-master/monitored-geth-client/go-ethereum-master/core/tx_list.go:73-79 | pushing keeps a heap with exactly one element more |
| Heap.Pop | docker-geth-network-master/monitored-geth-client/go-ethereum-master/core/tx_list.go:84-98 | popping returns a least element and keeps a heap of all the others |
| Heap.Init | docker-geth-network-master/monitored-geth-client/go-ethereum-master/core/tx_list.go:102-123 | re-heapifying turns any slice into a heap of the same elements |
| Heap.Remove | docker-geth-network-master/monitored-geth-client/go-ethereum-master/core/tx_list.go:152-169 | removing at any index keeps a heap of all the others |
| Heap.RootIsLeast | docker-geth-network-master/monitored-geth-client/go-ethereum-master/core/tx_list.go:84-98 | in a heap nothing is less than the root |
| Sorting.Sort | docker-geth-network-master/monitored-geth-client/go-ethereum-master/core/tx_list.go:203-216 | sorting yields an ordered permutation |
| Sorting.TwiceCounted | docker-geth-network-master/monitored-geth-client/go-ethereum-master/core/tx_list.go:203-216 | an element standing at two places of a sequence is counted at least twice in its multiset |
| TxSortedMaps.TxSortedMap.constructor | docker-geth-network-master/monitored-geth-client/go-ethereum-master/core/tx_list.go:59-64 | a new map is empty and valid: index a heap over exactly its keys, no cache |
| TxSortedMaps.TxSortedMap.Put | docker-geth-network-master/monitored-geth-client/go-ethereum-master/core/tx_list.go:73-79 | inserts or replaces by nonce, keeps the nonce heap over exactly the map's keys, drops the cache |
| TxSortedMaps.TxSortedMap.Forward | docker-geth-network-master/monitored-geth-client/go-ethereum-master/core/tx_list.go:84-98 | removes and lists, in nonce order, exactly the nonces below the threshold; heap and trimmed cache still agree with the map |
| TxSortedMaps.TxSortedMap.Filter | docker-geth-network-master/monitored-geth-client/go-ethereum-master/core/tx_list.go:102-123 | removes and enumerates exactly what the filter accepts; heap rebuilt over what is left |
| TxSortedMaps.TxSortedMap.Cap | docker-geth-network-master/monitored-geth-client/go-ethereum-master/core/tx_list.go:127-148 | keeps the lowest nonces up to the threshold and enumerates the rest; heap and trimmed cache still agree |
| TxSortedMaps.TxSortedMap.Remove | docker-geth-network-master/monitored-geth-client/go-ethereum-master/core/tx_list.go:152-169 | removes one nonce, reporting whether it was there; heap still over exactly the keys |
| TxSortedMaps.TxSortedMap.Ready | docker-geth-network-master/monitored-geth-client/go-ethereum-master/core/tx_list.go:178-193 | removes the maximal run of consecutive nonces from the least one, if that is at or below start |
| TxSortedMaps.TxSortedMap.Flatten | docker-geth-network-master/monitored-geth-client/go-ethereum-master/core/tx_list.go:203-216 | lists the contents in nonce order; the cache, if there is one, is that list |
| TxSortedMaps.SortIndex | docker-geth-network-master/monitored-geth-client/go-ethereum-master/core/tx_list.go:127-148 | a sorted index is still a heap over the same keys |
| TxSortedMaps.RunEnds | docker-geth-network-master/monitored-geth-client/go-ethereum-master/core/tx_list.go:178-193 | when the loop stops, what it took is the maximal consecutive run and the rest is everything above it |
| TxSortedMaps.CapSplits | docker-geth-network-master/monitored-geth-client/go-ethereum-master/core/tx_list.go:127-148 | keeping the first nonces of the sorted index splits the contents into a prefix and what is dropped |
| TxSortedMaps.TrimFront | docker-geth-network-master/monitored-geth-client/go-ethereum-master/core/tx_list.go:84-98 | cutting the front of a cached listing leaves the listing of what Forward keeps |
| TxSortedMaps.TrimBack | docker-geth-network-master/monitored-geth-client/go-ethereum-master/core/tx_list.go:127-148 | cutting the end of a cached listing leaves the listing of what Cap keeps |
| NonceMap.ListsUnique | docker-geth-network-master/monitored-geth-client/go-ethereum-master/core/tx_list.go:203-216 | there is only one nonce-sorted listing of a map, so a cache that is one equals any fresh sort |
| NonceMap.PrefixDetermined | docker-geth-network-master/monitored-geth-client/go-ethereum-master/core/tx_list.go:127-148 | the number of transactions kept by a cap determines which are kept |
| TxLists.TxList.Add | docker-geth-network-master/monitored-geth-client/go-ethereum-master/core/tx_list.go:251-272 | accepts a newcomer unless one with its nonce is there that it does not replace: it does exactly if it is dearer and, for a percentage below 2^63 - 100, its price is at least the old one raised by that percentage, rounded down; reports the one replaced; the caps still bound everything |
| TxLists.OutbidsReplaces | docker-geth-network-master/monitored-geth-client/go-ethereum-master/core/tx_list.go:255-261 | the comparison with the threshold in `int64` percentages, for every percentage: below 2^63 - 100 it is price * (100 + percentage) < 100 * (new price + 1), from there on only being dearer counts |
| TxLists.TxList.Forward | docker-geth-network-master/monitored-geth-client/go-ethereum-master/core/tx_list.go:277-279 | drops exactly the nonces below the threshold |
| TxLists.TxList.Filter | docker-geth-network-master/monitored-geth-client/go-ethereum-master/core/tx_list.go:290-314 | removes what costs too much or needs too much gas and, in a strict list, whatever follows; the cap-guarded short cut gives the same result as the full scan |
| TxLists.TxList.Cap | docker-geth-network-master/monitored-geth-client/go-ethereum-master/core/tx_list.go:318-320 | keeps a prefix of the given size |
| TxLists.TxList.Remove | docker-geth-network-master/monitored-geth-client/go-ethereum-master/core/tx_list.go:325-336 | removes by nonce; a strict list also gives up everything after it |
| TxLists.TxList.Ready | docker-geth-network-master/monitored-geth-client/go-ethereum-master/core/tx_list.go:345-347 | takes the maximal consecutive run at or below start |
| TxLists.WithinCaps | docker-geth-network-master/monitored-geth-client/go-ethereum-master/core/tx_list.go:290-314 | if the caps are within the limits, the full scan would remove nothing |
| TxLists.CutAtLowest | docker-geth-network-master/monitored-geth-client/go-ethereum-master/core/tx_list.go:290-314 | the second filter pass, above the lowest removed nonce, leaves exactly what is below every offending transaction |
| TxLists.StrictStaysConsecutive | docker-geth-network-master/monitored-geth-client/go-ethereum-master/core/tx_list.go:222-336 | a strict list with consecutive nonces stays so under forwarding, filtering, capping and removing |
| TxLists.AffordablePrefix | docker-geth-network-master/monitored-geth-client/go-ethereum-master/core/tx_list.go:290-314 | what a strict filter keeps is the beginning of the list |
| TxLists.FilterPartitions | docker-geth-network-master/monitored-geth-client/go-ethereum-master/core/tx_list.go:290-314 | kept, removed and invalidated transactions partition the old list, and each invalidated one follows a removed one |
| TxPriceds.TxLookup.Add | docker-geth-network-master/monitored-geth-client/go-ethereum-master/core/tx_pool.go:1253-1258 | adds one transaction to the live set |
| TxPriceds.TxLookup.Remove | docker-geth-network-master/monitored-geth-client/go-ethereum-master/core/tx_pool.go:1261-1266 | takes one transaction out of the live set |
| TxPriceds.TxPricedList.Put | docker-geth-network-master/monitored-geth-client/go-ethereum-master/core/tx_list.go:414-416 | the price heap gains exactly one more of the transaction |
| TxPriceds.TxPricedList.Removed | docker-geth-network-master/monitored-geth-client/go-ethereum-master/core/tx_list.go:421-436 | counts one more stale entry, or, when that makes more than a quarter, rebuilds the heap from exactly the live transactions; either way every live one stays covered |
| TxPriceds.TxPricedList.Cap | docker-geth-network-master/monitored-geth-client/go-ethereum-master/core/tx_list.go:440-467 | returns exactly the remote live transactions below the threshold, the rest stays covered |
| TxPriceds.TxPricedList.Underpriced | docker-geth-network-master/monitored-geth-client/go-ethereum-master/core/tx_list.go:471-493 | for a non-local transaction and a non-empty pool: true exactly when no live transaction is cheaper |
| TxPriceds.TxPricedList.Discard | docker-geth-network-master/monitored-geth-client/go-ethereum-master/core/tx_list.go:497-520 | returns only remote live transactions, at most as many as asked for and fewer only if there are no more, and none pricier than a remote one it leaves |
| TxPriceds.ContentCount | docker-geth-network-master/monitored-geth-client/go-ethereum-master/core/tx_pool.go:1245-1250 | the hash map counts exactly the live transactions |
| PoolViews.TakeKeeps | docker-geth-network-master/monitored-geth-client/go-ethereum-master/core/tx_pool.go:878-917 | taking transactions off a list keeps every transaction in exactly one place |
| PoolViews.PlaceKeeps | docker-geth-network-master/monitored-geth-client/go-ethereum-master/core/tx_pool.go:695-718 | placing a transaction, displacing one of the same nonce, keeps the partition |
| PoolViews.RemovePending | docker-geth-network-master/monitored-geth-client/go-ethereum-master/core/tx_pool.go:878-917 | removing a pending transaction and re-queueing its followers is what the pure removal says, with the partition kept |
| PoolViews.RemoveQueued | docker-geth-network-master/monitored-geth-client/go-ethereum-master/core/tx_pool.go:878-917 | removing a queued transaction is what the pure removal says, with the partition kept |
| PoolViews.LiveIsListed | docker-geth-network-master/monitored-geth-client/go-ethereum-master/core/tx_pool.go:878-917 | every transaction of the lookup is in exactly one of its sender's two lists, under its own nonce |
| PoolViews.DropKeeps | docker-geth-network-master/monitored-geth-client/go-ethereum-master/core/tx_pool.go:940-972 | dropping transactions from a list and the lookup keeps the partition |
| FairShares.LevelMonotone | docker-geth-network-master/monitored-geth-client/go-ethereum-master/core/tx_pool.go:982-1051 | a higher level never leaves fewer transactions |
| FairShares.FairIsGreatest | docker-geth-network-master/monitored-geth-client/go-ethereum-master/core/tx_pool.go:982-1051 | unless nothing is cut, every level higher than the one reached would exceed the limit |
| FairShares.FairIsUnique | docker-geth-network-master/monitored-geth-client/go-ethereum-master/core/tx_pool.go:982-1051 | the outcome of a fair cut is determined by the lists, the local accounts and the limits, whatever the order in which offenders are punished |
| FairShares.RoundDown | docker-geth-network-master/monitored-geth-client/go-ethereum-master/core/tx_pool.go:1010-1029 | one round over the offenders lowers all of them by one level |
| FairShares.LevelDown | docker-geth-network-master/monitored-geth-client/go-ethereum-master/core/tx_pool.go:1010-1029 | the cut to one level lower is one transaction off each list above it |
| FairShares.NextOffender | docker-geth-network-master/monitored-geth-client/go-ethereum-master/core/tx_pool.go:999-1029 | once the earlier offenders are equalised, the next one popped is the least of them |
| FairShares.AllowanceRound | docker-geth-network-master/monitored-geth-client/go-ethereum-master/core/tx_pool.go:1031-1050 | the second phase lowers the common level round by round |
| FairShares.PopSpammer | docker-geth-network-master/monitored-geth-client/go-ethereum-master/core/tx_pool.go:1000-1003 | the priority queue yields a largest list first |
| FairShares.NoOffenders | docker-geth-network-master/monitored-geth-client/go-ethereum-master/core/tx_pool.go:982-1051 | where nobody may be cut nothing is cut |
| QueueCaps.CappedAll | docker-geth-network-master/monitored-geth-client/go-ethereum-master/core/tx_pool.go:1075-1083 | dropping whole queues from the most recently active account on is part of a capped outcome |
| QueueCaps.CappedPart | docker-geth-network-master/monitored-geth-client/go-ethereum-master/core/tx_pool.go:1084-1091 | cutting the tail of one queue completes it, with exactly the overflow gone |
| QueueCaps.SortByHeartbeat | docker-geth-network-master/monitored-geth-client/go-ethereum-master/core/tx_pool.go:1058-1067 | the remote accounts, each once, ordered by heartbeat |
| QueueCaps.LaterGone | docker-geth-network-master/monitored-geth-client/go-ethereum-master/core/tx_pool.go:1069-1091 | whoever was active later than the account being cut has nothing queued any more |
| Ledgers.Verdict | docker-geth-network-master/monitored-geth-client/go-ethereum-master/core/tx_pool.go:568-609 | an error is the first of the rules, in their order, that the transaction breaks, with the gas reckoned on unbounded numbers; no error means that it breaks none |
| Ledgers.AdditionComes | docker-geth-network-master/monitored-geth-client/go-ethereum-master/core/tx_pool.go:619-690 | whatever its outcome, taking in a transaction lists nothing else that was not listed, and makes nobody local but the sender of an accepted local one |
| TxPools.TxPool.constructor | docker-geth-network-master/monitored-geth-client/go-ethereum-master/core/tx_pool.go:217-261 | an empty pool at the given head, with repaired limits and the configured price, satisfies every invariant |
| TxPools.TxPool.EnqueueTx | docker-geth-network-master/monitored-geth-client/go-ethereum-master/core/tx_pool.go:695-718 | queues a transaction unless it does not outbid the one queued under its nonce; lookup, lists and price heap still agree |
| TxPools.TxPool.PromoteTx | docker-geth-network-master/monitored-geth-client/go-ethereum-master/core/tx_pool.go:736-769 | makes a transaction pending unless an older one of its nonce is better; sets the account's next nonce |
| TxPools.TxPool.RemoveTx | docker-geth-network-master/monitored-geth-client/go-ethereum-master/core/tx_pool.go:878-917 | removes exactly the named transaction; what followed it in the pending list is queued and the next nonce steps back to it; an emptied pending list is closed and its account forgotten |
| TxPools.TxPool.ValidateTx | docker-geth-network-master/monitored-geth-client/go-ethereum-master/core/tx_pool.go:568-609 | no error exactly for what is small enough, signed, not negative, not stale, within its sender's balance and the block's gas, pays its intrinsic gas and, unless local, the price asked |
| TxPools.TxPool.Add | docker-geth-network-master/monitored-geth-client/go-ethereum-master/core/tx_pool.go:619-690 | what taking in one transaction does to lists, next nonces, heartbeats and local accounts, in every case: known, invalid and underpriced ones change nothing; a full pool first loses exactly the cheapest remote ones it has to; then the newcomer replaces by nonce or is queued, unless the one there is not outbid |
| PoolOutcomes.AdditionRefuses | docker-geth-network-master/monitored-geth-client/go-ethereum-master/core/tx_pool.go:619-641 | a transaction is refused as known exactly if it is listed; what is known, not admissible or, in a full pool, remote and no dearer than anything listed changes nothing; everything else is given room |
| PoolOutcomes.VerdictOrder | docker-geth-network-master/monitored-geth-client/go-ethereum-master/core/tx_pool.go:568-609 | which of the errors is given where several rules are broken, rule by rule on the bare numbers |
| PoolOutcomes.RoomMadeFor | docker-geth-network-master/monitored-geth-client/go-ethereum-master/core/tx_pool.go:633-647 | the room made: remote transactions go until one place is free or no remote one is left, cheapest first and of equal prices the highest nonces first; in a pool with room none goes |
| PoolOutcomes.NewcomerPlaced | docker-geth-network-master/monitored-geth-client/go-ethereum-master/core/tx_pool.go:648-690 | given room: one of the same sender and nonce is replaced in its list exactly if it is outbid, else the newcomer is refused and nothing changes; with none there it is queued |
| PoolOutcomes.NewcomerDisplaces | docker-geth-network-master/monitored-geth-client/go-ethereum-master/core/tx_pool.go:648-690 | nothing else is displaced, and whatever stays stays in its list |
| PoolOutcomes.NewcomerLocal | docker-geth-network-master/monitored-geth-client/go-ethereum-master/core/tx_pool.go:679-685 | the sender becomes local exactly if the newcomer is local, joined and did not replace a pending transaction |
| PoolOutcomes.ReplacementRule | docker-geth-network-master/monitored-geth-client/go-ethereum-master/core/tx_pool.go:648-668 | in a pool with room, a transaction of the newcomer's sender and nonce is replaced exactly if it is cheaper and its price * (100 + percentage) < 100 * (new price + 1); otherwise the answer is ErrReplaceUnderpriced and nothing changes |
| PoolOutcomes.PendingRemoved | docker-geth-network-master/monitored-geth-client/go-ethereum-master/core/tx_pool.go:878-917 | removing a pending transaction: those of its account before it stay, those after it are queued, the account goes on no later than with its nonce and is forgotten if nothing stays |
| PoolOutcomes.QueuedRemoved | docker-geth-network-master/monitored-geth-client/go-ethereum-master/core/tx_pool.go:878-917 | removing a queued one takes it off its queue and changes nothing else |
| TxPools.TxPool.IsUnderpriced | docker-geth-network-master/monitored-geth-client/go-ethereum-master/core/tx_pool.go:633-640 | a remote transaction is refused by a full pool exactly when nothing live is cheaper |
| TxPools.TxPool.MakeRoom | docker-geth-network-master/monitored-geth-client/go-ethereum-master/core/tx_pool.go:640-647 | removes, one after the other, remote transactions at most as many as asked for and fewer only if there are no more, none pricier than a remote one left; nothing else changes but what their removal entails |
| TxPools.TxPool.PlaceNew | docker-geth-network-master/monitored-geth-client/go-ethereum-master/core/tx_pool.go:648-690 | a pending nonce is replaced in place if outbid, anything else is queued |
| TxPools.TxPool.AddTx | docker-geth-network-master/monitored-geth-client/go-ethereum-master/core/tx_pool.go:800-815 | one transaction is added as `Add` says and, if it joined, its account gets a round of promotion |
| TxPools.TxPool.AddTxs | docker-geth-network-master/monitored-geth-client/go-ethereum-master/core/tx_pool.go:827-848 | from the contents before, every transaction of the batch is added where the one before it left the pool; then the accounts of the newcomers, each once, get a round of promotion from there |
| TxPools.TxPool.PromoteReady | docker-geth-network-master/monitored-geth-client/go-ethereum-master/core/tx_pool.go:955-962 | the maximal ready run of a queue becomes pending, nothing else moves |
| TxPools.TxPool.PromoteAccount | docker-geth-network-master/monitored-geth-client/go-ethereum-master/core/tx_pool.go:934-977 | one account: stale and unpayable dropped, ready run promoted, the rest capped unless local |
| PoolOutcomes.PromotionMoves | docker-geth-network-master/monitored-geth-client/go-ethereum-master/core/tx_pool.go:934-977 | transaction by transaction: it becomes pending exactly if every queued nonce from the lowest payable one, that being at most the account's next nonce, up to its own is there and payable; what is stale or unpayable goes; the rest stays queued, for a remote account up to the limit and the lowest nonces first |
| PoolOutcomes.PromotionNotes | docker-geth-network-master/monitored-geth-client/go-ethereum-master/core/tx_pool.go:736-769 | the account then goes on after the last that became pending, as a uint64, and has been heard from now; if none did, both are as before |
| PoolOutcomes.StartJoins | docker-geth-network-master/monitored-geth-client/go-ethereum-master/core/tx_pool.go:955-962 | a payable transaction queued where the account goes on becomes pending exactly if no payable one below it is cut off by a gap, hence always if the pool holds no next nonce for the account |
| TxPools.TxPool.PromoteAll | docker-geth-network-master/monitored-geth-client/go-ethereum-master/core/tx_pool.go:925-980 | every account asked for is promoted as if alone, with its next nonce and heartbeat; all others are untouched |
| TxPools.TxPool.CapPending | docker-geth-network-master/monitored-geth-client/go-ethereum-master/core/tx_pool.go:982-1052 | the equalisation loops terminate in a fair cut: no local account and none within its slots is cut, all that are cut keep exactly the same number of transactions, and either the total is within the limit or that number is the slots; next nonces step back to the lowest transaction lost |
| TxPools.TxPool.EqualiseOffenders | docker-geth-network-master/monitored-geth-client/go-ethereum-master/core/tx_pool.go:999-1029 | the first phase keeps the running total equal to the sum of the list lengths |
| TxPools.TxPool.CutToAllowance | docker-geth-network-master/monitored-geth-client/go-ethereum-master/core/tx_pool.go:1031-1050 | the second phase cuts on to the limit or to the slots |
| TxPools.TxPool.CapQueue | docker-geth-network-master/monitored-geth-client/go-ethereum-master/core/tx_pool.go:1053-1092 | the queues end at the limit, or above it with only local accounts left; only ends of remote queues are cut, most recently active accounts first |
| TxPools.TxPool.PromoteExecutables | docker-geth-network-master/monitored-geth-client/go-ethereum-master/core/tx_pool.go:922-1093 | promotion of the accounts, then the fair cut of the pending lists, then the cut of the queues in the order of the heartbeats as promotion leaves them; next nonces and heartbeats follow |
| PoolOutcomes.RoundPromotes | docker-geth-network-master/monitored-geth-client/go-ethereum-master/core/tx_pool.go:922-1093 | the same for a round of promotion of an account: with no next nonce held, the payable transaction queued at the nonce of the chain becomes pending; with one held, the one queued there does, exactly if no payable one below it is cut off by a gap |
| PoolOutcomes.RoundLeaves | docker-geth-network-master/monitored-geth-client/go-ethereum-master/core/tx_pool.go:922-980 | an account a round is not asked for keeps its lists, its next nonce and its heartbeat until the global limits |
| PoolOutcomes.ShareLeft | docker-geth-network-master/monitored-geth-client/go-ethereum-master/core/tx_pool.go:982-1052 | what the limit leaves an account: its lowest nonces, all of them if it is local or within its slots, else no more than the common level |
| PoolOutcomes.SharesFair | docker-geth-network-master/monitored-geth-client/go-ethereum-master/core/tx_pool.go:982-1052 | nothing is cut unless the total is over the limit; then the limit is met or every remote account is within its slots, and one level more would still exceed the limit |
| PoolOutcomes.QueueShare | docker-geth-network-master/monitored-geth-client/go-ethereum-master/core/tx_pool.go:1053-1092 | what capping the queues leaves: local queues whole, lowest nonces first, and of remote accounts nothing if one heard from earlier has lost anything |
| PoolOutcomes.CutGoesOn | docker-geth-network-master/monitored-geth-client/go-ethereum-master/core/tx_pool.go:1014-1023 | after the cut an account goes on where it did or with the lowest nonce it lost |
| PoolOutcomes.BatchPromotes | docker-geth-network-master/monitored-geth-client/go-ethereum-master/core/tx_pool.go:827-848 | after a batch, a payable transaction queued where its account goes on is pending if anything of the account joined, under the same condition |
| PoolOutcomes.NewcomersAre | docker-geth-network-master/monitored-geth-client/go-ethereum-master/core/tx_pool.go:827-848 | exactly the senders of transactions that joined without replacing one are promoted after a batch |
| TxPools.TxPool.DemoteAccount | docker-geth-network-master/monitored-geth-client/go-ethereum-master/core/tx_pool.go:1100-1137 | one account: stale and unpayable dropped, what follows them queued, all of it if the next nonce is missing |
| TxPools.TxPool.DemoteUnexecutables | docker-geth-network-master/monitored-geth-client/go-ethereum-master/core/tx_pool.go:1098-1138 | every account is demoted as if alone; every pending list left is non-empty, starts at its account's next nonce and is payable |
| PoolOutcomes.DemotionMoves | docker-geth-network-master/monitored-geth-client/go-ethereum-master/core/tx_pool.go:1098-1138 | transaction by transaction: a pending one stays exactly if the nonce of the chain is pending too and nothing from there up to it is unpayable; otherwise it is queued unless it is stale or unpayable itself |
| PoolOutcomes.NotedGoesOn | docker-geth-network-master/monitored-geth-client/go-ethereum-master/core/tx_pool.go:424-432 | after demotion every account with something pending goes on after the last of it, and one left without is forgotten if it had something |
| PoolOutcomes.HeadLocals | docker-geth-network-master/monitored-geth-client/go-ethereum-master/core/tx_pool.go:417-420 | adapting to a new head makes nobody local, whatever it gives back |
| PoolOutcomes.NothingDue | docker-geth-network-master/monitored-geth-client/go-ethereum-master/core/tx_pool.go:356-436 | once the pool has adapted to a head, nothing it lists is stale or unpayable at that head |
| PoolGaps.RunGapless | docker-geth-network-master/monitored-geth-client/go-ethereum-master/core/tx_pool.go:195-215 | over every run of batches, price changes, evictions, new heads and clock ticks from an empty pool: as long as an account's nonce on the chain does not fall, its pending nonces from that one on have no gap, it goes on no later than at their end, and nothing pending before that is unpayable |
| PoolGaps.AdaptationGapless | docker-geth-network-master/monitored-geth-client/go-ethereum-master/core/tx_pool.go:356-436 | a new head leaves an account without gaps if, from the nonce of the new chain on, nothing was missing before something pending |
| PoolGaps.ForgottenGapless | docker-geth-network-master/monitored-geth-client/go-ethereum-master/core/tx_pool.go:413-415 | with the next nonces forgotten an account has no gap exactly if that is so |
| PoolGaps.PromotionGapless | docker-geth-network-master/monitored-geth-client/go-ethereum-master/core/tx_pool.go:934-977 | promotion continues the pending nonces at their end |
| PoolGaps.RoundGapless | docker-geth-network-master/monitored-geth-client/go-ethereum-master/core/tx_pool.go:922-1093 | so does a round of promotion with its global limits |
| PoolGaps.RearrangedGapless | docker-geth-network-master/monitored-geth-client/go-ethereum-master/core/tx_pool.go:1098-1138 | demotion cuts them where something is unpayable, and the account goes on there |
| PoolGaps.BatchGapless | docker-geth-network-master/monitored-geth-client/go-ethereum-master/core/tx_pool.go:827-848 | taking in a batch, room made and transactions replaced included, opens no gap |
| PoolGaps.GaplessPromotes | docker-geth-network-master/monitored-geth-client/go-ethereum-master/core/tx_pool.go:955-962 | where there is no gap, what is payable and queued at the account's next nonce always becomes pending |
| PoolGapWitnesses.GapHappens | docker-geth-network-master/monitored-geth-client/go-ethereum-master/core/tx_pool.go:356-436 | an account without gaps at chain nonce 5 that has one, pending 3 and 5, after the chain went back to nonce 3 and only the transaction with nonce 3 was given back |
| TxPools.TxPool.SetGasPrice | docker-geth-network-master/monitored-geth-client/go-ethereum-master/core/tx_pool.go:469-478 | exactly the remote transactions below the price are removed, one after the other, and nothing else changes but what their removal entails |
| TxPools.TxPool.EvictIdle | docker-geth-network-master/monitored-geth-client/go-ethereum-master/core/tx_pool.go:313-331 | exactly the queues of remote accounts not heard from in time, or never, are removed; pending lists, other queues and heartbeats are untouched |
| TxPools.TxPool.Reset | docker-geth-network-master/monitored-geth-client/go-ethereum-master/core/tx_pool.go:356-436 | from the contents before: the batch given back is taken in as remote transactions against the new head, every account is demoted, next nonces follow the pending lists left, and all queues get a round of promotion; the global limits hold at the end |
| TxPools.RoundedComes | docker-geth-network-master/monitored-geth-client/go-ethereum-master/core/tx_pool.go:922-1093 | promotion and the global limits list nothing that was not listed |
| TxPools.AdaptedComes | docker-geth-network-master/monitored-geth-client/go-ethereum-master/core/tx_pool.go:356-436 | whatever the pool holds after adapting to a new head, it held before or was given back |
| PoolSurvivals.RemovalKeepsOthers | docker-geth-network-master/monitored-geth-client/go-ethereum-master/core/tx_pool.go:878-917 | removing a transaction unlists no other one |
| PoolSurvivals.AdditionKeepsLocal | docker-geth-network-master/monitored-geth-client/go-ethereum-master/core/tx_pool.go:619-690 | taking in a transaction, room made for it included, unlists none of a local account but the one it replaces |
| PoolSurvivals.RoundKeepsLocal | docker-geth-network-master/monitored-geth-client/go-ethereum-master/core/tx_pool.go:922-1093 | promotion and the global limits unlist nothing of a local account that is neither stale nor beyond its means or the block's gas |
| PoolSurvivals.DemotionKeeps | docker-geth-network-master/monitored-geth-client/go-ethereum-master/core/tx_pool.go:1098-1138 | demotion unlists nothing of any account that is neither stale nor beyond its means or the block's gas |
| PoolSurvivals.AdaptationKeepsLocal | docker-geth-network-master/monitored-geth-client/go-ethereum-master/core/tx_pool.go:356-436 | adapting to a new head unlists nothing of a local account but what is stale or unpayable there, or replaced by something given back |
| TxPools.NewcomersOnce | docker-geth-network-master/monitored-geth-client/go-ethereum-master/core/tx_pool.go:827-848 | the accounts to be promoted after a batch are all different |
| TxPools.StepsBack | docker-geth-network-master/monitored-geth-client/go-ethereum-master/core/tx_pool.go:1016-1023 | next nonces stepped back twice have stepped back to the lowest transaction lost in all |
| TxPools.TxPool.NoteNonces | docker-geth-network-master/monitored-geth-client/go-ethereum-master/core/tx_pool.go:428-432 | every account's next nonce follows its last pending transaction |
| TxPools.PromotingNext | docker-geth-network-master/monitored-geth-client/go-ethereum-master/core/tx_pool.go:934-977 | promoting accounts in turn is promoting each from the state it had at the start |
| TxPools.FairWithin | docker-geth-network-master/monitored-geth-client/go-ethereum-master/core/tx_pool.go:982-1052 | a fair cut is within the global limit or leaves every remote account within its slots |
| TxPools.CappedWithin | docker-geth-network-master/monitored-geth-client/go-ethereum-master/core/tx_pool.go:1053-1092 | a capped queue is within its limit or holds only local accounts |
| IntrinsicGases.IntrinsicGas | docker-geth-network-master/monitored-geth-client/go-ethereum-master/core/state_transition.go:79-109 | bulk pricing with overflow guards equals byte-by-byte pricing on unbounded numbers, 21000 or 53000 plus 4 for every zero byte and 68 for every other, and fails exactly when that does not fit |
| IntrinsicGases.DataGasByKind | docker-geth-network-master/monitored-geth-client/go-ethereum-master/core/state_transition.go:79-109 | byte by byte or by kind, the price is 4 for every zero byte and 68 for every other |
| Ancestry.LineAt | docker-geth-network-master/monitored-geth-client/go-ethereum-master/core/headerchain.go:134-198 | every block of an ancestry stands at its own number and has the part below as its ancestry |
| Ancestry.LinesMeet | docker-geth-network-master/monitored-geth-client/go-ethereum-master/core/headerchain.go:328-358 | two ancestries through one block are the same up to it |
| HeaderChains.HeaderChain.DeleteAbove | docker-geth-network-master/monitored-geth-client/go-ethereum-master/core/headerchain.go:159-167 | the index entries above the new head are deleted, all of them |
| HeaderChains.HeaderChain.Reroute | docker-geth-network-master/monitored-geth-client/go-ethereum-master/core/headerchain.go:169-181 | the rewrite loop always meets the old canonical line, terminates, and leaves the parent's ancestry in the index |
| HeaderChains.HeaderChain.WriteHeader | docker-geth-network-master/monitored-geth-client/go-ethereum-master/core/headerchain.go:134-198 | equals the pure step, and without it: every header with a known parent is stored with its parent's total difficulty plus its own; it becomes the head if that is more than the head's, or as much and the toss is won, and leaves head and index alone otherwise; stored with its total difficulty; the index re-routed to its ancestry exactly if it is heavier, or as heavy and lucky; unknown parents refused |
| HeaderChains.WrittenKeepsSound | docker-geth-network-master/monitored-geth-client/go-ethereum-master/core/headerchain.go:134-198 | one write keeps the tree closed, the index the ancestry of the head, and the head the heaviest, never lighter than before |
| HeaderChains.RunKeepsSound | docker-geth-network-master/monitored-geth-client/go-ethereum-master/core/headerchain.go:134-198 | so does every run of writes, for any branches and any luck, and no header is ever lost |
| HeaderChains.RunFromGenesis | docker-geth-network-master/monitored-geth-client/go-ethereum-master/core/headerchain.go:134-198 | after every run from genesis the index is defined on exactly 0..head, equals the head's ancestry, and no header outweighs the head |
| HeaderChains.HeaderChain.GetAncestor | docker-geth-network-master/monitored-geth-client/go-ethereum-master/core/headerchain.go:328-358 | a success is exactly the block that many parent steps up; a known header fails only for want of ancestors or budget; the budget left is exact |
| HeaderChains.ReachesBy | docker-geth-network-master/monitored-geth-client/go-ethereum-master/core/headerchain.go:328-358 | what is reached, told by the index: any ancestor within the budget, any at all if the index knows a block within the budget, and the parent always |
| HeaderChains.BudgetSpent | docker-geth-network-master/monitored-geth-client/go-ethereum-master/core/headerchain.go:328-358 | one is spent for each step from a block the index does not know, and none for the parent |
| HeaderChains.DetourMeets | docker-geth-network-master/monitored-geth-client/go-ethereum-master/core/headerchain.go:328-358 | below the first canonical block met, the whole ancestry is canonical |
| HeaderChains.DetourShortens | docker-geth-network-master/monitored-geth-client/go-ethereum-master/core/headerchain.go:328-358 | climbing shortens the way to the canonical line by as much |
| HeaderChains.HeaderChain.SetHead | docker-geth-network-master/monitored-geth-client/go-ethereum-master/core/headerchain.go:458-493 | the head moves down its own ancestry; exactly that line above it is removed and unnumbered |
| HeaderChains.RewoundDescribes | docker-geth-network-master/monitored-geth-client/go-ethereum-master/core/headerchain.go:458-493 | after a rewind the index is still the ancestry of the head, which is the canonical block at the number rewound to |
| HeaderChains.RewoundRemoves | docker-geth-network-master/monitored-geth-client/go-ethereum-master/core/headerchain.go:458-493 | a rewind removes exactly the canonical headers above the number |
| HeaderChains.RewoundTree | docker-geth-network-master/monitored-geth-client/go-ethereum-master/core/headerchain.go:458-493 | a rewind leaves every header its parent exactly when, before it, no stored side header has a canonical parent above the number |
| HeaderChains.RewindOrphans | docker-geth-network-master/monitored-geth-client/go-ethereum-master/core/headerchain.go:458-493 | a run of writes from genesis after which a rewind to genesis leaves a side header without its parent |
| HeaderQueries.RoomIsLimit | docker-geth-network-master/monitored-geth-client/go-ethereum-master/eth/handler.go:355-355 | the size estimate never ends a reply before the header count does |
| HeaderQueries.AdvanceReverse | docker-geth-network-master/monitored-geth-client/go-ethereum-master/eth/handler.go:379-387 | one backward step by hash climbs skip+1 blocks or ends the reply, for any 64-bit skip |
| HeaderQueries.AdvanceForward | docker-geth-network-master/monitored-geth-client/go-ethereum-master/eth/handler.go:388-409 | one forward step by hash goes on exactly if the origin is canonical and the wanted number exists, wrap-around included |
| HeaderQueries.AnswerByHash | docker-geth-network-master/monitored-geth-client/go-ethereum-master/eth/handler.go:345-424 | a reply by hash is evenly spaced on one ancestry, forwards on the canonical one, and exactly as long as the limits, the ends of the line and the budget allow |
| HeaderQueries.SpacedLine | docker-geth-network-master/monitored-geth-client/go-ethereum-master/eth/handler.go:345-424 | any two headers of a spaced reply are on one ancestry, a whole number of steps apart |
| HeaderQueries.AnswerByNumber | docker-geth-network-master/monitored-geth-client/go-ethereum-master/eth/handler.go:368-423 | canonical headers at the numbers the query runs through in machine arithmetic, until the limit or a gap |
| HeaderQueries.NumberReverseSpaced | docker-geth-network-master/monitored-geth-client/go-ethereum-master/eth/handler.go:411-417 | a backward reply by number is evenly spaced exactly when skip+1 does not wrap to zero, or at most one header is due; otherwise one header repeats to the limit |
| HeaderQueries.NumberForwardSpaced | docker-geth-network-master/monitored-geth-client/go-ethereum-master/eth/handler.go:419-422 | a forward reply by number is evenly spaced exactly when the number does not pass 2^64 within the limit |
| HeaderQueries.WrapHappens | docker-geth-network-master/monitored-geth-client/go-ethereum-master/eth/handler.go:419-422 | a query whose number does pass it: the genesis header is sent twice |
| HeaderReplies.HashReplyLength | docker-geth-network-master/monitored-geth-client/go-ethereum-master/eth/handler.go:345-424 | how long a reply by hash is, in bare numbers: at most 192 and the amount, none for amounts from 2^63; backwards as many as fit above the root, or within 100 blocks if the origin is further than that from the canonical line and headers are skipped; forwards as many as fit below the head, or the origin alone if it is not canonical |
| HeaderReplies.HashReplySteps | docker-geth-network-master/monitored-geth-client/go-ethereum-master/eth/handler.go:345-424 | which headers they are: the origin's ancestors at steps of skip+1, or the canonical blocks above it |
| HeaderReplies.NumberReplySteps | docker-geth-network-master/monitored-geth-client/go-ethereum-master/eth/handler.go:368-423 | which headers a reply by number holds: those the index has at steps of skip+1 modulo 2^64, until there is no room, no block, or zero would be passed |
| HeaderQueries.Answer | docker-geth-network-master/monitored-geth-client/go-ethereum-master/eth/handler.go:345-424 | either mode in full, within the limit and with stored headers only |
| Reorgs.TxDifference | docker-geth-network-master/monitored-geth-client/go-ethereum-master/core/types/transaction.go:275-290 | exactly the transactions of the first list not in the second, in their order |
| Reorgs.DifferenceJoins | docker-geth-network-master/monitored-geth-client/go-ethereum-master/core/types/transaction.go:275-290 | the order is kept: the difference of two lists joined is that of the first followed by that of the second |
| Reorgs.DifferenceCounts | docker-geth-network-master/monitored-geth-client/go-ethereum-master/core/types/transaction.go:275-290 | each of them as often as in the first list |
| Reorgs.BlockChain.Reduce | docker-geth-network-master/monitored-geth-client/go-ethereum-master/core/blockchain.go:1311-1328 | walks one chain down to a number, failing exactly if a block on the way is missing |
| Reorgs.BlockChain.FindFork | docker-geth-network-master/monitored-geth-client/go-ethereum-master/core/blockchain.go:1311-1353 | finds the highest common ancestor and both segments above it; fails exactly if a block of them is missing |
| Reorgs.ForkUnique | docker-geth-network-master/monitored-geth-client/go-ethereum-master/core/blockchain.go:1336-1353 | two blocks of one tree fork at exactly one number |
| Reorgs.BlockChain.Insert | docker-geth-network-master/monitored-geth-client/go-ethereum-master/core/blockchain.go:484-501 | a block becomes canonical and head; the other heads follow exactly if it was not canonical before |
| Reorgs.BlockChain.WriteTxLookupEntries | docker-geth-network-master/monitored-geth-client/go-ethereum-master/core/rawdb/accessors_indexes.go:43-58 | every transaction of the block, and no other, gets an entry pointing at it |
| Reorgs.BlockChain.InsertChain | docker-geth-network-master/monitored-geth-client/go-ethereum-master/core/blockchain.go:1366-1374 | the new chain is inserted oldest first: index, table and head |
| Reorgs.ReorgIndexes | docker-geth-network-master/monitored-geth-client/go-ethereum-master/core/blockchain.go:1366-1374 | writing the new segment over the old index makes it the new head's ancestry up to the new head and changes nothing above |
| Reorgs.ReorgRelinks | docker-geth-network-master/monitored-geth-client/go-ethereum-master/core/blockchain.go:1366-1383 | the table is exact for the new head exactly when no deleted transaction is still on the shared part of the chain |
| Reorgs.UniqueDropsOnlyStale | docker-geth-network-master/monitored-geth-client/go-ethereum-master/core/blockchain.go:1375-1383 | that is so if a transaction occurs at most once per chain |
| Reorgs.BlockChain.Reorg | docker-geth-network-master/monitored-geth-client/go-ethereum-master/core/blockchain.go:1287-1397 | index and lookup table describe the new head's ancestry if they described the old one's; the header and fast heads move to the newest block inserted that was not canonical; a missing block leaves everything unchanged |
| Reorgs.BlockChain.WriteBlock | docker-geth-network-master/monitored-geth-client/go-ethereum-master/core/blockchain.go:898-1021 | stores the block and makes it the head if it is heavier; if it is as heavy, when its number is lower, or the same and the head is not to be preserved while the block is or the toss is won; in every other case the head stays; index, table and heaviest head are kept over every run |
| Reorgs.BlockChain.Store | docker-geth-network-master/monitored-geth-client/go-ethereum-master/core/blockchain.go:898-935 | storing a block keeps the tree closed, with the exact total difficulties |
| Slots.PickInterval | docker-geth-network-master/monitored-geth-client/go-ethereum-master/les/randselect.go:159-170 | the values that choose a slot form an interval as long as its weight |
| Slots.ChosenByWeight | docker-geth-network-master/monitored-geth-client/go-ethereum-master/les/randselect.go:159-170 | exactly as many values choose an item as it weighs |
| Slots.ConcatPick | docker-geth-network-master/monitored-geth-client/go-ethereum-master/les/randselect.go:159-170 | choosing a branch by partial sums and then within it is choosing in the flat row |
| RandSelects.Proportional | docker-geth-network-master/monitored-geth-client/go-ethereum-master/les/randselect.go:79-94 | for a tree that stands for a weighted set every value chooses a member, each for as many values as it weighs |
| RandSelects.WrsNode.Choose | docker-geth-network-master/monitored-geth-client/go-ethereum-master/les/randselect.go:159-170 | the recursive choice is the flat one, and no value below the sum is left over |
| RandSelects.WrsNode.FindBranch | docker-geth-network-master/monitored-geth-client/go-ethereum-master/les/randselect.go:107-114 | while the node is not full a branch with room is found, so the panic is not reached |
| RandSelects.WrsNode.Insert | docker-geth-network-master/monitored-geth-client/go-ethereum-master/les/randselect.go:107-131 | fills the first vacant slot of the flat row and returns its index; sums and counts of all nodes agree |
| RandSelects.WrsNode.SetWeight | docker-geth-network-master/monitored-geth-client/go-ethereum-master/les/randselect.go:135-156 | changes the weight of the slot at the index, vacating it at zero, and returns the difference |
| RandSelects.WrsNode.Above | docker-geth-network-master/monitored-geth-client/go-ethereum-master/les/randselect.go:63-69 | a new level keeps every item at its index |
| RandSelects.WeightedRandomSelect.SetWeight | docker-geth-network-master/monitored-geth-client/go-ethereum-master/les/randselect.go:54-73 | the tree is a weighted map: the item is updated, added or removed and nothing else changes |
| RandSelects.WeightedRandomSelect.Choose | docker-geth-network-master/monitored-geth-client/go-ethereum-master/les/randselect.go:79-94 | a run of tries: each picks a member by stored weight and brings that weight up to date; only the last is kept, by what was drawn if the item got lighter; nothing is returned only from an empty set |
| RandSelects.TriedRefreshes | docker-geth-network-master/monitored-geth-client/go-ethereum-master/les/randselect.go:79-94 | whatever is drawn, no item is added, other weights only change to current ones, and the outcome is a member with its current weight |
| RandSelects.TriedSettles | docker-geth-network-master/monitored-geth-client/go-ethereum-master/les/randselect.go:79-94 | whatever is drawn, an item tried ends with its present weight, or removed if it has none, and every other item is as it was |
| RandSelects.TriedEach | docker-geth-network-master/monitored-geth-client/go-ethereum-master/les/randselect.go:79-94 | exactly the last item tried may be chosen: it is if it weighs no less than it was tried with, or if the number drawn is below its present weight; no other one tried was |
| RandSelects.KeptInProportion | docker-geth-network-master/monitored-geth-client/go-ethereum-master/les/randselect.go:84-91 | an item that got lighter is kept for exactly as many of the numbers drawn below its stored weight as it weighs now |
| Retrievals.RunKeepsInv | docker-geth-network-master/monitored-geth-client/go-ethereum-master/les/retrieve.go:182-371 | every interleaving of loop, workers, distributor, deliveries and cancellation keeps the invariant |
| Retrievals.Accounting | docker-geth-network-master/monitored-geth-client/go-ethereum-master/les/retrieve.go:272-295 | queued flag plus sent flag plus timed-out count is the number of workers whose last report is not yet processed |
| Retrievals.ExitLeavesNothing | docker-geth-network-master/monitored-geth-client/go-ethereum-master/les/retrieve.go:182-194 | when the loop has ended no report is under way and every worker is past its last one |
| Retrievals.OneEarlyWorker | docker-geth-network-master/monitored-geth-client/go-ethereum-master/les/retrieve.go:300-371 | at most one worker at a time is queued or short of its soft timeout |
| Retrievals.NeverStuck | docker-geth-network-master/monitored-geth-client/go-ethereum-master/les/retrieve.go:198-269 | a loop that has not ended always has a worker that can still report, or a report, to wait for |
| Retrievals.EntryFound | docker-geth-network-master/monitored-geth-client/go-ethereum-master/les/retrieve.go:308-319 | a worker that was given a peer finds its entry, so the panic is not reached, and the channel has room for the one delivery |
| Retrievals.LatePeer | docker-geth-network-master/monitored-geth-client/go-ethereum-master/les/retrieve.go:281-287 | a worker past its soft timeout never shares the peer of the last request, so the counters blame the right worker |
| Retrievals.LearntCounts | docker-geth-network-master/monitored-geth-client/go-ethereum-master/les/retrieve.go:272-289 | updating by a legal report keeps the counters exact |
| Retrievals.ReportSound | docker-geth-network-master/monitored-geth-client/go-ethereum-master/les/retrieve.go:300-371 | whatever a worker reports next is legal at its place in the channel |
| Retrievals.SentReq.Update | docker-geth-network-master/monitored-geth-client/go-ethereum-master/les/retrieve.go:272-289 | the oldest report updates the flags and the count as specified |
| Retrievals.SentReq.StateRequesting | docker-geth-network-master/monitored-geth-client/go-ethereum-master/les/retrieve.go:198-235 | the handling of every report while requesting; what it comes to is told by `RetrievalOutcomes.StepEnds`, `StepMoves` and `StepSpawns` |
| RetrievalOutcomes.RunEnds | docker-geth-network-master/monitored-geth-client/go-ethereum-master/les/retrieve.go:198-271 | over every run: a retrieval has ended with success exactly if an earlier step, with nothing having ended it before, read a valid delivery while requesting or short of peers; with ErrNoPeers exactly if one read, from the last worker anybody could still hear from, that no peer is left or, short of peers, anything but a valid delivery; with a cancellation exactly if it was called off first; it has not ended exactly if there was no such step |
| RetrievalOutcomes.StepEnds | docker-geth-network-master/monitored-geth-client/go-ethereum-master/les/retrieve.go:198-271 | one step ends a retrieval exactly so, and an ended one keeps its outcome |
| RetrievalOutcomes.StepMoves | docker-geth-network-master/monitored-geth-client/go-ethereum-master/les/retrieve.go:198-279 | from state to state: short of peers exactly when a worker found none while others are at it, requesting again on the timer, stopped on a valid delivery or a stop, ended exactly when nobody can report any more |
| RetrievalOutcomes.StepSpawns | docker-geth-network-master/monitored-geth-client/go-ethereum-master/les/retrieve.go:198-255 | another peer is tried exactly on the timer, when the last request passes its soft timeout, or when it is answered badly before that |
| RetrievalOutcomes.SuccessDelivered | docker-geth-network-master/monitored-geth-client/go-ethereum-master/les/retrieve.go:373-392 | a retrieval that succeeded did so by an answer found valid that a peer it had asked delivered as its first |
| RetrievalOutcomes.ValidDelivered | docker-geth-network-master/monitored-geth-client/go-ethereum-master/les/retrieve.go:300-392 | every valid answer on its way to the loop was delivered so |
| RetrievalOutcomes.OutstandingOpen | docker-geth-network-master/monitored-geth-client/go-ethereum-master/les/retrieve.go:272-295 | a worker is outstanding by the book exactly if it can still report or has a report not read yet |
| RetrievalOutcomes.ChannelFits | docker-geth-network-master/monitored-geth-client/go-ethereum-master/les/retrieve.go:137-137 | never more than ten reports wait in the channel |
| Retrievals.SentReq.StateNoMorePeers | docker-geth-network-master/monitored-geth-client/go-ethereum-master/les/retrieve.go:240-260 | the handling of reports and of the retry timer when no more peers were found |
| Retrievals.SentReq.StateStopped | docker-geth-network-master/monitored-geth-client/go-ethereum-master/les/retrieve.go:264-269 | waits out what is outstanding and ends with nothing outstanding |
| Retrievals.SentReq.DeliverReply | docker-geth-network-master/monitored-geth-client/go-ethereum-master/les/retrieve.go:374-389 | one delivery per request and peer is accepted, and its channel is empty |
| Feeds.DeactivatedPartition | docker-geth-network-master/monitored-geth-client/go-ethereum-master/event/feed.go:228-232 | the swap hands exactly one case from the active prefix to the served rest |
| Feeds.DeletedPartition | docker-geth-network-master/monitored-geth-client/go-ethereum-master/event/feed.go:223-225 | deleting takes one case out of the prefix or the rest and leaves the other alone |
| Feeds.AccountsDone | docker-geth-network-master/monitored-geth-client/go-ethereum-master/event/feed.go:129-190 | a send served to the end has delivered to every channel of its start, unless cancelled |
| Feeds.Feed.Subscribe | docker-geth-network-master/monitored-geth-client/go-ethereum-master/event/feed.go:73-93 | the channel joins the inbox |
| Feeds.Feed.Remove | docker-geth-network-master/monitored-geth-client/go-ethereum-master/event/feed.go:104-115 | a channel in the inbox is gone at once, any other waits to be received |
| Feeds.Feed.Receive | docker-geth-network-master/monitored-geth-client/go-ethereum-master/event/feed.go:170-177 | a leaving channel is always found, and exactly its case goes |
| Feeds.Feed.Deactivate | docker-geth-network-master/monitored-geth-client/go-ethereum-master/event/feed.go:228-232 | in place, the served case moves behind the prefix |
| Feeds.Feed.Delete | docker-geth-network-master/monitored-geth-client/go-ethereum-master/event/feed.go:223-225 | in place, the gap is closed and the order kept |
| Feeds.Feed.Send | docker-geth-network-master/monitored-geth-client/go-ethereum-master/event/feed.go:129-190 | the deliveries appended to the record are to each channel subscribed at the start exactly once, unless its removal is received before its turn; the result counts them |
| ChainIndexers.RunKeepsValid | docker-geth-network-master/monitored-geth-client/go-ethereum-master/core/chain_indexer.go:239-465 | in every interleaving of notifications, reads and the other atomic steps, the clearing after a failed reset being one of them, section heads exist for exactly the stored sections, each sectionSize headers above the one before |
| ChainStatements.StepRefines | docker-geth-network-master/monitored-geth-client/go-ethereum-master/core/chain_indexer.go:382-389 | statement by statement, with the clearing of a failed reset running without the lock: as long as no cutting reorganisation overlaps it, the first statement of each call is its whole atomic step and the others change nothing |
| ChainStatements.RunKeepsLinked | docker-geth-network-master/monitored-geth-client/go-ethereum-master/core/chain_indexer.go:239-465 | in every run of statements without such an overlap, heads exist for exactly the stored sections, linked, whenever neither call is under way |
| ChainStatements.ClearingEnds | docker-geth-network-master/monitored-geth-client/go-ethereum-master/core/chain_indexer.go:382-389 | however the statements of a clearing and of reorganisations interleave, the head of the first section is gone when both have returned, so the heads fit the number stored exactly if that is zero and no head is left over |
| ChainStatements.OverlapOutcome | docker-geth-network-master/monitored-geth-client/go-ethereum-master/core/chain_indexer.go:453-465 | provided that neither call counts down between the other's counting down and its removal of a head: the heads fit the number stored at the end exactly if the clearing makes the last assignment or the reorganisation leaves no section |
| ChainStatements.SectionLost | docker-geth-network-master/monitored-geth-client/go-ethereum-master/core/chain_indexer.go:249-260 | a run in which the reorganisation makes the last assignment: one section is stored and has no head |
| ChainStatements.HeadLeftOver | docker-geth-network-master/monitored-geth-client/go-ethereum-master/core/chain_indexer.go:453-465 | a run in which both calls count down before either removes a head: no section is stored, and a head is left over |
| ChainStatements.NothingBuilds | docker-geth-network-master/monitored-geth-client/go-ethereum-master/core/chain_indexer.go:382-407 | if the last section stored has no head, no header of any chain continues the section taken up |
| ChainStatements.StaysStuck | docker-geth-network-master/monitored-geth-client/go-ethereum-master/core/chain_indexer.go:304-378 | with such a section stored, no notification, read or end of processing changes the sections stored or their heads, until a reset fails again or a reorganisation cuts them |
| ChainIndexers.EndedKeeps | docker-geth-network-master/monitored-geth-client/go-ethereum-master/core/chain_indexer.go:345-361 | a section that completes links to the one below or is discarded |
| ChainIndexers.ReadKeeps | docker-geth-network-master/monitored-geth-client/go-ethereum-master/core/chain_indexer.go:392-407 | reading one more header, from whatever the chain is then, keeps the way back |
| ChainIndexers.ReorgCuts | docker-geth-network-master/monitored-geth-client/go-ethereum-master/core/chain_indexer.go:243-271 | a reorganisation keeps exactly the sections that end below the common ancestor |
| ChainIndexers.NotifiedKnown | docker-geth-network-master/monitored-geth-client/go-ethereum-master/core/chain_indexer.go:243-296 | section by section: a new head makes known exactly those whose last block has the confirmations asked for; a reorganisation leaves known and stored exactly those that end below the common ancestor |
| ChainIndexers.NotifiedCascades | docker-geth-network-master/monitored-geth-client/go-ethereum-master/core/chain_indexer.go:262-271 | a reorganisation rolls what is built on the index back to the start of the section the common ancestor is in, if it is further |
| ChainIndexers.EndedStores | docker-geth-network-master/monitored-geth-client/go-ethereum-master/core/chain_indexer.go:345-361 | a section read in full on the head below it is stored with its last header, whose number is passed on; anything else changes no section and leaves as known what is stored |
| ChainIndexers.CanonicalByLast | docker-geth-network-master/monitored-geth-client/go-ethereum-master/core/chain_indexer.go:239-465 | the stored heads are all canonical exactly when the last one is |
| ChainEvents.QuietIsCanonical | docker-geth-network-master/monitored-geth-client/go-ethereum-master/core/chain_indexer.go:193-236 | with no notification pending, the stored heads are canonical or due to be dropped exactly when they are all canonical |
| ChainEvents.StepSafe | docker-geth-network-master/monitored-geth-client/go-ethereum-master/core/chain_indexer.go:193-296 | one step of the chain, announced or not, of notification or of processing keeps every stored head canonical or due to be dropped, exactly unless it completes a section whose last header is neither, or moves the chain unannounced off the line of the last stored head that will be left |
| ChainEvents.HistorySafe | docker-geth-network-master/monitored-geth-client/go-ethereum-master/core/chain_indexer.go:193-361 | over every history of announced and unannounced moves, notifications and processing, the stored heads are canonical or due to be dropped all along exactly when every step meets that condition |
| ChainEvents.SlippedSafe | docker-geth-network-master/monitored-geth-client/go-ethereum-master/core/chain_indexer.go:222-229 | an unannounced move, as when no common ancestor is found, leaves the stored heads canonical or due to be dropped exactly if the last one that will be left is on the new line |
| ChainEvents.CanonicalUnlessLanded | docker-geth-network-master/monitored-geth-client/go-ethereum-master/core/chain_indexer.go:193-361 | over every history in which no reorganisation lands inside the section being processed, and no unannounced move abandons the last stored head or the last header read, the stored heads are canonical whenever no notification is pending |
| ChainEvents.StaleSection | docker-geth-network-master/monitored-geth-client/go-ethereum-master/core/chain_indexer.go:345-361 | a history with legal steps only, every move announced, in which a reorganisation lands inside the section being processed, and an abandoned block is left as section head with everything notified and the indexer idle |
| ChainEvents.StaleUnannounced | docker-geth-network-master/monitored-geth-client/go-ethereum-master/core/chain_indexer.go:222-229 | a history in which none lands there, but an unannounced reorganisation leaves an abandoned block as section head with everything notified and the indexer idle |
| ChainIndexers.ChainIndexer.SetValidSections | docker-geth-network-master/monitored-geth-client/go-ethereum-master/core/chain_indexer.go:453-465 | removes the heads above, one by one, and keeps the rest |
| ChainIndexers.ChainIndexer.NotifyHead | docker-geth-network-master/monitored-geth-client/go-ethereum-master/core/chain_indexer.go:239-296 | the handling of new heads and reorganisations |
| ChainIndexers.ChainIndexer.EndSection | docker-geth-network-master/monitored-geth-client/go-ethereum-master/core/chain_indexer.go:345-361 | commits the section or falls back to what is stored |
| StateTransitions.GasPool.AddGas | docker-geth-network-master/monitored-geth-client/go-ethereum-master/core/gaspool.go:29-35 | adds, when the sum fits |
| StateTransitions.GasPool.SubGas | docker-geth-network-master/monitored-geth-client/go-ethereum-master/core/gaspool.go:39-45 | deducts exactly if enough is there |
| Sums.SumUpdate | docker-geth-network-master/monitored-geth-client/go-ethereum-master/core/state_transition.go:152-165 | changing one balance changes the total by the difference |
| StateTransitions.StateTransition.BuyGas | docker-geth-network-master/monitored-geth-client/go-ethereum-master/core/state_transition.go:152-165 | succeeds exactly if sender and block can afford all the gas, and then takes it from both |
| StateTransitions.StateTransition.RefundGas | docker-geth-network-master/monitored-geth-client/go-ethereum-master/core/state_transition.go:230-245 | refunds the whole counter, or as much as half of the used gas if that is less; sender and block get the rest back without overflow |
| StateTransitions.RefundGranted | docker-geth-network-master/monitored-geth-client/go-ethereum-master/core/state_transition.go:230-237 | what comes back of the gas used is the whole refund counter or the most that is not more than half |
| StateTransitions.StateTransition.Settle | docker-geth-network-master/monitored-geth-client/go-ethereum-master/core/state_transition.go:224-225 | refund and miner's fee together are what was paid |
| StateTransitions.StateTransition.TransitionDb | docker-geth-network-master/monitored-geth-client/go-ethereum-master/core/state_transition.go:183-228 | applied exactly if it can be paid for, intrinsic gas included, and the machine finds the sender able to transfer, and rejected with the first of these that fails; the machine runs on the accounts with all the gas paid and a call counted; of the gas used the refund counter comes back, at most half; the sender gets the price of what was not charged, the miner that of what was; ether is conserved and the pool loses exactly the gas charged |
| StateTransitions.AppliedSettles | docker-geth-network-master/monitored-geth-client/go-ethereum-master/core/state_transition.go:183-245 | the same of an applied message, on balances: nobody else's changes |
| StateTransitions.AppliesExactly | docker-geth-network-master/monitored-geth-client/go-ethereum-master/core/state_transition.go:167-222 | when a message is applied, in bare numbers |
| StateTransitions.ExecutedApplies | docker-geth-network-master/monitored-geth-client/go-ethereum-master/core/state_transition.go:183-228 | at least half of the intrinsic gas is charged for in any case |
| StateProcessors.ApplyTransaction | docker-geth-network-master/monitored-geth-client/go-ethereum-master/core/state_processor.go:88-126 | a receipt exactly if the transaction is signed and applies; its gas, failure and logs and the accounts afterwards are what applying the message comes to; the gas leaves the pool and joins the block's total |
| StateProcessors.Process | docker-geth-network-master/monitored-geth-client/go-ethereum-master/core/state_processor.go:56-82 | processed exactly if every transaction applies to the accounts and the gas the ones before it left; accounts and receipts are then what running them in turn comes to; gas left and gas used add up to the limit; ether is conserved |
| StateProcessors.PlayedEach | docker-geth-network-master/monitored-geth-client/go-ethereum-master/core/state_processor.go:56-126 | in a block that runs every transaction is signed, has its sender's very next nonce, is paid for in advance and fits into the gas left, and is run and settled as a message of its own fields |
| StateProcessors.NoncesRise | docker-geth-network-master/monitored-geth-client/go-ethereum-master/core/state_transition.go:167-181 | if the machine lets no nonce of the senders fall and counts creations, the nonces of an account's transactions rise within a block, up to the last nonce there is: none runs twice |
| StateProcessors.LogIndexIsPlace | docker-geth-network-master/monitored-geth-client/go-ethereum-master/core/state_processor.go:56-126 | the logs of a block are numbered through by their places, and each names its block, its transaction and that one's place |
| StateProcessors.RecordsEach | docker-geth-network-master/monitored-geth-client/go-ethereum-master/core/state_processor.go:88-126 | every receipt names its transaction and, for a creation, the contract; gas used so far is that of the receipt before plus its own |
| StateProcessors.PlayedStops | docker-geth-network-master/monitored-geth-client/go-ethereum-master/core/state_processor.go:56-82 | a block with a beginning that does not run does not run |
| StateProcessors.SetReceiptsData | docker-geth-network-master/monitored-geth-client/go-ethereum-master/core/blockchain.go:755-790 | fills in, in place, transaction hashes, contract addresses, per-transaction gas by difference, and block and position of the logs; a wrong number of receipts changes nothing |
| StateProcessors.DerivedRecovers | docker-geth-network-master/monitored-geth-client/go-ethereum-master/core/blockchain.go:755-790 | what is derived for a stored receipt is exactly what execution recorded |
| GasLimits.StepApproaches | docker-geth-network-master/monitored-geth-client/go-ethereum-master/core/block_validator.go:108-139 | nothing wraps around: the result is that of the formula on unbounded numbers; a block brings the limit strictly closer to the range or keeps it inside |
| GasLimits.StepDirection | docker-geth-network-master/monitored-geth-client/go-ethereum-master/core/block_validator.go:108-139 | which way the limit goes: inside the range by three halves of the gas used against the limit, over 1024; outside it towards the range, by a 1024th less one but not past its end |
| GasLimits.ProposalAcceptable | docker-geth-network-master/monitored-geth-client/go-ethereum-master/consensus/ethash/consensus.go:263-282 | the limit proposed passes verification exactly unless a parent below 5120 is nearly full and the limit may rise by 4, or one at the minimum is to sink below it |
| GasLimits.ProposalsRejected | docker-geth-network-master/monitored-geth-client/go-ethereum-master/consensus/ethash/consensus.go:263-282 | two proposals verification rejects |
| GasLimits.Converges | docker-geth-network-master/monitored-geth-client/go-ethereum-master/core/block_validator.go:108-139 | whatever the blocks use, the limit is in the range after finitely many blocks and from then on |

## Left out

- The account and transaction journals, event feeds, metrics, logging and locks of the pool.
- TxPools.TxPool.Reset: takes the list of transactions to re-inject as a parameter; the walk over old and new blocks that computes it is not modelled.
- PoolGaps.AdaptationGapless: for an account whose nonce on the chain falls the condition is sufficient only; what is given back may fill the gap it excludes.
- TxPriceds.TxPricedList.Removed: does not claim that the stale counter is the number of stale entries, because a transaction removed and re-added can stand in the heap twice.
- TxPools.TxPool.ValidateTx: the size of a transaction is a field of its own, not computed from its encoding.
- Heap.Up: the slice under `container/heap` is a sequence that is returned, not a shared buffer; the classes that own a heap reassign it.
- The pool's configuration limits are below 2^62, so that sums of them are exact; prices and balances are unbounded as in the source.
- The cached flattening of the local account set.
- HeaderChains.HeaderChain.WriteHeader: the number scanned above a new head is not wrapped at 2^64.
- HeaderChains.HeaderChain.GetAncestor: a known hash is looked up with its own number, as the caches assume; claims nothing for the empty hash, with which it is not called.
- Header, difficulty and number caches; reads are by hash.
- Validation of header chains, the consensus engine and block rewards: that a number is its parent's plus one is a precondition.
- Reorgs.BlockChain.Reorg: does not describe index entries above a new head that is lower than the old one, because the code leaves them.
- Logs collected for removed blocks, chain events, state commits, trie garbage collection and future blocks.
- RandSelects.WeightedRandomSelect.SetWeight: weights are non-negative and their sums unbounded; the `int64` overflow of a total is not modelled.
- RandSelects.WeightedRandomSelect.Choose: random numbers are nondeterministic choices; that the values drawn are spread over the items by weight is `Proportional`.
- Response times, peer removal after a hard timeout and the request distributor behind the retrieval protocol: that the distributor picks a peer without an open entry is the guard of `Assign`.
- The value sent by a feed, its type check and the closing of subscriptions.
- ChainEvents.HistorySafe: the clearing after a failed reset is one step there, which it is unless a cutting reorganisation overlaps it (`ChainStatements.StepRefines`).
- ChainStatements.OverlapOutcome: each statement is one step, counting down included; the number of sections kept in the database for a restart is not modelled.
- Checkpoints, children, throttling and the shutdown of the chain indexer; a failing backend is a nondeterministic step.
- StateProcessors.Process: the logs of a receipt are those of its own execution, which differs only if one transaction ran twice in a block (`StateProcessors.NoncesRise`); fork-specific state changes, receipt roots, blooms and `Finalize` are not modelled.
- StateTransitions.StateTransition.TransitionDb: what a rejected message has already taken is not described, because the block is then invalid and its state discarded.
- GasLimits.StepApproaches: limits of 2^63 and above, which verification rejects, and limits and ceilings below 2048, at which the steps are empty.
- TxPools.TxPool.EvictIdle: the clock stands still during one call.
- TxPools.TxPool.constructor: the initial reset and the loading of the journal are calls of `Reset` and `AddTxs`, not part of it.
- Hashing, signatures, RLP, tries, the state database and EVM bytecode.
- Python and JavaScript glue, RPC, console, dashboard and other services of the client.
