# A verified model of the lemochain-go cores

This project models, in Dafny 4.11, the parts of lemochain-go (a Go node for an account-based block chain) whose
correctness rests on invariants across several data structures, and proves those invariants for every input, every
run and every reachable state. `dafny verify dfyconfig.toml` checks the whole project.

| part | files | main results |
|---|---|---|
| transaction pool | `Transactions`, `BinaryHeap`, `ListModel`, `TxList`, `PricedList`, `IntrinsicGas`, `Equalisation`, `PoolAccounts`, `TxPool`, `PoolRuns` | after every run of submissions, removals, price changes, evictions and head changes the pool's maps partition, pending nonces are the gap-free run from the state nonce to the virtual nonce, everything is affordable, priced and within the size limit; when a head brings transactions back each one is taken in or refused with reason, and all of the invariant survives but for the run of some accounts; which ones is told, with room exactly from the pool before, the list and the new state; a transaction is lost only to a higher bid or to a limit; overflow is cut fairly and the nested loops end |
| chain | `BlockTree`, `HeaderChain`, `Branches`, `BlockChain`, `ChainIndexer` | the in-place number index is the head's ancestor path after every import, the lookup table holds exactly the canonical transactions through reorganisations of any depth, total difficulty is the sum back to genesis and the head is heaviest, caches agree with the database under any eviction; all but heaviest head and complete branches survives rewinding, after which a write may panic, exactly if it would make an orphaned header the head; section indexing, also when the chain moves while a section is read |
| Merkle hashing | `Bmt`, `BmtRuns` | every interleaving of the goroutines' reads and writes sends exactly one result, the reference hash, however the chunk was cut into writes; every run ends; the tree is reusable exactly until a counter would wrap, and what can happen then; for an odd number of segments writes can take too much and then panic, and exactly when is told |
| selection and delivery | `RandSelect`, `Feed`, `Distributor` | the weight tree refines a plain map and gives each item exactly its weight's number of values; every delivery round logs the value exactly once for each remaining subscriber; requests stay in creation order and fail only if hopeless |
| gas | `IntrinsicGas`, `StateTransition` | conservation of balances and of pool gas for a message and, execution by execution, for a block |
| derivation paths | `DerivationPath` | printing and parsing are inverse, exactly on non-empty paths |

How the model is cut:

- A hash is identified with what it hashes: `Tx` values stand for their hashes, and a header or block carries its hash,
  which belongs to no other one.
- Maps that Go iterates in random order, `sort.Sort`, random numbers, the choice of `select` and the outcome of a
  non-blocking send are nondeterministic choices: the results hold for all of them.
- State that Go mutates is a class whose fields are reassigned. Loops of the source are loops here, with invariants.
  A concurrent protocol is a step relation in which every read and every write of a shared field is a step of its own.
- Signature recovery, execution of contracts, the clock and what peers answer are parameters.
- What a subscriber receives is a log that grows where the code sends. Slices handed to a hasher are values: a caller
  must not reuse the buffer of a write before the result is there, as the code keeps a part of it.

## Model

| member | source | states |
|---|---|---|
| BinaryHeap.Push | core/tx_list.go:73-79 | pushing keeps a slice a heap and adds exactly the new element |
| BinaryHeap.Pop | core/tx_list.go:84-98 | popping returns the first element, which is a least one, and leaves a heap of the rest |
| BinaryHeap.Remove | core/tx_list.go:152-169 | removing at any position leaves a heap of the rest, whichever way the moved element has to sift |
| BinaryHeap.Init | core/tx_list.go:102-123 | makes a heap of any slice, as a permutation of it |
| BinaryHeap.RootIsMinOfAll | core/tx_list.go:31-48 | the first element of a heap is least among all |
| TxLists.TxSortedMap.Put | core/tx_list.go:73-79 | the nonce map gains or replaces one entry; the index stays a heap holding each key once, a stale cache is dropped |
| TxLists.TxSortedMap.Forward | core/tx_list.go:84-98 | exactly the nonces below the threshold leave, returned in nonce order; a cache is shifted and is still the sorted content |
| TxLists.TxSortedMap.Filter | core/tx_list.go:102-123 | exactly the matching transactions leave and are returned, each once |
| TxLists.TxSortedMap.Cap | core/tx_list.go:127-148 | the lowest nonces stay, as many as allowed; the rest is returned highest first; a cache is trimmed and is still the sorted content |
| TxLists.TxSortedMap.Remove | core/tx_list.go:152-169 | one nonce leaves the map and the heap, and the result tells whether it was there |
| TxLists.TxSortedMap.Ready | core/tx_list.go:178-193 | if the least nonce is not above the start, the maximal consecutive run from it leaves and is returned in order; else nothing happens |
| TxLists.TxSortedMap.Flatten | core/tx_list.go:203-216 | returns and caches the content in nonce order |
| TxLists.TxList.Add | core/tx_list.go:251-272 | a transaction enters a free slot, or one whose holder it outbids by the bump; the caps follow |
| TxLists.TxList.Forward | core/tx_list.go:277-279 | the list loses what lies below the threshold |
| TxLists.TxList.Filter | core/tx_list.go:290-314 | the mutating filter computes the list function, with its two returned listings |
| TxLists.TxList.Cap | core/tx_list.go:318-320 | the lowest nonces stay |
| TxLists.TxList.Remove | core/tx_list.go:325-336 | one slot is emptied; in strict mode everything above it is returned as invalid |
| TxLists.TxList.Ready | core/tx_list.go:345-347 | the run ready from the start leaves, in order |
| TxLists.TxList.Flatten | core/tx_list.go:362-364 | the content in nonce order |
| ListModel.AddBounded | core/tx_list.go:251-272 | adding keeps the cost and gas caps above every member |
| ListModel.FilterIsScan | core/tx_list.go:290-314 | with caps that bound every member, the short cut gives what a full scan would |
| ListModel.ScanSplits | core/tx_list.go:290-314 | kept, removed and invalid transactions partition the old list |
| ListModel.ScanGapFree | core/tx_list.go:303-313 | in strict mode what a scan keeps of a gap-free list is gap-free, cut at the first removed nonce |
| ListModel.RemoveSplits | core/tx_list.go:325-336 | kept, the removed one and invalids partition the old list |
| ListModel.RemoveGapFree | core/tx_list.go:325-336 | in strict mode removal cuts a gap-free list at the removed nonce |
| ListModel.ForwardGapFree | core/tx_list.go:277-279 | forwarding keeps a list gap-free |
| ListModel.LowestGapFree | core/tx_list.go:318-320 | capping keeps a list gap-free |
| PricedLists.PricedList.Put | core/tx_list.go:403-405 | the price heap gains the transaction |
| PricedLists.PricedList.Removed | core/tx_list.go:410-424 | one more stale entry is counted and the heap left alone, or, past a quarter of the heap, it is rebuilt to hold each live transaction once; so it always covers them |
| PricedLists.PricedList.Cap | core/tx_list.go:428-455 | exactly the live remote transactions below the threshold are dropped, and every other live one is still in the heap |
| PricedLists.PricedList.Underpriced | core/tx_list.go:459-481 | true exactly if no live transaction is cheaper, whatever stale entries the heap holds |
| PricedLists.PricedList.Discard | core/tx_list.go:485-508 | never a local sender, cheapest first, as many live heap entries as asked, each as often as the heap has it, or all remote ones there are; every other live one stays in the heap |
| PricedLists.AllDifferent | core/tx_list.go:485-508 | where the heap has no live transaction twice, those are different ones |
| IntrinsicGas.IntrinsicGas | core/state_transition.go:79-109 | the 64-bit computation fails exactly if the unbounded sum does not fit, and else is that sum |
| Equalisation.GroupRound | core/tx_pool.go:986-1004 | a round over the earlier offenders keeps them level, above the last one, and no uncut account longer than a cut one |
| Equalisation.FullRound | core/tx_pool.go:1007-1026 | so does a round over all of them down to the guaranteed slots |
| Equalisation.SettledIsFair | core/tx_pool.go:959-1029 | when the offenders are level, no uncut remote account is longer than a cut one |
| Equalisation.PhaseIsFair | core/tx_pool.go:959-1029 | the same in the middle of an equalisation |
| TxPools.TxPool.constructor | core/tx_pool.go:218-258 | an empty pool has the invariant |
| TxPools.TxPool.ValidateTx | core/tx_pool.go:556-597 | accepts exactly the transactions that meet all of the conditions, and else names the first one, in their fixed order, that is not met |
| TxPools.TxPool.EnqueueTx | core/tx_pool.go:680-701 | the sender's queue becomes the list function's result, the known set follows, the price heap covers it |
| TxPools.TxPool.RemoveTx | core/tx_pool.go:865-903 | one transaction leaves; a pending one sends the higher nonces of its account back to the queue and the virtual nonce comes down to it if it was above; other accounts see nothing; accounts in order stay so |
| TxPools.TxPool.SetGasPrice | core/tx_pool.go:465-474 | exactly the remote transactions below the new price leave |
| TxPools.TxPool.MakeRoom | core/tx_pool.go:628-635 | a full pool gives up at least one transaction unless all are local, no more than are too many, only remote ones, and none dearer than a remote one it keeps; accounts that lose none see nothing, and pending lists are at most cut at a nonce, to which the virtual nonce comes down |
| PoolAccounts.LimitedNext | core/tx_pool.go:621-635 | a pool within its size limit, or above it with one remote transaction at most, is so after any submission |
| TxPools.TxPool.ReplacePending | core/tx_pool.go:636-661 | a pending slot changes hands only to a transaction that outbids its holder |
| TxPools.TxPool.EnqueueNew | core/tx_pool.go:662-675 | a queue slot likewise; success of a local one makes the sender local |
| TxPools.TxPool.Add | core/tx_pool.go:607-675 | what a submission adds, drops and replaces, in the known set and in the lists, for every error and for success, keeping the invariant |
| TxPools.TxPool.PromoteTx | core/tx_pool.go:718-751 | a transaction with the next nonce joins the pending run and the virtual nonce moves past it |
| TxPools.TxPool.PromoteAccount | core/tx_pool.go:917-958 | exactly what becomes of an account's lists and virtual nonce: stale and unpayable ones go, the run that is ready becomes pending, remote queues keep their lowest nonces only |
| TxPools.TxPool.CutRound | core/tx_pool.go:988-1003 | each offender loses its highest nonce and nothing else, and the virtual nonce follows |
| TxPools.TxPool.Equalise | core/tx_pool.go:981-1005 | rounds end with the total within bounds or the offenders level with the last one |
| TxPools.TxPool.ReduceAll | core/tx_pool.go:1007-1026 | rounds end with the total within bounds or all offenders at the guaranteed slots |
| TxPools.TxPool.CapPending | core/tx_pool.go:959-1029 | afterwards the total is within bounds or every remote account within its slots; locals are untouched, nobody is cut below the slots, and no uncut remote account is longer than a cut one; a list is cut at a nonce, to which the virtual nonce comes down, and an uncut account keeps it |
| PoolAccounts.CurtailedOn | core/tx_pool.go:986-1026 | cuts of a pending list, one after the other, come to one cut at the lowest nonce, and so for the virtual nonce |
| TxPools.TxPool.CapQueue | core/tx_pool.go:1030-1069 | afterwards the queue total is within bounds or only locals have anything queued; locals are untouched, and no more goes than is too many |
| TxPools.TxPool.PromoteExecutables | core/tx_pool.go:908-1070 | the given accounts' queues are processed exactly as told, then both limits are met; a transaction valid in the state is lost only if it is of a remote account and its account's queue limit, the pending limit with its slots, or the queue limit was exceeded |
| TxPools.TxPool.AddTx | core/tx_pool.go:782-797 | a single submission: the invariant; a refusal has its ground; an accepted transaction of a local sender is in the pool, and pending if it is the sender's next, as is anyone's in a pool with room; whatever is lost was dropped by a full pool as one of the cheapest remote ones, outbid, or of a remote account over a limit |
| PoolAccounts.NextIsPending | core/tx_pool.go:938-942 | in an account in order the next nonce, once queued, is promoted, and a local account's stays pending through both limits |
| PoolAccounts.Losses | core/tx_pool.go:908-1070 | after a promotion and its limits only what was crowded out is missing |
| TxPools.TxPool.AddTxs | core/tx_pool.go:809-832 | a batch: the invariant; one result for each: what is taken in passes every condition, and a refusal has its ground in what was known and what the batch has brought before, a price in as many dearer ones as fill the pool; with room every account gets exactly what the batch brings it, slot by slot; an accepted transaction of a local sender is in the pool or outbid by another of the batch, and a next nonce is pending; an account of which nothing is taken in is at most cut, and not if it is local or there is room; no more are dropped than are too many, and whatever else is lost was outbid by one taken in, or of a remote account over a limit |
| TxPools.AddBrought | core/tx_pool.go:607-675 | in a pool that is not full a submission takes its slot exactly if it passes and outbids the holder, if there is one, and else nothing changes |
| PoolAccounts.BatchNext | core/tx_pool.go:809-832 | the next nonce of a local account, or of any in a pool with room, if one of a batch has it, ends up pending |
| TxPools.TxPool.DemoteAccount | core/tx_pool.go:1077-1113 | exactly what happens to the pending list under a new state, whatever it holds: included and unpayable ones go, followers return to the queue, a gap in front sends everything back |
| TxPools.TxPool.DemoteUnexecutables | core/tx_pool.go:1075-1115 | exactly that, for every account |
| PoolAccounts.StaysPending | core/tx_pool.go:1086-1100 | a pending transaction stays exactly if the state has not gone past it and no unpayable one of its account comes before it |
| PoolAccounts.StraightIff | core/tx_pool.go:1075-1115 | for every pending list and virtual nonce: after the demotion the account is in order for promotion exactly if its next transaction is there and payable and every nonce after a gap comes after an unpayable one too, or its next transaction is not there or not payable and its virtual nonce is the state's |
| TxPools.TxPool.UpdateNonces | core/tx_pool.go:424-428 | virtual nonces end up just past the last pending transactions, and where nothing is pending they stay |
| TxPools.TxPool.Reset | core/tx_pool.go:401-432 | for every new state and every list of transactions brought back: each is taken in or refused with a ground; maps partition and no nonce is in two of them, everything is payable, current, priced and within the limits; and which accounts are in order, as told by `InOrderAfter` |
| TxPools.HeadOrder | core/tx_pool.go:401-432 | of the accounts in order before: with room, exactly those are so again whose pending nonces join up with what comes back, told by the lists before, the list brought back and the new state; in any pool, of those of which nothing is taken in, exactly those that have lost no pending nonce the state has gone past; a local account loses nothing, and where the state has not moved on no loss matters |
| TxPools.TxPool.BringInLine | core/tx_pool.go:418-432 | the same for any pool whose lists merely do not share a nonce |
| PoolAccounts.RejoinIff | core/tx_pool.go:413-432 | an account with a run of pending nonces is straight after what came back was promoted exactly if the state nonce did not come back or is not below the run, or there is no run, or the nonces that came back reach it, or its first transaction is not payable |
| PoolAccounts.RejoinsAt | core/tx_pool.go:413-432 | and then, and only then, the account is in order at the end |
| PoolAccounts.SparedIff | core/tx_pool.go:401-432 | a run of pending nonces that may have been cut before the demotion is straight exactly if no nonce that the state has gone past was cut off, and else the virtual nonce is below that of the state |
| PoolAccounts.SparedOrder | core/tx_pool.go:401-432 | and then, and only then, such an account is in order at the end, whatever limits are met |
| PoolRuns.GapAppears | core/tx_pool.go:1101-1107 | a run of a pool that ends out of order: nonce two is pending when a head brings nonce zero back and nonce one not; the check for a gap in front does not see it |
| PoolRuns.NonceFallsBehind | core/tx_pool.go:889-892 | another: a full pool gives up a pending transaction that the new state has gone past for a dearer one that comes back, and the virtual nonce falls below the state's |
| TxPools.TxPool.Evict | core/tx_pool.go:312-326 | exactly the queues of expired remote accounts go |
| TxPools.TxPool.Invariant | core/tx_pool.go:607-701 | the invariant in plain words: disjoint union, gap-free pending run from state nonce to virtual nonce, queued above pending, affordable, within the gas limit, priced, covered by the heap, and the pool within its size limit or with one remote transaction at most |
| TxPools.TxPool.KeptInWords | core/tx_pool.go:401-432 | what is left of it after a head that brings transactions back |
| TxPools.TxPool.Run | core/tx_pool.go:263-340 | every sequence of operations, heads that bring back any transactions included, keeps the invariant but for the order of some accounts; without such heads it keeps all of it; in any run an account stays in order of which nothing is brought back, if it is local or there is room for all that comes |
| BlockTree.PathPrefix | core/headerchain.go:165-177 | in a parent-closed tree the path to a hash on a path is the front of that path |
| BlockTree.PathsMeet | core/headerchain.go:165-177 | paths that meet at a number agree below it |
| BlockTree.WorkOfNew | core/headerchain.go:138-144 | the work behind a new header is its parent's plus its own difficulty |
| HeaderChains.RootedIff | core/headerchain.go:165-177 | a header is rooted, all of its ancestors being stored, exactly if its whole path is in the database |
| HeaderChains.HeaderChain.constructor | core/genesis.go:265-293 | a database with nothing but genesis has the invariant |
| HeaderChains.HeaderChain.GetHeader | core/headerchain.go:346-358 | a cached read under the right number is the database read, and deleted headers never answer for stored ones |
| HeaderChains.HeaderChain.GetTd | core/headerchain.go:314-326 | likewise for total difficulties |
| HeaderChains.HeaderChain.GetBlockNumber | core/headerchain.go:112-121 | likewise for numbers, with the value for a missing hash |
| HeaderChains.HeaderChain.HasHeader | core/headerchain.go:367-373 | true exactly for stored headers |
| HeaderChains.CacheAdd | core/headerchain.go:323-324 | whatever a cache evicts, what it keeps is what it held or the new entry |
| HeaderChains.HeaderChain.DeleteAbove | core/headerchain.go:157-164 | the deleting loop ends and leaves exactly the entries up to the new number |
| HeaderChains.HeaderChain.Overwrite | core/headerchain.go:165-177 | the overwriting walk ends where it meets the old path, and the index is then the new header's path; it panics exactly if an ancestor of the header is missing, and then the index names a header that is not stored |
| HeaderChains.HeaviestNew | core/headerchain.go:153-156 | choosing the heavier of head and newcomer, either one in a tie, keeps the head heaviest |
| HeaderChains.HeaviestStill | core/headerchain.go:153-156 | a head stays heaviest beside a newcomer exactly if that is not heavier |
| HeaderChains.HeaderChain.WriteHeader | core/headerchain.go:132-197 | for every header numbered on from its parent, on any chain, rewound or not: refused exactly without a stored parent; total difficulties are sums back to genesis and the index is defined exactly from zero to the head and is its path; a heavier header becomes the head, or panics, exactly if its parent is not rooted; on a chain with complete branches and the heaviest head, as it is before any rewind, it does not panic and stays so |
| HeaderChains.HeaderChain.InsertHeaders | core/headerchain.go:261-287 | every linked run of headers keeps that; only a first header without parent stops it, and then nothing has changed, or a panic at a header that is not rooted; an unrooted run that gets through holds no new header heavier than the head |
| HeaderChains.HeaderChain.SetHead | core/headerchain.go:406-440 | canonical entries up to the number are unchanged, those above are gone with their headers and difficulties and nothing else is, the canonical header there is the head, and cached reads again equal database reads; branches are complete and the head heaviest again exactly if every kept header has its parent kept and none has a greater total difficulty |
| HeaderChains.HeaviestIff | core/headerchain.go:153-156 | that is, total difficulties tell the heaviest head of a complete tree |
| HeaderChains.HeaderChain.Run | core/headerchain.go:132-440 | every sequence of imports and rewinds keeps the index, the sums and the caches right, up to a panic, of which there is none without a rewind |
| HeaderChains.RewoundPanics | core/headerchain.go:171-177 | a sequence that does panic: a side header whose parent is rewound away gets a child heavier than the new head |
| Branches.FindCommonAncestor | core/database_util.go:628-652 | finds the highest header on both paths, which there always is |
| Branches.TxDifference | core/types/transaction.go:333-348 | the transactions of one list that are not in the other, in order |
| Branches.Reinjected | core/tx_pool.go:353-399 | what is reinjected is the old branch's transactions above the fork less the new branch's, or nothing if the heads are more than 64 blocks apart in height |
| Branches.LostIsExact | core/tx_pool.go:353-399 | where no chain repeats a transaction, that is exactly what the old chain has and the new chain lacks |
| BlockChains.BlockChain.constructor | core/genesis.go:265-293 | a chain of genesis alone has the invariant |
| BlockChains.BlockChain.Insert | core/blockchain.go:475-497 | the index entry, the head block, and whether the header and fast heads follow |
| BlockChains.BlockChain.WriteTxLookupEntries | core/database_util.go:484-501 | every transaction of the block gets its block and position, every other entry stays |
| BlockChains.Gather | core/blockchain.go:1272-1312 | both branches are gathered from the top down to their fork, with the old branch's transactions; the walk cannot fail |
| BlockChains.Switched | core/blockchain.go:1324-1341 | the table with the new branch written over it and the lost transactions deleted is exact for the new path |
| BlockChains.BlockChain.Reorg | core/blockchain.go:1249-1354 | moves index and table from the head's path to the new block's, for branches of any lengths |
| BlockChains.BlockChain.WriteBlockWithState | core/blockchain.go:874-997 | after every import the index up to the head is the head's path, the table holds exactly its transactions with block and position, difficulties are sums and the head is heaviest; equal weight is split by number |
| BlockChains.BlockChain.WriteBlockWithoutState | core/blockchain.go:860-871 | storing a block on the side keeps all of that, the weight of the head exactly if the block's total difficulty is not above it |
| BlockChains.BlockChain.GetTransaction | core/database_util.go:284-315 | a transaction that a canonical block up to the head holds is found at its block, number and index; any other exactly if the old format has it, and then as that says |
| ChainIndexers.ChainIndexer.constructor | core/chain_indexer.go:93-110 | an indexer with nothing indexed has the invariant |
| ChainIndexers.ChainIndexer.SetValidSections | core/chain_indexer.go:405-417 | exactly the heads of sections beyond the number go |
| ChainIndexers.ChainIndexer.NewHead | core/chain_indexer.go:246-259 | the sections known are those known before or those the head confirms, whichever are more |
| ChainIndexers.ChainIndexer.Rollback | core/chain_indexer.go:226-245 | exactly the sections that reach above the block are no longer known and stored |
| ChainIndexers.ChainIndexer.ChainEvent | core/chain_indexer.go:202-213 | for every new head on any branch, exactly the section heads above the fork point go, and every one left is the canonical hash of its section's last block |
| ChainIndexers.ChainIndexer.ProcessSection | core/chain_indexer.go:341-370 | with any changes of the chain before each read: what is read is a run of headers linked to the section before, and ends in the chain's own block if the chain then reaches so far; on a chain that does not move, reading a known section fails only if the backend does |
| ChainIndexers.ChainIndexer.Update | core/chain_indexer.go:280-322 | indexes exactly the next section, or gives up what is known, or does nothing |
| ChainIndexers.ChainIndexer.Commit | core/chain_indexer.go:303-322 | a section is stored exactly if it was read and the head of the section before is what it was |
| ChainIndexers.ChainIndexer.UpdateAcross | core/chain_indexer.go:289-322 | with a new head arriving between the reading and the check: the section heads stored are the new chain's exactly if the fork point lies below the section, which then is not stored, or not below its last block |
| ChainIndexers.ChainIndexer.UpdateThrough | core/chain_indexer.go:289-322 | a round with any changes of the chain before each read and before the commit: what is stored is a section linked to the one before, and all heads are the chain's exactly if it was not stored or its last block is still what was read |
| ChainIndexers.RaceLost | core/chain_indexer.go:303-306 | a case in which they are not |
| ChainIndexers.LateCommit | core/chain_indexer.go:303-306 | what storing a section that was read on another path comes to |
| ChainIndexers.SectionsLinked | core/chain_indexer.go:351-361 | the first block of a section is the child of the section head before it |
| Bmt.NewRefHasher | bmt/bmt_r.go:39-55 | the span is the largest power of two of segments below the count, two at least |
| Bmt.Hash | bmt/bmt_r.go:59-65 | hashes up to the capacity's worth of data |
| Bmt.HashFrom | bmt/bmt_r.go:67-85 | the recursive hasher with its halving loop computes the reference function |
| Bmt.RefIsMerkle | bmt/bmt_r.go:67-85 | on a power of two of segments that is the Merkle hash |
| Bmt.HashChunk | bmt/bmt_r.go:39-65 | a hasher made for the chunk's segment count computes the chunk's reference hash |
| Bmt.Depth | bmt/bmt.go:520-525 | counts the halvings: the smallest depth whose leaves cover the segments |
| Bmt.DepthOfFull | bmt/bmt.go:520-525 | for a power of two of segments it is the exponent less one, and no other value fits |
| BmtRuns.NewTree | bmt/bmt.go:253-275 | a node for every position of every level, below the node at half its index, with the flags of a fresh tree |
| BmtRuns.NewTreeIsClean | bmt/bmt.go:253-275 | such a tree is ready for a full chunk |
| BmtRuns.Hasher.Write | bmt/bmt.go:333-372 | for every number of segments and every write, whatever was written before: exactly the double segments with a byte after them are launched, in order, and the last stays open; the data grows by as many of the bytes as the code finds room for; it panics exactly if the last segment of an odd number already holds more than it should |
| BmtRuns.EvenLimit | bmt/bmt.go:341-353 | for an even number of segments the room found is the capacity |
| BmtRuns.OddLimit | bmt/bmt.go:341-353 | for an odd one more than the capacity is taken exactly if there is more and an earlier double segment is open with some of it |
| BmtRuns.OddPanics | bmt/bmt.go:350-354 | a hasher for three segments that takes four and panics on the next write |
| BmtRuns.WriteAll | bmt/bmt.go:333-372 | however a full chunk is cut into writes, every double segment but the last is launched, in order |
| BmtRuns.StepKeeps | bmt/bmt.go:441-510 | every single read, write or toggle of every goroutine or of the main thread, in any state a run can reach, keeps the invariant relating nodes, goroutines and how far each position has got |
| BmtRuns.SpineUntouched | bmt/bmt.go:529-546 | while the last segment is not launched nothing has got to its path, so finalising cannot destroy a value |
| BmtRuns.ExecShort | bmt/bmt.go:462-493 | every run ends: its length is bounded by the steps that are left |
| BmtRuns.ValueIsMerkle | bmt/bmt.go:462-493 | the value due at a position is the Merkle hash of the part of the chunk below it |
| BmtRuns.EveryRunIsSafe | bmt/bmt.go:292-318 | in every interleaving at most one result is sent, and it is the reference hash |
| BmtRuns.EveryRunDelivers | bmt/bmt.go:292-318 | a run that can go no further has sent exactly that, every goroutine has ended, and the tree is clean for reuse exactly if no counter was about to pass its 32-bit maximum |
| BmtRuns.ToggleWraps | bmt/bmt.go:508-510 | the toggle tells first from second exactly while the counter is not negative: after wrapping every toggle claims to be the second |
| BmtRuns.WrappedRun | bmt/bmt.go:462-510 | on every tree whose counters have wrapped there is a run that sends a value made of the first double segment and of what the nodes held before |
| BmtRuns.WrappedIsWrong | bmt/bmt.go:462-510 | a case in which that is not the reference hash |
| RandSelect.Insert | les/randselect.go:107-132 | there is always a branch with room; the item appears at the index returned, every other index is unchanged, sums and counts are exact |
| RandSelect.SetWeight | les/randselect.go:136-157 | exactly one index changes, and every sum on the way by the difference |
| RandSelect.Choose | les/randselect.go:160-173 | the item chosen is the one whose share of the total holds the value; the search never fails |
| RandSelect.SharesApart | les/randselect.go:160-173 | different items' shares are disjoint |
| RandSelect.PicksOnly | les/randselect.go:160-173 | only one item's share holds a value |
| RandSelect.ShareSize | les/randselect.go:160-173 | of the values below the total, exactly as many pick an item as its weight |
| RandSelect.GrowKeeps | les/randselect.go:63-69 | with a level on top every index handed out still leads to its item |
| RandSelect.WeightedRandomSelect.constructor | les/randselect.go:38-40 | an empty set stands for the empty map |
| RandSelect.WeightedRandomSelect.Set | les/randselect.go:54-73 | the tree and its index stand for the map with the item's weight set, or without the item; the root's sum and count are the map's |
| RandSelect.WeightedRandomSelect.Round | les/randselect.go:84-92 | one round with its two random numbers given: the item whose share holds the first has its weight put right, and is chosen exactly unless its weight has gone down and the second is not below it |
| RandSelect.TossSize | les/randselect.go:90-92 | of the second numbers below a stored weight as many choose the item as its current weight |
| RandSelect.WeightedRandomSelect.ChooseItem | les/randselect.go:79-94 | ends for all random values; gives nothing only from an empty set, else an item with weight left; stored weights are as they were or put right |
| RandSelect.WeightedRandomSelect.NoOverflow | les/randselect.go:99-104 | while the weights in sum fit in a signed 64-bit integer, so does every number in the tree |
| Feeds.Feed.Subscribe | event/feed.go:73-93 | the channel joins the subscribers |
| Feeds.Feed.Delete | event/feed.go:220-222 | shifting in place leaves the cases without the one removed |
| Feeds.Feed.Deactivate | event/feed.go:225-229 | swapping in place exchanges a case with the last of the prefix |
| Feeds.Feed.Remove | event/feed.go:104-125 | exactly one subscription of the channel ends; for a channel not subscribed nothing changes and the code panics |
| Feeds.Served | event/feed.go:157-163 | a swap behind the prefix records one delivery |
| Feeds.Ended | event/feed.go:169-174 | a removal by shifting keeps the record right, before or after the channel was served |
| Feeds.Feed.Wait | event/feed.go:167-178 | each wait ends with one receiver having taken the value of its case, which leaves the prefix, or one request to end a subscription met |
| Feeds.Feed.Send | event/feed.go:129-187 | for all receivers, unsubscriptions and subscriptions meanwhile: the log grows by exactly one delivery of the value for whoever was subscribed and remains, at most one for whoever left, as was asked for, none for whoever came since; the result is the number of deliveries, no case keeps the value, and the loop ends |
| Feeds.Feed.SetAll | event/feed.go:146-149 | the value is set in every case, or taken out again, and nothing else changes |
| Distributors.Distributor.Queue | les/distributor.go:233-260 | the queue stays in creation order exactly if the request was not in it; a new request goes last, one queued before keeps its place in the order |
| Distributors.Distributor.Cancel | les/distributor.go:265-276 | succeeds exactly on a queued request, which is closed and gone |
| Distributors.Distributor.Remove | les/distributor.go:279-285 | takes the request out, if it is there, and keeps the order |
| Distributors.Ask | les/distributor.go:193-213 | asking the peers in any order collects exactly the unchecked ones that can serve the request, the ready ones, and the least wait |
| Distributors.Distributor.NextRequest | les/distributor.go:178-227 | what is to be sent now is the oldest request its peer can serve; else the least wait is returned; a request is failed only if no registered peer with room can serve it, and exactly the front ones are |
| Distributors.Distributor.Dispatch | les/distributor.go:131-140 | the chosen request leaves the queue with its peer, and nothing else does but those failed |
| StateTransitions.GasPool.AddGas | core/gaspool.go:29-35 | adds, or panics exactly if the sum does not fit in 64 bits |
| StateTransitions.GasPool.SubGas | core/gaspool.go:39-45 | takes the gas exactly if there is enough |
| StateTransitions.StateTransition.BuyGas | core/state_transition.go:168-185 | the sender pays for exactly the gas the pool loses, or an error says why not and neither loses anything |
| StateTransitions.StateTransition.PreCheck | core/state_transition.go:187-201 | the nonce, balance and pool errors, each exactly in its case |
| StateTransitions.StateTransition.RefundGas | core/state_transition.go:254-271 | at most half of what was spent is refunded, the sender is paid for what is left, the pool gets it back and cannot overflow |
| StateTransitions.StateTransition.TransitionDb | core/state_transition.go:206-252 | on success the message was executed on the world with the fee debited and the nonce raised, the gas used is what was spent less at most half of it, the pool has lost exactly that, the coinbase was paid for it and the sender for the rest, and balances have changed in sum only by what execution did; the error is determined in every other case |
| StateTransitions.Process | core/state_processor.go:56-82 | a block succeeds exactly as its messages applied one after the other, each to the world and the pool the ones before it left: the receipts tell each one's gas and failure, cumulative figures are running sums, the gas used and the gas left make up the limit, and balances have changed in sum by the executions; else the first message that cannot be derived or applied says why |
| StateTransitions.SetReceiptsData | core/blockchain.go:726-761 | fills in each gas figure from the cumulative ones, in 64-bit arithmetic |
| StateTransitions.GasRecovered | core/blockchain.go:744-749 | that recovers the figures of a processed block |
| DerivationPaths.SplitParts | accounts/hd.go:71-71 | splitting at slashes loses nothing and leaves no slash |
| DerivationPaths.ComponentRoundTrip | accounts/hd.go:89-115 | a printed component is read back, on both sides of the hardened boundary |
| DerivationPaths.RoundTrip | accounts/hd.go:67-135 | parsing a printed path gives it back, exactly unless it is empty |
| DerivationPaths.Canonical | accounts/hd.go:67-135 | printing what was parsed is a form that parsing and printing leave unchanged |
| DerivationPaths.ParseDerivationPath | accounts/hd.go:67-117 | the loop computes the parsing function, with the error of the first bad component |
| DerivationPaths.ToString | accounts/hd.go:121-135 | the loop computes the printed form |

## Left out

- TxPools.TxPool.Reset: in a pool without room, of an account of which something is taken in, the order is told exactly before the last promotion and its limits only; a cut there may by chance put it in order. The list brought back is any list; `Branches.Reinjected` says which one the code computes.
- RandSelect.Insert: nodes are values, so update in place and aliasing are not captured; a total of weights beyond 64 bits is not modelled.
- BinaryHeap.Push: the standard library's heap operations are modelled on sequence values, not on a slice behind an interface.
- PricedLists.PricedList.Discard: a live transaction that was taken out and put in again may be in the heap twice and then counts twice; how often that is so is not tracked.
- BmtRuns.WriteAll: pieces are values; the code keeps a slice of the last one, so a caller that writes to its buffer before the result is there is not covered. The field that goroutines overwrite with their latest value, and which nothing reads, is not modelled.
- StateTransitions.Process: accounts removed by self-destruction, the balance changes of the DAO fork and block rewards are not modelled.
- The pool holds list values, not list objects; the list classes are proved to compute the same functions, and aliasing between lists is not captured.
- Nonces of submitted transactions are below 2^64-1, as the successor of the largest nonce wraps.
- The `stales` counter of the price heap: the heap may hold duplicates and the counter is not exact; coverage is proved instead.
- Heartbeats, the transaction journal, event feeds of the pool, and the order of accounts by heartbeat, which is any order here.
- Block data is keyed by hash with a check of the number; the header chain keeps the two-part keys.
- Canonical entries above the head block after a switch to a shorter branch, which the code leaves in place.
- The trie cache and its garbage collection, receipts storage, fast sync, future blocks and the blocks' own validation.
- Children of an indexer and its cascade; trusted section heads.
- Hashing of partial chunks and `ReadFrom`; the length prefix of `Sum`.
- Type checks of a feed, and blocking on its locks.
- The distributor's shutdown branch, and its timers; the weights by which it chooses among ready peers.
- Contract execution, the state trie and uncles; logs and addresses in receipts.
- Error texts of derivation paths.
