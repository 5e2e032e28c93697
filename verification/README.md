# Verified models of fnod

A Dafny model of the parts of the fnod node that keep state across many steps, and proofs of what they keep. Six
components are modelled, each in its own group of modules:

- **Block templates** (`Chain`, `Ledger`, `TxQueue`, `DepGraph`, `Selection`, `SelectionProof`, `SelectionAnswer`,
  `TemplateSelector`, `Template`, `FraudProof`, `TemplateBuilder`, `TemplateTrees`, `BlockTemplate`, `MinedAgain`,
  `ParentSort`): choosing transactions from the pool by dependency, priority and fee, and assembling the two trees, the
  verdict on the parent, the coinbase and the fraud proofs.
- **The address manager** (`AddrBook`, `AddrBookProof`, `AddrOps`, `AddrAnswer`, `AddrManager`, `AddrStore`,
  `AddrRoundTrip`, `AddrFailedLoad`, `AddrLoad`, `AddrFile`): the index, the new and the tried buckets, and saving and
  loading them.
- **The block manager** (`SyncState`, `SyncProof`, `SyncRuns`, `SyncFetch`, `SyncAnswer`, `SyncProgress`,
  `BlockManager`): the message-driven sync protocol with its request maps, header list and checkpoints.
- **The server's peer state** (`PeerBook`, `PeerProof`, `PeerState`): limits, bans and group counts.
- **Notification queues** (`NotifyQueues`): the manager's queue and the queue of each client.
- **The long-poll registry** (`LongPoll`): channels that are closed when a block template is stale.

`Sets` holds one fact about sizes that several of them use.

Each component has a value model (a datatype of its state and a function for each operation), lemmas about that model
over single steps and over whole runs, and classes and methods, with the loops and the in-place updates of the original,
proved to compute exactly the value model. What an operation answers is also stated without its function, over the
fields before and after it. `dafny verify dfyconfig.toml` checks everything.

## Main results

- *Selection.* For every pool, chain and policy, the loop is a run of rounds from the pool read in full, each on an
  item that no other ready item precedes, until none is ready. In terms of fields alone: which entries of the pool
  become items and what each waits for, that none that is ready outranks the item of a round in stake priority, fee and
  priority, when it joins, goes back or is dropped, when the order switches, and what the round changes. The chosen
  transactions are distinct, each spends only outputs of the chain or of earlier ones, no output is spent twice, the
  running size, signature operation and ticket totals are the exact sums and within their limits, and votes use
  different winning tickets. Every pool item that was read ends up chosen or rejected, by the verdict of a round that
  popped it, or waiting for one that was not chosen. The loop terminates although it may push an item again.
- *Assembly.* A template fails exactly with the first of five errors that applies. Otherwise it has the verdict that
  the majority of its votes gives, and each chosen transaction is in its tree exactly if it may be. The coinbase pays
  the tax, nothing for the extra nonce, and the subsidy with the scaled fees, which is its input and the fees, or it
  pays block one's ledger. Above block one the proof of a regular input is that of its chain entry or of a strictly
  earlier regular transaction, if and only if no entry of the view hides its source.
- *Queue.* Both orders are strict weak orders with the ranks of stake priority, fee and priority that are promised, and
  through any pushes, pops and changes of order each pop gives an item that no other precedes and the multiset of items
  is kept.
- *Address manager.* On every run, from no file or from any file, each key of the index is in exactly one tried list,
  or in exactly `refs` >= 1 new buckets, never both, the two counters are exact, and bucket sizes and reference counts
  are bounded, if and only if the file is good. A file loads iff it has the right version, everything in it parses, and
  its lists name exactly its addresses, each in one kind of bucket only. One that loads is good iff no key is twice in
  a new bucket or at two places of the tried lists and all sizes are within bounds; one that does not is good iff
  nothing was counted before the load failed. What is saved is good and is restored when loaded. On every run from a
  consistent book every announcement, attempt, connection, success and change of services does to entry, buckets and
  lists just what it should: when an address enters its bucket, what makes room for it, when it is tried, which old one
  it puts out and where that goes, and that nothing else changes.
- *Block manager.* On every run in which peers are silent once they have left, each hash in flight is owed by a peer
  that has not left, headers-first mode has a sync peer and a checkpoint, headers are linked, and a block is processed
  at most five times for each time it was asked for. A fetch asks only the sync peer, and only for what is ahead of the
  cursor in the header list. Once a header message has reached the checkpoint, and until the next header message, that
  is nothing but ancestors of the checkpoint, unless the cursor had been left behind. A block that comes in earlier
  starts a fetch too, and with a cursor on the list all of it leads up to the checkpoint iff the last header does. On
  every run every message gets its answer, in terms of who owes what: what is announced and of interest is owed, in
  flight or queued and nothing else is asked for, headers are listed as far as they link, a block is taken iff it was
  asked for and not sent too often, and the sync peer is one of those furthest ahead.
- *Peer state.* On every run each outbound group counter is the number of outbound and persistent peers of the group,
  and the limits on peers and on peers of one address hold. A peer gets in exactly if it is neither refused nor banned
  and is inbound and whitelisted, or there is room for it and its address.
- *Queues and registry.* Queues are loss-free and in order. A long-poll channel is closed exactly from the moment on
  that its template is stale, and only once.

## Where the code does something other than its comments say

The model follows the code in each of these.

- A pool transaction with a lost input is skipped, but if an earlier input made it a depender it stays registered and
  may be pushed later with zero fee and priority (mining.go:1286-1302).
- `Fees` starts with a placeholder to which the coinbase is added again, so it has one entry more than there are
  transactions and every fee is one place late (mining.go:1219, mining.go:1803-1852).
- Fees are scaled by the voters at all heights (mining.go:1841-1842). Below the stake validation height there are no
  voters, so the scaled fees are zero.
- The coinbase is added to the block size after the limit was checked (mining.go:1780). The bound covers the selected
  transactions.
- `NewTxDeepTxIns` returns a transaction that shares the original message and is in no tree (fnoutil/tx.go:152-195). So
  after a disapproval every pruned transaction is in no tree, and the template keeps nothing but its coinbase and votes.
- The tie-break of `SortParentsByVotes` compares the leader's votes with the length of a list of one list
  (mining.go:321-324), so it acts only on leaders with one vote. A top block with as many votes as the best of the
  others is left or kept as the sort happens to order them.
- When the parent is known to be disapproved, the view has cleared entries for its regular transactions
  (blockchain/utxoviewpoint.go:448). If such a transaction is mined again, an input that spends it finds the cleared
  entry, and its fraud proof gets the value 0 and the place in the old block (mining.go:1899-1911). For this the votes
  in the pool have to disapprove the parent (mempool/mempool.go:736-758) while those that get into the block approve it;
  if these disapprove it too, pruning leaves no regular transaction.
- A new bucket may hold 65 addresses, one more than its size (addrmgr/addrmanager.go:231).
- An older announcement that brings new services sets the time an address was last seen back
  (addrmgr/addrmanager.go:178-190).
- `expireNew` removes all bad addresses and the oldest of the others as well (addrmgr/addrmanager.go:251-284).
- `reset` does not zero the two counters (addrmgr/addrmanager.go:700-713).
- Loading checks neither that a key is listed once nor how long a list is (addrmgr/addrmanager.go:520-545). A record
  with one address that is twice in a tried list loads, and two tried addresses are counted.
- Fetching is meant to start when a header is the checkpoint (blockmanager.go:1219-1221), but a block that comes in
  before that starts a fetch of the headers there are (blockmanager.go:1053-1062). Blocks are also asked for on behalf
  of others, at any time (server.go:581-588), so headers may be fetched that do not lead up to the checkpoint.
- A header at the checkpoint's height with another hash is added to the list before it is rejected
  (blockmanager.go:1186-1212). Ancestry is claimed for the moment at which fetching starts.

## What other packages are taken to guarantee

- Input checking passes a transaction only if every input but a vote's stakebase is present, unspent and of the tagged
  tree in the view it is given; pool transactions have distinct hashes and outpoints, the tree of their kind, and stake
  transactions have the shape of their kind; the first input of a vote has the zero hash, and no transaction has it.
- An output that is unspent in the view belongs to a confirmed transaction, and a confirmed transaction has spent an
  output of a confirmed one. The view may have cleared entries for transactions that are not confirmed. Entries are of
  blocks below the next one. A coinbase has a hash that no confirmed or pool transaction has.
- Hashes do not collide: a header hash determines its parent.
- Signature operations are counted in non-negative 64-bit integers.
- Peers are numbered uniquely, are added once and after their version is known, and persistent peers are outbound. A
  peer joins the block manager once.
- Clocks, random draws, map iteration order, routability, bucket hashes and the answers of the chain, the pool and the
  network are inputs of the operations.

## Model

| member | source | states |
|---|---|---|
| `Chain.UtxoViewpoint.MergeFrom` | mining.go:384-392 | an entry that is there and not fully spent is kept, and all others are taken from the other view |
| `Chain.UtxoViewpoint.Spend` | mining.go:601-614 | spending every input and adding the outputs gives exactly `SpendTransaction` of the old view |
| `Chain.SpendInputsLeaves` | blockchain/utxoviewpoint.go:115-140 | after spending inputs an output is unspent iff it was and no input names it |
| `Chain.SpendTransactionExact` | blockchain/utxoviewpoint.go:283-335 | after spending a transaction an output is unspent iff the transaction creates it, or it was unspent and no input names it |
| `Chain.MergeOfChain` | mining.go:384-392 | merging views that agree with the chain agrees with the chain and holds the keys of both |
| `Chain.Fetch` | blockchain/utxoviewpoint.go:888-965 | a fetched view agrees with the chain and has the entry of every input on it |
| `Ledger.PassingIsUnconfirmed` | mining.go:1513-1524 | a transaction whose inputs are all present is not a confirmed one, also if the view has a cleared entry with its hash |
| `Ledger.OwnOutputsUntouched` | mining.go:1534-1543 | no output of a transaction about to be chosen exists or was spent before it |
| `Ledger.TrackedAfter` | mining.go:1534-1543 | an output is unspent in the view iff it was created by a chosen transaction, or is unspent on the chain and loaded, and no chosen transaction spends it |
| `Ledger.SourcedAfter` | mining.go:1513-1548 | choosing a transaction whose inputs are present keeps every input sourced and nothing spent twice |
| `Ledger.SoundStep` | mining.go:1513-1548 | the two together: soundness of the chosen list is kept by each choice |
| `TxQueue.OrdersAreStrictWeak` | mining.go:135-217 | both comparators are strict weak orders, and one item precedes another iff it has the higher stake priority, or the same one and, by fee, the higher fee or the same fee and the higher priority; in the other order votes and tickets go by fee, and regular transactions and revocations by priority and then fee |
| `TxQueue.RootIsFirst` | mining.go:85-120 | nothing in a heap precedes its root |
| `TxQueue.TxPriorityQueue.constructor` | mining.go:224-230 | a new queue is empty, valid and has the given order |
| `TxQueue.TxPriorityQueue.Up` | mining.go:85-104 | sifting up restores the heap and keeps the multiset |
| `TxQueue.TxPriorityQueue.Down` | mining.go:85-97 | sifting down restores the heap on a range, keeps the multiset and touches nothing beyond |
| `TxQueue.TxPriorityQueue.Push` | mining.go:100-104 | pushing adds exactly the item and keeps the heap |
| `TxQueue.TxPriorityQueue.Pop` | mining.go:106-113 | a pop removes exactly one item, and no remaining item precedes it |
| `TxQueue.TxPriorityQueue.SetLessFunc` | mining.go:117-120 | a change of order keeps the multiset and makes a heap of the new order |
| `DepGraph.RegisterValid` | mining.go:1265-1336 | registering an item and its parents keeps dependers and needs inverse to each other and every item placed |
| `DepGraph.RejectValid` | mining.go:1381-1532 | dropping a popped item keeps the graph valid |
| `DepGraph.ChooseValid` | mining.go:1567-1577 | choosing an item and releasing its dependents keeps the graph valid |
| `DepGraph.ReleasedLeaveBlocked` | mining.go:1567-1577 | what is released was blocked, is not queued already, and is exactly what leaves the blocked set |
| `DepGraph.ChooseOneLess` | mining.go:1363-1577 | choosing makes the number of queued and blocked items one less |
| `DepGraph.RejectOneLess` | mining.go:1381-1532 | so does rejecting |
| `SelectionProof.StartInv` | mining.go:1183-1230 | the invariant holds before the pool is read |
| `SelectionProof.PoolStepInv` | mining.go:1225-1336 | reading a pool entry keeps the invariant, for entries that are skipped half way too |
| `SelectionProof.LimitExact` | mining.go:1418-1447 | the overflow and limit test on 64-bit counts holds exactly when the true sum is within the limit |
| `SelectionProof.SigOpsFit` | mining.go:1418-1447 | an admitted count does not wrap, keeps the total within the limit, and is the exact sum of both counts |
| `SelectionProof.IncludeCounted` | mining.go:1405-1447 | including an admitted transaction keeps size, signature operations and tickets the exact sums within their limits |
| `SelectionProof.IncludeVoted` | mining.go:1449-1466 | including an admitted vote keeps the votes on different winning tickets |
| `SelectionProof.IncludeDrawn` | mining.go:1545-1562 | the block holds pool items with their own fees, none twice |
| `SelectionProof.TakeInv` | mining.go:1513-1577 | taking an item keeps every part of the invariant |
| `SelectionProof.StepInv` | mining.go:1363-1578 | each round keeps the whole invariant, whether it rejects, queues again or takes |
| `SelectionProof.StepProgress` | mining.go:1487-1511 | each round switches the order for good, or leaves one item less to come |
| `SelectionProof.VotesWithinWinners` | mining.go:1357-1360 | there are no more votes than winning tickets |
| `SelectionProof.SizesExact` | mining.go:1405-1409 | the 32-bit sizes sum to the true sizes when each fits |
| `SelectionAnswer.FirstIsForemost` | mining.go:135-217 | an item is a first one in the current order iff no ready item outranks it in stake priority, fee and priority |
| `SelectionAnswer.ScanFinds` | mining.go:1271-1310 | the parents found are the pool transactions of the inputs not unspent on the chain, up to the first lost input |
| `SelectionAnswer.EntryRead` | mining.go:1225-1336 | an entry becomes an item iff it may go into a block, votes for the parent if it votes, and has no lost input or one of the pool before it; it then waits for just those parents, with its fee, fee per kilobyte and priority, or with none if an input is lost |
| `SelectionAnswer.ReadsUnfilled` | mining.go:1183-1336 | reading the pool leaves an empty block and a view of entries of the chain |
| `SelectionAnswer.PoolRead` | mining.go:1225-1336 | that holds of every entry after the whole pool was read, in any order |
| `SelectionAnswer.AdmitIff` | mining.go:1381-1483 | all tests before the order is considered pass iff a ticket is below the limit and pays the price, a revocation is of a missed ticket, a vote is of an unused winning ticket, size and signature operations are within their limits, and a regular transaction is not free once sorted by fee and past the minimum size |
| `SelectionAnswer.JudgeIff` | mining.go:1487-1532 | when the order switches, when the item goes back, and that it joins iff all tests pass, it does not go back, all its inputs are unspent and of the tagged tree in the view, and the chain accepts it |
| `SelectionAnswer.IncludeGrows` | mining.go:1534-1562 | what a transaction that joins adds to the list, sizes, counts, tickets, used winners and fees, and exactly which outputs are unspent after it |
| `SelectionAnswer.ChooseFrees` | mining.go:1567-1577 | what waited for nothing else is queued, and everything else only waits for one less |
| `SelectionAnswer.StepAnswers` | mining.go:1363-1578 | one round answers the item popped as the fields of state, transaction and policy say, without naming the verdict |
| `SelectionAnswer.ExplainedExtends` | mining.go:1363-1578 | so does every round of a run, each on an item that no ready one outranks |
| `TemplateSelector.PoppedIsReady` | mining.go:1363-1367 | a popped item is one of the ready ones and leaves the queue with exactly the others |
| `TemplateSelector.Release` | mining.go:1567-1577 | the release loop, in any order of the dependents, leaves the needs and the queue of `Choose` |
| `TemplateSelector.FindParents` | mining.go:1271-1310 | the input loop finds exactly the parents of `ScanInputs`, up to the first lost input |
| `TemplateSelector.ReadOne` | mining.go:1225-1336 | reading one entry is `PoolStep` and keeps queue and view in step with it |
| `TemplateSelector.ReadPool` | mining.go:1225-1336 | the state after the loop is the fold of `PoolStep` over the whole pool, with queue and view in step and all items from the pool |
| `TemplateSelector.StepQueues` | mining.go:1363-1577 | how each verdict changes the ready set and so the queue |
| `TemplateSelector.PopReady` | mining.go:1363-1367 | the item popped is a first one among the ready items in the current order |
| `TemplateSelector.Round` | mining.go:1363-1578 | one round on the queue and the view is `Step` for a first item, keeps them in step, and makes progress |
| `TemplateSelector.AccountedExtends` | mining.go:1363-1578 | each round keeps it that what is chosen was taken, and what is rejected was rejected, by the verdict of the round that popped it |
| `TemplateSelector.Drain` | mining.go:1363-1578 | the loop terminates with an empty queue, the invariant, and a run of `Step` on first items whose verdicts account for all that was chosen and rejected, and every round of which is answered as the fields say |
| `TemplateSelector.AllSettled` | mining.go:1363-1578 | at the end every item was chosen, rejected, or needs one that was not chosen |
| `TemplateSelector.SelectTransactions` | mining.go:1183-1578 | for any pool and chain every entry of the pool is read right, and the result is reached from there by rounds until none is ready, each on an item that no ready one outranks, which joins, goes back or is dropped exactly when the fields say so; the chosen list is distinct, sourced, without double spends, within all limits and from the pool, and each item is settled by a verdict or waits for one that was not chosen |
| `Template.Collect` | mining.go:1592-1612 | a collecting loop takes what its test accepts, in order, up to its limit |
| `Template.QuotientIsMajority` | mining.go:1632-1638 | the quotient test is true iff twice the yes votes exceed all votes |
| `Template.Tally` | mining.go:1614-1638 | approved below the stake validation height, and from there on iff twice the yes votes exceed all votes |
| `Template.Prune` | mining.go:1659-1686 | the pruning loop keeps, as treeless copies, all but regular transactions that spend the parent's regular tree |
| `Template.CollectRegular` | mining.go:1785-1801 | the regular tree is the coinbase and then the regular transactions in order |
| `Template.TotalFees` | mining.go:1803-1835 | the two fee loops fail iff a fee is missing, and else give the 64-bit sum and the fee list one place late |
| `FraudProof.TxIndexFromTxList` | mining.go:407-416 | the first index with the hash, or -1 iff there is none |
| `FraudProof.ChainPasses` | mining.go:1880-1913 | the first loop fails iff a view cannot be fetched, and else fills each input from its chain entry or flags it |
| `FraudProof.FillLocal` | mining.go:1927-1948 | fails iff a flagged input is in no listed transaction, and else fills each flagged input from the first one that has its hash |
| `FraudProof.ChainPassFits` | mining.go:1927-1940 | a listed transaction that an input refers to is strictly earlier and creates the output |
| `FraudProof.PassesProve` | mining.go:1899-1940 | after both passes the proof of an input is right iff no entry of the view hides its source, and so for a source in the block iff the view has no entry with its hash |
| `FraudProof.MinedAgainIsNotProven` | mining.go:1899-1911 | a transaction of a disapproved block that is mined again, and an input that spends it and gets the value 0 and the old place |
| `FraudProof.ProveTx` | mining.go:1880-1948 | the proofs of one transaction exist iff all its inputs are found, and each is right iff nothing hides its source |
| `FraudProof.FillProofs` | mining.go:1880-1949 | each error is returned exactly in its case; otherwise each proof of a regular input is right iff nothing hides its source, and nothing else of the list changes |
| `FraudProof.FillBlockOne` | mining.go:1880-1949 | in block one it fails iff an input without a place has no source in the list; otherwise those get the place and amount of a strictly earlier source and all others stay as they came |
| `TemplateBuilder.VotersWithinWinners` | mining.go:1592-1612 | voters are at most the winning tickets |
| `TemplateBuilder.DisapprovalKeepsOnlyVotes` | mining.go:1640-1801 | after a disapproval no regular transaction, ticket or revocation is left |
| `TemplateBuilder.RegularComesFrom` | mining.go:1792-1801 | every output that a regular transaction spends is on the chain, or created by an earlier regular one or outside the regular tree |
| `TemplateBuilder.RegularProvided` | mining.go:1792-1801 | an output that a regular transaction spends is unspent on the chain or created by a strictly earlier entry of the regular tree, or no entry of the tree has its hash |
| `TemplateBuilder.RegularLinked` | mining.go:1785-1801 | the regular tree is in dependency order |
| `TemplateBuilder.MinedAgainIsAllowed` | mempool/mempool.go:1026-1030 | a transaction of a disapproved block and what spends it may both be in the pool |
| `TemplateBuilder.NothingHidden` | mining.go:1899-1911 | nothing hides the source of an input if no chosen transaction has an entry in the view |
| `TemplateTrees.TicketsIff` | mining.go:1688-1717 | a chosen ticket is among the tickets iff it pays the price, all it spends is on the chain, and it spends nothing chosen |
| `TemplateTrees.VotesIff` | mining.go:1592-1612 | a chosen vote is among the votes iff voting has begun and all it spends is on the chain, unless there are more than 65535 |
| `TemplateTrees.RevocationsIff` | mining.go:1719-1745 | so is a chosen revocation, unless there are more than 255 |
| `TemplateTrees.RegularsIff` | mining.go:1792-1801 | exactly the chosen regular transactions are in the regular tree |
| `TemplateTrees.Placed` | mining.go:1592-1801 | the four together, over the whole trees |
| `TemplateTrees.YeasCounted` | mining.go:1614-1638 | the votes counted are those with the first bit set |
| `BlockTemplate.ScaledFeesExact` | mining.go:1839-1842 | when nothing overflows the scaled fees are floor(S * voters / tickets), at most S, and zero without voters |
| `BlockTemplate.CoinbasePays` | mining.go:493-597 | the outputs of the coinbase: the tax, a zero one that cannot be spent, and the work subsidy, above block one with the fees added, with both subsidies as input; or exactly the ledger of block one, whose sum in 64 bits is the input |
| `BlockTemplate.PaidIsInput` | mining.go:545-597 | what such a coinbase pays is its input and, above block one, the fees: nothing is lost or made |
| `BlockTemplate.PayFees` | mining.go:1803-1853 | above block one the coinbase pays its input and the scaled fees and the fee list starts with their negation; in block one the coinbase stays and the list starts with the placeholder |
| `BlockTemplate.Assemble` | mining.go:1580-1949 | it fails exactly with the first error that applies, and the missing-fee error never does; otherwise verdict, trees, counts of votes, tickets and revocations, fees and fee list are right, and each proof is right iff nothing hides its source |
| `BlockTemplate.StakeTreeProven` | mining.go:663-698 | every input of a stake transaction but a vote's stakebase carries the amount, height and index of its chain entry |
| `BlockTemplate.SelectionIsReady` | mining.go:1363-1592 | what selection leaves is what assembly needs |
| `BlockTemplate.AllProven` | mining.go:1880-1949 | from block two on, if no chosen transaction has an entry in the view, every proof of every regular input is right |
| `BlockTemplate.AllStakeProven` | mining.go:663-698 | what a ticket of the template spends is unspent on the chain, and so is what votes and revocations spend if no chosen transaction has an entry in the view, and the proof carries the amount and place of that output |
| `BlockTemplate.ContentIsRight` | mining.go:1592-1801 | the verdict is that of the majority of the votes in the block; if it approves, every chosen transaction is in its tree iff it may be, and if not, nothing but coinbase and votes is left |
| `BlockTemplate.NewBlockTemplate` | mining.go:1092-1949 | selection and assembly end to end: pool read right, every round answered as the fields say, the invariant of selection, the exact error, and otherwise the verdict of the majority, each chosen transaction in its place, every output of the coinbase, fees, proofs of both trees, no more voters than winners, and more than half of the tickets a block once there is voting |
| `MinedAgain.PoolIsAllowed` | mempool/mempool.go:1026-1030 | a pool with an approving vote, a transaction of a disapproved block and what spends it meets everything that is asked of a pool |
| `MinedAgain.RunChoosesAll` | mining.go:1363-1578 | every run of the loop on that pool chooses all three |
| `MinedAgain.WrongProof` | mining.go:1092-1949 | the template made from that pool is returned with both transactions, and the proof of the second one is wrong |
| `ParentSort.FilterByVotes` | mining.go:288-302 | keeps exactly the blocks with a majority of votes, in order |
| `ParentSort.SortParentsByVotes` | mining.go:281-348 | for any way in which the sort breaks ties, each block with a majority comes out as often as it was given and no other does, with the votes descending |
| `ParentSort.ParentsPermute` | mining.go:310-346 | all eligible blocks come out, each once as given |
| `ParentSort.ParentsDescend` | mining.go:276-280 | the votes of what comes out of a descending list of counted candidates descend and are all at least the majority |
| `ParentSort.EligibleAre` | mining.go:288-302 | a candidate is eligible iff its block was given, has the counted votes and a majority of them |
| `ParentSort.OrdersAreRight` | mining.go:281-348 | whatever order of the eligible blocks the sort picks, the result is right |
| `ParentSort.StaysInOrderIff` | mining.go:316-344 | for one order: the promise not to leave a tied top block is kept iff there is no tie, or it is first, or the leaders have one vote |
| `ParentSort.AlwaysStaysIff` | mining.go:316-344 | for one list: every order of it keeps the promise iff the top block does not lead, or no other block leads, or the leaders have one vote |
| `ParentSort.KeepsTopIff` | mining.go:281-348 | for given blocks and votes: every sort keeps the promise unless the top block has a majority of more than one vote, nothing has more votes and another block has as many |
| `ParentSort.NeverSwaps` | mining.go:316-344 | with two or more tickets a block the tie-break never acts |
| `ParentSort.SomeOrderLeavesTop` | mining.go:316-344 | any other tie has an order allowed to the sort in which the promise fails |
| `ParentSort.LeavesTopOnTie` | mining.go:316-344 | a concrete tie in which it fails |
| `AddrBookProof.EmptyInv` | addrmgr/addrmanager.go:700-713 | the empty book meets the invariant |
| `AddrBookProof.LearnInv` | addrmgr/addrmanager.go:210-220 | a new entry keeps the invariant but for its missing reference |
| `AddrBookProof.DropRefInv` | addrmgr/addrmanager.go:252-262 | taking a key out of a bucket, and out of the index with its last reference, keeps the invariant |
| `AddrBookProof.AddRefInv` | addrmgr/addrmanager.go:236-239 | adding a reference keeps the invariant and settles a new entry |
| `AddrBookProof.PushInv` | addrmgr/addrmanager.go:932-939 | moving an untried key to a tried list with room keeps the invariant |
| `AddrBookProof.SwapInv` | addrmgr/addrmanager.go:942-971 | swapping it for an old tried key that goes back to a new bucket keeps the invariant |
| `AddrOps.DropAllInv` | addrmgr/addrmanager.go:251-284 | expiring keys of a bucket removes exactly them from it and leaves other entries alone |
| `AddrOps.ExpiryMakesRoom` | addrmgr/addrmanager.go:230-234 | expiring an overfull bucket leaves it at most full |
| `AddrOps.UpdateAddressInv` | addrmgr/addrmanager.go:167-242 | an announcement keeps the invariant, whatever the draw and whatever is expired |
| `AddrOps.ServicesOnlyGrow` | addrmgr/addrmanager.go:183-193 | the services of a known address become the union with those announced, and its key stays |
| `AddrOps.DrawIsPossible` | addrmgr/addrmanager.go:205-210 | an untried address has a reference, so the bound of the random draw is positive |
| `AddrOps.SeenGoesBackIff` | addrmgr/addrmanager.go:178-190 | the time it was last seen goes back iff the announcement is older and brings new services |
| `AddrOps.HolderFound` | addrmgr/addrmanager.go:909-930 | an untried address is always found in a new bucket, and leaving frees room there |
| `AddrOps.OldestIsOldest` | addrmgr/addrmanager.go:287-302 | the entry picked for eviction is no younger than any other, and older than all before it |
| `AddrOps.MoveToTriedInv` | addrmgr/addrmanager.go:906-971 | moving to tried keeps the invariant, all keys and the total count |
| `AddrOps.GoodInv` | addrmgr/addrmanager.go:886-972 | marking an address good keeps the invariant, forgets nothing, conserves the total, and makes a known address tried |
| `AddrOps.AttemptInv` | addrmgr/addrmanager.go:840-856 | an attempt keeps the invariant |
| `AddrOps.ConnectedInv` | addrmgr/addrmanager.go:861-881 | so does a connection |
| `AddrOps.SetServicesInv` | addrmgr/addrmanager.go:975-993 | so does a change of services |
| `AddrOps.ApplyInv` | addrmgr/addrmanager.go:167-993 | so does every operation |
| `AddrOps.RunInv` | addrmgr/addrmanager.go:167-993 | so every state of every run from a consistent book meets the invariant |
| `AddrAnswer.UpdateAnswers` | addrmgr/addrmanager.go:167-242 | a routable address enters its bucket iff it is not there and is new, or untried with fewer than eight references and a draw of zero; references grow by one exactly then, only an overfull bucket is expired, the entry has the later time and the services of both and keeps its history, and no other bucket and no other entry changes but by expiry |
| `AddrAnswer.AttemptAnswers` | addrmgr/addrmanager.go:840-856 | an attempt at a known address is counted and timed, and nothing else changes |
| `AddrAnswer.ConnectedAnswers` | addrmgr/addrmanager.go:861-881 | a connection to a known address sets the time it was last seen iff that is more than twenty minutes ago, and nothing else |
| `AddrAnswer.SetServicesAnswers` | addrmgr/addrmanager.go:975-993 | the services of a known address become those given, and nothing else changes |
| `AddrAnswer.GoodAnswers` | addrmgr/addrmanager.go:886-972 | a known address has succeeded now, without failures, and is tried; an untried one leaves every new bucket for its tried list, at the end or in place of the first of the oldest, which goes back untried to its own bucket, or if that is full to the first one left; nothing else changes |
| `AddrAnswer.RunAnswers` | addrmgr/addrmanager.go:167-993 | on every run from a consistent book every operation does this |
| `AddrAnswer.KeptIff` | addrmgr/knownaddress.go:79-109 | exactly which addresses are not bad |
| `AddrManager.KnownAddress.constructor` | addrmgr/addrmanager.go:210-216 | a new entry is untried, unreferenced and without history |
| `AddrManager.AddrManager.constructor` | addrmgr/addrmanager.go:1140-1150 | a new manager is valid and empty |
| `AddrManager.AddrManager.Write` | addrmgr/addrmanager.go:184-193 | changing an entry in place changes that key of the index and no other |
| `AddrManager.AddrManager.DropRef` | addrmgr/addrmanager.go:252-262 | is `DropRef` on the book |
| `AddrManager.AddrManager.AddRef` | addrmgr/addrmanager.go:236-239 | is `AddRef` on the book |
| `AddrManager.AddrManager.Learn` | addrmgr/addrmanager.go:210-220 | is `Learn` on the book, with one new object |
| `AddrManager.ScanDone` | addrmgr/addrmanager.go:244-284 | a finished scan has all bad addresses and an oldest of the others |
| `AddrManager.AddrManager.ExpireNew` | addrmgr/addrmanager.go:244-285 | in any order of the map, takes out all bad addresses and then an oldest of the others |
| `AddrManager.AddrManager.RefreshEntry` | addrmgr/addrmanager.go:176-193 | is `Refresh` on the book |
| `AddrManager.AddrManager.Announce` | addrmgr/addrmanager.go:173-220 | refreshes or learns, and stops exactly for tried, fully referenced or unlucky addresses; the draw always has a positive bound |
| `AddrManager.AddrManager.Place` | addrmgr/addrmanager.go:230-239 | makes room if the bucket is overfull and adds the reference |
| `AddrManager.AddrManager.UpdateAddress` | addrmgr/addrmanager.go:167-242 | keeps the manager valid and is `UpdateAddress` on the book for some allowed expiry, with the answer that `UpdateAnswers` states over the fields |
| `AddrManager.AddrManager.Attempt` | addrmgr/addrmanager.go:840-856 | keeps the manager valid and is `Attempt` on the book, with the answer that `AttemptAnswers` states over the fields |
| `AddrManager.AddrManager.Connected` | addrmgr/addrmanager.go:861-881 | keeps the manager valid and is `Connected` on the book, with the answer that `ConnectedAnswers` states over the fields |
| `AddrManager.AddrManager.SetServices` | addrmgr/addrmanager.go:975-993 | keeps the manager valid and is `SetServices` on the book, with the answer that `SetServicesAnswers` states over the fields |
| `AddrManager.AddrManager.PickTried` | addrmgr/addrmanager.go:290-302 | the first of the oldest entries of a tried list |
| `AddrManager.AddrManager.LeaveBuckets` | addrmgr/addrmanager.go:909-925 | leaves every new bucket, ends with no references, and remembers the first bucket |
| `AddrManager.AddrManager.EnterTried` | addrmgr/addrmanager.go:932-971 | is `EnterTried` on the book |
| `AddrManager.AddrManager.MoveToTried` | addrmgr/addrmanager.go:906-971 | is `MoveToTried` on the book |
| `AddrManager.AddrManager.Good` | addrmgr/addrmanager.go:886-972 | keeps the manager valid and is `Good` on the book, with the answer that `GoodAnswers` states over the fields |
| `AddrManager.Told` | addrmgr/addrmanager.go:679-684 | the share of 23 percent rounded down, capped at 2500 |
| `AddrManager.AddrManager.AddressCache` | addrmgr/addrmanager.go:654-696 | addresses of distinct entries that are not bad and have succeeded, as many as the two limits allow, for any draws |
| `AddrStore.SavePeers` | addrmgr/addrmanager.go:379-415 | the record saves the book, whatever the order of the maps |
| `AddrStore.ReadAddresses` | addrmgr/addrmanager.go:483-504 | reads the index, or fails iff an address or source does not parse |
| `AddrStore.AddressesReadIff` | addrmgr/addrmanager.go:483-504 | the addresses can be read iff all of them parse, and the index then has exactly their keys |
| `AddrStore.ReadLists` | addrmgr/addrmanager.go:506-534 | reads the buckets until the first unknown key |
| `AddrStore.DeserializePeers` | addrmgr/addrmanager.go:461-545 | is `Load` of the record |
| `AddrRoundTrip.RoundTrip` | addrmgr/addrmanager.go:379-545 | loading what was saved succeeds and restores keys, buckets, tried order, references, flags, counters, histories and secret, and meets the invariant |
| `AddrRoundTrip.NewPhaseLoads` | addrmgr/addrmanager.go:506-519 | loading the new buckets restores them, the references and the new counter |
| `AddrRoundTrip.TriedPhaseLoads` | addrmgr/addrmanager.go:520-545 | loading the tried lists restores them and passes the sanity checks |
| `AddrFailedLoad.LoadCounts` | addrmgr/addrmanager.go:506-534 | a load counts nothing iff it stops before the first bucket key is found |
| `AddrFailedLoad.FailedLoadCounts` | addrmgr/addrmanager.go:442-456 | after a failed load and a reset the invariant holds iff the load counted nothing |
| `AddrFailedLoad.MiscountingRecord` | addrmgr/addrmanager.go:700-713 | a record after which it does not hold |
| `AddrLoad.LoadGives` | addrmgr/addrmanager.go:461-545 | what a successful load gives: buckets and tried lists as listed, a reference for each listing in a new bucket, and the counts of both |
| `AddrLoad.LoadedInvIff` | addrmgr/addrmanager.go:461-545 | a loaded book meets the invariant iff in the record no key is twice in a new bucket, in more than eight of them or at two places of the tried lists, and no list is too long |
| `AddrLoad.DoublyTried` | addrmgr/addrmanager.go:520-545 | a record that loads and leaves the number of tried addresses wrong |
| `AddrLoad.SavedIsOrderly` | addrmgr/addrmanager.go:379-415 | what was saved meets that condition |
| `AddrFile.LoadsIff` | addrmgr/addrmanager.go:461-545 | a record loads iff it has the right version, all addresses and sources parse, its lists name exactly the addresses, and none is in both kinds of buckets |
| `AddrFile.BegunInvIff` | addrmgr/addrmanager.go:442-456 | the book after start-up, without a file or with any file, loaded or not, meets the invariant iff the file is good, which is told from the file alone |
| `AddrFile.ManagerRunInv` | addrmgr/addrmanager.go:564-573 | every state of every run after start-up meets the invariant if the file is good, and the first one does not if it is not |
| `SyncProof.AskBlockHeld` | blockmanager.go:1126-1128 | asking a peer that has not left keeps every hash in flight owed |
| `SyncProof.ReleaseHeld` | blockmanager.go:570-583 | a peer that leaves frees its hashes, and what is still in flight is owed by another |
| `SyncProof.AskBlockMetered` | blockmanager.go:1126-1128 | a request keeps the meter of every block |
| `SyncProof.TakeBlockMetered` | blockmanager.go:862-883 | so does an admitted block |
| `SyncProof.CopiesLimited` | blockmanager.go:862-883 | processing needs a request, unsolicited copies are at most four a request and all copies five, and the counter fits a byte |
| `SyncProof.RequestOk` | blockmanager.go:1413-1442 | asking for one announced thing, with eviction, keeps both |
| `SyncProof.DrainOk` | blockmanager.go:1403-1447 | so does the whole queue |
| `SyncProof.DrainTakesPrefix` | blockmanager.go:1401-1448 | a first part of the queue is taken and the rest kept in order, something is kept only if a message was filled, and blocks taken have been asked for |
| `SyncProof.DemandBlocksOk` | blockmanager.go:2144-2176 | so do blocks asked for on behalf of others |
| `SyncProof.DemandTxsOk` | blockmanager.go:2178-2212 | and transactions |
| `SyncProof.NextIsLowestAbove` | blockmanager.go:367-398 | the next checkpoint is the lowest above the height, and there is none iff none is above |
| `SyncProof.LinkedToLast` | blockmanager.go:1182-1188 | each header of a linked list is the ancestor of the last one at its distance |
| `SyncProof.ReadHeadersOk` | blockmanager.go:1167-1212 | reading headers keeps the list linked, and at the checkpoint the last header is the checkpoint |
| `SyncProof.FetchedAreAncestors` | blockmanager.go:1215-1229 | when fetching starts every header of the list is the checkpoint or an ancestor at the right height |
| `SyncRuns.FetchOnOk` | blockmanager.go:1098-1144 | fetching keeps the request and header invariants and changes nothing else |
| `SyncRuns.FetchOnCovers` | blockmanager.go:1098-1144 | without errors and within one message, a fetch leaves every block ahead there or asked for |
| `SyncRuns.FitKeeps` | blockmanager.go:414-431 | exactly the candidates that are not behind stay |
| `SyncRuns.FurthestIsAhead` | blockmanager.go:411-439 | the chosen peer is a candidate and none is ahead of it |
| `SyncRuns.StartSyncOk` | blockmanager.go:404-500 | starting to sync keeps the invariant |
| `SyncRuns.NewPeerOk` | blockmanager.go:531-554 | so does a new peer |
| `SyncRuns.DonePeerOk` | blockmanager.go:560-596 | so does a peer that leaves, and nothing that it owed is in flight any more |
| `SyncRuns.BlockMsgOk` | blockmanager.go:859-1094 | so does a block |
| `SyncRuns.HeadersMsgOk` | blockmanager.go:1147-1244 | so do headers |
| `SyncRuns.InvMsgOk` | blockmanager.go:1281-1452 | so does inventory |
| `SyncRuns.DemandOk` | blockmanager.go:2141-2219 | so do requests on behalf of others |
| `SyncRuns.StepOk` | blockmanager.go:1478-1530 | so does every message that may come |
| `SyncRuns.RunInv` | blockmanager.go:1478-1530 | so every state of every run meets the invariant |
| `SyncRuns.RunSafe` | blockmanager.go:1478-1530 | in every state of every run: hashes in flight are owed by somebody there, the mode has a live sync peer and a checkpoint, headers are linked, copies are limited |
| `SyncFetch.FetchAsksAhead` | blockmanager.go:1098-1144 | a fetch asks nobody but the sync peer, and for nothing but what is ahead and not there |
| `SyncFetch.AheadAncestralIff` | blockmanager.go:1098-1144 | with a cursor on the list, everything ahead leads up to a block iff the last header does |
| `SyncFetch.RunFetchesAncestors` | blockmanager.go:1215-1229 | on every run, a header message that starts a fetch leaves a list of the checkpoint and its ancestors at the right heights, and asks only the sync peer and only for ancestors of the checkpoint or what was ahead of a cursor left behind |
| `SyncFetch.RunBlockAsks` | blockmanager.go:1053-1062 | on every run, after a block a peer owes only what it owed before, without that block, or is the sync peer in headers-first mode and owes what was ahead; with a cursor on the list all of that leads up to the next checkpoint iff the last header does |
| `SyncFetch.StepWithin` | blockmanager.go:1478-1530 | no message but one with headers puts anything ahead of the cursor |
| `SyncFetch.RunFetchesOnlyAncestors` | blockmanager.go:1053-1229 | on every run, between a header message that reaches the checkpoint and the next header message, a block makes the manager ask only the sync peer and only for ancestors of that checkpoint |
| `SyncFetch.FetchesTooEarly` | blockmanager.go:1053-1062 | a run in which a block starts a fetch before the checkpoint is reached and the sync peer is asked for a block that is no ancestor of it |
| `SyncAnswer.WantedIff` | blockmanager.go:1325-1360 | exactly the blocks and transactions announced that are not there and not rejected are queued, and none in headers-first mode |
| `SyncAnswer.DrainIs` | blockmanager.go:1403-1448 | each block or transaction of the queue is then owed by the peer, was in flight, or is still queued, and the peer newly owes nothing else |
| `SyncAnswer.InvAnswers` | blockmanager.go:1281-1452 | an announcement changes nothing if the peer is neither the sync peer nor heard while current; otherwise all that is of interest is owed by it, was in flight or is queued, it newly owes and has queued nothing else, the queue is emptied if it fits a message, and nobody else is asked |
| `SyncAnswer.DemandAnswers` | blockmanager.go:2141-2219 | a demand makes the peer newly owe only what was demanded and is not there; if all questions are answered and it fits a message, all demanded is owed, in flight or there |
| `SyncAnswer.TxAnswers` | blockmanager.go:599-659 | a transaction not rejected before is no longer asked for, and is remembered as rejected iff it was not accepted, within the limit |
| `SyncProgress.ReadIs` | blockmanager.go:1162-1213 | the list grows by the headers that link, each one higher than the one before, and reading stops exactly at the height of the checkpoint, at a header that does not link, or at the end |
| `SyncProgress.FetchAnswers` | blockmanager.go:1098-1144 | a fetch forgets nothing owed and makes only the sync peer owe more, of what is ahead and not there; without errors and within one message all that is ahead is there or owed by it and nothing is ahead any more |
| `SyncProgress.HeadersAnswer` | blockmanager.go:1147-1244 | headers matter only in headers-first mode, grow the list as far as they link, and start a fetch exactly if they end at the checkpoint |
| `SyncProgress.BlockAnswers` | blockmanager.go:859-1094 | a block is taken iff the peer owes it, or it was asked for and not sent too often; it is owed and in flight no longer and is counted, leaves the front of the list, moves on to the next checkpoint if it is the one, and else starts a fetch iff fewer than ten are owed |
| `SyncProgress.StartAnswers` | blockmanager.go:404-500 | without a sync peer exactly the candidates behind are dropped and one of those furthest ahead becomes the sync peer, and headers come first iff the chain is below the next checkpoint |
| `SyncProgress.JoinAnswers` | blockmanager.go:531-554 | a full node that joins is one more candidate when syncing starts |
| `SyncProgress.LeaveAnswers` | blockmanager.go:560-596 | a peer that leaves is no candidate and what it owed is not in flight; if it was the sync peer the headers start over and another takes its place |
| `SyncProgress.StepAnswers` | blockmanager.go:1478-1530 | every message that may come gets its answer |
| `SyncProgress.RunAnswers` | blockmanager.go:1478-1530 | so does every message of every run |
| `BlockManager.BlockManager.constructor` | blockmanager.go:2351-2400 | a new manager is `Started` |
| `BlockManager.BlockManager.FindNextHeaderCheckpoint` | blockmanager.go:371-398 | the backward scan finds `FindNext` |
| `BlockManager.BlockManager.ResetHeaderState` | blockmanager.go:346-358 | leaves headers-first mode with a list of the newest block, if there is a checkpoint |
| `BlockManager.BlockManager.Choose` | blockmanager.go:411-439 | keeps the candidates not behind and finds the first of those furthest ahead |
| `BlockManager.BlockManager.StartSync` | blockmanager.go:404-500 | is `StartSync` on the state |
| `BlockManager.BlockManager.FetchHeaderBlocks` | blockmanager.go:1098-1144 | is `FetchBlocks` on the state, with the sync peer never nil |
| `BlockManager.BlockManager.HandleNewPeer` | blockmanager.go:531-554 | is `NewPeer` on the state |
| `BlockManager.BlockManager.HandleDonePeer` | blockmanager.go:560-596 | is `DonePeer` on the state |
| `BlockManager.BlockManager.LimitMap` | blockmanager.go:1457-1470 | evicts the first entry iff one more would be over the limit |
| `BlockManager.BlockManager.HandleTx` | blockmanager.go:599-659 | is `TxMsg` on the state |
| `BlockManager.BlockManager.AdmitBlock` | blockmanager.go:859-913 | admits exactly requested blocks and those not resent too often |
| `BlockManager.BlockManager.HandleBlock` | blockmanager.go:859-1094 | is `BlockMsg` on the state, with the checkpoint and the sync peer never nil |
| `BlockManager.BlockManager.LinkHeaders` | blockmanager.go:1162-1213 | the header loop is `ReadHeaders` |
| `BlockManager.BlockManager.HandleHeaders` | blockmanager.go:1147-1244 | is `HeadersMsg` on the state |
| `BlockManager.BlockManager.QueueWanted` | blockmanager.go:1325-1360 | queues exactly the wanted inventory |
| `BlockManager.BlockManager.DrainQueue` | blockmanager.go:1403-1448 | asks in order until the queue is empty or a message is full, and keeps the rest queued |
| `BlockManager.BlockManager.HandleInv` | blockmanager.go:1281-1452 | is `InvMsg` on the state, with the answer that `InvAnswers` states over who owes what |
| `BlockManager.BlockManager.RequestFromPeer` | blockmanager.go:2141-2219 | is `Demand` on the state, and tells whether it failed |
| `BlockManager.BlockManager.Handle` | blockmanager.go:1478-1530 | handles any message as `Step`, with the answer that `StepAnswers` states over the fields, and keeps the invariant |
| `PeerProof.GroupsGrow` | server.go:1330-1338 | counting a new outbound peer keeps the group counts exact |
| `PeerProof.GroupsShrink` | server.go:1355-1364 | so does discounting one that goes |
| `PeerProof.TotalIsAll` | server.go:149-152 | the total is the number of peers, since the three maps hold different ones |
| `PeerProof.WithIPIsAll` | server.go:128-146 | so is the total for one address |
| `PeerProof.LimitsGrow` | server.go:1306-1328 | a peer that passes both tests leaves both limits kept |
| `PeerProof.AddPeerInv` | server.go:1273-1341 | adding keeps the counts exact and the limits, and the peer is there iff it was accepted |
| `PeerProof.DonePeerInv` | server.go:1345-1377 | a peer that is done is gone, and the counts stay exact |
| `PeerProof.DropInv` | server.go:1613-1628 | so do they when a peer is disconnected by hand |
| `PeerProof.BanHolds` | server.go:1381-1392 | a ban keeps all peers of the host out until it ends, and is forgotten after |
| `PeerProof.WelcomeIff` | server.go:1273-1328 | a peer is added iff it is not refused or banned and is inbound and whitelisted, or there are fewer peers than the limit and fewer of its address, loopback apart |
| `PeerProof.AddPeerAnswers` | server.go:1273-1341 | exactly then it is in the map of its kind, no other peer is touched, and only an ended ban of its host is forgotten |
| `PeerProof.RunInv` | server.go:1273-1628 | in every state of every run the group counts are exact and the limits hold |
| `PeerProof.RunAdmits` | server.go:1273-1341 | so it is at every arrival of every run |
| `PeerState.PeerState.ConnectionsWithIP` | server.go:128-146 | the number of connections with an address |
| `PeerState.PeerState.HandleAddPeer` | server.go:1273-1341 | is `AddPeer` on the book, and tells whether the peer was added |
| `PeerState.PeerState.HandleDonePeer` | server.go:1345-1377 | is `DonePeer` on the book |
| `PeerState.PeerState.HandleBanPeer` | server.go:1381-1392 | is `BanPeer` on the book |
| `PeerState.PeerState.Find` | server.go:1613-1628 | finds a peer that is meant iff there is one |
| `PeerState.PeerState.HandleRemoveNode` | server.go:1547-1559 | takes out one persistent peer that is meant, iff there is one, and discounts it |
| `PeerState.PeerState.HandleDisconnectNode` | server.go:1574-1604 | takes out one inbound peer that is meant, or else every outbound one, with the counts exact |
| `NotifyQueues.RunIsFifo` | rpcwebsocket.go:148-190 | after any events, what went out followed by what waits is what came in, and the flags agree with the queue |
| `NotifyQueues.TakingDrains` | rpcwebsocket.go:174-183 | a reader that keeps taking gets everything |
| `NotifyQueues.ArriveAnswers` | rpcwebsocket.go:156-172 | what comes in goes straight out iff nothing waits and the reader is ready, and else behind what waits |
| `NotifyQueues.QueueHandler.OnArrival` | rpcwebsocket.go:156-172 | is `Arrive`, and sends at once exactly when the queue is empty and the reader ready, and else appends to the queue |
| `NotifyQueues.QueueHandler.OnTaken` | rpcwebsocket.go:174-183 | is `Take`, and gives the oldest |
| `NotifyQueues.ClientIsFifo` | rpcwebsocket.go:1717-1754 | sends are in order with at most one unanswered, and a client that does not wait has nothing pending |
| `NotifyQueues.NotificationQueue.OnQueued` | rpcwebsocket.go:1727-1735 | is `Submit`, never with a second unanswered send |
| `NotifyQueues.NotificationQueue.OnReported` | rpcwebsocket.go:1737-1751 | is `Report`, never with a second unanswered send |
| `LongPoll.NotifyOk` | rpcserver.go:2181-2223 | after a notification only the tip is waited for, and nothing older than the given time; a channel leaves iff it is closed |
| `LongPoll.RegisterOk` | rpcserver.go:2267-2286 | gives an open channel for the template, the same one for the same template, and closes nothing |
| `LongPoll.RunOk` | rpcserver.go:2181-2286 | on every run waiting channels are open and belong to one template each |
| `LongPoll.ClosedWhenStale` | rpcserver.go:2181-2286 | a channel given out is closed iff a later notification made its template stale |
| `LongPoll.NotifyUntimed` | rpcserver.go:2185-2206 | the first loop alone is `Notify` if no time is given or nothing waits for the tip |
| `LongPoll.NotifyTimed` | rpcserver.go:2185-2223 | both loops together are `Notify` with a time |
| `LongPoll.WorkState.Close` | rpcserver.go:2187-2189 | a channel is only ever closed while open |
| `LongPoll.WorkState.TellOthers` | rpcserver.go:2185-2193 | closes and forgets exactly what waits for other hashes |
| `LongPoll.WorkState.TellOlder` | rpcserver.go:2208-2222 | closes exactly the channels of older templates and keeps the others |
| `LongPoll.WorkState.NotifyLongPollers` | rpcserver.go:2181-2223 | is `Notify` on the registry, without closing anything twice |
| `LongPoll.WorkState.TemplateUpdateChan` | rpcserver.go:2267-2286 | is `Register` on the registry |

## Left out

- BlockTemplate.Assemble: does not model the list of signature operation counts, the block size after assembly, the header fields and the final sanity check of the block, which add only easy members.
- BlockTemplate.Assemble: too few voters is an error here; the copying of a cached template that the code tries first (mining.go:756-941) is not modelled.
- Template.Prune: copies are values; that the copy made by `NewTxDeepTxIns` shares its message with the pool's transaction, so that filling in proofs writes to it, is not captured.
- TxQueue.TxPriorityQueue.Pop: priorities and fees per kilobyte are reals, so floating-point rounding is not captured.
- AddrManager.AddrManager.ExpireNew: new buckets and tried lists hold keys and not pointers to the entries, so that a bucket's pointer is the index's entry is built into the model and not proved.
- AddrStore.DeserializePeers: works on the book as a value; the file and its JSON form are not modelled.
- SyncRuns.RunSafe: peer heights, the mining state and notifications to other components are not part of the state.
- BlockManager.BlockManager.HandleInv: requests for parents of known orphans are sends only and are not modelled; neither is the map of transactions ever requested, which is written and not read.
- Concurrency: each component is modelled as the sequence of steps that its goroutine or lock makes it.
- Picking an address to connect to (`GetAddress`) and local addresses.
- The bucket hashes and routability, which are functions given to the model.
- Script validation, signature caches, difficulty and subsidy calculation, which are answers given to the model.
- Template caching, hidden votes, the CPU miner, RPC handlers, configuration, logging and network input and output.
