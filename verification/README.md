# A verified model of the Tal Cash node

This project models the core of the node in Dafny and proves what its code and documentation promise: the ledger
and the chain manager, the mempool and the block template, the difficulty schedule, the canonical encodings and the
chunk files, and the peer catch-up state machine. `dafny verify dfyconfig.toml` checks all of it. Nothing was
executed: every statement below is a theorem about the model.

Code that works by changing things is modelled as classes and loops (`Store`, `ChainManager`, `Overlay`, `Mempool`,
`NodeService`, `Writer`, `Reader`, `BlockFiles`, `Node`), each method proved against a specification given by
functions and predicates on values; code made of expressions is modelled as functions.

- `Types`, `MedianTime`, `Merkle`, `Snapshot`: the values; ids as terms of an ideal hash; tree hashes and state roots.
- `Ledger`, `Overlay`: the rules and `apply_block`, as a specification and as the overlay loop in place.
- `ActiveChain`: the tables of the active chain as a function of its blocks (`Replay`), and what holds of every chain.
- `Balances`, `ChainLaws`: who holds what, and when a chain is valid, said without replaying: by sums over the blocks.
- `ChainState`, `Receiving`, `Adoption`, `Switching`, `StoreModel`, `Importing`, `Chain`: the stored state with every
  branch, the node invariant `ChainState.Inv`, what one submission and a whole call with its orphans do to it, and
  `ChainManager` (orphans, finality, switching and rolling back, marking, sealing, chunk import).
- `ForkChoice`: which branch wins, told by targets alone.
- `Delivery`, `Gaps`, `LostTransfer`: theorems about whole runs; and inputs on which the node does less than documented,
  with the exact conditions.
- `Pool`, `Requeue`, `Selection`, `Keeping`, `MempoolModel`: the mempool.
- `Template`, `Upkeep`, `Service`: the block template, and chain and mempool kept in step.
- `Asert`, `AsertBalance`, `Headers`: the difficulty schedule; headers checked before their blocks.
- `Encoding`, `Codec`, `ChunkFile`, `Layouts`, `SegmentCache`: bytes.
- `SyncState`, `SyncSteps`, `CatchUp`: p2p.py from choosing a peer to the last requested block: its state, what each
  event does to it, and the events.

`ChainState.Inv` says, of the stored tables and the active chain: the chain passes every rule; accounts, undo data,
snapshots and indexes are exactly what replaying it from genesis gives; its blocks are stored and valid; every stored
block is well formed, meets its target, carries the work of its chain and is one above its parent, which only sealing
can have deleted; no sealed height is above the tip; no block that ends a good chain is marked invalid; and nothing
stored and not invalid has more work than the tip.

`CatchUp.Node.Valid` holds between any two events, in every interleaving of messages, timeouts, drops and late
background results: every request ever sent was for blocks whose headers had been fully checked in that round (every
rule against their parents, proof of work included), at a moment when the tip those headers led to, itself fully
checked in that round, really had more work than the active chain; and an open sync peer has a chunk download, a
header question, a header check or blocks in flight outstanding.

SHA-256 is an ideal hash (equal digests mean equal contents), Ed25519, Argon2id, the address of a key and the
difficulty schedule are function-valued network parameters, and zlib is a pair of functions that undo each other.
Clock readings are parameters.

## Model

| member | source | states |
|---|---|---|
| Merkle.MerkleRoot | talcash/core/hashing.py:9-27 | the bottom-up pairing loop gives the tree hash of section 2.1 of RFC 6962, defined top-down, for every non-empty list |
| Merkle.TreeHashInjective | talcash/core/hashing.py:9-27 | two leaf lists of any lengths with the same root are equal |
| Snapshot.ComputeStateRoot | talcash/core/snapshot.py:36-44 | whatever the order of the listing, and with empty accounts in it or not, the root of the table it lists; refused exactly if two non-empty accounts are listed under one address |
| Snapshot.StateRootInjective | talcash/core/snapshot.py:29-44 | equal state roots mean equal account tables |
| Ledger.SameIdSameBlock | talcash/core/block.py:118-135 | of two blocks that pass the stateless checks, equal ids mean equal bodies |
| Ledger.UndoRestores | talcash/core/state.py:118-162 | writing back the previous values of every account a block touches gives exactly the table before it |
| Ledger.BodyTotal | talcash/core/state.py:128-162 | all balances after a block, plus its coinbase, are all balances before it plus what matured plus one reward |
| Overlay.ApplyBlock | talcash/core/state.py:52-75 | the overlay updated in place, transfer by transfer, gives the result of the plain rules, the same error included, exactly the touched accounts as new and as previous values, and the fees the coinbase takes on top of the reward |
| Balances.TransferPays | talcash/core/state.py:142-153 | for every address: an accepted transfer takes from its sender exactly what it spends, gives every address exactly the sum of the outputs to it, and moves on the sender's nonce alone, by one |
| Balances.AppliesIfAcceptable | talcash/core/state.py:142-153 | a list of transfers is accepted if and only if each comes with the next nonce of its sender, who can pay for it out of what it had and was paid before, and brings no address above the largest amount |
| Balances.BlockPays | talcash/core/state.py:128-162 | the same for a block, with what matured |
| Balances.BalanceIsHistory | talcash/core/state.py:118-162 | on every valid chain, for every address: balance plus all it ever spent is all that matured to it plus all it was ever paid, and its nonce is the number of transfers it sent |
| Overlay.RevertUndoesApply | talcash/core/state.py:165-185 | applying and reverting is no change |
| ActiveChain.DisconnectUndoesConnect | talcash/node/chain.py:499-506 | undoing the tip gives back accounts, undo data, snapshots and both indexes exactly |
| ActiveChain.ConnectNeverCollides | talcash/node/store.py:310-320 | no transaction id, address row, undo record or snapshot of a block appended to a valid chain is there already |
| ActiveChain.ChainSnapshots | talcash/node/chain.py:263-281 | on every valid chain the snapshots are those of the finished chunks, each the root of the accounts there |
| ActiveChain.ContextIsDefined | talcash/node/chain.py:263-281 | the context of the next block never lacks its snapshot or its maturing coinbase |
| ChainLaws.TimeRule | talcash/core/difficulty.py:82-85 | a timestamp is late enough if and only if it is later than more than half of those of the last blocks, in whatever order these stand |
| MedianTime.AfterMedian | talcash/core/difficulty.py:82-85 | a time is after the median if and only if more than half of the times are earlier, whatever their order |
| MedianTime.MedianIsOne | talcash/core/difficulty.py:82-85 | the median is one of the times |
| ChainLaws.BlockRules | talcash/core/block.py:118-135 | the stateless checks pass if and only if each rule, said by itself, holds |
| ChainLaws.ExtensionRules | talcash/core/state.py:118-162 | a block extends a valid chain if and only if it passes the stateless rules, names the tip and the expected target, is later than more than half of the last blocks, carries the due snapshot root, fits its reward in and spends only what the history of each sender gives it |
| ChainLaws.ChainRules | talcash/core/state.py:118-162 | so a chain is valid if and only if it starts with genesis and each block may follow those before it |
| ChainLaws.SnapshotLaw | talcash/core/snapshot.py:52-63 | on every valid chain each block carries the state root after the last chunk that ended far enough below it, and no snapshot exactly where there is none |
| ChainLaws.OnlySigned | talcash/core/tx.py:163-189 | whenever a block of a valid chain lowers a balance or moves a nonce, it holds a validly signed transfer of that very account with a nonce that is then used up |
| ChainLaws.AddressIndexIsExact | talcash/node/store.py:310-324 | after any valid chain the address index holds exactly the transactions that pay or are sent by the address, by height and position |
| ChainLaws.TxIndexIsExact | talcash/node/store.py:310-328 | after any valid chain every transaction on it is found at its block, height and position |
| ChainLaws.NothingElseIndexed | talcash/node/store.py:310-328 | and nothing else is found |
| ActiveChain.CoinsAreConserved | talcash/core/genesis.py:17-24 | on every valid chain all balances plus the rewards not matured are one block reward per block |
| ActiveChain.SameTipSameChain | talcash/core/block.py:28-47 | two valid chains with the same tip id are the same chain |
| Chain.ChainManager.constructor | talcash/node/chain.py:128-141 | a new node satisfies the invariant with genesis alone |
| Chain.ChainManager.Reopen | talcash/node/chain.py:128-141 | a node started again on its database satisfies the invariant with the same chain, every final chunk sealed and no orphan |
| Chain.ChainManager.Connect | talcash/node/chain.py:487-497 | appends as the replay does and marks the block valid, or reports the broken rule and writes nothing |
| Chain.ChainManager.DisconnectTip | talcash/node/chain.py:499-506 | leaves the replay of the chain without its tip |
| Chain.ChainManager.MarkInvalid | talcash/node/chain.py:508-514 | marks exactly the block and its stored descendants, and nothing else changes |
| Chain.ChainManager.CheckFinality | talcash/node/chain.py:348-359 | accepts exactly the parents whose branch meets the active chain at or above the finalized height, and fails exactly where the walk meets a deleted header first |
| Chain.ChainManager.SealReadyChunks | talcash/node/chain.py:431-439 | seals exactly the chunks that are final, deleting exactly side-branch headers at their heights, and keeps the invariant |
| Chain.ChainManager.SwitchTo | talcash/node/chain.py:399-427 | if the new branch's chain passes every rule it becomes the active chain, with the lists of undone and applied blocks exact; otherwise nothing changes but the statuses of the block that broke a rule, which stood off the active chain, and of its descendants |
| Switching.FailedSwitchKeepsInv | talcash/node/chain.py:418-425 | after a failed switch the invariant holds: no block of a good chain was marked |
| Chain.ChainManager.SubmitOne | talcash/node/chain.py:294-343 | what one submission does, outcome by outcome, with the reason of every rejection (a lasting one means that no good chain holds the block), and exactly when it raises |
| Receiving.StepKeepsSealed | talcash/node/chain.py:162-168 | no submission changes the active chain at a sealed height |
| Receiving.BestMeetsFinal | talcash/node/chain.py:348-359 | every stored block at or above the finalized height, of a good chain through all final blocks, may be built on |
| Receiving.StepKeepsSafe | talcash/node/chain.py:381-395 | submitting any descendant of a stored block's parent leaves no gap behind that block, whatever was switched and sealed meanwhile |
| ChainState.PrunedOnlyAtTheSeal | talcash/node/store.py:195-215 | a walk can only meet a deleted header right above the sealed heights, while no later height is final |
| Chain.ChainManager.AdoptOrphans | talcash/node/chain.py:381-395 | which held blocks are submitted, in what order and with what results: depth first, the oldest first among siblings (`Adoption.Turns`), each taken out of the pool, and what hangs below a rejected one dropped; keeps the invariant and never raises |
| Chain.ChainManager.SubmitBlock | talcash/node/chain.py:285-292 | the whole call as one run of submissions, the pool after it exact (`Adoption.Ran`); keeps the invariant; work never falls and sealed heights never change; the lists of the result tell how the active chain changed; it raises if and only if a condition on the state before the call holds, and then nothing has changed |
| Receiving.FinalityRule | talcash/node/chain.py:162-168 | a parent passes the finality walk if and only if its branch leaves the active chain within the last `finality_depth` blocks and no earlier than at the last sealed block |
| Receiving.StepKeepsDeep | talcash/node/chain.py:162-168 | no submission undoes a block with `finality_depth` or more on top of it |
| Receiving.OldestMakeRoom | talcash/node/chain.py:361-366 | holding an orphan pushes out exactly as many of the oldest as the limits on number and bytes make necessary |
| Receiving.OlderComesFirst | talcash/node/chain.py:381-388 | of two orphans waiting for one parent, the one held longer is submitted first |
| ForkChoice.WorkIsQuotient | talcash/core/difficulty.py:77-79 | the work of a target is the whole number of times target + 1 goes into 2 to the power of 256 |
| ForkChoice.HarderTakesMore | talcash/core/difficulty.py:77-79 | a harder target counts for no less, and one at least twice as hard for at least twice as much |
| ForkChoice.ChainWork | talcash/node/chain.py:336-343 | of two valid chains, one that is block by block no easier and at least as long has at least as much work, and more if it is longer or somewhere twice as hard |
| ForkChoice.SubmitRival | talcash/node/chain.py:294-343 | the end of a branch that is block by block no easier than the active chain, and longer or somewhere twice as hard, becomes the tip; where the active chain is no easier, the block is stored and the active chain stays |
| Delivery.Deliver | talcash/node/chain.py:285-343 | from any state of the node and in any order of arrival, the one good chain with strictly the most work ends up active, heavier invalid branches, switches and sealing included, unless an orphan was pushed out for want of room; other conditions: no finality cutoff, the winner's blocks not ahead of the clock, no altered body in place of one of them while the next one waits for it, none held with its parent stored |
| Delivery.DeliverToBoth | talcash/node/chain.py:285-343 | two nodes that hear of the same winner in different orders end up with the same chain, accounts, undo data, snapshots and indexes |
| Receiving.GuardedStep | talcash/node/chain.py:294-343 | no submission loses a block of the winner: it is stored or held, and sealing never deletes it |
| Chain.ChainManager.ApplyChunk | talcash/node/chain.py:445-485 | imports exactly the chunks that are next and continue the active chain validly, adding their blocks to the header table and nothing else; a failing chunk leaves every table as it was |
| Delivery.ImportAgainstSubmission | talcash/node/chain.py:445-497 | of two nodes on one chain, importing a chunk on one and submitting its new blocks one by one on the other gives the same chain, accounts, undo data, snapshots and indexes, whatever else the second holds, as long as it holds none of these blocks and nothing that hangs from one |
| Importing.GoodArrives | talcash/node/chain.py:294-343 | the tip of a good chain on a branch that is not final becomes the tip of the active chain if it has more work, and is stored otherwise |
| Switching.ForkSeparates | talcash/node/chain.py:399-411 | a switch undoes no block that is on the new chain |
| Gaps.LateForkRaises | talcash/node/chain.py:285-292 | a run of six blocks after which submitting raises, against the documentation |
| Gaps.LateForkExists | talcash/node/chain.py:348-359 | there are such blocks |
| Gaps.MalformedTakesAlong | talcash/node/chain.py:285-292 | in any state, submitting a block that breaks a stateless rule loses exactly the held blocks that hang from its id, directly or through others, unless the id is known already or the call raises |
| Gaps.AlteredBodyDrops | talcash/node/chain.py:285-292 | a node sent a held block's parent with an altered body first drops the held block |
| Gaps.ImitationExists | talcash/node/chain.py:373-379 | there are such blocks |
| Gaps.ImportStrands | talcash/node/chain.py:445-485 | in any state, importing leaves held, with its parent stored, exactly each held block neither stored nor imported whose parent was stored before or is imported |
| Gaps.StrandedStays | talcash/node/chain.py:294-308 | sending such a block or its parent again is a duplicate and changes nothing |
| Gaps.ImportStrandsOrphan | talcash/node/chain.py:445-485 | a held block whose parent is imported in a chunk is neither adopted nor accepted again |
| LostTransfer.OvertakenRun | talcash/node/chain.py:381-395 | from any state: with two competing children of a new block held and a child of the second, one call applies the first and undoes it again, and its result lists it both ways |
| LostTransfer.AdoptionLosesTransfer | talcash/node/mempool.py:200-229 | then a transfer of that block that was waiting is lost: it waits no more, no block of the active chain holds it, and its sender's transfers are as covered as before |
| LostTransfer.LoseTransfer | talcash/node/service.py:92-115 | such a run from a new node on: six calls, of which one accepts the transfer |
| LostTransfer.LostTransferExists | talcash/core/state.py:118-162 | there are a network and blocks to run it with |
| MempoolModel.Mempool.PushEvictable | talcash/node/mempool.py:179-184 | the heap goes on tracking every sender's last transfer, rebuilt or not |
| MempoolModel.Mempool.Remove | talcash/node/mempool.py:163-177 | one transfer leaves every index, and the byte count with it |
| MempoolModel.Mempool.TrimToSize | talcash/node/mempool.py:186-196 | terminates within the limit, never finds the heap empty and keeps every sender's run covered; while no stale key is newer than its entry, it removes exactly what repeatedly scanning for the cheapest last transfer removes |
| MempoolModel.Mempool.Insert | talcash/node/mempool.py:123-161 | which refusal, what it replaces, what is trimmed; a refusal changes nothing |
| MempoolModel.Mempool.Add | talcash/node/mempool.py:114-121 | every error case in order; with a clock that does not go back, what leaves is what a full scan chooses |
| Pool.AcceptedIf | talcash/node/mempool.py:123-161 | in fees and sizes: a transfer is not refused if and only if it pays the minimum, comes with its sender's next nonce or replaces one that waits, is covered together with the others, and, to replace one, pays more and at least a quarter more per byte |
| Pool.EvictedPaysLeast | talcash/node/mempool.py:179-196 | in fees and sizes: what is evicted pays no more per byte than any sender's last transfer, and of two that pay the same it is the later one |
| MempoolModel.Mempool.NextNonce | talcash/node/mempool.py:108-110 | it is not waiting, and every nonce from the confirmed one up to it is |
| MempoolModel.Mempool.Update | talcash/node/mempool.py:200-229 | after any change of the chain every sender's nonces run on from its confirmed nonce and its balance covers them; the outcome is that of reinserting by sender and nonce |
| MempoolModel.Mempool.Expire | talcash/node/mempool.py:231-242 | removes exactly the outdated transfers and their senders' later ones |
| MempoolModel.Mempool.Select | talcash/node/mempool.py:246-264 | the heap gives the greedy choice defined without one |
| Selection.BestPaying | talcash/node/mempool.py:246-264 | in fees and sizes: no transfer that could have come next and still fits pays more per byte than the one taken, and of two that pay the same the smaller sender's comes first |
| Selection.CoveredFollowOn | talcash/node/mempool.py:246-264 | in a mempool in step with the chain every sender's transfers are by nonce, as the statements around this one ask |
| Selection.TakenCameNext | talcash/node/mempool.py:246-264 | each transfer taken comes after all its sender's earlier ones, and fits |
| Selection.NothingMoreFits | talcash/node/mempool.py:246-264 | and nothing that could come next after all of them still fits |
| Selection.OneGreedyChoice | talcash/node/mempool.py:246-264 | there is only one greedy choice |
| Selection.GreedyNonces | talcash/node/mempool.py:246-264 | it takes each sender's transfers in nonce order, none twice |
| Keeping.StaysUnlessConfirmed | talcash/node/mempool.py:200-229 | with room for everybody, a covered sender's transfers all stay if and only if no connected block holds one |
| Keeping.ConfirmedLeave | talcash/node/mempool.py:200-229 | no transfer of a connected block waits after an update |
| Template.ChoiceApplies | talcash/node/template.py:9-31 | the chosen transfers apply in order to the confirmed accounts |
| Template.TemplateExtends | talcash/node/template.py:9-31 | a block built from a context and the greedy choice extends the chain validly |
| Template.TemplateIsTimed | talcash/node/template.py:21-30 | the timestamp is now where the rules allow it, and otherwise the earliest they allow |
| Template.NonceIsFree | talcash/core/state.py:103-109 | no rule but proof of work depends on the nonce |
| Template.MinedIsNewTip | talcash/node/chain.py:294-343 | a template mined on becomes the new tip when submitted, whatever else is held |
| Upkeep.ExtensionRaises | talcash/node/mempool.py:200-229 | new blocks lower the account of no one but the senders of their transfers |
| Service.NodeService.SubmitBlock | talcash/node/service.py:92-115 | the chain does what `Adoption.Ran` says; the mempool stays valid on top of the active chain whatever the outcome; with a clock that does not go back it is what reinserting by sender and nonce makes of it, nothing of a connected block waits, and a covered sender's transfers all stay if and only if no connected block holds one; where the chain raises nothing changes |
| Service.NodeService.ImportChunk | talcash/node/service.py:117-129 | the same for a chunk, whose new blocks it counts |
| Service.NodeService.SubmitTransaction | talcash/node/service.py:131-143 | the same for a transfer, with every refusal in order and what leaves to make room |
| Service.FollowedKeeps | talcash/node/mempool.py:200-229 | whatever blocks were applied and undone: nothing of an applied block waits, and with room for everybody a covered sender none of whose transfers return keeps all that wait if and only if no applied block holds one |
| Service.NodeService.MakeTemplate | talcash/node/service.py:145-146 | in every reachable state the template passes every rule but proof of work, holds the greedy choice for the room there is, pays the miner with the memo given and is stamped as `Template.Timed` says, for a usable miner address, a size limit that fits the coinbase, and rewards that have not outgrown the largest amount |
| Service.NodeService.Account | talcash/node/service.py:177-194 | each figure as the tables have it: payments to come over the whole mempool, immature rewards over the chain; the available amount is never negative |
| Service.ReportsAddUp | talcash/node/service.py:177-194 | over all addresses, the reported balances and immature rewards are one block reward per block |
| Asert.EarlyReturnsAreClamped | talcash/core/difficulty.py:40-59 | both early returns give what the clamped full formula gives |
| Asert.TargetFollowsSchedule | talcash/core/difficulty.py:28-59 | the target never falls as the parent's timestamp rises or its height falls, across shift boundaries too |
| Asert.TargetInRange | talcash/core/difficulty.py:28-59 | the target is between 1 and the limit |
| Asert.HalfLifeDoubles | talcash/core/difficulty.py:28-59 | one half-life later the formula gives twice as much, up to rounding down |
| AsertBalance.FactorsBalance | talcash/core/difficulty.py:53-55 | the factors of two fractions that add up to one multiply to two, to within a thousandth of a half: the polynomial does stand for a power of two |
| Asert.OnScheduleKeepsAnchor | talcash/core/difficulty.py:28-59 | a chain exactly on schedule keeps the anchor's target |
| Asert.FollowingIsBounded | talcash/core/difficulty.py:62-74 | the targets of a schedule are what the chain's theorems ask of them |
| Headers.RollingIsWalking | talcash/node/chain.py:248-250 | rolling work and timestamps one header on is walking back from it |
| Headers.CheckHeaders | talcash/node/chain.py:230-251 | from a tip that walking gives, accepts exactly the headers that meet every rule up to the first ahead of the clock, ends with the tip that walking gives, and fails only for a header that breaks a rule |
| Headers.CheckedHeaderFits | talcash/node/chain.py:322-338 | an accepted header that meets its target passes every header rule of a later submission |
| Headers.WorkOfHeaders | talcash/node/chain.py:230-251 | accepted headers count heights on and add their work |
| Headers.HeaderTipOf | talcash/node/chain.py:209-218 | the work is always right, and the timestamps wherever the recent ancestors are stored |
| Headers.CheckBranchPoint | talcash/node/chain.py:220-228 | which error, for which stored block, and when the walk fails |
| Encoding.Writer.Uint | talcash/core/encoding.py:10-36 | appends the big-endian bytes, or refuses a number too large |
| Encoding.Reader.Uint | talcash/core/encoding.py:63-81 | reads back what was written there |
| Codec.TransactionFromBytes | talcash/core/tx.py:156-160 | succeeds only on the encoding of what it returns, and gives back whatever was encoded |
| Codec.Serialize | talcash/core/tx.py:59-119 | the one encoding, refused exactly if a field does not fit |
| Codec.HeaderFromBytes | talcash/core/block.py:50-67 | exactly the 156-byte strings are headers, and each is the encoding of its header |
| Codec.BlockFromBytes | talcash/core/block.py:105-115 | succeeds only on the encoding of what it returns, and gives back whatever was encoded |
| Codec.SerializeBlock | talcash/core/block.py:79-84 | the one encoding, refused exactly if a field does not fit |
| Codec.PeelBlock | talcash/core/block.py:79-108 | no block's encoding starts another's |
| Layouts.BigDigits | talcash/core/encoding.py:10-15 | a number is written in base 256, the highest byte first |
| Layouts.HeaderLayout | talcash/core/block.py:3-5 | the documented header layout: which of the 156 bytes hold which field |
| Layouts.TransferLayout | talcash/core/tx.py:59-76 | which bytes of a transfer hold which field |
| Layouts.OutputsLayout | talcash/core/tx.py:63-64 | each output takes 29 bytes, its address and its amount |
| Layouts.CoinbaseLayout | talcash/core/tx.py:108-119 | which bytes of a coinbase hold which field |
| Layouts.ChunkLayout | talcash/node/blockfiles.py:14-19 | the documented chunk file layout: head, segment table, and the checksum of everything before it |
| Codec.BlockSizeIsLength | talcash/core/block.py:86-88 | the size the rules limit is the encoded length |
| ChunkFile.UnpackSegment | talcash/node/blockfiles.py:79-99 | the loop over frames as a function of the bytes, a damaged segment told from one that exceeds the budget |
| ChunkFile.UnpacksPacked | talcash/node/blockfiles.py:75-99 | a packed segment gives its blocks back if they are within the budget, and is reported as too large exactly if not |
| ChunkFile.EncodeChunk | talcash/node/blockfiles.py:102-114 | the file and the locations, unless a number does not fit its width |
| ChunkFile.DecodeChunk | talcash/node/blockfiles.py:117-171 | whatever is accepted is linked, within the limits and read by its locations; whatever was encoded from linked blocks, not too many, decodes to the same blocks and locations, or is reported as too large exactly if it exceeds the budget of bytes |
| ChunkFile.CheckLayout | talcash/node/blockfiles.py:138-145 | accepts exactly segments that follow one another to the end of the file |
| SegmentCache.BlockFiles.ReadFromChunk | talcash/node/blockfiles.py:308-319 | while the cache is right, the same as reading the file; otherwise what the cached segment holds |
| SegmentCache.BlockFiles.SaveChunk | talcash/node/blockfiles.py:288-290 | the cache stays right if no segment of the chunk is cached or the bytes are those it had before, and exactly if the cached segments agree with the new bytes |
| SegmentCache.RewriteIsStale | talcash/node/blockfiles.py:292-319 | for any two chunks of as many blocks: save one, read a block, delete, save the other, and reading gives the first one's block |
| SegmentCache.StaleRewriteExists | talcash/node/blockfiles.py:292-319 | there are two such chunks |
| SyncState.SetPeer | talcash/node/p2p.py:192-222 | a change within a peer's round keeps every invariant of the catch-up |
| SyncState.NewRound | talcash/node/p2p.py:797-810 | a new round makes what ran for the old one late |
| CatchUp.Node.StartSync | talcash/node/p2p.py:797-810 | a new round with this peer, everything earlier forgotten: sealed chunks that we lack are downloaded if it serves any, and otherwise it is asked for headers; keeps `Valid` |
| CatchUp.Node.MaybeSync | talcash/node/p2p.py:789-795 | unless a round is on, one starts with an open, ready peer that claims the most work, if any claims more than ours, and otherwise nothing changes |
| CatchUp.Node.EndSync | talcash/node/p2p.py:812-822 | the peer keeps no claim to more work than ours, or none if useless; then as `MaybeSync`, so never again with this peer; `Valid` holds again |
| CatchUp.Node.Drop | talcash/node/p2p.py:569-580 | the peer is closed, banned if asked, and claims nothing; if it was the sync peer, as `MaybeSync`; `Valid` holds again |
| CatchUp.Node.OnHello | talcash/node/p2p.py:640-655 | the new peer is open and idle with the work it claims, and then as `MaybeSync`; keeps `Valid` |
| CatchUp.Node.OnHeaders | talcash/node/p2p.py:894-909 | too many headers, or unreadable or unlinked ones that were asked for, close and ban; headers not asked for are ignored; all others go into a check of their own; keeps `Valid` |
| CatchUp.Node.OnCheck | talcash/node/p2p.py:911-946 | the verdict on a batch up to the proofs of work, case by case (`SyncSteps.Judged`), and what follows from it (`SyncSteps.AfterCheck`), whenever it runs; a late check changes nothing but closes if it failed; keeps `Valid` and every earlier request, and a request it leads to was decided on against the work of the active chain |
| CatchUp.Node.OnProof | talcash/node/p2p.py:946-978 | a header that misses its target gets the peer banned; otherwise, if the round is still on, all checked headers are queued, the tip moves on and the round continues; keeps `Valid`, in time or for a round long abandoned |
| CatchUp.Node.ContinueSync | talcash/node/p2p.py:980-997 | once nothing is outstanding: the next 64 blocks not stored yet if the checked tip has more work than ours, else more headers if there may be any, else the end of the round (`SyncSteps.Continues`); what it requests are fully checked blocks below a fully checked tip with more work than the active chain at that moment |
| CatchUp.Node.OnBlock | talcash/node/p2p.py:717-745 | a block asked for, or with its parent stored, is submitted: chain, tables and orphans change by one whole run (`Adoption.Ran`); any other changes none of them, and its sender claims more work than ours and is synced with unless another one is. The sender is closed exactly for a lasting rejection, then with a ban, or if the call raises; a temporary rejection ends its claim to work; a block asked for is in flight no longer and the round continues; keeps `Valid` |
| CatchUp.Node.OnChunk | talcash/node/p2p.py:831-892 | the chunk of a current download is imported: it continues the active chain, which grows by exactly its new blocks, or nothing changes and no continuation with it exists; then the next download, or headers, or for an invalid chunk the peer is closed and banned; a download cancelled or abandoned imports nothing; keeps `Valid` |
| CatchUp.Node.OnUnreadChunk | talcash/node/p2p.py:875-889 | a damaged file gets the peer closed and banned; one that only exceeds the budget closes no connection and headers are asked for; keeps `Valid` |
| CatchUp.Node.OnStall | talcash/node/p2p.py:999-1004 | a peer that takes too long is dropped without a ban and the next best one caught up with; keeps `Valid` |
| SyncSteps.WhoIsClosed | talcash/node/p2p.py:736-741 | over a submitted block a connection is closed exactly if it raised or was rejected for good, with a ban only for the latter |
| CatchUp.FullBatchIsExact | talcash/node/p2p.py:917-945 | of a full batch of known headers the last one's recent ancestors are all stored, so that the tip kept for the next batch lacks no timestamp |

## Findings

Where the code does less than its documentation or its comments say, the code is followed, the failing input is a
theorem, and the property is proved under its exact or caller-visible condition.

- `submit_block` "never raises for bad blocks" (talcash/node/chain.py:286). Sealing deletes the losing blocks at
  sealed heights and leaves their descendants. A new block on such a descendant makes the walk of `_check_finality`
  (talcash/node/chain.py:352-356) run into a missing header. `Gaps.LateForkRaises` with `Gaps.LateForkExists` is such
  a run; `Chain.ChainManager.SubmitBlock` says exactly when it happens (`Receiving.Raises`, a condition on the state
  before the call), that nothing has changed then, and that adopting orphans is never the cause.
- A rejected block drops held blocks. `submit_block` drops the orphans of every rejected id
  (talcash/node/chain.py:290-291), also when only the body was wrong and the id is that of a good block. So delivery
  order matters as soon as somebody sends an altered body first: `Gaps.AlteredBodyDrops`. `Gaps.MalformedTakesAlong`
  says for every state and every held block whether it is lost. `Delivery.Deserves` excludes only an altered body that
  arrives in place of a block of the winner that is not there yet, while the winner's next block is waiting for it
  (`Delivery.Untainted`).
- Importing a chunk does not adopt orphans (talcash/node/chain.py:445-485). A held block whose parent comes in a chunk
  stays held, and it and its parent count as duplicates when they are sent again: `Gaps.ImportStrandsOrphan`.
  `Gaps.ImportStrands` says for every state which held blocks that befalls, and `Delivery.ImportAgainstSubmission` that
  importing and submitting do the same where it befalls none. Hence the condition in `Delivery.Deserves` that no held
  block of the winner has its parent stored at the start.
- "A stored block's parent is stored too" (talcash/node/p2p.py:917) is untrue after sealing. Headers known already can
  therefore give a tip without all its timestamps. It does no harm: such a tip has no more work than the active chain,
  so the round ends with it, unless the batch was full, and then the batch itself holds the timestamps
  (`CatchUp.FullBatchIsExact`, for networks whose median spans at most 2000 blocks; every network uses 11).
- The segment cache survives the deletion of its chunk (talcash/node/blockfiles.py:292-293). A chunk that is saved
  again with other blocks is then read wrong: `SegmentCache.RewriteIsStale` with `SegmentCache.StaleRewriteExists`;
  `SegmentCache.BlockFiles.SaveChunk` says exactly when not.
- `SubmitResult.connected` can hold a block that was undone again within the same call, while orphans were adopted;
  `Mempool.update` then takes its transfers for confirmed (talcash/node/mempool.py:205-223) and loses them:
  `LostTransfer.LoseTransfer` with `LostTransfer.LostTransferExists`. `Service.NodeService.SubmitBlock` says for every
  state which senders lose nothing: of a covered sender all waiting transfers stay if and only if no connected block,
  undone again or not, holds one.

## Left out

- One clock reading serves a whole `submit_block` call, and one all the transfers that return in `Mempool.update`; the code reads the clock for each.
- Chain.ChainManager.Reopen: does not model a database of another network, `tidy_recent_files` or reindex.py; the tables are those the node left, as SQLite promises.
- SQLite: the tables are one value, a transaction is saving and restoring it, and a failing commit is not modelled.
- Where block bytes are kept: the chain model keeps whole blocks, and `ChunkFile` and `SegmentCache` model the files by themselves; recent-block files and their cache are not modelled.
- Collisions of SHA-256 are outside the model.
- Peers are values in a map and events run to completion, as in asyncio; sending, the handshake, what a ban keeps from connecting, gossip, peer lists and rate limits are not modelled, and a full send queue appears only as a connection that closes.
- The wait for an earlier chunk check before a download (p2p.py `_chunk_check`) only delays events and is not modelled.
- NodeService.template takes the miner's address as given; the address history, transaction search and events of service.py are not modelled.
- Liveness: that a peer answers, that a download ends and that a stalled peer is noticed are events the environment may or may not produce.
- Wallet, keys, addresses, API, network plumbing, miner processes and display code: single checks and foreign cryptography that would add easy members only.
