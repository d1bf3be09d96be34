# Lootcoin

A Dafny model of the lootcoin node, miner kernel and address decoder, and proofs about it.
Lootcoin is a proof-of-work chain whose fees feed a lottery pot: a block with at least one
transfer earns its miner a ticket, and a hundred blocks later the hashes of those hundred
blocks decide what the ticket wins.

## What is modelled

| file | module | subject |
|---|---|---|
| Prelude.dfy, Types.dfy, ByteOrder.dfy | the same | machine integers, entities and constants, byte order |
| Consensus.dfy | Consensus | what `update_state` decides and computes, as functions |
| PreCheck.dfy, Conservation.dfy, Room.dfy | the same | pre-validation, what an accepted block does to every balance, and when a checked block aborts |
| Replay.dfy | Replay | replay of a whole chain from genesis: the reference for the running node |
| Lottery.dfy, MedianTime.dfy, AsertSchedule.dfy | the same | tickets and pot, block times, difficulty over whole chains |
| AccountBook.dfy, BlockRules.dfy, Verdicts.dfy | the same | what a valid chain pays and moves, the rules of a block, and what becomes of one more block, spelled out without the functions that compute them |
| ForkChoice.dfy, Decisions.dfy, Forks.dfy | the same | work, links, traces; the moves chain and pool call for; what the node may say about a fork |
| Tables.dfy, History.dfy, Database.dfy, Persistence.dfy | the same | the stored tables, their specification, and every way they are written |
| Consistency.dfy, Chain.dfy | the same | the node's invariant, and the `Blockchain` object |
| Startup.dfy, Checkpoint.dfy | the same | full replay at startup; restarting from a checkpoint |
| TxPool.dfy, Readmission.dfy, Miner.dfy, Node.dfy | the same | the pool, what returns to it, block selection, admission of blocks and transactions, and whole runs |
| Witnesses.dfy | Witnesses | concrete chains on which stated limits are reached |
| CubeHash.dfy, Difficulty.dfy | the same | the hash kernel and the fractional difficulty test |
| Wordcode.dfy | Wordcode | decoding an address payload |

The node's objects are classes whose methods change their fields as the source does:
`Blockchain` (Chain.dfy), `Db` (Database.dfy), `Mempool` (TxPool.dfy) and `Node` (Node.dfy,
the shared state behind the block and transaction handlers). The kernel works in place on an
array of 32 words. What each method computes is fixed by a function of its inputs or of the
old state, and the theorems are about those functions. `Blockchain` keeps the whole canonical
chain as ghost state beside its pruned window; its invariant says that window, hash index,
orphan pool, waiting payouts and derived state are those of replaying that chain from genesis.

## Modelling choices

- Header hash, transaction root, signature check, address decoding, the proof-of-work test of
  the node and the lottery digest are the fields of a `Crypto` value, so every theorem holds for
  all of them. The header hash is assumed injective and free of cycles through `previous_hash`
  (`Sound`; `Witnesses.ToyIsSound` has a hash that is).
- The wall clock is an input: a reading at the start of a call, and by how much it has moved on
  when the n-th block of a replay is judged.
- `f64` difficulty is a real number and the 1e-9 threshold is kept.
- `u64` additions that the source leaves unchecked wrap, saturating ones saturate, and the
  ASERT product of `u64` operands wraps.
- Storage operations either take full effect or fail without effect. `reliable` says that they
  do not fail; statements about the tables assume it.
- `abort()` is an outcome (`Died`, `Killed`).
- What the node does with a block is a relation between the chain, the window and the pool before
  and a `Move` (Decisions.dfy). It leaves open only which of several orphans of one height is
  evicted and which of several forks of one weight is taken. A move keeps the tables when it is no
  switch, or a switch that adopted its whole fork and either displaced a block of the window or
  did not shorten the chain; both are read off the fork, the chain and the clock before the call.
- Iteration over hash maps is in arbitrary order.
- A method and its specification share functions, such as the one for a draw or a transfer. What
  these come to is said without them, from blocks, amounts, positions and dates alone, in
  AccountBook.dfy, BlockRules.dfy and Verdicts.dfy, by `Readmission.Refilled`, `Miner.Selects` and
  `Database.NewestFirst`, and for whole events by `Node.BlockIsDecided` and `Node.TransferIsDecided`.
- Constants of lootcoin-core, which is not part of this model, are taken from WHITEPAPER.md
  (lines 109-112 and 249-257) and README.md (lines 24-30).

## Where code and documentation disagree

- `blockchain.rs` lines 550-551 say that a coinbase fee may be 0 or 1; the code demands 0.
- `blockchain.rs` line 620 speaks of this block's hash as the randomness; the draw uses the
  hundred hashes before it.
- `reorg_to` says that a refusal during replay should never happen. Orphans are admitted without
  checking their transactions or the order of their indices, so it can: a block on the tip that
  passes the orphan rules but claims another height is a candidate, and unless another fork in the
  pool is as heavy it is selected and refused (`Forks.MisnumberedChildIsSelected`, with a concrete
  one in `Witnesses.MisnumberedExists`). The node then stands on the accepted prefix, still reports
  the reorganisation, and has written the refused block to its tables. If it claims a height below
  the tip it stays there, and once the window is past that height the next reorganisation inside
  the window reads it back as history and cuts the chain down to that height
  (`Forks.MisnumberedChildCutsLater`).
  `Decisions.AdoptsExactly` says exactly when a replay completes; then there is more work than
  before (`Decisions.MoveKeepsValid`).
- A reorganisation that displaces nothing from the window writes the new blocks over the old
  block table. When it ends on a shorter chain, old blocks stay stored above the new tip
  (`Persistence.DeepSync` gives the exact condition). The source argues at lines 969-975 that
  its constants keep this from arising; a single block whose hash happens to be small enough
  brings it about (`Witnesses.LuckyBlockShortens`).
- A restored node keeps only the checkpoint block, so for ten blocks its Median Time Past can
  differ from that of the network. When it is later the node can refuse a block of the valid chain
  (`Witnesses.ShortWindowIsStricter`); when it is earlier the node can accept a block that the
  network refuses, and fork off (`Witnesses.ShortWindowIsLaxer`). `Checkpoint.RestoredParts` gives
  the exact condition for both.

## Model

| member | source | states |
|---|---|---|
| Chain.Blockchain.ApplyTransaction | lootcoin-node/src/blockchain.rs:390-409 | a coinbase credits its receiver; a transfer the sender can pay debits amount plus fee, credits the amount, moves the fee to the pot and records the signature; one it cannot pay changes no balance |
| Chain.Blockchain.CheckTx | lootcoin-node/src/blockchain.rs:578-613 | one turn of the pre-validation loop answers exactly whether the transfer is sound, unseen, and payable after everything its sender already spends in the block |
| Chain.Blockchain.PreValidate | lootcoin-node/src/blockchain.rs:572-614 | the loop accepts exactly the blocks in which every transfer is sound, no signature repeats or is confirmed, and every sender can pay at every point from its balance before the block |
| PreCheck.SpentAtMost | lootcoin-node/src/blockchain.rs:603-612 | a block that passed leaves no sender spending more than it had |
| PreCheck.PreValidStep | lootcoin-node/src/blockchain.rs:578-613 | the declarative rule grows by one transaction exactly when the loop lets that transaction pass |
| Chain.Blockchain.ComputeTicketReward | lootcoin-node/src/blockchain.rs:446-465 | with the reveal window cached, tier and prize are those of the lot drawn by the digest of the hundred hashes from the ticket's own block on, its height and its miner, by the table of WHITEPAPER.md lines 249-257; without, of the hashes still cached |
| Chain.Blockchain.SettleTickets | lootcoin-node/src/blockchain.rs:620-665 | exactly the tickets due at this height are settled, in order, each paid at most the pot; the others stay pending |
| Chain.Blockchain.TotalSupply | lootcoin-node/src/blockchain.rs:234-236 | the sum of all balances plus the pot |
| Chain.Blockchain.ApplyTransactions | lootcoin-node/src/blockchain.rs:675-696 | every transfer applied in order with the saturating fee total, or false where the node aborts because one was skipped |
| Chain.Blockchain.ShareFees | lootcoin-node/src/blockchain.rs:697-703 | half of the fees, rounded down, leaves the pot for the miner when there is one |
| Chain.Blockchain.StampBlock | lootcoin-node/src/blockchain.rs:737-794 | a block that opens with a coinbase and holds a transfer earns the coinbase's receiver a ticket, and the work grows by two to the whole bits of the difficulty |
| Chain.Blockchain.AdjustDifficulty | lootcoin-node/src/blockchain.rs:758-794 | block 1 becomes the anchor; from then on the difficulty is within 1e-9 of the anchor's plus the 3600th part of a bit for every second ahead of one block a minute, within 8 and 127 bits; a chain anchored below 8 bits never adjusts |
| Chain.Blockchain.MoveCoins | lootcoin-node/src/blockchain.rs:616-731 | settlement, transactions and fee split yield the specified ledger, or false exactly where one of the two aborts is reached |
| Chain.Blockchain.UpdateState | lootcoin-node/src/blockchain.rs:481-797 | the verdict is that of the validity rules; a refused block changes nothing; an accepted one appends itself and its effect, and keeps the node consistent with the replay of its chain |
| Conservation.PreValidationSuffices | lootcoin-node/src/blockchain.rs:572-731 | a block that passes the checks, with room for its coinbase, reaches neither abort; every balance, the pot, the signatures and the supply change by exactly what the block says, so nothing is lost to wrap-around or saturation |
| Conservation.ApplyAllApplies | lootcoin-node/src/blockchain.rs:671-696 | every pre-validated transfer applies, even after settlement has credited some senders |
| Conservation.SettleAllMoves | lootcoin-node/src/blockchain.rs:643-665 | settlement only moves coins from the pot to the winners |
| Conservation.SplitFeesMoves | lootcoin-node/src/blockchain.rs:697-703 | the fee split moves the miner half out of the pot and changes no total |
| Conservation.NoRoomAborts | lootcoin-node/src/blockchain.rs:717-731 | minting one coin to an account that holds 2^64-1 wraps it to zero, and the conservation check aborts |
| Room.AbortsExactly | lootcoin-node/src/blockchain.rs:643-731 | for every block that passed the checks, whatever the supply: the node aborts exactly when, in exact arithmetic, a prize winner, the receiver of a transaction when it is paid, the pot, or the miner would hold more than 2^64-1; and what does not abort is booked to the coin |
| Room.SettleLoses | lootcoin-node/src/blockchain.rs:643-665 | settlement loses coins exactly when a winner overflows, and never gains any |
| Room.LoopLoses | lootcoin-node/src/blockchain.rs:671-696 | the transaction loop books pre-validated transactions exactly when they fit; else it stops short or the supply falls |
| Replay.WindowSuffices | lootcoin-node/src/blockchain.rs:8-15 | on the pruned window every verdict and every effect is that of the whole chain |
| Replay.EntropyAgrees | lootcoin-node/src/blockchain.rs:422-451 | a ticket that settles now finds every hash of its reveal window still cached, so pruning changes no draw |
| Replay.EntropyIsWindow | lootcoin-node/src/blockchain.rs:446-452 | a draw is over the concatenated hashes of the hundred blocks from the ticket's own on, none of them the settling block's |
| Replay.GenesisCredits | lootcoin-node/src/blockchain.rs:196-200 | genesis credits every receiver exactly what it is sent |
| Replay.MedianAgrees | lootcoin-node/src/blockchain.rs:501-518 | pruning changes no Median Time Past |
| Replay.SupplyIsGenesisPlusMinted | lootcoin-node/src/blockchain.rs:708-731 | on every valid chain the supply is that of genesis plus the coinbases minted since |
| Replay.NeverAborts | lootcoin-node/src/blockchain.rs:687-731 | on every valid chain with room in the supply a block is accepted exactly when it is admissible: both aborts are dead code |
| Replay.AcceptsExactly | lootcoin-node/src/blockchain.rs:481-731 | a block is accepted exactly when it is admissible and nothing it credits overflows |
| Replay.StepBooked | lootcoin-node/src/blockchain.rs:616-731 | each block of a valid chain is booked to the coin, for every address, without any assumption on the supply |
| Replay.BalanceIsStatement | lootcoin-node/src/blockchain.rs:390-409 | on every valid chain a balance is the account statement read off it: genesis credit plus prizes, receipts and fee shares, minus everything spent |
| Replay.StepRecords | lootcoin-node/src/blockchain.rs:737-794 | what a block does to signatures, tickets, difficulty, anchor and work does not depend on how coins move |
| Replay.ConfirmedIsChainSignatures | lootcoin-node/src/blockchain.rs:390-409 | the confirmed signatures are exactly the transfer signatures of the canonical chain |
| Replay.NoTransferTwice | lootcoin-node/src/blockchain.rs:597-602 | no transfer occurs twice on a valid chain, neither in two blocks nor in one |
| AccountBook.PendingTickets | lootcoin-node/src/blockchain.rs:740-748 | pending on a valid chain is exactly one ticket for each block of the last hundred that opens with a coinbase and holds a transfer, in the name of the coinbase's receiver |
| AccountBook.PayoutIsLot | lootcoin-node/src/blockchain.rs:422-465 | block n of a valid chain pays what the ticket of block n-100 won and nothing else: the lot is the digest of the hashes of blocks n-100 to n-1, the height and the miner, in a million; by 620000, 982500, 999200 and 999900 it wins nothing, or a 400000th, 30000th, 2000th or 500th of the pot, for the receiver of that block's coinbase |
| AccountBook.HashBytesSplits | lootcoin-node/src/blockchain.rs:446-452 | the hashes are put one after the other |
| AccountBook.GenesisIsBooked | lootcoin-node/src/blockchain.rs:175-203 | after genesis everybody holds what genesis sends them, the pot is the configured one, and nothing is pending or confirmed |
| AccountBook.BlockIsBooked | lootcoin-node/src/blockchain.rs:390-409 | what every block of a valid chain does to every balance and to the pot: the win goes to its winner, amounts from senders to receivers, fees from senders to the pot, half of them on to the receiver of the coinbase; nothing else moves |
| AccountBook.ConfirmedOnChain | lootcoin-node/src/blockchain.rs:390-409 | a signature is confirmed exactly when a transfer above genesis carries it |
| BlockRules.EveryBlockObeys | lootcoin-node/src/blockchain.rs:481-614 | every block of a valid chain names its height, predecessor, contents and own hash, meets the difficulty, is later than more than half of the last eleven, holds at most 240 transfers and a coinbase only in front, and every transfer in it is signed, new, pays two coins or more of fee, goes to a real address, and is covered by what its sender had |
| BlockRules.NextBlockExactly | lootcoin-node/src/blockchain.rs:481-731 | with room in the supply a block makes a valid chain longer exactly when it meets these rules |
| BlockRules.ReplayCompletes | lootcoin-node/src/blockchain.rs:1062-1075 | a replay completes exactly when its list is a valid chain and no block is dated more than 120 seconds after the clock at its turn |
| BlockRules.HashFixesBlock | lootcoin-node/src/blockchain.rs:481-570 | above genesis a hash fixes its block, transactions included, on whatever valid chain it stands, as far as no two lists of transactions share a root |
| BlockRules.TipFixesChain | lootcoin-node/src/blockchain.rs:481-570 | valid chains on one genesis block that end in the same hash are the same chain |
| Lottery.Odds | WHITEPAPER.md:251-257 | of a million buckets 620000 draw nothing, 362500 the small prize, 16700 the medium, 700 the large and 100 the jackpot |
| Lottery.ExpectedDrain | WHITEPAPER.md:263-266 | over the million buckets a ticket drains two millionths of the pot: at most 2.013, and at least 2.012 less the rounding |
| Lottery.PendingIsEarned | lootcoin-node/src/blockchain.rs:620-634 | the pending list is the tickets earned by the last hundred blocks, in order |
| Lottery.PendingIsBounded | lootcoin-node/src/blockchain.rs:740-748 | at most one hundred pending tickets, of strictly increasing heights, all from the last hundred blocks |
| Lottery.SettledExactlyOnce | lootcoin-node/src/blockchain.rs:623-633 | block n settles the ticket of block n-100 and no other, so each ticket settles exactly once, at its height plus 100, and no block settles two |
| Lottery.OnePayoutAtMost | lootcoin-node/src/blockchain.rs:643-669 | no block pays more than one prize |
| Lottery.PotNeverDrains | lootcoin-node/src/blockchain.rs:644-702 | after n blocks 500^n times the pot is at least 499^n times its seed, and a pot that started positive stays positive |
| MedianTime.MedianByCounting | lootcoin-node/src/blockchain.rs:503-518 | the median is below x exactly when more than half of the recent timestamps are |
| MedianTime.MedianMonotone | lootcoin-node/src/blockchain.rs:501-518 | Median Time Past never decreases along an accepted chain |
| MedianTime.SixBlocksRaiseMedian | lootcoin-node/src/blockchain.rs:501-518 | six further blocks strictly raise the median once the window is full |
| MedianTime.LaterThanAnchor | lootcoin-node/src/blockchain.rs:772-783 | every block after block 1 is later than the ASERT anchor, so the timestamp subtraction never saturates |
| AsertSchedule.AnchorIsBlockOne | lootcoin-node/src/blockchain.rs:772-774 | every chain is anchored at its block 1 with the initial difficulty |
| AsertSchedule.DifficultyFollowsSchedule | lootcoin-node/src/blockchain.rs:758-794 | whatever adjustments were made or skipped, the difficulty lies in [8, 127] and within 1e-9 of the closed form at the tip |
| AsertSchedule.AdjustsBySeconds | lootcoin-node/src/blockchain.rs:758-785 | an adjustment adds the 3600th part of a bit for every second the chain is ahead of one block a minute since the anchor, and takes it for every second behind, within 8 and 127 bits |
| AsertSchedule.AdjustsAtTheEdges | lootcoin-node/src/blockchain.rs:758-785 | the same of every input: a timestamp before the anchor's counts as the anchor's, and the product of blocks and spacing wraps at 2^64 |
| AsertSchedule.ScheduleFalls | lootcoin-node/src/blockchain.rs:758-785 | a later block never gets a higher difficulty |
| AsertSchedule.DifficultyIsExact | lootcoin-node/src/blockchain.rs:758-794 | read off the timestamps of block 1 and the tip: the difficulty is the initial one plus the 3600th part of a bit for every second ahead, within 8 and 127 bits, to within 1e-9 |
| AsertSchedule.HeldTo | lootcoin-node/src/blockchain.rs:837-874 | the difficulty a block is held to before its replay: the schedule at its predecessor, by the height it claims, if that is 2 or more, the predecessor is in sight and the chain adjusts; the tip's in all other cases |
| AsertSchedule.WorkIsHashesDue | lootcoin-node/src/blockchain.rs:750-756 | chain work is the sum over all blocks of two to the whole bits of the difficulty each had to meet, capped at a u128 |
| AsertSchedule.WorkGrows | lootcoin-node/src/blockchain.rs:750-756 | every block adds at least 2^8 to it |
| AsertSchedule.LowDifficultyIsFixed | lootcoin-node/src/blockchain.rs:776-780 | a chain started below the minimum difficulty never adjusts it |
| AsertSchedule.ExpectedIsRequired | lootcoin-node/src/blockchain.rs:852-874 | the difficulty a block on a fork is held to is within 1e-9 of what its replay will demand; only what is below the block need be valid |
| Forks.PredecessorFound | lootcoin-node/src/blockchain.rs:823-835 | for a block linked to a fork in memory, good or bad, the looked-up timestamp is that of the right predecessor, whether in the window or in the pool |
| Forks.OrphanIsJudgedFairly | lootcoin-node/src/blockchain.rs:837-874 | the node holds a block linked to a fork above block 1 to the difficulty its own replay will demand, to within 1e-9, before anything is known of the block or of those after it |
| Forks.ForkBlockIsPlausible | lootcoin-node/src/blockchain.rs:837-886 | of the blocks so linked that have their own hash, a height in reach and no more transfers than allowed, the node keeps each that beats the difficulty its replay will demand by 1e-9, and none that misses it by more; what lacks one of these it never keeps |
| Forks.StrangerIsHeldToTip | lootcoin-node/src/blockchain.rs:837-886 | a block whose predecessor is neither in the window nor pooled is kept exactly when it fits and meets the difficulty at the tip |
| Chain.Blockchain.BlockWork | lootcoin-node/src/blockchain.rs:805-816 | two to the number of leading zero bits, capped |
| ForkChoice.LeadingZerosMeaning | lootcoin-node/src/blockchain.rs:805-816 | the bit count places the hash, as a big-endian number, between two consecutive powers of two |
| ForkChoice.WorkMeaning | lootcoin-node/src/blockchain.rs:805-816 | a block counts for the power of two by which its hash, read as a number, can be doubled within 256 bits, and for the most a u128 holds below 2^128 |
| ForkChoice.WorkAppend | lootcoin-node/src/blockchain.rs:956-960 | and the work of a run of blocks is the sum of that of its parts |
| Chain.Blockchain.SumWork | lootcoin-node/src/blockchain.rs:956-960 | the saturating sum of block work |
| ForkChoice.SaturationIsSafe | lootcoin-node/src/blockchain.rs:984-999 | a fork that compares as heavier after saturation is heavier |
| ForkChoice.WindowComparison | lootcoin-node/src/blockchain.rs:976-983 | the comparison inside the window is about the true work above the ancestor |
| ForkChoice.DeepComparison | lootcoin-node/src/blockchain.rs:984-999 | so is the two-part comparison for an ancestor before the window |
| ForkChoice.SpliceGains | lootcoin-node/src/blockchain.rs:1141-1166 | replacing what lies above the ancestor by a heavier fork makes the whole chain heavier |
| ForkChoice.HashesDiffer | lootcoin-node/src/blockchain.rs:733-735 | no hash occurs twice on a valid chain |
| ForkChoice.CanonicalForkLoses | lootcoin-node/src/blockchain.rs:956-1008 | a fork of blocks that are canonical already never outweighs the main chain above its ancestor |
| ForkChoice.TraceIsUnique | lootcoin-node/src/blockchain.rs:888-901 | following previous-hash links from a tip has one result |
| Forks.CanonicalForkNeverWins | lootcoin-node/src/blockchain.rs:903-1019 | the search never selects a fork made only of canonical blocks |
| Chain.Blockchain.TraceForkChain | lootcoin-node/src/blockchain.rs:888-901 | collects the maximal linked run of pooled blocks below a tip, oldest first, and terminates |
| Chain.Blockchain.AssessFork | lootcoin-node/src/blockchain.rs:930-1008 | where a fork attaches, exactly when it outweighs the main chain from there |
| Chain.Blockchain.FindLongestFork | lootcoin-node/src/blockchain.rs:903-1019 | the selected fork is a whole trace up to a tip nothing builds on, it outweighs the main chain, and none that does is heavier |
| Chain.Blockchain.OutweighsIsHeavier | lootcoin-node/src/blockchain.rs:930-1008 | while storage holds the chain, the two comparisons are one: more work than all that lies above the canonical parent |
| Chain.Blockchain.FoundIsHeaviest | lootcoin-node/src/blockchain.rs:903-1019 | the search returns a heaviest candidate of chain and pool, and nothing exactly when there is no candidate |
| Chain.Blockchain.ForkGains | lootcoin-node/src/blockchain.rs:976-1008 | a selected fork attaches to the canonical chain and has strictly more work than what lies above that point |
| Consistency.AppendConsistent | lootcoin-node/src/blockchain.rs:733-735 | an accepted block keeps window, hash index, pool, pending payouts and derived state those of the longer chain |
| Consistency.PruneConsistent | lootcoin-node/src/blockchain.rs:343-353 | pruning keeps all of it |
| Consistency.AdmissionKeepsBounds | lootcoin-node/src/blockchain.rs:1106-1139 | admission with its two evictions keeps the pool within its global and per-height limits |
| Consistency.AdmissionEvicts | lootcoin-node/src/blockchain.rs:1106-1139 | a newcomer costs at most two orphans: a pool of thirty gives up one that no other is lower than, three at the newcomer's height the one with the smallest hash; otherwise nothing leaves |
| Chain.Blockchain.constructor | lootcoin-node/src/blockchain.rs:175-203 | a new node is consistent with the chain that is genesis alone |
| Chain.Blockchain.SeedPot | lootcoin-node/src/blockchain.rs:336-339 | seeding the pot keeps that |
| Chain.Blockchain.PruneToWindow | lootcoin-node/src/blockchain.rs:343-353 | exactly the blocks before the last hundred go, with their hashes and payouts; nothing else the node derives changes, and a consistent node stays so |
| Chain.Blockchain.DrainPayoutsForBlock | lootcoin-node/src/blockchain.rs:357-362 | hands over the payouts of one block once |
| Chain.Blockchain.TimeIsSeen | lootcoin-node/src/blockchain.rs:823-835 | the lookup through hash index and pool finds exactly the timestamp behind a hash of the last hundred canonical blocks, else of the pool |
| Chain.Blockchain.EvictLowest | lootcoin-node/src/blockchain.rs:1106-1117 | a full pool loses one orphan of the lowest height |
| Chain.Blockchain.EvictAtHeight | lootcoin-node/src/blockchain.rs:1119-1137 | a full height loses its orphan with the smallest hash |
| Chain.Blockchain.AdmitOrphan | lootcoin-node/src/blockchain.rs:1106-1139 | the orphan enters after at most those two evictions |
| Decisions.AdoptsExactly | lootcoin-node/src/blockchain.rs:1062-1075 | the replay of any list completes exactly when the list is a valid chain and no block is dated more than 120 seconds after the clock when its turn comes |
| Decisions.AcceptedIsValid | lootcoin-node/src/blockchain.rs:1062-1075 | what a replay has accepted when it stops is a valid chain |
| Verdicts.AcceptedIsLongest | lootcoin-node/src/blockchain.rs:1062-1075 | what a replay accepts is the longest beginning of its list that is a valid chain with every block dated in time |
| Decisions.RoomyNeverDies | lootcoin-node/src/blockchain.rs:687-731 | with room in the supply for its blocks, no list of blocks kills the node that replays it |
| Decisions.TraceFits | lootcoin-node/src/blockchain.rs:888-901 | a fork traced through the pool is no longer than the pool, since no hash repeats on it |
| Chain.Blockchain.ReplayAll | lootcoin-node/src/blockchain.rs:1062-1075 | the replay ends on exactly the prefix of the list accepted one block after the other, or kills the node exactly when the block it stops at aborts |
| Chain.Blockchain.ReorgTo | lootcoin-node/src/blockchain.rs:1027-1076 | the node ends as the replay of the stored prefix plus the given blocks, as far as it is acceptable; it is killed exactly when that replay aborts; unreadable history leaves it untouched |
| Chain.Blockchain.SwitchTo | lootcoin-node/src/blockchain.rs:1141-1171 | what is displaced, what is aimed at, and where the node ends; with storage holding the chain the aim is the branch at the ancestor |
| Chain.Blockchain.ApplyInMemory | lootcoin-node/src/blockchain.rs:1088-1174 | while storage holds the chain the node makes the move chain and pool call for: extend, refuse, keep the orphan exactly when nothing outweighs the chain, or switch to a heaviest fork; and it is killed only where a replay aborts, which room in the supply rules out |
| Chain.Blockchain.ApplyBlock | lootcoin-node/src/blockchain.rs:1177-1272 | live equals replay after every block; the move and where it leads are those of the chain and pool before; the tables stay those of the chain exactly when a switch adopted its whole fork and displaced a block of the window or did not shorten the chain |
| Decisions.MoveKeepsValid | lootcoin-node/src/blockchain.rs:1088-1174 | every move leaves a valid chain; a switch that adopts its whole fork gains work, even onto a shorter chain, and a move that keeps the tables loses none |
| Decisions.RoomKeepsAlive | lootcoin-node/src/blockchain.rs:687-731 | with room in the supply for the chain and a full pool, no move is fatal |
| Verdicts.MoveIsDecided | lootcoin-node/src/blockchain.rs:1088-1174 | while storage holds the chain and the supply has room: a block that meets the rules and is dated in time extends the chain; one at the tip or that may not wait changes nothing; any other waits, and if some run of orphans on a canonical block then carries more work than all above that block, the strongest such run is replayed, as far as it is acceptable |
| Decisions.ForkShape | lootcoin-node/src/blockchain.rs:888-901 | a chosen fork is at most 30 blocks, linked and properly hashed, on a canonical block, and heavier than what lies above it |
| Decisions.ShortOfTip | lootcoin-node/src/blockchain.rs:1062-1075 | a replay that stops short holds the tip of its fork nowhere |
| Forks.MisnumberedChildIsSelected | lootcoin-node/src/blockchain.rs:1088-1174 | whatever the chain and the pool, a block on the tip that passes the orphan rules, claims another height than the next and is kept as a run of its own is a candidate; when no candidate is heavier it may be selected, and then its replay refuses it and leaves the tables wrong |
| Forks.LoneMisnumberedChild | lootcoin-node/src/blockchain.rs:1088-1174 | with an empty pool that is what happens to every such block |
| Forks.MisnumberedChildIsWritten | lootcoin-node/src/blockchain.rs:1243-1264 | the block table is then that of the chain with the stray block at the height it claims, and so not that of the chain, whatever the pool |
| Forks.StrayStays | lootcoin-node/src/db.rs:186-240 | no number of blocks appended later mends it, for a height below the tip |
| Forks.StrayIsReplayed | lootcoin-node/src/blockchain.rs:1027-1041 | once the window starts above that height, what a reorganisation inside the window replays is the branch with the stray block read back in its place |
| Forks.StrayBlockCutsChain | lootcoin-node/src/blockchain.rs:1062-1075 | and that replay stops there: the node ends on a prefix of the chain below the claimed height, whatever the fork |
| Forks.MisnumberedChildCutsLater | lootcoin-node/src/blockchain.rs:1027-1075 | so from such a block and any valid continuation of the chain on, every reorganisation inside the window cuts the chain to the height the block claimed |
| Forks.LowHeightIsCheap | lootcoin-node/src/blockchain.rs:852-874 | such a block that claims height 2 is held to the minimum difficulty only, once the tip is late enough after the anchor |
| Witnesses.MisnumberedExists | lootcoin-node/src/blockchain.rs:876-886 | there is such a block, meeting a difficulty test by leading zero bits and passing the handler's checks too, on a chain that is genesis alone, for every initial difficulty a node can be given |
| Witnesses.LuckyBlockShortens | lootcoin-node/src/blockchain.rs:969-999 | under a difficulty test by leading zero bits and for every initial difficulty a node can be given: on a chain of 103 to 257 empty blocks of 32 zero bits each a block hung off its second one exists that passes all checks and outweighs all above it; the switch is adopted whole, ends on three blocks with more work than before, and leaves stale blocks stored |
| Forks.SameChainSameState | lootcoin-node/src/blockchain.rs:481-797 | two nodes with the same canonical chain hold the same derived state, however they got there |
| Tables.KeyParts | lootcoin-node/src/db.rs:56-62 | a key spells out its address, height and position |
| Tables.KeyInjective | lootcoin-node/src/db.rs:56-62 | different addresses or places have different keys |
| Tables.IndexAtHeight | lootcoin-node/src/db.rs:205-236 | at each height the index holds that block's entries and nothing else |
| Tables.ReorgReplaces | lootcoin-node/src/db.rs:350-437 | taking out displaced blocks and adding the new ones gives the tables of the new chain, longer or shorter |
| Tables.RebuildFromChain | lootcoin-node/src/db.rs:288-345 | rebuilding from nothing gives the tables that appending had maintained |
| Tables.RebuildInAnyOrder | lootcoin-node/src/db.rs:442-513 | so does a rebuild that writes the payouts after all blocks and in any order |
| Tables.OverwriteKeepsStaleTail | lootcoin-node/src/db.rs:111-120 | writing a branch over an old block table gives the branch exactly when it is no shorter |
| Tables.ChainListsBack | lootcoin-node/src/db.rs:141-150 | listing the block table in index order gives the chain back |
| Tables.TicketsListBack | lootcoin-node/src/db.rs:578-591 | tickets saved under their heights load back as the same list |
| History.KeyOrder | lootcoin-node/src/db.rs:56-62 | byte order of one address's keys is the order of height and position |
| History.RangeIsAddress | lootcoin-node/src/db.rs:246-262 | the range from address,0 to address,1 holds exactly that address's keys |
| History.HistoryOrdered | lootcoin-node/src/db.rs:228-236 | within a block transactions come first in their order and lottery entries last |
| History.HistoryExact | lootcoin-node/src/db.rs:160-236 | the history has an entry exactly for each transaction the address sends or receives and each prize it is paid, with its sender, receiver, amount, fee and id |
| History.ScanIsHistory | lootcoin-node/src/db.rs:246-283 | scanning the range yields the history, entry by entry |
| History.PagesCover | lootcoin-node/src/db.rs:246-283 | consecutive pages give the listing once, with nothing repeated or missed |
| Database.PageShows | lootcoin-node/src/db.rs:246-283 | a page of the history read backwards shows the newest entries first, field by field |
| Database.Db.SaveBlockIndexed | lootcoin-node/src/db.rs:111-120 | the block is stored under its index, or nothing changes |
| Database.Db.GetBlocksRange | lootcoin-node/src/db.rs:123-137 | the stored blocks of the range, in order |
| Database.Db.LoadCanonicalChain | lootcoin-node/src/db.rs:141-150 | the chain the block table holds |
| Database.Db.LoadTickets | lootcoin-node/src/db.rs:578-591 | the ticket list that was saved |
| Database.Db.SaveAppliedBlock | lootcoin-node/src/db.rs:186-240 | one block added to every table and the tickets replaced, or nothing changes |
| Database.Db.ApplyReorgIncremental | lootcoin-node/src/db.rs:350-437 | the displaced blocks out, the new ones in, the tickets replaced, or nothing changes |
| Database.Db.RebuildTxIndex | lootcoin-node/src/db.rs:288-345 | index and payouts as if every block had been added in turn |
| Database.Db.RebuildIndicesWithTickets | lootcoin-node/src/db.rs:442-513 | the specified tables of whatever chain the block table holds |
| Database.Db.GetTransactionsForAddress | lootcoin-node/src/db.rs:246-283 | of everything that involves the address, newest first, the records from the offset on, up to the limit: sender, receiver, amount, fee and id of the transaction, or of the prize |
| History.KeysHoldHeights | lootcoin-node/src/db.rs:266-275 | on an index of clean blocks every key in the range is long enough for its height to be read |
| Persistence.AppendSync | lootcoin-node/src/db.rs:186-240 | saving an applied block turns the specified tables of the chain into those of the longer chain |
| Persistence.ReorgSync | lootcoin-node/src/db.rs:350-437 | the incremental reorg turns them into those of the branch |
| Persistence.DeepSync | lootcoin-node/src/blockchain.rs:1243-1264 | the deep path gives those of the branch if and only if it is no shorter than the old chain |
| Persistence.ValidFits | lootcoin-node/src/db.rs:228-236 | on a valid chain transaction and lottery positions never collide |
| Chain.Blockchain.PersistApplied | lootcoin-node/src/blockchain.rs:1181-1188 | an appended block leaves the database in step |
| Chain.Blockchain.PersistReorg | lootcoin-node/src/blockchain.rs:1220-1242 | so does a reorg within the window |
| Chain.Blockchain.PersistDeep | lootcoin-node/src/blockchain.rs:1243-1264 | a reorg with nothing displaced does if and only if the chain did not get shorter |
| Startup.NextIsAccepted | lootcoin-node/src/main.rs:620-645 | a node that has replayed part of a valid chain accepts its next block when the clock allows |
| Startup.ReplayStored | lootcoin-node/src/main.rs:620-645 | the replay loop ends on the stored chain, if that is valid and no block is ahead of the clock |
| Startup.RebuildRestores | lootcoin-node/src/db.rs:288-345 | whatever index and payouts held, rebuilding them from the replayed chain gives the specified tables |
| Startup.Reindex | lootcoin-node/src/main.rs:646-671 | from blocks and tickets of the chain alone, rebuilding, pruning and restoring the tickets bring node and database in step |
| Startup.Boot | lootcoin-node/src/main.rs:456-671 | from the stored blocks and tickets of a valid chain, or from an empty database and the genesis block, the program comes up in step on the derived state of that chain |
| Chain.Blockchain.RestoreFromCheckpoint | lootcoin-node/src/blockchain.rs:310-332 | the captured state over a window of the checkpoint block alone, with an empty hash index, pool and payout list |
| Checkpoint.CheckpointEquivalence | lootcoin-node/src/blockchain.rs:302-332 | snapshot, restore and replay of a tail give the derived state of never restarting, when the tail settles no ticket from before the checkpoint |
| Checkpoint.TruncatedReveal | lootcoin-node/src/blockchain.rs:422-451 | a reveal window that reaches below the checkpoint loses exactly the hashes before it |
| Checkpoint.RestoredRecords | lootcoin-node/src/blockchain.rs:737-794 | even when the tail settles older tickets, as long as it does not abort the restored node has the confirmed signatures, pending tickets, difficulty, anchor, work and total supply of never restarting; only the spread of the supply over balances and pot can differ |
| Checkpoint.SnapshotIsResumable | lootcoin-node/src/blockchain.rs:288-300 | what a running node captures at a height of the chain is a checkpoint the restart can go on from |
| Checkpoint.RestoredJudges | lootcoin-node/src/blockchain.rs:481-797 | whatever block comes at the next height, a restored node judges it as the network does but for the medians: it accepts the block, dated after the median of the network, exactly when the network accepts it, dated after the median of the restored node |
| Checkpoint.RestoredParts | lootcoin-node/src/blockchain.rs:501-518 | of a block that is right but for its date, the restored node takes exactly those later than the median of the blocks it kept, the network those later than its own |
| Checkpoint.RestoredAccepts | lootcoin-node/src/blockchain.rs:501-518 | a restored node accepts the next block of the chain exactly when it is later than the median of the few blocks it kept |
| Checkpoint.RestoredAcceptsLater | lootcoin-node/src/blockchain.rs:501-518 | from the eleventh kept block on it accepts what the other node accepts |
| Witnesses.ShortWindowIsStricter | lootcoin-node/src/blockchain.rs:316-320 | before that it can refuse one: five blocks dated 0, 10, 20, 30 and 25 are a valid chain whose last block a node restored at the one before it refuses |
| Witnesses.ShortWindowIsLaxer | lootcoin-node/src/blockchain.rs:316-320 | and it can take one the network refuses: after fifteen blocks dated 0 to 6, five times 100, 10, 11 and 12, a node restored at the block dated 10 accepts a further one dated 12 |
| Checkpoint.ReplayTail | lootcoin-node/src/main.rs:586-598 | on a checkpoint of a valid chain the tail goes through up to the first block that is ahead of the clock or not later than the median of the blocks kept so far, and every block after that is refused; the node ends there with the window and derived state it would have without the restart |
| Checkpoint.RestHangsNowhere | lootcoin-node/src/blockchain.rs:930-955 | the blocks after a refused one refer to no block the window indexes |
| Checkpoint.GapIsGone | lootcoin-node/src/blockchain.rs:310-332 | once the checkpoint block has left the window the hash index names exactly the blocks of the window |
| Checkpoint.Resume | lootcoin-node/src/main.rs:550-671 | a tail of any length leaves the restarted node with the chain, derived state and tables of no restart and with what there is of the last hundred blocks; after a tail of at least a hundred it is indistinguishable from one that replayed the whole chain |
| TxPool.Mempool.PendingCount | lootcoin-node/src/mempool.rs:64-69 | the number of entries with that sender |
| TxPool.Mempool.PendingDebit | lootcoin-node/src/mempool.rs:72-78 | the sum of amount plus fee, each capped, over the entries with that sender, capped |
| TxPool.Mempool.AddTransaction | lootcoin-node/src/mempool.rs:82-112 | admitted exactly when it is no coinbase, new, and within both limits; the limits keep holding |
| TxPool.Mempool.RemoveIncluded | lootcoin-node/src/mempool.rs:115-133 | exactly the confirmed signatures leave |
| TxPool.Mempool.EvictExpired | lootcoin-node/src/mempool.rs:137-152 | exactly the entries more than one hundred blocks old leave |
| TxPool.Mempool.ReaddDisplaced | lootcoin-node/src/mempool.rs:166-205 | each displaced transfer in turn re-enters when it fits and is affordable |
| TxPool.Mempool.Restore | lootcoin-node/src/mempool.rs:37-56 | each stored entry in turn enters when it fits |
| TxPool.ReaddedIsRegained | lootcoin-node/src/mempool.rs:166-205 | re-adding only adds displaced transfers, keeps the limits, and leaves every solvent sender solvent under the new balances |
| Readmission.ReaddedRefills | lootcoin-node/src/mempool.rs:166-205 | of displaced transfers with distinct signatures each comes back exactly when there is room for it, beside what was pending and what of the earlier ones came back: fewer than 25 of its sender, fewer than ten thousand in all, and a balance that covers what is owed and this |
| Readmission.RoomBringsBack | lootcoin-node/src/mempool.rs:166-205 | all that a sender had displaced comes back when there is room for all it has pending and all of that |
| TxPool.RestoredIsDump | lootcoin-node/src/mempool.rs:37-56 | restoring what was dumped from a pool within its limits drops nothing |
| TxPool.RestoredKeeps | lootcoin-node/src/mempool.rs:37-56 | restoring keeps the limits and holds nothing that was not stored |
| TxPool.SpentWasPending | lootcoin-node/src/mempool.rs:72-78 | what a sender spends in a block of its pending transfers stops being pending |
| TxPool.PoolIsValidExactly | lootcoin-node/src/blockchain.rs:572-614 | every duplicate-free selection of admitted transfers, in any order, passes the pre-validation loop exactly when the balance of every sender in the pool covers all it has pending |
| TxPool.SolventIsCovered | lootcoin-node/src/mempool.rs:72-78 | for a sender the pool takes for solvent that is so exactly when its balance is below 2^64-1, or its debt and each of its costs fit in a u64 |
| TxPool.SolventPoolIsValid | lootcoin-node/src/blockchain.rs:572-614 | so with a supply below 2^64-1 the saturating test of the pool is enough |
| TxPool.SaturationHidesDebt | lootcoin-node/src/mempool.rs:72-78 | at a balance of 2^64 - 1 the saturating sum hides a debt the block rules refuse |
| TxPool.AdmissionKeepsSolvent | lootcoin-node/src/api.rs:382-403 | an affordable admission leaves every solvent sender solvent |
| TxPool.DroppingKeepsSolvent | lootcoin-node/src/mempool.rs:137-152 | so does dropping entries |
| TxPool.BlockKeepsSolvent | lootcoin-node/src/api.rs:310-317 | so does applying a block all of whose transfers from that sender were pending |
| Miner.EligibleIffPaidFor | lootcoin-miner/src/main.rs:31-42 | a transfer with a fee is eligible exactly when its fee times (age + 2) exceeds 120, and in any case from age 119 on |
| Miner.SelectTransactions | lootcoin-miner/src/main.rs:395-410 | with at most 240 pending all of them; otherwise as many as fit of those whose fee times (age + 2) exceeds 120, and none left out pays more than one taken; highest fee first, those of equal fee in pool order |
| Miner.ByFeeSorts | lootcoin-miner/src/main.rs:399-401 | the sort is a permutation with descending fees |
| Miner.SortArranges | lootcoin-miner/src/main.rs:399-401 | and keeps the order among equals |
| Miner.ChosenIsSelected | lootcoin-miner/src/main.rs:395-410 | the selection is duplicate-free, from the pool, and fits a block |
| Miner.ChosenPaysBest | lootcoin-miner/src/main.rs:403-410 | nothing left out pays more than anything taken, and nothing is left out while there is room |
| Miner.MinedBlockIsAdmissible | lootcoin-miner/src/main.rs:395-410 | from a solvent pool the miner always builds a block that is admitted and processed, given a right header and coinbase |
| Node.Node.ValidateTransactionState | lootcoin-node/src/blockchain.rs:369-380 | a signed transfer to a real address that passes is a valid block of its own unless its cost overflows, and one that fails is in no valid block |
| Node.Node.AdmitTx | lootcoin-node/src/api.rs:367-407 | a transfer enters the pool exactly when it is signed, goes from one address to another real one, pays two coins of fee or more, is neither confirmed nor pending, and there is room for it; the pool stays sendable |
| Node.Node.ApplyIncomingBlock | lootcoin-node/src/api.rs:260-360 | a block that fails the first checks changes nothing; any other leads where its move says, with the pool that follows from it, exactly; no pooled transfer is ever confirmed; a sender whose transfers in the block were pending stays solvent |
| Node.Node.SettleReorged | lootcoin-node/src/api.rs:323-345 | the displaced transactions come back in their order as far as there is room; then exactly what the new blocks include and what is more than a hundred blocks old leaves; nothing left is confirmed by the new chain |
| Node.Node.RestorePool | lootcoin-node/src/main.rs:723-747 | of a pool persisted whole exactly that comes back which is not confirmed and at most a hundred blocks old |
| Node.Node.Serve | lootcoin-node/src/api.rs:260-407 | over any sequence of incoming blocks and transactions at any clock readings the node goes through a run: every moment follows from the one before by its event, the derived state is the replay of the canonical chain, and while every move keeps the tables no pooled transfer is confirmed; it is killed only by an event that is fatal at that moment |
| Node.StepGrows | lootcoin-node/src/api.rs:260-407 | one event in step adds at most 30 blocks on the same genesis block and loses no work |
| Node.RunGrows | lootcoin-node/src/api.rs:260-407 | along a run in step the work on the canonical chain never falls |
| Node.RunSurvives | lootcoin-node/src/blockchain.rs:687-731 | a run in step with room in the supply for 30 blocks an event meets no event that kills the node |
| Node.AbsentIsUnconfirmed | lootcoin-node/src/blockchain.rs:1045-1064 | a signature in neither the common prefix nor the fork is not confirmed after the switch, however far the replay got |
| Node.DisplacedIsSpendable | lootcoin-node/src/blockchain.rs:1045-1064 | a transfer displaced by a fork without it can be spent again |
| Node.PoolAfterReorg | lootcoin-node/src/api.rs:323-345 | after a switch every pooled transfer is sendable on the chain the replay ended on |
| Node.FilterPasses | lootcoin-node/src/api.rs:263-297 | the first checks pass exactly the blocks of the right shape that bear their own hash and open with a coinbase, so every block by the rules that has a miner |
| Node.PoolAfterOneMore | lootcoin-node/src/api.rs:310-317 | after an appended block the pool is what was pending, less what the block includes and what is more than a hundred blocks old |
| Node.PoolAfterSwitch | lootcoin-node/src/api.rs:323-345 | after a switch, wherever its replay ended, it is what was pending and what of the displaced transactions there is room for, less what the fork includes and what is more than a hundred blocks old |
| Node.PendingStays | lootcoin-node/src/api.rs:323-345 | a pending transfer in no block of the fork and at most a hundred blocks old stays |
| Node.DisplacedReturns | lootcoin-node/src/api.rs:323-334 | a transfer of a displaced block that is in no block of the fork is pending again, when there is room for all that its sender has pending and had displaced |
| Node.BlockIsDecided | lootcoin-node/src/api.rs:260-360 | in step and with room in the supply, one incoming block: of the wrong shape it changes nothing, otherwise chain, window, orphans and pool become what the rules, the clock and the strongest run of orphans decide |
| Node.TransferIsDecided | lootcoin-node/src/api.rs:367-407 | one incoming transfer joins the pool exactly when it could go into the next block and there is room for it; nothing else changes |
| CubeHash.RoundRefines | lootcoin-miner/kernels/cubehash_mine.cu:102-170 | on reversed words with the last swap pending, one kernel round is the ten-step round of the CubeHash specification (2.B.1) |
| CubeHash.OneBitSpreads | lootcoin-miner/kernels/cubehash_mine.cu:102-170 | one round takes the state whose only bit is the lowest of the first word to bits in eight words, as the ten steps of the CubeHash specification do |
| CubeHash.HalfRoundOne | lootcoin-miner/kernels/cubehash_mine.cu:102-135 | the in-place first half |
| CubeHash.HalfRoundTwo | lootcoin-miner/kernels/cubehash_mine.cu:137-169 | the in-place second half |
| CubeHash.CubehashRound | lootcoin-miner/kernels/cubehash_mine.cu:102-170 | one in-place round is one specified round of the state it stands for |
| CubeHash.CubehashRounds | lootcoin-miner/kernels/cubehash_mine.cu:173-178 | sixteen of them |
| CubeHash.AbsorbBlock | lootcoin-miner/kernels/cubehash_mine.cu:191-205 | xors a block into the first eight specified words, little-endian, and runs sixteen rounds |
| CubeHash.CubehashInit | lootcoin-miner/kernels/cubehash_mine.cu:214-223 | the specified initial state of CubeHash16+16/32+32-256 |
| CubeHash.ExtractHash | lootcoin-miner/kernels/cubehash_mine.cu:234-249 | the first 32 bytes of the specified state |
| CubeHash.Le32Bytes | lootcoin-miner/kernels/cubehash_mine.cu:47-53 | a loaded word has the bytes it was loaded from, in little-endian order |
| CubeHash.FourBlocks | lootcoin-miner/kernels/cubehash_mine.cu:270-279 | padding turns a 104-byte header into three blocks and a last one |
| CubeHash.Cubehash256Header | lootcoin-miner/kernels/cubehash_mine.cu:263-290 | the kernel computes the specified digest of every 104-byte header |
| Difficulty.MeetsDifficulty | lootcoin-miner/kernels/cubehash_mine.cu:60-83 | the byte loop answers exactly whether the hash, as a big-endian number, is below threshold times 256^(31-n); its fall-through is never reached |
| Difficulty.TargetIs | lootcoin-miner/kernels/cubehash_mine.cu:60-83 | for n bytes and r bits that comparison is with threshold times 256^(31-n): with a threshold of 2^(8-r) whether the hash is below 2^(256-8n-r), and with any within a bit below that between it and its half |
| Difficulty.Turn | lootcoin-miner/kernels/cubehash_mine.cu:74-81 | each byte decides the comparison or hands on the fraction times 256 |
| Difficulty.FractionShrinks | lootcoin-miner/kernels/cubehash_mine.cu:79-80 | each byte uses up eight fractional bits of the threshold |
| Difficulty.LeadingBytes | lootcoin-miner/kernels/cubehash_mine.cu:67-68 | leading zero bytes do not count, and a nonzero one settles the comparison |
| Wordcode.BechToBytes | lootcoin-web/wordcode.js:126-143 | null exactly without a separator or with a foreign character; otherwise the whole bytes of the 5-bit groups, in spite of the accumulator wrapping at 32 bits |
| Wordcode.WrappedByte | lootcoin-web/wordcode.js:131-140 | the wrapped accumulator still holds every byte that is read from it |
| Wordcode.GroupsInvert | lootcoin-web/wordcode.js:130-142 | regrouping bytes into zero-padded groups of five bits and back is the identity |
| Wordcode.AddressRoundTrip | lootcoin-web/wordcode.js:126-143 | every payload comes back out of every address that carries it, whatever the prefix and checksum |

## Left out

- HTTP handlers, SSE streaming, peer discovery, rate limiting, gossip and peer synchronisation: network plumbing.
- The faucet, wallet, web pages other than address decoding, scripts, metrics and logging.
- Ed25519, the bech32m checksum, `txid` and bincode: parts of the uninterpreted `Crypto` value or not needed.
- The table of checkpoints and the choice between checkpoint and full replay at startup: which of two proved paths is taken.
- The persisted mempool table, fee hints and `median_fee`: they would only add easy members.
- The nonce loops of the miner and the kernel's launch code: a search around the proved hash and difficulty test.
- `addressToWordcode`: table lookups in the decoded bytes.
- Rounding of `f64`: difficulties are reals, and the kernel's `pow` enters as a threshold between 1 and 256 with at most 52 fractional bits.
- Overflow of `now + 120`: the wall clock is unbounded.
- Checkpoint.CheckpointEquivalence: conditional on the tail settling no ticket from before the checkpoint, because the restored window holds no older hashes (`Checkpoint.TruncatedReveal`).
- Checkpoint.ReplayTail: the source may keep blocks after a refused one as orphans; the pool of a node in that state is not modelled (`Checkpoint.RestHangsNowhere`: they hang off no indexed block).
- Checkpoint.Resume: a tail of fewer than a hundred blocks leaves the checkpoint block in the window without its hash in the index, so of such a node `Valid()` is not claimed, only its chain, state, window and tables.
- Startup.Boot: says nothing about stored blocks that are not a valid chain, which the source does not promise to repair.
- Chain.Blockchain.ApplyBlock: of the tables after a reorganisation that the replay abandoned it only says that they are not those of the chain, because the source persists the whole fork all the same.
- Node.Node.Serve: the statements about tables, pool and supply end with the first move that does not keep the tables, for the same reason.
- Chain.Blockchain.TraceForkChain: prepends each parent, where the source appends and reverses at the end.
- Chain.Blockchain.FindLongestFork: among forks of equal work any may be chosen, as the order of the source's map decides.
- Database.Db.GetTransactionsForAddress: for addresses without a zero byte, which holds of every address the node accepts as a receiver.
- Miner.SelectTransactions: the standard library's stable sort is the function `ByFee`.
