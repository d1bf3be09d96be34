/** The node's chain object: fields changed in place by append, reorg and prune. */
module Chain {
  import opened Prelude
  import opened ByteOrder
  import opened Types
  import opened Consensus
  import opened Conservation
  import opened PreCheck
  import opened Replay
  import opened ForkChoice
  import opened AsertSchedule
  import opened AccountBook
  import opened Consistency
  import opened Decisions
  import opened Tables
  import opened Database
  import opened Persistence

  // Killed stands for std::process::abort().
  datatype BlockOutcome =
    | Applied
    | Reorged(oldBlocks: seq<Block>, newBlocks: seq<Block>)
    | Orphaned
    | Rejected
    | Killed

  // The outcome reported for a move: the fork taken, and what the window held above its ancestor.
  ghost predicate Reports(outcome: BlockOutcome, m: Move, s: Standing) {
    match m
    case Extends => outcome == Applied
    case Refuses => outcome == Rejected
    case Waits(_) => outcome == Orphaned
    case Switches(_, fork, a) =>
      a < |s.chain| && outcome == Reorged(Displaced(s, a), fork)
    case _ => outcome == Killed
  }

  // What a snapshot captures of the node at its tip.
  datatype CheckpointState = CheckpointState(ledger: Ledger, blockHash: Hash)

  class Blockchain {
    const c: Crypto
    const initialDifficulty: real

    var blocks: seq<Block>
    var offset: nat
    var balances: map<Address, u64>
    var confirmed: set<Signature>
    var blockHashes: map<Hash, nat>
    var orphanPool: Pool
    var pendingTickets: seq<Ticket>
    var pot: u64
    var genesisPot: u64
    var settled: map<nat, seq<Payout>>
    var currentDifficulty: real
    var anchor: Option<Anchor>
    var chainWork: nat

    // The whole canonical chain, of which `blocks` is a suffix.
    ghost var canonical: seq<Block>

    function LedgerOf(): Ledger
      reads this
    {
      Ledger(balances, confirmed, pendingTickets, pot, currentDifficulty, anchor, chainWork)
    }

    function ViewOf(): View
      reads this
    {
      View(blocks, offset, LedgerOf())
    }

    function Cfg(): Config
      reads this
    {
      Config(genesisPot, initialDifficulty)
    }

    // Live equals replay: the derived state is that of replaying `canonical` from genesis.
    ghost predicate Valid()
      reads this
    {
      Consistent(c, Cfg(), canonical, ViewOf(), blockHashes, orphanPool, settled)
    }

    ghost function StandingOf(): Standing
      reads this
    {
      Standing(canonical, offset, orphanPool)
    }

    function Height(): nat
      reads this
    {
      offset + |blocks|
    }

    function GetBalance(a: Address): u64
      reads this
    {
      Get(balances, a)
    }

    // -----------------------------------------------------------------------
    // Transactions
    // -----------------------------------------------------------------------

    method ApplyTransaction(tx: Tx)
      modifies this`balances, this`pot, this`confirmed
      ensures LedgerOf() == ApplyTx(old(LedgerOf()), tx)
    {
      if tx.Coinbase() {
        balances := balances[tx.receiver := WrapAdd(Get(balances, tx.receiver), tx.amount)];
        return;
      }
      balances := balances[tx.sender := Get(balances, tx.sender)];
      if tx.amount + tx.fee > U64_MAX {
        return;
      }
      var total: u64 := tx.amount + tx.fee;
      if balances[tx.sender] < total {
        return;
      }
      balances := balances[tx.sender := balances[tx.sender] - total];
      balances := balances[tx.receiver := WrapAdd(Get(balances, tx.receiver), tx.amount)];
      pot := SatAdd(pot, tx.fee);
      confirmed := confirmed + {tx.signature};
    }

    // One turn of the pre-validation loop: the sums and signatures of the
    // transactions before `tx` decide it, and are carried on when it passes.
    method CheckTx(tx: Tx, pending: map<Address, u64>, blockSigs: set<Signature>, ghost before: seq<Tx>)
      returns (ok: bool, pending': map<Address, u64>, blockSigs': set<Signature>)
      requires PreValid(c, LedgerOf(), before)
      requires blockSigs == Signatures(before) && forall a :: Get(pending, a) == Spent(before, a)
      ensures ok == NextOk(c, LedgerOf(), before, tx)
      ensures ok ==> blockSigs' == blockSigs + if tx.Coinbase() then {} else {tx.signature}
      ensures ok ==> forall a ::
        Get(pending', a) == Get(pending, a) + if !tx.Coinbase() && tx.sender == a then tx.Cost() else 0
    {
      hide PreValid, Signatures, Spent;
      SpentAtMost(c, LedgerOf(), before, tx.sender);
      pending', blockSigs' := pending, blockSigs;
      if tx.Coinbase() {
        return true, pending', blockSigs';
      }
      if !c.verifies(tx) {
        return false, pending', blockSigs';
      }
      if tx.fee < MIN_TX_FEE {
        return false, pending', blockSigs';
      }
      if !c.decodes(tx.receiver) {
        return false, pending', blockSigs';
      }
      if tx.signature in confirmed || tx.signature in blockSigs {
        return false, pending', blockSigs';
      }
      blockSigs' := blockSigs + {tx.signature};
      var balance := GetBalance(tx.sender);
      var alreadyDebited := Get(pending, tx.sender);
      assert alreadyDebited == Spent(before, tx.sender);
      if tx.amount + tx.fee > U64_MAX {
        return false, pending', blockSigs';
      }
      var total: u64 := tx.amount + tx.fee;
      if SatSub(balance, alreadyDebited) < total {
        return false, pending', blockSigs';
      }
      pending' := pending[tx.sender := alreadyDebited + total];
      return true, pending', blockSigs';
    }

    method PreValidate(txs: seq<Tx>) returns (ok: bool)
      ensures ok == PreValid(c, LedgerOf(), txs)
    {
      var pending: map<Address, u64> := map[];
      var blockSigs: set<Signature> := {};
      assert txs[..0] == [];
      for i := 0 to |txs|
        invariant PreValid(c, LedgerOf(), txs[..i])
        invariant forall a :: Get(pending, a) == Spent(txs[..i], a)
        invariant blockSigs == Signatures(txs[..i])
      {
        hide PreValid, Signatures, Spent, NextOk;
        ok, pending, blockSigs := CheckTx(txs[i], pending, blockSigs, txs[..i]);
        if !ok {
          FailsAt(c, LedgerOf(), txs, i);
          return false;
        }
        PassesAt(c, LedgerOf(), txs, i);
      }
      assert txs[..|txs|] == txs;
      return true;
    }

    // -----------------------------------------------------------------------
    // Lottery
    // -----------------------------------------------------------------------

    method ComputeTicketReward(t: Ticket) returns (amount: u64, tier: Tier)
      ensures tier == Draw(c, blocks, offset, t) && amount == Prize(tier, pot)
      // Which is, when the hundred blocks of the reveal window are cached:
      ensures offset <= t.createdHeight && t.createdHeight + 100 <= offset + |blocks| ==>
        var first := t.createdHeight - offset;
        var lot := c.lotteryWord(HashBytes(blocks[first..first + 100]), t.createdHeight, t.miner) % 1_000_000;
        tier == TierFor(lot) && amount == Wins(lot, pot)
    {
      if offset <= t.createdHeight && t.createdHeight + 100 <= offset + |blocks| {
        EntropyIsWindow(blocks, offset, t.createdHeight, 100);
      }
      hide HashBytes;
      var entropy: Bytes := [];
      for i := 0 to REVEAL_BLOCKS
        invariant entropy == Entropy(blocks, offset, t.createdHeight, i)
      {
        match HashAt(blocks, offset, t.createdHeight + i) {
          case None =>
          case Some(h) => entropy := entropy + h;
        }
      }
      var bucket := c.lotteryWord(entropy, t.createdHeight, t.miner) % PPM;
      if bucket < SMALL_BUCKET_START {
        return 0, NoWin;
      } else if bucket < MEDIUM_BUCKET_START {
        return pot / SMALL_DIVISOR, Small;
      } else if bucket < LARGE_BUCKET_START {
        return pot / MEDIUM_DIVISOR, Medium;
      } else if bucket < JACKPOT_BUCKET_START {
        return pot / LARGE_DIVISOR, Large;
      } else {
        return pot / JACKPOT_DIVISOR, Jackpot;
      }
    }

    // Settle one ticket: draw, then move at most the pot to the miner.
    method SettleTicket(t: Ticket) returns (paid: seq<Payout>)
      modifies this`balances, this`pot
      ensures LedgerOf() == SettleOne(old(LedgerOf()), t, Draw(c, blocks, offset, t))
      ensures paid == PayoutOf(old(LedgerOf()), t, Draw(c, blocks, offset, t))
    {
      var amount, tier := ComputeTicketReward(t);
      hide Prize, Draw;
      var payout: u64 := Min(amount, pot);
      if payout > 0 {
        pot := pot - payout;
        balances := balances[t.miner := WrapAdd(Get(balances, t.miner), payout)];
        return [Payout(t.miner, payout, tier)];
      }
      return [];
    }

    // Split off the tickets due at `index`, then pay them in order.
    method SettleTickets(index: nat) returns (payouts: seq<Payout>)
      modifies this`balances, this`pot, this`pendingTickets
      ensures (LedgerOf(), payouts) == Settle(c, old(ViewOf()), index)
    {
      var toSettle: seq<Ticket>, stillPending: seq<Ticket> := [], [];
      var ts := pendingTickets;
      assert ts[..0] == [];
      for i := 0 to |ts|
        invariant toSettle == Due(ts[..i], index) && stillPending == NotDue(ts[..i], index)
      {
        assert Front(ts[..i + 1]) == ts[..i];
        if ts[i].createdHeight + REVEAL_BLOCKS == index {
          toSettle := toSettle + [ts[i]];
        } else {
          stillPending := stillPending + [ts[i]];
        }
      }
      assert ts[..|ts|] == ts;
      pendingTickets := stillPending;
      ghost var opening := LedgerOf();
      payouts := [];
      assert toSettle[..0] == [];
      for i := 0 to |toSettle|
        invariant (LedgerOf(), payouts) == SettleAll(c, blocks, offset, opening, toSettle[..i])
        invariant pendingTickets == stillPending
      {
        hide Draw, SettleOne, PayoutOf;
        var paid := SettleTicket(toSettle[i]);
        assert Front(toSettle[..i + 1]) == toSettle[..i] && Last(toSettle[..i + 1]) == toSettle[i];
        payouts := payouts + paid;
      }
      assert toSettle[..|toSettle|] == toSettle;
    }

    // -----------------------------------------------------------------------
    // Appending a block
    // -----------------------------------------------------------------------

    // Every balance plus the pot.
    method TotalSupply() returns (total: nat)
      ensures total == Supply(LedgerOf())
    {
      total := pot;
      var left := balances.Keys;
      assert balances - (balances.Keys - left) == balances;
      while left != {}
        invariant left <= balances.Keys
        invariant total + Sum(balances - (balances.Keys - left)) == Supply(LedgerOf())
        decreases left
      {
        var a :| a in left;
        SumSplit(balances - (balances.Keys - left), a);
        assert balances - (balances.Keys - left) - {a} == balances - (balances.Keys - (left - {a}));
        total := total + balances[a];
        left := left - {a};
      }
      assert balances - (balances.Keys - left) == map[];
    }

    // The transaction loop; false where a pre-validated transfer was skipped.
    method ApplyTransactions(txs: seq<Tx>) returns (ok: bool, totalFees: u64)
      modifies this`balances, this`pot, this`confirmed
      ensures ok == ApplyAll(old(LedgerOf()), txs).Some?
      ensures ok ==> LedgerOf() == ApplyAll(old(LedgerOf()), txs).value && totalFees == TotalFees(txs)
    {
      totalFees := 0;
      ghost var l := LedgerOf();
      assert txs[..0] == [];
      for i := 0 to |txs|
        invariant ApplyAll(l, txs[..i]) == Some(LedgerOf())
        invariant totalFees == TotalFees(txs[..i])
      {
        assert Front(txs[..i + 1]) == txs[..i];
        if !txs[i].Coinbase() {
          totalFees := SatAdd(totalFees, txs[i].fee);
        }
        ApplyTransaction(txs[i]);
        hide ApplyTx;
        if !txs[i].Coinbase() && txs[i].signature !in confirmed {
          ApplyAllStops(l, txs, i + 1);
          return false, totalFees;
        }
      }
      assert txs[..|txs|] == txs;
      return true, totalFees;
    }

    // Move the miner's half of the fees out of the pot.
    method ShareFees(b: Block, totalFees: u64)
      requires totalFees == TotalFees(b.transactions)
      modifies this`balances, this`pot
      ensures LedgerOf() == SplitFees(old(LedgerOf()), b)
    {
      var share: u64 := totalFees / 2;
      if share > 0 && b.Miner().Some? {
        pot := SatSub(pot, share);
        balances := balances[b.Miner().value := WrapAdd(Get(balances, b.Miner().value), share)];
      }
    }

    // Issue the ticket, add the work, retarget.
    method StampBlock(b: Block)
      modifies this`pendingTickets, this`chainWork, this`currentDifficulty, this`anchor
      ensures LedgerOf() == Stamp(old(LedgerOf()), b)
      // A ticket for a block that opens with a coinbase and holds a transfer.
      ensures pendingTickets ==
        old(pendingTickets) + if HasMiner(b) && HasTransfer(b) then [Ticket(MinerOf(b), b.index)] else []
      // The hashes the difficulty asked for.
      ensures chainWork == Min(old(chainWork) + HashesFor(old(currentDifficulty)), U128_MAX)
    {
      TransfersAreCounted(b.transactions);
      ShiftIsHashes(currentDifficulty);
      hide Retarget, Shl128, HashesFor;
      ghost var l := LedgerOf();
      if CountTransfers(b.transactions) > 0 && b.Miner().Some? {
        pendingTickets := pendingTickets + [Ticket(b.Miner().value, b.index)];
      }
      assert pendingTickets == l.tickets + Issued(b);
      hide CountTransfers, HasTransfer;
      chainWork := SatAdd128(chainWork, Shl128(Truncate(currentDifficulty)));
      AdjustDifficulty(b);
    }

    method AdjustDifficulty(b: Block)
      modifies this`currentDifficulty, this`anchor
      ensures LedgerOf() == Retarget(old(LedgerOf()), b)
      // Block 1 is the anchor; on a chain that adjusts, later blocks bring the
      // difficulty to within a billionth of the schedule.
      ensures b.index == 1 ==>
        anchor == Some(Anchor(1, b.timestamp, currentDifficulty)) && currentDifficulty == old(currentDifficulty)
      ensures b.index != 1 ==> anchor == old(anchor)
      ensures b.index != 1 && (anchor.None? || anchor.value.difficulty < 8.0) ==>
        currentDifficulty == old(currentDifficulty)
      ensures b.index > 1 && anchor.Some? && anchor.value.difficulty >= 8.0 && anchor.value.height <= b.index ==>
        NearSchedule(currentDifficulty, anchor.value.difficulty,
                     60 * (b.index - anchor.value.height) % 0x1_0000_0000_0000_0000 -
                       Max(b.timestamp - anchor.value.timestamp, 0))
    {
      hide Asert, NearSchedule;
      if b.index == 1 {
        anchor := Some(Anchor(1, b.timestamp, currentDifficulty));
      } else if anchor.Some? {
        if anchor.value.difficulty >= MIN_DIFFICULTY {
          var newDifficulty := Asert(anchor.value, b.index, b.timestamp);
          if Abs(newDifficulty - currentDifficulty) > EPSILON {
            currentDifficulty := newDifficulty;
          }
          if anchor.value.height <= b.index {
            NearIsNearSchedule(currentDifficulty, anchor.value, b.index, b.timestamp);
          }
        }
      }
    }

    // Settle, apply, share: every movement of coins in the block, and the two
    // checks that guard it. False stands for an abort.
    method MoveCoins(b: Block) returns (alive: bool, payouts: seq<Payout>)
      modifies this`balances, this`pot, this`confirmed, this`pendingTickets
      ensures alive == Process(c, old(ViewOf()), b).Yields?
      ensures alive ==> Process(c, old(ViewOf()), b) == Yields(Stamp(LedgerOf(), b), payouts)
    {
      hide Process, Settle, ApplyAll, TotalFees, Supply, SplitFees, Stamp;
      ghost var v := ViewOf();
      var supplyBefore := TotalSupply();
      payouts := SettleTickets(b.index);
      ProcessSteps(c, v, b, LedgerOf(), payouts);
      var ok, totalFees := ApplyTransactions(b.transactions);
      if !ok {
        return false, payouts;
      }
      ShareFees(b, totalFees);
      var supplyAfter := TotalSupply();
      return supplyAfter == supplyBefore + b.Minted(), payouts;
    }

    // The writes of `update_state` from "Apply block" on. False stands for an abort.
    method ApplyBlockState(b: Block) returns (alive: bool)
      modifies this`balances, this`pot, this`confirmed, this`pendingTickets, this`settled, this`chainWork
      modifies this`currentDifficulty, this`anchor, this`blocks, this`blockHashes, this`canonical
      ensures alive == Process(c, old(ViewOf()), b).Yields?
      ensures alive ==>
        && ViewOf() == Appended(old(ViewOf()), b, Process(c, old(ViewOf()), b).ledger)
        && blockHashes == old(blockHashes)[b.hash := b.index]
        && settled == Note(old(settled), b.index, Process(c, old(ViewOf()), b).payouts)
        && canonical == old(canonical) + [b]
    {
      hide Process, Stamp;
      var payouts;
      alive, payouts := MoveCoins(b);
      if !alive {
        return false;
      }
      if payouts != [] {
        settled := settled[b.index := payouts];
      }
      blockHashes := blockHashes[b.hash := b.index];
      blocks := blocks + [b];
      canonical := canonical + [b];
      StampBlock(b);
      return true;
    }

    method UpdateState(b: Block, now: nat) returns (v: Verdict)
      requires |blocks| > 0
      modifies this`balances, this`pot, this`confirmed, this`pendingTickets, this`settled, this`chainWork
      modifies this`currentDifficulty, this`anchor, this`blocks, this`blockHashes, this`canonical
      ensures v == Judge(c, old(ViewOf()), b, now)
      ensures v.Refused? ==>
        && ViewOf() == old(ViewOf()) && blockHashes == old(blockHashes) && settled == old(settled)
        && canonical == old(canonical)
      ensures v.Extended? ==>
        && ViewOf() == Appended(old(ViewOf()), b, Process(c, old(ViewOf()), b).ledger)
        && blockHashes == old(blockHashes)[b.hash := b.index]
        && settled == Note(old(settled), b.index, Process(c, old(ViewOf()), b).payouts)
        && canonical == old(canonical) + [b]
      ensures old(Valid()) && !v.Died? ==> Valid()
    {
      hide Consistent, Process, MedianTimePast, WellFormed, PreValid;
      if b.index != Height() {
        return Refused;
      }
      if b.previousHash != Last(blocks).hash {
        return Refused;
      }
      if b.timestamp > now + MAX_FUTURE_SECS {
        return Refused;
      }
      if b.timestamp <= MedianTimePast(blocks) {
        return Refused;
      }
      if !c.meets(b.hash, currentDifficulty) {
        return Refused;
      }
      if !WellFormed(c, b) {
        return Refused;
      }
      var ok := PreValidate(b.transactions);
      if !ok {
        return Refused;
      }
      var alive := ApplyBlockState(b);
      if !alive {
        return Died;
      }
      if old(Valid()) {
        AppendConsistent(c, Cfg(), old(canonical), old(ViewOf()), old(blockHashes), orphanPool, old(settled), b);
      }
      return Extended;
    }

    // -----------------------------------------------------------------------
    // Start and prune
    // -----------------------------------------------------------------------

    constructor (c: Crypto, genesis: Block, difficulty: real)
      requires Sound(c) && genesis.index == 0
      ensures Valid() && canonical == [genesis] && genesisPot == 0 && initialDifficulty == difficulty && this.c == c
      ensures pot == 0 && offset == 0 && settled == map[]
    {
      var credited: map<Address, u64> := map[];
      ghost var txs := genesis.transactions;
      assert txs[..0] == [];
      for i := 0 to |genesis.transactions|
        invariant credited == CreditAll(map[], txs[..i])
      {
        assert Front(txs[..i + 1]) == txs[..i];
        var tx := genesis.transactions[i];
        credited := credited[tx.receiver := WrapAdd(Get(credited, tx.receiver), tx.amount)];
      }
      assert txs[..|txs|] == txs;
      this.c := c;
      blocks, offset, canonical := [genesis], 0, [genesis];
      balances, confirmed := credited, {};
      blockHashes, orphanPool := map[genesis.hash := 0], map[];
      pendingTickets, settled := [], map[];
      pot, genesisPot := 0, 0;
      initialDifficulty, currentDifficulty, anchor, chainWork := difficulty, difficulty, None, 0;
      new;
      hide Sound, PoolHashed, PoolBounded, Tracks, Indexes, Recorded;
      GenesisTracks(c, Cfg(), genesis);
      EmptyPoolFits(c);
    }

    // Called once, on a chain that is genesis alone.
    method SeedPot(amount: u64)
      requires Valid() && |canonical| == 1 && pot == 0
      modifies this`genesisPot, this`pot
      ensures Valid() && genesisPot == amount
    {
      hide Valid, Consistent, Derived;
      ConsistentIs();
      LedgerIsDerived();
      ViewIs();
      Reseeded(c, Cfg(), canonical, ViewOf(), blockHashes, orphanPool, settled, amount);
      genesisPot := amount;
      pot := SatAdd(pot, amount);
      ConsistentIs();
    }

    lemma ConsistentIs()
      ensures Valid() <==> Consistent(c, Cfg(), canonical, ViewOf(), blockHashes, orphanPool, settled)
    {
      hide Consistent;
    }

    lemma HeightIs()
      requires Valid()
      ensures Height() == offset + |blocks| == |canonical| && |blocks| > 0
    {
      hide Sound, PoolHashed, PoolBounded, Indexes, Recorded, ValidChain, Derived;
    }

    method PruneToWindow()
      modifies this`blocks, this`offset, this`blockHashes, this`settled
      ensures old(Valid()) ==> Valid() && offset == Max(old(offset), |canonical| - REORG_WINDOW)
      ensures LedgerOf() == old(LedgerOf()) && Cfg() == old(Cfg()) && |blocks| <= REORG_WINDOW
      // The oldest blocks go, with their hashes and what was noted below the window.
      ensures var drop := Max(0, |old(blocks)| - REORG_WINDOW);
        && blocks == old(blocks)[drop..] && offset == old(offset) + drop
        && blockHashes == old(blockHashes) - HashesOf(old(blocks)[..drop])
        && (drop == 0 ==> settled == old(settled))
        && (settled == old(settled) || settled == map n | n in old(settled) && n >= offset :: old(settled)[n])
    {
      hide Valid, Consistent, Pruned, HashesOf;
      ghost var good := Valid();
      if good {
        HeightIs();
      }
      NothingDropped();
      if |blocks| > REORG_WINDOW {
        var drop := |blocks| - REORG_WINDOW;
        if good {
          PrunedStays(drop);
        }
        blockHashes := WithoutHashes(blockHashes, blocks[..drop]);
        blocks := blocks[drop..];
        offset := offset + drop;
        settled := map n | n in settled && n >= offset :: settled[n];
        ConsistentIs();
      }
    }

    lemma NothingDropped()
      ensures HashesOf(blocks[..0]) == {} && blockHashes - {} == blockHashes && blocks[0..] == blocks
    {
    }

    lemma PrunedStays(drop: nat)
      requires Valid() && drop + REORG_WINDOW <= |blocks|
      ensures Consistent(c, Cfg(), canonical, View(blocks[drop..], offset + drop, LedgerOf()),
                         blockHashes - HashesOf(blocks[..drop]), orphanPool,
                         map n | n in settled && n >= offset + drop :: settled[n])
    {
      hide Consistent, HashesOf;
      PruneConsistent(c, Cfg(), canonical, ViewOf(), blockHashes, orphanPool, settled, drop);
    }

    static method WithoutHashes(m: map<Hash, nat>, gone: seq<Block>) returns (r: map<Hash, nat>)
      ensures r == m - HashesOf(gone)
    {
      r := m;
      for i := 0 to |gone|
        invariant r == m - HashesOf(gone[..i])
      {
        assert gone[..i + 1] == gone[..i] + [gone[i]];
        assert HashesOf(gone[..i + 1]) == HashesOf(gone[..i]) + {gone[i].hash} by {
          HashesOfAppend(gone[..i], gone[i]);
        }
        r := r - {gone[i].hash};
      }
      assert gone[..|gone|] == gone;
    }

    // A node whose window is right takes the state of the replayed chain at its tip:
    // what restoring at that height starts from.
    method Snapshot() returns (state: CheckpointState)
      requires |blocks| > 0
      ensures state == CheckpointState(LedgerOf(), Last(blocks).hash)
      ensures Valid() ==>
        |canonical| > 0 && state == CheckpointState(Derived(c, Cfg(), canonical), Last(canonical).hash)
    {
      hide Valid, Derived;
      if Valid() {
        LedgerIsDerived();
        WindowIsTail();
      }
      state := CheckpointState(LedgerOf(), Last(blocks).hash);
    }

    // The checkpoint block becomes the whole window; its hash is not indexed again.
    // `history` is the chain the checkpoint was taken on.
    method RestoreFromCheckpoint(height: nat, state: CheckpointState, block: Block, ghost history: seq<Block>)
      modifies this
      ensures ViewOf() == View([block], height, state.ledger) && canonical == history
      ensures blockHashes == map[] && orphanPool == map[] && settled == map[] && genesisPot == old(genesisPot)
    {
      hide *;
      WindowIsCheckpoint(height, block, history);
      LoadLedger(state.ledger);
      ViewIs();
    }

    method WindowIsCheckpoint(height: nat, block: Block, ghost history: seq<Block>)
      modifies this`blocks, this`offset, this`canonical, this`blockHashes, this`orphanPool, this`settled
      ensures blocks == [block] && offset == height && canonical == history
      ensures blockHashes == map[] && orphanPool == map[] && settled == map[]
    {
      hide *;
      blocks := [block];
      offset := height;
      canonical := history;
      blockHashes := map[];
      orphanPool := map[];
      settled := map[];
    }

    method LoadLedger(l: Ledger)
      modifies this`balances, this`confirmed, this`pot, this`chainWork, this`currentDifficulty, this`anchor
      modifies this`pendingTickets
      ensures Ledger(balances, confirmed, pendingTickets, pot, currentDifficulty, anchor, chainWork) == l
    {
      hide *;
      balances := l.balances;
      confirmed := l.confirmed;
      pot := l.pot;
      chainWork := l.work;
      currentDifficulty := l.difficulty;
      anchor := l.anchor;
      pendingTickets := l.tickets;
    }

    lemma CfgIs()
      ensures Cfg() == Config(genesisPot, initialDifficulty)
    {
    }

    lemma ViewIs()
      ensures ViewOf() ==
        View(blocks, offset, Ledger(balances, confirmed, pendingTickets, pot, currentDifficulty, anchor, chainWork))
      ensures LedgerOf() == ViewOf().ledger
    {
    }

    lemma TicketsAre()
      ensures pendingTickets == LedgerOf().tickets
    {
    }

    method RestoreTickets(ts: seq<Ticket>)
      modifies this`pendingTickets
      ensures pendingTickets == ts
      ensures old(Valid()) && ts == old(pendingTickets) ==> Valid()
    {
      pendingTickets := ts;
    }

    // Load the stored tickets; where they are the pending ones nothing changes.
    method ReloadTickets(db: Db)
      modifies this`pendingTickets
      ensures db.reliable && Rising(old(pendingTickets)) && db.tickets == TicketTable(old(pendingTickets)) ==>
        pendingTickets == old(pendingTickets) && (old(Valid()) ==> Valid())
    {
      hide *;
      var tickets := db.LoadTickets();
      if tickets.Some? {
        RestoreTickets(tickets.value);
      }
    }

    method DrainPayoutsForBlock(index: nat) returns (ps: seq<Payout>)
      modifies this`settled
      ensures ps == Lookup(old(settled), index) && settled == old(settled) - {index}
      ensures old(Valid()) ==> Valid()
    {
      hide Sound, PoolHashed, PoolBounded, Tracks, Indexes, PayoutsAt;
      ps := Lookup(settled, index);
      settled := settled - {index};
    }

    method TakeAllSettledPayouts() returns (all: map<nat, seq<Payout>>)
      modifies this`settled
      ensures all == old(settled) && settled == map[]
      ensures old(Valid()) ==> Valid()
    {
      hide Sound, PoolHashed, PoolBounded, Tracks, Indexes, PayoutsAt;
      all := settled;
      settled := map[];
    }

    // -----------------------------------------------------------------------
    // Orphans and forks
    // -----------------------------------------------------------------------

    function FindBlockTimestamp(h: Hash): Option<u64>
      reads this
    {
      if h in blockHashes && blockHashes[h] >= offset && blockHashes[h] - offset < |blocks| then
        Some(blocks[blockHashes[h] - offset].timestamp)
      else if h in orphanPool then Some(orphanPool[h].timestamp)
      else None
    }

    function ExpectedDifficultyFor(b: Block): real
      reads this
    {
      Expected(LedgerOf(), FindBlockTimestamp(b.previousHash), b.index)
    }

    // The window index and the pool find exactly the blocks the node can see.
    lemma TimeIsSeen(h: Hash)
      requires Valid()
      ensures FindBlockTimestamp(h) == SeenTime(StandingOf(), h)
    {
      hide *;
      if h in blockHashes {
        var i := IndexedIsSeen(h);
        SeenAt(h, i);
      } else {
        if Windowed(StandingOf(), h) {
          var i := WindowedAt(h);
          IsIndexed(i);
          assert false;
        }
        SeenAside(h);
      }
    }

    lemma WindowedAt(h: Hash) returns (i: nat)
      requires Windowed(StandingOf(), h)
      ensures offset <= i < |canonical| && canonical[i].hash == h
    {
      i :| offset <= i < |canonical| && canonical[i].hash == h;
    }

    lemma IndexedIsSeen(h: Hash) returns (i: nat)
      requires Valid() && h in blockHashes
      ensures i == blockHashes[h] && offset <= i < |canonical| && canonical[i].hash == h
      ensures FindBlockTimestamp(h) == Some(canonical[i].timestamp)
    {
      hide Valid, Acyclic, PoolHashed;
      WindowFacts();
      i := blockHashes[h];
      assert blocks[i - offset] == canonical[i];
    }

    lemma SeenAt(h: Hash, i: nat)
      requires Valid() && offset <= i < |canonical| && canonical[i].hash == h
      ensures SeenTime(StandingOf(), h) == Some(canonical[i].timestamp)
    {
      hide Valid, ValidChain, PoolHashed, Sound, Acyclic;
      StandingPlaced();
      assert Windowed(StandingOf(), h);
      forall j | offset <= j < |canonical| && canonical[j].hash == h ensures j == i {
        HashesDiffer(c, Cfg(), canonical, i, j);
      }
    }

    lemma SeenAside(h: Hash)
      requires h !in blockHashes && !Windowed(StandingOf(), h)
      ensures FindBlockTimestamp(h) == SeenTime(StandingOf(), h)
    {
      hide Windowed;
    }

    lemma IsIndexed(i: nat)
      requires Valid() && offset <= i < |canonical|
      ensures canonical[i].hash in blockHashes && blockHashes[canonical[i].hash] == i
    {
      hide Sound, Tracks, PoolHashed, PoolBounded, Recorded, Names;
      WindowFacts();
      assert canonical[i] == blocks[i - offset];
    }

    lemma ExpectedIsSeen(b: Block)
      requires Valid()
      ensures |canonical| > 0
      ensures var parent := SeenTime(StandingOf(), b.previousHash);
        ExpectedDifficultyFor(b) == Expected(Derived(c, Cfg(), canonical), parent, b.index)
    {
      hide Valid, Derived, Expected, SeenTime, ValidChain;
      TimeIsSeen(b.previousHash);
      LedgerIsDerived();
    }

    method ValidateBlockStandalone(b: Block) returns (ok: bool)
      requires Valid()
      ensures |canonical| > 0 && (ok <==> Plausible(c, Cfg(), StandingOf(), b))
    {
      hide Valid, Derived, SeenTime;
      ExpectedIsSeen(b);
      WindowFacts();
      ok := c.headerHash(b.HeaderOf()) == b.hash && c.meets(b.hash, ExpectedDifficultyFor(b))
        && b.index <= Height() + MAX_ORPHAN_DEPTH && CountTransfers(b.transactions) <= MAX_BLOCK_TXS;
    }

    static method BlockWork(h: Hash) returns (w: nat)
      ensures w == WorkOf(h)
    {
      var bits := 0;
      var i := 0;
      assert h[0..] == h;
      while i < |h|
        invariant i <= |h| && bits + LeadingZeros(h[i..]) == LeadingZeros(h)
      {
        assert h[i..][1..] == h[i + 1..];
        if h[i] == 0 {
          bits := bits + 8;
        } else {
          bits := bits + ByteZeros(h[i]);
          return Shl128(bits);
        }
        i := i + 1;
      }
      return Shl128(bits);
    }

    static method SumWork(list: seq<Block>) returns (w: nat)
      ensures w == SatWork(list)
    {
      w := 0;
      assert list[..0] == [];
      for i := 0 to |list|
        invariant w == SatWork(list[..i])
      {
        assert Front(list[..i + 1]) == list[..i];
        var one := BlockWork(list[i].hash);
        w := SatAdd128(w, one);
      }
      assert list[..|list|] == list;
    }

    // What the invariant says about the window, in the terms the fork search uses.
    lemma WindowFacts()
      requires Valid()
      ensures Acyclic(c) && PoolHashed(c, orphanPool)
      ensures 0 < |blocks| && Height() == |canonical| && blocks == canonical[offset..]
      ensures forall i :: 0 <= i < |blocks| ==> blocks[i].index == offset + i
      ensures forall h :: h in blockHashes ==>
        offset <= blockHashes[h] < Height() && canonical[blockHashes[h]].hash == h
    {
      hide Sound, Acyclic, ValidChain, Derived, PoolBounded, Recorded;
      SoundIsAcyclic(c);
      TracksHeight(c, Cfg(), canonical, ViewOf());
      forall h | h in blockHashes ensures offset <= blockHashes[h] < Height() && canonical[blockHashes[h]].hash == h {
        assert Names(blockHashes, ViewOf(), h);
      }
    }

    // The blocks above `ancestor`, picked out by their index.
    static method BlocksAbove(list: seq<Block>, from: nat, ancestor: nat) returns (above: seq<Block>)
      requires forall i :: 0 <= i < |list| ==> list[i].index == from + i
      requires from <= ancestor < from + |list|
      ensures above == list[ancestor + 1 - from..]
    {
      above := [];
      for i := 0 to |list|
        invariant above == list[Min(i, ancestor + 1 - from)..i]
      {
        if list[i].index > ancestor {
          above := above + [list[i]];
        }
      }
    }

    // Follow previous-hash links down through the pool. The source collects tip
    // first and reverses at the end.
    method TraceForkChain(tip: Hash) returns (fork: seq<Block>)
      requires Acyclic(c) && PoolHashed(c, orphanPool) && tip in orphanPool
      ensures IsTrace(orphanPool, tip, fork)
    {
      var b := orphanPool[tip];
      fork := [b];
      var previous := b.previousHash;
      while previous in orphanPool
        invariant |fork| > 0 && Last(fork).hash == tip && Linked(fork) && fork[0].previousHash == previous
        invariant forall i :: 0 <= i < |fork| ==> fork[i].hash in orphanPool && orphanPool[fork[i].hash] == fork[i]
        decreases c.depth(previous)
      {
        var parent := orphanPool[previous];
        assert Hashed(c, parent) && c.depth(parent.HeaderOf().previousHash) < c.depth(parent.hash);
        ghost var longer := [parent] + fork;
        assert forall i :: 0 < i < |longer| ==> longer[i] == fork[i - 1];
        assert Linked(longer);
        fork := [parent] + fork;
        previous := parent.previousHash;
      }
    }

    // The fork grows from block `a` of the window and outweighs what lies above it.
    ghost predicate BeatsWindow(fork: seq<Block>, a: nat)
      reads this
    {
      && |fork| > 0
      && fork[0].previousHash in blockHashes && blockHashes[fork[0].previousHash] == a
      && offset <= a < Height()
      && SatWork(fork) > SatWork(blocks[a + 1 - offset..])
    }

    // The fork grows from a block that only the database still holds.
    ghost predicate BeatsDeep(db: Db?, fork: seq<Block>, a: nat)
      reads this, db
    {
      && |fork| > 0 && db != null
      && fork[0].previousHash !in blockHashes
      && fork[0].index == a + 1 && a < offset
      && (db.reliable ==>
            && |RangeOf(db.blocks, a, 1)| > 0 && RangeOf(db.blocks, a, 1)[0].hash == fork[0].previousHash
            && SatWork(fork) > SatAdd128(SatWork(RangeOf(db.blocks, a + 1, offset - (a + 1))), SatWork(blocks)))
    }

    // A fork that hangs off a block of the window.
    method AssessInWindow(fork: seq<Block>, forkWork: nat) returns (beats: bool)
      requires Valid() && |fork| > 0 && forkWork == SatWork(fork) && fork[0].previousHash in blockHashes
      ensures beats == BeatsWindow(fork, blockHashes[fork[0].previousHash])
    {
      hide *;
      WindowFacts();
      var a := blockHashes[fork[0].previousHash];
      var above := BlocksAbove(blocks, offset, a);
      var mainWork := SumWork(above);
      beats := forkWork > mainWork;
      BeatsWindowIs(fork, a);
    }

    lemma BeatsWindowIs(fork: seq<Block>, a: nat)
      requires |fork| > 0 && fork[0].previousHash in blockHashes && blockHashes[fork[0].previousHash] == a
      requires offset <= a < Height()
      ensures BeatsWindow(fork, a) <==> SatWork(fork) > SatWork(blocks[a + 1 - offset..])
    {
    }

    // A fork whose first block may hang off one that only the database holds.
    method AssessDeep(fork: seq<Block>, forkWork: nat, db: Db?) returns (r: Option<nat>)
      requires |fork| > 0 && forkWork == SatWork(fork) && fork[0].previousHash !in blockHashes
      ensures r.Some? ==> BeatsDeep(db, fork, r.value)
      ensures r.None? && db != null && db.reliable ==> forall a :: !BeatsDeep(db, fork, a)
    {
      hide SatWork, RangeOf;
      var first := fork[0];
      if first.index == 0 {
        return None;
      }
      var parent: nat := first.index - 1;
      if parent >= offset {
        return None;
      }
      if db == null {
        return None;
      }
      var held := db.GetBlocksRange(parent, 1);
      if held.None? || held.value == [] || held.value[0].hash != first.previousHash {
        return None;
      }
      var before := db.GetBlocksRange(parent + 1, offset - (parent + 1));
      var preWindowWork := SumWork(if before.None? then [] else before.value);
      var windowWork := SumWork(blocks);
      return if forkWork > SatAdd128(preWindowWork, windowWork) then Some(parent) else None;
    }

    // Heavier than the main chain from its ancestor, as far as reliable storage tells.
    ghost predicate Outweighs(db: Db?, fork: seq<Block>, a: nat)
      reads this, db
    {
      BeatsWindow(fork, a) || (db != null && db.reliable && BeatsDeep(db, fork, a))
    }

    lemma AttachesOnce(db: Db?, fork: seq<Block>)
      requires |fork| > 0
      ensures fork[0].previousHash in blockHashes ==> forall a :: !BeatsDeep(db, fork, a)
      ensures forall a :: BeatsWindow(fork, a) ==>
        fork[0].previousHash in blockHashes && a == blockHashes[fork[0].previousHash]
    {
      hide SatWork, RangeOf;
    }

    // Where the fork attaches, if it outweighs the main chain from there.
    method AssessFork(fork: seq<Block>, forkWork: nat, db: Db?) returns (r: Option<nat>)
      requires Valid() && |fork| > 0 && forkWork == SatWork(fork)
      ensures r.Some? ==> BeatsWindow(fork, r.value) || BeatsDeep(db, fork, r.value)
      ensures r.None? ==> forall a :: !Outweighs(db, fork, a)
    {
      hide Valid, SatWork, BeatsDeep;
      AttachesOnce(db, fork);
      if fork[0].previousHash in blockHashes {
        var beats := AssessInWindow(fork, forkWork);
        return if beats then Some(blockHashes[fork[0].previousHash]) else None;
      }
      r := AssessDeep(fork, forkWork, db);
    }

    // A fork the search may select: a whole trace from the pool that outweighs the main chain.
    ghost predicate Selectable(db: Db?, fork: seq<Block>, a: nat)
      reads this, db
    {
      && |fork| > 0 && IsTrace(orphanPool, Last(fork).hash, fork) && Unreferenced(orphanPool, Last(fork).hash)
      && (BeatsWindow(fork, a) || BeatsDeep(db, fork, a))
    }

    ghost predicate Contends(db: Db?, tip: Hash, fork: seq<Block>, a: nat)
      reads this, db
    {
      tip in orphanPool && Unreferenced(orphanPool, tip) && IsTrace(orphanPool, tip, fork) && Outweighs(db, fork, a)
    }

    lemma ContendsOnly(db: Db?, h: Hash, fork: seq<Block>)
      requires IsTrace(orphanPool, h, fork)
      ensures |fork| > 0 && Last(fork).hash == h
      ensures forall t, a :: Contends(db, h, t, a) ==> t == fork && Outweighs(db, fork, a)
    {
      hide Outweighs, Unreferenced;
      TraceFacts(orphanPool, h, fork);
    }

    lemma ReferencedNeverContends(db: Db?, h: Hash)
      requires h in set k | k in orphanPool :: orphanPool[k].previousHash
      ensures forall t, a :: !Contends(db, h, t, a)
    {
      hide Outweighs, IsTrace;
    }

    lemma SelectableIntro(db: Db?, h: Hash, fork: seq<Block>, a: nat)
      requires IsTrace(orphanPool, h, fork) && (BeatsWindow(fork, a) || BeatsDeep(db, fork, a))
      requires h !in set k | k in orphanPool :: orphanPool[k].previousHash
      ensures Selectable(db, fork, a)
    {
      hide BeatsWindow, BeatsDeep;
    }

    lemma ContendsTips(db: Db?, tip: Hash, fork: seq<Block>, a: nat)
      requires Contends(db, tip, fork, a)
      ensures tip in orphanPool
    {
    }

    method FindLongestFork(db: Db?) returns (r: Option<(seq<Block>, nat)>)
      requires Valid()
      ensures r.Some? ==> Selectable(db, r.value.0, r.value.1)
      // No fork that outweighs the main chain is heavier than the one chosen.
      ensures forall tip, fork, a :: Contends(db, tip, fork, a) ==> r.Some? && SatWork(fork) <= SatWork(r.value.0)
    {
      hide *;
      WindowFacts();
      var referenced := set k | k in orphanPool :: orphanPool[k].previousHash;
      var best: Option<(seq<Block>, nat)> := None;
      var bestWork := 0;
      var left := orphanPool.Keys;
      forall tip, fork, a | Contends(db, tip, fork, a) ensures tip in left {
        ContendsTips(db, tip, fork, a);
      }
      while left != {}
        invariant left <= orphanPool.Keys
        invariant best.Some? ==> Selectable(db, best.value.0, best.value.1) && bestWork == SatWork(best.value.0)
        invariant forall tip, fork, a :: Contends(db, tip, fork, a) && tip !in left ==>
          best.Some? && SatWork(fork) <= bestWork
        decreases left
      {
        var h :| h in left;
        left := left - {h};
        if h in referenced {
          ReferencedNeverContends(db, h);
          continue;
        }
        var fork := TraceForkChain(h);
        ContendsOnly(db, h, fork);
        var forkWork := SumWork(fork);
        var ancestor := AssessFork(fork, forkWork, db);
        ContendsOnly(db, h, fork);
        if ancestor.Some? {
          SelectableIntro(db, h, fork, ancestor.value);
          if best.None? || forkWork > bestWork {
            best, bestWork := Some((fork, ancestor.value)), forkWork;
          }
        }
      }
      return best;
    }

    // -----------------------------------------------------------------------
    // Reorganisation
    // -----------------------------------------------------------------------

    // Back to genesis: the first writes of `reorg_to`.
    method ResetTo(genesis: Block)
      requires Sound(c) && genesis.index == 0
      modifies this
      ensures Valid() && canonical == [genesis] && settled == map[] && offset == 0
      ensures orphanPool == map[] && genesisPot == old(genesisPot)
    {
      hide *;
      ClearFields(genesis);
      CreditGenesis(genesis);
      ResetIsValid(genesis);
    }

    method ClearFields(genesis: Block)
      modifies this
      ensures canonical == blocks == [genesis] && offset == 0 && confirmed == {} && pendingTickets == []
      ensures pot == genesisPot == old(genesisPot)
      ensures currentDifficulty == initialDifficulty && anchor == None && chainWork == 0
      ensures blockHashes == map[genesis.hash := 0] && orphanPool == map[] && settled == map[]
    {
      hide *;
      ClearBlocks(genesis);
      ClearLedger();
    }

    method ClearBlocks(genesis: Block)
      modifies this`blocks, this`canonical, this`offset, this`blockHashes, this`orphanPool, this`settled
      ensures canonical == blocks == [genesis] && offset == 0
      ensures blockHashes == map[genesis.hash := 0] && orphanPool == map[] && settled == map[]
    {
      hide *;
      blocks, canonical := [genesis], [genesis];
      offset := 0;
      blockHashes := map[genesis.hash := 0];
      orphanPool := map[];
      settled := map[];
    }

    method ClearLedger()
      modifies this`confirmed, this`pendingTickets, this`pot, this`currentDifficulty, this`anchor, this`chainWork
      ensures confirmed == {} && pendingTickets == [] && pot == genesisPot
      ensures currentDifficulty == initialDifficulty && anchor == None && chainWork == 0
    {
      hide *;
      confirmed := {};
      pendingTickets := [];
      pot := genesisPot;
      currentDifficulty := initialDifficulty;
      anchor := None;
      chainWork := 0;
    }

    method CreditGenesis(genesis: Block)
      modifies this`balances
      ensures balances == CreditAll(map[], genesis.transactions)
    {
      balances := map[];
      ghost var txs := genesis.transactions;
      assert txs[..0] == [];
      for i := 0 to |genesis.transactions|
        invariant balances == CreditAll(map[], txs[..i])
      {
        assert Front(txs[..i + 1]) == txs[..i];
        var tx := genesis.transactions[i];
        balances := balances[tx.receiver := WrapAdd(Get(balances, tx.receiver), tx.amount)];
      }
      assert txs[..|txs|] == txs;
    }

    lemma ResetIsValid(genesis: Block)
      requires Sound(c) && genesis.index == 0 && canonical == blocks == [genesis] && offset == 0
      requires balances == CreditAll(map[], genesis.transactions) && confirmed == {} && pendingTickets == []
      requires pot == genesisPot && currentDifficulty == initialDifficulty && anchor == None && chainWork == 0
      requires blockHashes == map[genesis.hash := 0] && orphanPool == map[] && settled == map[]
      ensures Valid()
    {
      hide Sound, PoolHashed, PoolBounded, Tracks, Indexes, Recorded, CreditAll;
      GenesisTracks(c, Cfg(), genesis);
      EmptyPoolFits(c);
    }

    // One block of a replay.
    method ReplayStep(b: Block, tick: nat) returns (v: Verdict)
      requires Valid() && PendingAll(c, Cfg(), canonical, settled)
      modifies this`balances, this`pot, this`confirmed, this`pendingTickets, this`settled, this`chainWork
      modifies this`currentDifficulty, this`anchor, this`blocks, this`blockHashes, this`canonical
      ensures |old(canonical)| > 0 && v == Judge(c, FullView(c, Cfg(), old(canonical)), b, tick)
      ensures !v.Died? ==> Valid() && PendingAll(c, Cfg(), canonical, settled)
      ensures v.Refused? ==> canonical == old(canonical)
      ensures v.Extended? ==> canonical == old(canonical) + [b]
    {
      hide Consistent, Judge, Process, Accepts, PendingAll, PayoutsAt;
      WindowFacts();
      ValidParts();
      ghost var view, paid := ViewOf(), settled;
      JudgeOnWindow(c, Cfg(), canonical, view, b, tick);
      v := UpdateState(b, tick);
      if v.Extended? {
        JudgeExtends(c, view, b, tick);
        PendingAppend(c, Cfg(), old(canonical), view, b, paid);
      }
    }

    // Replay `list` on top of its genesis block, stopping at the first refusal.
    method ReplayAll(list: seq<Block>, now: nat, later: Clock) returns (killed: bool)
      requires Valid() && |list| > 0 && canonical == [list[0]] && settled == map[]
      modifies this`balances, this`pot, this`confirmed, this`pendingTickets, this`settled, this`chainWork
      modifies this`currentDifficulty, this`anchor, this`blocks, this`blockHashes, this`canonical
      ensures Cfg() == old(Cfg())
      ensures killed <==> Dies(c, Cfg(), list, now, later)
      ensures !killed ==> Valid() && PendingAll(c, Cfg(), canonical, settled)
      ensures !killed ==> canonical == Accepted(c, Cfg(), list, now, later)
    {
      hide *;
      NothingPending(c, Cfg(), canonical, settled);
      ghost var cfg := Cfg();
      CfgIs();
      assert list[..1] == canonical;
      for i := 1 to |list|
        invariant canonical == list[..i] && Cfg() == cfg
        invariant Valid() && PendingAll(c, Cfg(), canonical, settled)
        invariant Reach(c, cfg, list, 1, now, later) == Reach(c, cfg, list, i, now, later)
      {
        ReachStep(c, cfg, list, i, now, later);
        CfgIs();
        var verdict := ReplayStep(list[i], now + later(i));
        CfgIs();
        if !verdict.Extended? {
          ReachedMeans(c, cfg, list, i, now, later);
          return verdict.Died?;
        }
        assert list[..i] + [list[i]] == list[..i + 1];
      }
      ReachEnds(c, cfg, list, now, later);
      return false;
    }

    // What `reorg_to` sets out to replay: the given blocks, behind the database's
    // prefix when they do not start at genesis.
    ghost function Target(newCanonical: seq<Block>, db: Db?): seq<Block>
      requires |newCanonical| > 0
      reads db
    {
      if newCanonical[0].index > 0 && db != null then RangeOf(db.blocks, 0, newCanonical[0].index) + newCanonical
      else newCanonical
    }

    // `target` is empty when the historical blocks could not be read; the state is then untouched.
    method ReorgTo(newCanonical: seq<Block>, db: Db?, now: nat, later: Clock)
      returns (killed: bool, ghost target: seq<Block>)
      requires Valid() && |newCanonical| > 0
      requires newCanonical[0].index > 0 ==> db != null && db.Filed()
      modifies this
      ensures Cfg() == old(Cfg()) && (old(offset) == 0 ==> offset == 0)
      ensures target == [] ==>
        && !killed && Valid() && canonical == old(canonical) && ViewOf() == old(ViewOf()) && settled == old(settled)
        && orphanPool == old(orphanPool)
      ensures target != [] ==>
        && target == old(Target(newCanonical, db))
        && (killed <==> Dies(c, Cfg(), target, now, later))
        && (!killed ==> Valid() && Replayed(target, now, later))
      ensures newCanonical[0].index == 0 || db.reliable ==> target != []
    {
      hide *;
      ValidParts();
      CfgIs();
      target := [];
      var full := FullChain(newCanonical, db);
      if full.None? {
        return false, [];
      }
      target := full.value;
      killed := Rerun(full.value, now, later);
      CfgIs();
    }

    // Start over from genesis and replay.
    method Rerun(full: seq<Block>, now: nat, later: Clock) returns (killed: bool)
      requires Sound(c) && |full| > 0 && full[0].index == 0
      modifies this
      ensures Cfg() == old(Cfg()) && offset == 0
      ensures killed <==> Dies(c, Cfg(), full, now, later)
      ensures !killed ==> Valid() && Replayed(full, now, later)
    {
      hide *;
      CfgIs();
      ResetTo(full[0]);
      CfgIs();
      killed := ReplayAll(full, now, later);
      CfgIs();
      if !killed {
        ReplayedIntro(full, now, later);
      }
    }

    // The given blocks, behind the stored prefix when they do not start at genesis.
    method FullChain(newCanonical: seq<Block>, db: Db?) returns (full: Option<seq<Block>>)
      requires |newCanonical| > 0 && (newCanonical[0].index > 0 ==> db != null && db.Filed())
      ensures full.Some? ==> full.value == Target(newCanonical, db) && |full.value| > 0 && full.value[0].index == 0
      ensures newCanonical[0].index == 0 || db.reliable ==> full.Some?
    {
      hide RangeOf;
      if newCanonical[0].index == 0 {
        return Some(newCanonical);
      }
      var prefix := db.GetBlocksRange(0, newCanonical[0].index);
      if prefix.None? {
        return None;
      }
      RangeStarts(db.blocks, newCanonical[0].index);
      return Some(prefix.value + newCanonical);
    }

    // The node has replayed `target` as far as it is acceptable.
    ghost predicate Replayed(target: seq<Block>, now: nat, later: Clock)
      reads this
    {
      && |target| > 0 && canonical == Accepted(c, Cfg(), target, now, later)
      && PendingAll(c, Cfg(), canonical, settled) && orphanPool == map[] && offset == 0
    }

    lemma ReplayedIntro(target: seq<Block>, now: nat, later: Clock)
      requires |target| > 0 && canonical == Accepted(c, Cfg(), target, now, later)
      requires PendingAll(c, Cfg(), canonical, settled) && orphanPool == map[] && offset == 0
      ensures Replayed(target, now, later)
    {
      hide Accepted, PendingAll;
    }

    // The database holds exactly the canonical blocks, and answers every read.
    ghost predicate Mirrored(db: Db?)
      reads this, db
    {
      if db == null then offset == 0 else db.reliable && db.blocks == BlockTable(canonical)
    }

    lemma BeatsWindowMeans(fork: seq<Block>, a: nat)
      requires BeatsWindow(fork, a)
      ensures |fork| > 0 && offset <= a < Height() && SatWork(fork) > SatWork(blocks[a + 1 - offset..])
    {
    }

    lemma BeatsDeepMeans(db: Db?, fork: seq<Block>, a: nat)
      requires BeatsDeep(db, fork, a) && offset <= |canonical|
      ensures |fork| > 0 && db != null && a < offset && fork[0].index == a + 1
      ensures Mirrored(db) ==> SatWork(fork) > SatAdd128(SatWork(canonical[a + 1..offset]), SatWork(blocks))
    {
      hide SatWork, RangeOf;
      if Mirrored(db) {
        RangeOfChain(canonical, a + 1, offset - (a + 1));
      }
    }

    // A selected fork attaches to the canonical chain and really outweighs what it displaces.
    lemma ForkGains(db: Db?, fork: seq<Block>, a: nat)
      requires Valid() && (BeatsWindow(fork, a) || BeatsDeep(db, fork, a))
      ensures a < |canonical| && |fork| > 0
      ensures Mirrored(db) ==> Work(fork) > Work(canonical[a + 1..])
    {
      hide Consistent, SatWork, Work, BeatsWindow, BeatsDeep, Mirrored;
      WindowFacts();
      if BeatsWindow(fork, a) {
        BeatsWindowMeans(fork, a);
        WindowComparison(canonical, offset, fork, a);
      } else {
        BeatsDeepMeans(db, fork, a);
        if Mirrored(db) {
          DeepComparison(canonical, offset, fork, a);
        }
      }
    }

    // The blocks handed to `reorg_to`: window up to the ancestor and then the fork,
    // or the fork alone when the ancestor is older than the window.
    function Spliced(fork: seq<Block>, a: nat): seq<Block>
      reads this
    {
      if offset <= a < Height() then blocks[..a - offset + 1] + fork else fork
    }

    // What a switch to `fork` above block `a` replays, given the window before it:
    // the blocks handed over, behind what storage says comes before them.
    static ghost function TargetFor(db: Db?, window: seq<Block>, start: nat, fork: seq<Block>, a: nat): seq<Block>
      reads db
    {
      var given := if start <= a < start + |window| then window[..a - start + 1] + fork else fork;
      if given == [] then []
      else if given[0].index > 0 && db != null then RangeOf(db.blocks, 0, given[0].index) + given
      else given
    }

    static ghost predicate Aims(db: Db?, window: seq<Block>, start: nat, m: Move, target: seq<Block>)
      reads db
    {
      (m.Switches? || m.DiesOnFork?) && target != [] ==> target == TargetFor(db, window, start, m.fork, m.a)
    }

    lemma TargetForIs(db: Db?, fork: seq<Block>, a: nat)
      requires |Spliced(fork, a)| > 0
      ensures TargetFor(db, blocks, offset, fork, a) == Target(Spliced(fork, a), db)
    {
      hide RangeOf;
    }

    static lemma AimsAt(db: Db?, window: seq<Block>, start: nat, m: Move, target: seq<Block>)
      requires (m.Switches? || m.DiesOnFork?) && target != [] ==> target == TargetFor(db, window, start, m.fork, m.a)
      ensures Aims(db, window, start, m, target)
    {
      hide TargetFor;
    }

    function DisplacedAbove(a: nat): seq<Block>
      reads this
    {
      if offset <= a < Height() then blocks[a - offset + 1..] else []
    }

    lemma MirroredPrefix(db: Db?, n: nat)
      requires Mirrored(db) && db != null && n <= |canonical|
      ensures RangeOf(db.blocks, 0, n) == canonical[..n]
    {
      hide RangeOf;
      RangeOfChain(canonical, 0, n);
    }

    lemma TargetIsBranch(db: Db?, fork: seq<Block>, a: nat)
      requires Valid() && (BeatsWindow(fork, a) || BeatsDeep(db, fork, a)) && Mirrored(db)
      requires if db == null then offset == 0 else true
      ensures a < |canonical| && |Spliced(fork, a)| > 0
      ensures Target(Spliced(fork, a), db) == Branch(canonical, a, fork)
    {
      hide Consistent, SatWork, BeatsWindow, BeatsDeep, Mirrored, RangeOf;
      WindowFacts();
      if BeatsWindow(fork, a) {
        BeatsWindowMeans(fork, a);
        assert Spliced(fork, a)[0] == blocks[0];
        SplitTake(canonical, offset, a + 1, fork);
        if db != null {
          MirroredPrefix(db, offset);
        }
      } else {
        BeatsDeepMeans(db, fork, a);
        MirroredPrefix(db, a + 1);
      }
    }

    lemma DisplacedFacts(db: Db?, fork: seq<Block>, a: nat)
      requires Valid() && (BeatsWindow(fork, a) || BeatsDeep(db, fork, a))
      ensures DisplacedAbove(a) == if a >= offset then canonical[a + 1..] else []
    {
      hide Consistent, SatWork, BeatsWindow, BeatsDeep;
      WindowFacts();
      ForkGains(db, fork, a);
      if offset <= a {
        DropDrop(canonical, offset, a - offset + 1);
      }
    }

    method SwitchTo(fork: seq<Block>, a: nat, db: Db?, now: nat, later: Clock)
      returns (killed: bool, displaced: seq<Block>, ghost target: seq<Block>)
      requires Valid() && (BeatsWindow(fork, a) || BeatsDeep(db, fork, a))
      requires if db == null then offset == 0 else db.Filed()
      modifies this
      ensures Cfg() == old(Cfg()) && (old(offset) == 0 ==> offset == 0)
      ensures displaced == if a >= old(offset) then old(canonical)[a + 1..] else []
      ensures target == [] ==>
        && !killed && Valid() && canonical == old(canonical) && ViewOf() == old(ViewOf()) && settled == old(settled)
        && orphanPool == old(orphanPool)
      ensures target != [] ==>
        && (killed <==> Dies(c, Cfg(), target, now, later))
        && (!killed ==> Valid() && Replayed(target, now, later))
      ensures target != [] ==> target == TargetFor(db, old(blocks), old(offset), fork, a)
      ensures old(Mirrored(db)) ==> |target| > 0 && target == Branch(old(canonical), a, fork)
    {
      hide *;
      ForkGains(db, fork, a);
      DisplacedFacts(db, fork, a);
      SplicedStarts(db, fork, a);
      TargetForIs(db, fork, a);
      if Mirrored(db) {
        TargetIsBranch(db, fork, a);
        MirroredReads(db);
      }
      BranchParts(canonical, a, fork);
      var newCanonical := Spliced(fork, a);
      displaced := DisplacedAbove(a);
      killed, target := ReorgTo(newCanonical, db, now, later);
    }

    lemma MirroredReads(db: Db?)
      requires Mirrored(db)
      ensures db != null ==> db.reliable
    {
    }

    lemma SplicedStarts(db: Db?, fork: seq<Block>, a: nat)
      requires Valid() && (BeatsWindow(fork, a) || BeatsDeep(db, fork, a))
      requires if db == null then offset == 0 else true
      ensures |Spliced(fork, a)| > 0
      ensures Spliced(fork, a)[0].index > 0 ==> db != null
    {
      hide Consistent, SatWork;
      WindowFacts();
      if BeatsWindow(fork, a) {
        assert Spliced(fork, a)[0] == blocks[0];
      }
    }

    // -----------------------------------------------------------------------
    // The orphan pool
    // -----------------------------------------------------------------------

    // Pool full: drop an orphan of the lowest height.
    method EvictLowest()
      requires PoolHashed(c, orphanPool) && PoolBounded(orphanPool)
      modifies this`orphanPool
      ensures PoolHashed(c, orphanPool) && PoolBounded(orphanPool) && |orphanPool| < MAX_ORPHAN_POOL_SIZE
      ensures SubPool(orphanPool, old(orphanPool)) && LowestEvicted(old(orphanPool), orphanPool)
    {
      if |orphanPool| >= MAX_ORPHAN_POOL_SIZE {
        assert orphanPool != map[];
        ghost var w := LowestExists(orphanPool);
        var h :| h in orphanPool && forall g :: g in orphanPool ==> orphanPool[h].index <= orphanPool[g].index;
        RemoveKeepsBounds(c, orphanPool, h);
        orphanPool := orphanPool - {h};
      }
    }

    // Height full: drop the orphan with the smallest hash at that height.
    method EvictAtHeight(n: u64)
      requires PoolHashed(c, orphanPool) && PoolBounded(orphanPool)
      modifies this`orphanPool
      ensures PoolHashed(c, orphanPool) && PoolBounded(orphanPool) && |AtHeight(orphanPool, n)| < MAX_ORPHANS_PER_HEIGHT
      ensures |orphanPool| <= old(|orphanPool|) && SubPool(orphanPool, old(orphanPool))
      ensures HeightEvicted(old(orphanPool), orphanPool, n)
    {
      var here := AtHeight(orphanPool, n);
      if |here| >= MAX_ORPHANS_PER_HEIGHT {
        ghost var w := LeastExists(here);
        assert w in here && forall g :: g in here && g != w ==> Less(w, g);
        var h :| h in here && forall g :: g in here && g != h ==> Less(h, g);
        RemoveKeepsBounds(c, orphanPool, h);
        assert AtHeight(orphanPool - {h}, n) == here - {h};
        assert |here| <= MAX_ORPHANS_PER_HEIGHT;
        orphanPool := orphanPool - {h};
      }
    }

    method FileOrphan(b: Block)
      requires PoolHashed(c, orphanPool) && PoolBounded(orphanPool) && Hashed(c, b)
      modifies this`orphanPool
      ensures PoolHashed(c, orphanPool) && PoolBounded(orphanPool) && b.hash in orphanPool && orphanPool[b.hash] == b
      ensures OrphanAdmitted(old(orphanPool), orphanPool, b)
    {
      hide *;
      ghost var pool := orphanPool;
      EvictLowest();
      ghost var first := orphanPool;
      EvictAtHeight(b.index);
      AdmissionKeepsBounds(c, pool, first, orphanPool, b);
      OrphanAdmittedIntro(pool, first, orphanPool, b);
      orphanPool := orphanPool[b.hash := b];
    }

    method AdmitOrphan(b: Block)
      requires Valid() && Hashed(c, b)
      modifies this`orphanPool
      ensures Valid() && b.hash in orphanPool && orphanPool[b.hash] == b
      ensures OrphanAdmitted(old(orphanPool), orphanPool, b)
    {
      hide Consistent, SubPool, PoolHashed, PoolBounded, Hashed, OrphanAdmitted;
      ValidParts();
      ghost var pool := orphanPool;
      FileOrphan(b);
      OtherPool(c, Cfg(), canonical, ViewOf(), blockHashes, pool, settled, orphanPool);
    }

    // -----------------------------------------------------------------------
    // Fork-aware application
    // -----------------------------------------------------------------------

    // While storage holds the canonical chain, the two comparisons are one: heavier
    // than everything above the canonical parent.
    lemma OutweighsIsHeavier(db: Db?, fork: seq<Block>, a: nat)
      requires Valid() && Mirrored(db)
      ensures BeatsWindow(fork, a) || BeatsDeep(db, fork, a) <==> Heavier(StandingOf(), fork, a)
      ensures Outweighs(db, fork, a) <==> Heavier(StandingOf(), fork, a)
    {
      hide *;
      WindowFacts();
      WindowIsHeavier(fork, a);
      if BeatsDeep(db, fork, a) {
        DeepIsHeavier(db, fork, a);
      } else if Heavier(StandingOf(), fork, a) && a < offset {
        HeavierIsDeep(db, fork, a);
      }
      HeavierBelow(fork, a);
      OutweighsIs(db, fork, a);
    }

    lemma OutweighsIs(db: Db?, fork: seq<Block>, a: nat)
      requires Mirrored(db)
      ensures Outweighs(db, fork, a) <==> BeatsWindow(fork, a) || BeatsDeep(db, fork, a)
    {
      hide SatWork, RangeOf, BeatsWindow;
    }

    lemma HeavierBelow(fork: seq<Block>, a: nat)
      ensures Heavier(StandingOf(), fork, a) ==> a < |canonical|
      ensures BeatsWindow(fork, a) ==> a >= offset
    {
      hide SatWork;
    }

    // What lies above a block of the window is the same in the window and on the chain.
    lemma AboveIs(a: nat)
      requires Valid() && offset <= a < Height()
      ensures Height() == |canonical| && blocks[a + 1 - offset..] == canonical[a + 1..]
    {
      hide Consistent;
      WindowFacts();
      DropDrop(canonical, offset, a + 1 - offset);
    }

    lemma WindowIsHeavier(fork: seq<Block>, a: nat)
      requires Valid()
      ensures a >= offset ==> (BeatsWindow(fork, a) <==> Heavier(StandingOf(), fork, a))
    {
      hide Consistent, SatWork, Acyclic, PoolHashed;
      WindowFacts();
      if offset <= a < |canonical| {
        AboveIs(a);
        IsIndexed(a);
      }
    }

    // The two sums of the comparison below the window add up to the work above the ancestor.
    lemma DeepWork(db: Db, a: nat)
      requires Mirrored(db) && a < offset <= |canonical| && blocks == canonical[offset..]
      ensures var stored := RangeOf(db.blocks, a + 1, offset - (a + 1));
        SatAdd128(SatWork(stored), SatWork(blocks)) == SatWork(canonical[a + 1..])
      ensures RangeOf(db.blocks, a, 1) == canonical[a..a + 1] && db.reliable
    {
      hide SatWork, RangeOf;
      RangeOfChain(canonical, a, 1);
      RangeOfChain(canonical, a + 1, offset - (a + 1));
      TwoPartWork(canonical[a + 1..offset], blocks);
      Rejoin(canonical, a + 1, offset);
    }

    lemma DeepIsHeavier(db: Db?, fork: seq<Block>, a: nat)
      requires Valid() && Mirrored(db) && BeatsDeep(db, fork, a)
      ensures a < offset && Heavier(StandingOf(), fork, a)
    {
      hide Valid, SatWork, RangeOf, Mirrored;
      WindowIsTail();
      DeepWork(db, a);
    }

    lemma WindowIsTail()
      requires Valid()
      ensures offset < |canonical| && blocks == canonical[offset..]
    {
      hide Sound, PoolHashed, PoolBounded, Indexes, Recorded, ValidChain, Derived;
      HeightIs();
    }

    lemma HeavierIsDeep(db: Db?, fork: seq<Block>, a: nat)
      requires Valid() && Mirrored(db) && Heavier(StandingOf(), fork, a) && a < offset
      ensures BeatsDeep(db, fork, a)
    {
      hide Consistent, SatWork, RangeOf, Acyclic, PoolHashed, Derived, ValidChain, Tracks;
      WindowFacts();
      ValidParts();
      LedgerIsDerived();
      assert db != null;
      hide Mirrored;
      DeepWork(db, a);
      var h := fork[0].previousHash;
      if h in blockHashes {
        HashesDiffer(c, Cfg(), canonical, a, blockHashes[h]);
      }
    }

    lemma ContendsIsCandidate(db: Db?, tip: Hash, fork: seq<Block>, a: nat)
      requires Valid() && Mirrored(db)
      ensures Contends(db, tip, fork, a) ==> Candidate(StandingOf(), fork, a)
      ensures Candidate(StandingOf(), fork, a) ==> Contends(db, Last(fork).hash, fork, a)
      ensures Selectable(db, fork, a) ==> Candidate(StandingOf(), fork, a)
    {
      hide Valid, BeatsWindow, BeatsDeep, Heavier, Unreferenced;
      OutweighsIsHeavier(db, fork, a);
    }

    // What the search finds, in terms of the chain and the pool alone.
    lemma FoundIsHeaviest(db: Db?, found: Option<(seq<Block>, nat)>)
      requires Valid() && Mirrored(db)
      requires found.Some? ==> Selectable(db, found.value.0, found.value.1)
      requires forall tip, fork, a :: Contends(db, tip, fork, a) ==>
        found.Some? && SatWork(fork) <= SatWork(found.value.0)
      ensures if found.Some? then Heaviest(StandingOf(), found.value.0, found.value.1) else NothingHeavier(StandingOf())
    {
      hide *;
      if found.Some? {
        ContendsIsCandidate(db, [], found.value.0, found.value.1);
      }
      forall f, b | Candidate(StandingOf(), f, b) ensures found.Some? && SatWork(f) <= SatWork(found.value.0) {
        CandidateHasTip(StandingOf(), f, b);
        ContendsIsCandidate(db, [], f, b);
        assert Contends(db, Last(f).hash, f, b);
      }
      HeaviestIntro(StandingOf(), found);
    }

    lemma SelectableIsOffered(db: Db?, fork: seq<Block>, a: nat)
      requires Valid() && Selectable(db, fork, a)
      ensures Offered(StandingOf(), fork, a)
    {
      ForkGains(db, fork, a);
      if offset <= a {
        WindowIsHeavier(fork, a);
      }
      hide Valid, Heavier, Work, SatWork, Unreferenced;
    }

    lemma MoveIs(b: Block, db: Db?, now: nat)
      requires Valid()
      ensures |canonical| > 0 && |blocks| > 0 && |ViewOf().blocks| > 0 && offset + |blocks| == |canonical|
      ensures Judge(c, ViewOf(), b, now) == Judge(c, FullView(c, Cfg(), canonical), b, now)
      ensures b.index == Height() && b.previousHash == Last(blocks).hash <==> ExtendsTip(StandingOf(), b)
    {
      hide Consistent, Judge, Derived;
      ValidParts();
      WindowFacts();
      JudgeOnWindow(c, Cfg(), canonical, ViewOf(), b, now);
      assert Last(blocks) == Last(canonical);
    }

    lemma StandingIs()
      ensures StandingOf() == Standing(canonical, offset, orphanPool)
    {
    }

    // A block off the tip is kept; then the heaviest fork is switched to, if one
    // outweighs the main chain.
    method ApplyOrphan(b: Block, db: Db?, now: nat, later: Clock)
      returns (outcome: BlockOutcome, ghost m: Move, ghost target: seq<Block>)
      requires Valid() && |canonical| > 0
      requires Judge(c, FullView(c, Cfg(), canonical), b, now).Refused?
      requires !ExtendsTip(StandingOf(), b) && Plausible(c, Cfg(), StandingOf(), b)
      requires if db == null then offset == 0 else db.Filed()
      modifies this
      ensures Cfg() == old(Cfg()) && (!outcome.Killed? ==> Valid()) && (old(offset) == 0 ==> offset == 0)
      ensures m.Waits? || m.Switches? || m.DiesOnFork?
      ensures Reports(outcome, m, old(StandingOf()))
      ensures Chosen(c, Cfg(), old(StandingOf()), b, now, later, m, target, old(Mirrored(db)))
      ensures Aims(db, old(blocks), old(offset), m, target)
      ensures Moved(old(StandingOf()), old(ViewOf()), old(settled), b, m, target, now, later)
    {
      hide *;
      StandingPlaced();
      CfgIs();
      ViewIs();
      StandingIs();
      PlausibleIsHashed(c, Cfg(), StandingOf(), b);
      MirroredIs(db);
      ghost var s, cfg, mirrored, view, paid := StandingOf(), Cfg(), Mirrored(db), ViewOf(), settled;
      AdmitOrphan(b);
      CfgIs();
      ViewIs();
      StandingIs();
      MirroredIs(db);
      ghost var pool := orphanPool;
      ShelvedIntro(c, cfg, s, b, now, pool);
      target := [];
      var found := FindLongestFork(db);
      if mirrored {
        FoundIsHeaviest(db, found);
      }
      if found.None? {
        MoveAside(c, cfg, s, b, now, later, pool);
        m := Waits(pool);
        ReportsIs(Orphaned, m, s);
        ChosenIs(c, cfg, s, b, now, later, m, target, mirrored);
        AimsAt(db, old(blocks), old(offset), m, target);
        StaysPut(s, view, paid, b, m, target, now, later);
        return Orphaned, m, target;
      }
      outcome, m, target := SwitchToFound(b, found.value.0, found.value.1, db, now, later, s);
    }

    // The orphan is in the pool, and `fork` above block `a` is the one to take.
    method SwitchToFound(b: Block, fork: seq<Block>, a: nat, db: Db?, now: nat, later: Clock, ghost s: Standing)
      returns (outcome: BlockOutcome, ghost m: Move, ghost target: seq<Block>)
      requires Valid() && Selectable(db, fork, a) && (if db == null then offset == 0 else db.Filed())
      requires |s.chain| > 0 && s.chain == canonical && s.start == offset && WellPlaced(c, Cfg(), s)
      requires Shelved(c, Cfg(), s, b, now, orphanPool)
      requires Mirrored(db) ==> Heaviest(StandingOf(), fork, a)
      modifies this
      ensures Cfg() == old(Cfg()) && (!outcome.Killed? ==> Valid()) && (old(offset) == 0 ==> offset == 0)
      ensures m.Switches? || m.DiesOnFork?
      ensures Reports(outcome, m, s)
      ensures Chosen(c, Cfg(), s, b, now, later, m, target, old(Mirrored(db)))
      ensures Aims(db, old(blocks), old(offset), m, target)
      ensures Moved(s, old(ViewOf()), old(settled), b, m, target, now, later)
    {
      hide *;
      SelectableBeats(db, fork, a);
      SelectableIsOffered(db, fork, a);
      StandingIs();
      ViewIs();
      ghost var cfg, pool, mirrored, view, paid := Cfg(), orphanPool, Mirrored(db), ViewOf(), settled;
      MoveToFork(c, cfg, s, b, now, later, pool, fork, a);
      var killed, displaced;
      killed, displaced, target := SwitchTo(fork, a, db, now, later);
      ViewIs();
      m := if killed then DiesOnFork(pool, fork, a) else Switches(pool, fork, a);
      outcome := if killed then Killed else Reorged(displaced, fork);
      ReportsIs(outcome, m, s);
      ChosenIs(c, cfg, s, b, now, later, m, target, mirrored);
      AimsAt(db, old(blocks), old(offset), m, target);
      MovedToFork(s, view, paid, b, m, target, now, later);
    }

    lemma StandingPlaced()
      requires Valid()
      ensures |canonical| > 0 && WellPlaced(c, Cfg(), StandingOf()) && Acyclic(c)
    {
      hide Consistent, ValidChain, Sound, PoolHashed, AtHeight, Derived;
      ValidParts();
      LedgerIsDerived();
      SoundIsAcyclic(c);
    }

    // What the fields are after a move that began at `s`. Where storage failed a
    // read a switch leaves them alone; else the target is replayed.
    ghost predicate Moved(s: Standing, view: View, paid: map<nat, seq<Payout>>, b: Block, m: Move, target: seq<Block>,
                          now: nat, later: Clock)
      reads this
    {
      match m
      case Extends =>
        && |view.blocks| > 0 && Accepts(c, view, b)
        && canonical == s.chain + [b] && blocks == view.blocks + [b] && orphanPool == s.pool && offset == s.start
        && ViewOf() == Appended(view, b, Process(c, view, b).ledger)
        && settled == Note(paid, b.index, Process(c, view, b).payouts)
      case Refuses => Stays(s, view, paid) && orphanPool == s.pool
      case Waits(pool) => Stays(s, view, paid) && orphanPool == pool
      case Switches(pool, _, _) =>
        if target == [] then Stays(s, view, paid) && orphanPool == pool
        else !Dies(c, Cfg(), target, now, later) && Replayed(target, now, later)
      case DiesOnFork(_, _, _) => target != [] && Dies(c, Cfg(), target, now, later)
      case DiesOnBlock => true
    }

    ghost predicate Stays(s: Standing, view: View, paid: map<nat, seq<Payout>>)
      reads this
    {
      canonical == s.chain && offset == s.start && ViewOf() == view && settled == paid
    }

    lemma StaysPut(s: Standing, view: View, paid: map<nat, seq<Payout>>, b: Block, m: Move, target: seq<Block>,
                   now: nat, later: Clock)
      requires canonical == s.chain && offset == s.start && ViewOf() == view && settled == paid
      requires m.Refuses? || m.Waits?
      requires orphanPool == if m.Waits? then m.pool else s.pool
      ensures Moved(s, view, paid, b, m, target, now, later)
    {
    }

    lemma MovedToFork(s: Standing, view: View, paid: map<nat, seq<Payout>>, b: Block, m: Move, target: seq<Block>,
                      now: nat, later: Clock)
      requires m.Switches? || m.DiesOnFork?
      requires target == [] ==>
        && m.Switches? && canonical == s.chain && offset == s.start && ViewOf() == view && settled == paid
        && orphanPool == m.pool
      requires target != [] ==> (m.DiesOnFork? <==> Dies(c, Cfg(), target, now, later))
      requires target != [] && m.Switches? ==> Replayed(target, now, later)
      ensures Moved(s, view, paid, b, m, target, now, later)
    {
      hide Dies, Replayed;
    }

    lemma ExtendedSo(s: Standing, view: View, paid: map<nat, seq<Payout>>, b: Block, target: seq<Block>, now: nat,
                     later: Clock)
      requires |view.blocks| > 0 && Accepts(c, view, b)
      requires canonical == s.chain + [b] && orphanPool == s.pool && view.offset == s.start
      requires ViewOf() == Appended(view, b, Process(c, view, b).ledger)
      requires settled == Note(paid, b.index, Process(c, view, b).payouts)
      ensures Moved(s, view, paid, b, Extends, target, now, later)
    {
      hide Process, Admissible, Note;
    }

    lemma MirroredIs(db: Db?)
      ensures Mirrored(db) <==> if db == null then offset == 0 else db.reliable && db.blocks == BlockTable(canonical)
    {
    }

    // Take the block up, keep it as an orphan, or turn it away; then look for a heavier fork.
    method ApplyInMemory(b: Block, db: Db?, now: nat, later: Clock)
      returns (outcome: BlockOutcome, ghost m: Move, ghost target: seq<Block>)
      requires Valid()
      requires if db == null then offset == 0 else db.Filed()
      modifies this
      ensures Cfg() == old(Cfg()) && (!outcome.Killed? ==> Valid()) && (old(offset) == 0 ==> offset == 0)
      ensures |old(canonical)| > 0 && Reports(outcome, m, old(StandingOf()))
      ensures Chosen(c, Cfg(), old(StandingOf()), b, now, later, m, target, old(Mirrored(db)))
      ensures Aims(db, old(blocks), old(offset), m, target)
      ensures Moved(old(StandingOf()), old(ViewOf()), old(settled), b, m, target, now, later)
    {
      hide *;
      MoveIs(b, db, now);
      StandingPlaced();
      CfgIs();
      ViewIs();
      StandingIs();
      MirroredIs(db);
      ghost var s, cfg, view, paid, mirrored := StandingOf(), Cfg(), ViewOf(), settled, Mirrored(db);
      MoveAtTip(c, cfg, s, b, now, later);
      target := [];
      AimsAt(db, blocks, offset, Refuses, target);
      AimsAt(db, blocks, offset, Extends, target);
      AimsAt(db, blocks, offset, DiesOnBlock, target);
      var verdict := UpdateState(b, now);
      CfgIs();
      ViewIs();
      StandingIs();
      MirroredIs(db);
      if verdict.Extended? {
        m := Extends;
        JudgeExtends(c, view, b, now);
        ReportsIs(Applied, m, s);
        MayIsAdmitted(c, cfg, s, b, now, later, m);
        ChosenIs(c, cfg, s, b, now, later, m, target, mirrored);
        ExtendedSo(s, view, paid, b, target, now, later);
        return Applied, m, target;
      }
      if verdict.Died? {
        m := DiesOnBlock;
        ReportsIs(Killed, m, s);
        MayIsAdmitted(c, cfg, s, b, now, later, m);
        ChosenIs(c, cfg, s, b, now, later, m, target, mirrored);
        DiedSo(s, view, paid, b, target, now, later);
        return Killed, m, target;
      }
      m := Refuses;
      if b.index == Height() && b.previousHash == Last(blocks).hash {
        RefusedSo(s, view, paid, b, target, now, later, mirrored);
        return Rejected, m, target;
      }
      var plausible := ValidateBlockStandalone(b);
      if !plausible {
        RefusedSo(s, view, paid, b, target, now, later, mirrored);
        return Rejected, m, target;
      }
      outcome, m, target := ApplyOrphan(b, db, now, later);
    }

    lemma RefusedSo(s: Standing, view: View, paid: map<nat, seq<Payout>>, b: Block, target: seq<Block>,
                    now: nat, later: Clock, mirrored: bool)
      requires WellPlaced(c, Cfg(), s) && |s.chain| > 0 && May(c, Cfg(), s, b, now, later, Refuses)
      requires canonical == s.chain && offset == s.start && ViewOf() == view && settled == paid && orphanPool == s.pool
      ensures Reports(Rejected, Refuses, s) && Moved(s, view, paid, b, Refuses, target, now, later)
      ensures Chosen(c, Cfg(), s, b, now, later, Refuses, target, mirrored)
    {
      hide *;
      ReportsIs(Rejected, Refuses, s);
      MayIsAdmitted(c, Cfg(), s, b, now, later, Refuses);
      ChosenIs(c, Cfg(), s, b, now, later, Refuses, target, mirrored);
      StaysPut(s, view, paid, b, Refuses, target, now, later);
    }

    lemma DiedSo(s: Standing, view: View, paid: map<nat, seq<Payout>>, b: Block, target: seq<Block>, now: nat,
                 later: Clock)
      ensures Moved(s, view, paid, b, DiesOnBlock, target, now, later)
    {
    }

    lemma SelectableBeats(db: Db?, fork: seq<Block>, a: nat)
      requires Selectable(db, fork, a)
      ensures BeatsWindow(fork, a) || BeatsDeep(db, fork, a)
    {
      hide BeatsWindow, BeatsDeep;
    }

    lemma WholeWindow()
      requires Valid()
      ensures offset == 0 ==> blocks == canonical
    {
      WindowFacts();
    }

    lemma ValidParts()
      requires Valid()
      ensures Tracks(c, Cfg(), canonical, ViewOf()) && Recorded(c, Cfg(), canonical, settled) && Sound(c)
      ensures PoolHashed(c, orphanPool) && PoolBounded(orphanPool)
    {
      hide Tracks, Recorded, Sound, PoolHashed, PoolBounded, Indexes;
    }

    // -----------------------------------------------------------------------
    // Persistence
    // -----------------------------------------------------------------------

    method PersistApplied(db: Db, ghost before: seq<Block>)
      requires Valid() && |blocks| > 0 && |before| > 0 && canonical == before + [Last(blocks)]
      modifies this`settled, db
      ensures Valid() && (old(db.Filed()) ==> db.Filed())
      ensures old(InStep(c, Cfg(), before, db)) &&
        old(Lookup(settled, |before|)) == PayoutsAt(c, Cfg(), canonical, |before|)
        ==> InStep(c, Cfg(), canonical, db)
    {
      hide Consistent, Derived, PayoutsAt, AddOne, TicketTable, Lookup, Recorded, TablesOf;
      WindowFacts();
      LedgerIsDerived();
      var b := Last(blocks);
      var payouts := DrainPayoutsForBlock(b.index);
      if db.Contents() == TablesOf(c, Cfg(), before) {
        AppendSync(c, Cfg(), before, b, db.Contents(), pendingTickets);
      }
      var saved := db.SaveAppliedBlock(b, pendingTickets, payouts);
    }

    lemma LedgerIsDerived()
      requires Valid()
      ensures |canonical| > 0 && LedgerOf() == Derived(c, Cfg(), canonical) && ValidChain(c, Cfg(), canonical)
    {
      hide ValidChain, Derived, Sound, Indexes, PoolHashed, PoolBounded, Recorded;
    }

    // Collect the payouts of the new blocks, each taken once.
    method DrainAll(newBlocks: seq<Block>) returns (pays: map<nat, seq<Payout>>)
      modifies this`settled
      ensures pays == Taken(old(settled), IndicesOf(newBlocks)) && settled == old(settled) - IndicesOf(newBlocks)
      ensures old(Valid()) ==> Valid()
    {
      hide Consistent, IndicesOf, Taken;
      pays := map[];
      NothingTaken(settled);
      assert newBlocks[..0] == [];
      for i := 0 to |newBlocks|
        invariant pays == Taken(old(settled), IndicesOf(newBlocks[..i]))
        invariant settled == old(settled) - IndicesOf(newBlocks[..i])
        invariant old(Valid()) ==> Valid()
      {
        var n := newBlocks[i].index;
        var ps := DrainPayoutsForBlock(n);
        TakenNext(old(settled), newBlocks, i);
        if ps != [] {
          pays := pays[n := ps];
        }
      }
      assert newBlocks[..|newBlocks|] == newBlocks;
    }

    method PersistReorg(db: Db, oldBlocks: seq<Block>, newBlocks: seq<Block>, ghost before: seq<Block>, ghost a: nat)
      requires Valid() && a < |before| && oldBlocks == before[a + 1..]
      requires forall i :: 0 <= i < |oldBlocks| ==> oldBlocks[i].index > 0
      modifies this`settled, db
      ensures Valid() && (old(db.Filed()) ==> db.Filed())
      ensures ValidChain(c, Cfg(), before) && old(InStep(c, Cfg(), before, db)) &&
        canonical == Branch(before, a, newBlocks) && old(PendingAll(c, Cfg(), canonical, settled))
        ==> InStep(c, Cfg(), canonical, db)
      ensures db.reliable && newBlocks != [] ==> HoldsLast(db.blocks, newBlocks)
    {
      hide Consistent, Derived, PayoutsAt, AddAll, DisplaceAll, TicketTable, ValidChain, TablesOf, PendingAll;
      hide Lookup, Branch, Taken, IndicesOf, HoldsLast;
      LedgerIsDerived();
      var pays := DrainAll(newBlocks);
      if ValidChain(c, Cfg(), before) && canonical == Branch(before, a, newBlocks) &&
        old(PendingAll(c, Cfg(), canonical, settled))
      {
        TakenTells(old(settled), newBlocks);
        DrainedTells(c, Cfg(), before, a, newBlocks, old(settled), pays);
        BranchFacts(c, Cfg(), before, a, newBlocks);
        if InStep(c, Cfg(), before, db) {
          ReorgSync(c, Cfg(), before, a, newBlocks, db.Contents(), pays, pendingTickets);
        }
      }
      ghost var s := db.Contents();
      var saved := db.ApplyReorgIncremental(oldBlocks, newBlocks, pendingTickets, pays);
      if newBlocks != [] {
        LastIsHeld(DisplaceAll(s, oldBlocks), map[], newBlocks, pays, TicketTable(pendingTickets));
      }
    }

    method SaveEach(db: Db, newBlocks: seq<Block>)
      modifies db`blocks
      ensures db.reliable ==> db.blocks == SaveAll(old(db.blocks), newBlocks)
      ensures old(db.Filed()) ==> db.Filed()
    {
      assert newBlocks[..0] == [];
      for i := 0 to |newBlocks|
        invariant db.reliable ==> db.blocks == SaveAll(old(db.blocks), newBlocks[..i])
        invariant old(db.Filed()) ==> db.Filed()
      {
        var saved := db.SaveBlockIndexed(newBlocks[i]);
        assert Front(newBlocks[..i + 1]) == newBlocks[..i];
      }
      assert newBlocks[..|newBlocks|] == newBlocks;
    }

    // Exactly when the new chain is no shorter than the old one are no stale
    // blocks left behind; the index built from the table is then right too.
    method PersistDeep(db: Db, newBlocks: seq<Block>, ghost before: seq<Block>, ghost a: nat)
      requires Valid() && a < |before|
      modifies this`settled, db
      ensures Valid() && (old(db.Filed()) ==> db.Filed())
      ensures old(InStep(c, Cfg(), before, db)) &&
        canonical == Branch(before, a, newBlocks) && old(PendingAll(c, Cfg(), canonical, settled))
        ==> (InStep(c, Cfg(), canonical, db) <==> |canonical| >= |before|)
      ensures db.reliable && newBlocks != [] ==> HoldsLast(db.blocks, newBlocks)
    {
      hide Consistent, InStep, Derived, ValidChain, PendingAll, Recorded, Tracks, Sound, PoolHashed;
      hide PoolBounded, Branch, Fits, HoldsLast;
      hide SaveAll, BlockTable, Tabulates, SpecOf, TicketTable, FiledIn;
      ValidParts();
      LedgerIsDerived();
      ghost var ready := InStep(c, Cfg(), before, db);
      if ready {
        InStepFacts(c, Cfg(), before, db);
      }
      var allPayouts := TakeAllSettledPayouts();
      ghost var table := db.blocks;
      SaveEach(db, newBlocks);
      if newBlocks != [] {
        LastIsHeld(db.Contents(), table, newBlocks, map[], map[]);
      }
      var rebuilt := db.RebuildIndicesWithTickets(pendingTickets, allPayouts);
      if ready && canonical == Branch(before, a, newBlocks) && old(PendingAll(c, Cfg(), canonical, settled)) {
        DeepSync(c, Cfg(), before, a, newBlocks, allPayouts, db);
      }
    }

    method FinishApplied(db: Db, b: Block, ghost before: seq<Block>, ghost view: View,
                         ghost paid: map<nat, seq<Payout>>)
      requires Valid() && db.Filed() && canonical == before + [b] && blocks == view.blocks + [b]
      requires Tracks(c, Cfg(), before, view) && Accepts(c, view, b) && Recorded(c, Cfg(), before, paid)
      requires settled == Note(paid, b.index, Process(c, view, b).payouts)
      modifies this`settled, this`blocks, this`offset, this`blockHashes, db
      ensures Valid() && db.Filed() && Cfg() == old(Cfg()) && offset == Max(old(offset), |canonical| - REORG_WINDOW)
      ensures old(InStep(c, Cfg(), before, db)) ==> InStep(c, Cfg(), canonical, db)
    {
      hide Consistent, Tracks, Accepts, Recorded, Process, PayoutsAt, InStep, Note, Lookup;
      NoteTells(c, Cfg(), before, view, b, paid);
      PersistApplied(db, before);
      PruneToWindow();
    }

    // What the writes after a switch leave in the tables, however far the replay got.
    method FinishReorged(db: Db, oldBlocks: seq<Block>, newBlocks: seq<Block>, ghost before: seq<Block>, ghost a: nat)
      requires Valid() && db.Filed() && ValidChain(c, Cfg(), before) && a < |before|
      requires oldBlocks == before[a + 1..] || oldBlocks == []
      modifies this`settled, this`blocks, this`offset, this`blockHashes, db
      ensures Valid() && db.Filed() && Cfg() == old(Cfg()) && offset == Max(old(offset), |canonical| - REORG_WINDOW)
      ensures old(InStep(c, Cfg(), before, db)) && canonical == Branch(before, a, newBlocks) &&
        old(PendingAll(c, Cfg(), canonical, settled))
        ==> (InStep(c, Cfg(), canonical, db) <==> oldBlocks != [] || |canonical| >= |before|)
      ensures db.reliable && newBlocks != [] ==> HoldsLast(db.blocks, newBlocks)
    {
      hide Consistent, PayoutsAt, InStep, ValidChain, PendingAll, Branch, Work, HoldsLast;
      if oldBlocks != [] {
        forall i | 0 <= i < |oldBlocks| ensures oldBlocks[i].index > 0 {
          IndicesAreHeights(c, Cfg(), before, a + 1 + i);
        }
        PersistReorg(db, oldBlocks, newBlocks, before, a);
      } else {
        PersistDeep(db, newBlocks, before, a);
      }
      PruneToWindow();
    }

    // Apply a block and persist what became of it.
    method ApplyBlock(db: Db, b: Block, now: nat, later: Clock)
      returns (outcome: BlockOutcome, ghost m: Move, ghost target: seq<Block>)
      requires Valid() && db.Filed()
      modifies this, db
      ensures Cfg() == old(Cfg()) && (!outcome.Killed? ==> Valid() && db.Filed())
      // Live equals replay.
      ensures !outcome.Killed? ==> |canonical| > 0 && LedgerOf() == Derived(c, Cfg(), canonical)
      // Which move is made, and where it leads.
      ensures |old(canonical)| > 0 && Reports(outcome, m, old(StandingOf()))
      ensures Chosen(c, Cfg(), old(StandingOf()), b, now, later, m, target, old(Mirrored(db)))
      ensures old(Aims(db, blocks, offset, m, target))
      ensures !outcome.Killed? ==>
        LeadsTo(c, Cfg(), old(StandingOf()), old(Mirrored(db)), b, now, later, m, target, StandingOf())
      ensures m.Extends? ==> |old(blocks)| > 0 && Accepts(c, old(ViewOf()), b)
      ensures m.Refuses? || m.Waits? ==> ViewOf() == old(ViewOf())
      // The tables stay those of the canonical chain exactly when the move keeps them.
      ensures old(InStep(c, Cfg(), canonical, db)) && !outcome.Killed? ==>
        (InStep(c, Cfg(), canonical, db) <==> KeepsTables(c, Cfg(), old(StandingOf()), now, later, m))
    {
      hide *;
      StandingPlaced();
      LedgerIsDerived();
      ValidParts();
      InStepIsMirrored(db);
      CfgIs();
      StandingIs();
      ViewIs();
      ghost var cfg, s, view, paid, mirrored := Cfg(), StandingOf(), ViewOf(), settled, Mirrored(db);
      ghost var before, synced := canonical, InStep(c, Cfg(), canonical, db);
      if synced {
        InStepFacts(c, Cfg(), canonical, db);
      }
      outcome, m, target := ApplyInMemory(b, db, now, later);
      MoveReported(outcome, m, s);
      ChosenMeans(c, cfg, s, b, now, later, m, target, mirrored);
      match outcome {
        case Applied =>
          MovedAtTip(s, view, paid, b, m, target, now, later);
          FinishApplied(db, b, before, view, paid);
          LandsAtTip(s, b, m, target, now, later, mirrored);
        case Reorged(oldBlocks, newBlocks) =>
          RetracedMeans(s, view, paid, b, m, target, now, later);
          FinishReorged(db, oldBlocks, newBlocks, before, m.a);
          LandsOnFork(s, b, m, target, now, later, mirrored);
          if synced {
            TablesAfter(db, s, b, now, later, m);
          }
        case _ =>
          LandsAside(s, view, paid, b, m, target, now, later, mirrored);
      }
      if !outcome.Killed? {
        LedgerIsDerived();
      }
    }

    lemma InStepIsMirrored(db: Db)
      ensures InStep(c, Cfg(), canonical, db) ==> |canonical| > 0 && Mirrored(db)
    {
      hide IndexOf, PayoutsOf, TicketTable;
    }

    // A switch keeps the tables exactly when the whole fork was adopted and the
    // writes that followed it were enough.
    lemma TablesAfter(db: Db, s: Standing, b: Block, now: nat, later: Clock, m: Move)
      requires WellPlaced(c, Cfg(), s) && |s.chain| > 0
      requires May(c, Cfg(), s, b, now, later, m) && m.Switches? && m.a < |s.chain|
      requires canonical == Accepted(c, Cfg(), Branch(s.chain, m.a, m.fork), now, later)
      requires m.fork != [] && HoldsLast(db.blocks, m.fork)
      requires canonical == Branch(s.chain, m.a, m.fork) ==>
        (InStep(c, Cfg(), canonical, db) <==> (s.start <= m.a && m.a + 1 < |s.chain|) || |canonical| >= |s.chain|)
      ensures InStep(c, Cfg(), canonical, db) <==> KeepsTables(c, Cfg(), s, now, later, m)
    {
      var alt := Branch(s.chain, m.a, m.fork);
      AcceptedWhole(c, Cfg(), alt, now, later);
      hide WellPlaced, May, Accepted, Adopts, InStep, Branch;
      if canonical != alt && InStep(c, Cfg(), canonical, db) {
        InStepFacts(c, Cfg(), canonical, db);
        var n := Last(m.fork).index;
        assert db.blocks[n] == canonical[n] == Last(m.fork);
        ShortOfTip(c, Cfg(), s, b, now, later, m, n);
        assert false;
      }
    }

    lemma RetracedMeans(s: Standing, view: View, paid: map<nat, seq<Payout>>, b: Block, m: Move, target: seq<Block>,
                        now: nat, later: Clock)
      requires Moved(s, view, paid, b, m, target, now, later) && m.Switches?
      ensures target == [] ==> canonical == s.chain
      ensures target != [] ==>
        && canonical == Accepted(c, Cfg(), target, now, later)
        && PendingAll(c, Cfg(), canonical, settled) && orphanPool == map[] && offset == 0
    {
      hide PendingAll, Accepted, Dies;
    }

    lemma MovedAtTip(s: Standing, view: View, paid: map<nat, seq<Payout>>, b: Block, m: Move, target: seq<Block>,
                     now: nat, later: Clock)
      requires Moved(s, view, paid, b, m, target, now, later) && m.Extends?
      ensures |view.blocks| > 0 && Accepts(c, view, b)
      ensures canonical == s.chain + [b] && blocks == view.blocks + [b] && orphanPool == s.pool && offset == s.start
      ensures settled == Note(paid, b.index, Process(c, view, b).payouts)
    {
      hide Process, Admissible, Note;
    }

    lemma LandsAtTip(s: Standing, b: Block, m: Move, target: seq<Block>, now: nat, later: Clock, mirrored: bool)
      requires m.Extends? && canonical == s.chain + [b] && orphanPool == s.pool
      requires offset == Max(s.start, |canonical| - REORG_WINDOW)
      ensures LeadsTo(c, Cfg(), s, mirrored, b, now, later, m, target, StandingOf())
      ensures KeepsTables(c, Cfg(), s, now, later, m)
    {
    }

    lemma LandsOnFork(s: Standing, b: Block, m: Move, target: seq<Block>, now: nat, later: Clock, mirrored: bool)
      requires m.Switches? && m.a < |s.chain| && (mirrored ==> target == Branch(s.chain, m.a, m.fork))
      requires canonical == if target == [] then s.chain else Accepted(c, Cfg(), target, now, later)
      requires target != [] ==> orphanPool == map[] && offset == Max(0, |canonical| - REORG_WINDOW)
      ensures LeadsTo(c, Cfg(), s, mirrored, b, now, later, m, target, StandingOf())
    {
      hide Accepted;
    }

    lemma LandsAside(s: Standing, view: View, paid: map<nat, seq<Payout>>, b: Block, m: Move, target: seq<Block>,
                     now: nat, later: Clock, mirrored: bool)
      requires Moved(s, view, paid, b, m, target, now, later)
      ensures m.Refuses? || m.Waits? ==>
        && LeadsTo(c, Cfg(), s, mirrored, b, now, later, m, target, StandingOf())
        && KeepsTables(c, Cfg(), s, now, later, m)
        && canonical == s.chain && ViewOf() == view
    {
      hide Dies, Replayed;
    }
  }

  lemma MoveReported(outcome: BlockOutcome, m: Move, s: Standing)
    requires Reports(outcome, m, s)
    ensures outcome.Applied? <==> m.Extends?
    ensures outcome.Killed? <==> m.DiesOnBlock? || m.DiesOnFork?
    ensures outcome.Rejected? <==> m.Refuses?
    ensures outcome.Orphaned? <==> m.Waits?
    ensures outcome.Reorged? <==> m.Switches?
    ensures m.Switches? ==>
      && m.a < |s.chain| && outcome.newBlocks == m.fork && outcome.oldBlocks == Displaced(s, m.a)
      && outcome.oldBlocks == if m.a >= s.start then s.chain[m.a + 1..] else []
  {
  }

  // The table holds the newest of the saved blocks.
  ghost predicate HoldsLast(table: map<nat, Block>, saved: seq<Block>)
    requires saved != []
  {
    Last(saved).index in table && table[Last(saved).index] == Last(saved)
  }

  lemma LastIsHeld(s: Store, m: map<nat, Block>, saved: seq<Block>, pays: map<nat, seq<Payout>>, t: map<nat, Address>)
    requires saved != []
    ensures HoldsLast(AddAll(s, saved, pays).(tickets := t).blocks, saved) && HoldsLast(SaveAll(m, saved), saved)
  {
  }

  lemma ReportsIs(outcome: BlockOutcome, m: Move, s: Standing)
    requires m.Extends? ==> outcome == Applied
    requires m.Refuses? ==> outcome == Rejected
    requires m.Waits? ==> outcome == Orphaned
    requires m.Switches? ==>
      m.a < |s.chain| && outcome == Reorged(if m.a >= s.start then s.chain[m.a + 1..] else [], m.fork)
    requires m.DiesOnBlock? || m.DiesOnFork? ==> outcome == Killed
    ensures Reports(outcome, m, s)
  {
  }

  // Once a transfer is skipped the loop cannot be completed.
  lemma {:induction false} ApplyAllStops(l: Ledger, txs: seq<Tx>, n: nat)
    requires n <= |txs| && ApplyAll(l, txs[..n]).None?
    ensures ApplyAll(l, txs).None?
  {
    if n == |txs| {
      assert txs[..n] == txs;
    } else {
      assert Front(txs)[..n] == txs[..n];
      ApplyAllStops(l, Front(txs), n);
    }
  }

  function IndicesOf(blocks: seq<Block>): set<nat> {
    set i | 0 <= i < |blocks| :: blocks[i].index as nat
  }

  // The non-empty payout lists filed under `hs`.
  function Taken(paid: map<nat, seq<Payout>>, hs: set<nat>): map<nat, seq<Payout>> {
    map n | n in paid && n in hs && paid[n] != [] :: paid[n]
  }

  lemma NothingTaken(paid: map<nat, seq<Payout>>)
    ensures IndicesOf([]) == {} && Taken(paid, {}) == map[] && paid - {} == paid
  {
  }

  lemma TakenNext(paid: map<nat, seq<Payout>>, blocks: seq<Block>, i: nat)
    requires i < |blocks|
    ensures var hs, n, rest := IndicesOf(blocks[..i]), blocks[i].index, paid - IndicesOf(blocks[..i]);
      && IndicesOf(blocks[..i + 1]) == hs + {n}
      && paid - (hs + {n}) == rest - {n}
      && Taken(paid, hs + {n}) ==
         if Lookup(rest, n) != [] then Taken(paid, hs)[n := Lookup(rest, n)] else Taken(paid, hs)
  {
    hide IndicesOf;
    IndicesAppend(blocks, i);
  }

  lemma IndicesAppend(blocks: seq<Block>, i: nat)
    requires i < |blocks|
    ensures IndicesOf(blocks[..i + 1]) == IndicesOf(blocks[..i]) + {blocks[i].index}
  {
    var longer, shorter := blocks[..i + 1], blocks[..i];
    assert longer[i] == blocks[i] && forall j :: 0 <= j < i ==> longer[j] == shorter[j];
  }

  lemma TakenTells(paid: map<nat, seq<Payout>>, blocks: seq<Block>)
    ensures forall i :: 0 <= i < |blocks| ==>
      Lookup(Taken(paid, IndicesOf(blocks)), blocks[i].index) == Lookup(paid, blocks[i].index)
  {
    assert forall i :: 0 <= i < |blocks| ==> blocks[i].index in IndicesOf(blocks);
  }

  lemma TraceFacts(pool: Pool, tip: Hash, fork: seq<Block>)
    requires IsTrace(pool, tip, fork)
    ensures |fork| > 0 && Last(fork).hash == tip
    ensures forall t :: IsTrace(pool, tip, t) ==> t == fork
  {
    forall t | IsTrace(pool, tip, t) ensures t == fork {
      TraceIsUnique(pool, tip, t, fork);
    }
  }

  lemma HashesOfAppend(bs: seq<Block>, b: Block)
    ensures HashesOf(bs + [b]) == HashesOf(bs) + {b.hash}
  {
    var longer := bs + [b];
    assert longer[|bs|] == b;
    assert forall i :: 0 <= i < |bs| ==> longer[i] == bs[i];
  }

  lemma JudgeExtends(c: Crypto, v: View, b: Block, now: nat)
    requires |v.blocks| > 0 && Judge(c, v, b, now).Extended?
    ensures Accepts(c, v, b)
  {
    hide Admissible, Process;
  }

  lemma {:induction false} LowestExists(pool: Pool) returns (h: Hash)
    requires pool != map[]
    ensures h in pool && forall g :: g in pool ==> pool[h].index <= pool[g].index
    decreases |pool|
  {
    h :| h in pool;
    var rest := pool - {h};
    if rest == map[] {
      assert forall g :: g in pool && g != h ==> g in rest;
    } else {
      var l := LowestExists(rest);
      assert forall g :: g in pool && g != h ==> g in rest && rest[g] == pool[g];
      if pool[l].index < pool[h].index {
        h := l;
      }
    }
  }
}
