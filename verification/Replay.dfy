/** Replaying a chain from genesis with every block in memory: the reference the running node is compared with. */
module Replay {
  import opened Prelude
  import opened Types
  import opened Consensus
  import opened Conservation
  import opened Room

  // What the node is configured with before the first block.
  datatype Config = Config(pot: u64, difficulty: real)

  function CreditAll(m: map<Address, u64>, txs: seq<Tx>): map<Address, u64> {
    if txs == [] then m
    else
      var before := CreditAll(m, Front(txs));
      before[Last(txs).receiver := WrapAdd(Get(before, Last(txs).receiver), Last(txs).amount)]
  }

  function GenesisLedger(cfg: Config, genesis: Block): Ledger {
    Ledger(CreditAll(map[], genesis.transactions), {}, [], cfg.pot, cfg.difficulty, None, 0)
  }

  ghost function Next(c: Crypto, v: View, b: Block): Ledger {
    match Process(c, v, b)
    case Aborts => v.ledger
    case Yields(l, _) => l
  }

  ghost function Derived(c: Crypto, cfg: Config, chain: seq<Block>): Ledger
    requires |chain| > 0
  {
    if |chain| == 1 then GenesisLedger(cfg, chain[0])
    else Next(c, View(Front(chain), 0, Derived(c, cfg, Front(chain))), Last(chain))
  }

  ghost function FullView(c: Crypto, cfg: Config, chain: seq<Block>): View
    requires |chain| > 0
  {
    View(chain, 0, Derived(c, cfg, chain))
  }

  // Block `n` is accepted on top of the blocks before it.
  ghost predicate Stands(c: Crypto, cfg: Config, chain: seq<Block>, n: nat)
    requires 0 < n < |chain|
  {
    Accepts(c, FullView(c, cfg, chain[..n]), chain[n])
  }

  // A chain every block of which is accepted where it stands, from a genesis block at index 0.
  ghost predicate ValidChain(c: Crypto, cfg: Config, chain: seq<Block>) {
    && |chain| > 0
    && chain[0].index == 0
    && forall n :: 0 < n < |chain| ==> Stands(c, cfg, chain, n)
  }

  lemma ValidPrefix(c: Crypto, cfg: Config, chain: seq<Block>, n: nat)
    requires ValidChain(c, cfg, chain) && 0 < n <= |chain|
    ensures ValidChain(c, cfg, chain[..n])
  {
    hide Accepts;
    forall m | 0 < m < n ensures Stands(c, cfg, chain[..n], m) {
      assert Stands(c, cfg, chain, m);
      assert chain[..n][..m] == chain[..m];
    }
  }

  lemma ValidFront(c: Crypto, cfg: Config, chain: seq<Block>)
    requires ValidChain(c, cfg, chain) && |chain| > 1
    ensures ValidChain(c, cfg, Front(chain))
    ensures Accepts(c, FullView(c, cfg, Front(chain)), Last(chain))
  {
    ValidPrefix(c, cfg, chain, |chain| - 1);
    assert Stands(c, cfg, chain, |chain| - 1);
  }

  lemma ValidExtend(c: Crypto, cfg: Config, chain: seq<Block>, b: Block)
    requires ValidChain(c, cfg, chain) && Accepts(c, FullView(c, cfg, chain), b)
    ensures ValidChain(c, cfg, chain + [b])
    ensures Derived(c, cfg, chain + [b]) == Process(c, FullView(c, cfg, chain), b).ledger
  {
    hide Admissible, Process;
    var longer := chain + [b];
    forall n | 0 < n < |longer| ensures Stands(c, cfg, longer, n) {
      assert longer[..n] == chain[..n];
      if n < |chain| {
        assert Stands(c, cfg, chain, n);
      } else {
        assert chain[..n] == chain;
      }
    }
    assert Front(longer) == chain;
  }

  lemma IndicesAreHeights(c: Crypto, cfg: Config, chain: seq<Block>, n: nat)
    requires ValidChain(c, cfg, chain) && n < |chain|
    ensures chain[n].index == n
  {
    if n > 0 {
      assert Stands(c, cfg, chain, n);
    }
  }

  // A block of a valid chain is accepted where it stands, and sits at its height.
  lemma ValidStands(c: Crypto, cfg: Config, chain: seq<Block>, k: nat)
    requires ValidChain(c, cfg, chain) && 0 < k < |chain|
    ensures Accepts(c, FullView(c, cfg, chain[..k]), chain[k]) && chain[k].index == k
  {
    hide Accepts;
    IndicesAreHeights(c, cfg, chain, k);
    assert Stands(c, cfg, chain, k);
  }

  // -------------------------------------------------------------------------
  // The sliding window is enough
  // -------------------------------------------------------------------------

  // `v` caches the tail of `chain`: all of it, or at least REORG_WINDOW blocks.
  ghost predicate Caches(v: View, chain: seq<Block>) {
    && v.offset <= |chain|
    && v.blocks == chain[v.offset..]
    && (v.offset == 0 || |v.blocks| >= REORG_WINDOW)
  }

  // When a ticket matures, the cache still has every hash of its reveal window,
  // and the settling block (whose index is the height) is past the end of it.
  lemma WindowHoldsReveal(v: View, chain: seq<Block>, t: Ticket, i: nat)
    requires Caches(v, chain) && IsDue(t, |chain|) && i < REVEAL_BLOCKS
    ensures t.createdHeight + i < |chain|
    ensures HashAt(v.blocks, v.offset, t.createdHeight + i) == Some(chain[t.createdHeight + i].hash)
  {
  }

  lemma {:induction false} EntropyAgrees(v: View, chain: seq<Block>, t: Ticket, n: nat)
    requires Caches(v, chain) && IsDue(t, |chain|) && n <= REVEAL_BLOCKS
    ensures Entropy(v.blocks, v.offset, t.createdHeight, n) == Entropy(chain, 0, t.createdHeight, n)
  {
    if n > 0 {
      EntropyAgrees(v, chain, t, n - 1);
      WindowHoldsReveal(v, chain, t, n - 1);
      assert HashAt(chain, 0, t.createdHeight + n - 1) == Some(chain[t.createdHeight + n - 1].hash);
    }
  }

  function HashBytes(blocks: seq<Block>): Bytes {
    if blocks == [] then [] else blocks[0].hash + HashBytes(blocks[1..])
  }

  lemma {:induction false} HashBytesAppend(blocks: seq<Block>, b: Block)
    ensures HashBytes(blocks + [b]) == HashBytes(blocks) + b.hash
  {
    if blocks == [] {
      assert (blocks + [b])[1..] == [];
    } else {
      HashBytesAppend(blocks[1..], b);
      assert (blocks + [b])[1..] == blocks[1..] + [b];
    }
  }

  // The draw of a ticket due now is over the hashes of exactly the hundred
  // blocks from its own on, the last of them being the tip: the settling block
  // has no say.
  lemma {:induction false} EntropyIsWindow(blocks: seq<Block>, offset: nat, start: nat, n: nat)
    requires offset <= start && start + n <= offset + |blocks|
    ensures Entropy(blocks, offset, start, n) == HashBytes(blocks[start - offset..start - offset + n])
  {
    if n > 0 {
      var first := start - offset;
      EntropyIsWindow(blocks, offset, start, n - 1);
      HashBytesAppend(blocks[first..first + n - 1], blocks[first + n - 1]);
      assert blocks[first..first + n] == blocks[first..first + n - 1] + [blocks[first + n - 1]];
    }
  }

  lemma {:induction false} DueAreDue(ts: seq<Ticket>, index: nat)
    ensures forall t :: t in Due(ts, index) ==> IsDue(t, index)
  {
    if ts != [] {
      DueAreDue(Front(ts), index);
    }
  }

  lemma {:induction false} SettleAgrees(c: Crypto, v: View, chain: seq<Block>, l: Ledger, due: seq<Ticket>)
    requires Caches(v, chain) && forall t :: t in due ==> IsDue(t, |chain|)
    ensures SettleAll(c, v.blocks, v.offset, l, due) == SettleAll(c, chain, 0, l, due)
  {
    if due != [] {
      SettleAgrees(c, v, chain, l, Front(due));
      assert Last(due) in due;
      EntropyAgrees(v, chain, Last(due), REVEAL_BLOCKS);
    }
  }

  lemma MedianAgrees(v: View, chain: seq<Block>)
    requires Caches(v, chain) && |v.blocks| > 0
    ensures MedianTimePast(v.blocks) == MedianTimePast(chain)
  {
    assert Recent(v.blocks) == Recent(chain);
  }

  // Pruning changes no verdict, no draw and no derived state.
  lemma WindowSuffices(c: Crypto, v: View, chain: seq<Block>, b: Block)
    requires Caches(v, chain) && |v.blocks| > 0
    ensures Admissible(c, v, b) <==> Admissible(c, View(chain, 0, v.ledger), b)
    ensures b.index == |chain| ==> Process(c, v, b) == Process(c, View(chain, 0, v.ledger), b)
  {
    hide MedianTimePast, WellFormed, PreValid, SettleAll, ApplyAll, SplitFees, Stamp, Conserves;
    MedianAgrees(v, chain);
    if b.index == |chain| {
      DueAreDue(v.ledger.tickets, |chain|);
      var kept := v.ledger.(tickets := NotDue(v.ledger.tickets, b.index));
      SettleAgrees(c, v, chain, kept, Due(v.ledger.tickets, b.index));
    }
  }

  // -------------------------------------------------------------------------
  // Genesis
  // -------------------------------------------------------------------------

  function AmountsIn(txs: seq<Tx>): nat {
    if txs == [] then 0 else AmountsIn(Front(txs)) + Last(txs).amount
  }

  // Genesis credits every receiver what it is sent, as long as the total fits.
  lemma {:induction false} GenesisCredits(txs: seq<Tx>, a: Address)
    requires AmountsIn(txs) <= U64_MAX
    ensures Sum(CreditAll(map[], txs)) == AmountsIn(txs)
    ensures Get(CreditAll(map[], txs), a) == Received(txs, a)
  {
    if txs != [] {
      GenesisCredits(Front(txs), a);
      GenesisCredits(Front(txs), Last(txs).receiver);
      CreditMoves(CreditAll(map[], Front(txs)), Last(txs).receiver, Last(txs).amount);
    }
  }

  // -------------------------------------------------------------------------
  // Supply and balances over whole chains
  // -------------------------------------------------------------------------

  function MintedBy(chain: seq<Block>): nat {
    if |chain| <= 1 then 0 else MintedBy(Front(chain)) + Last(chain).Minted()
  }

  ghost predicate Roomy(cfg: Config, chain: seq<Block>)
    requires |chain| > 0
  {
    Supply(GenesisLedger(cfg, chain[0])) + |chain| <= U64_MAX
  }

  lemma {:induction false} SupplyIsGenesisPlusMinted(c: Crypto, cfg: Config, chain: seq<Block>)
    requires ValidChain(c, cfg, chain)
    ensures Supply(Derived(c, cfg, chain)) == Supply(GenesisLedger(cfg, chain[0])) + MintedBy(chain)
    ensures MintedBy(chain) < |chain|
  {
    if |chain| > 1 {
      ValidFront(c, cfg, chain);
      SupplyIsGenesisPlusMinted(c, cfg, Front(chain));
      var v := FullView(c, cfg, Front(chain));
      var settled := Settle(c, v, Last(chain).index).0;
      StampKeepsBooks(SplitFees(ApplyAll(settled, Last(chain).transactions).value, Last(chain)), Last(chain));
    }
  }

  // On a chain with room in the supply, the two aborts are dead code: a block is
  // accepted exactly when it is admissible.
  lemma NeverAborts(c: Crypto, cfg: Config, chain: seq<Block>, b: Block)
    requires ValidChain(c, cfg, chain) && Roomy(cfg, chain)
    ensures Accepts(c, FullView(c, cfg, chain), b) <==> Admissible(c, FullView(c, cfg, chain), b)
    ensures Admissible(c, FullView(c, cfg, chain), b) ==>
      Booked(Derived(c, cfg, chain), Derived(c, cfg, chain + [b]), b, Process(c, FullView(c, cfg, chain), b).payouts)
  {
    SupplyIsGenesisPlusMinted(c, cfg, chain);
    if Admissible(c, FullView(c, cfg, chain), b) {
      PreValidationSuffices(c, FullView(c, cfg, chain), b);
      assert Front(chain + [b]) == chain;
    }
  }

  ghost function PayoutsAt(c: Crypto, cfg: Config, chain: seq<Block>, n: nat): seq<Payout>
    requires 0 < n < |chain|
  {
    match Process(c, FullView(c, cfg, chain[..n]), chain[n])
    case Aborts => []
    case Yields(_, ps) => ps
  }

  // On any valid chain: a block is accepted exactly when it is admissible and, in
  // exact arithmetic, nothing it credits overflows.
  lemma AcceptsExactly(c: Crypto, cfg: Config, chain: seq<Block>, b: Block)
    requires |chain| > 0
    ensures var v := FullView(c, cfg, chain);
      Accepts(c, v, b) <==> Admissible(c, v, b) && Fits(v.ledger, Settle(c, v, b.index).1, b)
  {
    hide Process, Fits, WellFormed, PreValid, Derived, Settle;
    var v := FullView(c, cfg, chain);
    if Admissible(c, v, b) {
      AbortsExactly(c, v, b);
    }
  }

  // Every block of a valid chain is booked to the coin.
  lemma StepBooked(c: Crypto, cfg: Config, chain: seq<Block>)
    requires ValidChain(c, cfg, chain) && |chain| > 1
    ensures var before, after := Derived(c, cfg, Front(chain)), Derived(c, cfg, chain);
      Booked(before, after, Last(chain), PayoutsAt(c, cfg, chain, |chain| - 1))
  {
    hide Process, WellFormed, PreValid, Booked, ValidChain, MedianTimePast;
    ValidFront(c, cfg, chain);
    AbortsExactly(c, FullView(c, cfg, Front(chain)), Last(chain));
    assert chain[..|chain| - 1] == Front(chain);
  }

  ghost function Income(c: Crypto, cfg: Config, chain: seq<Block>, a: Address): nat
    requires |chain| > 0
  {
    if |chain| == 1 then 0
    else
      Income(c, cfg, Front(chain), a) + PaidTo(PayoutsAt(c, cfg, chain, |chain| - 1), a) +
      Received(Last(chain).transactions, a) + ShareOf(Last(chain), a)
  }

  function Outlay(chain: seq<Block>, a: Address): nat
    requires |chain| > 0
  {
    if |chain| == 1 then 0 else Outlay(Front(chain), a) + Spent(Last(chain).transactions, a)
  }

  // A balance is the account statement read off the chain: genesis credit, plus
  // lottery prizes, receipts and fee shares, minus everything spent.
  lemma {:induction false} BalanceIsStatement(c: Crypto, cfg: Config, chain: seq<Block>, a: Address)
    requires ValidChain(c, cfg, chain)
    ensures Balance(Derived(c, cfg, chain), a) ==
      Balance(GenesisLedger(cfg, chain[0]), a) + Income(c, cfg, chain, a) - Outlay(chain, a)
  {
    if |chain| > 1 {
      ValidFront(c, cfg, chain);
      BalanceIsStatement(c, cfg, Front(chain), a);
      StepBooked(c, cfg, chain);
    }
  }

  // -------------------------------------------------------------------------
  // Replay protection
  // -------------------------------------------------------------------------

  ghost function ChainSignatures(chain: seq<Block>): set<Signature>
    requires |chain| > 0
  {
    if |chain| == 1 then {} else ChainSignatures(Front(chain)) + Signatures(Last(chain).transactions)
  }

  // The transaction loop cannot get past a transfer without recording it, so
  // what it records is exactly the block's signatures.
  lemma {:induction false} LoopRecords(l: Ledger, txs: seq<Tx>)
    requires ApplyAll(l, txs).Some?
    ensures var l' := ApplyAll(l, txs).value;
      && l'.confirmed == l.confirmed + Signatures(txs)
      && l' == l.(balances := l'.balances, pot := l'.pot, confirmed := l'.confirmed)
  {
    if txs != [] {
      LoopRecords(l, Front(txs));
      SignaturesSplit(txs);
    }
  }

  lemma {:induction false} SettleTouches(c: Crypto, blocks: seq<Block>, offset: nat, l: Ledger, due: seq<Ticket>)
    ensures var l' := SettleAll(c, blocks, offset, l, due).0; l' == l.(balances := l'.balances, pot := l'.pot)
  {
    if due != [] {
      SettleTouches(c, blocks, offset, l, Front(due));
    }
  }

  lemma StampIsOwn(l: Ledger, m: Ledger, b: Block)
    requires l.difficulty == m.difficulty && l.anchor == m.anchor && l.work == m.work
    ensures var x, y := Stamp(l, b), Stamp(m, b);
      x.difficulty == y.difficulty && x.anchor == y.anchor && x.work == y.work
  {
  }

  // The parts of the derived state that do not depend on how coins move.
  lemma StepRecords(c: Crypto, v: View, b: Block)
    requires Process(c, v, b).Yields?
    ensures var l' := Process(c, v, b).ledger;
      && l'.confirmed == v.ledger.confirmed + Signatures(b.transactions)
      && l'.tickets == NotDue(v.ledger.tickets, b.index) + Issued(b)
      && l'.difficulty == Stamp(v.ledger, b).difficulty
      && l'.anchor == Stamp(v.ledger, b).anchor
      && l'.work == Stamp(v.ledger, b).work
  {
    hide Stamp, Retarget, ApplyAll, SettleAll, Conserves, NotDue, Due, Issued, Signatures;
    var l0 := v.ledger.(tickets := NotDue(v.ledger.tickets, b.index));
    SettleTouches(c, v.blocks, v.offset, l0, Due(v.ledger.tickets, b.index));
    var settled := Settle(c, v, b.index).0;
    LoopRecords(settled, b.transactions);
    var paid := SplitFees(ApplyAll(settled, b.transactions).value, b);
    StampKeepsBooks(paid, b);
    StampIsOwn(paid, v.ledger, b);
  }

  lemma {:induction false} ConfirmedIsChainSignatures(c: Crypto, cfg: Config, chain: seq<Block>)
    requires ValidChain(c, cfg, chain)
    ensures Derived(c, cfg, chain).confirmed == ChainSignatures(chain)
  {
    if |chain| > 1 {
      ValidFront(c, cfg, chain);
      ConfirmedIsChainSignatures(c, cfg, Front(chain));
      StepRecords(c, FullView(c, cfg, Front(chain)), Last(chain));
    }
  }

  lemma {:induction false} SignaturesOnChain(chain: seq<Block>, n: nat)
    requires 0 < n < |chain|
    ensures Signatures(chain[n].transactions) <= ChainSignatures(chain)
  {
    if n < |chain| - 1 {
      SignaturesOnChain(Front(chain), n);
    }
  }

  // No transfer appears twice on a valid chain, neither in two blocks nor in one.
  lemma NoTransferTwice(c: Crypto, cfg: Config, chain: seq<Block>, m: nat, n: nat)
    requires ValidChain(c, cfg, chain) && 0 < m <= n < |chain|
    ensures DistinctSignatures(chain[n].transactions)
    ensures m < n ==> Signatures(chain[m].transactions) !! Signatures(chain[n].transactions)
  {
    ValidPrefix(c, cfg, chain, n);
    assert Stands(c, cfg, chain, n);
    var prefix := chain[..n];
    ConfirmedIsChainSignatures(c, cfg, prefix);
    if m < n {
      SignaturesOnChain(prefix, m);
      assert prefix[m] == chain[m];
    }
  }
}
