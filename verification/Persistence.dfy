/** The database stays the specification of the canonical chain: one lemma per way of writing it. */
module Persistence {
  import opened Prelude
  import opened Types
  import opened Consensus
  import opened Replay
  import opened Lottery
  import opened AsertSchedule
  import opened Consistency
  import opened Tables
  import opened Database

  // The payouts of every block of a chain, by height.
  ghost function PayoutsOf(c: Crypto, cfg: Config, chain: seq<Block>): (r: seq<seq<Payout>>)
    ensures |r| == |chain|
  {
    seq(|chain|, n requires 0 <= n < |chain| => if n == 0 then [] else PayoutsAt(c, cfg, chain, n))
  }

  // What the tables should hold for a chain.
  ghost function TablesOf(c: Crypto, cfg: Config, chain: seq<Block>): Store
    requires |chain| > 0
  {
    SpecOf(chain, PayoutsOf(c, cfg, chain), TicketTable(Derived(c, cfg, chain).tickets))
  }

  // The database never fails and holds exactly the tables of `chain`.
  ghost predicate InStep(c: Crypto, cfg: Config, chain: seq<Block>, db: Db)
    reads db
  {
    && |chain| > 0
    && |chain[0].transactions| <= LOTTERY_POS
    && db.reliable
    && db.Contents() == TablesOf(c, cfg, chain)
  }

  lemma InStepFacts(c: Crypto, cfg: Config, chain: seq<Block>, db: Db)
    requires InStep(c, cfg, chain, db)
    ensures |chain| > 0 && |chain[0].transactions| <= LOTTERY_POS && db.reliable && db.blocks == BlockTable(chain)
    ensures db.tickets == TicketTable(Derived(c, cfg, chain).tickets)
  {
    hide IndexOf, PayoutsOf, TicketTable, BlockTable, Derived;
  }

  lemma PayoutsPrefix(c: Crypto, cfg: Config, chain: seq<Block>, n: nat)
    requires n <= |chain|
    ensures PayoutsOf(c, cfg, chain)[..n] == PayoutsOf(c, cfg, chain[..n])
  {
    hide Process, Derived;
    forall i | 0 <= i < n ensures PayoutsOf(c, cfg, chain)[i] == PayoutsOf(c, cfg, chain[..n])[i] {
      assert chain[..n][..i] == chain[..i];
    }
  }

  lemma {:induction false} TransfersBound(txs: seq<Tx>)
    requires forall i :: 1 <= i < |txs| ==> !txs[i].Coinbase()
    ensures |txs| <= CountTransfers(txs) + 1
  {
    if |txs| > 1 {
      TransfersBound(Front(txs));
    }
  }

  // Consensus keeps every block small enough for the key layout.
  lemma ValidFits(c: Crypto, cfg: Config, chain: seq<Block>)
    requires ValidChain(c, cfg, chain) && |chain[0].transactions| <= LOTTERY_POS
    ensures Fits(chain, PayoutsOf(c, cfg, chain))
  {
    hide ValidChain, PayoutsAt, Derived, Process;
    forall n | 0 <= n < |chain| ensures chain[n].index == n && |chain[n].transactions| <= LOTTERY_POS {
      IndicesAreHeights(c, cfg, chain, n);
      if n > 0 {
        ValidBlockIsSmall(c, cfg, chain, n);
      }
    }
    ValidIsShort(c, cfg, chain);
    forall n | 0 <= n < |chain| ensures |PayoutsOf(c, cfg, chain)[n]| <= 0x1_0000 {
      if n > 0 {
        OnePayoutAtMost(c, cfg, chain, n);
      }
    }
  }

  lemma ValidBlockIsSmall(c: Crypto, cfg: Config, chain: seq<Block>, n: nat)
    requires ValidChain(c, cfg, chain) && 0 < n < |chain|
    ensures |chain[n].transactions| <= MAX_BLOCK_TXS + 1
  {
    hide Process, PreValid;
    assert Stands(c, cfg, chain, n);
    TransfersBound(chain[n].transactions);
  }

  lemma ValidIsShort(c: Crypto, cfg: Config, chain: seq<Block>)
    requires ValidChain(c, cfg, chain)
    ensures 0 < |chain| <= U64_LIMIT
  {
    hide Stands;
    IndicesAreHeights(c, cfg, chain, |chain| - 1);
  }

  // Saving an applied block.
  lemma AppendSync(c: Crypto, cfg: Config, chain: seq<Block>, b: Block, s: Store, ts: seq<Ticket>)
    requires |chain| > 0 && b.index == |chain| && s == TablesOf(c, cfg, chain)
    requires ts == Derived(c, cfg, chain + [b]).tickets
    ensures AddOne(s, b, PayoutsAt(c, cfg, chain + [b], |chain|)).(tickets := TicketTable(ts)) ==
      TablesOf(c, cfg, chain + [b])
  {
    hide Derived, PayoutsAt, IndexOf, TicketTable, AddOne;
    var longer := chain + [b];
    var ps := PayoutsAt(c, cfg, longer, |chain|);
    PayoutsPrefix(c, cfg, longer, |chain|);
    assert longer[..|chain|] == chain;
    assert PayoutsOf(c, cfg, longer) == PayoutsOf(c, cfg, chain) + [ps];
    AddOneExtends(chain, PayoutsOf(c, cfg, chain), s.tickets, b, ps);
  }

  // What a payout table handed to a reorg must say about the new blocks.
  ghost predicate Tells(c: Crypto, cfg: Config, chain: seq<Block>, from: nat, table: map<nat, seq<Payout>>) {
    forall n :: 0 < from <= n < |chain| ==> Lookup(table, n) == PayoutsAt(c, cfg, chain, n)
  }

  lemma BranchFacts(c: Crypto, cfg: Config, chain: seq<Block>, a: nat, fork: seq<Block>)
    requires a < |chain| && ValidChain(c, cfg, Branch(chain, a, fork))
    ensures var alt := Branch(chain, a, fork);
      && |alt| == a + 1 + |fork| && alt[..a + 1] == chain[..a + 1] && alt[0] == chain[0]
      && forall i :: 0 <= i < |fork| ==> fork[i].index == a + 1 + i && alt[a + 1 + i] == fork[i]
  {
    hide ValidChain;
    var alt := Branch(chain, a, fork);
    forall i | 0 <= i < |fork| ensures fork[i].index == a + 1 + i && alt[a + 1 + i] == fork[i] {
      IndicesAreHeights(c, cfg, alt, a + 1 + i);
    }
  }

  // The incremental reorg leaves the tables of the branch, longer or shorter.
  lemma ReorgSync(c: Crypto, cfg: Config, chain: seq<Block>, a: nat, fork: seq<Block>, s: Store,
                  table: map<nat, seq<Payout>>, ts: seq<Ticket>)
    requires ValidChain(c, cfg, chain) && a < |chain| && |chain[0].transactions| <= LOTTERY_POS
    requires ValidChain(c, cfg, Branch(chain, a, fork)) && Tells(c, cfg, Branch(chain, a, fork), a + 1, table)
    requires s == TablesOf(c, cfg, chain) && ts == Derived(c, cfg, Branch(chain, a, fork)).tickets
    ensures AddAll(DisplaceAll(s, chain[a + 1..]), fork, table).(tickets := TicketTable(ts)) ==
      TablesOf(c, cfg, Branch(chain, a, fork))
  {
    hide Derived, PayoutsAt, IndexOf, TicketTable, AddAll, DisplaceAll, ValidChain, Fits, Lookup;
    var alt := Branch(chain, a, fork);
    BranchFacts(c, cfg, chain, a, fork);
    var pays, altPays := PayoutsOf(c, cfg, chain), PayoutsOf(c, cfg, alt);
    PayoutsPrefix(c, cfg, chain, a + 1);
    PayoutsPrefix(c, cfg, alt, a + 1);
    var more := altPays[a + 1..];
    TakeDrop(altPays, a + 1);
    ValidFits(c, cfg, chain);
    forall i | 0 <= i < |fork| ensures fork[i].index == a + 1 + i && Lookup(table, a + 1 + i) == more[i] {
      assert altPays[a + 1 + i] == PayoutsAt(c, cfg, alt, a + 1 + i);
    }
    ReorgReplaces(chain, pays, s.tickets, a + 1, fork, more, table, TicketTable(ts));
  }

  // Saving the new blocks over the old table is the branch's block table when
  // the branch is at least as long; otherwise stale rows remain above its tip.
  lemma OverwriteSync(c: Crypto, cfg: Config, chain: seq<Block>, a: nat, fork: seq<Block>)
    requires a < |chain| && ValidChain(c, cfg, Branch(chain, a, fork))
    ensures SaveAll(BlockTable(chain), fork) == BlockTable(Branch(chain, a, fork)) <==>
      |Branch(chain, a, fork)| >= |chain|
  {
    hide ValidChain, SaveAll, BlockTable;
    BranchFacts(c, cfg, chain, a, fork);
    OverwriteKeepsStaleTail(chain, a + 1, fork);
  }

  // The payouts left over from a replay tabulate those of the chain.
  lemma ReplayTabulates(c: Crypto, cfg: Config, chain: seq<Block>, paid: map<nat, seq<Payout>>)
    requires Recorded(c, cfg, chain, paid) && PendingAll(c, cfg, chain, paid)
    ensures Tabulates(paid, PayoutsOf(c, cfg, chain))
  {
    hide PayoutsAt;
    forall n | 0 <= n < |chain| ensures Lookup(paid, n) == PayoutsOf(c, cfg, chain)[n] {
      if n > 0 {
        assert Lookup(paid, n) == PayoutsAt(c, cfg, chain, n);
      }
    }
  }

  // Draining the payouts of the new blocks tells the database what each of them paid.
  lemma DrainedTells(c: Crypto, cfg: Config, chain: seq<Block>, a: nat, fork: seq<Block>,
                     paid: map<nat, seq<Payout>>, drained: map<nat, seq<Payout>>)
    requires a < |chain| && ValidChain(c, cfg, Branch(chain, a, fork))
    requires PendingAll(c, cfg, Branch(chain, a, fork), paid)
    requires forall i :: 0 <= i < |fork| ==> Lookup(drained, fork[i].index) == Lookup(paid, fork[i].index)
    ensures Tells(c, cfg, Branch(chain, a, fork), a + 1, drained)
  {
    hide ValidChain, PayoutsAt;
    var alt := Branch(chain, a, fork);
    BranchFacts(c, cfg, chain, a, fork);
    forall n | a + 1 <= n < |alt| ensures Lookup(drained, n) == PayoutsAt(c, cfg, alt, n) {
      assert fork[n - (a + 1)].index == n;
      assert Lookup(paid, n) == PayoutsAt(c, cfg, alt, n);
    }
  }

  lemma TablesHoldBlocks(c: Crypto, cfg: Config, chain: seq<Block>)
    requires |chain| > 0
    ensures TablesOf(c, cfg, chain).blocks == BlockTable(chain)
  {
    hide IndexOf, PayoutsOf, TicketTable, BlockTable;
  }

  // After saving the new blocks one by one and rebuilding everything else from
  // the block table, the database is right exactly when the new chain is no
  // shorter than the old one; otherwise blocks of the old chain are still there.
  lemma DeepSync(c: Crypto, cfg: Config, chain: seq<Block>, a: nat, fork: seq<Block>, paid: map<nat, seq<Payout>>,
                 db: Db)
    requires a < |chain| && |chain[0].transactions| <= LOTTERY_POS && db.reliable
    requires var alt := Branch(chain, a, fork);
      ValidChain(c, cfg, alt) && Recorded(c, cfg, alt, paid) && PendingAll(c, cfg, alt, paid)
    requires db.blocks == SaveAll(BlockTable(chain), fork)
    requires forall other, bySeq :: db.blocks == BlockTable(other) && Fits(other, bySeq) && Tabulates(paid, bySeq) ==>
      db.Contents() == SpecOf(other, bySeq, TicketTable(Derived(c, cfg, Branch(chain, a, fork)).tickets))
    ensures InStep(c, cfg, Branch(chain, a, fork), db) <==> |Branch(chain, a, fork)| >= |chain|
  {
    hide ValidChain, Recorded, PendingAll, SaveAll, BlockTable, Fits, Tabulates, PayoutsOf, SpecOf, TicketTable;
    hide Derived;
    var alt := Branch(chain, a, fork);
    OverwriteSync(c, cfg, chain, a, fork);
    BranchFacts(c, cfg, chain, a, fork);
    ValidFits(c, cfg, alt);
    ReplayTabulates(c, cfg, alt, paid);
    TablesHoldBlocks(c, cfg, alt);
  }
}
