/** Bringing a node up: full replay from the database, and restoring a checkpoint. */
module Startup {
  import opened Prelude
  import opened Types
  import opened Consensus
  import opened Conservation
  import opened Replay
  import opened ForkChoice
  import opened Lottery
  import opened Consistency
  import opened Decisions
  import opened Tables
  import opened Database
  import opened Persistence
  import opened Chain

  // -------------------------------------------------------------------------
  // Full replay
  // -------------------------------------------------------------------------

  // No block above genesis is dated too far ahead when its turn comes.
  ghost predicate AllTimely(chain: seq<Block>, now: nat, later: Clock) {
    forall n :: 0 < n < |chain| ==> Timely(chain, n, now, later)
  }

  // A block of a valid chain is accepted by a node that stands just below it.
  lemma NextIsAccepted(n: Blockchain, cfg: Config, chain: seq<Block>, now: nat, later: Clock)
    requires n.Valid() && n.Cfg() == cfg && ValidChain(n.c, cfg, chain) && AllTimely(chain, now, later)
    requires IsPrefix(n.canonical, chain) && |n.canonical| < |chain|
    ensures var k := |n.canonical|;
      k > 0 && Judge(n.c, FullView(n.c, cfg, n.canonical), chain[k], now + later(k)).Extended?
  {
    hide Blockchain.Valid, Derived, Judge, ValidChain, Stands;
    n.LedgerIsDerived();
    var k := |n.canonical|;
    assert chain[..k] == n.canonical;
    ChainStands(n.c, cfg, chain, k);
    JudgeExtendsIff(n.c, cfg, chain, k, now, later);
  }

  lemma ChainStands(c: Crypto, cfg: Config, chain: seq<Block>, k: nat)
    requires ValidChain(c, cfg, chain) && 0 < k < |chain|
    ensures Stands(c, cfg, chain, k)
  {
    hide Stands;
  }

  // The replay loop of startup.
  method ReplayStored(n: Blockchain, stored: seq<Block>, now: nat, later: Clock) returns (killed: bool)
    requires n.Valid() && |stored| > 0 && n.canonical == [stored[0]] && n.offset == 0 && n.settled == map[]
    modifies n
    ensures n.Cfg() == old(n.Cfg()) && (!killed ==> n.Valid() && n.offset == 0)
    ensures ValidChain(n.c, n.Cfg(), stored) && AllTimely(stored, now, later) ==>
      !killed && n.canonical == stored && PendingAll(n.c, n.Cfg(), stored, n.settled)
  {
    hide *;
    NothingPending(n.c, n.Cfg(), n.canonical, n.settled);
    ghost var cfg := n.Cfg();
    ghost var good := ValidChain(n.c, cfg, stored) && AllTimely(stored, now, later);
    PrefixStart(n.canonical, stored);
    killed := false;
    for i := 1 to |stored|
      invariant n.Valid() && n.Cfg() == cfg && n.offset == 0
      invariant good ==>
        |n.canonical| == i && IsPrefix(n.canonical, stored) && PendingAll(n.c, cfg, n.canonical, n.settled)
    {
      if good {
        NextIsAccepted(n, cfg, stored, now, later);
        PrefixNext(n.canonical, stored);
      }
      killed := ReplayOne(n, stored[i], now + later(i), later);
      if killed {
        return;
      }
    }
    if good {
      PrefixWhole(n.canonical, stored);
    }
  }

  lemma PrefixWhole<T>(s: seq<T>, t: seq<T>)
    requires IsPrefix(s, t) && |s| == |t|
    ensures s == t
  {
  }

  // One stored block, taken up as if it had just arrived.
  method ReplayOne(n: Blockchain, b: Block, now: nat, later: Clock) returns (killed: bool)
    requires n.Valid() && n.offset == 0
    modifies n
    ensures n.Cfg() == old(n.Cfg()) && (!killed ==> n.Valid() && n.offset == 0)
    ensures |old(n.canonical)| > 0
    ensures
      (old(PendingAll(n.c, n.Cfg(), n.canonical, n.settled)) &&
       Judge(n.c, FullView(n.c, n.Cfg(), old(n.canonical)), b, now).Extended?) ==>
        !killed && n.canonical == old(n.canonical) + [b] && PendingAll(n.c, n.Cfg(), n.canonical, n.settled)
  {
    hide *;
    n.LedgerIsDerived();
    n.ValidParts();
    n.StandingIs();
    ghost var view, paid, s, cfg := n.ViewOf(), n.settled, n.StandingOf(), n.Cfg();
    ghost var before := n.canonical;
    var outcome;
    ghost var m, target;
    outcome, m, target := n.ApplyInMemory(b, null, now, later);
    MoveReported(outcome, m, s);
    MustExtend(n.c, cfg, s, b, now, later, m, target, old(n.Mirrored(null)));
    if outcome.Applied? {
      n.MovedAtTip(s, view, paid, b, m, target, now, later);
      if old(PendingAll(n.c, n.Cfg(), n.canonical, n.settled)) {
        PendingAppend(n.c, cfg, before, view, b, paid);
      }
    }
    killed := outcome.Killed?;
  }

  lemma MustExtend(c: Crypto, cfg: Config, s: Standing, b: Block, now: nat, later: Clock, m: Move, target: seq<Block>,
                   mirrored: bool)
    requires |s.chain| > 0 && Chosen(c, cfg, s, b, now, later, m, target, mirrored)
    ensures Judge(c, FullView(c, cfg, s.chain), b, now).Extended? ==> m.Extends?
  {
    hide May, Judge, Plausible, OrphanAdmitted, Offered, Derived;
  }

  lemma FirstStored(blocks: map<nat, Block>, ks: seq<nat>)
    requires FiledIn(blocks) && Lists(ks, blocks.Keys)
    ensures |ks| > 0 && ks[0] == 0 && blocks[0].index == 0
  {
    assert 0 in blocks.Keys;
    var i :| 0 <= i < |ks| && ks[i] == 0;
    assert forall j :: 0 < j < |ks| ==> ks[0] < ks[j];
  }

  // -------------------------------------------------------------------------
  // Index, payouts and tickets
  // -------------------------------------------------------------------------

  // The block and ticket tables are those of `chain`. Nothing is said of index and payouts.
  ghost predicate Stores(c: Crypto, cfg: Config, chain: seq<Block>, db: Db)
    reads db
  {
    && |chain| > 0 && |chain[0].transactions| <= LOTTERY_POS
    && db.reliable
    && db.blocks == BlockTable(chain)
    && db.tickets == TicketTable(Derived(c, cfg, chain).tickets)
  }

  // Whatever index and payouts held, rebuilding them from the replayed chain gives
  // the tables of the chain.
  lemma RebuildRestores(c: Crypto, cfg: Config, chain: seq<Block>, paid: map<nat, seq<Payout>>)
    requires ValidChain(c, cfg, chain) && |chain[0].transactions| <= LOTTERY_POS
    requires Recorded(c, cfg, chain, paid) && PendingAll(c, cfg, chain, paid)
    ensures AddAll(Empty(TicketTable(Derived(c, cfg, chain).tickets)), chain, paid) == TablesOf(c, cfg, chain)
  {
    assert |chain| > 0;
    hide ValidChain, Recorded, PendingAll, AddAll, IndexOf, BlockTable, TicketTable, Derived, PayoutsOf, Fits;
    ValidFits(c, cfg, chain);
    ReplayTabulates(c, cfg, chain, paid);
    RebuildFromChain(chain, PayoutsOf(c, cfg, chain), TicketTable(Derived(c, cfg, chain).tickets), paid);
  }

  // After the replay: index and payouts from scratch, prune, and the stored tickets.
  method Reindex(n: Blockchain, db: Db) returns (ok: bool)
    requires n.Valid() && n.offset == 0
    modifies n, db
    ensures ok ==> n.Cfg() == old(n.Cfg()) && |n.blocks| <= REORG_WINDOW && n.canonical == old(n.canonical)
    ensures db.blocks == old(db.blocks)
    ensures old(PendingAll(n.c, n.Cfg(), n.canonical, n.settled) && Stores(n.c, n.Cfg(), n.canonical, db)) ==>
      ok && n.Valid() && InStep(n.c, n.Cfg(), n.canonical, db)
  {
    hide *;
    ghost var c, cfg, chain := n.c, n.Cfg(), n.canonical;
    n.CfgIs();
    n.ValidParts();
    n.LedgerIsDerived();
    n.WholeWindow();
    ghost var good := PendingAll(c, cfg, chain, n.settled) && Stores(c, cfg, chain, db);
    if good {
      StoresMeans(c, cfg, chain, db);
      RebuildRestores(c, cfg, chain, n.settled);
    }
    var payouts := n.TakeAllSettledPayouts();
    ok := db.RebuildTxIndex(n.blocks, payouts);
    if !ok {
      return;
    }
    if good {
      Rebuilt(c, cfg, chain, db, payouts);
    }
    n.CfgIs();
    n.PruneToWindow();
    n.CfgIs();
    if good {
      n.LedgerIsDerived();
      n.TicketsAre();
      PendingRises(c, cfg, chain);
    }
    n.ReloadTickets(db);
    n.CfgIs();
  }

  lemma StoresMeans(c: Crypto, cfg: Config, chain: seq<Block>, db: Db)
    requires Stores(c, cfg, chain, db)
    ensures |chain| > 0 && |chain[0].transactions| <= LOTTERY_POS && db.reliable && db.blocks == BlockTable(chain)
    ensures db.tickets == TicketTable(Derived(c, cfg, chain).tickets)
  {
    hide Derived, TicketTable, BlockTable;
  }

  lemma Rebuilt(c: Crypto, cfg: Config, chain: seq<Block>, db: Db, pays: map<nat, seq<Payout>>)
    requires |chain| > 0 && |chain[0].transactions| <= LOTTERY_POS && db.reliable && db.blocks == BlockTable(chain)
    requires db.tickets == TicketTable(Derived(c, cfg, chain).tickets)
    requires AddAll(Empty(db.tickets), chain, pays) == TablesOf(c, cfg, chain)
    requires db.txIndex == AddAll(Empty(db.tickets), chain, pays).txIndex
    requires db.payouts == AddAll(Empty(db.tickets), chain, pays).payouts
    ensures InStep(c, cfg, chain, db)
  {
    hide AddAll, Derived, IndexOf, PayoutsOf, TicketTable, BlockTable, PayoutTable;
  }

  // -------------------------------------------------------------------------
  // Booting
  // -------------------------------------------------------------------------

  // What the program finds at its start: the stored chain, or nothing, in which case
  // the chain is the network's genesis block.
  ghost predicate Starts(c: Crypto, cfg: Config, genesis: Block, chain: seq<Block>, db: Db)
    reads db
  {
    || Stores(c, cfg, chain, db)
    || (db.reliable && db.blocks == map[] && db.tickets == map[] && chain == [genesis] &&
        |genesis.transactions| <= LOTTERY_POS)
  }

  lemma FreshStores(c: Crypto, cfg: Config, genesis: Block, chain: seq<Block>, db: Db)
    requires db.reliable && db.blocks == map[0 := genesis] && db.tickets == map[] && chain == [genesis]
    requires |genesis.transactions| <= LOTTERY_POS
    ensures Stores(c, cfg, chain, db)
  {
    assert TicketTable([]) == map[];
  }

  lemma StartsMeans(c: Crypto, cfg: Config, genesis: Block, chain: seq<Block>, db: Db)
    requires Starts(c, cfg, genesis, chain, db)
    ensures db.reliable && |chain| > 0
    ensures db.blocks == map[] ==> db.tickets == map[] && chain == [genesis] && |genesis.transactions| <= LOTTERY_POS
    ensures db.blocks != map[] ==> Stores(c, cfg, chain, db) && db.blocks == BlockTable(chain)
  {
    hide Derived, TicketTable;
    assert |chain| > 0;
    assert 0 in BlockTable(chain);
  }

  lemma NothingStored(blocks: map<nat, Block>, ks: seq<nat>)
    requires Lists(ks, blocks.Keys)
    ensures ks == [] <==> blocks == map[]
  {
    if ks != [] {
      assert ks[0] in blocks.Keys;
    }
    if blocks != map[] {
      var k :| k in blocks.Keys;
    }
  }

  // The blocks to start from: those stored, or a genesis block that is stored first.
  method FirstBlocks(db: Db, genesis: Block) returns (stored: Option<seq<Block>>)
    requires genesis.index == 0 && (db.blocks == map[] || db.Filed())
    modifies db`blocks
    ensures stored.Some? ==> |stored.value| > 0 && stored.value[0].index == 0 && db.Filed()
    ensures db.reliable ==> stored.Some?
    ensures db.reliable && old(db.blocks) == map[] ==> stored == Some([genesis]) && db.blocks == map[0 := genesis]
    ensures old(db.blocks) != map[] ==> db.blocks == old(db.blocks)
    ensures stored.Some? && old(db.blocks) != map[] ==>
      forall chain :: db.blocks == BlockTable(chain) ==> stored.value == chain
  {
    hide BlockTable;
    ghost var ks;
    var loaded;
    loaded, ks := db.LoadCanonicalChain();
    if loaded.None? {
      return None;
    }
    NothingStored(db.blocks, ks);
    if loaded.value == [] {
      var saved := db.SaveBlockIndexed(genesis);
      return if saved then Some([genesis]) else None;
    }
    FirstStored(db.blocks, ks);
    return loaded;
  }

  // Startup without a checkpoint. Null stands for a panic or an abort on the way.
  method Boot(c: Crypto, db: Db, genesis: Block, pot: u64, difficulty: real, now: nat, later: Clock,
              ghost chain: seq<Block>)
    returns (n: Blockchain?)
    requires Sound(c) && genesis.index == 0 && (db.blocks == map[] || db.Filed())
    modifies db
    ensures n != null ==> fresh(n) && n.c == c && n.Cfg() == Config(pot, difficulty) && |n.blocks| <= REORG_WINDOW
    // From the stored blocks and tickets of a valid chain, or from nothing, the
    // program comes up in step, on the derived state of that chain.
    ensures
      (ValidChain(c, Config(pot, difficulty), chain) && AllTimely(chain, now, later) &&
       old(Starts(c, Config(pot, difficulty), genesis, chain, db))) ==>
        && n != null && n.Valid() && n.canonical == chain && db.Filed()
        && n.LedgerOf() == Derived(c, Config(pot, difficulty), chain)
        && InStep(c, Config(pot, difficulty), chain, db)
  {
    hide *;
    ghost var cfg := Config(pot, difficulty);
    ghost var good := ValidChain(c, cfg, chain) && AllTimely(chain, now, later) && Starts(c, cfg, genesis, chain, db);
    if good {
      StartsMeans(c, cfg, genesis, chain, db);
    }
    var stored := FirstBlocks(db, genesis);
    if stored.None? {
      return null;
    }
    if good {
      if old(db.blocks) == map[] {
        FreshStores(c, cfg, genesis, chain, db);
      }
      assert stored.value == chain && Stores(c, cfg, chain, db);
    }
    n := new Blockchain(c, stored.value[0], difficulty);
    n.SeedPot(pot);
    n.CfgIs();
    var killed := ReplayStored(n, stored.value, now, later);
    if killed {
      return null;
    }
    FiledSame(db);
    var ok := Reindex(n, db);
    if !ok {
      return null;
    }
    FiledSame(db);
    n.CfgIs();
    if good {
      n.LedgerIsDerived();
    }
  }

  lemma FiledSame(db: Db)
    ensures db.Filed() <==> FiledIn(db.blocks)
  {
  }
}
