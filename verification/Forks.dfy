/** What the running node may say about a fork before it replays it. */
module Forks {
  import opened Prelude
  import opened Types
  import opened Consensus
  import opened Replay
  import opened ForkChoice
  import opened AsertSchedule
  import opened Consistency
  import opened Decisions
  import opened Tables
  import opened Database
  import opened Chain

  // -------------------------------------------------------------------------
  // Forks of canonical blocks
  // -------------------------------------------------------------------------

  lemma WindowParent(n: Blockchain, fork: seq<Block>, a: nat)
    requires n.Valid() && n.BeatsWindow(fork, a)
    ensures a < |n.canonical| && |fork| > 0 && n.canonical[a].hash == fork[0].previousHash
  {
    n.WindowFacts();
    hide Blockchain.Valid, SatWork;
  }

  lemma DeepParent(n: Blockchain, db: Db, fork: seq<Block>, a: nat)
    requires n.BeatsDeep(db, fork, a) && n.Mirrored(db) && a < |n.canonical|
    ensures |fork| > 0 && n.canonical[a].hash == fork[0].previousHash
  {
    hide SatWork, RangeOf;
    RangeOfChain(n.canonical, a, 1);
    assert n.canonical[a..a + 1][0] == n.canonical[a];
  }

  // A fork made only of blocks that are canonical already is never selected,
  // wherever it hangs off the chain.
  lemma CanonicalForkNeverWins(n: Blockchain, db: Db?, tip: Hash, fork: seq<Block>, a: nat)
    requires n.Valid() && n.Mirrored(db) && IsTrace(n.orphanPool, tip, fork)
    requires forall k :: 0 <= k < |fork| ==> OnChain(n.canonical, fork[k].hash)
    ensures !n.BeatsWindow(fork, a) && !n.BeatsDeep(db, fork, a)
  {
    n.ValidParts();
    n.LedgerIsDerived();
    hide *;
    TraceParts(n.c, n.orphanPool, tip, fork);
    CanonicalIs(n.c, n.canonical, fork);
    if n.BeatsWindow(fork, a) || n.BeatsDeep(db, fork, a) {
      n.ForkGains(db, fork, a);
      if n.BeatsWindow(fork, a) {
        WindowParent(n, fork, a);
      } else {
        NotNull(n, db, fork, a);
        DeepParent(n, db, fork, a);
      }
      CanonicalForkLoses(n.c, n.Cfg(), n.canonical, a, fork);
    }
  }

  lemma NotNull(n: Blockchain, db: Db?, fork: seq<Block>, a: nat)
    requires n.BeatsDeep(db, fork, a)
    ensures db != null
  {
    hide SatWork, RangeOf;
  }

  lemma TraceParts(c: Crypto, pool: Pool, tip: Hash, fork: seq<Block>)
    requires IsTrace(pool, tip, fork) && PoolHashed(c, pool)
    ensures |fork| > 0 && Linked(fork) && forall k :: 0 <= k < |fork| ==> Hashed(c, fork[k])
  {
    hide Hashed;
  }

  lemma CanonicalIs(c: Crypto, chain: seq<Block>, fork: seq<Block>)
    requires forall k :: 0 <= k < |fork| ==> OnChain(chain, fork[k].hash)
    requires forall k :: 0 <= k < |fork| ==> Hashed(c, fork[k])
    ensures AllCanonical(c, chain, fork)
  {
    hide Hashed, OnChain;
  }

  // -------------------------------------------------------------------------
  // The difficulty an orphan is held to
  // -------------------------------------------------------------------------

  // Two valid chains that share their genesis block agree on the block behind a hash.
  lemma SameHashSameTime(c: Crypto, cfg: Config, x: seq<Block>, y: seq<Block>, i: nat, j: nat)
    requires Sound(c) && ValidChain(c, cfg, x) && ValidChain(c, cfg, y) && x[0] == y[0]
    requires i < |x| && j < |y| && x[i].hash == y[j].hash
    ensures x[i].timestamp == y[j].timestamp
  {
    hide ValidChain;
    ValidIsLinked(c, cfg, x);
    ValidIsLinked(c, cfg, y);
    if i == 0 {
      HashesDiffer(c, cfg, y, 0, j);
    } else if j == 0 {
      HashesDiffer(c, cfg, x, i, 0);
    } else {
      assert Hashed(c, x[i]) && Hashed(c, y[j]);
      assert x[i].HeaderOf() == y[j].HeaderOf();
    }
  }

  // The fork below block `j` is in memory: its ancestor in the window, its own blocks in the pool.
  ghost predicate InMemory(n: Blockchain, a: nat, fork: seq<Block>, j: nat)
    reads n
  {
    && n.offset <= a < |n.canonical| && j < |fork|
    && forall i :: 0 <= i < j ==> fork[i].hash in n.orphanPool && n.orphanPool[fork[i].hash] == fork[i]
  }

  // Block `j` refers to the block before it on a branch that is valid up to there.
  // Nothing is asked of the block itself, nor of those after it.
  ghost predicate LinkedTo(n: Blockchain, a: nat, fork: seq<Block>, j: nat)
    reads n
    requires a < |n.canonical| && j < |fork|
  {
    var below := BranchBelow(n.canonical, a, fork, j);
    ValidChain(n.c, n.Cfg(), below) && fork[j].previousHash == Last(below).hash
  }

  // The timestamp the node looks up for the predecessor of block `j` is the right one.
  lemma PredecessorFound(n: Blockchain, a: nat, fork: seq<Block>, j: nat)
    requires n.Valid() && InMemory(n, a, fork, j) && LinkedTo(n, a, fork, j)
    ensures n.FindBlockTimestamp(fork[j].previousHash) == Some(Last(BranchBelow(n.canonical, a, fork, j)).timestamp)
  {
    hide Blockchain.Valid, Consistent, ValidChain, Derived, Sound, Acyclic, PoolHashed;
    n.ValidParts();
    n.LedgerIsDerived();
    n.WindowFacts();
    var below := BranchBelow(n.canonical, a, fork, j);
    var h := fork[j].previousHash;
    if h in n.blockHashes {
      var i := n.blockHashes[h];
      assert n.canonical[i].hash == h && n.blocks[i - n.offset] == n.canonical[i];
      SameHashSameTime(n.c, n.Cfg(), n.canonical, below, i, a + j);
    } else if j == 0 {
      n.IsIndexed(a);
      assert false;
    } else {
      assert below[a + j] == fork[j - 1];
    }
  }

  // A block of a fork above block 1 that claims the next height is held to the
  // difficulty its replay will demand there, to within EPSILON, whatever the main
  // chain's timing was and whatever else is wrong with the block.
  lemma OrphanIsJudgedFairly(n: Blockchain, a: nat, fork: seq<Block>, j: nat)
    requires n.Valid() && InMemory(n, a, fork, j) && LinkedTo(n, a, fork, j)
    requires 1 <= a && n.initialDifficulty <= MAX_DIFFICULTY && fork[j].index == a + 1 + j
    ensures Near(n.ExpectedDifficultyFor(fork[j]),
                 Derived(n.c, n.Cfg(), BranchBelow(n.canonical, a, fork, j)).difficulty)
  {
    hide Blockchain.Valid, ValidChain, Derived, Near, Expected;
    n.LedgerIsDerived();
    PredecessorFound(n, a, fork, j);
    ExpectedIsRequired(n.c, n.Cfg(), n.canonical, a, fork, j);
  }

  // A harder target is never met by a hash that misses an easier one.
  ghost predicate Monotone(c: Crypto) {
    forall h, d, e :: d <= e && c.meets(h, e) ==> c.meets(h, d)
  }

  // The rules for orphans that do not look at the difficulty.
  ghost predicate FitsPool(c: Crypto, chain: seq<Block>, b: Block) {
    b.hash == c.headerHash(b.HeaderOf()) && b.index <= |chain| + 10 && CountTransfers(b.transactions) <= 240
  }

  // Of the blocks that fit, the node keeps every one that beats by EPSILON the
  // difficulty its replay will demand, and none that misses it by more than that.
  lemma ForkBlockIsPlausible(n: Blockchain, a: nat, fork: seq<Block>, j: nat)
    requires n.Valid() && InMemory(n, a, fork, j) && LinkedTo(n, a, fork, j) && Monotone(n.c)
    requires 1 <= a && n.initialDifficulty <= MAX_DIFFICULTY && fork[j].index == a + 1 + j
    ensures var due := Derived(n.c, n.Cfg(), BranchBelow(n.canonical, a, fork, j)).difficulty;
      var kept := Plausible(n.c, n.Cfg(), n.StandingOf(), fork[j]);
      && (FitsPool(n.c, n.canonical, fork[j]) && n.c.meets(fork[j].hash, due + EPSILON) ==> kept)
      && (kept ==> FitsPool(n.c, n.canonical, fork[j]) && n.c.meets(fork[j].hash, due - EPSILON))
  {
    hide Blockchain.Valid, ValidChain, Derived, SeenTime, Expected, LinkedTo;
    OrphanIsJudgedFairly(n, a, fork, j);
    n.ExpectedIsSeen(fork[j]);
  }

  // A block whose predecessor is nowhere in sight is held to the difficulty at the tip.
  lemma StrangerIsHeldToTip(n: Blockchain, b: Block)
    requires n.Valid() && b.previousHash !in n.orphanPool
    requires forall i :: n.offset <= i < |n.canonical| ==> n.canonical[i].hash != b.previousHash
    ensures |n.canonical| > 0
    ensures Plausible(n.c, n.Cfg(), n.StandingOf(), b) <==>
      FitsPool(n.c, n.canonical, b) && n.c.meets(b.hash, Derived(n.c, n.Cfg(), n.canonical).difficulty)
  {
    n.LedgerIsDerived();
    hide Blockchain.Valid, ValidChain, Derived, Expected;
    HeldTo(n.c, n.Cfg(), n.canonical, None, b.index);
    assert !Windowed(n.StandingOf(), b.previousHash);
  }

  // -------------------------------------------------------------------------
  // A selected fork can be refused
  // -------------------------------------------------------------------------

  // `b` refers to the tip and passes the rules for orphans, but claims another height than the next.
  ghost predicate Misnumbered(c: Crypto, cfg: Config, s: Standing, b: Block) {
    && WellPlaced(c, cfg, s) && s.start < |s.chain|
    && b.previousHash == Last(s.chain).hash && b.index != |s.chain|
    && Plausible(c, cfg, s, b)
  }

  lemma OnlyOrphan(c: Crypto, b: Block)
    requires Acyclic(c) && Hashed(c, b)
    ensures var pool := map[b.hash := b];
      && OrphanAdmitted(map[], pool, b)
      && IsTrace(pool, b.hash, [b]) && Unreferenced(pool, b.hash) && b.previousHash !in pool
      && forall f: seq<Block> :: |f| > 0 && IsTrace(pool, Last(f).hash, f) ==> f == [b]
  {
    var pool := map[b.hash := b];
    assert b.HeaderOf().previousHash == b.previousHash;
    assert AtHeight(map[], b.index) == {};
    assert pool == map[][b.hash := b];
    OrphanAdmittedIntro(map[], map[], map[], b);
    forall f: seq<Block> | |f| > 0 && IsTrace(pool, Last(f).hash, f) ensures f == [b] {
      TraceIsUnique(pool, b.hash, f, [b]);
    }
  }

  lemma LoneBlockOutweighsNothing(b: Block)
    ensures SatWork([b]) > SatWork([])
  {
    assert Front([b]) == [];
  }

  lemma MisnumberedIsRefused(c: Crypto, cfg: Config, chain: seq<Block>, b: Block, now: nat)
    requires |chain| > 0 && b.index != |chain|
    ensures Judge(c, FullView(c, cfg, chain), b, now).Refused?
  {
    hide Derived, Process, WellFormed, PreValid, MedianTimePast;
  }

  // With nothing else in the pool, a block that outweighs the chain above its
  // parent is the fork to take.
  lemma LoneForkIsHeaviest(c: Crypto, s: Standing, b: Block, a: nat)
    requires Acyclic(c) && Hashed(c, b) && s.pool == map[]
    requires Heavier(s.(pool := map[b.hash := b]), [b], a)
    ensures var t := s.(pool := map[b.hash := b]);
      OrphanAdmitted(s.pool, t.pool, b) && Heaviest(t, [b], a)
  {
    OnlyOrphan(c, b);
    hide SatWork, Unreferenced, IsTrace, Hashed, OrphanAdmitted;
    var t := s.(pool := map[b.hash := b]);
    assert Candidate(t, [b], a);
  }

  // What becomes of a heaviest fork, as long as its replay kills nobody.
  lemma HeaviestIsTaken(c: Crypto, cfg: Config, s: Standing, b: Block, pool: Pool, fork: seq<Block>, a: nat,
                        now: nat, later: Clock)
    requires a < |s.chain| && b.index != |s.chain| && Plausible(c, cfg, s, b) && OrphanAdmitted(s.pool, pool, b)
    requires Heaviest(s.(pool := pool), fork, a) && !Dies(c, cfg, Branch(s.chain, a, fork), now, later)
    ensures May(c, cfg, s, b, now, later, Switches(pool, fork, a))
  {
    hide Plausible, Derived, Judge, Heaviest, Offered, OrphanAdmitted, Dies, May;
    HeaviestIsOffered(s.(pool := pool), fork, a);
    MisnumberedIsRefused(c, cfg, s.chain, b, now);
    ShelvedIntro(c, cfg, s, b, now, pool);
    MoveToFork(c, cfg, s, b, now, later, pool, fork, a);
  }

  lemma HeaviestIsOffered(s: Standing, fork: seq<Block>, a: nat)
    requires Heaviest(s, fork, a)
    ensures Offered(s, fork, a)
  {
    hide SatWork, Unreferenced, Linked;
  }

  // A block on the tip outweighs the nothing above it, whatever else waits in the pool.
  lemma ChildIsHeavier(s: Standing, b: Block)
    requires s.start < |s.chain| && b.previousHash == Last(s.chain).hash
    ensures Heavier(s, [b], |s.chain| - 1)
  {
    hide SatWork;
    LoneBlockOutweighsNothing(b);
    assert s.chain[|s.chain|..] == [];
  }

  // Replaying the chain with a misnumbered block on top never gets past the chain, and kills nobody.
  lemma ReplayShuns(c: Crypto, cfg: Config, chain: seq<Block>, b: Block, now: nat, later: Clock)
    requires ValidChain(c, cfg, chain) && b.index != |chain|
    ensures var list := chain + [b];
      && !Adopts(c, cfg, list, now, later) && !Dies(c, cfg, list, now, later)
      && IsPrefix(Accepted(c, cfg, list, now, later), chain)
  {
    hide Judge, Derived, Accepts;
    var list := chain + [b];
    var r := Reach(c, cfg, list, 1, now, later);
    assert list[..|chain|] == chain;
    MisnumberedIsRefused(c, cfg, chain, b, now + later(|chain|));
    if r > |chain| {
      ReachAccepts(c, cfg, list, 1, now, later, |chain|);
      assert false;
    }
    if 0 < r < |chain| {
      StandsInPrefix(c, cfg, list, |chain|, r);
      StandingNeverDies(c, cfg, list, r, now, later);
    }
    assert list[..r] == chain[..r];
  }

  lemma StandingNeverDies(c: Crypto, cfg: Config, list: seq<Block>, n: nat, now: nat, later: Clock)
    requires 0 < n < |list| && Stands(c, cfg, list, n)
    ensures !JudgeAt(c, cfg, list, n, now, later).Died?
  {
    hide Admissible, Process, Derived;
  }

  // Kept as a run of its own, such a block is a candidate, whatever the chain and the
  // rest of the pool. If no other candidate is heavier it may be selected: the replay
  // then refuses it and ends on the old chain or short of it. So a selected fork can
  // fail, with no more work to show for it and the tables wrong.
  lemma MisnumberedChildIsSelected(c: Crypto, cfg: Config, s: Standing, b: Block, pool: Pool, now: nat, later: Clock)
    requires Misnumbered(c, cfg, s, b) && OrphanAdmitted(s.pool, pool, b)
    requires b.previousHash !in pool && Unreferenced(pool, b.hash)
    ensures |s.chain| > 0 && Candidate(s.(pool := pool), [b], |s.chain| - 1)
    ensures
      (forall f, d :: Candidate(s.(pool := pool), f, d) ==> SatWork(f) <= SatWork([b])) ==>
        var m := Switches(pool, [b], |s.chain| - 1);
        && May(c, cfg, s, b, now, later, m)
        && IsPrefix(After(c, cfg, s, b, now, later, m).chain, s.chain)
        && !KeepsTables(c, cfg, s, now, later, m)
  {
    hide Plausible, ValidChain, Derived, Heavier, May, Reach, Dies, Sound, PoolHashed, SatWork, Unreferenced;
    var a, t := |s.chain| - 1, s.(pool := pool);
    AdmittedHolds(s.pool, pool, b);
    ChildIsHeavier(t, b);
    ReplayShuns(c, cfg, s.chain, b, now, later);
    assert s.chain[..a + 1] + [b] == s.chain + [b];
    if forall f, d :: Candidate(t, f, d) ==> SatWork(f) <= SatWork([b]) {
      HeaviestIsTaken(c, cfg, s, b, pool, [b], a, now, later);
    }
  }

  lemma AdmittedHolds(pool: Pool, fin: Pool, b: Block)
    requires OrphanAdmitted(pool, fin, b)
    ensures b.hash in fin && fin[b.hash] == b
  {
    hide LowestEvicted, HeightEvicted;
  }

  // With an empty pool there is nothing else to take.
  lemma LoneMisnumberedChild(c: Crypto, cfg: Config, s: Standing, b: Block, now: nat, later: Clock)
    requires Misnumbered(c, cfg, s, b) && s.pool == map[]
    ensures |s.chain| > 0
    ensures var m := Switches(map[b.hash := b], [b], |s.chain| - 1);
      May(c, cfg, s, b, now, later, m) && !KeepsTables(c, cfg, s, now, later, m)
  {
    hide Plausible, ValidChain, Derived, Heavier, May, Sound, PoolHashed, SatWork, KeepsTables, After, Candidate;
    hide OrphanAdmitted, IsTrace, Unreferenced, Hashed, Acyclic;
    var pool := map[b.hash := b];
    SoundIsAcyclic(c);
    PlausibleIsHashed(c, cfg, s, b);
    OnlyOrphan(c, b);
    ChildIsHeavier(s.(pool := pool), b);
    LoneForkIsHeaviest(c, s, b, |s.chain| - 1);
    MisnumberedChildIsSelected(c, cfg, s, b, pool, now, later);
  }

  // What the deep path then writes is not the table of the chain: the stray block is in it.
  lemma MisnumberedChildIsWritten(c: Crypto, cfg: Config, s: Standing, b: Block)
    requires Misnumbered(c, cfg, s, b)
    ensures SaveAll(BlockTable(s.chain), [b]) == BlockTable(s.chain)[b.index := b] != BlockTable(s.chain)
  {
    PlausibleIsHashed(c, cfg, s, b);
    hide Plausible, ValidChain;
    var saved := SaveAll(BlockTable(s.chain), [b]);
    assert Front([b]) == [];
    assert saved[b.index] == b;
    if saved == BlockTable(s.chain) {
      ChildOfCanonical(c, cfg, s.chain, |s.chain| - 1, b, b.index);
      assert false;
    }
  }

  // Blocks appended later do not mend it.
  lemma {:induction false} StrayStays(chain: seq<Block>, stray: Block, more: seq<Block>)
    requires stray.index < |chain| && forall i :: 0 <= i < |more| ==> more[i].index == |chain| + i
    ensures SaveAll(BlockTable(chain)[stray.index := stray], more) == BlockTable(chain + more)[stray.index := stray]
  {
    if more == [] {
      assert chain + more == chain;
    } else {
      StrayStays(chain, stray, Front(more));
      assert chain + more == chain + Front(more) + [Last(more)];
    }
  }

  // Once the window has moved past the stray block, a reorganisation inside the
  // window reads it back as part of the history, wherever the fork hangs off.
  lemma StrayIsReplayed(db: Db, chain: seq<Block>, start: nat, b: Block, fork: seq<Block>, a: nat)
    requires 0 < b.index < start <= a < |chain| && chain[start].index == start
    requires db.blocks == BlockTable(chain)[b.index := b]
    ensures Blockchain.TargetFor(db, chain[start..], start, fork, a) == Branch(chain, a, fork)[b.index := b]
  {
    hide RangeOf;
    var read := chain[b.index := b];
    assert db.blocks == BlockTable(read);
    RangeOfChain(read, 0, start);
    assert read[0..start] == chain[..start][b.index := b];
    SplitTake(chain, start, a + 1, fork);
    assert chain[start..][..a + 1 - start] + fork != [];
  }

  // The replay stops at it: whatever fork was to be taken, the chain is cut down to
  // the height the stray block claimed.
  lemma StrayBlockCutsChain(c: Crypto, cfg: Config, chain: seq<Block>, b: Block, fork: seq<Block>, a: nat,
                            now: nat, later: Clock)
    requires ValidChain(c, cfg, chain) && 0 < b.index <= a < |chain| && b.previousHash != chain[b.index - 1].hash
    ensures var target := Branch(chain, a, fork)[b.index := b];
      && !Dies(c, cfg, target, now, later)
      && IsPrefix(Accepted(c, cfg, target, now, later), chain[..b.index])
  {
    hide Judge, Derived, Accepts, ValidChain;
    var k := b.index;
    var target := Branch(chain, a, fork)[k := b];
    var r := Reach(c, cfg, target, 1, now, later);
    assert target[..k] == chain[..k] && target[k] == b;
    UnlinkedIsRefused(c, cfg, chain[..k], b, now + later(k));
    if r > k {
      ReachAccepts(c, cfg, target, 1, now, later, k);
      assert false;
    }
    if r < k {
      StandsBelow(c, cfg, chain, target, k, r);
      StandingNeverDies(c, cfg, target, r, now, later);
    }
    assert target[..r] == chain[..k][..r];
  }

  // Such a block is stray for good: it names a block above its place.
  lemma StrayIsUnlinked(c: Crypto, cfg: Config, chain: seq<Block>, b: Block, t: nat)
    requires Acyclic(c) && ValidChain(c, cfg, chain) && 0 < b.index <= t < |chain| && b.previousHash == chain[t].hash
    ensures b.previousHash != chain[b.index - 1].hash
  {
    hide ValidChain;
    if chain[b.index - 1].hash == b.previousHash {
      HashesDiffer(c, cfg, chain, b.index - 1, t);
    }
  }

  lemma UnlinkedIsRefused(c: Crypto, cfg: Config, chain: seq<Block>, b: Block, now: nat)
    requires |chain| > 0 && b.previousHash != Last(chain).hash
    ensures Judge(c, FullView(c, cfg, chain), b, now).Refused?
  {
    hide Derived, Process, WellFormed, PreValid, MedianTimePast;
  }

  lemma StandsBelow(c: Crypto, cfg: Config, chain: seq<Block>, target: seq<Block>, k: nat, r: nat)
    requires ValidChain(c, cfg, chain) && 0 < r < k <= |chain| && k <= |target| && target[..k] == chain[..k]
    ensures Stands(c, cfg, target, r)
  {
    hide Accepts, Derived;
    assert Stands(c, cfg, chain, r);
    assert target[..r] == target[..k][..r] == chain[..k][..r] == chain[..r];
    assert target[r] == target[..k][r] == chain[..k][r] == chain[r];
  }

  // Put together: a node has written such a block and then the blocks of a longer
  // valid chain. From when its window starts past the height claimed, every reorganisation
  // inside the window ends at or below that height, whatever the fork.
  lemma MisnumberedChildCutsLater(c: Crypto, cfg: Config, s: Standing, b: Block, more: seq<Block>, db: Db, start: nat,
                                  fork: seq<Block>, a: nat, now: nat, later: Clock)
    requires Misnumbered(c, cfg, s, b) && 0 < b.index < |s.chain| && ValidChain(c, cfg, s.chain + more)
    requires db.blocks == SaveAll(SaveAll(BlockTable(s.chain), [b]), more)
    requires b.index < start <= a < |s.chain + more|
    ensures var chain := s.chain + more;
      var target := Blockchain.TargetFor(db, chain[start..], start, fork, a);
      && |target| > 0 && !Dies(c, cfg, target, now, later)
      && IsPrefix(Accepted(c, cfg, target, now, later), chain[..b.index])
  {
    hide Plausible, ValidChain, Acyclic, Injective, SaveAll, BlockTable, Dies, Accepted, Branch, PoolHashed;
    hide Blockchain.TargetFor;
    var chain := s.chain + more;
    MisnumberedChildIsWritten(c, cfg, s, b);
    forall i | 0 <= i < |more| ensures more[i].index == |s.chain| + i {
      IndicesAreHeights(c, cfg, chain, |s.chain| + i);
      assert chain[|s.chain| + i] == more[i];
    }
    StrayStays(s.chain, b, more);
    IndicesAreHeights(c, cfg, chain, start);
    StrayIsReplayed(db, chain, start, b, fork, a);
    assert chain[|s.chain| - 1] == Last(s.chain);
    StrayIsUnlinked(c, cfg, chain, b, |s.chain| - 1);
    StrayBlockCutsChain(c, cfg, chain, b, fork, a, now, later);
    BranchIsSome(chain, a, fork);
  }

  lemma BranchIsSome(chain: seq<Block>, a: nat, fork: seq<Block>)
    requires a < |chain|
    ensures |Branch(chain, a, fork)| == a + 1 + |fork|
  {
  }

  // The height claimed is what sets the difficulty: an hour and more of chain per
  // bit behind its tip, a block at height 2 is held to the minimum only.
  lemma LowHeightIsCheap(l: Ledger, parent: u64)
    requires l.anchor.Some? && l.anchor.value.height == 1 && l.anchor.value.difficulty >= MIN_DIFFICULTY
    requires var bits := l.anchor.value.difficulty - MIN_DIFFICULTY;
      (parent - l.anchor.value.timestamp) as real >= ASERT_HALFLIFE_SECS * bits
    ensures Expected(l, Some(parent), 2) == MIN_DIFFICULTY
  {
  }

  // Two nodes on the same chain hold the same derived state, whatever route brought them there.
  lemma SameChainSameState(m: Blockchain, n: Blockchain)
    requires m.Valid() && n.Valid() && m.c == n.c && m.Cfg() == n.Cfg() && m.canonical == n.canonical
    ensures m.LedgerOf() == n.LedgerOf()
  {
    hide *;
    m.LedgerIsDerived();
    n.LedgerIsDerived();
  }
}
