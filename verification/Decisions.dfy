/** What the node does with one more block, as relations on the chain, the window and the orphan pool. */
module Decisions {
  import opened Prelude
  import opened Types
  import opened Consensus
  import opened Conservation
  import opened Replay
  import opened ForkChoice
  import opened AsertSchedule
  import opened Consistency

  // -------------------------------------------------------------------------
  // Replaying a list of blocks
  // -------------------------------------------------------------------------

  // How much later than at the start of the call the wall clock stands when the
  // n-th block of a replay is judged.
  type Clock = nat -> nat

  ghost function JudgeAt(c: Crypto, cfg: Config, list: seq<Block>, n: nat, now: nat, later: Clock): Verdict
    requires 0 < n < |list|
  {
    Judge(c, FullView(c, cfg, list[..n]), list[n], now + later(n))
  }

  // How many blocks a replay of `list` has accepted when it stops, the first `n` being accepted.
  ghost function Reach(c: Crypto, cfg: Config, list: seq<Block>, n: nat, now: nat, later: Clock): (r: nat)
    requires 0 < n <= |list|
    ensures n <= r <= |list|
    decreases |list| - n
  {
    if n < |list| && JudgeAt(c, cfg, list, n, now, later).Extended? then Reach(c, cfg, list, n + 1, now, later) else n
  }

  ghost function Accepted(c: Crypto, cfg: Config, list: seq<Block>, now: nat, later: Clock): (r: seq<Block>)
    requires |list| > 0
    ensures 0 < |r| <= |list|
  {
    list[..Reach(c, cfg, list, 1, now, later)]
  }

  // The replay runs into an abort.
  ghost predicate Dies(c: Crypto, cfg: Config, list: seq<Block>, now: nat, later: Clock)
    requires |list| > 0
  {
    var r := Reach(c, cfg, list, 1, now, later);
    r < |list| && JudgeAt(c, cfg, list, r, now, later).Died?
  }

  ghost predicate Adopts(c: Crypto, cfg: Config, list: seq<Block>, now: nat, later: Clock)
    requires |list| > 0
  {
    Reach(c, cfg, list, 1, now, later) == |list|
  }

  // Block `n` is not dated too far ahead when it is judged.
  ghost predicate Timely(list: seq<Block>, n: nat, now: nat, later: Clock)
    requires n < |list|
  {
    list[n].timestamp <= now + later(n) + MAX_FUTURE_SECS
  }

  lemma JudgeExtendsIff(c: Crypto, cfg: Config, list: seq<Block>, n: nat, now: nat, later: Clock)
    requires 0 < n < |list|
    ensures JudgeAt(c, cfg, list, n, now, later).Extended? <==> Timely(list, n, now, later) && Stands(c, cfg, list, n)
  {
    hide Admissible, Process, Derived;
  }

  lemma {:induction false} ReachAccepts(c: Crypto, cfg: Config, list: seq<Block>, n: nat, now: nat, later: Clock,
                                        k: nat)
    requires 0 < n <= |list| && n <= k < Reach(c, cfg, list, n, now, later)
    ensures JudgeAt(c, cfg, list, k, now, later).Extended?
    decreases |list| - n
  {
    hide JudgeAt;
    if n < k {
      ReachAccepts(c, cfg, list, n + 1, now, later, k);
    }
  }

  lemma {:induction false} ReachStops(c: Crypto, cfg: Config, list: seq<Block>, n: nat, now: nat, later: Clock)
    requires 0 < n <= |list|
    ensures var r := Reach(c, cfg, list, n, now, later); r < |list| ==> !JudgeAt(c, cfg, list, r, now, later).Extended?
    decreases |list| - n
  {
    hide JudgeAt;
    if n < |list| && JudgeAt(c, cfg, list, n, now, later).Extended? {
      ReachStops(c, cfg, list, n + 1, now, later);
    }
  }

  // What the replay accepts is a valid chain.
  lemma AcceptedIsValid(c: Crypto, cfg: Config, list: seq<Block>, now: nat, later: Clock)
    requires |list| > 0 && list[0].index == 0
    ensures ValidChain(c, cfg, Accepted(c, cfg, list, now, later))
  {
    hide JudgeAt;
    var r := Reach(c, cfg, list, 1, now, later);
    forall k | 0 < k < r ensures Stands(c, cfg, list[..r], k) {
      ReachAccepts(c, cfg, list, 1, now, later, k);
      JudgeExtendsIff(c, cfg, list, k, now, later);
      StandsInPrefix(c, cfg, list, r, k);
    }
  }

  lemma StandsInPrefix(c: Crypto, cfg: Config, list: seq<Block>, r: nat, k: nat)
    requires 0 < k < r <= |list|
    ensures Stands(c, cfg, list[..r], k) <==> Stands(c, cfg, list, k)
  {
    hide Accepts, Derived;
    assert list[..r][..k] == list[..k];
  }

  // A replay completes exactly when the list is a valid chain and no block is
  // dated too far ahead when its turn comes.
  lemma AdoptsExactly(c: Crypto, cfg: Config, list: seq<Block>, now: nat, later: Clock)
    requires |list| > 0 && list[0].index == 0
    ensures Adopts(c, cfg, list, now, later) <==>
      ValidChain(c, cfg, list) && forall n :: 0 < n < |list| ==> Timely(list, n, now, later)
  {
    hide JudgeAt, Stands, Timely;
    var r := Reach(c, cfg, list, 1, now, later);
    if r == |list| {
      forall n | 0 < n < |list| ensures Timely(list, n, now, later) && Stands(c, cfg, list, n) {
        ReachAccepts(c, cfg, list, 1, now, later, n);
        JudgeExtendsIff(c, cfg, list, n, now, later);
      }
    } else {
      ReachStops(c, cfg, list, 1, now, later);
      JudgeExtendsIff(c, cfg, list, r, now, later);
    }
  }

  lemma AcceptedWhole(c: Crypto, cfg: Config, list: seq<Block>, now: nat, later: Clock)
    requires |list| > 0
    ensures Adopts(c, cfg, list, now, later) <==> Accepted(c, cfg, list, now, later) == list
  {
    hide Reach;
  }

  // With room in the supply for every block of it, no list kills the node.
  lemma RoomyNeverDies(c: Crypto, cfg: Config, list: seq<Block>, now: nat, later: Clock)
    requires |list| > 0 && list[0].index == 0 && Roomy(cfg, list)
    ensures !Dies(c, cfg, list, now, later)
  {
    AcceptedIsValid(c, cfg, list, now, later);
    hide ValidChain, Derived, Admissible, Process, Supply;
    var r := Reach(c, cfg, list, 1, now, later);
    if r < |list| {
      NeverAborts(c, cfg, list[..r], list[r]);
    }
  }

  // -------------------------------------------------------------------------
  // Choosing a fork
  // -------------------------------------------------------------------------

  // Where a node stands: its canonical chain, the height its window starts at, and its orphans.
  datatype Standing = Standing(chain: seq<Block>, start: nat, pool: Pool)

  // `fork` hangs off block `a` and outweighs what lies above it. Below the window
  // the node also asks that the fork's first block claims the height after `a`.
  ghost predicate Heavier(s: Standing, fork: seq<Block>, a: nat) {
    && |fork| > 0 && a < |s.chain|
    && s.chain[a].hash == fork[0].previousHash
    && (a < s.start ==> fork[0].index == a + 1)
    && SatWork(fork) > SatWork(s.chain[a + 1..])
  }

  // A whole run of orphans, up to a tip nothing builds on, that outweighs the main chain.
  ghost predicate Candidate(s: Standing, fork: seq<Block>, a: nat) {
    && |fork| > 0
    && IsTrace(s.pool, Last(fork).hash, fork)
    && Unreferenced(s.pool, Last(fork).hash)
    && Heavier(s, fork, a)
  }

  ghost predicate Heaviest(s: Standing, fork: seq<Block>, a: nat) {
    Candidate(s, fork, a) && forall f, b :: Candidate(s, f, b) ==> SatWork(f) <= SatWork(fork)
  }

  ghost predicate NothingHeavier(s: Standing) {
    forall f, b :: !Candidate(s, f, b)
  }

  lemma CandidateHasTip(s: Standing, fork: seq<Block>, a: nat)
    requires Candidate(s, fork, a)
    ensures |fork| > 0
  {
    hide IsTrace, Unreferenced, Heavier;
  }

  lemma HeaviestIntro(s: Standing, found: Option<(seq<Block>, nat)>)
    requires found.Some? ==> Candidate(s, found.value.0, found.value.1)
    requires forall f, b :: Candidate(s, f, b) ==> found.Some? && SatWork(f) <= SatWork(found.value.0)
    ensures if found.Some? then Heaviest(s, found.value.0, found.value.1) else NothingHeavier(s)
  {
    hide Candidate, SatWork;
  }

  // A chosen fork makes the chain strictly heavier.
  lemma HeavierGains(s: Standing, fork: seq<Block>, a: nat)
    requires Heavier(s, fork, a)
    ensures Work(Branch(s.chain, a, fork)) > Work(s.chain)
  {
    hide Work, SatWork;
    SatWorkIsCapped(fork);
    SatWorkIsCapped(s.chain[a + 1..]);
    SpliceGains(s.chain, a, fork);
  }

  // Adding up in two parts saturates as adding up in one.
  lemma TwoPartWork(x: seq<Block>, y: seq<Block>)
    ensures SatAdd128(SatWork(x), SatWork(y)) == SatWork(x + y)
  {
    SatWorkIsCapped(x);
    SatWorkIsCapped(y);
    SatWorkIsCapped(x + y);
    WorkAppend(x, y);
    hide Work, SatWork;
  }

  function HashesIn(fork: seq<Block>): set<Hash> {
    set i | 0 <= i < |fork| :: fork[i].hash
  }

  lemma {:induction false} DistinctHashes(c: Crypto, fork: seq<Block>)
    requires Acyclic(c) && Linked(fork) && forall k :: 0 <= k < |fork| ==> Hashed(c, fork[k])
    ensures |HashesIn(fork)| == |fork|
  {
    if fork == [] {
      assert HashesIn(fork) == {};
    } else {
      hide Acyclic, Hashed;
      DistinctHashes(c, Front(fork));
      forall i | 0 <= i < |fork| - 1 ensures fork[i].hash != Last(fork).hash {
        DepthsRise(c, fork, i, |fork| - 1);
      }
      HashesInLast(fork);
    }
  }

  lemma HashesInLast(fork: seq<Block>)
    requires |fork| > 0 && forall i :: 0 <= i < |fork| - 1 ==> fork[i].hash != Last(fork).hash
    ensures HashesIn(fork) == HashesIn(Front(fork)) + {Last(fork).hash} && Last(fork).hash !in HashesIn(Front(fork))
  {
    assert forall i :: 0 <= i < |fork| - 1 ==> fork[i] == Front(fork)[i];
  }

  // A trace is no longer than the pool it runs through.
  lemma TraceFits(c: Crypto, pool: Pool, tip: Hash, fork: seq<Block>)
    requires Acyclic(c) && PoolHashed(c, pool) && IsTrace(pool, tip, fork)
    ensures |fork| <= |pool|
  {
    hide Acyclic, Hashed;
    DistinctHashes(c, fork);
    SetFits(HashesIn(fork), pool.Keys);
  }

  lemma SetFits<T>(x: set<T>, y: set<T>)
    requires x <= y
    ensures |x| <= |y|
  {
    assert y == x + (y - x);
  }

  // -------------------------------------------------------------------------
  // Keeping an orphan
  // -------------------------------------------------------------------------

  ghost predicate Windowed(s: Standing, h: Hash) {
    exists i :: s.start <= i < |s.chain| && s.chain[i].hash == h
  }

  // The timestamp behind a hash: in the window, else in the pool.
  ghost function SeenTime(s: Standing, h: Hash): Option<u64> {
    if Windowed(s, h) then
      var i :| s.start <= i < |s.chain| && s.chain[i].hash == h;
      Some(s.chain[i].timestamp)
    else if h in s.pool then Some(s.pool[h].timestamp)
    else None
  }

  // What a block must satisfy to be kept as an orphan.
  ghost predicate Plausible(c: Crypto, cfg: Config, s: Standing, b: Block)
    requires |s.chain| > 0
  {
    && Hashed(c, b)
    && c.meets(b.hash, Expected(Derived(c, cfg, s.chain), SeenTime(s, b.previousHash), b.index))
    && b.index <= |s.chain| + MAX_ORPHAN_DEPTH
    && CountTransfers(b.transactions) <= MAX_BLOCK_TXS
  }

  ghost predicate ExtendsTip(s: Standing, b: Block)
    requires |s.chain| > 0
  {
    b.index == |s.chain| && b.previousHash == Last(s.chain).hash
  }

  // -------------------------------------------------------------------------
  // One more block
  // -------------------------------------------------------------------------

  datatype Move =
    | Extends
    | Refuses
    | Waits(pool: Pool)
    | Switches(pool: Pool, fork: seq<Block>, a: nat)
    | DiesOnBlock
    | DiesOnFork(pool: Pool, fork: seq<Block>, a: nat)

  // `b` does not extend the chain but is kept as an orphan, which turns the pool into `pool`.
  ghost predicate Shelved(c: Crypto, cfg: Config, s: Standing, b: Block, now: nat, pool: Pool)
    requires |s.chain| > 0
  {
    && Judge(c, FullView(c, cfg, s.chain), b, now).Refused?
    && !ExtendsTip(s, b) && Plausible(c, cfg, s, b)
    && OrphanAdmitted(s.pool, pool, b)
  }

  // A whole run of orphans on a canonical block, heavier than the window above it.
  ghost predicate Offered(s: Standing, fork: seq<Block>, a: nat) {
    && 0 < |fork| && a < |s.chain|
    && IsTrace(s.pool, Last(fork).hash, fork)
    && Unreferenced(s.pool, Last(fork).hash)
    && (s.start <= a ==> Heavier(s, fork, a))
  }

  // What the node may do with `b` whatever its storage answers.
  ghost predicate Admits(c: Crypto, cfg: Config, s: Standing, b: Block, now: nat, m: Move)
    requires |s.chain| > 0
  {
    var verdict := Judge(c, FullView(c, cfg, s.chain), b, now);
    match m
    case Extends => verdict.Extended?
    case DiesOnBlock => verdict.Died?
    case Refuses => verdict.Refused? && (ExtendsTip(s, b) || !Plausible(c, cfg, s, b))
    case Waits(pool) => Shelved(c, cfg, s, b, now, pool)
    case Switches(pool, fork, a) => Shelved(c, cfg, s, b, now, pool) && Offered(s.(pool := pool), fork, a)
    case DiesOnFork(pool, fork, a) => Shelved(c, cfg, s, b, now, pool) && Offered(s.(pool := pool), fork, a)
  }

  // What it does when storage holds the canonical chain. Only the choice between
  // orphans of equal height to evict, and between forks of equal work, is left open.
  ghost predicate May(c: Crypto, cfg: Config, s: Standing, b: Block, now: nat, later: Clock, m: Move)
    requires |s.chain| > 0
  {
    && Admits(c, cfg, s, b, now, m)
    && match m
       case Waits(pool) => NothingHeavier(s.(pool := pool))
       case Switches(pool, fork, a) =>
         Heaviest(s.(pool := pool), fork, a) && !Dies(c, cfg, Branch(s.chain, a, fork), now, later)
       case DiesOnFork(pool, fork, a) =>
         Heaviest(s.(pool := pool), fork, a) && Dies(c, cfg, Branch(s.chain, a, fork), now, later)
       case _ => true
  }

  // What the window holds above block `a`.
  function Displaced(s: Standing, a: nat): seq<Block> {
    if s.start <= a < |s.chain| then s.chain[a + 1..] else []
  }

  // Where it stands afterwards, before pruning.
  ghost function After(c: Crypto, cfg: Config, s: Standing, b: Block, now: nat, later: Clock, m: Move): Standing {
    match m
    case Extends => s.(chain := s.chain + [b])
    case Waits(pool) => s.(pool := pool)
    case Switches(_, fork, a) =>
      if a < |s.chain| then Standing(Accepted(c, cfg, Branch(s.chain, a, fork), now, later), 0, map[]) else s
    case _ => s
  }

  // The tables stay those of the chain: always, except that a switch must be
  // adopted whole, and must displace a block of the window or not shorten the chain.
  ghost predicate KeepsTables(c: Crypto, cfg: Config, s: Standing, now: nat, later: Clock, m: Move) {
    m.Switches? && m.a < |s.chain| ==>
      && Adopts(c, cfg, Branch(s.chain, m.a, m.fork), now, later)
      && ((s.start <= m.a && m.a + 1 < |s.chain|) || |Branch(s.chain, m.a, m.fork)| >= |s.chain|)
  }

  // Only the last REORG_WINDOW blocks stay in memory.
  function Trimmed(s: Standing): Standing {
    s.(start := Max(s.start, |s.chain| - REORG_WINDOW))
  }

  // Where the node stands once the move is made and persisted.
  ghost function Settled(c: Crypto, cfg: Config, s: Standing, b: Block, now: nat, later: Clock, m: Move): Standing {
    var after := After(c, cfg, s, b, now, later, m);
    if m.Extends? || m.Switches? then Trimmed(after) else after
  }

  // Room in the supply for every block of the chain and of any fork the pool can hold.
  ghost predicate HasRoom(cfg: Config, chain: seq<Block>)
    requires |chain| > 0
  {
    Supply(GenesisLedger(cfg, chain[0])) + |chain| + MAX_ORPHAN_POOL_SIZE <= U64_MAX
  }

  lemma MayIsAdmitted(c: Crypto, cfg: Config, s: Standing, b: Block, now: nat, later: Clock, m: Move)
    requires |s.chain| > 0 && May(c, cfg, s, b, now, later, m)
    ensures Admits(c, cfg, s, b, now, m)
  {
    hide Admits;
  }

  lemma MoveAtTip(c: Crypto, cfg: Config, s: Standing, b: Block, now: nat, later: Clock)
    requires |s.chain| > 0
    ensures var verdict := Judge(c, FullView(c, cfg, s.chain), b, now);
      && (verdict.Extended? ==> May(c, cfg, s, b, now, later, Extends))
      && (verdict.Died? ==> May(c, cfg, s, b, now, later, DiesOnBlock))
      && (verdict.Refused? && (ExtendsTip(s, b) || !Plausible(c, cfg, s, b)) ==> May(c, cfg, s, b, now, later, Refuses))
  {
    hide Judge, Derived, ExtendsTip, Plausible;
  }

  lemma ShelvedIntro(c: Crypto, cfg: Config, s: Standing, b: Block, now: nat, pool: Pool)
    requires |s.chain| > 0 && Judge(c, FullView(c, cfg, s.chain), b, now).Refused?
    requires !ExtendsTip(s, b) && Plausible(c, cfg, s, b) && OrphanAdmitted(s.pool, pool, b)
    ensures Shelved(c, cfg, s, b, now, pool)
  {
    hide Judge, Derived, ExtendsTip, Plausible, OrphanAdmitted;
  }

  lemma MoveAside(c: Crypto, cfg: Config, s: Standing, b: Block, now: nat, later: Clock, pool: Pool)
    requires |s.chain| > 0 && Shelved(c, cfg, s, b, now, pool)
    ensures Admits(c, cfg, s, b, now, Waits(pool))
    ensures NothingHeavier(s.(pool := pool)) ==> May(c, cfg, s, b, now, later, Waits(pool))
  {
    hide Shelved, NothingHeavier;
  }

  lemma MoveToFork(c: Crypto, cfg: Config, s: Standing, b: Block, now: nat, later: Clock, pool: Pool,
                   fork: seq<Block>, a: nat)
    requires |s.chain| > 0 && Shelved(c, cfg, s, b, now, pool) && Offered(s.(pool := pool), fork, a)
    ensures a < |s.chain|
    ensures Admits(c, cfg, s, b, now, Switches(pool, fork, a)) && Admits(c, cfg, s, b, now, DiesOnFork(pool, fork, a))
    ensures Heaviest(s.(pool := pool), fork, a) ==>
      if Dies(c, cfg, Branch(s.chain, a, fork), now, later) then
        May(c, cfg, s, b, now, later, DiesOnFork(pool, fork, a))
      else May(c, cfg, s, b, now, later, Switches(pool, fork, a))
  {
    hide Shelved, Heaviest, Dies, Heavier, IsTrace, Unreferenced;
  }

  // -------------------------------------------------------------------------
  // Consequences
  // -------------------------------------------------------------------------

  // The pruned window judges a block as the whole chain would.
  lemma JudgeOnWindow(c: Crypto, cfg: Config, chain: seq<Block>, v: View, b: Block, now: nat)
    requires Tracks(c, cfg, chain, v)
    ensures Judge(c, v, b, now) == Judge(c, FullView(c, cfg, chain), b, now)
  {
    hide ValidChain, Derived, Process, MedianTimePast, WellFormed, PreValid;
    WindowSuffices(c, v, chain, b);
  }

  lemma ReachStep(c: Crypto, cfg: Config, list: seq<Block>, n: nat, now: nat, later: Clock)
    requires 0 < n < |list|
    ensures var v := Judge(c, FullView(c, cfg, list[..n]), list[n], now + later(n));
      && v == JudgeAt(c, cfg, list, n, now, later)
      && (v.Extended? ==> Reach(c, cfg, list, n, now, later) == Reach(c, cfg, list, n + 1, now, later))
      && (!v.Extended? ==> Reach(c, cfg, list, n, now, later) == n)
  {
    hide Judge, Derived;
  }

  lemma ReachedMeans(c: Crypto, cfg: Config, list: seq<Block>, n: nat, now: nat, later: Clock)
    requires 0 < n < |list| && Reach(c, cfg, list, 1, now, later) == Reach(c, cfg, list, n, now, later)
    requires !JudgeAt(c, cfg, list, n, now, later).Extended?
    ensures Dies(c, cfg, list, now, later) <==> JudgeAt(c, cfg, list, n, now, later).Died?
    ensures Accepted(c, cfg, list, now, later) == list[..n]
  {
    hide JudgeAt;
  }

  lemma ReachEnds(c: Crypto, cfg: Config, list: seq<Block>, now: nat, later: Clock)
    requires |list| > 0 && Reach(c, cfg, list, 1, now, later) == Reach(c, cfg, list, |list|, now, later)
    ensures !Dies(c, cfg, list, now, later) && Accepted(c, cfg, list, now, later) == list[..|list|]
  {
    hide JudgeAt;
  }

  // -------------------------------------------------------------------------
  // The fork a move takes
  // -------------------------------------------------------------------------

  // A valid chain, and orphans filed under their own hashes within the pool's bound.
  ghost predicate WellPlaced(c: Crypto, cfg: Config, s: Standing) {
    Sound(c) && ValidChain(c, cfg, s.chain) && PoolHashed(c, s.pool) && |s.pool| <= MAX_ORPHAN_POOL_SIZE
  }

  lemma AdmittedStays(c: Crypto, pool: Pool, fin: Pool, b: Block)
    requires PoolHashed(c, pool) && |pool| <= MAX_ORPHAN_POOL_SIZE && Hashed(c, b) && OrphanAdmitted(pool, fin, b)
    ensures PoolHashed(c, fin) && |fin| <= MAX_ORPHAN_POOL_SIZE
  {
    var first, second :|
      LowestEvicted(pool, first) && HeightEvicted(first, second, b.index) && fin == second[b.hash := b];
    hide *;
    FewerLeft(pool, first);
    NoMoreLeft(first, second, b.index);
    InsertedStays(c, pool, second, b);
  }

  lemma InsertedStays(c: Crypto, pool: Pool, second: Pool, b: Block)
    requires PoolHashed(c, pool) && Hashed(c, b) && |second| < MAX_ORPHAN_POOL_SIZE
    requires forall h :: h in second ==> h in pool && second[h] == pool[h]
    ensures PoolHashed(c, second[b.hash := b]) && |second[b.hash := b]| <= MAX_ORPHAN_POOL_SIZE
  {
    hide Hashed;
    InsertedSize(second, b.hash, b);
  }

  lemma InsertedSize<K, V>(m: map<K, V>, k: K, v: V)
    ensures |m[k := v]| <= |m| + 1
  {
    assert m[k := v].Keys == m.Keys + {k};
  }

  lemma NoMoreLeft(first: Pool, second: Pool, n: u64)
    requires HeightEvicted(first, second, n)
    ensures |second| <= |first| && forall h :: h in second ==> h in first && second[h] == first[h]
  {
    hide AtHeight;
  }

  lemma FewerLeft(pool: Pool, first: Pool)
    requires |pool| <= MAX_ORPHAN_POOL_SIZE && LowestEvicted(pool, first)
    ensures |first| < MAX_ORPHAN_POOL_SIZE && forall h :: h in first ==> h in pool && first[h] == pool[h]
  {
  }

  // The fork is a short run of properly hashed and linked blocks on a canonical block.
  lemma ForkShape(c: Crypto, cfg: Config, s: Standing, b: Block, now: nat, later: Clock, m: Move)
    requires WellPlaced(c, cfg, s) && |s.chain| > 0 && May(c, cfg, s, b, now, later, m)
    requires m.Switches? || m.DiesOnFork?
    ensures m.a < |s.chain| && 0 < |m.fork| <= MAX_ORPHAN_POOL_SIZE && Linked(m.fork)
    ensures m.fork[0].previousHash == s.chain[m.a].hash && Heavier(s, m.fork, m.a)
    ensures forall k :: 0 <= k < |m.fork| ==> Hashed(c, m.fork[k])
  {
    hide Judge, Derived, ValidChain, Dies, Unreferenced, SatWork, SeenTime, OrphanAdmitted, Hashed, Expected;
    assert Shelved(c, cfg, s, b, now, m.pool);
    PlausibleIsHashed(c, cfg, s, b);
    AdmittedStays(c, s.pool, m.pool, b);
    TraceFits(c, m.pool, Last(m.fork).hash, m.fork);
  }

  lemma PlausibleIsHashed(c: Crypto, cfg: Config, s: Standing, b: Block)
    requires |s.chain| > 0 && Plausible(c, cfg, s, b)
    ensures Hashed(c, b)
  {
    hide Derived, SeenTime;
  }

  lemma BranchParts(chain: seq<Block>, a: nat, fork: seq<Block>)
    requires a < |chain|
    ensures var alt := Branch(chain, a, fork);
      && |alt| == a + 1 + |fork|
      && (forall i :: 0 <= i <= a ==> alt[i] == chain[i])
      && forall i :: 0 <= i < |fork| ==> alt[a + 1 + i] == fork[i]
  {
  }

  // The fork's tip occurs nowhere below it on the branch.
  lemma TipIsNew(c: Crypto, cfg: Config, chain: seq<Block>, a: nat, fork: seq<Block>, j: nat)
    requires Acyclic(c) && ValidChain(c, cfg, chain) && a < |chain| && 0 < |fork|
    requires Linked(fork) && fork[0].previousHash == chain[a].hash && forall k :: 0 <= k < |fork| ==> Hashed(c, fork[k])
    requires j < a + |fork|
    ensures Branch(chain, a, fork)[j] != Last(fork)
  {
    ValidIsLinked(c, cfg, chain);
    var alt := Branch(chain, a, fork);
    BranchParts(chain, a, fork);
    hide ValidChain, Hashed, Acyclic, Branch;
    BranchLinked(c, chain, a, fork);
    DepthsRise(c, alt, j, |alt| - 1);
    assert alt[a + 1 + (|fork| - 1)] == Last(fork);
  }

  lemma BranchLinked(c: Crypto, chain: seq<Block>, a: nat, fork: seq<Block>)
    requires a < |chain| && 0 < |fork| && Linked(chain) && forall k :: 0 < k < |chain| ==> Hashed(c, chain[k])
    requires Linked(fork) && fork[0].previousHash == chain[a].hash && forall k :: 0 <= k < |fork| ==> Hashed(c, fork[k])
    ensures Linked(Branch(chain, a, fork))
    ensures forall k :: 0 < k < |Branch(chain, a, fork)| ==> Hashed(c, Branch(chain, a, fork)[k])
  {
    hide Hashed;
    var alt := Branch(chain, a, fork);
    forall k | 0 < k < |alt| ensures Hashed(c, alt[k]) && alt[k].previousHash == alt[k - 1].hash {
      if k <= a {
        assert alt[k] == chain[k] && alt[k - 1] == chain[k - 1];
      } else {
        assert alt[k] == fork[k - a - 1];
        assert alt[k - 1] == if k == a + 1 then chain[a] else fork[k - a - 2];
      }
    }
  }

  // A replay that stops short has not reached the fork's tip.
  lemma ShortOfTip(c: Crypto, cfg: Config, s: Standing, b: Block, now: nat, later: Clock, m: Move, j: nat)
    requires WellPlaced(c, cfg, s) && |s.chain| > 0 && May(c, cfg, s, b, now, later, m) && m.Switches?
    requires m.a < |s.chain| && |m.fork| > 0
    requires var alt := Branch(s.chain, m.a, m.fork);
      !Adopts(c, cfg, alt, now, later) && j < |Accepted(c, cfg, alt, now, later)|
    ensures Accepted(c, cfg, Branch(s.chain, m.a, m.fork), now, later)[j] != Last(m.fork)
  {
    ForkShape(c, cfg, s, b, now, later, m);
    BranchParts(s.chain, m.a, m.fork);
    hide May, ValidChain, Reach, Hashed, Branch, Heavier;
    TipIsNew(c, cfg, s.chain, m.a, m.fork, j);
  }

  // With room in the supply, no block and no fork kills the node.
  lemma RoomKeepsAlive(c: Crypto, cfg: Config, s: Standing, b: Block, now: nat, later: Clock, m: Move)
    requires WellPlaced(c, cfg, s) && |s.chain| > 0 && HasRoom(cfg, s.chain) && May(c, cfg, s, b, now, later, m)
    ensures !m.DiesOnBlock? && !m.DiesOnFork?
  {
    if m.DiesOnBlock? {
      hide Admissible, Process, Derived, ValidChain, Supply;
      NeverAborts(c, cfg, s.chain, b);
    } else if m.DiesOnFork? {
      ForkShape(c, cfg, s, b, now, later, m);
      BranchParts(s.chain, m.a, m.fork);
      IndicesAreHeights(c, cfg, s.chain, 0);
      hide Shelved, Derived, ValidChain, Supply, Dies, Heaviest, Heavier, Offered, Branch;
      RoomyNeverDies(c, cfg, Branch(s.chain, m.a, m.fork), now, later);
    }
  }

  // A switch that adopts its whole fork.
  ghost predicate AdoptsFork(c: Crypto, cfg: Config, s: Standing, now: nat, later: Clock, m: Move) {
    m.Switches? && m.a < |s.chain| && Adopts(c, cfg, Branch(s.chain, m.a, m.fork), now, later)
  }

  // Every move leaves a valid chain behind. One that keeps the tables loses no work,
  // and a switch that adopts its whole fork gains some, longer or shorter.
  lemma MoveKeepsValid(c: Crypto, cfg: Config, s: Standing, b: Block, now: nat, later: Clock, m: Move)
    requires WellPlaced(c, cfg, s) && |s.chain| > 0
    requires May(c, cfg, s, b, now, later, m) && !m.DiesOnBlock? && !m.DiesOnFork?
    ensures ValidChain(c, cfg, Settled(c, cfg, s, b, now, later, m).chain)
    ensures AdoptsFork(c, cfg, s, now, later, m) ==> Work(Settled(c, cfg, s, b, now, later, m).chain) > Work(s.chain)
    ensures !m.Switches? || KeepsTables(c, cfg, s, now, later, m) ==>
      Work(Settled(c, cfg, s, b, now, later, m).chain) >= Work(s.chain)
  {
    if m.Extends? {
      hide *;
      ExtendingKeepsValid(c, cfg, s, b, now, later, m);
    } else if m.Switches? {
      hide Work, May, WellPlaced, ValidChain, Adopts, Branch, Settled;
      SwitchingKeepsValid(c, cfg, s, b, now, later, m);
    }
  }

  lemma ExtendingKeepsValid(c: Crypto, cfg: Config, s: Standing, b: Block, now: nat, later: Clock, m: Move)
    requires WellPlaced(c, cfg, s) && |s.chain| > 0 && May(c, cfg, s, b, now, later, m) && m.Extends?
    ensures ValidChain(c, cfg, Settled(c, cfg, s, b, now, later, m).chain)
    ensures Work(Settled(c, cfg, s, b, now, later, m).chain) >= Work(s.chain)
  {
    hide Work, ValidChain, Derived, Admissible, Process;
    ValidExtend(c, cfg, s.chain, b);
    WorkAppend(s.chain, [b]);
  }

  lemma SwitchingKeepsValid(c: Crypto, cfg: Config, s: Standing, b: Block, now: nat, later: Clock, m: Move)
    requires WellPlaced(c, cfg, s) && |s.chain| > 0 && May(c, cfg, s, b, now, later, m) && m.Switches?
    ensures ValidChain(c, cfg, Settled(c, cfg, s, b, now, later, m).chain)
    ensures m.a < |s.chain|
    ensures AdoptsFork(c, cfg, s, now, later, m) ==> Work(Settled(c, cfg, s, b, now, later, m).chain) > Work(s.chain)
  {
    hide Work, May, Derived, ValidChain, Heavier, Branch, Accepted, Adopts;
    ForkShape(c, cfg, s, b, now, later, m);
    BranchParts(s.chain, m.a, m.fork);
    IndicesAreHeights(c, cfg, s.chain, 0);
    var alt := Branch(s.chain, m.a, m.fork);
    AcceptedIsValid(c, cfg, alt, now, later);
    AcceptedWhole(c, cfg, alt, now, later);
    HeavierGains(s, m.fork, m.a);
  }

  // How the move made compares with the one called for: the same while storage
  // holds the canonical chain (`mirrored`), toward the branch the fork makes, and
  // never fatal as long as the supply has room.
  ghost predicate Chosen(c: Crypto, cfg: Config, s: Standing, b: Block, now: nat, later: Clock, m: Move,
                         target: seq<Block>, mirrored: bool)
    requires |s.chain| > 0
  {
    && Admits(c, cfg, s, b, now, m)
    && (m.DiesOnFork? ==> target != [] && Dies(c, cfg, target, now, later))
    && (mirrored ==>
          && May(c, cfg, s, b, now, later, m)
          && ((m.Switches? || m.DiesOnFork?) && m.a < |s.chain| ==> target == Branch(s.chain, m.a, m.fork))
          && (HasRoom(cfg, s.chain) ==> !m.DiesOnBlock? && !m.DiesOnFork?))
  }

  lemma ChosenIs(c: Crypto, cfg: Config, s: Standing, b: Block, now: nat, later: Clock, m: Move,
                 target: seq<Block>, mirrored: bool)
    requires WellPlaced(c, cfg, s) && |s.chain| > 0 && Admits(c, cfg, s, b, now, m)
    requires m.DiesOnFork? ==> target != [] && Dies(c, cfg, target, now, later)
    requires mirrored ==> May(c, cfg, s, b, now, later, m)
    requires mirrored && (m.Switches? || m.DiesOnFork?) && m.a < |s.chain| ==> target == Branch(s.chain, m.a, m.fork)
    ensures Chosen(c, cfg, s, b, now, later, m, target, mirrored)
  {
    hide May, Admits, WellPlaced, HasRoom, Branch, Dies;
    if mirrored && HasRoom(cfg, s.chain) {
      RoomKeepsAlive(c, cfg, s, b, now, later, m);
    }
  }

  lemma ChosenMeans(c: Crypto, cfg: Config, s: Standing, b: Block, now: nat, later: Clock, m: Move,
                    target: seq<Block>, mirrored: bool)
    requires WellPlaced(c, cfg, s) && |s.chain| > 0 && Chosen(c, cfg, s, b, now, later, m, target, mirrored)
    ensures m.Switches? ==> m.a < |s.chain| && |m.fork| > 0
    ensures mirrored ==> May(c, cfg, s, b, now, later, m)
    ensures mirrored && m.Switches? ==> target == Branch(s.chain, m.a, m.fork) && |target| > 0
    ensures mirrored && HasRoom(cfg, s.chain) ==> !m.DiesOnBlock? && !m.DiesOnFork?
  {
    hide May, Shelved, Judge, HasRoom, Unreferenced, Heavier, IsTrace;
  }

  // Where a move that began at `s` leads. Only under storage that does not hold the chain
  // can a switch end elsewhere than called for: where it began, or as far into `target` as
  // that is acceptable.
  ghost predicate LeadsTo(c: Crypto, cfg: Config, s: Standing, mirrored: bool, b: Block, now: nat, later: Clock,
                          m: Move,
                          target: seq<Block>, t: Standing)
  {
    if m.Switches? && !mirrored then
      t.chain == if target == [] then s.chain else Accepted(c, cfg, target, now, later)
    else t == Settled(c, cfg, s, b, now, later, m)
  }

  lemma ChosenAnyway(c: Crypto, cfg: Config, s: Standing, b: Block, now: nat, later: Clock, m: Move, target: seq<Block>,
                     mirrored: bool)
    requires |s.chain| > 0 && Chosen(c, cfg, s, b, now, later, m, target, mirrored)
    ensures Chosen(c, cfg, s, b, now, later, m, target, false)
  {
    hide Admits, May;
  }

  // A move adds at most as many blocks as the pool can hold, and never touches genesis.
  lemma MoveGrows(c: Crypto, cfg: Config, s: Standing, b: Block, now: nat, later: Clock, m: Move)
    requires WellPlaced(c, cfg, s) && |s.chain| > 0 && May(c, cfg, s, b, now, later, m)
    ensures var chain := Settled(c, cfg, s, b, now, later, m).chain;
      0 < |chain| <= |s.chain| + MAX_ORPHAN_POOL_SIZE && chain[0] == s.chain[0]
  {
    if m.Switches? {
      hide May, Dies, Derived, ValidChain, Reach, Heavier, Branch;
      ForkShape(c, cfg, s, b, now, later, m);
      BranchParts(s.chain, m.a, m.fork);
    } else {
      hide Admits, WellPlaced;
    }
  }

  lemma LeadsAnyway(c: Crypto, cfg: Config, s: Standing, b: Block, now: nat, later: Clock, m: Move, target: seq<Block>,
                    t: Standing)
    requires WellPlaced(c, cfg, s) && |s.chain| > 0 && Chosen(c, cfg, s, b, now, later, m, target, true)
    requires LeadsTo(c, cfg, s, true, b, now, later, m, target, t)
    ensures LeadsTo(c, cfg, s, false, b, now, later, m, target, t)
  {
    hide Chosen, WellPlaced, Branch, Accepted;
    ChosenMeans(c, cfg, s, b, now, later, m, target, true);
  }

  // The tables say where a switch under right storage ended: on part of the branch.
  lemma LedOntoBranch(c: Crypto, cfg: Config, s: Standing, b: Block, now: nat, later: Clock, m: Move,
                      target: seq<Block>,
                      t: Standing)
    requires WellPlaced(c, cfg, s) && |s.chain| > 0 && Chosen(c, cfg, s, b, now, later, m, target, true) && m.Switches?
    requires LeadsTo(c, cfg, s, true, b, now, later, m, target, t)
    ensures m.a < |s.chain| && IsPrefix(t.chain, Branch(s.chain, m.a, m.fork))
  {
    hide Chosen, WellPlaced, Branch, Reach;
    ChosenMeans(c, cfg, s, b, now, later, m, target, true);
  }

  lemma LedToTip(c: Crypto, cfg: Config, s: Standing, mirrored: bool, b: Block, now: nat, later: Clock, m: Move,
                 target: seq<Block>, t: Standing)
    requires LeadsTo(c, cfg, s, mirrored, b, now, later, m, target, t) && m.Extends?
    ensures t.chain == s.chain + [b]
  {
  }
}
