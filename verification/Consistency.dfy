/** The invariant tying the node's in-memory fields to the canonical chain, and why each step keeps it. */
module Consistency {
  import opened Prelude
  import opened Types
  import opened Consensus
  import opened Conservation
  import opened Replay
  import opened ForkChoice
  import opened ByteOrder

  // The window and the derived state are those of `chain`.
  ghost predicate Tracks(c: Crypto, cfg: Config, chain: seq<Block>, v: View) {
    && ValidChain(c, cfg, chain)
    && Caches(v, chain)
    && |v.blocks| > 0
    && v.ledger == Derived(c, cfg, chain)
  }

  // The hash index names exactly the blocks of the window.
  ghost predicate Indexes(hashes: map<Hash, nat>, v: View) {
    && (forall i :: 0 <= i < |v.blocks| ==> v.blocks[i].hash in hashes && hashes[v.blocks[i].hash] == v.offset + i)
    && (forall h :: h in hashes ==> Names(hashes, v, h))
  }

  ghost predicate Names(hashes: map<Hash, nat>, v: View, h: Hash)
    requires h in hashes
  {
    v.offset <= hashes[h] < v.Height() && v.blocks[hashes[h] - v.offset].hash == h
  }

  function AtHeight(pool: Pool, n: u64): set<Hash> {
    set h | h in pool && pool[h].index == n
  }

  ghost predicate PoolBounded(pool: Pool) {
    && |pool| <= MAX_ORPHAN_POOL_SIZE
    && forall n :: |AtHeight(pool, n)| <= MAX_ORPHANS_PER_HEIGHT
  }

  // Payouts waiting to be persisted are the ones their blocks settled.
  ghost predicate Recorded(c: Crypto, cfg: Config, chain: seq<Block>, paid: map<nat, seq<Payout>>) {
    forall n :: n in paid ==> 0 < n < |chain| && paid[n] == PayoutsAt(c, cfg, chain, n)
  }

  ghost predicate Consistent(c: Crypto, cfg: Config, chain: seq<Block>, v: View, hashes: map<Hash, nat>,
                             pool: Pool, paid: map<nat, seq<Payout>>)
  {
    && Sound(c)
    && Tracks(c, cfg, chain, v)
    && Indexes(hashes, v)
    && PoolHashed(c, pool)
    && PoolBounded(pool)
    && Recorded(c, cfg, chain, paid)
  }

  // -------------------------------------------------------------------------
  // Start
  // -------------------------------------------------------------------------

  lemma GenesisTracks(c: Crypto, cfg: Config, genesis: Block)
    requires genesis.index == 0
    ensures Tracks(c, cfg, [genesis], View([genesis], 0, GenesisLedger(cfg, genesis)))
    ensures Indexes(map[genesis.hash := 0], View([genesis], 0, GenesisLedger(cfg, genesis)))
    ensures Recorded(c, cfg, [genesis], map[])
  {
  }

  // Seeding the pot of a chain that is genesis alone.
  lemma Reseeded(c: Crypto, cfg: Config, chain: seq<Block>, v: View, hashes: map<Hash, nat>, pool: Pool,
                 paid: map<nat, seq<Payout>>, amount: u64)
    requires Consistent(c, cfg, chain, v, hashes, pool, paid) && |chain| == 1
    ensures Consistent(c, cfg.(pot := amount), chain, v.(ledger := v.ledger.(pot := amount)), hashes, pool, paid)
  {
    hide Sound, PoolHashed, PoolBounded;
  }

  lemma EmptyPoolFits(c: Crypto)
    ensures PoolHashed(c, map[]) && PoolBounded(map[])
  {
    forall n ensures |AtHeight(map[], n)| <= MAX_ORPHANS_PER_HEIGHT {
      assert AtHeight(map[], n) == {};
    }
  }

  // -------------------------------------------------------------------------
  // Append
  // -------------------------------------------------------------------------

  function Note(paid: map<nat, seq<Payout>>, n: nat, ps: seq<Payout>): map<nat, seq<Payout>> {
    if ps == [] then paid else paid[n := ps]
  }

  function Appended(v: View, b: Block, l: Ledger): View {
    View(v.blocks + [b], v.offset, l)
  }

  lemma AcceptedOnFull(c: Crypto, cfg: Config, chain: seq<Block>, v: View, b: Block)
    requires Tracks(c, cfg, chain, v) && Accepts(c, v, b)
    ensures Accepts(c, FullView(c, cfg, chain), b) && b.index == |chain|
    ensures Process(c, FullView(c, cfg, chain), b) == Process(c, v, b)
  {
    hide Process, WellFormed, PreValid, MedianTimePast, ValidChain;
    WindowSuffices(c, v, chain, b);
  }

  lemma AppendTracks(c: Crypto, cfg: Config, chain: seq<Block>, v: View, b: Block)
    requires Tracks(c, cfg, chain, v) && Accepts(c, v, b)
    ensures Tracks(c, cfg, chain + [b], Appended(v, b, Process(c, v, b).ledger))
    ensures PayoutsAt(c, cfg, chain + [b], |chain|) == Process(c, v, b).payouts
  {
    hide Process, Admissible, ValidChain, Derived;
    AcceptedOnFull(c, cfg, chain, v, b);
    ValidExtend(c, cfg, chain, b);
    assert (chain + [b])[..|chain|] == chain;
  }

  lemma PayoutsOfPrefix(c: Crypto, cfg: Config, chain: seq<Block>, b: Block, n: nat)
    requires 0 < n < |chain|
    ensures PayoutsAt(c, cfg, chain + [b], n) == PayoutsAt(c, cfg, chain, n)
  {
    hide Process, Derived;
    assert (chain + [b])[..n] == chain[..n];
  }

  lemma AcceptedIndex(c: Crypto, cfg: Config, chain: seq<Block>, v: View, b: Block)
    requires Tracks(c, cfg, chain, v) && Accepts(c, v, b)
    ensures Process(c, v, b).Yields? && |chain| > 0 && b.index == |chain| == v.Height()
  {
    hide Process, WellFormed, PreValid, MedianTimePast, ValidChain, Derived;
    assert |chain| > 0;
  }

  lemma AppendRecorded(c: Crypto, cfg: Config, chain: seq<Block>, v: View, b: Block, paid: map<nat, seq<Payout>>)
    requires Tracks(c, cfg, chain, v) && Accepts(c, v, b) && Recorded(c, cfg, chain, paid)
    ensures Recorded(c, cfg, chain + [b], Note(paid, |chain|, Process(c, v, b).payouts))
  {
    hide Tracks, Accepts, Process, PayoutsAt;
    AcceptedIndex(c, cfg, chain, v, b);
    AppendTracks(c, cfg, chain, v, b);
    forall n | n in paid ensures PayoutsAt(c, cfg, chain + [b], n) == paid[n] {
      PayoutsOfPrefix(c, cfg, chain, b, n);
    }
  }

  lemma HashIsNew(c: Crypto, cfg: Config, chain: seq<Block>, v: View, b: Block, i: nat)
    requires Sound(c) && Tracks(c, cfg, chain, v) && Accepts(c, v, b) && i < |v.blocks|
    ensures v.blocks[i].hash != b.hash
  {
    hide Process, Admissible, ValidChain, Derived, Sound;
    AppendTracks(c, cfg, chain, v, b);
    SoundIsAcyclic(c);
    if v.blocks[i].hash == b.hash {
      assert (chain + [b])[v.offset + i].hash == (chain + [b])[|chain|].hash;
      HashesDiffer(c, cfg, chain + [b], v.offset + i, |chain|);
    }
  }

  lemma IndexesAppend(hashes: map<Hash, nat>, v: View, b: Block, l: Ledger)
    requires Indexes(hashes, v) && b.index == v.Height()
    requires forall i :: 0 <= i < |v.blocks| ==> v.blocks[i].hash != b.hash
    ensures Indexes(hashes[b.hash := b.index], Appended(v, b, l))
  {
  }

  lemma SoundIsAcyclic(c: Crypto)
    requires Sound(c)
    ensures Acyclic(c)
  {
  }

  // An accepted block keeps the invariant, with the canonical chain one block longer.
  lemma AppendConsistent(c: Crypto, cfg: Config, chain: seq<Block>, v: View, hashes: map<Hash, nat>,
                         pool: Pool, paid: map<nat, seq<Payout>>, b: Block)
    requires Consistent(c, cfg, chain, v, hashes, pool, paid) && Accepts(c, v, b)
    ensures b.index == |chain| == v.Height()
    ensures Consistent(c, cfg, chain + [b], Appended(v, b, Process(c, v, b).ledger), hashes[b.hash := b.index],
                       pool, Note(paid, b.index, Process(c, v, b).payouts))
  {
    hide Tracks, Indexes, Recorded, Process, Accepts, PoolHashed, PoolBounded, Sound;
    AcceptedIndex(c, cfg, chain, v, b);
    AppendTracks(c, cfg, chain, v, b);
    AppendRecorded(c, cfg, chain, v, b, paid);
    forall i | 0 <= i < |v.blocks| ensures v.blocks[i].hash != b.hash {
      HashIsNew(c, cfg, chain, v, b, i);
    }
    IndexesAppend(hashes, v, b, Process(c, v, b).ledger);
  }

  lemma TracksHeight(c: Crypto, cfg: Config, chain: seq<Block>, v: View)
    requires Tracks(c, cfg, chain, v)
    ensures v.Height() == |chain|
    ensures forall i :: 0 <= i < |v.blocks| ==> v.blocks[i] == chain[v.offset + i] && v.blocks[i].index == v.offset + i
  {
    hide ValidChain, Derived;
    forall i | 0 <= i < |v.blocks| ensures v.blocks[i] == chain[v.offset + i] && v.blocks[i].index == v.offset + i {
      IndicesAreHeights(c, cfg, chain, v.offset + i);
    }
  }

  // Every block above genesis still has its payouts waiting.
  ghost predicate PendingAll(c: Crypto, cfg: Config, chain: seq<Block>, paid: map<nat, seq<Payout>>) {
    forall n :: 0 < n < |chain| ==> Lookup(paid, n) == PayoutsAt(c, cfg, chain, n)
  }

  lemma NothingPending(c: Crypto, cfg: Config, chain: seq<Block>, paid: map<nat, seq<Payout>>)
    requires |chain| <= 1
    ensures PendingAll(c, cfg, chain, paid)
  {
  }

  lemma PendingAppend(c: Crypto, cfg: Config, chain: seq<Block>, v: View, b: Block, paid: map<nat, seq<Payout>>)
    requires Tracks(c, cfg, chain, v) && Accepts(c, v, b)
    requires Recorded(c, cfg, chain, paid) && PendingAll(c, cfg, chain, paid)
    ensures b.index == |chain| && PendingAll(c, cfg, chain + [b], Note(paid, b.index, Process(c, v, b).payouts))
  {
    hide Tracks, Accepts, Process, PayoutsAt;
    AcceptedIndex(c, cfg, chain, v, b);
    AppendTracks(c, cfg, chain, v, b);
    var later := Note(paid, b.index, Process(c, v, b).payouts);
    forall n | 0 < n < |chain| + 1 ensures Lookup(later, n) == PayoutsAt(c, cfg, chain + [b], n) {
      if n < |chain| {
        PayoutsOfPrefix(c, cfg, chain, b, n);
      }
    }
  }

  lemma NoteTells(c: Crypto, cfg: Config, chain: seq<Block>, v: View, b: Block, paid: map<nat, seq<Payout>>)
    requires Tracks(c, cfg, chain, v) && Accepts(c, v, b) && Recorded(c, cfg, chain, paid)
    ensures |chain| > 0
    ensures Lookup(Note(paid, b.index, Process(c, v, b).payouts), |chain|) == PayoutsAt(c, cfg, chain + [b], |chain|)
  {
    hide Tracks, Accepts, Process, PayoutsAt;
    AcceptedIndex(c, cfg, chain, v, b);
    AppendTracks(c, cfg, chain, v, b);
  }

  // -------------------------------------------------------------------------
  // Prune
  // -------------------------------------------------------------------------

  function Pruned(v: View, drop: nat): View
    requires drop <= |v.blocks|
  {
    View(v.blocks[drop..], v.offset + drop, v.ledger)
  }

  lemma PruneTracks(c: Crypto, cfg: Config, chain: seq<Block>, v: View, drop: nat)
    requires Tracks(c, cfg, chain, v) && drop + REORG_WINDOW <= |v.blocks|
    ensures Tracks(c, cfg, chain, Pruned(v, drop))
  {
    hide ValidChain, Derived;
    assert chain[v.offset..][drop..] == chain[v.offset + drop..];
  }

  // Dropping the hashes of the oldest blocks leaves exactly the index of the
  // shorter window: an index entry remembers one height, so no hash is shared.
  lemma PruneIndexes(hashes: map<Hash, nat>, v: View, drop: nat)
    requires Indexes(hashes, v) && drop <= |v.blocks|
    ensures Indexes(hashes - (set i | 0 <= i < drop :: v.blocks[i].hash), Pruned(v, drop))
  {
    var gone := set i | 0 <= i < drop :: v.blocks[i].hash;
    var left, w := hashes - gone, Pruned(v, drop);
    assert |w.blocks| == |v.blocks| - drop && forall i :: 0 <= i < |w.blocks| ==> w.blocks[i] == v.blocks[drop + i];
    hide Names;
    forall i | 0 <= i < |w.blocks| ensures w.blocks[i].hash in left && left[w.blocks[i].hash] == w.offset + i {
      KeptHash(hashes, v, drop, drop + i);
    }
    forall h | h in left ensures Names(left, w, h) {
      DroppedHash(hashes, v, drop, h);
      NamesIntro(left, w, h);
    }
  }

  lemma NamesIntro(hashes: map<Hash, nat>, v: View, h: Hash)
    requires h in hashes && v.offset <= hashes[h] < v.Height() && v.blocks[hashes[h] - v.offset].hash == h
    ensures Names(hashes, v, h)
  {
  }

  lemma KeptHash(hashes: map<Hash, nat>, v: View, drop: nat, j: nat)
    requires Indexes(hashes, v) && drop <= j < |v.blocks|
    ensures v.blocks[j].hash !in (set i | 0 <= i < drop :: v.blocks[i].hash)
    ensures v.blocks[j].hash in hashes && hashes[v.blocks[j].hash] == v.offset + j
  {
    hide Names;
    forall i | 0 <= i < drop ensures v.blocks[i].hash != v.blocks[j].hash {
      assert hashes[v.blocks[i].hash] == v.offset + i;
    }
  }

  lemma DroppedHash(hashes: map<Hash, nat>, v: View, drop: nat, h: Hash)
    requires Indexes(hashes, v) && drop <= |v.blocks| && h in hashes
    requires h !in (set i | 0 <= i < drop :: v.blocks[i].hash)
    ensures v.offset + drop <= hashes[h] < v.Height() && v.blocks[hashes[h] - v.offset].hash == h
  {
    assert Names(hashes, v, h);
    var gone := set i | 0 <= i < drop :: v.blocks[i].hash;
    assert forall i :: 0 <= i < drop ==> v.blocks[i].hash in gone;
  }

  function HashesOf(bs: seq<Block>): set<Hash> {
    set i | 0 <= i < |bs| :: bs[i].hash
  }

  lemma PruneConsistent(c: Crypto, cfg: Config, chain: seq<Block>, v: View, hashes: map<Hash, nat>,
                        pool: Pool, paid: map<nat, seq<Payout>>, drop: nat)
    requires Consistent(c, cfg, chain, v, hashes, pool, paid) && drop + REORG_WINDOW <= |v.blocks|
    ensures Consistent(c, cfg, chain, Pruned(v, drop), hashes - HashesOf(v.blocks[..drop]), pool,
                       map n | n in paid && n >= v.offset + drop :: paid[n])
  {
    hide Sound, PoolHashed, PoolBounded, Tracks, Indexes, PayoutsAt;
    PruneTracks(c, cfg, chain, v, drop);
    PruneIndexes(hashes, v, drop);
    DroppedHashes(v.blocks, drop);
  }

  lemma DroppedHashes(bs: seq<Block>, drop: nat)
    requires drop <= |bs|
    ensures HashesOf(bs[..drop]) == set i | 0 <= i < drop :: bs[i].hash
  {
    assert forall i :: 0 <= i < drop ==> bs[..drop][i] == bs[i];
  }

  // -------------------------------------------------------------------------
  // Pool
  // -------------------------------------------------------------------------

  ghost predicate SubPool(small: Pool, big: Pool) {
    forall h :: h in small ==> h in big && small[h] == big[h]
  }

  lemma RemoveKeepsBounds(c: Crypto, pool: Pool, gone: Hash)
    requires PoolHashed(c, pool) && PoolBounded(pool)
    ensures PoolHashed(c, pool - {gone}) && PoolBounded(pool - {gone})
  {
    forall n ensures |AtHeight(pool - {gone}, n)| <= MAX_ORPHANS_PER_HEIGHT {
      assert AtHeight(pool - {gone}, n) == AtHeight(pool, n) - {gone};
      assert |AtHeight(pool, n)| <= MAX_ORPHANS_PER_HEIGHT;
    }
  }

  lemma InsertAtHeight(pool: Pool, b: Block, n: u64)
    ensures var here := AtHeight(pool, n);
      AtHeight(pool[b.hash := b], n) == if n == b.index then here + {b.hash} else here - {b.hash}
  {
  }

  // With a free slot in the pool and at its height, an orphan can be added.
  lemma InsertKeepsBounds(c: Crypto, pool: Pool, b: Block)
    requires PoolHashed(c, pool) && PoolBounded(pool) && Hashed(c, b)
    requires |pool| < MAX_ORPHAN_POOL_SIZE && |AtHeight(pool, b.index)| < MAX_ORPHANS_PER_HEIGHT
    ensures PoolHashed(c, pool[b.hash := b]) && PoolBounded(pool[b.hash := b])
  {
    hide AtHeight;
    var more := pool[b.hash := b];
    assert |more| <= |pool| + 1;
    forall n: u64 ensures |AtHeight(more, n)| <= MAX_ORPHANS_PER_HEIGHT {
      InsertAtHeight(pool, b, n);
      assert |AtHeight(pool, n)| <= MAX_ORPHANS_PER_HEIGHT;
    }
  }

  // A full pool loses an orphan of the lowest height.
  ghost predicate LowestEvicted(pool: Pool, rest: Pool) {
    if |pool| < MAX_ORPHAN_POOL_SIZE then rest == pool
    else exists h :: h in pool && rest == pool - {h} && forall g :: g in pool ==> pool[h].index <= pool[g].index
  }

  // A full height loses its orphan with the smallest hash.
  ghost predicate HeightEvicted(pool: Pool, rest: Pool, n: u64) {
    if |AtHeight(pool, n)| < MAX_ORPHANS_PER_HEIGHT then rest == pool
    else
      exists h ::
        h in AtHeight(pool, n) && rest == pool - {h} && forall g :: g in AtHeight(pool, n) && g != h ==> Less(h, g)
  }

  ghost predicate OrphanAdmitted(pool: Pool, fin: Pool, b: Block) {
    exists first, second ::
      LowestEvicted(pool, first) && HeightEvicted(first, second, b.index) && fin == second[b.hash := b]
  }

  lemma OrphanAdmittedIntro(pool: Pool, first: Pool, second: Pool, b: Block)
    requires LowestEvicted(pool, first) && HeightEvicted(first, second, b.index)
    ensures OrphanAdmitted(pool, second[b.hash := b], b)
  {
    hide LowestEvicted, HeightEvicted;
  }

  // An orphan that leaves a pool of thirty is one that no other is lower than.
  ghost predicate Crowded(pool: Pool, h: Hash)
    requires h in pool
  {
    |pool| >= 30 && forall g :: g in pool ==> pool[h].index <= pool[g].index
  }

  // One that leaves for a third at its height has the smallest hash of those left there.
  ghost predicate Outranked(pool: Pool, fin: Pool, b: Block, h: Hash)
    requires h in pool
  {
    pool[h].index == b.index && forall g :: g in fin && g != b.hash && fin[g].index == b.index ==> Less(h, g)
  }

  lemma FirstEviction(pool: Pool, first: Pool)
    requires LowestEvicted(pool, first)
    ensures SubPool(first, pool) && |pool.Keys - first.Keys| <= 1 && (|pool| < 30 ==> first == pool)
    ensures forall h :: h in pool && h !in first ==> Crowded(pool, h)
  {
    if |pool| >= 30 {
      var h :| h in pool && first == pool - {h} && forall g :: g in pool ==> pool[h].index <= pool[g].index;
      assert pool.Keys - first.Keys == {h};
    } else {
      assert pool.Keys - first.Keys == {};
    }
  }

  lemma SecondEviction(first: Pool, second: Pool, b: Block)
    requires HeightEvicted(first, second, b.index)
    ensures SubPool(second, first) && |first.Keys - second.Keys| <= 1
    ensures |AtHeight(first, b.index)| < 3 ==> second == first
    ensures forall h :: h in first && h !in second ==> Outranked(first, second[b.hash := b], b, h)
  {
    if |AtHeight(first, b.index)| >= 3 {
      var h :| h in AtHeight(first, b.index) && second == first - {h} &&
        forall g :: g in AtHeight(first, b.index) && g != h ==> Less(h, g);
      SmallestLeaves(first, b, h);
      hide *;
      OneLeaves(first, h);
    } else {
      hide *;
      NoneLeaves(first);
    }
  }

  lemma OneLeaves(pool: Pool, h: Hash)
    ensures SubPool(pool - {h}, pool) && |pool.Keys - (pool - {h}).Keys| <= 1
    ensures forall g :: g in pool && g !in pool - {h} ==> g == h
  {
    assert pool.Keys - (pool - {h}).Keys == if h in pool then {h} else {};
  }

  lemma NoneLeaves(pool: Pool)
    ensures SubPool(pool, pool) && |pool.Keys - pool.Keys| <= 1
  {
    assert pool.Keys - pool.Keys == {};
  }

  lemma SmallestLeaves(first: Pool, b: Block, h: Hash)
    requires h in AtHeight(first, b.index)
    requires forall g :: g in AtHeight(first, b.index) && g != h ==> Less(h, g)
    ensures h in first && Outranked(first, (first - {h})[b.hash := b], b, h)
  {
    hide Less;
    var fin := (first - {h})[b.hash := b];
    forall g | g in fin && g != b.hash && fin[g].index == b.index ensures Less(h, g) {
      assert g in AtHeight(first, b.index) && g != h;
    }
  }

  // The orphan enters. A pool of thirty gives up one of its lowest; three orphans at
  // the newcomer's height give up one more, the one with the smallest hash. Nothing
  // else leaves.
  lemma AdmissionEvicts(pool: Pool, fin: Pool, b: Block)
    requires OrphanAdmitted(pool, fin, b)
    ensures b.hash in fin && fin[b.hash] == b
    ensures forall h :: h in fin && h != b.hash ==> h in pool && fin[h] == pool[h]
    ensures forall h :: h in pool && h != b.hash && h !in fin ==> Crowded(pool, h) || Outranked(pool, fin, b, h)
    ensures |pool| < 30 && |AtHeight(pool, b.index)| < 3 ==> fin == pool[b.hash := b]
    ensures |pool.Keys - fin.Keys| <= 2
  {
    var first, second :|
      LowestEvicted(pool, first) && HeightEvicted(first, second, b.index) && fin == second[b.hash := b];
    hide LowestEvicted, HeightEvicted, AtHeight, Less;
    FirstEviction(pool, first);
    SecondEviction(first, second, b);
    var gone := (pool.Keys - first.Keys) + (first.Keys - second.Keys);
    assert pool.Keys - fin.Keys <= gone;
    FewerGone(pool.Keys - fin.Keys, gone);
    forall h | h in pool && h != b.hash && h !in fin ensures Crowded(pool, h) || Outranked(pool, fin, b, h) {
      assert h !in first || Outranked(first, fin, b, h);
    }
  }

  lemma FewerGone<T>(x: set<T>, y: set<T>)
    requires x <= y
    ensures |x| <= |y|
  {
    assert y == x + (y - x);
  }

  // Two evictions, then the new orphan.
  lemma AdmissionKeepsBounds(c: Crypto, pool: Pool, first: Pool, second: Pool, b: Block)
    requires SubPool(first, pool) && SubPool(second, first) && Hashed(c, b)
    requires PoolHashed(c, second) && PoolBounded(second)
    requires |second| < MAX_ORPHAN_POOL_SIZE && |AtHeight(second, b.index)| < MAX_ORPHANS_PER_HEIGHT
    ensures PoolHashed(c, second[b.hash := b]) && PoolBounded(second[b.hash := b])
    ensures forall h :: h in second[b.hash := b] && h != b.hash ==> h in pool && second[b.hash := b][h] == pool[h]
  {
    hide PoolHashed, PoolBounded, Hashed, AtHeight;
    InsertKeepsBounds(c, second, b);
  }

  lemma OtherPool(c: Crypto, cfg: Config, chain: seq<Block>, v: View, hashes: map<Hash, nat>,
                  pool: Pool, paid: map<nat, seq<Payout>>, other: Pool)
    requires Consistent(c, cfg, chain, v, hashes, pool, paid) && PoolHashed(c, other) && PoolBounded(other)
    ensures Consistent(c, cfg, chain, v, hashes, other, paid)
  {
    hide Tracks, Indexes, PoolHashed, PoolBounded, Recorded, Sound;
  }
}
