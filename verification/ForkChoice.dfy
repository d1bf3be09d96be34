/** Proof of work read off block hashes, and what selecting the heavier fork guarantees. */
module ForkChoice {
  import opened Prelude
  import opened ByteOrder
  import opened Types
  import opened Consensus
  import opened Replay

  // -------------------------------------------------------------------------
  // Work of one block
  // -------------------------------------------------------------------------

  // u8::leading_zeros
  function ByteZeros(b: byte): nat {
    if b >= 128 then 0 else if b >= 64 then 1 else if b >= 32 then 2 else if b >= 16 then 3
    else if b >= 8 then 4 else if b >= 4 then 5 else if b >= 2 then 6 else if b >= 1 then 7 else 8
  }

  function LeadingZeros(h: Hash): nat {
    if h == [] then 0 else if h[0] == 0 then 8 + LeadingZeros(h[1..]) else ByteZeros(h[0])
  }

  function WorkOf(h: Hash): (w: nat)
    ensures w > 0
  {
    Shl128(LeadingZeros(h))
  }

  lemma ByteZerosMeaning(b: byte)
    requires b > 0
    ensures ByteZeros(b) < 8 && Pow2(7 - ByteZeros(b)) <= b < 2 * Pow2(7 - ByteZeros(b))
  {
    assert Pow2(0) == 1 && Pow2(1) == 2 && Pow2(2) == 4 && Pow2(3) == 8;
    assert Pow2(4) == 16 && Pow2(5) == 32;
    assert Pow2(6) == 64 && Pow2(7) == 128;
  }

  // The count is the position of the top set bit: read as a big-endian number,
  // the hash is below 2^(bits - count) and, unless it is zero, at least half of that.
  lemma {:induction false} LeadingZerosMeaning(h: Hash)
    ensures var z := LeadingZeros(h);
      && z <= 8 * |h|
      && BigEndian(h) < Pow2(8 * |h| - z)
      && (z < 8 * |h| ==> BigEndian(h) >= Pow2(8 * |h| - z - 1))
  {
    if h != [] {
      if h[0] == 0 {
        BigEndianSplit(h);
        LeadingZerosMeaning(h[1..]);
      } else {
        hide BigEndian, LeadingZeros, Pow2;
        TopByteMeaning(h);
      }
    }
  }

  lemma TopByteMeaning(h: Hash)
    requires |h| > 0 && h[0] > 0
    ensures LeadingZeros(h) == ByteZeros(h[0]) < 8
    ensures var z := ByteZeros(h[0]); Pow2(8 * |h| - z - 1) <= BigEndian(h) < Pow2(8 * |h| - z)
  {
    hide BigEndian, Pow2, Power256, ByteZeros;
    var rest, z := h[1..], ByteZeros(h[0]);
    BigEndianSplit(h);
    BigEndianBound(rest);
    Power256IsPow2(|rest|);
    ByteZerosMeaning(h[0]);
    Pow2Add(7 - z, 8 * |rest|);
    Pow2Next(7 - z + 8 * |rest|);
    TopByte(Pow2(7 - z), Pow2(8 * |rest|), h[0], BigEndian(rest));
  }

  lemma Pow2Next(n: nat)
    ensures Pow2(n + 1) == 2 * Pow2(n)
  {
  }

  lemma TopByte(p: nat, q: nat, top: nat, rest: nat)
    requires p <= top < 2 * p && rest < q
    ensures p * q <= top * q + rest < 2 * (p * q)
  {
    MulGap(top, 2 * p, q);
    assert (2 * p) * q == 2 * (p * q);
    if p < top {
      MulGap(p, top, q);
    }
  }

  // -------------------------------------------------------------------------
  // Work of a chain segment
  // -------------------------------------------------------------------------

  function Work(chain: seq<Block>): nat {
    if chain == [] then 0 else Work(Front(chain)) + WorkOf(Last(chain).hash)
  }

  // The same sum as the node folds it, in a u128.
  function SatWork(chain: seq<Block>): nat {
    if chain == [] then 0 else SatAdd128(SatWork(Front(chain)), WorkOf(Last(chain).hash))
  }

  // What a block counts for: the power of two by which its hash, read as a number, can
  // be doubled within 256 bits. Below 2^128 it is the most a u128 holds.
  lemma WorkMeaning(b: Block)
    requires |b.hash| == 32
    ensures BigEndian(b.hash) < Pow2(128) ==> Work([b]) == 0xFFFF_FFFF_FFFF_FFFF_FFFF_FFFF_FFFF_FFFF
    ensures BigEndian(b.hash) >= Pow2(128) ==>
      && (exists z :: Work([b]) == Pow2(z))
      && Work([b]) * BigEndian(b.hash) < Pow2(256) <= 2 * Work([b]) * BigEndian(b.hash)
  {
    hide BigEndian, LeadingZeros, Pow2;
    var z := LeadingZeros(b.hash);
    LeadingZerosMeaning(b.hash);
    OneBlockWork(b);
    if z < 128 {
      Pow2Climbs(128, 255 - z);
      Pow2Add(z, 256 - z);
      Pow2Add(z, 255 - z);
      Pow2Add(1, 255);
      Doubling(Pow2(z), BigEndian(b.hash), Pow2(256 - z), Pow2(255 - z));
    } else {
      Pow2Climbs(256 - z, 128);
    }
  }

  lemma OneBlockWork(b: Block)
    ensures Work([b]) == if LeadingZeros(b.hash) >= 128 then U128_MAX else Pow2(LeadingZeros(b.hash))
    ensures Pow2(1) == 2
  {
    assert Front([b]) == [] && Last([b]) == b;
    hide LeadingZeros;
  }

  lemma {:induction false} Pow2Climbs(m: nat, n: nat)
    requires m <= n
    ensures Pow2(m) <= Pow2(n)
  {
    if m < n {
      Pow2Climbs(m, n - 1);
    }
  }

  lemma Doubling(w: nat, x: nat, high: nat, low: nat)
    requires low <= x < high && w > 0
    ensures w * low <= w * x < w * high
  {
  }

  lemma {:induction false} SatWorkIsCapped(chain: seq<Block>)
    ensures SatWork(chain) == Min(Work(chain), U128_MAX)
  {
    if chain != [] {
      SatWorkIsCapped(Front(chain));
    }
  }

  lemma {:induction false} WorkAppend(s: seq<Block>, t: seq<Block>)
    ensures Work(s + t) == Work(s) + Work(t)
  {
    if t == [] {
      assert s + t == s;
    } else {
      WorkAppend(s, Front(t));
      assert Front(s + t) == s + Front(t);
    }
  }

  // A fork that compares as heavier after saturation really is heavier.
  lemma SaturationIsSafe(fork: seq<Block>, before: seq<Block>, window: seq<Block>)
    requires SatWork(fork) > SatAdd128(SatWork(before), SatWork(window))
    ensures Work(fork) > Work(before + window)
  {
    SatWorkIsCapped(fork);
    SatWorkIsCapped(before);
    SatWorkIsCapped(window);
    WorkAppend(before, window);
  }

  lemma SpliceGains(chain: seq<Block>, a: nat, fork: seq<Block>)
    requires a < |chain| && Work(fork) > Work(chain[a + 1..])
    ensures Work(chain[..a + 1] + fork) > Work(chain)
  {
    hide *;
    var below, above := chain[..a + 1], chain[a + 1..];
    TakeDrop(chain, a + 1);
    WorkAppend(below, fork);
    WorkAppend(below, above);
  }

  // The comparison the node makes, for an ancestor inside the window...
  lemma WindowComparison(chain: seq<Block>, offset: nat, fork: seq<Block>, a: nat)
    requires offset <= a < |chain| && SatWork(fork) > SatWork(chain[offset..][a + 1 - offset..])
    ensures Work(fork) > Work(chain[a + 1..])
  {
    hide Work, SatWork;
    DropDrop(chain, offset, a + 1 - offset);
    SatWorkIsCapped(fork);
    SatWorkIsCapped(chain[a + 1..]);
  }

  // ...and for one before it, where the work is added up in two parts.
  lemma DeepComparison(chain: seq<Block>, offset: nat, fork: seq<Block>, a: nat)
    requires a < offset <= |chain|
    requires SatWork(fork) > SatAdd128(SatWork(chain[a + 1..offset]), SatWork(chain[offset..]))
    ensures Work(fork) > Work(chain[a + 1..])
  {
    hide Work, SatWork;
    SaturationIsSafe(fork, chain[a + 1..offset], chain[offset..]);
    Rejoin(chain, a + 1, offset);
  }

  // -------------------------------------------------------------------------
  // Links
  // -------------------------------------------------------------------------

  ghost predicate Hashed(c: Crypto, b: Block) {
    b.hash == c.headerHash(b.HeaderOf())
  }

  // Consecutive blocks refer to each other by hash.
  ghost predicate Linked(chain: seq<Block>) {
    forall i :: 0 < i < |chain| ==> chain[i].previousHash == chain[i - 1].hash
  }

  lemma ValidIsLinked(c: Crypto, cfg: Config, chain: seq<Block>)
    requires ValidChain(c, cfg, chain)
    ensures Linked(chain)
    ensures forall i :: 0 < i < |chain| ==> Hashed(c, chain[i])
  {
    forall i | 0 < i < |chain| ensures chain[i].previousHash == chain[i - 1].hash && Hashed(c, chain[i]) {
      assert Stands(c, cfg, chain, i);
    }
  }

  lemma {:induction false} DepthsRise(c: Crypto, chain: seq<Block>, i: nat, j: nat)
    requires Acyclic(c) && Linked(chain) && i < j < |chain|
    requires forall k :: 0 < k < |chain| ==> Hashed(c, chain[k])
    ensures c.depth(chain[i].hash) < c.depth(chain[j].hash)
  {
    assert Hashed(c, chain[j]);
    assert c.depth(chain[j].HeaderOf().previousHash) < c.depth(chain[j].hash);
    if i < j - 1 {
      DepthsRise(c, chain, i, j - 1);
    }
  }

  // No hash occurs twice on a valid chain.
  lemma HashesDiffer(c: Crypto, cfg: Config, chain: seq<Block>, i: nat, j: nat)
    requires Acyclic(c) && ValidChain(c, cfg, chain) && i < |chain| && j < |chain| && chain[i].hash == chain[j].hash
    ensures i == j
  {
    hide ValidChain;
    ValidIsLinked(c, cfg, chain);
    if i < j {
      DepthsRise(c, chain, i, j);
    } else if j < i {
      DepthsRise(c, chain, j, i);
    }
  }

  ghost predicate OnChain(chain: seq<Block>, h: Hash) {
    exists j :: 0 <= j < |chain| && chain[j].hash == h
  }

  ghost predicate AllCanonical(c: Crypto, chain: seq<Block>, fork: seq<Block>) {
    forall k :: 0 <= k < |fork| ==> Hashed(c, fork[k]) && OnChain(chain, fork[k].hash)
  }

  // A block whose parent is canonical block `i` and whose hash is that of canonical block `j` sits at j == i + 1.
  lemma ChildOfCanonical(c: Crypto, cfg: Config, chain: seq<Block>, i: nat, b: Block, j: nat)
    requires Sound(c) && ValidChain(c, cfg, chain) && i < |chain| && j < |chain|
    requires Hashed(c, b) && b.previousHash == chain[i].hash && b.hash == chain[j].hash
    ensures j == i + 1
  {
    hide ValidChain;
    ValidIsLinked(c, cfg, chain);
    assert c.depth(b.HeaderOf().previousHash) < c.depth(b.hash);
    if j == 0 {
      if i > 0 {
        DepthsRise(c, chain, 0, i);
      }
    } else {
      assert Hashed(c, chain[j]);
      assert chain[j].HeaderOf() == b.HeaderOf();
      assert chain[j - 1].hash == chain[j].HeaderOf().previousHash == chain[i].hash;
      HashesDiffer(c, cfg, chain, j - 1, i);
    }
  }

  // A fork grown from block `a` whose blocks are all canonical already is the
  // canonical continuation itself.
  lemma {:induction false} CanonicalForkIsContinuation(c: Crypto, cfg: Config, chain: seq<Block>, a: nat,
                                                       fork: seq<Block>, i: nat)
    requires Sound(c) && ValidChain(c, cfg, chain) && a < |chain|
    requires Linked(fork) && i < |fork| && fork[0].previousHash == chain[a].hash
    requires AllCanonical(c, chain, fork)
    ensures a + 1 + i < |chain| && fork[i].hash == chain[a + 1 + i].hash
  {
    hide ValidChain;
    ValidIsLinked(c, cfg, chain);
    if i > 0 {
      CanonicalForkIsContinuation(c, cfg, chain, a, fork, i - 1);
    }
    assert Hashed(c, fork[i]) && OnChain(chain, fork[i].hash);
    var j :| 0 <= j < |chain| && chain[j].hash == fork[i].hash;
    ChildOfCanonical(c, cfg, chain, a + i, fork[i], j);
  }

  lemma {:induction false} SameHashesSameWork(s: seq<Block>, t: seq<Block>)
    requires |s| == |t| && forall i :: 0 <= i < |s| ==> s[i].hash == t[i].hash
    ensures Work(s) == Work(t)
  {
    if s != [] {
      SameHashesSameWork(Front(s), Front(t));
    }
  }

  lemma PrefixWorkIsLess(fork: seq<Block>, above: seq<Block>)
    requires |fork| <= |above| && forall i :: 0 <= i < |fork| ==> fork[i].hash == above[i].hash
    ensures Work(fork) <= Work(above)
    ensures SatWork(fork) <= SatWork(above)
  {
    hide Work, SatWork, WorkOf;
    SameHashesSameWork(fork, above[..|fork|]);
    WorkAppend(above[..|fork|], above[|fork|..]);
    TakeDrop(above, |fork|);
    SatWorkIsCapped(fork);
    SatWorkIsCapped(above);
  }

  // Hence such a fork never outweighs the main chain above its ancestor, and is never selected.
  lemma CanonicalForkLoses(c: Crypto, cfg: Config, chain: seq<Block>, a: nat, fork: seq<Block>)
    requires Sound(c) && ValidChain(c, cfg, chain) && a < |chain|
    requires Linked(fork) && |fork| > 0 && fork[0].previousHash == chain[a].hash && AllCanonical(c, chain, fork)
    ensures Work(fork) <= Work(chain[a + 1..])
    ensures SatWork(fork) <= SatWork(chain[a + 1..])
  {
    hide *;
    forall i: nat | i < |fork| ensures a + 1 + i < |chain| && fork[i].hash == chain[a + 1 + i].hash {
      CanonicalForkIsContinuation(c, cfg, chain, a, fork, i);
    }
    CanonicalForkIsContinuation(c, cfg, chain, a, fork, |fork| - 1);
    PrefixWorkIsLess(fork, chain[a + 1..]);
  }

  // -------------------------------------------------------------------------
  // Traces through the orphan pool
  // -------------------------------------------------------------------------

  type Pool = map<Hash, Block>

  ghost predicate PoolHashed(c: Crypto, pool: Pool) {
    forall h :: h in pool ==> pool[h].hash == h && Hashed(c, pool[h])
  }

  // `chain` is what following previous-hash links from `tip` through the pool
  // collects, oldest first, until the links leave the pool.
  ghost predicate IsTrace(pool: Pool, tip: Hash, chain: seq<Block>) {
    && |chain| > 0
    && Last(chain).hash == tip
    && (forall i :: 0 <= i < |chain| ==> chain[i].hash in pool && pool[chain[i].hash] == chain[i])
    && Linked(chain)
    && chain[0].previousHash !in pool
  }

  lemma {:induction false} TraceIsUnique(pool: Pool, tip: Hash, s: seq<Block>, t: seq<Block>)
    requires IsTrace(pool, tip, s) && IsTrace(pool, tip, t)
    ensures s == t
    decreases |s|
  {
    assert Last(s) == pool[tip] == Last(t);
    assert |s| > 1 ==> s[|s| - 2].hash == Last(s).previousHash && Last(s).previousHash in pool;
    assert |t| > 1 ==> t[|t| - 2].hash == Last(t).previousHash && Last(t).previousHash in pool;
    if |s| > 1 {
      TraceIsUnique(pool, Last(s).previousHash, Front(s), Front(t));
      assert s == Front(s) + [Last(s)] && t == Front(t) + [Last(t)];
    }
  }

  ghost predicate Unreferenced(pool: Pool, h: Hash) {
    forall g :: g in pool ==> pool[g].previousHash != h
  }
}
