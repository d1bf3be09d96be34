/** Concrete chains on which the stated limits are reached, over a toy hash that meets every assumption made. */
module Witnesses {
  import opened Prelude
  import opened ByteOrder
  import opened Types
  import opened Consensus
  import opened Conservation
  import opened Replay
  import opened ForkChoice
  import opened AsertSchedule
  import opened MedianTime
  import opened Consistency
  import opened Decisions
  import opened Checkpoint
  import opened Forks
  import Node

  // -------------------------------------------------------------------------
  // A hash that writes the header out
  // -------------------------------------------------------------------------

  // A string and its end.
  function Framed(s: Bytes): Bytes {
    if s == [] then [0] else [1, s[0]] + Framed(s[1..])
  }

  // Every hash begins with 32 zero bits. A fifth zero byte stands for a lucky find,
  // reserved to nonce zero.
  function Lead(nonce: u64): Bytes {
    [0, 0, 0, 0, if nonce == 0 then 0 else 255]
  }

  function ToyHash(h: Header): Hash {
    Lead(h.nonce) + ToBytes(h.nonce, 8) + ToBytes(h.index, 8) + ToBytes(h.timestamp, 8) + Framed(h.txRoot) +
    h.previousHash
  }

  // A hash meets a difficulty with as many leading zero bits as it asks for.
  function Toy(): Crypto {
    Crypto((h: Header) => ToyHash(h), _ => [], _ => true, _ => true, (h: Hash, d: real) => LeadingZeros(h) as real >= d,
           (_, _, _) => 0, (h: Hash) => |h|)
  }

  lemma SameLengthParts(a: Bytes, b: Bytes, x: Bytes, y: Bytes)
    requires |a| == |b| && a + x == b + y
    ensures a == b && x == y
  {
    assert a == (a + x)[..|a|] && b == (b + y)[..|b|];
    assert x == (a + x)[|a|..] && y == (b + y)[|b|..];
  }

  lemma {:induction false} FramedParts(s: Bytes, t: Bytes, x: Bytes, y: Bytes)
    requires Framed(s) + x == Framed(t) + y
    ensures s == t && x == y
  {
    var u := Framed(s) + x;
    assert u[0] == (if s == [] then 0 else 1) && u[0] == if t == [] then 0 else 1;
    if s == [] {
      SameLengthParts([0], [0], x, y);
    } else {
      assert u == [1, s[0]] + (Framed(s[1..]) + x) && u == [1, t[0]] + (Framed(t[1..]) + y);
      SameLengthParts([1, s[0]], [1, t[0]], Framed(s[1..]) + x, Framed(t[1..]) + y);
      assert [1, s[0]][1] == [1, t[0]][1];
      FramedParts(s[1..], t[1..], x, y);
      assert s == [s[0]] + s[1..] && t == [t[0]] + t[1..];
    }
  }

  lemma NumberRead(m: u64, n: u64)
    requires ToBytes(m, 8) == ToBytes(n, 8)
    ensures m == n
  {
    assert Power256(8) == U64_LIMIT;
    ToBytesInverts(m, 8);
    ToBytesInverts(n, 8);
  }

  lemma ToyInjective(g: Header, h: Header)
    requires ToyHash(g) == ToyHash(h)
    ensures g == h
  {
    hide ToBytes, Framed;
    var rest := (k: Header) => Framed(k.txRoot) + k.previousHash;
    var g3, h3 := ToBytes(g.timestamp, 8) + rest(g), ToBytes(h.timestamp, 8) + rest(h);
    var g2, h2 := ToBytes(g.index, 8) + g3, ToBytes(h.index, 8) + h3;
    var g1, h1 := ToBytes(g.nonce, 8) + g2, ToBytes(h.nonce, 8) + h2;
    assert ToyHash(g) == Lead(g.nonce) + g1 && ToyHash(h) == Lead(h.nonce) + h1;
    SameLengthParts(Lead(g.nonce), Lead(h.nonce), g1, h1);
    SameLengthParts(ToBytes(g.nonce, 8), ToBytes(h.nonce, 8), g2, h2);
    SameLengthParts(ToBytes(g.index, 8), ToBytes(h.index, 8), g3, h3);
    SameLengthParts(ToBytes(g.timestamp, 8), ToBytes(h.timestamp, 8), rest(g), rest(h));
    NumberRead(g.nonce, h.nonce);
    NumberRead(g.index, h.index);
    NumberRead(g.timestamp, h.timestamp);
    FramedParts(g.txRoot, h.txRoot, g.previousHash, h.previousHash);
  }

  lemma ToyIsSound()
    ensures Sound(Toy())
  {
    var c := Toy();
    forall g: Header, h: Header | c.headerHash(g) == c.headerHash(h) ensures g == h {
      ToyInjective(g, h);
    }
    hide ToBytes, Framed;
    forall h: Header ensures c.depth(h.previousHash) < c.depth(c.headerHash(h)) {
      assert |ToyHash(h)| >= 1 + |h.previousHash|;
    }
  }

  // A hash with 32 leading zero bits, and one with 40 or more.
  predicate Plain(h: Hash) {
    |h| > 4 && (forall i :: 0 <= i < 4 ==> h[i] == 0) && h[4] == 255
  }

  predicate Lucky(h: Hash) {
    |h| > 4 && forall i :: 0 <= i < 5 ==> h[i] == 0
  }

  lemma {:induction false} ZeroBytes(h: Hash, k: nat)
    requires k <= |h| && forall i :: 0 <= i < k ==> h[i] == 0
    ensures LeadingZeros(h) == 8 * k + LeadingZeros(h[k..])
  {
    if k == 0 {
      assert h[0..] == h;
    } else {
      ZeroBytes(h[1..], k - 1);
      assert h[1..][k - 1..] == h[k..];
    }
  }

  lemma ToyLeads(h: Header)
    ensures if h.nonce == 0 then Lucky(ToyHash(h)) else Plain(ToyHash(h))
    ensures LeadingZeros(ToyHash(h)) >= 32
  {
    hide ToBytes, Framed, LeadingZeros;
    ZeroBytes(ToyHash(h), 4);
  }

  // -------------------------------------------------------------------------
  // Chains of empty blocks
  // -------------------------------------------------------------------------

  // A coinbase that mints nothing.
  function Coin(): Tx {
    Tx([], [1], 0, 0, 0, [], [])
  }

  // A block without transfers.
  function EmptyBlock(index: u64, previous: Hash, timestamp: u64, nonce: u64): Block {
    var header := Header(index, previous, timestamp, nonce, []);
    Block(index, previous, timestamp, nonce, [], [Coin()], ToyHash(header))
  }

  // One empty block per timestamp.
  function EmptyChain(times: seq<u64>): (r: seq<Block>)
    requires |times| < U64_LIMIT
    ensures |r| == |times|
  {
    if times == [] then []
    else
      var below := EmptyChain(Front(times));
      below + [EmptyBlock(|below|, if below == [] then [] else Last(below).hash, Last(times), 1)]
  }

  // A valid chain on which no ticket was ever issued.
  ghost predicate Quiet(cfg: Config, chain: seq<Block>) {
    ValidChain(Toy(), cfg, chain) && |chain| > 0 && Derived(Toy(), cfg, chain).tickets == []
  }

  lemma EmptyProcess(v: View, b: Block)
    requires b.transactions == [Coin()] && v.ledger.tickets == []
    ensures Process(Toy(), v, b).Yields? && Process(Toy(), v, b).ledger.tickets == []
  {
    var l, to := v.ledger, Coin().receiver;
    var l' := l.(balances := l.balances[to := Get(l.balances, to)]);
    assert Settle(Toy(), v, b.index) == (l, []);
    CoinApplies(l, b);
    SumUpdate(l.balances, to, Get(l.balances, to));
    hide Settle, ApplyAll, SplitFees, Sum;
    ProcessSteps(Toy(), v, b, l, []);
    StampKeepsBooks(l', b);
  }

  lemma CoinApplies(l: Ledger, b: Block)
    requires b.transactions == [Coin()]
    ensures var l' := l.(balances := l.balances[Coin().receiver := Get(l.balances, Coin().receiver)]);
      ApplyAll(l, b.transactions) == Some(l') && SplitFees(l', b) == l' && b.Minted() == 0 && Issued(b) == []
  {
    assert Front([Coin()]) == [] && Last([Coin()]) == Coin();
    assert CountTransfers([]) == 0 && TotalFees([]) == 0 && TotalFees([Coin()]) == 0;
  }

  // The highest difficulty a node can be started with, and a length up to which no
  // chain started with it can be due more than 32 bits.
  const INITIAL_DIFFICULTY := 25.0
  const SHORT := 257

  ghost predicate Startable(cfg: Config) {
    cfg.difficulty <= INITIAL_DIFFICULTY
  }

  lemma AsertRises(a: Anchor, index: nat, timestamp: u64)
    requires a.height <= index < a.height + SHORT && a.difficulty <= INITIAL_DIFFICULTY
    ensures Asert(a, index, timestamp) <= 30.0
  {
    var ideal := (index - a.height) * TARGET_BLOCK_TIME_SECS;
    assert ideal % U64_LIMIT == ideal <= 15420;
    var ahead := ideal as real - SatSub(timestamp, a.timestamp) as real;
    assert ahead / ASERT_HALFLIFE_SECS <= 5.0;
  }

  lemma EasyTarget(c: Crypto, cfg: Config, chain: seq<Block>)
    requires ValidChain(c, cfg, chain) && Startable(cfg) && 0 < |chain| <= SHORT
    ensures Derived(c, cfg, chain).difficulty <= 31.0
  {
    hide ValidChain, Derived, Asert;
    if cfg.difficulty < MIN_DIFFICULTY {
      LowDifficultyIsFixed(c, cfg, chain);
    } else if |chain| == 1 {
      AnchorIsBlockOne(c, cfg, chain);
    } else {
      DifficultyFollowsSchedule(c, cfg, chain);
      AsertRises(AnchorOf(cfg, chain), |chain| - 1, Last(chain).timestamp);
    }
  }

  lemma EmptyIsFine(l: Ledger, index: u64, previous: Hash, timestamp: u64, nonce: u64)
    ensures var b := EmptyBlock(index, previous, timestamp, nonce);
      WellFormed(Toy(), b) && PreValid(Toy(), l, b.transactions) && LeadingZeros(b.hash) >= 32
  {
    assert Front([Coin()]) == [] && CountTransfers([]) == 0;
    ToyLeads(EmptyBlock(index, previous, timestamp, nonce).HeaderOf());
    hide ToyHash, LeadingZeros;
  }

  lemma EmptyIsGood(cfg: Config, chain: seq<Block>, timestamp: u64, nonce: u64)
    requires Quiet(cfg, chain) && Startable(cfg) && |chain| <= SHORT
    ensures GoodButDate(Toy(), cfg, chain, |chain|, EmptyBlock(|chain|, Last(chain).hash, timestamp, nonce))
  {
    hide Derived, ValidChain, Process, WellFormed, PreValid, LeadingZeros, ToyHash;
    assert chain[..|chain|] == chain;
    var v := FullView(Toy(), cfg, chain);
    EasyTarget(Toy(), cfg, chain);
    EmptyIsFine(v.ledger, |chain|, Last(chain).hash, timestamp, nonce);
    EmptyProcess(v, EmptyBlock(|chain|, Last(chain).hash, timestamp, nonce));
  }

  lemma QuietNext(cfg: Config, chain: seq<Block>, timestamp: u64, nonce: u64)
    requires Quiet(cfg, chain) && Startable(cfg) && |chain| <= SHORT && timestamp > MedianTimePast(chain)
    ensures Quiet(cfg, chain + [EmptyBlock(|chain|, Last(chain).hash, timestamp, nonce)])
  {
    hide Derived, ValidChain, Process, MedianTimePast, Stamp, WellFormed, PreValid, Toy, ToyHash;
    var b := EmptyBlock(|chain|, Last(chain).hash, timestamp, nonce);
    assert chain[..|chain|] == chain;
    EmptyIsGood(cfg, chain, timestamp, nonce);
    EmptyProcess(FullView(Toy(), cfg, chain), b);
    ValidExtend(Toy(), cfg, chain, b);
  }

  lemma QuietGenesis(cfg: Config, b: Block)
    requires b.index == 0
    ensures Quiet(cfg, [b])
  {
  }

  // Every timestamp is later than the median of those before it.
  ghost predicate Dated(times: seq<u64>)
    requires |times| < U64_LIMIT
  {
    forall n :: 0 < n < |times| ==> times[n] > MedianTimePast(EmptyChain(times[..n]))
  }

  lemma EmptyChainStep(times: seq<u64>)
    requires 1 < |times| < U64_LIMIT
    ensures var below := EmptyChain(Front(times));
      EmptyChain(times) == below + [EmptyBlock(|below|, Last(below).hash, Last(times), 1)]
  {
  }

  lemma DatedFront(times: seq<u64>)
    requires 1 < |times| < U64_LIMIT && Dated(times)
    ensures Dated(Front(times)) && Last(times) > MedianTimePast(EmptyChain(Front(times)))
  {
    hide EmptyChain, MedianTimePast;
    assert times[..|times| - 1] == Front(times);
    forall n | 0 < n < |times| - 1 ensures Front(times)[n] > MedianTimePast(EmptyChain(Front(times)[..n])) {
      assert Front(times)[..n] == times[..n];
    }
  }

  lemma {:induction false} EmptyChainIsQuiet(cfg: Config, times: seq<u64>)
    requires 0 < |times| <= SHORT && Startable(cfg) && Dated(times)
    ensures Quiet(cfg, EmptyChain(times))
  {
    if |times| == 1 {
      QuietGenesis(cfg, EmptyBlock(0, [], times[0], 1));
    } else {
      hide Quiet, Dated, EmptyChain, MedianTimePast, EmptyBlock;
      DatedFront(times);
      EmptyChainIsQuiet(cfg, Front(times));
      EmptyChainStep(times);
      QuietNext(cfg, EmptyChain(Front(times)), Last(times), 1);
    }
  }

  lemma {:induction false} EmptyChainAt(times: seq<u64>, n: nat)
    requires n < |times| < U64_LIMIT
    ensures EmptyChain(times)[n].timestamp == times[n] && Plain(EmptyChain(times)[n].hash)
    ensures EmptyChain(times)[n].transactions == [Coin()]
    ensures EmptyChain(times)[..n] == EmptyChain(times[..n])
  {
    if n == |times| - 1 {
      assert times[..n] == Front(times);
      ToyLeads(EmptyChain(times)[n].HeaderOf());
    } else {
      EmptyChainAt(Front(times), n);
      assert Front(times)[..n] == times[..n];
    }
  }

  // -------------------------------------------------------------------------
  // What a checkpoint restart refuses, and what it takes
  // -------------------------------------------------------------------------

  // How many of `times[lo..hi]` lie below `t`.
  function Below(times: seq<u64>, lo: nat, hi: nat, t: nat): nat
    requires lo <= hi <= |times|
    decreases hi - lo
  {
    if lo == hi then 0 else Below(times, lo + 1, hi, t) + if times[lo] < t then 1 else 0
  }

  ghost predicate DatedBy(blocks: seq<Block>, times: seq<u64>, lo: nat) {
    lo + |blocks| <= |times| && forall i :: 0 <= i < |blocks| ==> blocks[i].timestamp == times[lo + i]
  }

  lemma {:induction false} NewestBelow(blocks: seq<Block>, times: seq<u64>, lo: nat, n: nat, t: nat)
    requires DatedBy(blocks, times, lo) && n <= |blocks|
    ensures CountBelow(Newest(blocks, n), t) == Below(times, lo + |blocks| - n, lo + |blocks|, t)
  {
    if n > 0 {
      var oldest := blocks[|blocks| - n].timestamp;
      NewestBelow(blocks, times, lo, n - 1, t);
      CountAppend(Newest(blocks, n - 1), [oldest], t);
      assert [oldest][1..] == [];
    }
  }

  // The median of blocks dated `times[lo..hi]` is below `t`.
  predicate MedianBelow(times: seq<u64>, lo: nat, hi: nat, t: nat)
    requires lo < hi <= |times|
  {
    var n := Min(MTP_WINDOW, hi - lo);
    Below(times, hi - n, hi, t) > n / 2
  }

  lemma MedianOfDates(blocks: seq<Block>, times: seq<u64>, lo: nat, t: nat)
    requires |blocks| > 0 && DatedBy(blocks, times, lo)
    ensures MedianTimePast(blocks) < t <==> MedianBelow(times, lo, lo + |blocks|, t)
  {
    MedianByCounting(blocks, t);
    NewestBelow(blocks, times, lo, |Recent(blocks)|, t);
  }

  lemma DatedByCounting(times: seq<u64>)
    requires |times| < U64_LIMIT && forall n :: 0 < n < |times| ==> MedianBelow(times, 0, n, times[n])
    ensures Dated(times)
  {
    hide EmptyChain, MedianTimePast, MedianBelow;
    forall n | 0 < n < |times| ensures times[n] > MedianTimePast(EmptyChain(times[..n])) {
      TimesOf(times[..n]);
      MedianOfDates(EmptyChain(times[..n]), times, 0, times[n]);
    }
  }

  lemma {:induction false} AllBelow(times: seq<u64>, lo: nat, hi: nat, t: nat)
    requires lo <= hi <= |times| && forall i :: lo <= i < hi ==> times[i] < t
    ensures Below(times, lo, hi, t) == hi - lo
    decreases hi - lo
  {
    if lo < hi {
      AllBelow(times, lo + 1, hi, t);
    }
  }

  lemma {:induction false} BelowSplits(times: seq<u64>, lo: nat, m: nat, hi: nat, t: nat)
    requires lo <= m <= hi <= |times|
    ensures Below(times, lo, hi, t) == Below(times, lo, m, t) + Below(times, m, hi, t)
    decreases m - lo
  {
    if lo < m {
      BelowSplits(times, lo + 1, m, hi, t);
    }
  }

  // A block dated after all before it may follow them.
  lemma LaterIsDated(times: seq<u64>, n: nat, t: nat)
    requires 0 < n <= |times| && forall i :: 0 <= i < n ==> times[i] < t
    ensures MedianBelow(times, 0, n, t)
  {
    AllBelow(times, n - Min(MTP_WINDOW, n), n, t);
  }

  lemma TimesOf(times: seq<u64>)
    requires |times| < U64_LIMIT
    ensures forall i :: 0 <= i < |times| ==> EmptyChain(times)[i].timestamp == times[i]
  {
    forall i | 0 <= i < |times| ensures EmptyChain(times)[i].timestamp == times[i] {
      EmptyChainAt(times, i);
    }
  }

  const UNEVEN: seq<u64> := [0, 10, 20, 30, 25]

  // Five empty blocks dated 0, 10, 20, 30 and 25 are a valid chain whose last block
  // a node restored at the one before it refuses.
  lemma ShortWindowIsStricter(cfg: Config) returns (chain: seq<Block>)
    requires Startable(cfg)
    ensures |chain| == 5 && ValidChain(Toy(), cfg, chain)
    ensures !Accepts(Toy(), RestoredView(Toy(), cfg, chain, 3, 4), chain[4])
    ensures chain == EmptyChain(UNEVEN)
  {
    hide EmptyChain, Dated, Derived, ValidChain, Accepts, RestoredView, Toy, MedianTimePast, MedianBelow;
    UnevenMedians();
    DatedByCounting(UNEVEN);
    EmptyChainIsQuiet(cfg, UNEVEN);
    TimesOf(UNEVEN);
    chain := EmptyChain(UNEVEN);
    MedianOfDates(chain[3..4], UNEVEN, 3, 25);
    RestoredAccepts(Toy(), cfg, chain, 3, 4);
  }

  lemma UnevenMedians()
    ensures forall n :: 0 < n < 5 ==> MedianBelow(UNEVEN, 0, n, UNEVEN[n])
    ensures !MedianBelow(UNEVEN, 3, 4, 25)
  {
  }

  const SPIKED: seq<u64> := [0, 1, 2, 3, 4, 5, 6, 100, 100, 100, 100, 100, 10, 11, 12]

  // The other way round: after fifteen empty blocks, five of them dated ahead, a node
  // restored at the thirteenth takes a block that every other node refuses.
  lemma ShortWindowIsLaxer(cfg: Config) returns (chain: seq<Block>)
    requires Startable(cfg)
    ensures |chain| == 15 && ValidChain(Toy(), cfg, chain)
    ensures var b := EmptyBlock(15, chain[14].hash, 12, 1);
      Accepts(Toy(), RestoredView(Toy(), cfg, chain, 12, 15), b) && !Accepts(Toy(), FullView(Toy(), cfg, chain), b)
    ensures chain == EmptyChain(SPIKED)
  {
    hide EmptyChain, Dated, Derived, ValidChain, Accepts, RestoredView, Toy, MedianTimePast, MedianBelow, GoodButDate;
    SpikedIsDated();
    SpikedMedians();
    EmptyChainIsQuiet(cfg, SPIKED);
    TimesOf(SPIKED);
    chain := EmptyChain(SPIKED);
    assert chain[..15] == chain;
    MedianOfDates(chain, SPIKED, 0, 12);
    MedianOfDates(chain[12..15], SPIKED, 12, 12);
    EmptyIsGood(cfg, chain, 12, 1);
    RestoredParts(Toy(), cfg, chain, 12, 15, EmptyBlock(15, chain[14].hash, 12, 1));
  }

  lemma SpikedMedians()
    ensures MedianBelow(SPIKED, 12, 15, 12) && !MedianBelow(SPIKED, 0, 15, 12)
  {
  }

  lemma SpikedIsDated()
    ensures Dated(SPIKED)
  {
    hide Dated, MedianBelow;
    SpikedStays();
    SpikedReturns();
    forall n | 0 < n < 15 ensures MedianBelow(SPIKED, 0, n, SPIKED[n]) {
      if n < 8 {
        LaterIsDated(SPIKED, n, SPIKED[n]);
      }
    }
    DatedByCounting(SPIKED);
  }

  lemma SpikedStays()
    ensures forall n :: 8 <= n < 12 ==> MedianBelow(SPIKED, 0, n, 100)
  {
    hide Below;
    forall n | 8 <= n < 12 ensures MedianBelow(SPIKED, 0, n, 100) {
      BelowSplits(SPIKED, 0, 7, n, 100);
      AllBelow(SPIKED, 0, 7, 100);
    }
  }

  lemma SpikedReturns()
    ensures MedianBelow(SPIKED, 0, 12, 10) && MedianBelow(SPIKED, 0, 13, 11) && MedianBelow(SPIKED, 0, 14, 12)
  {
  }

  // -------------------------------------------------------------------------
  // One lucky block against a hundred
  // -------------------------------------------------------------------------

  function Seconds(n: nat): (r: seq<u64>)
    requires n < U64_LIMIT
    ensures |r| == n
  {
    seq(n, i requires 0 <= i < n => i)
  }

  lemma SecondsAreDated(n: nat)
    requires 0 < n < U64_LIMIT
    ensures Dated(Seconds(n))
  {
    hide Dated, MedianBelow;
    forall k | 0 < k < n ensures MedianBelow(Seconds(n), 0, k, Seconds(n)[k]) {
      LaterIsDated(Seconds(n), k, k);
    }
    DatedByCounting(Seconds(n));
  }

  const PLAIN_WORK := 0x1_0000_0000

  lemma Powers()
    ensures Shl128(32) == PLAIN_WORK && Pow2(40) == 256 * PLAIN_WORK
  {
    assert Pow2(8) == 256 by {
      assert Pow2(4) == 16 && Pow2(8) == 2 * Pow2(7) && Pow2(7) == 2 * Pow2(6) && Pow2(6) == 2 * Pow2(5);
    }
    hide Pow2;
    Pow2Add(8, 8);
    Pow2Add(16, 16);
    Pow2Add(8, 32);
  }

  lemma {:induction false} PlainWork(blocks: seq<Block>)
    requires forall i :: 0 <= i < |blocks| ==> Plain(blocks[i].hash)
    ensures Work(blocks) == |blocks| * PLAIN_WORK
  {
    if blocks != [] {
      hide Shl128, Pow2, LeadingZeros;
      PlainWork(Front(blocks));
      PlainZeros(Last(blocks).hash);
      Powers();
    }
  }

  lemma PlainZeros(h: Hash)
    requires Plain(h)
    ensures LeadingZeros(h) == 32
  {
    ZeroBytes(h, 4);
    hide LeadingZeros;
    ZerosOf255(h[4..]);
  }

  lemma ZerosOf255(h: Hash)
    requires |h| > 0 && h[0] == 255
    ensures LeadingZeros(h) == 0
  {
  }

  lemma LuckyWork(b: Block)
    requires Lucky(b.hash)
    ensures SatWork([b]) >= 256 * PLAIN_WORK
  {
    hide Pow2, LeadingZeros;
    var z := LeadingZeros(b.hash);
    ZeroBytes(b.hash, 5);
    Pow2Grows(40, z);
    Powers();
    assert Front([b]) == [] && Last([b]) == b;
  }

  // A chain of `n` such blocks, all but the last hundred out of the window.
  ghost function LongStanding(n: nat): (s: Standing)
    requires REORG_WINDOW + 2 < n <= SHORT
    ensures |s.chain| == n && s.start == n - REORG_WINDOW && s.pool == map[]
  {
    Standing(EmptyChain(Seconds(n)), n - REORG_WINDOW, map[])
  }

  // A block on the second of them whose hash begins with zero bits.
  function LuckyBlock(chain: seq<Block>): Block
    requires |chain| > 1
  {
    EmptyBlock(2, chain[1].hash, 2, 0)
  }

  lemma LongIsPlaced(cfg: Config, n: nat)
    requires REORG_WINDOW + 2 < n <= SHORT && Startable(cfg)
    ensures WellPlaced(Toy(), cfg, LongStanding(n))
  {
    hide EmptyChain, Dated, Derived, ValidChain, Toy, Sound, EmptyBlock;
    ToyIsSound();
    SecondsAreDated(n);
    EmptyChainIsQuiet(cfg, Seconds(n));
  }

  lemma LuckyIsHeavier(n: nat)
    requires REORG_WINDOW + 2 < n <= SHORT
    ensures var s := LongStanding(n);
      var b := LuckyBlock(s.chain);
      Heavier(s.(pool := map[b.hash := b]), [b], 1)
  {
    hide EmptyChain, Work, SatWork, ToBytes, Framed;
    var chain := EmptyChain(Seconds(n));
    forall i | 0 <= i < n ensures Plain(chain[i].hash) {
      EmptyChainAt(Seconds(n), i);
    }
    PlainWork(chain[2..]);
    SatWorkIsCapped(chain[2..]);
    ToyLeads(LuckyBlock(chain).HeaderOf());
    LuckyWork(LuckyBlock(chain));
  }

  lemma LuckyBranchIsQuiet(cfg: Config, n: nat)
    requires REORG_WINDOW + 2 < n <= SHORT && Startable(cfg)
    ensures var chain := LongStanding(n).chain;
      var alt := Branch(chain, 1, [LuckyBlock(chain)]);
      Quiet(cfg, alt) && |alt| == 3 && forall i :: 0 <= i < 3 ==> alt[i].timestamp <= 2
  {
    hide EmptyChain, Dated, Quiet, MedianTimePast;
    var times := Seconds(n);
    var chain := EmptyChain(times);
    EmptyChainAt(times, 2);
    assert times[..2] == Seconds(2) && chain[..2][1] == chain[1];
    TimesOf(Seconds(2));
    SecondsAreDated(2);
    EmptyChainIsQuiet(cfg, Seconds(2));
    LaterIsDated(Seconds(2), 2, 2);
    MedianOfDates(chain[..2], Seconds(2), 0, 2);
    QuietNext(cfg, chain[..2], 2, 0);
  }

  lemma LuckyIsAdopted(cfg: Config, n: nat, now: nat, later: Clock)
    requires REORG_WINDOW + 2 < n <= SHORT && Startable(cfg)
    ensures var chain := LongStanding(n).chain;
      var alt := Branch(chain, 1, [LuckyBlock(chain)]);
      |alt| == 3 && Adopts(Toy(), cfg, alt, now, later) && !Dies(Toy(), cfg, alt, now, later)
  {
    hide LongStanding, LuckyBlock, Branch, ValidChain, Derived, Reach, Toy;
    LuckyBranchIsQuiet(cfg, n);
    var chain := LongStanding(n).chain;
    IndicesAreHeights(Toy(), cfg, Branch(chain, 1, [LuckyBlock(chain)]), 0);
    AdoptsExactly(Toy(), cfg, Branch(chain, 1, [LuckyBlock(chain)]), now, later);
  }

  // Whatever it hangs off, a block at height 2 is never held to more than 32 bits.
  lemma SecondIsPlausible(cfg: Config, s: Standing, b: Block)
    requires ValidChain(Toy(), cfg, s.chain) && Startable(cfg) && 0 < |s.chain| <= SHORT
    requires b == EmptyBlock(2, b.previousHash, b.timestamp, b.nonce)
    ensures Hashed(Toy(), b) && Plausible(Toy(), cfg, s, b) && Node.PreFilter(Toy(), b)
  {
    hide Derived, ValidChain, SeenTime, ToyHash, LeadingZeros, Asert;
    var l := Derived(Toy(), cfg, s.chain);
    EasyTarget(Toy(), cfg, s.chain);
    AnchorIsBlockOne(Toy(), cfg, s.chain);
    if l.anchor.Some? {
      forall t: u64 ensures Asert(l.anchor.value, 1, t) <= 30.0 {
        AsertRises(l.anchor.value, 1, t);
      }
    }
    EmptyIsFine(l, 2, b.previousHash, b.timestamp, b.nonce);
    assert Front([Coin()]) == [] && CountTransfers([]) == 0;
  }

  lemma LuckyIsAtTwo(s: Standing)
    requires |s.chain| > 1
    ensures var b := LuckyBlock(s.chain); b.index == 2 && b == EmptyBlock(2, b.previousHash, b.timestamp, b.nonce)
  {
    hide ToyHash;
  }

  // A block far below the tip whose hash is worth more than the hundred and more above
  // it: the node switches to it and ends on three blocks, with more work than before,
  // and the writes that follow leave stale blocks above the new tip.
  lemma LuckyBlockShortens(cfg: Config, n: nat, now: nat, later: Clock)
    requires REORG_WINDOW + 2 < n <= SHORT && Startable(cfg)
    ensures var s := LongStanding(n);
      var b := LuckyBlock(s.chain);
      var m := Switches(map[b.hash := b], [b], 1);
      && WellPlaced(Toy(), cfg, s) && Node.PreFilter(Toy(), b) && May(Toy(), cfg, s, b, now, later, m)
      && Adopts(Toy(), cfg, Branch(s.chain, 1, [b]), now, later)
      && |After(Toy(), cfg, s, b, now, later, m).chain| == 3
      && Work(After(Toy(), cfg, s, b, now, later, m).chain) > Work(s.chain)
      && !KeepsTables(Toy(), cfg, s, now, later, m)
  {
    hide May, Derived, Toy, Reach, Branch, EmptyBlock, Heavier, Plausible, Node.PreFilter, Work, ValidChain, Sound;
    hide Acyclic, Heaviest, Hashed, OrphanAdmitted;
    var s := LongStanding(n);
    var b := LuckyBlock(s.chain);
    var pool := map[b.hash := b];
    LongIsPlaced(cfg, n);
    LuckyIsHeavier(n);
    LuckyIsAdopted(cfg, n, now, later);
    LuckyIsAtTwo(s);
    SecondIsPlausible(cfg, s, b);
    SoundIsAcyclic(Toy());
    HeavierGains(s.(pool := pool), [b], 1);
    AcceptedWhole(Toy(), cfg, Branch(s.chain, 1, [b]), now, later);
    LoneForkIsHeaviest(Toy(), s, b, 1);
    HeaviestIsTaken(Toy(), cfg, s, b, pool, [b], 1, now, later);
  }

  // -------------------------------------------------------------------------
  // A block that claims the wrong height
  // -------------------------------------------------------------------------

  // On a chain that is genesis alone, a child of genesis that claims height 2 is
  // such a block, whatever the wall clock.
  lemma MisnumberedExists(cfg: Config)
    requires Startable(cfg)
    ensures var chain := EmptyChain([0]);
      && |chain| == 1 && Misnumbered(Toy(), cfg, Standing(chain, 0, map[]), EmptyBlock(2, chain[0].hash, 1, 1))
      && Node.PreFilter(Toy(), EmptyBlock(2, chain[0].hash, 1, 1))
  {
    ToyIsSound();
    assert EmptyChain([0])[0].index == 0;
    hide Derived, ToyHash, SeenTime, Plausible, Node.PreFilter, Sound, Toy;
    var chain := EmptyChain([0]);
    SecondIsPlausible(cfg, Standing(chain, 0, map[]), EmptyBlock(2, chain[0].hash, 1, 1));
  }
}
