/** ASERT difficulty along a chain, and the difficulty an orphan is held to. */
module AsertSchedule {
  import opened Prelude
  import opened Types
  import opened Consensus
  import opened Replay
  import opened MedianTime

  function Near(x: real, y: real): bool {
    Abs(x - y) <= EPSILON
  }

  // The anchor every chain of this configuration gets from its block 1.
  function AnchorOf(cfg: Config, chain: seq<Block>): Anchor
    requires |chain| > 1
  {
    Anchor(1, chain[1].timestamp, cfg.difficulty)
  }

  lemma {:induction false} AnchorIsBlockOne(c: Crypto, cfg: Config, chain: seq<Block>)
    requires ValidChain(c, cfg, chain)
    ensures Derived(c, cfg, chain).anchor == if |chain| == 1 then None else Some(AnchorOf(cfg, chain))
    ensures |chain| == 1 ==> Derived(c, cfg, chain).difficulty == cfg.difficulty
  {
    hide Stands, Process, Admissible;
    if |chain| > 1 {
      ValidFront(c, cfg, chain);
      AnchorIsBlockOne(c, cfg, Front(chain));
      IndicesAreHeights(c, cfg, chain, |chain| - 1);
      StepRecords(c, FullView(c, cfg, Front(chain)), Last(chain));
    }
  }

  // From block 1 on, the difficulty is the schedule at the tip, whatever path of
  // adjustments and skipped adjustments led there.
  lemma {:induction false} DifficultyFollowsSchedule(c: Crypto, cfg: Config, chain: seq<Block>)
    requires ValidChain(c, cfg, chain) && |chain| > 1
    requires MIN_DIFFICULTY <= cfg.difficulty <= MAX_DIFFICULTY
    ensures var d := Derived(c, cfg, chain).difficulty;
      && MIN_DIFFICULTY <= d <= MAX_DIFFICULTY
      && Near(d, Asert(AnchorOf(cfg, chain), |chain| - 1, Last(chain).timestamp))
  {
    hide Stands, Process, Admissible;
    ValidFront(c, cfg, chain);
    AnchorIsBlockOne(c, cfg, Front(chain));
    IndicesAreHeights(c, cfg, chain, |chain| - 1);
    StepRecords(c, FullView(c, cfg, Front(chain)), Last(chain));
    if |chain| == 2 {
      assert Asert(AnchorOf(cfg, chain), 1, Last(chain).timestamp) == cfg.difficulty;
    } else {
      DifficultyFollowsSchedule(c, cfg, Front(chain));
    }
  }

  // Below the minimum (test chains) the difficulty never moves at all.
  lemma {:induction false} LowDifficultyIsFixed(c: Crypto, cfg: Config, chain: seq<Block>)
    requires ValidChain(c, cfg, chain) && cfg.difficulty < MIN_DIFFICULTY
    ensures Derived(c, cfg, chain).difficulty == cfg.difficulty
  {
    hide Stands, Process, Admissible;
    if |chain| > 1 {
      ValidFront(c, cfg, chain);
      LowDifficultyIsFixed(c, cfg, Front(chain));
      AnchorIsBlockOne(c, cfg, Front(chain));
      IndicesAreHeights(c, cfg, chain, |chain| - 1);
      StepRecords(c, FullView(c, cfg, Front(chain)), Last(chain));
    }
  }

  // expected_difficulty_for, given the predecessor's timestamp if it is in memory.
  function Expected(l: Ledger, previous: Option<u64>, index: u64): real {
    if l.anchor.None? || l.anchor.value.difficulty < MIN_DIFFICULTY || previous.None? then l.difficulty
    else
      var before: nat := Max(index - 1, 0);
      if before < l.anchor.value.height then l.difficulty else Asert(l.anchor.value, before, previous.value)
  }

  // The chain obtained by leaving `chain` after block `a`.
  function Branch(chain: seq<Block>, a: nat, fork: seq<Block>): seq<Block>
    requires a < |chain|
  {
    chain[..a + 1] + fork
  }

  // The branch below block `j` of the fork.
  function BranchBelow(chain: seq<Block>, a: nat, fork: seq<Block>, j: nat): (r: seq<Block>)
    requires a < |chain| && j <= |fork|
    ensures |r| == a + 1 + j
  {
    Branch(chain, a, fork)[..a + 1 + j]
  }

  // A block that claims the next height on a fork that leaves the chain at block 1
  // or later is judged by the difficulty its own replay will demand: whatever the
  // main chain's timing was, the two differ by at most EPSILON. Only what is below
  // the block need be valid.
  lemma ExpectedIsRequired(c: Crypto, cfg: Config, chain: seq<Block>, a: nat, fork: seq<Block>, j: nat)
    requires ValidChain(c, cfg, chain) && 1 <= a < |chain| && cfg.difficulty <= MAX_DIFFICULTY
    requires j < |fork| && ValidChain(c, cfg, BranchBelow(chain, a, fork, j)) && fork[j].index == a + 1 + j
    ensures var below := BranchBelow(chain, a, fork, j);
      Near(Expected(Derived(c, cfg, chain), Some(Last(below).timestamp), fork[j].index),
           Derived(c, cfg, below).difficulty)
  {
    hide Stands, ValidChain, Derived;
    var below := BranchBelow(chain, a, fork, j);
    AnchorIsBlockOne(c, cfg, chain);
    assert AnchorOf(cfg, below) == AnchorOf(cfg, chain);
    if cfg.difficulty >= MIN_DIFFICULTY {
      DifficultyFollowsSchedule(c, cfg, below);
    } else {
      LowDifficultyIsFixed(c, cfg, chain);
      LowDifficultyIsFixed(c, cfg, below);
    }
  }

  // -------------------------------------------------------------------------
  // What the schedule says
  // -------------------------------------------------------------------------

  // Seconds by which the chain is ahead of one block a minute since the anchor.
  function Ahead(a: Anchor, index: nat, timestamp: u64): int {
    60 * (index - a.height) - (timestamp - a.timestamp)
  }

  // `d` is `start` with one bit more for every hour ahead, kept within 8 and 127 bits.
  predicate OnSchedule(d: real, start: real, ahead: int) {
    && (28800.0 <= 3600.0 * start + ahead as real <= 457200.0 ==> 3600.0 * (d - start) == ahead as real)
    && (3600.0 * start + ahead as real < 28800.0 ==> d == 8.0)
    && (3600.0 * start + ahead as real > 457200.0 ==> d == 127.0)
  }

  // What an adjustment computes, to the second: an hour ahead adds one bit and a
  // second the 3600th part of one.
  lemma AdjustsBySeconds(a: Anchor, index: nat, timestamp: u64)
    requires a.height <= index && 60 * (index - a.height) < U64_LIMIT && a.timestamp <= timestamp
    ensures OnSchedule(Asert(a, index, timestamp), a.difficulty, Ahead(a, index, timestamp))
  {
    var ideal := (index - a.height) * TARGET_BLOCK_TIME_SECS;
    assert ideal % U64_LIMIT == ideal;
    assert ideal as real - (timestamp - a.timestamp) as real == Ahead(a, index, timestamp) as real;
  }

  // Where that is not the schedule: a timestamp before the anchor's counts as the
  // anchor's, and the product of index and spacing wraps at 2^64.
  lemma AdjustsAtTheEdges(a: Anchor, index: nat, timestamp: u64)
    requires a.height <= index
    ensures OnSchedule(Asert(a, index, timestamp), a.difficulty,
                       60 * (index - a.height) % U64_LIMIT - Max(timestamp - a.timestamp, 0))
  {
    var ideal, actual := 60 * (index - a.height) % U64_LIMIT, Max(timestamp - a.timestamp, 0);
    assert ideal as real - actual as real == (ideal - actual) as real;
  }

  // `d` is within a billionth of what is due.
  ghost predicate NearSchedule(d: real, start: real, ahead: int) {
    exists due :: OnSchedule(due, start, ahead) && -0.000000001 <= d - due <= 0.000000001
  }

  lemma NearIsNearSchedule(d: real, a: Anchor, index: nat, timestamp: u64)
    requires a.height <= index && Near(d, Asert(a, index, timestamp))
    ensures NearSchedule(d, a.difficulty, 60 * (index - a.height) % U64_LIMIT - Max(timestamp - a.timestamp, 0))
  {
    hide Asert, OnSchedule;
    AdjustsAtTheEdges(a, index, timestamp);
    NearDue(d, Asert(a, index, timestamp), a.difficulty,
            60 * (index - a.height) % U64_LIMIT - Max(timestamp - a.timestamp, 0));
  }

  lemma NearDue(d: real, due: real, start: real, ahead: int)
    requires OnSchedule(due, start, ahead) && Near(d, due)
    ensures NearSchedule(d, start, ahead)
  {
    hide OnSchedule;
    assert OnSchedule(due, start, ahead);
  }

  // A later block is never due a higher difficulty.
  lemma ScheduleFalls(a: Anchor, index: nat, timestamp: u64, later: u64)
    requires a.height <= index && timestamp <= later
    ensures Asert(a, index, later) <= Asert(a, index, timestamp)
  {
    var ideal := ((index - a.height) * TARGET_BLOCK_TIME_SECS) % U64_LIMIT;
    var fast := ideal as real - SatSub(timestamp, a.timestamp) as real;
    var slow := ideal as real - SatSub(later, a.timestamp) as real;
    assert slow / ASERT_HALFLIFE_SECS <= fast / ASERT_HALFLIFE_SECS;
  }

  // Read off the chain: the difficulty at the tip is the initial one, one bit more or
  // less for every hour that the blocks since block 1 came faster or slower than one a
  // minute, to within a billionth. (Only after 2^64 minutes' worth of blocks does the
  // product of blocks and spacing wrap.)
  lemma DifficultyIsExact(c: Crypto, cfg: Config, chain: seq<Block>) returns (due: real)
    requires ValidChain(c, cfg, chain) && |chain| > 1 && 8.0 <= cfg.difficulty <= 127.0
    ensures OnSchedule(due, cfg.difficulty,
                       60 * (|chain| - 2) % 0x1_0000_0000_0000_0000 - (Last(chain).timestamp - chain[1].timestamp))
    ensures -0.000000001 <= Derived(c, cfg, chain).difficulty - due <= 0.000000001
  {
    hide ValidChain, Derived, Asert, OnSchedule;
    DifficultyFollowsSchedule(c, cfg, chain);
    if |chain| > 2 {
      LaterThanAnchor(c, cfg, chain, |chain| - 1);
    }
    due := Asert(AnchorOf(cfg, chain), |chain| - 1, Last(chain).timestamp);
    AdjustsAtTheEdges(AnchorOf(cfg, chain), |chain| - 1, Last(chain).timestamp);
  }

  // The difficulty a block is held to before it is replayed. On a chain that adjusts,
  // one that claims a height from 2 on and whose predecessor is in sight is held to the
  // schedule at that predecessor, counted by the height it claims; any other to the tip's.
  lemma HeldTo(c: Crypto, cfg: Config, chain: seq<Block>, previous: Option<u64>, index: u64)
    requires ValidChain(c, cfg, chain)
    ensures var held := Expected(Derived(c, cfg, chain), previous, index);
      if |chain| == 1 || cfg.difficulty < 8.0 || previous.None? || index < 2 then
        held == Derived(c, cfg, chain).difficulty
      else
        OnSchedule(held, cfg.difficulty,
                   60 * (index - 2) % 0x1_0000_0000_0000_0000 - Max(previous.value - chain[1].timestamp, 0))
  {
    assert |chain| > 0;
    hide ValidChain, Derived, Expected, OnSchedule;
    AnchorIsBlockOne(c, cfg, chain);
    if |chain| == 1 {
      HeldWithoutAnchor(Derived(c, cfg, chain), previous, index);
    } else {
      HeldByAnchor(Derived(c, cfg, chain), AnchorOf(cfg, chain), previous, index);
    }
  }

  lemma HeldWithoutAnchor(l: Ledger, previous: Option<u64>, index: u64)
    requires l.anchor == None
    ensures Expected(l, previous, index) == l.difficulty
  {
  }

  lemma HeldByAnchor(l: Ledger, a: Anchor, previous: Option<u64>, index: u64)
    requires l.anchor == Some(a) && a.height == 1
    ensures var held := Expected(l, previous, index);
      if a.difficulty < 8.0 || previous.None? || index < 2 then held == l.difficulty
      else
        OnSchedule(held, a.difficulty,
                   60 * (index - 2) % 0x1_0000_0000_0000_0000 - Max(previous.value - a.timestamp, 0))
  {
    hide Asert, OnSchedule;
    if previous.Some? && index >= 2 {
      AdjustsAtTheEdges(a, index - 1, previous.value);
    }
  }

  // -------------------------------------------------------------------------
  // Chain work
  // -------------------------------------------------------------------------

  // How many hashes a difficulty asks for on average, short of its fraction.
  function HashesFor(d: real): nat {
    if d < 1.0 then 1 else if d < 128.0 then Pow2(d.Floor) else U128_MAX
  }

  // The hashes the difficulties of the chain ask for, block by block.
  ghost function HashesDue(c: Crypto, cfg: Config, chain: seq<Block>): nat
    requires |chain| > 0
  {
    if |chain| == 1 then 0
    else HashesDue(c, cfg, Front(chain)) + HashesFor(Derived(c, cfg, Front(chain)).difficulty)
  }

  lemma {:induction false} WorkIsHashesDue(c: Crypto, cfg: Config, chain: seq<Block>)
    requires ValidChain(c, cfg, chain)
    ensures Derived(c, cfg, chain).work == Min(HashesDue(c, cfg, chain), U128_MAX)
  {
    hide Stands, Process, Admissible, Shl128, Truncate, HashesFor;
    if |chain| > 1 {
      ValidFront(c, cfg, chain);
      WorkIsHashesDue(c, cfg, Front(chain));
      ShiftIsHashes(Derived(c, cfg, Front(chain)).difficulty);
      StepRecords(c, FullView(c, cfg, Front(chain)), Last(chain));
    }
  }

  lemma ShiftIsHashes(d: real)
    ensures Shl128(Truncate(d)) == HashesFor(d)
  {
    hide Pow2;
    assert Pow2(0) == 1 by {
      Pow2OfZero();
    }
  }

  lemma Pow2OfZero()
    ensures Pow2(0) == 1
  {
  }

  lemma {:induction false} Pow2Grows(m: nat, n: nat)
    requires m <= n
    ensures Pow2(m) <= Pow2(n)
  {
    if m < n {
      Pow2Grows(m, n - 1);
    }
  }

  // Every block stands for at least 2^8 hashes.
  lemma {:induction false} WorkGrows(c: Crypto, cfg: Config, chain: seq<Block>)
    requires ValidChain(c, cfg, chain) && MIN_DIFFICULTY <= cfg.difficulty <= MAX_DIFFICULTY
    ensures HashesDue(c, cfg, chain) >= 256 * (|chain| - 1)
  {
    hide Stands, Process, Admissible, Asert;
    if |chain| > 1 {
      ValidFront(c, cfg, chain);
      WorkGrows(c, cfg, Front(chain));
      var d := Derived(c, cfg, Front(chain)).difficulty;
      if |chain| == 2 {
        AnchorIsBlockOne(c, cfg, Front(chain));
      } else {
        DifficultyFollowsSchedule(c, cfg, Front(chain));
      }
      AtLeast256(d);
    }
  }

  lemma AtLeast256(d: real)
    requires MIN_DIFFICULTY <= d
    ensures HashesFor(d) >= 256
  {
    Pow2Grows(8, d.Floor);
    assert Pow2(4) == 16 && Pow2(8) == 2 * Pow2(7) && Pow2(7) == 2 * Pow2(6) && Pow2(6) == 2 * Pow2(5);
  }
}
