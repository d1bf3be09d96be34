/** The life of a ticket and of the pot over whole chains. */
module Lottery {
  import opened Prelude
  import opened Types
  import opened Consensus
  import opened Conservation
  import opened Replay

  // Tickets earned by the blocks at [lo, hi), oldest first.
  function TicketsEarned(chain: seq<Block>, lo: nat, hi: nat): seq<Ticket>
    requires lo <= hi <= |chain|
  {
    if lo == hi then [] else TicketsEarned(chain, lo, hi - 1) + Issued(chain[hi - 1])
  }

  // The oldest block whose ticket can still be pending on top of `height` blocks.
  // Genesis earns nothing.
  function Oldest(height: nat): nat {
    Max(1, height - REVEAL_BLOCKS)
  }

  ghost predicate Indexed(chain: seq<Block>) {
    forall n :: 0 <= n < |chain| ==> chain[n].index == n
  }

  lemma ValidIsIndexed(c: Crypto, cfg: Config, chain: seq<Block>)
    requires ValidChain(c, cfg, chain)
    ensures Indexed(chain)
  {
    hide Stands;
    forall n | 0 <= n < |chain| ensures chain[n].index == n {
      IndicesAreHeights(c, cfg, chain, n);
    }
  }

  // Heights lie in [lo, hi) and increase strictly.
  ghost predicate RisingWithin(ts: seq<Ticket>, lo: nat, hi: nat) {
    Rising(ts) && forall i :: 0 <= i < |ts| ==> lo <= ts[i].createdHeight < hi
  }

  lemma RisingAppend(ts: seq<Ticket>, t: Ticket, lo: nat, hi: nat)
    requires RisingWithin(ts, lo, hi) && lo <= hi == t.createdHeight
    ensures RisingWithin(ts + [t], lo, hi + 1)
  {
    var us := ts + [t];
    forall i, j | 0 <= i < j < |us| ensures us[i].createdHeight < us[j].createdHeight {
      assert us[i] == ts[i];
    }
  }

  lemma {:induction false} EarnedHeights(chain: seq<Block>, lo: nat, hi: nat)
    requires lo <= hi <= |chain| && Indexed(chain)
    ensures var ts := TicketsEarned(chain, lo, hi); |ts| <= hi - lo && RisingWithin(ts, lo, hi)
  {
    if lo < hi {
      EarnedHeights(chain, lo, hi - 1);
      var ts := TicketsEarned(chain, lo, hi - 1);
      var b := chain[hi - 1];
      if EarnsTicket(b) {
        RisingAppend(ts, Ticket(b.Miner().value, b.index), lo, hi - 1);
      } else {
        assert ts + [] == ts;
      }
    }
  }

  lemma {:induction false} EarnedSplit(chain: seq<Block>, lo: nat, hi: nat)
    requires lo < hi <= |chain|
    ensures TicketsEarned(chain, lo, hi) == Issued(chain[lo]) + TicketsEarned(chain, lo + 1, hi)
  {
    hide Issued;
    if lo + 1 < hi {
      EarnedSplit(chain, lo, hi - 1);
      var first, middle, last := Issued(chain[lo]), TicketsEarned(chain, lo + 1, hi - 1), Issued(chain[hi - 1]);
      assert TicketsEarned(chain, lo + 1, hi) == middle + last;
      assert (first + middle) + last == first + (middle + last);
    } else {
      assert TicketsEarned(chain, lo, lo) == [];
    }
  }

  lemma {:induction false} EarnedPrefix(chain: seq<Block>, n: nat, lo: nat, hi: nat)
    requires lo <= hi <= n <= |chain|
    ensures TicketsEarned(chain[..n], lo, hi) == TicketsEarned(chain, lo, hi)
  {
    if lo < hi {
      EarnedPrefix(chain, n, lo, hi - 1);
    }
  }

  lemma {:induction false} SplitAppend(ts: seq<Ticket>, us: seq<Ticket>, index: nat)
    ensures Due(ts + us, index) == Due(ts, index) + Due(us, index)
    ensures NotDue(ts + us, index) == NotDue(ts, index) + NotDue(us, index)
  {
    if us == [] {
      assert ts + us == ts;
    } else {
      hide IsDue;
      SplitAppend(ts, Front(us), index);
      assert Front(ts + us) == ts + Front(us);
      assert Last(ts + us) == Last(us);
      assert Due(ts, index) + (Due(Front(us), index) + (if IsDue(Last(us), index) then [Last(us)] else []))
        == Due(ts, index) + Due(Front(us), index) + (if IsDue(Last(us), index) then [Last(us)] else []);
    }
  }

  lemma DueLast(ts: seq<Ticket>, index: nat)
    requires ts != []
    ensures Due(ts, index) == Due(Front(ts), index) + if IsDue(Last(ts), index) then [Last(ts)] else []
    ensures NotDue(ts, index) == NotDue(Front(ts), index) + if IsDue(Last(ts), index) then [] else [Last(ts)]
  {
  }

  lemma {:induction false} NoneDue(ts: seq<Ticket>, index: nat)
    requires forall i :: 0 <= i < |ts| ==> !IsDue(ts[i], index)
    ensures Due(ts, index) == [] && NotDue(ts, index) == ts
  {
    if ts != [] {
      DueLast(ts, index);
      hide Due, NotDue, IsDue;
      assert !IsDue(Last(ts), index);
      NoneDue(Front(ts), index);
      assert ts == Front(ts) + [Last(ts)];
    }
  }

  lemma AllDue(ts: seq<Ticket>, index: nat)
    requires |ts| <= 1 && forall i :: 0 <= i < |ts| ==> IsDue(ts[i], index)
    ensures Due(ts, index) == ts && NotDue(ts, index) == []
  {
    if |ts| == 1 {
      assert Front(ts) == [] && Last(ts) == ts[0];
    }
  }

  // Tickets younger than REVEAL_BLOCKS are not due.
  lemma YoungAreNotDue(chain: seq<Block>, lo: nat)
    requires Indexed(chain) && lo <= |chain| < lo + REVEAL_BLOCKS
    ensures var ts := TicketsEarned(chain, lo, |chain|); Due(ts, |chain|) == [] && NotDue(ts, |chain|) == ts
  {
    hide TicketsEarned, Due, NotDue, Indexed, Rising;
    EarnedHeights(chain, lo, |chain|);
    NoneDue(TicketsEarned(chain, lo, |chain|), |chain|);
  }

  lemma MaturedIsDue(chain: seq<Block>)
    requires Indexed(chain) && |chain| > REVEAL_BLOCKS
    ensures var ts := Issued(chain[|chain| - REVEAL_BLOCKS]); Due(ts, |chain|) == ts && NotDue(ts, |chain|) == []
  {
    hide Due, NotDue;
    AllDue(Issued(chain[|chain| - REVEAL_BLOCKS]), |chain|);
  }

  lemma PartitionMature(chain: seq<Block>, lo: nat)
    requires Indexed(chain) && lo + REVEAL_BLOCKS == |chain| && lo > 0
    ensures var ts := TicketsEarned(chain, lo, |chain|);
      && Due(ts, |chain|) == Issued(chain[lo])
      && NotDue(ts, |chain|) == TicketsEarned(chain, lo + 1, |chain|)
  {
    hide TicketsEarned, Due, NotDue, Issued, Indexed;
    var h := |chain|;
    var mature, young := Issued(chain[lo]), TicketsEarned(chain, lo + 1, h);
    EarnedSplit(chain, lo, h);
    SplitAppend(mature, young, h);
    MaturedIsDue(chain);
    YoungAreNotDue(chain, lo + 1);
    assert mature + [] == mature && [] + young == young;
  }

  // What the settlement partition does at the tip: it takes out exactly the
  // ticket of the block REVEAL_BLOCKS back, if that block earned one.
  lemma PartitionAtTip(chain: seq<Block>)
    requires |chain| > 0 && Indexed(chain)
    ensures var h := |chain|; var ts := TicketsEarned(chain, Oldest(h), h);
      && Due(ts, h) == (if h > REVEAL_BLOCKS then Issued(chain[h - REVEAL_BLOCKS]) else [])
      && NotDue(ts, h) == TicketsEarned(chain, Oldest(h + 1), h)
  {
    hide TicketsEarned, Due, NotDue, Issued, Indexed;
    if |chain| > REVEAL_BLOCKS {
      PartitionMature(chain, |chain| - REVEAL_BLOCKS);
    } else {
      YoungAreNotDue(chain, 1);
    }
  }

  // The pending list is a function of the last REVEAL_BLOCKS blocks alone.
  lemma {:induction false} PendingIsEarned(c: Crypto, cfg: Config, chain: seq<Block>)
    requires ValidChain(c, cfg, chain)
    ensures Derived(c, cfg, chain).tickets == TicketsEarned(chain, Oldest(|chain|), |chain|)
  {
    hide Stands, Accepts, Process;
    if |chain| > 1 {
      ValidFront(c, cfg, chain);
      ValidIsIndexed(c, cfg, chain);
      var front := Front(chain);
      PendingIsEarned(c, cfg, front);
      PartitionAtTip(front);
      StepTickets(c, cfg, chain);
      EarnedPrefix(chain, |front|, Oldest(|chain|), |front|);
    }
  }

  lemma StepTickets(c: Crypto, cfg: Config, chain: seq<Block>)
    requires ValidChain(c, cfg, chain) && |chain| > 1
    ensures Derived(c, cfg, chain).tickets ==
      NotDue(Derived(c, cfg, Front(chain)).tickets, |chain| - 1) + Issued(Last(chain))
  {
    ValidFront(c, cfg, chain);
    StepRecords(c, FullView(c, cfg, Front(chain)), Last(chain));
    IndicesAreHeights(c, cfg, chain, |chain| - 1);
  }

  // Pending tickets are at most REVEAL_BLOCKS, strictly increasing in height,
  // and all from the last REVEAL_BLOCKS blocks.
  lemma PendingIsBounded(c: Crypto, cfg: Config, chain: seq<Block>)
    requires ValidChain(c, cfg, chain)
    ensures var ts := Derived(c, cfg, chain).tickets;
      |ts| <= REVEAL_BLOCKS && RisingWithin(ts, Oldest(|chain|), |chain|)
  {
    PendingIsEarned(c, cfg, chain);
    ValidIsIndexed(c, cfg, chain);
    EarnedHeights(chain, Oldest(|chain|), |chain|);
  }

  lemma PendingRises(c: Crypto, cfg: Config, chain: seq<Block>)
    requires ValidChain(c, cfg, chain)
    ensures Rising(Derived(c, cfg, chain).tickets)
  {
    hide ValidChain, Derived;
    PendingIsBounded(c, cfg, chain);
  }

  // The tickets block `n` settles.
  ghost function SettledAt(c: Crypto, cfg: Config, chain: seq<Block>, n: nat): seq<Ticket>
    requires 0 < n <= |chain|
  {
    Due(Derived(c, cfg, chain[..n]).tickets, n)
  }

  lemma SettledIsIssued(c: Crypto, cfg: Config, chain: seq<Block>, n: nat)
    requires ValidChain(c, cfg, chain) && 0 < n <= |chain|
    ensures SettledAt(c, cfg, chain, n) == if n > REVEAL_BLOCKS then Issued(chain[n - REVEAL_BLOCKS]) else []
  {
    hide ValidChain, Derived, Due, NotDue, Issued, TicketsEarned;
    ValidPrefix(c, cfg, chain, n);
    ValidIsIndexed(c, cfg, chain[..n]);
    PendingIsEarned(c, cfg, chain[..n]);
    PartitionAtTip(chain[..n]);
  }

  // Block `n` settles the ticket of block n - REVEAL_BLOCKS and no other, so a
  // ticket earned at H settles exactly once, at H + REVEAL_BLOCKS, and no block
  // settles two.
  lemma SettledExactlyOnce(c: Crypto, cfg: Config, chain: seq<Block>, n: nat)
    requires ValidChain(c, cfg, chain) && 0 < n <= |chain|
    ensures SettledAt(c, cfg, chain, n) == if n > REVEAL_BLOCKS then Issued(chain[n - REVEAL_BLOCKS]) else []
    ensures forall h :: 0 < h < |chain| && EarnsTicket(chain[h]) ==>
      (Ticket(chain[h].Miner().value, h) in SettledAt(c, cfg, chain, n) <==> n == h + REVEAL_BLOCKS)
  {
    hide ValidChain, SettledAt, EarnsTicket, Block.Miner;
    SettledIsIssued(c, cfg, chain, n);
    ValidIsIndexed(c, cfg, chain);
  }

  // -------------------------------------------------------------------------
  // The odds
  // -------------------------------------------------------------------------

  // The buckets that draw `tier`.
  function Buckets(tier: Tier): set<nat> {
    set b | 0 <= b < PPM && TierOf(b) == tier
  }

  lemma {:induction false} TierSize(lo: nat, hi: nat, tier: Tier)
    requires lo <= hi && forall b :: lo <= b < hi ==> TierOf(b) == tier
    ensures |set b: nat | lo <= b < hi && TierOf(b) == tier| == hi - lo
    decreases hi - lo
  {
    if lo == hi {
      assert (set b: nat | lo <= b < hi && TierOf(b) == tier) == {};
    } else {
      TierSize(lo, hi - 1, tier);
      assert TierOf(hi - 1) == tier;
      assert (set b: nat | lo <= b < hi && TierOf(b) == tier) ==
        (set b: nat | lo <= b < hi - 1 && TierOf(b) == tier) + {hi - 1};
    }
  }

  // How many of the million buckets draw each tier.
  lemma Odds()
    ensures |Buckets(NoWin)| == 620_000 && |Buckets(Small)| == 362_500 && |Buckets(Medium)| == 16_700
    ensures |Buckets(Large)| == 700 && |Buckets(Jackpot)| == 100
  {
    TierSize(0, SMALL_BUCKET_START, NoWin);
    TierSize(SMALL_BUCKET_START, MEDIUM_BUCKET_START, Small);
    TierSize(MEDIUM_BUCKET_START, LARGE_BUCKET_START, Medium);
    TierSize(LARGE_BUCKET_START, JACKPOT_BUCKET_START, Large);
    TierSize(JACKPOT_BUCKET_START, PPM, Jackpot);
    assert Buckets(NoWin) == set b: nat | 0 <= b < SMALL_BUCKET_START && TierOf(b) == NoWin;
    assert Buckets(Small) == set b: nat | SMALL_BUCKET_START <= b < MEDIUM_BUCKET_START && TierOf(b) == Small;
    assert Buckets(Medium) == set b: nat | MEDIUM_BUCKET_START <= b < LARGE_BUCKET_START && TierOf(b) == Medium;
    assert Buckets(Large) == set b: nat | LARGE_BUCKET_START <= b < JACKPOT_BUCKET_START && TierOf(b) == Large;
    assert Buckets(Jackpot) == set b: nat | JACKPOT_BUCKET_START <= b < PPM && TierOf(b) == Jackpot;
  }

  // What the first `n` buckets pay out between them.
  function PaidByBuckets(n: nat, pot: u64): nat {
    if n == 0 then 0 else PaidByBuckets(n - 1, pot) + Prize(TierOf(n - 1), pot)
  }

  lemma {:induction false} PaidByTier(lo: nat, hi: nat, tier: Tier, pot: u64)
    requires lo <= hi && forall b :: lo <= b < hi ==> TierOf(b) == tier
    ensures PaidByBuckets(hi, pot) == PaidByBuckets(lo, pot) + (hi - lo) * Prize(tier, pot)
    decreases hi - lo
  {
    hide Prize, TierOf;
    if lo < hi {
      PaidByTier(lo, hi - 1, tier, pot);
      assert TierOf(hi - 1) == tier;
      Times(hi - lo, Prize(tier, pot));
    }
  }

  lemma Times(n: int, p: nat)
    ensures n * p == (n - 1) * p + p
  {
  }

  lemma PaidByAll(pot: u64)
    ensures PaidByBuckets(PPM, pot) ==
      362_500 * Prize(Small, pot) + 16_700 * Prize(Medium, pot) + 700 * Prize(Large, pot) + 100 * Prize(Jackpot, pot)
  {
    assert PaidByBuckets(0, pot) == 0 && Prize(NoWin, pot) == 0;
    hide PaidByBuckets, Prize;
    PaidByTier(0, SMALL_BUCKET_START, NoWin, pot);
    PaidByTier(SMALL_BUCKET_START, MEDIUM_BUCKET_START, Small, pot);
    PaidByTier(MEDIUM_BUCKET_START, LARGE_BUCKET_START, Medium, pot);
    PaidByTier(LARGE_BUCKET_START, JACKPOT_BUCKET_START, Large, pot);
    PaidByTier(JACKPOT_BUCKET_START, PPM, Jackpot, pot);
  }

  // Over its million equally likely buckets a ticket drains two millionths of the
  // pot: between 2.012, less the rounding, and 2.013.
  lemma ExpectedDrain(pot: u64)
    ensures 2012 * pot - 380_000_000 < 1000 * PaidByBuckets(PPM, pot) <= 2013 * pot
  {
    PaidByAll(pot);
    Floor(pot, SMALL_DIVISOR);
    Floor(pot, MEDIUM_DIVISOR);
    Floor(pot, LARGE_DIVISOR);
    Floor(pot, JACKPOT_DIVISOR);
    DrainBounds(pot, Prize(Small, pot), Prize(Medium, pot), Prize(Large, pot), Prize(Jackpot, pot));
  }

  lemma DrainBounds(pot: nat, s: nat, m: nat, l: nat, j: nat)
    requires pot - 400_000 < 400_000 * s <= pot && pot - 30_000 < 30_000 * m <= pot
    requires pot - 2_000 < 2_000 * l <= pot && pot - 500 < 500 * j <= pot
    ensures 2012 * pot - 380_000_000 < 1000 * (362_500 * s + 16_700 * m + 700 * l + 100 * j) <= 2013 * pot
  {
  }

  lemma Floor(pot: nat, n: nat)
    requires n > 0
    ensures pot - n < n * (pot / n) <= pot
  {
  }

  // -------------------------------------------------------------------------
  // The pot
  // -------------------------------------------------------------------------

  function Power(b: nat, n: nat): nat {
    if n == 0 then 1 else b * Power(b, n - 1)
  }

  lemma PrizeIsSmall(tier: Tier, pot: u64)
    ensures JACKPOT_DIVISOR * Prize(tier, pot) <= pot
  {
  }

  // One settlement takes at most one five-hundredth of the pot.
  lemma OneDrawAtMost(c: Crypto, blocks: seq<Block>, offset: nat, l: Ledger, due: seq<Ticket>)
    requires |due| <= 1
    ensures JACKPOT_DIVISOR * PaidOut(SettleAll(c, blocks, offset, l, due).1) <= l.pot
  {
    if due != [] {
      assert Front(due) == [];
      var tier := Draw(c, blocks, offset, Last(due));
      PrizeIsSmall(tier, l.pot);
      var ps := PayoutOf(l, Last(due), tier);
      assert [] + ps == ps;
      if ps != [] {
        assert Front(ps) == [];
      }
    }
  }

  lemma {:induction false} PayoutsAtMostDue(c: Crypto, blocks: seq<Block>, offset: nat, l: Ledger, due: seq<Ticket>)
    ensures |SettleAll(c, blocks, offset, l, due).1| <= |due|
  {
    if due != [] {
      PayoutsAtMostDue(c, blocks, offset, l, Front(due));
    }
  }

  // A block never pays more than one prize.
  lemma OnePayoutAtMost(c: Crypto, cfg: Config, chain: seq<Block>, n: nat)
    requires ValidChain(c, cfg, chain) && 0 < n < |chain|
    ensures |PayoutsAt(c, cfg, chain, n)| <= 1
  {
    hide Stands, Derived, SettleAll;
    SettledExactlyOnce(c, cfg, chain, n);
    IndicesAreHeights(c, cfg, chain, n);
    var l := Derived(c, cfg, chain[..n]);
    PayoutsAtMostDue(c, chain[..n], 0, l.(tickets := NotDue(l.tickets, n)), Due(l.tickets, n));
  }

  lemma StepPaysLittle(c: Crypto, cfg: Config, chain: seq<Block>)
    requires ValidChain(c, cfg, chain) && |chain| > 1
    ensures JACKPOT_DIVISOR * PaidOut(PayoutsAt(c, cfg, chain, |chain| - 1)) <= Derived(c, cfg, Front(chain)).pot
  {
    hide Stands, Derived;
    var n := |chain| - 1;
    assert chain[..n] == Front(chain);
    SettledExactlyOnce(c, cfg, chain, n);
    ValidFront(c, cfg, chain);
    IndicesAreHeights(c, cfg, chain, n);
    var l := Derived(c, cfg, Front(chain));
    OneDrawAtMost(c, Front(chain), 0, l.(tickets := NotDue(l.tickets, n)), Due(l.tickets, n));
  }

  // After n blocks the pot is still at least (499/500)^n of its seed.
  lemma {:induction false} PotNeverDrains(c: Crypto, cfg: Config, chain: seq<Block>)
    requires ValidChain(c, cfg, chain)
    ensures Power(500, |chain| - 1) * Derived(c, cfg, chain).pot >= Power(499, |chain| - 1) * cfg.pot
    ensures cfg.pot > 0 ==> Derived(c, cfg, chain).pot > 0
  {
    hide Stands, Process;
    if |chain| > 1 {
      var front := Front(chain);
      ValidFront(c, cfg, chain);
      PotNeverDrains(c, cfg, front);
      StepPaysLittle(c, cfg, chain);
      StepBooked(c, cfg, chain);
      var p: nat, q: nat := Derived(c, cfg, front).pot, Derived(c, cfg, chain).pot;
      assert 500 * q >= 499 * p;
      Scale(Power(500, |front| - 1), Power(499, |front| - 1), p, q, cfg.pot);
    }
  }

  lemma Scale(a: nat, b: nat, p: nat, q: nat, seed: nat)
    requires 500 * q >= 499 * p && a * p >= b * seed
    ensures (500 * a) * q >= (499 * b) * seed
  {
    assert (500 * a) * q == a * (500 * q) >= a * (499 * p) == 499 * (a * p) >= 499 * (b * seed) == (499 * b) * seed;
  }
}
