/** What becomes of one more block, decided by chain, pool and clock. */
module Verdicts {
  import opened Prelude
  import opened Types
  import opened Consensus
  import opened Conservation
  import opened Replay
  import opened ForkChoice
  import opened AsertSchedule
  import opened Consistency
  import opened Decisions
  import opened BlockRules

  // The block may come next: it meets every rule, and is dated at most two minutes ahead.
  ghost predicate ComesNext(c: Crypto, cfg: Config, chain: seq<Block>, b: Block, now: nat)
    requires |chain| > 0
  {
    b.timestamp <= now + 120 && ByTheRules(c, chain, Derived(c, cfg, chain), b)
  }

  // It takes the next place, rightly or not.
  predicate AtTip(chain: seq<Block>, b: Block)
    requires |chain| > 0
  {
    b.index == |chain| && b.previousHash == chain[|chain| - 1].hash
  }

  // It may wait as an orphan: it bears its own hash, reaches at most ten blocks beyond
  // the tip, is not too full, and carries the work it is held to.
  ghost predicate MayWait(c: Crypto, cfg: Config, s: Standing, b: Block)
    requires |s.chain| > 0
  {
    && b.hash == c.headerHash(b.HeaderOf()) && b.index <= |s.chain| + 10 && |TransfersOf(b.transactions)| <= 240
    && c.meets(b.hash, Expected(Derived(c, cfg, s.chain), SeenTime(s, b.previousHash), b.index))
  }

  // A run of pooled blocks could replace what lies above block `a`: it hangs off `a`,
  // which is not pooled, each block of it on the one before, and nothing pooled on the
  // last; and it carries more work than all that lies above `a`. Below the window its
  // first block must claim the height after `a`.
  ghost predicate Rival(s: Standing, fork: seq<Block>, a: nat) {
    && |fork| > 0 && a < |s.chain| && fork[0].previousHash == s.chain[a].hash && fork[0].previousHash !in s.pool
    && (forall i :: 0 <= i < |fork| ==> fork[i].hash in s.pool && s.pool[fork[i].hash] == fork[i])
    && (forall i :: 0 < i < |fork| ==> fork[i].previousHash == fork[i - 1].hash)
    && (forall h :: h in s.pool ==> s.pool[h].previousHash != fork[|fork| - 1].hash)
    && (a < s.start ==> fork[0].index == a + 1)
    && Min(Work(fork), U128_MAX) > Min(Work(s.chain[a + 1..]), U128_MAX)
  }

  lemma RivalIsCandidate(s: Standing, fork: seq<Block>, a: nat)
    ensures Rival(s, fork, a) <==> Candidate(s, fork, a)
  {
    hide Work, SatWork;
    SatWorkIsCapped(fork);
    if a < |s.chain| {
      SatWorkIsCapped(s.chain[a + 1..]);
    }
  }

  ghost predicate NoRival(s: Standing) {
    forall fork, a :: !Rival(s, fork, a)
  }

  // No rival carries more work.
  ghost predicate StrongestRival(s: Standing, fork: seq<Block>, a: nat) {
    Rival(s, fork, a) && forall f, d :: Rival(s, f, d) ==> Min(Work(f), U128_MAX) <= Min(Work(fork), U128_MAX)
  }

  lemma RivalsAreCandidates(s: Standing)
    ensures NoRival(s) <==> NothingHeavier(s)
    ensures forall fork, a :: StrongestRival(s, fork, a) <==> Heaviest(s, fork, a)
  {
    hide Candidate, Rival, Work, SatWork;
    forall fork, a ensures Rival(s, fork, a) <==> Candidate(s, fork, a) {
      RivalIsCandidate(s, fork, a);
    }
    forall fork ensures SatWork(fork) == Min(Work(fork), U128_MAX) {
      SatWorkIsCapped(fork);
    }
  }

  lemma MayWaitIsPlausible(c: Crypto, cfg: Config, s: Standing, b: Block)
    requires |s.chain| > 0
    ensures MayWait(c, cfg, s, b) <==> Plausible(c, cfg, s, b)
  {
    hide Derived, SeenTime, Expected, TransfersOf;
    TransfersCounted(b.transactions);
  }

  // With room in the supply the verdict on the next block is that of the rules and the clock.
  lemma VerdictIsRules(c: Crypto, cfg: Config, chain: seq<Block>, b: Block, now: nat)
    requires ValidChain(c, cfg, chain) && Roomy(cfg, chain)
    ensures Judge(c, FullView(c, cfg, chain), b, now) == if ComesNext(c, cfg, chain, b, now) then Extended else Refused
  {
    hide ValidChain, Derived, Admissible, Process, ByTheRules, Booked;
    RulesAdmit(c, cfg, chain, b);
    NeverAborts(c, cfg, chain, b);
  }

  // The blocks of a list that a replay takes: up to the first that is not acceptable
  // where it stands, or is dated more than two minutes after the clock at its turn.
  ghost predicate Longest(c: Crypto, cfg: Config, list: seq<Block>, now: nat, later: Clock, taken: seq<Block>) {
    && IsPrefix(taken, list)
    && forall k :: 0 < k <= |list| ==> (k <= |taken| <==> GoodUpTo(c, cfg, list, now, later, k))
  }

  ghost predicate GoodUpTo(c: Crypto, cfg: Config, list: seq<Block>, now: nat, later: Clock, k: int) {
    && 0 < k <= |list| && ValidChain(c, cfg, list[..k])
    && forall n :: 0 < n < k ==> list[n].timestamp <= now + later(n) + 120
  }

  lemma AcceptedIsLongest(c: Crypto, cfg: Config, list: seq<Block>, now: nat, later: Clock)
    requires |list| > 0 && list[0].index == 0
    ensures Longest(c, cfg, list, now, later, Accepted(c, cfg, list, now, later))
  {
    hide Reach, GoodUpTo;
    forall k | 0 < k <= |list|
      ensures k <= |Accepted(c, cfg, list, now, later)| <==> GoodUpTo(c, cfg, list, now, later, k)
    {
      ReachesGood(c, cfg, list, now, later, k);
    }
  }

  lemma ReachesGood(c: Crypto, cfg: Config, list: seq<Block>, now: nat, later: Clock, k: nat)
    requires |list| > 0 && list[0].index == 0 && 0 < k <= |list|
    ensures k <= Reach(c, cfg, list, 1, now, later) <==> GoodUpTo(c, cfg, list, now, later, k)
  {
    hide JudgeAt, Stands;
    var r := Reach(c, cfg, list, 1, now, later);
    if k <= r {
      forall n | 0 < n < k ensures Stands(c, cfg, list[..k], n) && list[n].timestamp <= now + later(n) + 120 {
        ReachAccepts(c, cfg, list, 1, now, later, n);
        JudgeExtendsIff(c, cfg, list, n, now, later);
        StandsInPrefix(c, cfg, list, k, n);
      }
    } else if GoodUpTo(c, cfg, list, now, later, k) {
      ReachStops(c, cfg, list, 1, now, later);
      JudgeExtendsIff(c, cfg, list, r, now, later);
      StandsInPrefix(c, cfg, list, k, r);
    }
  }

  // Where the node stands once the block is dealt with.
  ghost predicate DealtWith(c: Crypto, cfg: Config, s: Standing, b: Block, now: nat, later: Clock, m: Move, t: Standing)
    requires |s.chain| > 0
  {
    if ComesNext(c, cfg, s.chain, b, now) then
      // It extends the chain.
      m == Extends && t == Standing(s.chain + [b], Max(s.start, |s.chain| + 1 - 100), s.pool)
    else if AtTip(s.chain, b) || !MayWait(c, cfg, s, b) then
      // It is refused, and nothing changes.
      m == Refuses && t == s
    else
      // It is kept as an orphan, and the strongest rival, if there is one, replayed.
      exists pool ::
        && OrphanAdmitted(s.pool, pool, b)
        && if NoRival(s.(pool := pool)) then m == Waits(pool) && t == s.(pool := pool)
           else
             && m.Switches? && m.pool == pool && StrongestRival(s.(pool := pool), m.fork, m.a)
             && Longest(c, cfg, s.chain[..m.a + 1] + m.fork, now, later, t.chain)
             && t == Standing(t.chain, Max(0, |t.chain| - 100), map[])
  }

  // While storage holds the chain and the supply has room, what the node may do is
  // exactly that, and no block kills it.
  lemma MoveIsDecided(c: Crypto, cfg: Config, s: Standing, b: Block, now: nat, later: Clock, m: Move)
    requires |s.chain| > 0 && WellPlaced(c, cfg, s) && HasRoom(cfg, s.chain) && May(c, cfg, s, b, now, later, m)
    ensures DealtWith(c, cfg, s, b, now, later, m, Settled(c, cfg, s, b, now, later, m))
  {
    RoomKeepsAlive(c, cfg, s, b, now, later, m);
    RoomIsRoomy(cfg, s.chain);
    hide *;
    PlacedIsValid(c, cfg, s);
    VerdictIsRules(c, cfg, s.chain, b, now);
    MayWaitIsPlausible(c, cfg, s, b);
    AtTipIs(s, b);
    if m.Waits? || m.Switches? {
      RivalsAreCandidates(s.(pool := m.pool));
    }
    if m.Switches? {
      SwitchEnds(c, cfg, s, b, now, later, m);
    }
    AdmittedMeans(c, cfg, s, b, now, later, m);
    SettledMeans(c, cfg, s, b, now, later, m);
    DealtWithIntro(c, cfg, s, b, now, later, m, Settled(c, cfg, s, b, now, later, m));
  }

  lemma RoomIsRoomy(cfg: Config, chain: seq<Block>)
    requires |chain| > 0 && HasRoom(cfg, chain)
    ensures Roomy(cfg, chain)
  {
    hide Supply;
  }

  lemma PlacedIsValid(c: Crypto, cfg: Config, s: Standing)
    requires WellPlaced(c, cfg, s)
    ensures ValidChain(c, cfg, s.chain)
  {
  }

  lemma AtTipIs(s: Standing, b: Block)
    requires |s.chain| > 0
    ensures AtTip(s.chain, b) <==> ExtendsTip(s, b)
  {
  }

  // What the move says about the verdict and the pool.
  lemma AdmittedMeans(c: Crypto, cfg: Config, s: Standing, b: Block, now: nat, later: Clock, m: Move)
    requires |s.chain| > 0 && May(c, cfg, s, b, now, later, m)
    ensures var v := Judge(c, FullView(c, cfg, s.chain), b, now);
      && (m.Extends? ==> v.Extended?)
      && (m.Refuses? ==> v.Refused? && (ExtendsTip(s, b) || !Plausible(c, cfg, s, b)))
      && (m.Waits? || m.Switches? ==>
            v.Refused? && !ExtendsTip(s, b) && Plausible(c, cfg, s, b) && OrphanAdmitted(s.pool, m.pool, b))
    ensures m.Waits? ==> NothingHeavier(s.(pool := m.pool))
    ensures m.Switches? ==> Heaviest(s.(pool := m.pool), m.fork, m.a)
  {
    hide Judge, Derived, ExtendsTip, Plausible, OrphanAdmitted, NothingHeavier, Heaviest, Dies, Offered;
  }

  lemma SettledMeans(c: Crypto, cfg: Config, s: Standing, b: Block, now: nat, later: Clock, m: Move)
    requires |s.chain| > 0
    ensures var t := Settled(c, cfg, s, b, now, later, m);
      && (m.Extends? ==> t == Standing(s.chain + [b], Max(s.start, |s.chain| + 1 - 100), s.pool))
      && (m.Refuses? ==> t == s)
      && (m.Waits? ==> t == s.(pool := m.pool))
      && (m.Switches? && m.a < |s.chain| ==>
            && t.chain == Accepted(c, cfg, Branch(s.chain, m.a, m.fork), now, later)
            && t == Standing(t.chain, Max(0, |t.chain| - 100), map[]))
  {
    hide Reach, Branch;
  }

  lemma SwitchEnds(c: Crypto, cfg: Config, s: Standing, b: Block, now: nat, later: Clock, m: Move)
    requires |s.chain| > 0 && WellPlaced(c, cfg, s) && May(c, cfg, s, b, now, later, m) && m.Switches?
    ensures m.a < |s.chain|
    ensures Longest(c, cfg, s.chain[..m.a + 1] + m.fork, now, later,
                    Accepted(c, cfg, Branch(s.chain, m.a, m.fork), now, later))
  {
    assert s.chain[0].index == 0 && m.a < |s.chain| by {
      hide ValidChain, Derived, Judge, Plausible, Dies;
      HeaviestAttaches(s, b, m.pool, m.fork, m.a);
      PlacedIsValid(c, cfg, s);
      IndicesAreHeights(c, cfg, s.chain, 0);
    }
    hide May, Longest, Accepted;
    AcceptedIsLongest(c, cfg, Branch(s.chain, m.a, m.fork), now, later);
  }

  lemma HeaviestAttaches(s: Standing, b: Block, pool: Pool, fork: seq<Block>, a: nat)
    ensures Heaviest(s.(pool := pool), fork, a) ==> a < |s.chain|
  {
  }

  lemma DealtWithIntro(c: Crypto, cfg: Config, s: Standing, b: Block, now: nat, later: Clock, m: Move, t: Standing)
    requires |s.chain| > 0 && !m.DiesOnBlock? && !m.DiesOnFork?
    requires m.Extends? ==>
      ComesNext(c, cfg, s.chain, b, now) && t == Standing(s.chain + [b], Max(s.start, |s.chain| + 1 - 100), s.pool)
    requires m.Refuses? ==>
      !ComesNext(c, cfg, s.chain, b, now) && (AtTip(s.chain, b) || !MayWait(c, cfg, s, b)) && t == s
    requires m.Waits? || m.Switches? ==>
      && !ComesNext(c, cfg, s.chain, b, now) && !AtTip(s.chain, b) && MayWait(c, cfg, s, b)
      && OrphanAdmitted(s.pool, m.pool, b)
    requires m.Waits? ==> NoRival(s.(pool := m.pool)) && t == s.(pool := m.pool)
    requires m.Switches? ==>
      && StrongestRival(s.(pool := m.pool), m.fork, m.a) && m.a < |s.chain|
      && Longest(c, cfg, s.chain[..m.a + 1] + m.fork, now, later, t.chain)
      && t == Standing(t.chain, Max(0, |t.chain| - 100), map[])
    ensures DealtWith(c, cfg, s, b, now, later, m, t)
  {
    hide ComesNext, MayWait, Longest, OrphanAdmitted, Rival;
  }
}
