/** Restarting from a checkpoint: what the shortened window changes, and when it changes nothing. */
module Checkpoint {
  import opened Prelude
  import opened Types
  import opened Consensus
  import opened Conservation
  import opened Replay
  import opened Lottery
  import opened ForkChoice
  import opened Consistency
  import opened Decisions
  import opened Tables
  import opened Database
  import opened Persistence
  import opened Chain

  // The state of a node restored at block `h` after it has applied the blocks up to `n`.
  ghost function RestoredLedger(c: Crypto, cfg: Config, chain: seq<Block>, h: nat, n: nat): Ledger
    requires h < n <= |chain|
    decreases n
  {
    if n == h + 1 then Derived(c, cfg, chain[..n])
    else Next(c, View(chain[h..n - 1], h, RestoredLedger(c, cfg, chain, h, n - 1)), chain[n - 1])
  }

  ghost function RestoredView(c: Crypto, cfg: Config, chain: seq<Block>, h: nat, n: nat): View
    requires h < n <= |chain|
  {
    View(chain[h..n], h, RestoredLedger(c, cfg, chain, h, n))
  }

  // A block at height `n` settles no ticket from before the checkpoint.
  ghost predicate SettlesOnlyAfter(chain: seq<Block>, h: nat, n: nat)
    requires n <= |chain|
  {
    n > REVEAL_BLOCKS && n - REVEAL_BLOCKS < h ==> !EarnsTicket(chain[n - REVEAL_BLOCKS])
  }

  // From its own height on, the restored window names the same blocks.
  lemma RestoredHash(chain: seq<Block>, h: nat, n: nat, i: nat)
    requires h <= i < n <= |chain|
    ensures HashAt(chain[h..n], h, i) == HashAt(chain[..n], 0, i)
  {
  }

  lemma {:induction false} RestoredEntropy(chain: seq<Block>, h: nat, n: nat, start: nat, m: nat)
    requires h <= start && start + m <= n <= |chain|
    ensures Entropy(chain[h..n], h, start, m) == Entropy(chain[..n], 0, start, m)
  {
    if m > 0 {
      RestoredEntropy(chain, h, n, start, m - 1);
      RestoredHash(chain, h, n, start + m - 1);
    }
  }

  // A reveal window that reaches below the checkpoint loses its front: the draw
  // sees only the hashes from the checkpoint on.
  lemma {:induction false} TruncatedReveal(chain: seq<Block>, h: nat, n: nat, start: nat, m: nat)
    requires start <= h <= start + m <= n <= |chain|
    ensures Entropy(chain[h..n], h, start, m) == Entropy(chain[..n], 0, h, start + m - h)
  {
    if start + m == h {
      NoEntropyBelow(chain, h, n, start, m);
    } else {
      TruncatedReveal(chain, h, n, start, m - 1);
      RestoredHash(chain, h, n, start + m - 1);
    }
  }

  lemma {:induction false} NoEntropyBelow(chain: seq<Block>, h: nat, n: nat, start: nat, m: nat)
    requires start + m <= h <= n <= |chain|
    ensures Entropy(chain[h..n], h, start, m) == []
  {
    if m > 0 {
      NoEntropyBelow(chain, h, n, start, m - 1);
    }
  }

  lemma {:induction false} SettleSame(c: Crypto, chain: seq<Block>, h: nat, n: nat, l: Ledger, due: seq<Ticket>)
    requires h <= n <= |chain| && forall t :: t in due ==> IsDue(t, n) && t.createdHeight >= h
    ensures SettleAll(c, chain[h..n], h, l, due) == SettleAll(c, chain[..n], 0, l, due)
  {
    if due != [] {
      SettleSame(c, chain, h, n, l, Front(due));
      assert Last(due) in due;
      RestoredEntropy(chain, h, n, Last(due).createdHeight, REVEAL_BLOCKS);
    }
  }

  // Applying one block does the same to both, when it settles nothing older than the checkpoint.
  lemma SameStep(c: Crypto, chain: seq<Block>, h: nat, n: nat, l: Ledger, b: Block)
    requires h <= n <= |chain| && b.index == n && forall t :: t in Due(l.tickets, n) ==> t.createdHeight >= h
    ensures Process(c, View(chain[h..n], h, l), b) == Process(c, View(chain[..n], 0, l), b)
  {
    hide SettleAll, ApplyAll, SplitFees, Stamp, Conserves;
    DueAreDue(l.tickets, n);
    SettleSame(c, chain, h, n, l.(tickets := NotDue(l.tickets, n)), Due(l.tickets, n));
  }

  // Snapshot, restore and replay of the tail give the derived state of never
  // having restarted, as long as the tail settles no ticket from before the checkpoint.
  lemma {:induction false} CheckpointEquivalence(c: Crypto, cfg: Config, chain: seq<Block>, h: nat, n: nat)
    requires ValidChain(c, cfg, chain) && h < n <= |chain|
    requires forall k :: h < k < n ==> SettlesOnlyAfter(chain, h, k)
    ensures RestoredLedger(c, cfg, chain, h, n) == Derived(c, cfg, chain[..n])
  {
    hide ValidChain, Process, Derived;
    if n > h + 1 {
      CheckpointEquivalence(c, cfg, chain, h, n - 1);
      OneTailBlock(c, cfg, chain, h, n - 1);
    }
  }

  // Whatever block comes next is processed alike by both.
  lemma NextIsProcessedAlike(c: Crypto, cfg: Config, chain: seq<Block>, h: nat, n: nat, b: Block)
    requires ValidChain(c, cfg, chain) && h < n <= |chain| && SettlesOnlyAfter(chain, h, n) && b.index == n
    ensures Process(c, View(chain[h..n], h, Derived(c, cfg, chain[..n])), b) ==
      Process(c, FullView(c, cfg, chain[..n]), b)
  {
    hide ValidChain, Process, Derived, Due, NotDue, EarnsTicket;
    SettledExactlyOnce(c, cfg, chain, n);
    if n > REVEAL_BLOCKS {
      SettledHeights(c, cfg, chain, n);
    }
    SameStep(c, chain, h, n, Derived(c, cfg, chain[..n]), b);
  }

  lemma OneTailBlock(c: Crypto, cfg: Config, chain: seq<Block>, h: nat, n: nat)
    requires ValidChain(c, cfg, chain) && h < n < |chain| && SettlesOnlyAfter(chain, h, n)
    ensures Next(c, View(chain[h..n], h, Derived(c, cfg, chain[..n])), chain[n]) == Derived(c, cfg, chain[..n + 1])
    ensures Process(c, View(chain[h..n], h, Derived(c, cfg, chain[..n])), chain[n]) ==
      Process(c, FullView(c, cfg, chain[..n]), chain[n])
  {
    hide ValidChain, Process, SettlesOnlyAfter;
    assert Front(chain[..n + 1]) == chain[..n] && Last(chain[..n + 1]) == chain[n];
    assert Derived(c, cfg, chain[..n + 1]) == Next(c, FullView(c, cfg, chain[..n]), chain[n]);
    hide Derived;
    IndicesAreHeights(c, cfg, chain, n);
    NextIsProcessedAlike(c, cfg, chain, h, n, chain[n]);
  }

  lemma SettledHeights(c: Crypto, cfg: Config, chain: seq<Block>, n: nat)
    requires ValidChain(c, cfg, chain) && REVEAL_BLOCKS < n <= |chain|
    ensures forall t :: t in Issued(chain[n - REVEAL_BLOCKS]) ==> t.createdHeight == n - REVEAL_BLOCKS
  {
    IndicesAreHeights(c, cfg, chain, n - REVEAL_BLOCKS);
  }

  // -------------------------------------------------------------------------
  // What a truncated draw can change
  // -------------------------------------------------------------------------

  // The parts of the state no draw has a say in.
  ghost predicate SameRecords(l: Ledger, m: Ledger) {
    && Supply(l) == Supply(m)
    && l == m.(balances := l.balances, pot := l.pot)
  }

  lemma SameRecordsStep(c: Crypto, v: View, w: View, b: Block)
    requires SameRecords(v.ledger, w.ledger) && Process(c, v, b).Yields? && Process(c, w, b).Yields?
    ensures SameRecords(Process(c, v, b).ledger, Process(c, w, b).ledger)
  {
    hide Stamp, Supply;
    StepRecords(c, v, b);
    StepRecords(c, w, b);
    StampIsOwn(v.ledger, w.ledger, b);
    SupplyAdvances(c, v, b);
    SupplyAdvances(c, w, b);
    hide Process, Signatures, NotDue, Issued;
  }

  lemma SupplyAdvances(c: Crypto, v: View, b: Block)
    requires Process(c, v, b).Yields?
    ensures Supply(Process(c, v, b).ledger) == Supply(v.ledger) + b.Minted()
  {
    hide Settle, ApplyAll, SplitFees, Stamp, Sum;
    var settled := Settle(c, v, b.index).0;
    StampKeepsBooks(SplitFees(ApplyAll(settled, b.transactions).value, b), b);
  }

  // Old tickets or not: as long as the restored node aborts at none of them, the tail
  // leaves it with the confirmed signatures, pending tickets, difficulty, anchor, work
  // and total supply of never having restarted. Only how the supply is spread over
  // balances and pot can differ.
  lemma {:induction false} RestoredRecords(c: Crypto, cfg: Config, chain: seq<Block>, h: nat, n: nat)
    requires ValidChain(c, cfg, chain) && h < n <= |chain|
    requires forall k :: h < k < n ==> Process(c, RestoredView(c, cfg, chain, h, k), chain[k]).Yields?
    ensures SameRecords(RestoredLedger(c, cfg, chain, h, n), Derived(c, cfg, chain[..n]))
  {
    hide ValidChain, Process, Derived, SameRecords, RestoredLedger, RestoredView;
    if n == h + 1 {
      RecordsAtFirst(c, cfg, chain, h);
    } else {
      RestoredRecords(c, cfg, chain, h, n - 1);
      RecordsNext(c, cfg, chain, h, n - 1);
    }
  }

  lemma RecordsAtFirst(c: Crypto, cfg: Config, chain: seq<Block>, h: nat)
    requires h < |chain|
    ensures SameRecords(RestoredLedger(c, cfg, chain, h, h + 1), Derived(c, cfg, chain[..h + 1]))
  {
    hide Derived, Supply;
  }

  lemma RecordsNext(c: Crypto, cfg: Config, chain: seq<Block>, h: nat, n: nat)
    requires ValidChain(c, cfg, chain) && h < n < |chain|
    requires Process(c, RestoredView(c, cfg, chain, h, n), chain[n]).Yields?
    requires SameRecords(RestoredLedger(c, cfg, chain, h, n), Derived(c, cfg, chain[..n]))
    ensures SameRecords(RestoredLedger(c, cfg, chain, h, n + 1), Derived(c, cfg, chain[..n + 1]))
  {
    hide ValidChain, Process, SameRecords, Admissible;
    assert Front(chain[..n + 1]) == chain[..n] && Last(chain[..n + 1]) == chain[n];
    ValidStands(c, cfg, chain, n);
    SameRecordsStep(c, RestoredView(c, cfg, chain, h, n), FullView(c, cfg, chain[..n]), chain[n]);
  }

  // -------------------------------------------------------------------------
  // Acceptance on the shortened window
  // -------------------------------------------------------------------------

  // Whatever block comes next, the restored node judges it as the others do but for
  // the median of the few blocks it has kept. So it refuses a good block dated after
  // the others' median and not after its own, and takes a bad one the other way round.
  lemma RestoredJudges(c: Crypto, cfg: Config, chain: seq<Block>, h: nat, n: nat, b: Block)
    requires ValidChain(c, cfg, chain) && h < n <= |chain| && b.index == n
    requires forall k :: h < k <= n ==> SettlesOnlyAfter(chain, h, k)
    ensures RestoredView(c, cfg, chain, h, n).ledger == Derived(c, cfg, chain[..n])
    ensures
      (Accepts(c, RestoredView(c, cfg, chain, h, n), b) && b.timestamp > MedianTimePast(chain[..n])) <==>
        (Accepts(c, FullView(c, cfg, chain[..n]), b) && b.timestamp > MedianTimePast(chain[h..n]))
  {
    hide ValidChain, Derived, Process, MedianTimePast, WellFormed, PreValid, RestoredLedger, SettlesOnlyAfter;
    CheckpointEquivalence(c, cfg, chain, h, n);
    NextIsProcessedAlike(c, cfg, chain, h, n, b);
    assert Last(chain[h..n]) == Last(chain[..n]);
  }

  // `b` is what may come after `chain[..n]` but for its date.
  ghost predicate GoodButDate(c: Crypto, cfg: Config, chain: seq<Block>, n: nat, b: Block)
    requires 0 < n <= |chain|
  {
    var v := FullView(c, cfg, chain[..n]);
    && b.index == n && b.previousHash == chain[n - 1].hash && c.meets(b.hash, v.ledger.difficulty)
    && WellFormed(c, b) && PreValid(c, v.ledger, b.transactions) && Process(c, v, b).Yields?
  }

  // For a block that is right but for its date, the two nodes part exactly when the
  // date lies after one median and not after the other.
  lemma RestoredParts(c: Crypto, cfg: Config, chain: seq<Block>, h: nat, n: nat, b: Block)
    requires ValidChain(c, cfg, chain) && h < n <= |chain| && GoodButDate(c, cfg, chain, n, b)
    requires forall k :: h < k <= n ==> SettlesOnlyAfter(chain, h, k)
    ensures Accepts(c, FullView(c, cfg, chain[..n]), b) <==> b.timestamp > MedianTimePast(chain[..n])
    ensures Accepts(c, RestoredView(c, cfg, chain, h, n), b) <==> b.timestamp > MedianTimePast(chain[h..n])
  {
    hide ValidChain, Derived, Process, MedianTimePast, WellFormed, PreValid, RestoredLedger, SettlesOnlyAfter;
    CheckpointEquivalence(c, cfg, chain, h, n);
    NextIsProcessedAlike(c, cfg, chain, h, n, b);
    assert Last(chain[h..n]) == Last(chain[..n]);
  }

  // A block of the chain itself is accepted exactly when it is later than the median
  // of the kept blocks.
  lemma RestoredAccepts(c: Crypto, cfg: Config, chain: seq<Block>, h: nat, n: nat)
    requires ValidChain(c, cfg, chain) && h < n < |chain| && forall k :: h < k <= n ==> SettlesOnlyAfter(chain, h, k)
    ensures Accepts(c, RestoredView(c, cfg, chain, h, n), chain[n]) <==>
      chain[n].timestamp > MedianTimePast(chain[h..n])
  {
    hide ValidChain, Derived, Process, MedianTimePast, WellFormed, PreValid, RestoredView, SettlesOnlyAfter;
    ValidStands(c, cfg, chain, n);
    RestoredJudges(c, cfg, chain, h, n, chain[n]);
  }

  // Eleven kept blocks give the same median as the whole chain.
  lemma MedianCatchesUp(chain: seq<Block>, h: nat, n: nat)
    requires h + MTP_WINDOW <= n <= |chain|
    ensures MedianTimePast(chain[h..n]) == MedianTimePast(chain[..n])
  {
    assert Recent(chain[h..n]) == Recent(chain[..n]);
  }

  // Hence only the first ten blocks after the checkpoint can be judged differently.
  lemma RestoredAcceptsLater(c: Crypto, cfg: Config, chain: seq<Block>, h: nat, n: nat)
    requires ValidChain(c, cfg, chain) && h + MTP_WINDOW <= n < |chain|
    requires forall k :: h < k <= n ==> SettlesOnlyAfter(chain, h, k)
    ensures Accepts(c, RestoredView(c, cfg, chain, h, n), chain[n])
  {
    hide ValidChain, MedianTimePast, RestoredView, Process, WellFormed, PreValid;
    RestoredAccepts(c, cfg, chain, h, n);
    ValidStands(c, cfg, chain, n);
    MedianCatchesUp(chain, h, n);
  }

  // -------------------------------------------------------------------------
  // Restarting
  // -------------------------------------------------------------------------

  // A checkpoint of `chain` at height `h`: the state replayed up to there, on a chain
  // whose later blocks settle no ticket from before.
  ghost predicate Resumable(c: Crypto, cfg: Config, chain: seq<Block>, h: nat, state: CheckpointState) {
    && ValidChain(c, cfg, chain) && h < |chain|
    && state.ledger == Derived(c, cfg, chain[..h + 1])
    && forall k :: h < k < |chain| ==> SettlesOnlyAfter(chain, h, k)
  }

  // What a running node at height `h` of the chain captures is such a checkpoint.
  lemma SnapshotIsResumable(n: Blockchain, chain: seq<Block>, h: nat, state: CheckpointState)
    requires n.Valid() && ValidChain(n.c, n.Cfg(), chain) && h < |chain| && n.canonical == chain[..h + 1]
    requires state == CheckpointState(Derived(n.c, n.Cfg(), n.canonical), Last(n.canonical).hash)
    requires forall k :: h < k < |chain| ==> SettlesOnlyAfter(chain, h, k)
    ensures Resumable(n.c, n.Cfg(), chain, h, state) && state.blockHash == chain[h].hash
  {
    hide Blockchain.Valid, ValidChain, Derived, SettlesOnlyAfter;
  }

  // The blocks kept since the checkpoint let block `k` through when its turn comes.
  ghost predicate LetsThrough(chain: seq<Block>, h: nat, k: nat, now: nat, later: Clock)
    requires h < k < |chain|
  {
    Timely(chain, k, now, later) && chain[k].timestamp > MedianTimePast(chain[h..k])
  }

  ghost predicate AllThrough(chain: seq<Block>, h: nat, now: nat, later: Clock) {
    forall k :: h < k < |chain| ==> LetsThrough(chain, h, k, now, later)
  }

  // What a node at block `k` of the tail holds.
  ghost predicate Resumed(n: Blockchain, cfg: Config, chain: seq<Block>, h: nat, k: nat)
    reads n
  {
    && h < k <= |chain|
    && n.ViewOf() == View(chain[h..k], h, Derived(n.c, cfg, chain[..k]))
    && n.canonical == chain[..k]
    && n.blockHashes == TailIndex(chain, h + 1, k)
    && n.orphanPool == map[]
  }

  // The index of the blocks from `lo` on: the checkpoint block is not in it.
  ghost function TailIndex(chain: seq<Block>, lo: nat, hi: nat): map<Hash, nat>
    requires lo <= hi <= |chain|
  {
    if lo == hi then map[] else TailIndex(chain, lo, hi - 1)[chain[hi - 1].hash := hi - 1]
  }

  lemma JudgeResumed(c: Crypto, cfg: Config, chain: seq<Block>, h: nat, k: nat, now: nat, later: Clock, v: View)
    requires ValidChain(c, cfg, chain) && h < k < |chain| && forall i :: h < i < |chain| ==>
      SettlesOnlyAfter(chain, h, i)
    requires v == View(chain[h..k], h, Derived(c, cfg, chain[..k]))
    ensures |v.blocks| > 0
    ensures Judge(c, v, chain[k], now + later(k)) == if LetsThrough(chain, h, k, now, later) then Extended else Refused
    ensures Process(c, v, chain[k]).Yields? && chain[k].index == k
    ensures View(v.blocks + [chain[k]], v.offset, Process(c, v, chain[k]).ledger) ==
      View(chain[h..k + 1], h, Derived(c, cfg, chain[..k + 1]))
  {
    hide ValidChain, Derived, Process, SettlesOnlyAfter, RestoredLedger, MedianTimePast, WellFormed, PreValid;
    CheckpointEquivalence(c, cfg, chain, h, k);
    RestoredAccepts(c, cfg, chain, h, k);
    OneTailBlock(c, cfg, chain, h, k);
    ValidStands(c, cfg, chain, k);
    assert Last(chain[h..k]) == Last(chain[..k]);
    assert chain[h..k] + [chain[k]] == chain[h..k + 1];
  }

  // A block past the first refused one claims a height that is not the next.
  lemma JudgePast(c: Crypto, cfg: Config, chain: seq<Block>, h: nat, r: nat, k: nat, now: nat, v: View)
    requires ValidChain(c, cfg, chain) && h < r < k < |chain|
    requires v == View(chain[h..r], h, Derived(c, cfg, chain[..r]))
    ensures |v.blocks| > 0 && Judge(c, v, chain[k], now).Refused?
  {
    hide ValidChain, Derived, Process, MedianTimePast, WellFormed, PreValid;
    IndicesAreHeights(c, cfg, chain, k);
  }

  // Where the replay of the tail gets to: past every block up to the first that is not let through.
  ghost predicate Reaches(chain: seq<Block>, h: nat, r: nat, now: nat, later: Clock) {
    && h < r <= |chain|
    && (forall k :: h < k < r ==> LetsThrough(chain, h, k, now, later))
    && (r < |chain| ==> !LetsThrough(chain, h, r, now, later))
  }

  // The tail after a restored checkpoint, one block at a time. The blocks after a
  // refused one are refused too; that they may wait as orphans is not modelled.
  method ReplayTail(n: Blockchain, h: nat, state: CheckpointState, block: Block, tail: seq<Block>, now: nat,
                    later: Clock, ghost chain: seq<Block>)
    returns (v: Verdict, ghost reached: nat)
    requires h < |chain| && block == chain[h] && tail == chain[h + 1..]
    modifies n
    ensures n.Cfg() == old(n.Cfg())
    // On a checkpoint of the chain the node ends at the first block that is not let
    // through, where it would be without the restart; the tail goes through exactly
    // when every block of it does.
    ensures Resumable(n.c, n.Cfg(), chain, h, state) ==>
      && Reaches(chain, h, reached, now, later) && Resumed(n, n.Cfg(), chain, h, reached)
      && v == (if AllThrough(chain, h, now, later) then Extended else Refused)
      && (v.Extended? <==> reached == |chain|)
  {
    hide *;
    n.CfgIs();
    ghost var cfg := n.Cfg();
    ghost var good := Resumable(n.c, cfg, chain, h, state);
    n.RestoreFromCheckpoint(h, state, block, chain[..h + 1]);
    n.CfgIs();
    n.ViewIs();
    if good {
      ResumedAtFirst(n, cfg, chain, h, state);
    }
    v, reached := Extended, h + 1;
    for i := 0 to |tail|
      invariant n.Cfg() == cfg && |n.blocks| > 0 && !v.Died?
      invariant good ==> h < reached <= h + 1 + i && Resumed(n, cfg, chain, h, reached)
      invariant good ==> forall k :: h < k < reached ==> LetsThrough(chain, h, k, now, later)
      invariant good && reached < h + 1 + i ==> !LetsThrough(chain, h, reached, now, later)
      invariant good ==> (v.Extended? <==> reached == h + 1 + i)
    {
      ghost var k, view := h + 1 + i, n.ViewOf();
      assert tail[i] == chain[k];
      n.CfgIs();
      n.ViewIs();
      if good {
        ResumableMeans(n.c, cfg, chain, h, state);
        ResumedMeans(n, cfg, chain, h, reached);
        if reached == k {
          JudgeResumed(n.c, cfg, chain, h, k, now, later, view);
        } else {
          JudgePast(n.c, cfg, chain, h, reached, k, now + later(k), view);
        }
      }
      var verdict := n.UpdateState(tail[i], now + later(h + 1 + i));
      n.CfgIs();
      n.ViewIs();
      if verdict.Died? {
        return Died, reached;
      }
      if verdict.Extended? {
        ExtendedYields(n.c, view, tail[i], now + later(k));
        AppendedIs(view, tail[i], Process(n.c, view, tail[i]).ledger);
        if good {
          ResumedNext(n, cfg, chain, h, k);
        }
        reached := reached + 1;
      } else {
        v := Refused;
        if good {
          ResumedStays(n, cfg, chain, h, reached, view);
        }
      }
    }
    if good {
      ReachesIntro(chain, h, reached, now, later);
    }
  }

  // Were they kept as orphans, the blocks after a refused one would hang off no block of the window.
  lemma RestHangsNowhere(c: Crypto, cfg: Config, chain: seq<Block>, h: nat, r: nat, k: nat)
    requires Acyclic(c) && ValidChain(c, cfg, chain) && h < r < k < |chain|
    ensures chain[k].previousHash !in TailIndex(chain, h + 1, r)
  {
    hide ValidChain, Acyclic;
    ValidIsLinked(c, cfg, chain);
    var hash := chain[k].previousHash;
    if hash in TailIndex(chain, h + 1, r) {
      TailIndexNames(chain, h + 1, r, hash);
      HashesDiffer(c, cfg, chain, TailIndex(chain, h + 1, r)[hash], k - 1);
    }
  }

  // -------------------------------------------------------------------------
  // Back to normal
  // -------------------------------------------------------------------------

  lemma {:induction false} TailIndexNames(chain: seq<Block>, lo: nat, hi: nat, h: Hash)
    requires lo <= hi <= |chain| && h in TailIndex(chain, lo, hi)
    ensures lo <= TailIndex(chain, lo, hi)[h] < hi && chain[TailIndex(chain, lo, hi)[h]].hash == h
  {
    if lo < hi && h != chain[hi - 1].hash {
      TailIndexNames(chain, lo, hi - 1, h);
    }
  }

  lemma {:induction false} TailIndexHolds(c: Crypto, cfg: Config, chain: seq<Block>, lo: nat, hi: nat, i: nat)
    requires Acyclic(c) && ValidChain(c, cfg, chain) && lo <= i < hi <= |chain|
    ensures chain[i].hash in TailIndex(chain, lo, hi) && TailIndex(chain, lo, hi)[chain[i].hash] == i
  {
    hide ValidChain, Acyclic;
    if i < hi - 1 {
      TailIndexHolds(c, cfg, chain, lo, hi - 1, i);
      if chain[i].hash == chain[hi - 1].hash {
        HashesDiffer(c, cfg, chain, i, hi - 1);
      }
    }
  }

  lemma AmongBelow(chain: seq<Block>, h: nat, d: nat, i: nat)
    requires h <= i < d <= |chain|
    ensures chain[i].hash in HashesOf(chain[h..d])
  {
    assert chain[h..d][i - h] == chain[i];
  }

  lemma NotBelow(c: Crypto, cfg: Config, chain: seq<Block>, h: nat, d: nat, i: nat)
    requires Acyclic(c) && ValidChain(c, cfg, chain) && h <= d <= i < |chain|
    ensures chain[i].hash !in HashesOf(chain[h..d])
  {
    hide ValidChain, Acyclic;
    if chain[i].hash in HashesOf(chain[h..d]) {
      var j :| 0 <= j < d - h && chain[h..d][j].hash == chain[i].hash;
      HashesDiffer(c, cfg, chain, h + j, i);
    }
  }

  // Once the checkpoint block has left the window, so has the one gap in the index.
  lemma GapIsGone(c: Crypto, cfg: Config, chain: seq<Block>, h: nat, d: nat, l: Ledger)
    requires Acyclic(c) && ValidChain(c, cfg, chain) && h < d <= |chain|
    ensures Indexes(TailIndex(chain, h + 1, |chain|) - HashesOf(chain[h..d]), View(chain[d..], d, l))
  {
    var hashes, v := TailIndex(chain, h + 1, |chain|) - HashesOf(chain[h..d]), View(chain[d..], d, l);
    hide ValidChain, Acyclic, TailIndex, Names, HashesOf;
    forall i | 0 <= i < |v.blocks| ensures v.blocks[i].hash in hashes && hashes[v.blocks[i].hash] == d + i {
      TailIndexHolds(c, cfg, chain, h + 1, |chain|, d + i);
      NotBelow(c, cfg, chain, h, d, d + i);
    }
    forall k | k in hashes ensures Names(hashes, v, k) {
      TailIndexNames(chain, h + 1, |chain|, k);
      var i := hashes[k];
      if i < d {
        AmongBelow(chain, h, d, i);
        assert false;
      }
      NamesIntro(hashes, v, k);
    }
  }

  // A node that has replayed a long enough tail, set the payouts aside and pruned.
  lemma ResumedIsValid(n: Blockchain, cfg: Config, chain: seq<Block>, h: nat)
    requires Sound(n.c) && n.Cfg() == cfg && ValidChain(n.c, cfg, chain) && h + 1 + REORG_WINDOW <= |chain|
    requires var kept := chain[h..|chain|];
      var drop := Max(0, |kept| - REORG_WINDOW);
      && n.blocks == kept[drop..] && n.offset == h + drop
      && n.blockHashes == TailIndex(chain, h + 1, |chain|) - HashesOf(kept[..drop])
    requires n.LedgerOf() == Derived(n.c, cfg, chain[..|chain|]) && n.canonical == chain[..|chain|]
    requires n.orphanPool == map[] && forall k :: k !in n.settled
    ensures n.Valid() && n.canonical == chain && n.LedgerOf() == Derived(n.c, cfg, chain) && |n.blocks| == REORG_WINDOW
  {
    hide Blockchain.Valid, Consistent, Sound, ValidChain, Derived, TailIndex, HashesOf;
    var d := |chain| - REORG_WINDOW;
    assert chain[..|chain|] == chain && chain[h..|chain|] == chain[h..];
    DropDrop(chain, h, d - h);
    assert chain[h..|chain|][..d - h] == chain[h..d];
    ResumedIsConsistent(n.c, cfg, chain, h, d, n.settled);
    n.ConsistentIs();
  }

  lemma ResumedIsConsistent(c: Crypto, cfg: Config, chain: seq<Block>, h: nat, d: nat, paid: map<nat, seq<Payout>>)
    requires Sound(c) && ValidChain(c, cfg, chain) && h < d && d + REORG_WINDOW == |chain| && forall k :: k !in paid
    ensures Consistent(c, cfg, chain, View(chain[d..], d, Derived(c, cfg, chain)),
                       TailIndex(chain, h + 1, |chain|) - HashesOf(chain[h..d]), map[], paid)
  {
    hide Sound, ValidChain, Derived, Indexes, PoolHashed, PoolBounded, TailIndex, HashesOf;
    SoundIsAcyclic(c);
    GapIsGone(c, cfg, chain, h, d, Derived(c, cfg, chain));
    EmptyPoolFits(c);
  }

  // The rest of a restart: replay the tail, set the payouts aside, prune, and load the stored tickets.
  method Resume(n: Blockchain, db: Db, h: nat, state: CheckpointState, block: Block, tail: seq<Block>, now: nat,
                later: Clock, ghost chain: seq<Block>)
    requires h < |chain| && block == chain[h] && tail == chain[h + 1..]
    modifies n
    ensures n.Cfg() == old(n.Cfg())
    // Whatever the length of the tail: chain, state and tables are those of no restart,
    // and the window is what there is of the last hundred blocks.
    ensures
      (Resumable(n.c, n.Cfg(), chain, h, state) && AllThrough(chain, h, now, later) &&
       InStep(n.c, n.Cfg(), chain, db)) ==>
        && n.canonical == chain && n.LedgerOf() == Derived(n.c, n.Cfg(), chain)
        && n.offset == Max(h, |chain| - REORG_WINDOW) && n.blocks == chain[n.offset..]
        && InStep(n.c, n.Cfg(), n.canonical, db)
    // After a tail as long as the window, nothing is left of the restart: the node
    // is what one that replayed the whole chain would be, and so are its tables.
    ensures
      (Sound(n.c) && Resumable(n.c, n.Cfg(), chain, h, state) && AllThrough(chain, h, now, later) &&
       |tail| >= REORG_WINDOW && InStep(n.c, n.Cfg(), chain, db)) ==>
        && n.Valid() && n.canonical == chain && n.LedgerOf() == Derived(n.c, n.Cfg(), chain)
        && |n.blocks| == REORG_WINDOW && InStep(n.c, n.Cfg(), n.canonical, db)
  {
    hide *;
    n.CfgIs();
    ghost var cfg := n.Cfg();
    ghost var good :=
      Resumable(n.c, cfg, chain, h, state) && AllThrough(chain, h, now, later) && InStep(n.c, cfg, chain, db);
    ghost var long := good && Sound(n.c) && |tail| >= REORG_WINDOW;
    var v;
    ghost var reached;
    v, reached := ReplayTail(n, h, state, block, tail, now, later, chain);
    n.CfgIs();
    if good {
      ResumedMeans(n, cfg, chain, h, |chain|);
      ResumableMeans(n.c, cfg, chain, h, state);
    }
    n.ViewIs();
    var payouts := n.TakeAllSettledPayouts();
    n.PruneToWindow();
    n.CfgIs();
    n.ViewIs();
    if good {
      TailWindow(chain, h);
      InStepFacts(n.c, cfg, chain, db);
      PendingRises(n.c, cfg, chain);
      n.TicketsAre();
    }
    if long {
      ResumedIsValid(n, cfg, chain, h);
    }
    n.ReloadTickets(db);
    n.CfgIs();
    n.ViewIs();
  }

  // Pruning leaves the last hundred blocks of the chain, as far as they reach back to the checkpoint.
  lemma TailWindow(chain: seq<Block>, h: nat)
    requires h < |chain|
    ensures chain[..|chain|] == chain
    ensures var kept := chain[h..|chain|];
      var drop := Max(0, |kept| - REORG_WINDOW);
      h + drop == Max(h, |chain| - REORG_WINDOW) && kept[drop..] == chain[h + drop..]
  {
    var kept := chain[h..|chain|];
    assert kept == chain[h..];
    DropDrop(chain, h, Max(0, |kept| - REORG_WINDOW));
  }

  lemma ResumableMeans(c: Crypto, cfg: Config, chain: seq<Block>, h: nat, state: CheckpointState)
    requires Resumable(c, cfg, chain, h, state)
    ensures ValidChain(c, cfg, chain) && h < |chain| && forall k :: h < k < |chain| ==> SettlesOnlyAfter(chain, h, k)
  {
    hide ValidChain, SettlesOnlyAfter, Derived;
  }

  lemma ResumedMeans(n: Blockchain, cfg: Config, chain: seq<Block>, h: nat, k: nat)
    requires Resumed(n, cfg, chain, h, k)
    ensures h < k <= |chain| && n.ViewOf() == View(chain[h..k], h, Derived(n.c, cfg, chain[..k]))
    ensures n.canonical == chain[..k] && n.blockHashes == TailIndex(chain, h + 1, k) && n.orphanPool == map[]
  {
    hide Derived, TailIndex;
  }

  lemma ResumedAtFirst(n: Blockchain, cfg: Config, chain: seq<Block>, h: nat, state: CheckpointState)
    requires Resumable(n.c, cfg, chain, h, state)
    requires n.ViewOf() == View([chain[h]], h, state.ledger) && n.canonical == chain[..h + 1]
    requires n.blockHashes == map[] && n.orphanPool == map[]
    ensures Resumed(n, cfg, chain, h, h + 1)
  {
    hide ValidChain, SettlesOnlyAfter, Derived;
    assert chain[h..h + 1] == [chain[h]];
  }

  lemma ResumedNext(n: Blockchain, cfg: Config, chain: seq<Block>, h: nat, k: nat)
    requires h < k < |chain|
    requires n.ViewOf() == View(chain[h..k + 1], h, Derived(n.c, cfg, chain[..k + 1]))
    requires n.canonical == chain[..k] + [chain[k]]
    requires n.blockHashes == TailIndex(chain, h + 1, k)[chain[k].hash := k] && n.orphanPool == map[]
    ensures Resumed(n, cfg, chain, h, k + 1)
  {
    hide Derived;
    assert chain[..k] + [chain[k]] == chain[..k + 1];
  }

  lemma ResumedStays(n: Blockchain, cfg: Config, chain: seq<Block>, h: nat, k: nat, v: View)
    requires h < k <= |chain| && v == View(chain[h..k], h, Derived(n.c, cfg, chain[..k])) && n.ViewOf() == v
    requires n.canonical == chain[..k] && n.blockHashes == TailIndex(chain, h + 1, k) && n.orphanPool == map[]
    ensures Resumed(n, cfg, chain, h, k)
  {
    hide Derived, TailIndex;
  }

  lemma ReachesIntro(chain: seq<Block>, h: nat, r: nat, now: nat, later: Clock)
    requires h < r <= |chain| && forall k :: h < k < r ==> LetsThrough(chain, h, k, now, later)
    requires r < |chain| ==> !LetsThrough(chain, h, r, now, later)
    ensures Reaches(chain, h, r, now, later) && (AllThrough(chain, h, now, later) <==> r == |chain|)
  {
    hide LetsThrough;
  }

  lemma ExtendedYields(c: Crypto, v: View, b: Block, now: nat)
    requires |v.blocks| > 0 && Judge(c, v, b, now).Extended?
    ensures Process(c, v, b).Yields?
  {
    hide Admissible, Process;
  }

  lemma AppendedIs(v: View, b: Block, l: Ledger)
    ensures Appended(v, b, l) == View(v.blocks + [b], v.offset, l)
  {
  }
}
