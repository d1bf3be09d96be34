/** Block and transaction admission over the chain, its database and the pool. */
module Node {
  import opened Prelude
  import opened Types
  import opened Consensus
  import opened Conservation
  import opened Replay
  import opened ForkChoice
  import opened AsertSchedule
  import opened Consistency
  import opened Decisions
  import opened Database
  import Persistence
  import opened PreCheck
  import opened Room
  import opened Chain
  import opened TxPool
  import opened AccountBook
  import opened BlockRules
  import opened Readmission
  import opened Verdicts

  // -------------------------------------------------------------------------
  // What a chain says about signatures
  // -------------------------------------------------------------------------

  lemma {:induction false} ChainSignatureIsSomewhere(chain: seq<Block>, s: Signature) returns (n: nat)
    requires |chain| > 0 && s in ChainSignatures(chain)
    ensures 0 < n < |chain| && s in Signatures(chain[n].transactions)
  {
    if s in Signatures(Last(chain).transactions) && |chain| > 1 {
      n := |chain| - 1;
    } else {
      n := ChainSignatureIsSomewhere(Front(chain), s);
    }
  }

  // `s` occurs in none of the blocks 1..a of `chain`, nor anywhere in `fork`.
  ghost predicate Absent(chain: seq<Block>, a: nat, fork: seq<Block>, s: Signature) {
    && (forall n :: 0 < n <= a && n < |chain| ==> s !in Signatures(chain[n].transactions))
    && (forall j :: 0 <= j < |fork| ==> s !in Signatures(fork[j].transactions))
  }

  lemma BranchBlocks(chain: seq<Block>, a: nat, fork: seq<Block>)
    requires a < |chain|
    ensures |Branch(chain, a, fork)| == a + 1 + |fork|
    ensures forall n :: 0 <= n <= a ==> Branch(chain, a, fork)[n] == chain[n]
    ensures forall n :: a < n < a + 1 + |fork| ==> Branch(chain, a, fork)[n] == fork[n - a - 1]
  {
  }

  // Whatever part of the branch a replay accepted, such a signature is not confirmed there.
  lemma AbsentIsUnconfirmed(c: Crypto, cfg: Config, before: seq<Block>, a: nat, fork: seq<Block>, after: seq<Block>,
                            s: Signature)
    requires a < |before| && ValidChain(c, cfg, after) && IsPrefix(after, Branch(before, a, fork))
    requires Absent(before, a, fork, s)
    ensures s !in Derived(c, cfg, after).confirmed
  {
    assert |after| > 0;
    hide ValidChain, Derived, ChainSignatures, Signatures;
    ConfirmedIsChainSignatures(c, cfg, after);
    BranchBlocks(before, a, fork);
    forall n | 0 < n < |after| ensures s !in Signatures(after[n].transactions) {
      assert after[n] == Branch(before, a, fork)[n];
    }
    if s in ChainSignatures(after) {
      var n := ChainSignatureIsSomewhere(after, s);
    }
  }

  // A signature the chain has not confirmed is in none of its blocks.
  lemma UnconfirmedIsAbsent(c: Crypto, cfg: Config, chain: seq<Block>, n: nat, s: Signature)
    requires ValidChain(c, cfg, chain) && 0 < n < |chain| && s !in Derived(c, cfg, chain).confirmed
    ensures s !in Signatures(chain[n].transactions)
  {
    hide ValidChain, Derived, Signatures;
    ConfirmedIsChainSignatures(c, cfg, chain);
    SignaturesOnChain(chain, n);
  }

  // A transfer of block `m` was sound when the block was accepted, and is in no earlier block.
  lemma ConfirmedTransfer(c: Crypto, cfg: Config, chain: seq<Block>, m: nat, tx: Tx)
    requires ValidChain(c, cfg, chain) && 0 < m < |chain| && tx in chain[m].transactions && !tx.Coinbase()
    ensures c.verifies(tx) && tx.fee >= MIN_TX_FEE && c.decodes(tx.receiver)
    ensures forall n :: 0 < n < m ==> tx.signature !in Signatures(chain[n].transactions)
  {
    assert Stands(c, cfg, chain, m);
    var txs := chain[m].transactions;
    var i :| 0 <= i < |txs| && txs[i] == tx;
    assert PaysAt(c, Derived(c, cfg, chain[..m]), txs, i);
    hide ValidChain, Stands, Derived, PaysAt;
    forall n | 0 < n < m ensures tx.signature !in Signatures(chain[n].transactions) {
      NoTransferTwice(c, cfg, chain, n, m);
      assert tx.signature in Signatures(txs);
    }
  }

  // A transfer displaced by a fork that does not contain it can be spent again:
  // the new chain has not confirmed it.
  lemma DisplacedIsSpendable(c: Crypto, cfg: Config, before: seq<Block>, a: nat, fork: seq<Block>, m: nat, tx: Tx)
    requires ValidChain(c, cfg, before) && a < m < |before| && tx in before[m].transactions && !tx.Coinbase()
    requires ValidChain(c, cfg, Branch(before, a, fork))
    requires forall j :: 0 <= j < |fork| ==> tx.signature !in Signatures(fork[j].transactions)
    ensures Sendable(c, Derived(c, cfg, Branch(before, a, fork)), tx)
  {
    hide ValidChain, Derived, Signatures, Branch;
    ConfirmedTransfer(c, cfg, before, m, tx);
    BranchBlocks(before, a, fork);
    AbsentIsUnconfirmed(c, cfg, before, a, fork, Branch(before, a, fork), tx.signature);
  }

  // -------------------------------------------------------------------------
  // The pool across a reorganisation
  // -------------------------------------------------------------------------

  // An entry that was pending before, or comes from a displaced block.
  ghost predicate PendingOrDisplaced(es: Entries, gone: seq<Block>, s: Signature, tx: Tx) {
    (s in es && es[s].tx == tx) || exists i :: 0 <= i < |gone| && ReaddedFrom(tx, s, gone[i].transactions)
  }

  ghost predicate Rejoined(es: Entries, fs: Entries, gone: seq<Block>) {
    forall s :: s in fs ==> PendingOrDisplaced(es, gone, s, fs[s].tx)
  }

  lemma RejoinedStep(es: Entries, fs: Entries, gs: Entries, gone: seq<Block>, k: nat, l: Ledger)
    requires k < |gone| && Rejoined(es, fs, gone) && Regained(fs, gs, gone[k].transactions, l)
    ensures Rejoined(es, gs, gone)
  {
    hide WellKept, Solvent;
    forall s | s in gs ensures PendingOrDisplaced(es, gone, s, gs[s].tx) {
      if s in fs {
        assert gs[s] == fs[s];
      } else {
        assert ReaddedFrom(gs[s].tx, s, gone[k].transactions);
      }
    }
  }

  // The pool after the displaced blocks, oldest first, are put back...
  ghost function PutBackAll(es: Entries, gone: seq<Block>, balances: map<Address, u64>, height: nat): Entries {
    if gone == [] then es
    else Readded(PutBackAll(es, Front(gone), balances, height), Last(gone).transactions, balances, height)
  }

  // ...and after the new ones are taken out.
  function TakenOut(es: Entries, fork: seq<Block>): Entries {
    if fork == [] then es else WithoutAll(TakenOut(es, Front(fork)), Last(fork).transactions)
  }

  lemma RejoinedFront(es: Entries, fs: Entries, gone: seq<Block>)
    requires gone != [] && Rejoined(es, fs, Front(gone))
    ensures Rejoined(es, fs, gone)
  {
    forall s | s in fs ensures PendingOrDisplaced(es, gone, s, fs[s].tx) {
      assert PendingOrDisplaced(es, Front(gone), s, fs[s].tx);
      if !(s in es && es[s].tx == fs[s].tx) {
        var i :| 0 <= i < |Front(gone)| && ReaddedFrom(fs[s].tx, s, Front(gone)[i].transactions);
        assert gone[i] == Front(gone)[i];
      }
    }
  }

  // Putting blocks back adds nothing else, keeps the bounds, and bankrupts nobody.
  lemma {:induction false} PutBackRejoins(es: Entries, gone: seq<Block>, l: Ledger, height: nat)
    requires WellKept(es)
    ensures var fs := PutBackAll(es, gone, l.balances, height);
      && WellKept(fs) && SubEntries(es, fs) && Rejoined(es, fs, gone)
      && forall a :: Supply(l) < U64_MAX && Solvent(es, l, a) ==> Solvent(fs, l, a)
  {
    hide WellKept, Solvent, Supply, Readded, PendingOrDisplaced;
    if gone == [] {
      NothingRejoined(es);
    } else {
      var fs := PutBackAll(es, Front(gone), l.balances, height);
      PutBackRejoins(es, Front(gone), l, height);
      ReaddedIsRegained(fs, Last(gone).transactions, l, height);
      RejoinedFront(es, fs, gone);
      RejoinedStep(es, fs, Readded(fs, Last(gone).transactions, l.balances, height), gone, |gone| - 1, l);
    }
  }

  lemma NothingRejoined(es: Entries)
    ensures Rejoined(es, es, [])
  {
  }

  ghost predicate NoneOf(es: Entries, blocks: seq<Block>, k: nat)
    requires k <= |blocks|
  {
    forall s, j :: s in es && 0 <= j < k ==> s !in Signatures(blocks[j].transactions)
  }

  // What is known of a pooled transfer apart from the chain.
  ghost predicate Checked(c: Crypto, s: Signature, tx: Tx) {
    c.verifies(tx) && tx.fee >= MIN_TX_FEE && c.decodes(tx.receiver) && tx.signature == s && !tx.Coinbase()
  }

  lemma SendableAgain(c: Crypto, cfg: Config, after: seq<Block>, s: Signature, tx: Tx)
    requires |after| > 0 && Checked(c, s, tx) && s !in Derived(c, cfg, after).confirmed
    ensures Sendable(c, Derived(c, cfg, after), tx)
  {
    hide Derived;
  }

  lemma StillAbsent(c: Crypto, cfg: Config, before: seq<Block>, a: nat, fork: seq<Block>, es: Entries, fs: Entries,
                    s: Signature)
    requires a < |before| && ValidChain(c, cfg, before)
    requires AllSendable(c, Derived(c, cfg, before), es) && FiledBySignature(es)
    requires s in fs && s in es && es[s].tx == fs[s].tx && NoneOf(fs, fork, |fork|)
    ensures Absent(before, a, fork, s) && Checked(c, s, fs[s].tx)
  {
    hide ValidChain, Derived, Signatures;
    forall n | 0 < n <= a ensures s !in Signatures(before[n].transactions) {
      UnconfirmedIsAbsent(c, cfg, before, n, s);
    }
  }

  lemma DisplacedIsAbsent(c: Crypto, cfg: Config, before: seq<Block>, a: nat, gone: seq<Block>, fork: seq<Block>,
                          es: Entries, fs: Entries, s: Signature)
    requires a < |before| && ValidChain(c, cfg, before) && (gone == before[a + 1..] || gone == [])
    requires s in fs && PendingOrDisplaced(es, gone, s, fs[s].tx) && !(s in es && es[s].tx == fs[s].tx)
    requires NoneOf(fs, fork, |fork|)
    ensures Absent(before, a, fork, s) && Checked(c, s, fs[s].tx)
  {
    hide ValidChain, Signatures;
    var tx := fs[s].tx;
    var i :| 0 <= i < |gone| && ReaddedFrom(tx, s, gone[i].transactions);
    assert gone[i] == before[a + 1 + i];
    ConfirmedTransfer(c, cfg, before, a + 1 + i, tx);
  }

  lemma {:induction false} TakenOutFacts(es: Entries, fork: seq<Block>)
    ensures SubEntries(TakenOut(es, fork), es) && NoneOf(TakenOut(es, fork), fork, |fork|)
    ensures WellKept(es) ==> WellKept(TakenOut(es, fork))
  {
    if fork != [] {
      hide Signatures;
      TakenOutFacts(es, Front(fork));
      var fs := TakenOut(es, Front(fork));
      hide WellKept;
      assert forall j :: 0 <= j < |fork| - 1 ==> Front(fork)[j] == fork[j];
      if WellKept(es) {
        DropKeeps(TakenOut(es, fork), fs);
      }
    }
  }

  // After the displaced blocks are put back and the new ones taken out, nothing
  // left in the pool is confirmed by the chain the replay ended on.
  lemma PoolAfterReorg(c: Crypto, cfg: Config, before: seq<Block>, a: nat, gone: seq<Block>, fork: seq<Block>,
                       after: seq<Block>, es: Entries, fs: Entries)
    requires OnBranch(after, before, a, gone, fork) && ValidChain(c, cfg, before) && ValidChain(c, cfg, after)
    requires AllSendable(c, Derived(c, cfg, before), es) && WellKept(es)
    requires Rejoined(es, fs, gone) && NoneOf(fs, fork, |fork|)
    ensures |after| > 0 && AllSendable(c, Derived(c, cfg, after), fs)
  {
    assert |after| > 0;
    forall s | s in fs ensures Sendable(c, Derived(c, cfg, after), fs[s].tx) {
      var tx := fs[s].tx;
      assert PendingOrDisplaced(es, gone, s, tx);
      hide *;
      if s in es && es[s].tx == tx {
        StillAbsent(c, cfg, before, a, fork, es, fs, s);
      } else {
        DisplacedIsAbsent(c, cfg, before, a, gone, fork, es, fs, s);
      }
      AbsentIsUnconfirmed(c, cfg, before, a, fork, after, s);
      SendableAgain(c, cfg, after, s, tx);
    }
  }

  // -------------------------------------------------------------------------
  // What stays, what comes back, what goes
  // -------------------------------------------------------------------------

  // Some transfer of the block carries signature `s`.
  predicate Includes(b: Block, s: Signature) {
    exists i :: 0 <= i < |b.transactions| && Carries(b.transactions, i, s)
  }

  lemma IncludesIs(b: Block, s: Signature)
    ensures Includes(b, s) <==> s in Signatures(b.transactions)
  {
    if s in Signatures(b.transactions) {
      var i :| 0 <= i < |b.transactions| && !b.transactions[i].Coinbase() && b.transactions[i].signature == s;
      assert Carries(b.transactions, i, s);
    }
  }

  // `fs` is what is left of `es` once `blocks` are confirmed at this height: exactly
  // the entries that none of them includes and that are at most a hundred blocks old.
  ghost predicate LeftAfter(es: Entries, blocks: seq<Block>, height: nat, fs: Entries) {
    && (forall s :: s in fs <==>
          s in es && height <= es[s].addedHeight + 100 && forall j :: 0 <= j < |blocks| ==> !Includes(blocks[j], s))
    && forall s :: s in fs ==> fs[s] == es[s]
  }

  // The pool after a reorganisation: the displaced transactions are put back in their
  // order as far as there is room, then those of the fork are taken out, and what has expired.
  ghost predicate Resettled(es: Entries, gone: seq<Block>, fork: seq<Block>, balances: map<Address, u64>, height: nat,
                            fs: Entries)
  {
    exists back :: Refilled(es, back, TxsOf(gone), balances, height) && LeftAfter(back, fork, height, fs)
  }

  lemma {:induction false} PutBackIsReadded(es: Entries, gone: seq<Block>, balances: map<Address, u64>, height: nat)
    ensures PutBackAll(es, gone, balances, height) == Readded(es, TxsOf(gone), balances, height)
  {
    if gone != [] {
      hide Readded;
      PutBackIsReadded(es, Front(gone), balances, height);
      ReaddedSplits(es, TxsOf(Front(gone)), Last(gone).transactions, balances, height);
    } else {
      ReaddedNone(es, balances, height);
    }
  }

  lemma {:induction false} TakenOutExactly(es: Entries, fork: seq<Block>, s: Signature)
    ensures s in TakenOut(es, fork) <==> s in es && forall j :: 0 <= j < |fork| ==> !Includes(fork[j], s)
    ensures s in TakenOut(es, fork) ==> TakenOut(es, fork)[s] == es[s]
  {
    if fork != [] {
      hide Includes, Signatures;
      TakenOutExactly(es, Front(fork), s);
      IncludesIs(Last(fork), s);
      assert forall j :: 0 <= j < |fork| - 1 ==> Front(fork)[j] == fork[j];
    }
  }

  lemma LeftIsExact(es: Entries, blocks: seq<Block>, height: nat)
    ensures LeftAfter(es, blocks, height, Fresh(TakenOut(es, blocks), height))
  {
    hide Includes, TakenOut;
    forall s
      ensures s in TakenOut(es, blocks) <==> s in es && forall j :: 0 <= j < |blocks| ==> !Includes(blocks[j], s)
    {
      TakenOutExactly(es, blocks, s);
    }
    forall s | s in TakenOut(es, blocks) ensures TakenOut(es, blocks)[s] == es[s] {
      TakenOutExactly(es, blocks, s);
    }
  }

  lemma SettlesExactly(es: Entries, gone: seq<Block>, fork: seq<Block>, balances: map<Address, u64>, height: nat)
    requires DistinctSignatures(TxsOf(gone))
    ensures var back := PutBackAll(es, gone, balances, height);
      Resettled(es, gone, fork, balances, height, Fresh(TakenOut(back, fork), height))
  {
    hide DistinctSignatures, Refilled, LeftAfter, PutBackAll, TakenOut, Fresh, Readded;
    PutBackIsReadded(es, gone, balances, height);
    ReaddedRefills(es, TxsOf(gone), balances, height);
    LeftIsExact(PutBackAll(es, gone, balances, height), fork, height);
  }

  lemma LeftAfterBlock(es: Entries, b: Block, height: nat)
    ensures LeftAfter(es, [b], height, Fresh(WithoutAll(es, b.transactions), height))
  {
    hide Signatures;
    assert Front([b]) == [];
    assert TakenOut(es, [b]) == WithoutAll(es, b.transactions);
    LeftIsExact(es, [b], height);
  }

  // No signature repeats among the transactions of a run of blocks above genesis.
  lemma {:induction false} RunIsDistinct(c: Crypto, cfg: Config, chain: seq<Block>, lo: nat, hi: nat)
    requires ValidChain(c, cfg, chain) && 0 < lo <= hi <= |chain|
    ensures DistinctSignatures(TxsOf(chain[lo..hi]))
    ensures forall s :: s in Signatures(TxsOf(chain[lo..hi])) ==>
      exists n :: lo <= n < hi && s in Signatures(chain[n].transactions)
    decreases hi
  {
    if lo < hi {
      RunIsDistinct(c, cfg, chain, lo, hi - 1);
      hide ValidChain, Signatures;
      var below, last := TxsOf(chain[lo..hi - 1]), chain[hi - 1].transactions;
      assert Front(chain[lo..hi]) == chain[lo..hi - 1];
      NoTransferTwice(c, cfg, chain, hi - 1, hi - 1);
      forall s | s in Signatures(below) ensures s !in Signatures(last) {
        var n :| lo <= n < hi - 1 && s in Signatures(chain[n].transactions);
        NoTransferTwice(c, cfg, chain, n, hi - 1);
      }
      DistinctTogether(below, last);
    } else {
      assert chain[lo..hi] == [];
    }
  }

  lemma DistinctTogether(xs: seq<Tx>, ys: seq<Tx>)
    requires DistinctSignatures(xs) && DistinctSignatures(ys)
    requires forall s :: s in Signatures(xs) ==> s !in Signatures(ys)
    ensures DistinctSignatures(xs + ys)
    ensures Signatures(xs + ys) == Signatures(xs) + Signatures(ys)
  {
    var both := xs + ys;
    forall i, j | 0 <= i < j < |both| && !both[i].Coinbase() && !both[j].Coinbase()
      ensures both[i].signature != both[j].signature
    {
      if i < |xs| <= j {
        assert both[i].signature in Signatures(xs) && ys[j - |xs|].signature in Signatures(ys);
      }
    }
    SignaturesJoin(xs, ys);
  }

  lemma SignaturesJoin(xs: seq<Tx>, ys: seq<Tx>)
    ensures Signatures(xs + ys) == Signatures(xs) + Signatures(ys)
  {
    forall s | s in Signatures(xs) ensures s in Signatures(xs + ys) {
      var i :| 0 <= i < |xs| && !xs[i].Coinbase() && xs[i].signature == s;
      assert (xs + ys)[i] == xs[i];
    }
    forall s | s in Signatures(ys) ensures s in Signatures(xs + ys) {
      var i :| 0 <= i < |ys| && !ys[i].Coinbase() && ys[i].signature == s;
      assert (xs + ys)[|xs| + i] == ys[i];
    }
    forall s | s in Signatures(xs + ys) ensures s in Signatures(xs) + Signatures(ys) {
      var i :| 0 <= i < |xs + ys| && !(xs + ys)[i].Coinbase() && (xs + ys)[i].signature == s;
      assert (xs + ys)[i] == if i < |xs| then xs[i] else ys[i - |xs|];
    }
  }

  // -------------------------------------------------------------------------
  // The pool across an appended block
  // -------------------------------------------------------------------------

  lemma PoolAfterBlock(c: Crypto, l: Ledger, l': Ledger, b: Block, es: Entries, fs: Entries)
    requires AllSendable(c, l, es) && l'.confirmed == l.confirmed + Signatures(b.transactions)
    requires FiledBySignature(es) && SubEntries(fs, WithoutAll(es, b.transactions))
    ensures AllSendable(c, l', fs)
  {
    hide Signatures;
    forall s | s in fs ensures Sendable(c, l', fs[s].tx) {
      assert s in WithoutAll(es, b.transactions) && es[s].tx.signature == s;
    }
  }

  // A sender all of whose transfers in the block were pending stays solvent, short of
  // a balance at the very top of the range.
  ghost predicate StaysSolvent(es: Entries, l: Ledger, b: Block, fs: Entries, l': Ledger, a: Address) {
    AllPending(es, b.transactions, a) && Solvent(es, l, a) && Balance(l, a) < U64_MAX ==> Solvent(fs, l', a)
  }

  // The ledger after an appended block, booked against the one before.
  lemma AppendedBooks(c: Crypto, cfg: Config, chain: seq<Block>, v: View, b: Block)
    requires Tracks(c, cfg, chain, v) && Accepts(c, v, b)
    ensures v.ledger == Derived(c, cfg, chain) && |chain| > 0
    ensures Derived(c, cfg, chain + [b]).confirmed == v.ledger.confirmed + Signatures(b.transactions)
    ensures Booked(v.ledger, Derived(c, cfg, chain + [b]), b, Process(c, v, b).payouts)
    ensures DistinctSignatures(b.transactions)
  {
    AppendTracks(c, cfg, chain, v, b);
    hide Process, Derived, ValidChain, Signatures, Booked, Supply, MedianTimePast, Fits;
    StepRecords(c, v, b);
    AbortsExactly(c, v, b);
  }

  // Persisted entries that are neither confirmed nor expired.
  function Kept(stored: seq<Entry>, confirmed: set<Signature>, height: nat): seq<Entry> {
    if stored == [] then []
    else
      Kept(Front(stored), confirmed, height) +
      if Last(stored).tx.signature !in confirmed && !Expired(Last(stored), height) then [Last(stored)] else []
  }

  lemma {:induction false} KeptFacts(stored: seq<Entry>, confirmed: set<Signature>, height: nat)
    ensures forall e :: e in Kept(stored, confirmed, height) <==>
      e in stored && e.tx.signature !in confirmed && !Expired(e, height)
  {
    if stored != [] {
      KeptFacts(Front(stored), confirmed, height);
      assert stored == Front(stored) + [Last(stored)];
    }
  }

  lemma {:induction false} KeptIsDump(stored: seq<Entry>, confirmed: set<Signature>, height: nat, es: Entries)
    requires Dump(stored, es)
    ensures Dump(Kept(stored, confirmed, height), es)
  {
    if stored != [] {
      KeptIsDump(Front(stored), confirmed, height, es);
      KeptFacts(Front(stored), confirmed, height);
      var kept := Kept(Front(stored), confirmed, height);
      forall i | 0 <= i < |kept| ensures kept[i].tx.signature != Last(stored).tx.signature {
        assert kept[i] in Front(stored);
      }
    }
  }

  // The entries that are neither confirmed nor more than a hundred blocks old.
  function StillGood(es: Entries, confirmed: set<Signature>, height: nat): Entries {
    map s | s in es && s !in confirmed && height <= es[s].addedHeight + 100 :: es[s]
  }

  // A dump as long as the pool holds every entry.
  lemma DumpIsWhole(stored: seq<Entry>, es: Entries)
    requires Dump(stored, es) && |stored| == |es|
    ensures forall s :: s in es ==> es[s] in stored
  {
    DumpSize(stored, es);
    forall s | s in es ensures es[s] in stored {
      if s !in SignaturesIn(stored) {
        SubsetIsSmaller(SignaturesIn(stored), es.Keys - {s});
      } else {
        var e :| e in stored && e.tx.signature == s;
      }
    }
  }

  lemma {:induction false} DumpSize(stored: seq<Entry>, es: Entries)
    requires Dump(stored, es)
    ensures |SignaturesIn(stored)| == |stored| && SignaturesIn(stored) <= es.Keys
  {
    if stored == [] {
      assert SignaturesIn(stored) == {};
    } else {
      SignaturesInLast(stored, es);
      DumpSize(Front(stored), es);
      assert Last(stored).tx.signature in es;
      hide SignaturesIn;
    }
  }

  lemma RestoredWhole(stored: seq<Entry>, confirmed: set<Signature>, height: nat, es: Entries)
    requires WellKept(es) && Dump(stored, es) && |stored| == |es|
    ensures Restored(map[], Kept(stored, confirmed, height)) == StillGood(es, confirmed, height)
  {
    hide Bounded, Restored;
    var kept := Kept(stored, confirmed, height);
    KeptIsDump(stored, confirmed, height, es);
    KeptFacts(stored, confirmed, height);
    RestoredIsDump(kept, es);
    DumpIsWhole(stored, es);
    hide Kept;
    var fs := Restored(map[], kept);
    forall s | s in StillGood(es, confirmed, height) ensures s in fs {
      assert es[s] in kept && es[s].tx.signature == s;
    }
    forall s | s in fs ensures s in StillGood(es, confirmed, height) {
      var e :| e in kept && e.tx.signature == s;
    }
  }

  lemma KeptOfAny(stored: seq<Entry>, confirmed: set<Signature>, height: nat)
    ensures forall es: Entries ::
      WellKept(es) && Dump(stored, es) && |stored| == |es| ==>
        Restored(map[], Kept(stored, confirmed, height)) == StillGood(es, confirmed, height)
  {
    hide WellKept, Dump, Restored, Kept;
    forall es: Entries | WellKept(es) && Dump(stored, es) && |stored| == |es|
      ensures Restored(map[], Kept(stored, confirmed, height)) == StillGood(es, confirmed, height)
    {
      RestoredWhole(stored, confirmed, height, es);
    }
  }

  // -------------------------------------------------------------------------
  // One event at a time
  // -------------------------------------------------------------------------

  // A block that arrives at clock reading `now`, the clock moving on by `later`
  // while forks are replayed; or a transfer.
  datatype Event = Incoming(block: Block, now: nat, later: Clock) | Submitted(tx: Tx)

  // The node between two events; `synced` while the tables have always been those of the chain.
  datatype Moment = Moment(at: Standing, synced: bool, entries: Entries)

  // The checks made on a block before the chain is touched.
  predicate PreFilter(c: Crypto, b: Block) {
    && 0 < |b.transactions| <= MAX_BLOCK_TXS + 1
    && b.transactions[0].Coinbase()
    && b.transactions[0].amount <= 1
    && b.transactions[0].fee == 0
    && c.decodes(b.transactions[0].receiver)
    && (forall i :: 1 <= i < |b.transactions| ==> !b.transactions[i].Coinbase())
    && c.headerHash(b.HeaderOf()) == b.hash
  }

  // What passes: every block of the right shape that opens with a coinbase and bears
  // its own hash, so every block by the rules that has a miner.
  lemma FilterPasses(c: Crypto, b: Block)
    ensures PreFilter(c, b) <==>
      HasMiner(b) && ShapeRule(c, b.transactions) && b.hash == c.headerHash(b.HeaderOf())
    ensures forall chain, l :: |chain| > 0 && ByTheRules(c, chain, l, b) && HasMiner(b) ==> PreFilter(c, b)
  {
    if HasMiner(b) && forall i :: 1 <= i < |b.transactions| ==> b.transactions[i].sender != [] {
      AllButOne(b.transactions);
    }
    hide DateRule, TransferRule, TransfersOf;
  }

  lemma AllButOne(txs: seq<Tx>)
    requires |txs| > 0 && txs[0].sender == [] && forall i :: 1 <= i < |txs| ==> txs[i].sender != []
    ensures |TransfersOf(txs)| == |txs| - 1
  {
    TransfersCounted(txs);
    hide TransfersOf;
    CountsAllButOne(txs);
  }

  lemma {:induction false} CountsAllButOne(txs: seq<Tx>)
    requires |txs| > 0 && txs[0].sender == [] && forall i :: 1 <= i < |txs| ==> txs[i].sender != []
    ensures CountTransfers(txs) == |txs| - 1
  {
    if |txs| > 1 {
      CountsAllButOne(Front(txs));
    } else {
      assert Front(txs) == [];
    }
  }

  // The rules of admission to the pool.
  ghost predicate Takes(c: Crypto, l: Ledger, es: Entries, tx: Tx) {
    && tx.sender != tx.receiver && Sendable(c, l, tx)
    && CanAfford(es, l.balances, tx)
    && tx.signature !in es
    && Count(es, tx.sender) < MAX_PENDING_PER_SENDER && |es| < MAX_MEMPOOL_SIZE
  }

  // The pool once a move has been made that ends on `after`.
  ghost function PoolAfter(c: Crypto, cfg: Config, s: Standing, after: seq<Block>, b: Block, m: Move,
                           es: Entries): Entries
    requires |after| > 0
  {
    match m
    case Extends => Fresh(WithoutAll(es, b.transactions), |after|)
    case Switches(_, fork, a) =>
      var back := PutBackAll(es, Displaced(s, a), Derived(c, cfg, after).balances, |after|);
      Fresh(TakenOut(back, fork), |after|)
    case _ => es
  }

  // One block taken up by a node at `s`, which is at `t` afterwards.
  ghost predicate TakesUp(c: Crypto, cfg: Config, s: Moment, b: Block, now: nat, later: Clock, m: Move,
                          target: seq<Block>,
                         t: Moment)
  {
    && |s.at.chain| > 0 && |t.at.chain| > 0
    && Chosen(c, cfg, s.at, b, now, later, m, target, s.synced) && !m.DiesOnBlock? && !m.DiesOnFork?
    && LeadsTo(c, cfg, s.at, s.synced, b, now, later, m, target, t.at)
    && t.entries == PoolAfter(c, cfg, s.at, t.at.chain, b, m, s.entries)
    && (t.synced <==> s.synced && KeepsTables(c, cfg, s.at, now, later, m))
  }

  // The events a node at `s` survives, and where they take it.
  ghost predicate Step(c: Crypto, cfg: Config, s: Moment, e: Event, t: Moment) {
    match e
    case Incoming(b, now, later) =>
      if PreFilter(c, b) then exists m, target :: TakesUp(c, cfg, s, b, now, later, m, target, t) else t == s
    case Submitted(tx) =>
      && |s.at.chain| > 0
      && t == s.(entries :=
           if Takes(c, Derived(c, cfg, s.at.chain), s.entries, tx) then
             s.entries[tx.signature := Entry(tx, |s.at.chain|)]
           else s.entries)
  }

  // The event ends in std::process::abort().
  ghost predicate Fatal(c: Crypto, cfg: Config, s: Moment, e: Event) {
    && e.Incoming? && PreFilter(c, e.block) && |s.at.chain| > 0
    && exists m, target ::
         Chosen(c, cfg, s.at, e.block, e.now, e.later, m, target, s.synced) && (m.DiesOnBlock? || m.DiesOnFork?)
  }

  // What holds between any two events: the chain is valid, and while the tables
  // are in step every pooled transfer could go into the next block.
  ghost predicate Steady(c: Crypto, cfg: Config, s: Moment) {
    && |s.at.chain| > 0 && WellPlaced(c, cfg, s.at)
    && (s.synced ==> AllSendable(c, Derived(c, cfg, s.at.chain), s.entries))
  }

  // A run: each moment follows from the one before by the event in between.
  ghost predicate Run(c: Crypto, cfg: Config, states: seq<Moment>, events: seq<Event>) {
    && 0 < |states| <= |events| + 1
    && forall i :: 0 <= i < |states| - 1 ==> Step(c, cfg, states[i], events[i], states[i + 1])
  }

  // -------------------------------------------------------------------------
  // Whole runs
  // -------------------------------------------------------------------------

  // One event in step: the chain grows by no more than the pool can hold, on the
  // same genesis block, and as long as the node stays in step no work is lost.
  lemma StepGrows(c: Crypto, cfg: Config, s: Moment, e: Event, t: Moment)
    requires Steady(c, cfg, s) && s.synced && Step(c, cfg, s, e, t)
    ensures 0 < |s.at.chain| && 0 < |t.at.chain| <= |s.at.chain| + MAX_ORPHAN_POOL_SIZE
    ensures t.at.chain[0] == s.at.chain[0]
    ensures t.synced ==> Work(s.at.chain) <= Work(t.at.chain)
  {
    hide Work, AllSendable, Takes, Derived, PoolAfter, May, Admits, WellPlaced, Settled, KeepsTables, PreFilter;
    if e.Incoming? && PreFilter(c, e.block) {
      var m, target :| TakesUp(c, cfg, s, e.block, e.now, e.later, m, target, t);
      MoveGrows(c, cfg, s.at, e.block, e.now, e.later, m);
      MoveKeepsValid(c, cfg, s.at, e.block, e.now, e.later, m);
    }
  }

  ghost predicate InStepUpTo(c: Crypto, cfg: Config, states: seq<Moment>, n: nat) {
    forall i :: 0 <= i < |states| && i <= n ==> Steady(c, cfg, states[i]) && states[i].synced
  }

  lemma {:induction false} RunGrows(c: Crypto, cfg: Config, states: seq<Moment>, events: seq<Event>, i: nat, j: nat)
    requires Run(c, cfg, states, events) && i <= j < |states| && InStepUpTo(c, cfg, states, j)
    ensures 0 < |states[i].at.chain|
    ensures 0 < |states[j].at.chain| <= |states[i].at.chain| + MAX_ORPHAN_POOL_SIZE * (j - i)
    ensures states[j].at.chain[0] == states[i].at.chain[0]
    // The work on the canonical chain never falls.
    ensures Work(states[i].at.chain) <= Work(states[j].at.chain)
    decreases j
  {
    hide Work, Step, AllSendable, Derived, WellPlaced;
    if i < j {
      RunGrows(c, cfg, states, events, i, j - 1);
      assert Step(c, cfg, states[j - 1], events[j - 1], states[j]);
      StepGrows(c, cfg, states[j - 1], events[j - 1], states[j]);
    }
  }

  // Room in the supply for every block that `n` events can add.
  ghost predicate HasRoomFor(cfg: Config, chain: seq<Block>, n: nat) {
    |chain| > 0 && Supply(GenesisLedger(cfg, chain[0])) + |chain| + MAX_ORPHAN_POOL_SIZE * (n + 1) <= U64_MAX
  }

  // With that room, a run that is in step throughout meets no event that kills the node.
  lemma RunSurvives(c: Crypto, cfg: Config, states: seq<Moment>, events: seq<Event>)
    requires Run(c, cfg, states, events) && |states| <= |events| && InStepUpTo(c, cfg, states, |states| - 1)
    requires HasRoomFor(cfg, states[0].at.chain, |events|)
    ensures !Fatal(c, cfg, states[|states| - 1], events[|states| - 1])
  {
    var n := |states| - 1;
    var s, e := states[n], events[n];
    hide Work, AllSendable, Derived, WellPlaced, Supply, May, Admits, Step;
    RunGrows(c, cfg, states, events, 0, n);
    assert MAX_ORPHAN_POOL_SIZE * n <= MAX_ORPHAN_POOL_SIZE * |events|;
    if Fatal(c, cfg, s, e) {
      var m, target :|
        Chosen(c, cfg, s.at, e.block, e.now, e.later, m, target, s.synced) && (m.DiesOnBlock? || m.DiesOnFork?);
      assert false;
    }
  }

  // A block of one transfer.
  lemma LoneTransfer(c: Crypto, l: Ledger, tx: Tx)
    ensures PreValid(c, l, [tx]) <==>
      tx.Coinbase() || (TransferOk(c, l, tx) && tx.Cost() <= Balance(l, tx.sender))
  {
    assert [] + [tx] == [tx];
    assert PreValid(c, l, []);
    PreValidStep(c, l, [], tx);
    hide PreValid, TransferOk;
  }

  // In whatever block, a transfer is sound and its sender can pay for it.
  lemma TransferInBlock(c: Crypto, l: Ledger, txs: seq<Tx>, tx: Tx)
    requires tx in txs && !tx.Coinbase()
    ensures PreValid(c, l, txs) ==> TransferOk(c, l, tx) && tx.Cost() <= Balance(l, tx.sender)
  {
    if PreValid(c, l, txs) {
      var i :| 0 <= i < |txs| && txs[i] == tx;
      assert PaysAt(c, l, txs, i);
      assert Front(txs[..i + 1]) == txs[..i] && Last(txs[..i + 1]) == tx;
    }
  }

  class Node {
    const chain: Blockchain
    const db: Db
    const pool: Mempool

    constructor (chain: Blockchain, db: Db, pool: Mempool)
      ensures this.chain == chain && this.db == db && this.pool == pool
    {
      this.chain, this.db, this.pool := chain, db, pool;
    }

    ghost predicate Valid()
      reads chain, db, pool
    {
      chain.Valid() && db.Filed() && WellKept(pool.entries)
    }

    // Every pooled transfer could go into the next block: in particular none is confirmed.
    ghost predicate PoolIsSendable()
      reads chain, pool
    {
      AllSendable(chain.c, chain.LedgerOf(), pool.entries)
    }

    // -----------------------------------------------------------------------
    // Transactions
    // -----------------------------------------------------------------------

    // validate_transaction_state: for a signed transfer to a real address whose cost
    // does not overflow, exactly what makes it a valid block of its own.
    method ValidateTransactionState(tx: Tx) returns (ok: bool)
      ensures ok <==>
        tx.fee >= MIN_TX_FEE && tx.signature !in chain.confirmed && CostOf(tx) <= Balance(chain.LedgerOf(), tx.sender)
      ensures chain.c.verifies(tx) && chain.c.decodes(tx.receiver) && !tx.Coinbase() ==>
        (PreValid(chain.c, chain.LedgerOf(), [tx]) <==> ok && tx.Cost() <= U64_MAX)
      ensures !ok && chain.c.verifies(tx) && chain.c.decodes(tx.receiver) && !tx.Coinbase() ==>
        forall txs :: tx in txs ==> !PreValid(chain.c, chain.LedgerOf(), txs)
    {
      ok := tx.fee >= MIN_TX_FEE && tx.signature !in chain.confirmed && Get(chain.balances, tx.sender) >= CostOf(tx);
      LoneTransfer(chain.c, chain.LedgerOf(), tx);
      if !ok && !tx.Coinbase() {
        forall txs | tx in txs ensures !PreValid(chain.c, chain.LedgerOf(), txs) {
          TransferInBlock(chain.c, chain.LedgerOf(), txs, tx);
        }
      }
    }

    // Relay and submission admit a transfer by the same checks.
    method AdmitTx(tx: Tx) returns (accepted: bool)
      requires Valid()
      modifies pool
      ensures Valid()
      ensures pool.entries ==
        if accepted then old(pool.entries)[tx.signature := Entry(tx, chain.Height())] else old(pool.entries)
      ensures accepted <==> Takes(chain.c, chain.LedgerOf(), old(pool.entries), tx)
      // What admits it: a signed transfer to somebody else at a real address, with a fee of
      // two coins or more, neither confirmed nor pending, for which there is room.
      ensures accepted <==>
        && chain.c.verifies(tx) && tx.sender != [] && tx.sender != tx.receiver && chain.c.decodes(tx.receiver)
        && tx.fee >= 2 && tx.signature !in chain.confirmed && tx.signature !in old(pool.entries)
        && HasPlace(old(pool.entries), tx, Get(chain.balances, tx.sender))
      ensures old(PoolIsSendable()) ==> PoolIsSendable()
    {
      hide Blockchain.Valid, WellKept, Count, Debit;
      TakesIs(chain.c, chain.LedgerOf(), pool.entries, tx);
      if tx.sender != [] && tx.signature !in pool.entries {
        HasPlaceIs(pool.entries, tx, chain.balances);
      }
      hide HasPlace;
      if tx.sender == tx.receiver || !chain.c.verifies(tx) || !chain.c.decodes(tx.receiver) {
        return false;
      }
      var fine := ValidateTransactionState(tx);
      if !fine {
        return false;
      }
      var balance := chain.GetBalance(tx.sender);
      var pending := pool.PendingDebit(tx.sender);
      if SatSub(balance, pending) < CostOf(tx) {
        return false;
      }
      accepted := pool.AddTransaction(tx, chain.Height());
    }

    // -----------------------------------------------------------------------
    // Blocks
    // -----------------------------------------------------------------------

    method PutBack(gone: seq<Block>)
      modifies pool
      ensures pool.entries == PutBackAll(old(pool.entries), gone, chain.balances, chain.Height())
    {
      hide Readded;
      var height := chain.Height();
      assert gone[..0] == [];
      for i := 0 to |gone|
        invariant pool.entries == PutBackAll(old(pool.entries), gone[..i], chain.balances, height)
      {
        assert Front(gone[..i + 1]) == gone[..i];
        pool.ReaddDisplaced(gone[i].transactions, chain.balances, height);
      }
      assert gone[..|gone|] == gone;
    }

    method TakeOut(fork: seq<Block>)
      modifies pool
      ensures pool.entries == TakenOut(old(pool.entries), fork)
    {
      hide WithoutAll;
      assert fork[..0] == [];
      for i := 0 to |fork|
        invariant pool.entries == TakenOut(old(pool.entries), fork[..i])
      {
        assert Front(fork[..i + 1]) == fork[..i];
        pool.RemoveIncluded(fork[i].transactions);
      }
      assert fork[..|fork|] == fork;
    }

    // Confirmed transfers leave the pool, and so do stale ones.
    method SettleApplied(b: Block, ghost before: seq<Block>, ghost v: View)
      requires WellKept(pool.entries) && Tracks(chain.c, chain.Cfg(), before, v) && Accepts(chain.c, v, b)
      requires |before| > 0 && chain.LedgerOf() == Derived(chain.c, chain.Cfg(), before + [b])
      modifies pool
      ensures pool.entries == Fresh(WithoutAll(old(pool.entries), b.transactions), chain.Height())
      ensures LeftAfter(old(pool.entries), [b], chain.Height(), pool.entries)
      ensures WellKept(pool.entries)
      ensures AllSendable(chain.c, v.ledger, old(pool.entries)) ==> AllSendable(chain.c, chain.LedgerOf(), pool.entries)
      ensures forall a :: StaysSolvent(old(pool.entries), v.ledger, b, pool.entries, chain.LedgerOf(), a)
    {
      hide *;
      ghost var es := pool.entries;
      pool.RemoveIncluded(b.transactions);
      pool.EvictExpired(chain.Height());
      FreshIsSub(es, b.transactions, chain.Height());
      LeftAfterBlock(es, b, chain.Height());
      DropKeeps(pool.entries, es);
      AppliedPool(chain.c, chain.Cfg(), before, v, b, es, pool.entries);
    }

    method SettleReorged(gone: seq<Block>, fork: seq<Block>, ghost before: seq<Block>, ghost a: nat)
      requires WellKept(pool.entries) && |before| > 0 && ValidChain(chain.c, chain.Cfg(), before) && chain.Valid()
      modifies pool
      ensures pool.entries ==
        Fresh(TakenOut(PutBackAll(old(pool.entries), gone, chain.balances, chain.Height()), fork), chain.Height())
      // What that is.
      ensures DistinctSignatures(TxsOf(gone)) ==>
        Resettled(old(pool.entries), gone, fork, chain.balances, chain.Height(), pool.entries)
      ensures WellKept(pool.entries)
      ensures OnBranch(chain.canonical, before, a, gone, fork) &&
        AllSendable(chain.c, Derived(chain.c, chain.Cfg(), before), old(pool.entries))
        ==> AllSendable(chain.c, chain.LedgerOf(), pool.entries)
    {
      hide *;
      ghost var es := pool.entries;
      PutBack(gone);
      ghost var back := pool.entries;
      LedgerBalances();
      PutBackRejoins(es, gone, chain.LedgerOf(), chain.Height());
      TakeOut(fork);
      ghost var fs := pool.entries;
      TakenOutFacts(back, fork);
      RejoinedSub(es, back, fs, gone);
      pool.EvictExpired(chain.Height());
      FreshStays(es, fs, gone, fork, chain.Height());
      DropKeeps(pool.entries, fs);
      if DistinctSignatures(TxsOf(gone)) {
        SettlesExactly(es, gone, fork, chain.balances, chain.Height());
      }
      chain.LedgerIsDerived();
      if OnBranch(chain.canonical, before, a, gone, fork) &&
        AllSendable(chain.c, Derived(chain.c, chain.Cfg(), before), es)
      {
        PoolAfterReorg(chain.c, chain.Cfg(), before, a, gone, fork, chain.canonical, es, pool.entries);
      }
    }

    lemma LedgerBalances()
      ensures chain.LedgerOf().balances == chain.balances
    {
    }

    // The database holds exactly the tables of the canonical chain.
    ghost predicate InStep()
      reads chain, db
    {
      Persistence.InStep(chain.c, chain.Cfg(), chain.canonical, db)
    }

    ghost function MomentOf(synced: bool): Moment
      reads chain, pool
    {
      Moment(chain.StandingOf(), synced, pool.entries)
    }

    lemma MomentIs(synced: bool)
      ensures MomentOf(synced) == Moment(chain.StandingOf(), synced, pool.entries)
    {
    }

    // What an incoming block leads to.
    method ApplyIncomingBlock(b: Block, now: nat, later: Clock, ghost synced: bool)
      returns (outcome: BlockOutcome, ghost m: Move, ghost target: seq<Block>)
      requires Valid() && (synced ==> InStep())
      modifies chain, db, pool
      ensures chain.Cfg() == old(chain.Cfg()) && (!outcome.Killed? ==> Valid())
      ensures !PreFilter(chain.c, b) ==>
        outcome == Rejected && MomentOf(synced) == old(MomentOf(synced)) && InStep() == old(InStep())
      ensures PreFilter(chain.c, b) ==>
        && |old(chain.canonical)| > 0 && Reports(outcome, m, old(chain.StandingOf()))
        && Chosen(chain.c, chain.Cfg(), old(chain.StandingOf()), b, now, later, m, target, synced)
        && old(Blockchain.Aims(db, chain.blocks, chain.offset, m, target))
      ensures PreFilter(chain.c, b) && !outcome.Killed? ==>
        TakesUp(chain.c, chain.Cfg(), old(MomentOf(synced)), b, now, later, m, target, MomentOf(synced && InStep()))
      // No pooled transfer is ever confirmed.
      ensures old(PoolIsSendable() && chain.Mirrored(db)) && !outcome.Killed? ==> PoolIsSendable()
      ensures outcome.Applied? ==> forall a ::
        StaysSolvent(old(pool.entries), old(chain.LedgerOf()), b, pool.entries, chain.LedgerOf(), a)
    {
      hide *;
      outcome, m, target := Rejected, Refuses, [];
      MomentIs(synced);
      SendableIs();
      if !PreFilter(chain.c, b) {
        return;
      }
      ValidIs();
      StepIs();
      SyncedMirrors();
      SameView(chain);
      chain.StandingPlaced();
      chain.ValidParts();
      chain.LedgerIsDerived();
      chain.StandingIs();
      ghost var cfg, s, v := chain.Cfg(), chain.StandingOf(), chain.ViewOf();
      ghost var es, mirrored := pool.entries, chain.Mirrored(db);
      outcome, m, target := chain.ApplyBlock(db, b, now, later);
      chain.StandingIs();
      SameView(chain);
      StepIs();
      MoveReported(outcome, m, s);
      Loosened(chain.c, cfg, s, b, now, later, m, target, mirrored, synced);
      match outcome {
        case Killed =>
          return;
        case Applied =>
          chain.HeightIs();
          LedToTip(chain.c, cfg, s, mirrored, b, now, later, m, target, chain.StandingOf());
          chain.LedgerIsDerived();
          SettleApplied(b, s.chain, v);
        case Reorged(oldBlocks, newBlocks) =>
          if mirrored {
            LedOntoBranch(chain.c, cfg, s, b, now, later, m, target, chain.StandingOf());
            OnBranchIntro(chain.canonical, s, m.a, newBlocks);
          }
          chain.HeightIs();
          chain.LedgerIsDerived();
          LedgerBalances();
          SettleReorged(oldBlocks, newBlocks, s.chain, m.a);
        case _ =>
          Untouched(chain.c, cfg, s, mirrored, b, now, later, m, target, chain.StandingOf());
      }
      ValidIs();
      SendableIs();
      MomentIs(synced && InStep());
      PoolAfterIs(chain.c, cfg, s, chain.canonical, b, m, es);
      TakenUp(chain.c, cfg, Moment(s, synced, es), b, now, later, m, target, MomentOf(synced && InStep()), mirrored);
    }

    // -----------------------------------------------------------------------
    // Whole runs
    // -----------------------------------------------------------------------

    // Refill the pool at startup from what was persisted.
    method RestorePool(stored: seq<Entry>)
      requires Valid() && pool.entries == map[]
      modifies pool
      ensures Valid() && pool.entries == Restored(map[], Kept(stored, chain.confirmed, chain.Height()))
      // Of a pool persisted whole exactly that comes back which the chain has not
      // confirmed and which is at most a hundred blocks old.
      ensures forall es: Entries ::
        WellKept(es) && Dump(stored, es) && |stored| == |es| ==>
          pool.entries == StillGood(es, chain.confirmed, chain.Height())
      // Transfers that were sendable when persisted still are, unless dropped here.
      ensures (forall e :: e in stored ==> Checked(chain.c, e.tx.signature, e.tx)) ==> PoolIsSendable()
    {
      hide Blockchain.Valid, WellKept, Restored;
      var kept: seq<Entry> := [];
      assert stored[..0] == [];
      for i := 0 to |stored|
        invariant kept == Kept(stored[..i], chain.confirmed, chain.Height())
      {
        assert Front(stored[..i + 1]) == stored[..i];
        if stored[i].tx.signature !in chain.confirmed && !Expired(stored[i], chain.Height()) {
          kept := kept + [stored[i]];
        }
      }
      assert stored[..|stored|] == stored;
      KeptFacts(stored, chain.confirmed, chain.Height());
      RestoredKeeps(map[], kept);
      KeptOfAny(stored, chain.confirmed, chain.Height());
      pool.Restore(kept);
    }

    // Any sequence of incoming blocks and transactions, at any clock readings: what
    // the node goes through is a run, every moment of it steady.
    method Serve(events: seq<Event>) returns (alive: bool, ghost states: seq<Moment>)
      requires Valid() && InStep() && PoolIsSendable()
      modifies chain, db, pool
      ensures chain.Cfg() == old(chain.Cfg())
      ensures Run(chain.c, chain.Cfg(), states, events) && states[0] == old(MomentOf(true))
      ensures forall i :: 0 <= i < |states| ==> Steady(chain.c, chain.Cfg(), states[i])
      ensures alive ==>
        |states| == |events| + 1 && states[|states| - 1] == MomentOf(states[|states| - 1].synced) && Valid()
      ensures alive && states[|states| - 1].synced ==> InStep() && PoolIsSendable()
      ensures alive ==> |chain.canonical| > 0 && chain.LedgerOf() == Derived(chain.c, chain.Cfg(), chain.canonical)
      ensures !alive ==> |states| <= |events| && Fatal(chain.c, chain.Cfg(), states[|states| - 1], events[|states| - 1])
      // With room in the supply, a node that keeps its tables is not killed.
      ensures
        (HasRoomFor(chain.Cfg(), old(chain.canonical), |events|) &&
         InStepUpTo(chain.c, chain.Cfg(), states, |events|)) ==>
          alive
    {
      hide *;
      ghost var cfg, synced := chain.Cfg(), true;
      alive, states := true, [MomentOf(true)];
      MomentIs(true);
      chain.StandingIs();
      SteadyNow(true);
      RunStarts(chain.c, cfg, states, events);
      for i := 0 to |events|
        invariant Valid() && chain.Cfg() == cfg && (synced ==> InStep() && PoolIsSendable())
        invariant |states| == i + 1 && states[|states| - 1] == MomentOf(synced) && states[0] == old(MomentOf(true))
        invariant Run(chain.c, cfg, states, events)
        invariant forall k :: 0 <= k < |states| ==> Steady(chain.c, cfg, states[k])
      {
        MomentIs(synced);
        ValidIs();
        chain.StandingIs();
        chain.LedgerIsDerived();
        ghost var s := MomentOf(synced);
        match events[i] {
          case Incoming(b, now, later) =>
            SyncedMirrors();
            var outcome;
            ghost var m, target;
            outcome, m, target := ApplyIncomingBlock(b, now, later, synced);
            if outcome.Killed? {
              FatalIntro(chain.c, cfg, s, events[i], outcome, m, target);
              StillInStep(chain.c, cfg, states, i, |events|);
              if HasRoomFor(cfg, states[0].at.chain, |events|) && InStepUpTo(chain.c, cfg, states, i) {
                RunSurvives(chain.c, cfg, states, events);
              }
              return false, states;
            }
            synced := synced && InStep();
            BlockSteps(chain.c, cfg, s, b, now, later, m, target, MomentOf(synced));
          case Submitted(tx) =>
            var accepted := AdmitTx(tx);
            MomentIs(synced);
            chain.HeightIs();
            TransferSteps(chain.c, cfg, s, tx, accepted, MomentOf(synced));
        }
        SteadyNow(synced);
        RunExtends(chain.c, cfg, states, events, MomentOf(synced));
        states := states + [MomentOf(synced)];
      }
      MomentIs(synced);
      ValidIs();
      chain.LedgerIsDerived();
    }

    lemma SteadyNow(synced: bool)
      requires Valid() && (synced ==> PoolIsSendable())
      ensures Steady(chain.c, chain.Cfg(), MomentOf(synced))
    {
      hide *;
      MomentIs(synced);
      ValidIs();
      SendableIs();
      chain.StandingPlaced();
      chain.LedgerIsDerived();
      chain.StandingIs();
      SteadyIntro(chain.c, chain.Cfg(), MomentOf(synced));
    }

    lemma StepIs()
      ensures InStep() <==> Persistence.InStep(chain.c, chain.Cfg(), chain.canonical, db)
    {
    }

    lemma SyncedMirrors()
      ensures InStep() ==> chain.Mirrored(db)
    {
      chain.InStepIsMirrored(db);
    }

    lemma ValidIs()
      ensures Valid() <==> chain.Valid() && db.Filed() && WellKept(pool.entries)
    {
    }

    lemma SendableIs()
      ensures PoolIsSendable() <==> AllSendable(chain.c, chain.LedgerOf(), pool.entries)
    {
    }
  }

  lemma FreshIsSub(es: Entries, txs: seq<Tx>, height: nat)
    ensures var fs := Fresh(WithoutAll(es, txs), height); SubEntries(fs, WithoutAll(es, txs)) && SubEntries(fs, es)
  {
    hide Signatures;
  }

  lemma RejoinedSub(es: Entries, fs: Entries, gs: Entries, gone: seq<Block>)
    requires Rejoined(es, fs, gone) && SubEntries(gs, fs)
    ensures Rejoined(es, gs, gone)
  {
    hide PendingOrDisplaced;
  }

  lemma FreshStays(es: Entries, fs: Entries, gone: seq<Block>, fork: seq<Block>, height: nat)
    requires Rejoined(es, fs, gone) && NoneOf(fs, fork, |fork|)
    ensures var gs := Fresh(fs, height); SubEntries(gs, fs) && Rejoined(es, gs, gone) && NoneOf(gs, fork, |fork|)
  {
    hide Signatures, PendingOrDisplaced;
  }

  // The pool after an appended block.
  lemma AppliedPool(c: Crypto, cfg: Config, chain: seq<Block>, v: View, b: Block, es: Entries, fs: Entries)
    requires Tracks(c, cfg, chain, v) && Accepts(c, v, b) && WellKept(es)
    requires SubEntries(fs, WithoutAll(es, b.transactions))
    ensures AllSendable(c, v.ledger, es) ==> AllSendable(c, Derived(c, cfg, chain + [b]), fs)
    ensures forall a :: StaysSolvent(es, v.ledger, b, fs, Derived(c, cfg, chain + [b]), a)
  {
    AppendedBooks(c, cfg, chain, v, b);
    hide Tracks, Accepts, Derived, Supply, Solvent, AllPending, AllSendable, SubEntries, WithoutAll, Booked;
    hide Process, DistinctSignatures, Bounded;
    var l' := Derived(c, cfg, chain + [b]);
    if AllSendable(c, v.ledger, es) {
      PoolAfterBlock(c, v.ledger, l', b, es, fs);
    }
    forall a ensures StaysSolvent(es, v.ledger, b, fs, l', a) {
      if AllPending(es, b.transactions, a) && Solvent(es, v.ledger, a) && Balance(v.ledger, a) < U64_MAX {
        BlockKeepsSolvent(es, v.ledger, l', b, Process(c, v, b).payouts, a);
        DroppingKeepsSolvent(fs, WithoutAll(es, b.transactions), l', a);
      }
    }
  }

  // The chain after a switch to `fork` above block `a`, and what was displaced for it.
  ghost predicate OnBranch(after: seq<Block>, before: seq<Block>, a: nat, gone: seq<Block>, fork: seq<Block>) {
    a < |before| && (gone == before[a + 1..] || gone == []) && IsPrefix(after, Branch(before, a, fork))
  }

  lemma TakesIs(c: Crypto, l: Ledger, es: Entries, tx: Tx)
    ensures Takes(c, l, es, tx) <==>
      && tx.sender != tx.receiver && Sendable(c, l, tx)
      && SatSub(Balance(l, tx.sender), Min(Debit(es, tx.sender), U64_MAX)) >= CostOf(tx)
      && tx.signature !in es
      && Count(es, tx.sender) < MAX_PENDING_PER_SENDER && |es| < MAX_MEMPOOL_SIZE
  {
    hide Debit, Count, Sendable;
  }

  lemma OnBranchIntro(after: seq<Block>, s: Standing, a: nat, fork: seq<Block>)
    requires a < |s.chain| && IsPrefix(after, Branch(s.chain, a, fork))
    ensures OnBranch(after, s.chain, a, Displaced(s, a), fork)
  {
    hide Branch;
  }

  lemma PoolAfterIs(c: Crypto, cfg: Config, s: Standing, after: seq<Block>, b: Block, m: Move, es: Entries)
    requires |after| > 0
    ensures m.Extends? ==> PoolAfter(c, cfg, s, after, b, m, es) == Fresh(WithoutAll(es, b.transactions), |after|)
    ensures m.Switches? ==>
      var back := PutBackAll(es, Displaced(s, m.a), Derived(c, cfg, after).balances, |after|);
      PoolAfter(c, cfg, s, after, b, m, es) == Fresh(TakenOut(back, m.fork), |after|)
    ensures m.Refuses? || m.Waits? ==> PoolAfter(c, cfg, s, after, b, m, es) == es
  {
    hide Fresh, WithoutAll, PutBackAll, TakenOut, Derived;
  }

  lemma Untouched(c: Crypto, cfg: Config, s: Standing, mirrored: bool, b: Block, now: nat, later: Clock, m: Move,
                  target: seq<Block>, t: Standing)
    requires LeadsTo(c, cfg, s, mirrored, b, now, later, m, target, t) && (m.Refuses? || m.Waits?)
    ensures t.chain == s.chain
  {
  }

  lemma Loosened(c: Crypto, cfg: Config, s: Standing, b: Block, now: nat, later: Clock, m: Move, target: seq<Block>,
                 mirrored: bool, synced: bool)
    requires |s.chain| > 0 && Chosen(c, cfg, s, b, now, later, m, target, mirrored) && (synced ==> mirrored)
    ensures Chosen(c, cfg, s, b, now, later, m, target, synced)
  {
    hide Chosen;
    ChosenAnyway(c, cfg, s, b, now, later, m, target, mirrored);
  }

  lemma TakenUp(c: Crypto, cfg: Config, s: Moment, b: Block, now: nat, later: Clock, m: Move, target: seq<Block>,
                t: Moment,
                mirrored: bool)
    requires WellPlaced(c, cfg, s.at) && |s.at.chain| > 0 && |t.at.chain| > 0 && !m.DiesOnBlock? && !m.DiesOnFork?
    requires Chosen(c, cfg, s.at, b, now, later, m, target, mirrored) && (s.synced ==> mirrored)
    requires LeadsTo(c, cfg, s.at, mirrored, b, now, later, m, target, t.at)
    requires t.entries == PoolAfter(c, cfg, s.at, t.at.chain, b, m, s.entries)
    requires t.synced <==> s.synced && KeepsTables(c, cfg, s.at, now, later, m)
    ensures TakesUp(c, cfg, s, b, now, later, m, target, t)
  {
    hide Chosen, LeadsTo, PoolAfter, KeepsTables, WellPlaced;
    Loosened(c, cfg, s.at, b, now, later, m, target, mirrored, s.synced);
    if mirrored && !s.synced {
      LeadsAnyway(c, cfg, s.at, b, now, later, m, target, t.at);
    }
  }

  lemma BlockSteps(c: Crypto, cfg: Config, s: Moment, b: Block, now: nat, later: Clock, m: Move, target: seq<Block>,
                   t: Moment)
    requires if PreFilter(c, b) then TakesUp(c, cfg, s, b, now, later, m, target, t) else t == s
    ensures Step(c, cfg, s, Incoming(b, now, later), t)
  {
    hide PreFilter, TakesUp;
  }

  lemma TransferSteps(c: Crypto, cfg: Config, s: Moment, tx: Tx, accepted: bool, t: Moment)
    requires |s.at.chain| > 0 && (accepted <==> Takes(c, Derived(c, cfg, s.at.chain), s.entries, tx))
    requires t == s.(entries := if accepted then s.entries[tx.signature := Entry(tx, |s.at.chain|)] else s.entries)
    ensures Step(c, cfg, s, Submitted(tx), t)
  {
    hide Takes, Derived;
  }

  lemma FatalIntro(c: Crypto, cfg: Config, s: Moment, e: Event, outcome: BlockOutcome, m: Move, target: seq<Block>)
    requires e.Incoming? && PreFilter(c, e.block) && |s.at.chain| > 0 && Reports(outcome, m, s.at) && outcome.Killed?
    requires Chosen(c, cfg, s.at, e.block, e.now, e.later, m, target, s.synced)
    ensures Fatal(c, cfg, s, e)
  {
    hide Chosen, PreFilter;
  }

  lemma SteadyIntro(c: Crypto, cfg: Config, s: Moment)
    requires |s.at.chain| > 0 && WellPlaced(c, cfg, s.at)
    requires s.synced ==> AllSendable(c, Derived(c, cfg, s.at.chain), s.entries)
    ensures Steady(c, cfg, s)
  {
    hide WellPlaced, AllSendable, Derived;
  }

  lemma StillInStep(c: Crypto, cfg: Config, states: seq<Moment>, m: nat, n: nat)
    requires m <= n
    ensures InStepUpTo(c, cfg, states, n) ==> InStepUpTo(c, cfg, states, m)
  {
    hide Steady;
  }

  lemma RunStarts(c: Crypto, cfg: Config, states: seq<Moment>, events: seq<Event>)
    requires |states| == 1
    ensures Run(c, cfg, states, events)
  {
  }

  lemma RunExtends(c: Crypto, cfg: Config, states: seq<Moment>, events: seq<Event>, t: Moment)
    requires Run(c, cfg, states, events) && |states| <= |events|
    requires Step(c, cfg, states[|states| - 1], events[|states| - 1], t)
    ensures Run(c, cfg, states + [t], events)
  {
    hide Step;
  }

  // -------------------------------------------------------------------------
  // The pool from one moment to the next
  // -------------------------------------------------------------------------

  // What a switch displaces: the canonical blocks above the ancestor, if that is in the window.
  function GoneBy(s: Standing, a: nat): seq<Block> {
    if s.start <= a < |s.chain| then s.chain[a + 1..] else []
  }

  // The block came on top: what it includes leaves the pool, and what has expired.
  lemma PoolAfterOneMore(c: Crypto, cfg: Config, s: Moment, b: Block, now: nat, later: Clock, target: seq<Block>,
                         t: Moment)
    requires TakesUp(c, cfg, s, b, now, later, Extends, target, t)
    ensures LeftAfter(s.entries, [b], |t.at.chain|, t.entries)
  {
    hide Chosen, LeadsTo, KeepsTables, LeftAfter, Fresh, WithoutAll;
    LeftAfterBlock(s.entries, b, |t.at.chain|);
  }

  // The node switched, wherever it ended: the displaced transactions come back as far
  // as there is room, and then what the fork includes leaves, and what has expired.
  lemma PoolAfterSwitch(c: Crypto, cfg: Config, s: Moment, b: Block, now: nat, later: Clock, m: Move,
                        target: seq<Block>, t: Moment)
    requires Steady(c, cfg, s) && TakesUp(c, cfg, s, b, now, later, m, target, t) && m.Switches?
    ensures |t.at.chain| > 0
    ensures Resettled(s.entries, GoneBy(s.at, m.a), m.fork, Derived(c, cfg, t.at.chain).balances, |t.at.chain|,
                      t.entries)
  {
    hide Chosen, LeadsTo, KeepsTables, Derived, ValidChain, Resettled, Fresh, TakenOut, PutBackAll, AllSendable;
    hide Sound, PoolHashed, DistinctSignatures;
    GoneIsDistinct(c, cfg, s.at, m.a);
    SettlesExactly(s.entries, GoneBy(s.at, m.a), m.fork, Derived(c, cfg, t.at.chain).balances, |t.at.chain|);
  }

  lemma GoneIsDistinct(c: Crypto, cfg: Config, s: Standing, a: nat)
    requires ValidChain(c, cfg, s.chain)
    ensures DistinctSignatures(TxsOf(GoneBy(s, a)))
  {
    hide ValidChain, DistinctSignatures;
    if s.start <= a < |s.chain| {
      RunIsDistinct(c, cfg, s.chain, a + 1, |s.chain|);
      assert s.chain[a + 1..|s.chain|] == s.chain[a + 1..];
    } else {
      NothingRepeats();
    }
  }

  lemma NothingRepeats()
    ensures DistinctSignatures(TxsOf([]))
  {
  }

  // A pending transfer that is in no block of the fork and at most a hundred blocks
  // old stays as it is.
  lemma PendingStays(c: Crypto, cfg: Config, s: Moment, b: Block, now: nat, later: Clock, m: Move,
                     target: seq<Block>, t: Moment, k: Signature)
    requires Steady(c, cfg, s) && TakesUp(c, cfg, s, b, now, later, m, target, t) && m.Switches?
    requires k in s.entries && |t.at.chain| <= s.entries[k].addedHeight + 100
    requires forall j :: 0 <= j < |m.fork| ==> !Includes(m.fork[j], k)
    ensures k in t.entries && t.entries[k] == s.entries[k]
  {
    hide TakesUp, Steady, Refilled, Derived;
    PoolAfterSwitch(c, cfg, s, b, now, later, m, target, t);
    var txs, balances, height := TxsOf(GoneBy(s.at, m.a)), Derived(c, cfg, t.at.chain).balances, |t.at.chain|;
    var back :| Refilled(s.entries, back, txs, balances, height) && LeftAfter(back, m.fork, height, t.entries);
    RefilledKeeps(s.entries, back, txs, balances, height);
  }

  lemma RefilledKeeps(es: Entries, fs: Entries, txs: seq<Tx>, balances: map<Address, u64>, height: nat)
    requires Refilled(es, fs, txs, balances, height)
    ensures forall s :: s in es ==> s in fs && fs[s] == es[s]
  {
    hide HasPlace, UpTo;
  }

  // A transfer of a displaced block that is in no block of the fork comes back, if
  // there is room for all that its sender has pending and all of its that was displaced.
  lemma DisplacedReturns(c: Crypto, cfg: Config, s: Moment, b: Block, now: nat, later: Clock, m: Move,
                         target: seq<Block>, t: Moment, n: nat, i: nat)
    requires Steady(c, cfg, s) && s.synced && FiledBySignature(s.entries)
    requires TakesUp(c, cfg, s, b, now, later, m, target, t) && m.Switches?
    requires s.at.start <= m.a < n < |s.at.chain| && i < |s.at.chain[n].transactions| && |t.at.chain| > 0
    requires s.at.chain[n].transactions[i].sender != []
    requires forall j :: 0 <= j < |m.fork| ==> !Includes(m.fork[j], s.at.chain[n].transactions[i].signature)
    requires RoomForAll(s.entries, TxsOf(s.at.chain[m.a + 1..]), Derived(c, cfg, t.at.chain).balances,
                        s.at.chain[n].transactions[i].sender)
    ensures var tx := s.at.chain[n].transactions[i];
      tx.signature in t.entries && t.entries[tx.signature] == Entry(tx, |t.at.chain|)
  {
    hide TakesUp, RoomForAll, Includes, Derived, ValidChain, DistinctSignatures, AllSendable;
    var gone, balances, height := GoneBy(s.at, m.a), Derived(c, cfg, t.at.chain).balances, |t.at.chain|;
    GoneIsDistinct(c, cfg, s.at, m.a);
    ConfirmedIsNotPending(c, cfg, s, n, i);
    assert gone[n - (m.a + 1)] == s.at.chain[n];
    hide Steady;
    DisplacedInPool(s.entries, gone, m.fork, balances, height, n - (m.a + 1), i);
    SwitchSettles(c, cfg, s, b, now, later, m, target, t);
  }

  lemma SwitchSettles(c: Crypto, cfg: Config, s: Moment, b: Block, now: nat, later: Clock, m: Move,
                      target: seq<Block>, t: Moment)
    requires TakesUp(c, cfg, s, b, now, later, m, target, t) && m.Switches?
    ensures |t.at.chain| > 0
    ensures var back := PutBackAll(s.entries, GoneBy(s.at, m.a), Derived(c, cfg, t.at.chain).balances, |t.at.chain|);
      t.entries == Fresh(TakenOut(back, m.fork), |t.at.chain|)
  {
    hide Chosen, LeadsTo, KeepsTables, Derived, Fresh, TakenOut, PutBackAll;
  }

  lemma DisplacedInPool(es: Entries, gone: seq<Block>, fork: seq<Block>, balances: map<Address, u64>, height: nat,
                        j: nat, i: nat)
    requires DistinctSignatures(TxsOf(gone)) && j < |gone| && i < |gone[j].transactions|
    requires gone[j].transactions[i].sender != [] && gone[j].transactions[i].signature !in es
    requires RoomForAll(es, TxsOf(gone), balances, gone[j].transactions[i].sender)
    requires forall k :: 0 <= k < |fork| ==> !Includes(fork[k], gone[j].transactions[i].signature)
    ensures var tx, back := gone[j].transactions[i], PutBackAll(es, gone, balances, height);
      var fs := Fresh(TakenOut(back, fork), height);
      tx.signature in fs && fs[tx.signature] == Entry(tx, height)
  {
    hide RoomForAll, Includes, Fresh, TakenOut, PutBackAll, DistinctSignatures, Readded, TxsOf;
    var k := PlaceIn(gone, j, i);
    RoomBringsBack(es, TxsOf(gone), balances, height, k);
    PutBackIsReadded(es, gone, balances, height);
    ReaddedStays(PutBackAll(es, gone, balances, height), fork, height, gone[j].transactions[i].signature);
  }

  // Where a transaction of a run of blocks stands among all of them.
  lemma {:induction false} PlaceIn(blocks: seq<Block>, j: nat, i: nat) returns (k: nat)
    requires j < |blocks| && i < |blocks[j].transactions|
    ensures k < |TxsOf(blocks)| && TxsOf(blocks)[k] == blocks[j].transactions[i]
  {
    if j == |blocks| - 1 {
      k := |TxsOf(Front(blocks))| + i;
    } else {
      k := PlaceIn(Front(blocks), j, i);
    }
  }

  lemma ConfirmedIsNotPending(c: Crypto, cfg: Config, s: Moment, n: nat, i: nat)
    requires Steady(c, cfg, s) && s.synced && 0 < n < |s.at.chain| && i < |s.at.chain[n].transactions|
    requires s.at.chain[n].transactions[i].sender != []
    requires FiledBySignature(s.entries)
    ensures s.at.chain[n].transactions[i].signature !in s.entries
  {
    hide ValidChain, Derived, PoolHashed, Sound;
    ConfirmedOnChain(c, cfg, s.at.chain, s.at.chain[n].transactions[i].signature);
  }

  lemma ReaddedStays(back: Entries, fork: seq<Block>, height: nat, k: Signature)
    requires k in back && height <= back[k].addedHeight + 100
    requires forall j :: 0 <= j < |fork| ==> !Includes(fork[j], k)
    ensures var fs := Fresh(TakenOut(back, fork), height); k in fs && fs[k] == back[k]
  {
    hide Fresh, TakenOut;
    LeftIsExact(back, fork, height);
  }

  // What the pool becomes with each move.
  ghost predicate PoolFollows(c: Crypto, cfg: Config, s: Moment, b: Block, m: Move, t: Moment)
    requires |t.at.chain| > 0
  {
    && (m.Extends? ==> LeftAfter(s.entries, [b], |t.at.chain|, t.entries))
    && (m.Refuses? || m.Waits? ==> t.entries == s.entries)
    && (m.Switches? ==>
          Resettled(s.entries, GoneBy(s.at, m.a), m.fork, Derived(c, cfg, t.at.chain).balances, |t.at.chain|,
                    t.entries))
  }

  // A block of the wrong shape changes nothing. Any other extends the chain if it may
  // come next, changes nothing if it may not even wait, and otherwise waits as an orphan
  // or brings in the strongest rival; and the pool follows.
  lemma BlockIsDecided(c: Crypto, cfg: Config, s: Moment, b: Block, now: nat, later: Clock, t: Moment)
    requires Steady(c, cfg, s) && s.synced && HasRoom(cfg, s.at.chain) && Step(c, cfg, s, Incoming(b, now, later), t)
    ensures |t.at.chain| > 0
    ensures
      if HasMiner(b) && ShapeRule(c, b.transactions) && b.hash == c.headerHash(b.HeaderOf()) then
        exists m :: DealtWith(c, cfg, s.at, b, now, later, m, t.at) && PoolFollows(c, cfg, s, b, m, t)
      else t == s
  {
    FilterPasses(c, b);
    StepMeans(c, cfg, s, b, now, later, t);
    if PreFilter(c, b) {
      hide *;
      var m, target := StepBy(c, cfg, s, b, now, later, t);
      MoveLeads(c, cfg, s, b, now, later, m, target, t);
      SteadyMeans(c, cfg, s);
      MoveIsDecided(c, cfg, s.at, b, now, later, m);
      PoolFollowsMove(c, cfg, s, b, now, later, m, target, t);
    }
  }

  lemma StepMeans(c: Crypto, cfg: Config, s: Moment, b: Block, now: nat, later: Clock, t: Moment)
    requires |s.at.chain| > 0 && Step(c, cfg, s, Incoming(b, now, later), t)
    ensures |t.at.chain| > 0 && (!PreFilter(c, b) ==> t == s)
  {
    hide PreFilter, Chosen, LeadsTo, PoolAfter, KeepsTables;
  }

  lemma StepBy(c: Crypto, cfg: Config, s: Moment, b: Block, now: nat, later: Clock, t: Moment)
    returns (m: Move, target: seq<Block>)
    requires Step(c, cfg, s, Incoming(b, now, later), t) && PreFilter(c, b)
    ensures TakesUp(c, cfg, s, b, now, later, m, target, t)
  {
    hide PreFilter, TakesUp;
    m, target :| TakesUp(c, cfg, s, b, now, later, m, target, t);
  }

  lemma MoveLeads(c: Crypto, cfg: Config, s: Moment, b: Block, now: nat, later: Clock, m: Move, target: seq<Block>,
                  t: Moment)
    requires s.synced && TakesUp(c, cfg, s, b, now, later, m, target, t)
    ensures |s.at.chain| > 0 && |t.at.chain| > 0 && !m.DiesOnBlock? && !m.DiesOnFork?
    ensures May(c, cfg, s.at, b, now, later, m) && t.at == Settled(c, cfg, s.at, b, now, later, m)
  {
    hide May, Admits, Settled, PoolAfter, KeepsTables, HasRoom;
  }

  lemma SteadyMeans(c: Crypto, cfg: Config, s: Moment)
    requires Steady(c, cfg, s)
    ensures |s.at.chain| > 0 && WellPlaced(c, cfg, s.at)
  {
    hide WellPlaced, AllSendable, Derived;
  }

  lemma PoolFollowsMove(c: Crypto, cfg: Config, s: Moment, b: Block, now: nat, later: Clock, m: Move,
                        target: seq<Block>, t: Moment)
    requires Steady(c, cfg, s) && TakesUp(c, cfg, s, b, now, later, m, target, t)
    ensures |t.at.chain| > 0 && PoolFollows(c, cfg, s, b, m, t)
  {
    hide Steady, Chosen, LeadsTo, KeepsTables, LeftAfter, Resettled, Derived, Fresh, WithoutAll, TakenOut, PutBackAll;
    if m.Extends? {
      PoolAfterOneMore(c, cfg, s, b, now, later, target, t);
    } else if m.Switches? {
      PoolAfterSwitch(c, cfg, s, b, now, later, m, target, t);
    }
  }

  // A transfer joins the pool exactly when it could go into the next block and there is
  // room for it; nothing else changes.
  lemma TransferIsDecided(c: Crypto, cfg: Config, s: Moment, tx: Tx, t: Moment)
    requires Step(c, cfg, s, Submitted(tx), t)
    ensures |s.at.chain| > 0
    ensures var l := Derived(c, cfg, s.at.chain);
      var joins :=
        && c.verifies(tx) && tx.sender != [] && tx.sender != tx.receiver && c.decodes(tx.receiver) && tx.fee >= 2
        && !Used(s.at.chain, tx.signature) && tx.signature !in s.entries
        && HasPlace(s.entries, tx, Get(l.balances, tx.sender));
      ValidChain(c, cfg, s.at.chain) ==>
        t == s.(entries := if joins then s.entries[tx.signature := Entry(tx, |s.at.chain|)] else s.entries)
  {
    hide Derived, ValidChain, CanAfford, HasSlot, HasPlace, Used;
    if ValidChain(c, cfg, s.at.chain) {
      ConfirmedOnChain(c, cfg, s.at.chain, tx.signature);
      UsedIs(s.at.chain, tx.signature);
      TakesIs(c, Derived(c, cfg, s.at.chain), s.entries, tx);
      PlaceToTake(s.entries, tx, Derived(c, cfg, s.at.chain).balances);
    }
  }

  lemma PlaceToTake(es: Entries, tx: Tx, balances: map<Address, u64>)
    ensures tx.sender != [] && tx.signature !in es ==>
      (HasPlace(es, tx, Get(balances, tx.sender)) <==>
         Count(es, tx.sender) < MAX_PENDING_PER_SENDER && |es| < MAX_MEMPOOL_SIZE && CanAfford(es, balances, tx))
  {
    hide HasPlace, CanAfford, Count;
    if tx.sender != [] && tx.signature !in es {
      HasPlaceIs(es, tx, balances);
    }
  }

  lemma SameView(n: Blockchain)
    ensures n.ViewOf().ledger == n.LedgerOf()
  {
  }
}
