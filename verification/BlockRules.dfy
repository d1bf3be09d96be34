/** The rules a block must meet, spelled out, and what the hash of a block commits to. */
module BlockRules {
  import opened Prelude
  import opened Types
  import opened Consensus
  import opened Conservation
  import opened Replay
  import opened MedianTime
  import opened ForkChoice
  import opened Consistency
  import opened Decisions
  import opened AccountBook

  // -------------------------------------------------------------------------
  // The rules
  // -------------------------------------------------------------------------

  // The block names its place, its predecessor and its contents, and carries the work due.
  ghost predicate HeaderRule(c: Crypto, chain: seq<Block>, difficulty: real, b: Block)
    requires |chain| > 0
  {
    && b.index == |chain|
    && b.previousHash == chain[|chain| - 1].hash
    && b.hash == c.headerHash(Header(b.index, b.previousHash, b.timestamp, b.nonce, b.txRoot))
    && b.txRoot == c.txRoot(b.transactions)
    && c.meets(b.hash, difficulty)
  }

  // The positions from `lo` on dated before `t`.
  ghost function DatedBefore(chain: seq<Block>, lo: int, t: u64): set<nat> {
    set i: nat | lo <= i < |chain| && chain[i].timestamp < t
  }

  // More than half of the last eleven blocks are dated earlier.
  ghost predicate DateRule(chain: seq<Block>, t: u64) {
    |DatedBefore(chain, |chain| - 11, t)| > (if |chain| < 11 then |chain| else 11) / 2
  }

  ghost function TransfersOf(txs: seq<Tx>): set<nat> {
    set i: nat | i < |txs| && txs[i].sender != []
  }

  // At most 240 transfers; a coinbase stands only in front, mints at most one coin,
  // pays no fee, and pays a real address.
  ghost predicate ShapeRule(c: Crypto, txs: seq<Tx>) {
    && |TransfersOf(txs)| <= 240
    && (forall i :: 1 <= i < |txs| ==> txs[i].sender != [])
    && (|txs| > 0 && txs[0].sender == [] ==> txs[0].amount <= 1 && txs[0].fee == 0 && c.decodes(txs[0].receiver))
  }

  // `s` is the signature of a transfer in one of the blocks after genesis.
  ghost predicate Used(chain: seq<Block>, s: Signature) {
    exists n, i :: 0 < n < |chain| && 0 <= i < |chain[n].transactions| &&
      chain[n].transactions[i].sender != [] && chain[n].transactions[i].signature == s
  }

  // A transfer is signed, pays two coins of fee or more, to a real address, costs no
  // more than a u64, is new, and its sender can pay for it and for all it sends
  // earlier in the block from what it had before the block.
  ghost predicate TransferRule(c: Crypto, chain: seq<Block>, balances: map<Address, u64>, txs: seq<Tx>, i: nat)
    requires i < |txs|
  {
    var tx, upTo := txs[i], txs[..i + 1];
    tx.sender != [] ==>
      && c.verifies(tx) && tx.fee >= 2 && c.decodes(tx.receiver) && tx.amount + tx.fee <= 0xFFFF_FFFF_FFFF_FFFF
      && !Used(chain, tx.signature)
      && (forall j :: 0 <= j < i && txs[j].sender != [] ==> txs[j].signature != tx.signature)
      && Sum(PaysOut(upTo, tx.sender)) + Sum(FeesOut(upTo, tx.sender)) <=
           (if tx.sender in balances then balances[tx.sender] else 0)
  }

  ghost predicate ByTheRules(c: Crypto, chain: seq<Block>, l: Ledger, b: Block)
    requires |chain| > 0
  {
    && HeaderRule(c, chain, l.difficulty, b) && DateRule(chain, b.timestamp) && ShapeRule(c, b.transactions)
    && forall i :: 0 <= i < |b.transactions| ==> TransferRule(c, chain, l.balances, b.transactions, i)
  }

  lemma {:induction false} NewestBefore(chain: seq<Block>, n: nat, t: u64)
    requires n <= |chain|
    ensures CountBelow(Newest(chain, n), t) == |DatedBefore(chain, |chain| - n, t)|
  {
    var here := DatedBefore(chain, |chain| - n, t);
    if n == 0 {
      assert here == {};
    } else {
      var i := |chain| - n;
      NewestBefore(chain, n - 1, t);
      CountAppend(Newest(chain, n - 1), [chain[i].timestamp], t);
      assert [chain[i].timestamp][1..] == [];
      var above := DatedBefore(chain, |chain| - (n - 1), t);
      assert here == if chain[i].timestamp < t then above + {i} else above;
    }
  }

  lemma DateRuleIsMedian(chain: seq<Block>, t: u64)
    requires |chain| > 0
    ensures t > MedianTimePast(chain) <==> DateRule(chain, t)
  {
    MedianByCounting(chain, t);
    hide MedianTimePast, Newest;
    var n := |Recent(chain)|;
    NewestBefore(chain, n, t);
    assert DatedBefore(chain, |chain| - 11, t) == DatedBefore(chain, |chain| - n, t);
  }

  lemma {:induction false} TransfersCounted(txs: seq<Tx>)
    ensures CountTransfers(txs) == |TransfersOf(txs)|
  {
    if txs == [] {
      assert TransfersOf(txs) == {};
    } else {
      TransfersCounted(Front(txs));
      var below := TransfersOf(Front(txs));
      assert TransfersOf(txs) == if Last(txs).sender != [] then below + {|txs| - 1} else below;
    }
  }

  lemma ShapeIsWellFormed(c: Crypto, chain: seq<Block>, l: Ledger, b: Block)
    requires |chain| > 0
    ensures HeaderRule(c, chain, l.difficulty, b) && DateRule(chain, b.timestamp) && ShapeRule(c, b.transactions) <==>
      && b.index == |chain| && b.previousHash == Last(chain).hash && b.timestamp > MedianTimePast(chain)
      && c.meets(b.hash, l.difficulty) && WellFormed(c, b)
  {
    hide MedianTimePast, DateRule, CountTransfers, TransfersOf;
    DateRuleIsMedian(chain, b.timestamp);
    TransfersCounted(b.transactions);
  }

  lemma TransfersPay(c: Crypto, cfg: Config, chain: seq<Block>, txs: seq<Tx>)
    requires ValidChain(c, cfg, chain)
    ensures var l := Derived(c, cfg, chain);
      PreValid(c, l, txs) <==> forall i :: 0 <= i < |txs| ==> TransferRule(c, chain, l.balances, txs, i)
  {
    assert |chain| > 0;
    hide ValidChain, Derived, TransferRule, PaysAt;
    var l := Derived(c, cfg, chain);
    if forall i :: 0 <= i < |txs| ==> TransferRule(c, chain, l.balances, txs, i) {
      forall i | 0 <= i < |txs| && !txs[i].Coinbase() ensures PaysAt(c, l, txs, i) {
        OneTransferPays(c, cfg, chain, txs, i);
      }
      forall i, j | 0 <= i < j < |txs| && !txs[i].Coinbase() && !txs[j].Coinbase()
        ensures txs[i].signature != txs[j].signature
      {
        OneTransferPays(c, cfg, chain, txs, j);
      }
    }
    if PreValid(c, l, txs) {
      forall i | 0 <= i < |txs| ensures TransferRule(c, chain, l.balances, txs, i) {
        OneTransferPays(c, cfg, chain, txs, i);
      }
    }
  }

  ghost predicate NewUpTo(txs: seq<Tx>, i: nat)
    requires i < |txs|
  {
    forall j :: 0 <= j < i && txs[j].sender != [] ==> txs[j].signature != txs[i].signature
  }

  lemma OneTransferPays(c: Crypto, cfg: Config, chain: seq<Block>, txs: seq<Tx>, i: nat)
    requires ValidChain(c, cfg, chain) && i < |txs|
    ensures var l := Derived(c, cfg, chain);
      TransferRule(c, chain, l.balances, txs, i) <==>
        txs[i].sender == [] || (PaysAt(c, l, txs, i) && NewUpTo(txs, i))
  {
    assert |chain| > 0;
    hide ValidChain, Derived, PaysOut, FeesOut, Spent, Used;
    var l := Derived(c, cfg, chain);
    ConfirmedOnChain(c, cfg, chain, txs[i].signature);
    UsedIs(chain, txs[i].signature);
    SpentIsSum(txs[..i + 1], txs[i].sender);
  }

  lemma UsedIs(chain: seq<Block>, s: Signature)
    ensures Used(chain, s) <==>
      exists n, i :: 0 < n < |chain| && 0 <= i < |chain[n].transactions| &&
        chain[n].transactions[i].sender != [] && chain[n].transactions[i].signature == s
  {
  }

  // Every block of a valid chain meets the rules on what is below it.
  lemma EveryBlockObeys(c: Crypto, cfg: Config, chain: seq<Block>, n: nat)
    requires ValidChain(c, cfg, chain) && 0 < n < |chain|
    ensures ByTheRules(c, chain[..n], Derived(c, cfg, chain[..n]), chain[n])
  {
    ValidPrefix(c, cfg, chain, n);
    ValidStands(c, cfg, chain, n);
    hide ValidChain, Derived, WellFormed, PreValid, MedianTimePast, HeaderRule, DateRule, ShapeRule, TransferRule;
    hide Process;
    ShapeIsWellFormed(c, chain[..n], Derived(c, cfg, chain[..n]), chain[n]);
    TransfersPay(c, cfg, chain[..n], chain[n].transactions);
  }

  // And with room in the supply nothing else is asked: a block makes a valid chain
  // longer exactly when it meets them.
  lemma NextBlockExactly(c: Crypto, cfg: Config, chain: seq<Block>, b: Block)
    requires ValidChain(c, cfg, chain) && Roomy(cfg, chain)
    ensures ValidChain(c, cfg, chain + [b]) <==> ByTheRules(c, chain, Derived(c, cfg, chain), b)
  {
    var n := |chain|;
    hide Derived, WellFormed, PreValid, MedianTimePast, HeaderRule, DateRule, ShapeRule, TransferRule, Process;
    hide ByTheRules, Roomy, Booked;
    assert (chain + [b])[..n] == chain;
    if ValidChain(c, cfg, chain + [b]) {
      EveryBlockObeys(c, cfg, chain + [b], n);
    }
    if ByTheRules(c, chain, Derived(c, cfg, chain), b) {
      RulesAdmit(c, cfg, chain, b);
      NeverAborts(c, cfg, chain, b);
      ValidExtend(c, cfg, chain, b);
    }
  }

  lemma RulesAdmit(c: Crypto, cfg: Config, chain: seq<Block>, b: Block)
    requires ValidChain(c, cfg, chain)
    ensures |chain| > 0
    ensures ByTheRules(c, chain, Derived(c, cfg, chain), b) <==> Admissible(c, FullView(c, cfg, chain), b)
  {
    assert |chain| > 0;
    hide ValidChain, Derived, WellFormed, PreValid, MedianTimePast, HeaderRule, DateRule, ShapeRule, TransferRule;
    ShapeIsWellFormed(c, chain, Derived(c, cfg, chain), b);
    TransfersPay(c, cfg, chain, b.transactions);
  }

  // A replay completes exactly when the list is a valid chain and no block is dated
  // more than two minutes after the clock when its turn comes.
  lemma ReplayCompletes(c: Crypto, cfg: Config, list: seq<Block>, now: nat, later: Clock)
    requires |list| > 0 && list[0].index == 0
    ensures Adopts(c, cfg, list, now, later) <==>
      ValidChain(c, cfg, list) && forall n :: 0 < n < |list| ==> list[n].timestamp <= now + later(n) + 120
  {
    hide ValidChain, Adopts;
    AdoptsExactly(c, cfg, list, now, later);
    forall n | 0 < n < |list| ensures Timely(list, n, now, later) <==> list[n].timestamp <= now + later(n) + 120 {
    }
    hide Timely;
  }

  // -------------------------------------------------------------------------
  // What a hash commits to
  // -------------------------------------------------------------------------

  // No two lists of transactions have the same root.
  ghost predicate Rooted(c: Crypto) {
    forall x, y :: c.txRoot(x) == c.txRoot(y) ==> x == y
  }

  // Above genesis a hash fixes its block, transactions included, on whatever valid chain it stands.
  lemma HashFixesBlock(c: Crypto, cfg: Config, x: seq<Block>, y: seq<Block>, i: nat, j: nat)
    requires Sound(c) && Rooted(c) && ValidChain(c, cfg, x) && ValidChain(c, cfg, y)
    requires 0 < i < |x| && 0 < j < |y| && x[i].hash == y[j].hash
    ensures x[i] == y[j] && i == j
  {
    ValidStands(c, cfg, x, i);
    ValidStands(c, cfg, y, j);
    hide ValidChain, Derived, Process, PreValid, MedianTimePast, CountTransfers;
    assert x[i].HeaderOf() == y[j].HeaderOf();
  }

  // So a tip fixes the whole history: valid chains on one genesis block that end in
  // the same hash are the same chain.
  lemma {:induction false} TipFixesChain(c: Crypto, cfg: Config, x: seq<Block>, y: seq<Block>)
    requires Sound(c) && Rooted(c) && ValidChain(c, cfg, x) && ValidChain(c, cfg, y) && x[0] == y[0]
    requires Last(x).hash == Last(y).hash
    ensures x == y
  {
    hide Sound, Rooted;
    if |x| > 1 && |y| > 1 {
      OneBlockDown(c, cfg, x, y);
      hide ValidChain;
      TipFixesChain(c, cfg, Front(x), Front(y));
      assert x == Front(x) + [Last(x)] && y == Front(y) + [Last(y)];
    } else {
      GenesisIsAlone(c, cfg, x, y);
    }
  }

  lemma OneBlockDown(c: Crypto, cfg: Config, x: seq<Block>, y: seq<Block>)
    requires Sound(c) && Rooted(c) && ValidChain(c, cfg, x) && ValidChain(c, cfg, y)
    requires |x| > 1 && |y| > 1 && Last(x).hash == Last(y).hash
    ensures Last(x) == Last(y) && Last(Front(x)).hash == Last(Front(y)).hash
    ensures ValidChain(c, cfg, Front(x)) && ValidChain(c, cfg, Front(y))
  {
    hide ValidChain, Sound, Rooted, Derived, Accepts;
    HashFixesBlock(c, cfg, x, y, |x| - 1, |y| - 1);
    ValidFront(c, cfg, x);
    ValidFront(c, cfg, y);
    PredecessorNamed(c, cfg, x);
    PredecessorNamed(c, cfg, y);
  }

  lemma GenesisIsAlone(c: Crypto, cfg: Config, x: seq<Block>, y: seq<Block>)
    requires Sound(c) && ValidChain(c, cfg, x) && ValidChain(c, cfg, y) && x[0] == y[0]
    requires Last(x).hash == Last(y).hash && (|x| == 1 || |y| == 1)
    ensures |x| == 1 && |y| == 1
  {
    assert |x| > 0 && |y| > 0;
    hide ValidChain, Sound, Acyclic;
    SoundIsAcyclic(c);
    if |x| == 1 {
      HashesDiffer(c, cfg, y, 0, |y| - 1);
    } else {
      HashesDiffer(c, cfg, x, 0, |x| - 1);
    }
  }

  lemma PredecessorNamed(c: Crypto, cfg: Config, chain: seq<Block>)
    requires ValidChain(c, cfg, chain) && |chain| > 1
    ensures Last(chain).previousHash == Last(Front(chain)).hash
  {
    hide Derived, Process, PreValid, MedianTimePast, WellFormed;
    ValidStands(c, cfg, chain, |chain| - 1);
  }
}
