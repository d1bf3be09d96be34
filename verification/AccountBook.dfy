/** A valid chain read as an account book: who wins what, and what each block moves, from the blocks alone. */
module AccountBook {
  import opened Prelude
  import opened Types
  import opened Consensus
  import opened Conservation
  import opened Replay
  import opened Lottery

  // -------------------------------------------------------------------------
  // What the transactions of a block say
  // -------------------------------------------------------------------------

  // The block opens with a coinbase.
  predicate HasMiner(b: Block) {
    |b.transactions| > 0 && b.transactions[0].sender == []
  }

  function MinerOf(b: Block): Address
    requires HasMiner(b)
  {
    b.transactions[0].receiver
  }

  ghost predicate HasTransfer(b: Block) {
    exists i :: 0 <= i < |b.transactions| && b.transactions[i].sender != []
  }

  // What each transaction pays `a`, by position.
  ghost function PaysIn(txs: seq<Tx>, a: Address): map<nat, u64> {
    map i: nat | i < |txs| && txs[i].receiver == a :: txs[i].amount
  }

  // What each transfer of `a` hands over, and the fees it pays.
  ghost function PaysOut(txs: seq<Tx>, a: Address): map<nat, u64> {
    map i: nat | i < |txs| && txs[i].sender != [] && txs[i].sender == a :: txs[i].amount
  }

  ghost function FeesOut(txs: seq<Tx>, a: Address): map<nat, u64> {
    map i: nat | i < |txs| && txs[i].sender != [] && txs[i].sender == a :: txs[i].fee
  }

  ghost function AllFees(txs: seq<Tx>): map<nat, u64> {
    map i: nat | i < |txs| && txs[i].sender != [] :: txs[i].fee
  }

  lemma SumNext(m: map<nat, u64>, n: nat, x: u64)
    requires n !in m
    ensures Sum(m[n := x]) == Sum(m) + x
  {
    SumUpdate(m, n, x);
  }

  lemma {:induction false} ReceivedIsSum(txs: seq<Tx>, a: Address)
    ensures Received(txs, a) == Sum(PaysIn(txs, a))
  {
    if txs == [] {
      assert PaysIn(txs, a) == map[];
    } else {
      var n := |txs| - 1;
      ReceivedIsSum(Front(txs), a);
      SumNext(PaysIn(Front(txs), a), n, Last(txs).amount);
      assert PaysIn(txs, a) ==
        if Last(txs).receiver == a then PaysIn(Front(txs), a)[n := Last(txs).amount] else PaysIn(Front(txs), a);
    }
  }

  lemma OutNext(txs: seq<Tx>, a: Address)
    requires |txs| > 0
    ensures var n, tx := |txs| - 1, Last(txs);
      var own := tx.sender != [] && tx.sender == a;
      && PaysOut(txs, a) == (if own then PaysOut(Front(txs), a)[n := tx.amount] else PaysOut(Front(txs), a))
      && FeesOut(txs, a) == (if own then FeesOut(Front(txs), a)[n := tx.fee] else FeesOut(Front(txs), a))
      && n !in PaysOut(Front(txs), a) && n !in FeesOut(Front(txs), a)
  {
  }

  lemma {:induction false} SpentIsSum(txs: seq<Tx>, a: Address)
    ensures Spent(txs, a) == Sum(PaysOut(txs, a)) + Sum(FeesOut(txs, a))
  {
    if txs == [] {
      assert PaysOut(txs, a) == map[] && FeesOut(txs, a) == map[];
    } else {
      OutNext(txs, a);
      hide PaysOut, FeesOut;
      SpentIsSum(Front(txs), a);
      SumNext(PaysOut(Front(txs), a), |txs| - 1, Last(txs).amount);
      SumNext(FeesOut(Front(txs), a), |txs| - 1, Last(txs).fee);
    }
  }

  lemma {:induction false} FeesAreSum(txs: seq<Tx>)
    ensures Fees(txs) == Sum(AllFees(txs))
  {
    if txs == [] {
      assert AllFees(txs) == map[];
    } else {
      var n, tx := |txs| - 1, Last(txs);
      FeesAreSum(Front(txs));
      SumNext(AllFees(Front(txs)), n, tx.fee);
      assert AllFees(txs) == if tx.sender != [] then AllFees(Front(txs))[n := tx.fee] else AllFees(Front(txs));
    }
  }

  lemma {:induction false} TransfersAreCounted(txs: seq<Tx>)
    ensures CountTransfers(txs) > 0 <==> exists i :: 0 <= i < |txs| && txs[i].sender != []
  {
    if txs != [] {
      TransfersAreCounted(Front(txs));
      assert txs == Front(txs) + [Last(txs)];
      assert forall i :: 0 <= i < |txs| - 1 ==> txs[i] == Front(txs)[i];
      assert txs[|txs| - 1] == Last(txs);
    }
  }

  // -------------------------------------------------------------------------
  // Tickets
  // -------------------------------------------------------------------------

  // Block `h` earns its miner a ticket.
  ghost predicate Earned(chain: seq<Block>, h: nat) {
    0 < h < |chain| && HasMiner(chain[h]) && HasTransfer(chain[h])
  }

  lemma IssuedIsEarned(chain: seq<Block>, h: nat)
    requires 0 < h < |chain| && chain[h].index == h
    ensures Issued(chain[h]) == if Earned(chain, h) then [Ticket(MinerOf(chain[h]), h)] else []
  {
    TransfersAreCounted(chain[h].transactions);
    hide CountTransfers;
  }

  lemma {:induction false} EarnedTickets(chain: seq<Block>, lo: nat, hi: nat, t: Ticket)
    requires Indexed(chain) && 0 < lo <= hi <= |chain|
    ensures t in TicketsEarned(chain, lo, hi) <==>
      lo <= t.createdHeight < hi && Earned(chain, t.createdHeight) && t.miner == MinerOf(chain[t.createdHeight])
  {
    hide Earned, Issued;
    if lo < hi {
      EarnedTickets(chain, lo, hi - 1, t);
      IssuedIsEarned(chain, hi - 1);
    }
  }

  // What is waiting to be drawn: one ticket for each block of the last hundred that
  // opens with a coinbase and holds a transfer, in the name of the coinbase's receiver.
  lemma PendingTickets(c: Crypto, cfg: Config, chain: seq<Block>, t: Ticket)
    requires ValidChain(c, cfg, chain)
    ensures t in Derived(c, cfg, chain).tickets <==>
      && 0 < t.createdHeight < |chain| <= t.createdHeight + 100
      && HasMiner(chain[t.createdHeight]) && HasTransfer(chain[t.createdHeight])
      && t.miner == MinerOf(chain[t.createdHeight])
  {
    assert |chain| > 0;
    hide ValidChain, Derived, TicketsEarned, HasMiner, HasTransfer, Indexed;
    PendingIsEarned(c, cfg, chain);
    ValidIsIndexed(c, cfg, chain);
    EarnedTickets(chain, Oldest(|chain|), |chain|, t);
  }

  // -------------------------------------------------------------------------
  // The draw
  // -------------------------------------------------------------------------

  // The number the ticket of block `h` draws: the digest of the hashes of the hundred
  // blocks from its own on, its height and its miner, in a million.
  function Lot(c: Crypto, chain: seq<Block>, h: nat): nat
    requires h + 100 <= |chain| && HasMiner(chain[h])
  {
    c.lotteryWord(HashBytes(chain[h..h + 100]), h, MinerOf(chain[h])) % 1_000_000
  }

  // What a number wins of a pot.
  function Wins(lot: nat, pot: u64): u64 {
    if lot < 620_000 then 0
    else if lot < 982_500 then pot / 400_000
    else if lot < 999_200 then pot / 30_000
    else if lot < 999_900 then pot / 2_000
    else pot / 500
  }

  function TierFor(lot: nat): Tier {
    if lot < 620_000 then NoWin
    else if lot < 982_500 then Small
    else if lot < 999_200 then Medium
    else if lot < 999_900 then Large
    else Jackpot
  }

  // The hashes of a run of blocks, one after the other.
  lemma HashBytesSplits(blocks: seq<Block>, b: Block)
    ensures HashBytes([]) == [] && HashBytes(blocks + [b]) == HashBytes(blocks) + b.hash
  {
    HashBytesAppend(blocks, b);
  }

  lemma DrawIsLot(c: Crypto, chain: seq<Block>, h: nat, pot: u64)
    requires h + 100 <= |chain| && HasMiner(chain[h])
    ensures var tier := Draw(c, chain, 0, Ticket(MinerOf(chain[h]), h));
      tier == TierFor(Lot(c, chain, h)) && Prize(tier, pot) == Wins(Lot(c, chain, h), pot)
  {
    hide Entropy, HashBytes;
    EntropyIsWindow(chain, 0, h, 100);
  }

  lemma SettledAlone(c: Crypto, blocks: seq<Block>, offset: nat, l: Ledger, t: Ticket)
    ensures SettleAll(c, blocks, offset, l, []).1 == []
    ensures SettleAll(c, blocks, offset, l, [t]).1 == PayoutOf(l, t, Draw(c, blocks, offset, t))
  {
    hide Draw, PayoutOf, SettleOne;
    assert Front([t]) == [] && Last([t]) == t;
    assert [] + PayoutOf(l, t, Draw(c, blocks, offset, t)) == PayoutOf(l, t, Draw(c, blocks, offset, t));
  }

  lemma PayoutIsPrize(l: Ledger, t: Ticket, tier: Tier)
    ensures PayoutOf(l, t, tier) == if Prize(tier, l.pot) == 0 then [] else [Payout(t.miner, Prize(tier, l.pot), tier)]
  {
  }

  // The win of block `n`: what the block a hundred below it drew, if it earned a ticket.
  ghost function WinAt(c: Crypto, cfg: Config, chain: seq<Block>, n: nat): u64
    requires 0 < n < |chain|
  {
    if n > 100 && Earned(chain, n - 100) then Wins(Lot(c, chain, n - 100), Derived(c, cfg, chain[..n]).pot) else 0
  }

  // Block `n` of a valid chain pays out exactly that: to the miner of the block a
  // hundred below, the part of the pot that the hundred hashes in between decide.
  lemma PayoutIsLot(c: Crypto, cfg: Config, chain: seq<Block>, n: nat)
    requires ValidChain(c, cfg, chain) && 0 < n < |chain|
    ensures PayoutsAt(c, cfg, chain, n) ==
      var win := WinAt(c, cfg, chain, n);
      if win == 0 then [] else [Payout(MinerOf(chain[n - 100]), win, TierFor(Lot(c, chain, n - 100)))]
  {
    hide ValidChain, Derived, SettleAll, Earned, HasMiner, Due, NotDue, Issued, Lot, Wins, TierFor, PayoutOf, PayoutsAt;
    PayoutsAreSettled(c, cfg, chain, n);
    DueIsEarned(c, cfg, chain, n);
    var l := Derived(c, cfg, chain[..n]);
    var kept := l.(tickets := NotDue(l.tickets, n));
    if n > 100 && Earned(chain, n - 100) {
      WinnerIsPaid(c, chain, n, kept);
    } else {
      SettledAlone(c, chain[..n], 0, kept, Ticket([], 0));
    }
  }

  lemma DueIsEarned(c: Crypto, cfg: Config, chain: seq<Block>, n: nat)
    requires ValidChain(c, cfg, chain) && 0 < n < |chain|
    ensures Due(Derived(c, cfg, chain[..n]).tickets, n) ==
      if n > 100 && Earned(chain, n - 100) then [Ticket(MinerOf(chain[n - 100]), n - 100)] else []
  {
    hide ValidChain, Derived, Due, Issued, HasMiner;
    SettledExactlyOnce(c, cfg, chain, n);
    if n > 100 {
      IndicesAreHeights(c, cfg, chain, n - 100);
      IssuedIsEarned(chain, n - 100);
    }
  }

  lemma WinnerIsPaid(c: Crypto, chain: seq<Block>, n: nat, l: Ledger)
    requires 100 < n < |chain| && Earned(chain, n - 100)
    ensures var t, lot := Ticket(MinerOf(chain[n - 100]), n - 100), Lot(c, chain, n - 100);
      SettleAll(c, chain[..n], 0, l, [t]).1 ==
        if Wins(lot, l.pot) == 0 then [] else [Payout(t.miner, Wins(lot, l.pot), TierFor(lot))]
  {
    hide SettleAll, HasTransfer, Draw, Wins, TierFor, HashBytes, Prize;
    var t := Ticket(MinerOf(chain[n - 100]), n - 100);
    SettledAlone(c, chain[..n], 0, l, t);
    DrawIsLot(c, chain[..n], n - 100, l.pot);
    assert chain[..n][n - 100..n] == chain[n - 100..n];
    PayoutIsPrize(l, t, TierFor(Lot(c, chain, n - 100)));
  }

  lemma PayoutsAreSettled(c: Crypto, cfg: Config, chain: seq<Block>, n: nat)
    requires ValidChain(c, cfg, chain) && 0 < n < |chain|
    ensures var l := Derived(c, cfg, chain[..n]);
      PayoutsAt(c, cfg, chain, n) ==
        SettleAll(c, chain[..n], 0, l.(tickets := NotDue(l.tickets, n)), Due(l.tickets, n)).1
  {
    hide Derived, Admissible, SettleAll, ApplyAll, SplitFees, Stamp, Conserves, Due, NotDue;
    assert Stands(c, cfg, chain, n);
    IndicesAreHeights(c, cfg, chain, n);
  }

  // -------------------------------------------------------------------------
  // The books
  // -------------------------------------------------------------------------

  // Genesis: everybody has what they are sent, as long as it fits; nothing is pending or confirmed.
  lemma GenesisIsBooked(c: Crypto, cfg: Config, g: Block, a: Address)
    requires Sum(map i: nat | i < |g.transactions| :: g.transactions[i].amount) <= U64_MAX
    ensures var l := Derived(c, cfg, [g]);
      && (if a in l.balances then l.balances[a] else 0) == Sum(PaysIn(g.transactions, a))
      && l.pot == cfg.pot && l.confirmed == {} && l.tickets == [] && l.work == 0
  {
    AmountsAreSum(g.transactions);
    GenesisCredits(g.transactions, a);
    ReceivedIsSum(g.transactions, a);
  }

  lemma {:induction false} AmountsAreSum(txs: seq<Tx>)
    ensures AmountsIn(txs) == Sum(map i: nat | i < |txs| :: txs[i].amount)
  {
    var m := map i: nat | i < |txs| :: txs[i].amount;
    if txs == [] {
      assert m == map[];
    } else {
      var n, tx := |txs| - 1, Last(txs);
      AmountsAreSum(Front(txs));
      var below := map i: nat | i < |Front(txs)| :: Front(txs)[i].amount;
      SumNext(below, n, tx.amount);
      assert m == below[n := tx.amount];
    }
  }

  // What block `n` does to every balance and to the pot: the win goes from the pot to
  // its winner, amounts from senders to receivers, fees from senders to the pot, and
  // half of them on to the miner. Nothing else moves.
  lemma BlockIsBooked(c: Crypto, cfg: Config, chain: seq<Block>, n: nat, a: Address)
    requires ValidChain(c, cfg, chain) && 0 < n < |chain|
    ensures var before, after := Derived(c, cfg, chain[..n]), Derived(c, cfg, chain[..n + 1]);
      var b, win := chain[n], WinAt(c, cfg, chain, n);
      var txs, fees := b.transactions, Sum(AllFees(b.transactions));
      && (if a in after.balances then after.balances[a] else 0) ==
           (if a in before.balances then before.balances[a] else 0)
           + (if win > 0 && MinerOf(chain[n - 100]) == a then win else 0)
           + Sum(PaysIn(txs, a)) - Sum(PaysOut(txs, a)) - Sum(FeesOut(txs, a))
           + (if HasMiner(b) && MinerOf(b) == a then fees / 2 else 0)
      && after.pot == before.pot - win + fees - (if HasMiner(b) then fees / 2 else 0)
  {
    hide ValidChain, Derived, PayoutsAt, WinAt;
    ValidPrefix(c, cfg, chain, n + 1);
    assert Front(chain[..n + 1]) == chain[..n] && Last(chain[..n + 1]) == chain[n];
    StepBooked(c, cfg, chain[..n + 1]);
    PayoutsOnPrefix(c, cfg, chain, n);
    PayoutIsLot(c, cfg, chain, n);
    var txs := chain[n].transactions;
    ReceivedIsSum(txs, a);
    SpentIsSum(txs, a);
    FeesAreSum(txs);
    hide Received, Spent, Fees, Supply, Signatures;
    PaidIsWin(PayoutsAt(c, cfg, chain, n), a);
  }

  lemma PayoutsOnPrefix(c: Crypto, cfg: Config, chain: seq<Block>, n: nat)
    requires 0 < n < |chain|
    ensures PayoutsAt(c, cfg, chain[..n + 1], n) == PayoutsAt(c, cfg, chain, n)
  {
    hide Process, Derived;
    assert chain[..n + 1][..n] == chain[..n];
  }

  lemma PaidIsWin(ps: seq<Payout>, a: Address)
    requires |ps| <= 1
    ensures PaidOut(ps) == if ps == [] then 0 else ps[0].amount
    ensures PaidTo(ps, a) == if ps == [] || ps[0].receiver != a then 0 else ps[0].amount
  {
    if ps != [] {
      PaidOnce(ps[0]);
      assert ps == [ps[0]];
    }
  }

  // What the chain has confirmed: the signatures of its transfers, genesis aside.
  lemma ConfirmedOnChain(c: Crypto, cfg: Config, chain: seq<Block>, s: Signature)
    requires ValidChain(c, cfg, chain)
    ensures s in Derived(c, cfg, chain).confirmed <==>
      exists n, i :: 0 < n < |chain| && 0 <= i < |chain[n].transactions| &&
        chain[n].transactions[i].sender != [] && chain[n].transactions[i].signature == s
  {
    hide ValidChain, Derived;
    ConfirmedIsChainSignatures(c, cfg, chain);
    SignaturesAre(chain, s);
  }

  lemma {:induction false} SignaturesAre(chain: seq<Block>, s: Signature)
    requires |chain| > 0
    ensures s in ChainSignatures(chain) <==>
      exists n, i :: 0 < n < |chain| && 0 <= i < |chain[n].transactions| &&
        chain[n].transactions[i].sender != [] && chain[n].transactions[i].signature == s
  {
    if |chain| > 1 {
      SignaturesAre(Front(chain), s);
      assert forall n :: 0 <= n < |chain| - 1 ==> chain[n] == Front(chain)[n];
    }
  }
}
