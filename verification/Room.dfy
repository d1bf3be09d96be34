/** Exactly when a block that passed the checks kills the node: a credit or the pot would exceed 2^64 - 1. */
module Room {
  import opened Prelude
  import opened Types
  import opened Consensus
  import opened Conservation

  // -------------------------------------------------------------------------
  // The condition, in exact arithmetic
  // -------------------------------------------------------------------------

  // What `a` holds once the payouts `ps` and the first `n` transactions are booked.
  function Holding(l: Ledger, ps: seq<Payout>, txs: seq<Tx>, n: nat, a: Address): int
    requires n <= |txs|
  {
    Balance(l, a) + PaidTo(ps, a) + Received(txs[..n], a) - Spent(txs[..n], a)
  }

  // The receiver of transaction `i` can hold what it is paid.
  ghost predicate ReceiverFits(l: Ledger, ps: seq<Payout>, txs: seq<Tx>, i: nat)
    requires i < |txs|
  {
    Holding(l, ps, txs, i + 1, txs[i].receiver) <= U64_MAX
  }

  // No receiver of a transaction holds more than a u64 when it is paid, nor does the pot in the end.
  ghost predicate TransfersFit(l: Ledger, ps: seq<Payout>, txs: seq<Tx>) {
    && (forall i :: 0 <= i < |txs| ==> ReceiverFits(l, ps, txs, i))
    && l.pot - PaidOut(ps) + Fees(txs) <= U64_MAX
  }

  ghost predicate PrizesFit(l: Ledger, ps: seq<Payout>) {
    forall a :: Balance(l, a) + PaidTo(ps, a) <= U64_MAX
  }

  ghost predicate Fits(l: Ledger, ps: seq<Payout>, b: Block) {
    && PrizesFit(l, ps)
    && TransfersFit(l, ps, b.transactions)
    && (b.Miner().Some? ==>
          Holding(l, ps, b.transactions, |b.transactions|, b.Miner().value) + MinerShare(b) <= U64_MAX)
  }

  // -------------------------------------------------------------------------
  // Credits never gain, and lose exactly when they wrap
  // -------------------------------------------------------------------------

  lemma CreditLoses(m: map<Address, u64>, to: Address, amount: u64)
    ensures var after := m[to := WrapAdd(Get(m, to), amount)];
      && Sum(after) <= Sum(m) + amount
      && (Sum(after) == Sum(m) + amount <==> Get(m, to) + amount <= U64_MAX)
      && (Get(m, to) + amount <= U64_MAX ==> forall a :: Get(after, a) == Get(m, a) + if a == to then amount else 0)
  {
    SumUpdate(m, to, WrapAdd(Get(m, to), amount));
  }

  lemma SettleOneLoses(l: Ledger, t: Ticket, tier: Tier)
    ensures var l', ps := SettleOne(l, t, tier), PayoutOf(l, t, tier);
      && l'.pot + PaidOut(ps) == l.pot && l' == l.(pot := l'.pot, balances := l'.balances)
      && |ps| <= 1 && Supply(l') <= Supply(l)
      && (Supply(l') == Supply(l) <==> forall p :: p in ps ==> Balance(l, p.receiver) + p.amount <= U64_MAX)
      && (Supply(l') == Supply(l) ==> forall a :: Balance(l', a) == Balance(l, a) + PaidTo(ps, a))
  {
    var payout: u64 := Min(Prize(tier, l.pot), l.pot);
    hide Prize, Sum, WrapAdd, PaidTo;
    if payout > 0 {
      CreditLoses(l.balances, t.miner, payout);
      PaidOnce(Payout(t.miner, payout, tier));
    } else {
      forall a ensures PaidTo([], a) == 0 {
        NothingPaid(a);
      }
    }
  }

  lemma PrizesStep(l: Ledger, l1: Ledger, ps: seq<Payout>, qs: seq<Payout>)
    requires |qs| <= 1 && PrizesFit(l, ps) && forall a :: Balance(l1, a) == Balance(l, a) + PaidTo(ps, a)
    ensures PrizesFit(l, ps + qs) <==> forall p :: p in qs ==> Balance(l1, p.receiver) + p.amount <= U64_MAX
  {
    PaidAppend(ps, qs);
    hide Balance;
    if qs == [] {
      assert ps + qs == ps;
    } else {
      PaidOnce(qs[0]);
      assert qs == [qs[0]];
      hide PaidTo;
    }
  }

  lemma PrizesGrow(l: Ledger, ps: seq<Payout>, qs: seq<Payout>)
    requires |qs| <= 1 && PrizesFit(l, ps + qs)
    ensures PrizesFit(l, ps)
  {
    PaidAppend(ps, qs);
    hide PaidTo, Balance;
  }

  // Settling moves coins without loss exactly when every prize fits.
  lemma {:induction false} SettleLoses(c: Crypto, blocks: seq<Block>, offset: nat, l: Ledger, due: seq<Ticket>)
    ensures var (l', ps) := SettleAll(c, blocks, offset, l, due);
      && l'.pot + PaidOut(ps) == l.pot && l' == l.(pot := l'.pot, balances := l'.balances)
      && Supply(l') <= Supply(l)
      && (Supply(l') == Supply(l) <==> PrizesFit(l, ps))
      && (Supply(l') == Supply(l) ==> forall a :: Balance(l', a) == Balance(l, a) + PaidTo(ps, a))
  {
    if due == [] {
      forall a ensures PaidTo([], a) == 0 {
        NothingPaid(a);
      }
      hide Supply, PaidTo;
    } else {
      SettleLoses(c, blocks, offset, l, Front(due));
      var (l1, ps) := SettleAll(c, blocks, offset, l, Front(due));
      var tier := Draw(c, blocks, offset, Last(due));
      var qs := PayoutOf(l1, Last(due), tier);
      hide Supply, PaidTo, PaidOut, PrizesFit, Draw, SettleOne, PayoutOf, Balance;
      SettleOneLoses(l1, Last(due), tier);
      PaidAppend(ps, qs);
      if PrizesFit(l, ps) {
        PrizesStep(l, l1, ps, qs);
      } else if PrizesFit(l, ps + qs) {
        PrizesGrow(l, ps, qs);
      }
    }
  }

  // -------------------------------------------------------------------------
  // Transactions
  // -------------------------------------------------------------------------

  lemma TxNeverGains(l: Ledger, tx: Tx)
    ensures var l' := ApplyTx(l, tx);
      && Supply(l') <= Supply(l) + (if tx.Coinbase() then tx.amount else 0)
      && (!tx.Coinbase() && tx.signature in l'.confirmed && tx.signature !in l.confirmed ==>
            l'.pot == SatAdd(l.pot, tx.fee))
      && (tx.Coinbase() ==> l'.pot == l.pot && l'.confirmed == l.confirmed)
      && l'.confirmed <= l.confirmed + if tx.Coinbase() then {} else {tx.signature}
  {
    if tx.Coinbase() {
      CreditLoses(l.balances, tx.receiver, tx.amount);
    } else {
      var held := Get(l.balances, tx.sender);
      SumUpdate(l.balances, tx.sender, held);
      if tx.Cost() <= U64_MAX && held >= tx.Cost() {
        var touched: map<Address, u64> := l.balances[tx.sender := held];
        var debited: map<Address, u64> := touched[tx.sender := held - tx.Cost()];
        SumUpdate(touched, tx.sender, held - tx.Cost());
        CreditLoses(debited, tx.receiver, tx.amount);
      }
    }
  }

  // A transfer its sender can pay loses coins exactly when the receiver or the pot overflows.
  lemma TransferLoses(l: Ledger, tx: Tx)
    requires !tx.Coinbase() && tx.Cost() <= Balance(l, tx.sender)
    ensures var l' := ApplyTx(l, tx);
      var to := Balance(l, tx.receiver) - (if tx.receiver == tx.sender then tx.Cost() else 0) + tx.amount;
      && l'.confirmed == l.confirmed + {tx.signature}
      && l' == l.(balances := l'.balances, pot := l'.pot, confirmed := l'.confirmed)
      && (if to <= U64_MAX && l.pot + tx.fee <= U64_MAX then
            && Supply(l') == Supply(l) && l'.pot == l.pot + tx.fee
            && forall a :: Balance(l', a) ==
                 Balance(l, a) - (if a == tx.sender then tx.Cost() else 0) + (if a == tx.receiver then tx.amount else 0)
          else Supply(l') < Supply(l))
  {
    var held := Get(l.balances, tx.sender);
    var touched: map<Address, u64> := l.balances[tx.sender := held];
    var debited: map<Address, u64> := touched[tx.sender := held - tx.Cost()];
    assert debited == l.balances[tx.sender := held - tx.Cost()];
    SumUpdate(l.balances, tx.sender, held - tx.Cost());
    CreditLoses(debited, tx.receiver, tx.amount);
  }

  lemma OneMoreApplied(l: Ledger, txs: seq<Tx>)
    requires txs != [] && ApplyAll(l, txs).Some?
    ensures ApplyAll(l, Front(txs)).Some? && ApplyAll(l, txs).value == ApplyTx(ApplyAll(l, Front(txs)).value, Last(txs))
    ensures !Last(txs).Coinbase() ==> Last(txs).signature in ApplyAll(l, txs).value.confirmed
  {
    hide ApplyTx;
  }

  // The loop never gains, and adds up the fees in the pot as far as they fit.
  lemma {:induction false} LoopNeverGains(c: Crypto, l0: Ledger, l: Ledger, txs: seq<Tx>)
    requires PreValid(c, l0, txs) && l.confirmed == l0.confirmed && ApplyAll(l, txs).Some?
    ensures var l' := ApplyAll(l, txs).value;
      && Supply(l') <= Supply(l) + MintedIn(txs)
      && l'.pot == Min(l.pot + Fees(txs), U64_MAX)
      && l'.confirmed <= l.confirmed + Signatures(txs)
  {
    if txs != [] {
      var tx, fs := Last(txs), Front(txs);
      FreshLast(c, l0, txs);
      OneMoreApplied(l, txs);
      hide PreValid, Supply, Signatures, ApplyTx, ApplyAll, Fees, MintedIn, Spent, Received, Balance;
      LoopNeverGains(c, l0, l, fs);
      SignaturesSplit(txs);
      SumsSplit(txs);
      TxNeverGains(ApplyAll(l, fs).value, tx);
      UnionMoves(l.confirmed, Signatures(fs), if tx.Coinbase() then {} else {tx.signature});
    }
  }

  lemma FitsInFront(l: Ledger, txs: seq<Tx>, i: nat)
    requires i < |txs| - 1
    ensures ReceiverFits(l, [], txs, i) <==> ReceiverFits(l, [], Front(txs), i)
  {
    assert txs[..i + 1] == Front(txs)[..i + 1];
  }

  lemma HoldingLast(l: Ledger, txs: seq<Tx>)
    requires |txs| > 0
    ensures var to := Last(txs).receiver;
      ReceiverFits(l, [], txs, |txs| - 1) <==> Balance(l, to) + Received(txs, to) - Spent(txs, to) <= U64_MAX
  {
    hide Received, Spent;
    assert txs[..|txs|] == txs;
  }

  lemma FeesGrow(txs: seq<Tx>)
    requires |txs| > 0
    ensures Fees(Front(txs)) <= Fees(txs) && PaidOut([]) == 0
  {
  }

  lemma FitSplits(l: Ledger, txs: seq<Tx>)
    requires |txs| > 0
    ensures var fs, tx := Front(txs), Last(txs);
      TransfersFit(l, [], txs) <==>
        && TransfersFit(l, [], fs)
        && Balance(l, tx.receiver) + Received(txs, tx.receiver) - Spent(txs, tx.receiver) <= U64_MAX
        && l.pot + Fees(txs) <= U64_MAX
  {
    hide Received, Spent, Balance, ReceiverFits, Fees, PaidOut;
    var fs := Front(txs);
    FeesGrow(txs);
    forall i | 0 <= i < |fs| ensures ReceiverFits(l, [], txs, i) <==> ReceiverFits(l, [], fs, i) {
      FitsInFront(l, txs, i);
    }
    HoldingLast(l, txs);
  }

  // Pre-validated transactions are booked exactly when they fit; else coins are lost or the loop stops.
  lemma {:induction false} LoopLoses(c: Crypto, l0: Ledger, l: Ledger, txs: seq<Tx>)
    requires PreValid(c, l0, txs) && Affords(l0, l)
    ensures TransfersFit(l, [], txs) ==> ApplyAll(l, txs).Some? && Applied(l, ApplyAll(l, txs).value, txs)
    ensures !TransfersFit(l, [], txs) && ApplyAll(l, txs).Some? ==>
      Supply(ApplyAll(l, txs).value) < Supply(l) + MintedIn(txs)
  {
    if txs == [] {
      NothingApplied(l);
      NothingToFit(l);
    } else {
      var tx, fs := Last(txs), Front(txs);
      FreshLast(c, l0, txs);
      FitSplits(l, txs);
      SignaturesSplit(txs);
      hide PreValid, Supply, Signatures, TransfersFit, ApplyTx;
      LoopLoses(c, l0, l, fs);
      if ApplyAll(l, fs).Some? {
        var l1 := ApplyAll(l, fs).value;
        TxNeverGains(l1, tx);
        if TransfersFit(l, [], fs) {
          LastLoses(l, l1, txs);
        }
      }
    }
  }

  lemma NothingToFit(l: Ledger)
    ensures TransfersFit(l, [], [])
  {
  }

  // One more transaction, on books that were exact so far.
  lemma CoinbaseLoses(l: Ledger, tx: Tx)
    requires tx.Coinbase()
    ensures var l' := ApplyTx(l, tx);
      && l' == l.(balances := l'.balances)
      && (if Balance(l, tx.receiver) + tx.amount <= U64_MAX then
            && Supply(l') == Supply(l) + tx.amount
            && forall a :: Balance(l', a) == Balance(l, a) + if a == tx.receiver then tx.amount else 0
          else Supply(l') < Supply(l) + tx.amount)
  {
    CreditLoses(l.balances, tx.receiver, tx.amount);
  }

  lemma LastLoses(l: Ledger, l1: Ledger, txs: seq<Tx>)
    requires |txs| > 0 && Applied(l, l1, Front(txs))
    requires !Last(txs).Coinbase() ==> Spent(txs, Last(txs).sender) <= Balance(l, Last(txs).sender)
    ensures var tx, l2 := Last(txs), ApplyTx(l1, Last(txs));
      var to := Balance(l, tx.receiver) + Received(txs, tx.receiver) - Spent(txs, tx.receiver);
      && (!tx.Coinbase() ==> tx.signature in l2.confirmed)
      && (if to <= U64_MAX && l.pot + Fees(txs) <= U64_MAX then Applied(l, l2, txs)
          else Supply(l2) < Supply(l) + MintedIn(txs))
  {
    hide Supply, ApplyTx, Balance, Fees, MintedIn, Received, Spent, Applied;
    if Last(txs).Coinbase() {
      LastCoinbase(l, l1, txs);
    } else {
      LastTransfer(l, l1, txs);
    }
  }

  lemma LastCoinbase(l: Ledger, l1: Ledger, txs: seq<Tx>)
    requires |txs| > 0 && Applied(l, l1, Front(txs)) && Last(txs).Coinbase()
    ensures var tx, l2 := Last(txs), ApplyTx(l1, Last(txs));
      var to := Balance(l, tx.receiver) + Received(txs, tx.receiver) - Spent(txs, tx.receiver);
      if to <= U64_MAX then l.pot + Fees(txs) <= U64_MAX && Applied(l, l2, txs)
      else Supply(l2) < Supply(l) + MintedIn(txs)
  {
    hide Supply, Signatures, ApplyTx, Balance, Fees, MintedIn, Received, Spent;
    SignaturesSplit(txs);
    SumsSplit(txs);
    CoinbaseLoses(l1, Last(txs));
  }

  lemma LastTransfer(l: Ledger, l1: Ledger, txs: seq<Tx>)
    requires |txs| > 0 && Applied(l, l1, Front(txs)) && !Last(txs).Coinbase()
    requires Spent(txs, Last(txs).sender) <= Balance(l, Last(txs).sender)
    ensures var tx, l2 := Last(txs), ApplyTx(l1, Last(txs));
      var to := Balance(l, tx.receiver) + Received(txs, tx.receiver) - Spent(txs, tx.receiver);
      && tx.signature in l2.confirmed
      && (if to <= U64_MAX && l.pot + Fees(txs) <= U64_MAX then Applied(l, l2, txs)
          else Supply(l2) < Supply(l) + MintedIn(txs))
  {
    hide Supply, Signatures, ApplyTx, Balance, Fees, MintedIn, Received, Spent;
    SignaturesSplit(txs);
    SumsSplit(txs);
    TransferLoses(l1, Last(txs));
  }

  // -------------------------------------------------------------------------
  // The fee share
  // -------------------------------------------------------------------------

  lemma TotalFeesAre(txs: seq<Tx>)
    ensures TotalFees(txs) == Min(Fees(txs), U64_MAX)
  {
  }

  lemma ShareLoses(l: Ledger, b: Block)
    requires TotalFees(b.transactions) <= l.pot
    ensures var l' := SplitFees(l, b);
      && Supply(l') <= Supply(l) && l' == l.(balances := l'.balances, pot := l'.pot)
      && (Fees(b.transactions) <= U64_MAX ==>
            && (Supply(l') == Supply(l) <==>
                  (b.Miner().Some? ==> Balance(l, b.Miner().value) + MinerShare(b) <= U64_MAX))
            && (Supply(l') == Supply(l) ==>
                  && l'.pot == l.pot - MinerShare(b)
                  && forall a :: Balance(l', a) == Balance(l, a) + ShareOf(b, a)))
  {
    TotalFeesAre(b.transactions);
    hide Fees, TotalFees;
    var share: u64 := TotalFees(b.transactions) / 2;
    if b.Miner().Some? {
      CreditLoses(l.balances, b.Miner().value, share);
    }
  }

  // -------------------------------------------------------------------------
  // The block
  // -------------------------------------------------------------------------

  lemma HoldingAfter(l: Ledger, m: Ledger, ps: seq<Payout>, txs: seq<Tx>)
    requires m.pot == l.pot - PaidOut(ps) && forall a :: Balance(m, a) == Balance(l, a) + PaidTo(ps, a)
    ensures TransfersFit(m, [], txs) <==> TransfersFit(l, ps, txs)
    ensures forall a :: Holding(l, ps, txs, |txs|, a) == Balance(m, a) + Received(txs, a) - Spent(txs, a)
  {
    assert txs[..|txs|] == txs;
    hide Received, Spent, Balance, Fees;
    forall i | 0 <= i < |txs| ensures ReceiverFits(m, [], txs, i) <==> ReceiverFits(l, ps, txs, i) {
      assert PaidTo([], txs[i].receiver) == 0;
    }
    forall a ensures Holding(l, ps, txs, |txs|, a) == Balance(m, a) + Received(txs, a) - Spent(txs, a) {
    }
  }

  // From the settled state on: the loop completes and nothing is lost exactly when all fits.
  lemma BooksClose(c: Crypto, l: Ledger, settled: Ledger, ps: seq<Payout>, b: Block)
    requires PreValid(c, l, b.transactions) && MintedIn(b.transactions) == b.Minted()
    requires settled.confirmed == l.confirmed && settled.pot == l.pot - PaidOut(ps)
    requires Supply(settled) <= Supply(l) && (Supply(settled) == Supply(l) <==> PrizesFit(l, ps))
    requires PrizesFit(l, ps) ==> forall a :: Balance(settled, a) == Balance(l, a) + PaidTo(ps, a)
    ensures Fits(l, ps, b) <==>
      && ApplyAll(settled, b.transactions).Some?
      && Supply(SplitFees(ApplyAll(settled, b.transactions).value, b)) == Supply(l) + b.Minted()
    ensures Fits(l, ps, b) ==>
      var paid := SplitFees(ApplyAll(settled, b.transactions).value, b);
      && paid.pot == l.pot - PaidOut(ps) + Fees(b.transactions) - MinerShare(b)
      && paid.confirmed == l.confirmed + Signatures(b.transactions)
      && forall a :: Balance(paid, a) ==
           Balance(l, a) + PaidTo(ps, a) + Received(b.transactions, a) - Spent(b.transactions, a) + ShareOf(b, a)
  {
    var txs := b.transactions;
    TotalFeesAre(txs);
    hide PreValid, ApplyAll, SplitFees, Supply, TransfersFit, PrizesFit, Received, Spent, PaidTo, PaidOut;
    hide Fees, TotalFees, MintedIn, Signatures, Holding, Balance;
    if ApplyAll(settled, txs).Some? {
      var applied := ApplyAll(settled, txs).value;
      LoopNeverGains(c, l, settled, txs);
      ShareLoses(applied, b);
    }
    if PrizesFit(l, ps) {
      AffordsAfter(l, settled, ps);
      LoopLoses(c, l, settled, txs);
      HoldingAfter(l, settled, ps, txs);
      FeesFit(l, settled, ps, txs);
    }
  }

  lemma AffordsAfter(l: Ledger, m: Ledger, ps: seq<Payout>)
    requires m.confirmed == l.confirmed && forall a :: Balance(m, a) == Balance(l, a) + PaidTo(ps, a)
    ensures Affords(l, m)
  {
    hide PaidTo, Balance;
  }

  lemma FeesFit(l: Ledger, m: Ledger, ps: seq<Payout>, txs: seq<Tx>)
    requires m.pot == l.pot - PaidOut(ps)
    ensures TransfersFit(l, ps, txs) ==> Fees(txs) <= U64_MAX
  {
    hide PaidOut, Fees, Holding;
  }

  // A block that passed the checks kills the node exactly when, in exact
  // arithmetic, some receiver or the pot would hold more than 2^64 - 1.
  lemma AbortsExactly(c: Crypto, v: View, b: Block)
    requires WellFormed(c, b) && PreValid(c, v.ledger, b.transactions)
    ensures Process(c, v, b).Yields? <==> Fits(v.ledger, Settle(c, v, b.index).1, b)
    // What is not refused is booked to the coin.
    ensures Process(c, v, b).Yields? ==> Booked(v.ledger, Process(c, v, b).ledger, b, Process(c, v, b).payouts)
  {
    hide PreValid, ApplyAll, SplitFees, Supply, SettleAll, PrizesFit, Fits, Stamp, Due, NotDue, Process, Balance;
    hide MintedIn, PaidOut, PaidTo;
    var l := v.ledger;
    var opening := l.(tickets := NotDue(l.tickets, b.index));
    var (settled, ps) := Settle(c, v, b.index);
    SettleLoses(c, v.blocks, v.offset, opening, Due(l.tickets, b.index));
    OtherTickets(l, opening, ps);
    assert b.transactions[..|b.transactions|] == b.transactions;
    MintedOnce(b, |b.transactions|);
    BooksClose(c, l, settled, ps, b);
    ProcessSteps(c, v, b, settled, ps);
    if Process(c, v, b).Yields? {
      StampedBooks(l, SplitFees(ApplyAll(settled, b.transactions).value, b), ps, b);
    }
  }

  lemma StampedBooks(l: Ledger, paid: Ledger, ps: seq<Payout>, b: Block)
    requires Supply(paid) == Supply(l) + b.Minted()
    requires paid.pot == l.pot - PaidOut(ps) + Fees(b.transactions) - MinerShare(b)
    requires paid.confirmed == l.confirmed + Signatures(b.transactions)
    requires forall a ::
      Balance(paid, a) ==
        Balance(l, a) + PaidTo(ps, a) + Received(b.transactions, a) - Spent(b.transactions, a) + ShareOf(b, a)
    ensures Booked(l, Stamp(paid, b), b, ps)
  {
    hide Stamp, Sum, Received, Spent, PaidTo, PaidOut, Fees, Signatures, ShareOf, MinerShare;
    StampKeepsBooks(paid, b);
  }

  lemma OtherTickets(l: Ledger, m: Ledger, ps: seq<Payout>)
    requires m == l.(tickets := m.tickets)
    ensures Supply(m) == Supply(l) && (PrizesFit(m, ps) <==> PrizesFit(l, ps))
    ensures forall a :: Balance(m, a) == Balance(l, a)
  {
    hide PaidTo;
  }
}
