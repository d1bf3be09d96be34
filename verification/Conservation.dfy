/** Pre-validation is sufficient: what an admitted block does to every balance, to the pot and to the supply. */
module Conservation {
  import opened Prelude
  import opened Types
  import opened Consensus

  // -------------------------------------------------------------------------
  // Exact sums, with no saturation
  // -------------------------------------------------------------------------

  function Fees(txs: seq<Tx>): nat {
    if txs == [] then 0 else Fees(Front(txs)) + if Last(txs).Coinbase() then 0 else Last(txs).fee
  }

  function MintedIn(txs: seq<Tx>): nat {
    if txs == [] then 0 else MintedIn(Front(txs)) + if Last(txs).Coinbase() then Last(txs).amount else 0
  }

  function Signatures(txs: seq<Tx>): set<Signature> {
    set i | 0 <= i < |txs| && !txs[i].Coinbase() :: txs[i].signature
  }

  function PaidTo(ps: seq<Payout>, a: Address): nat {
    if ps == [] then 0 else PaidTo(Front(ps), a) + if Last(ps).receiver == a then Last(ps).amount else 0
  }

  function PaidOut(ps: seq<Payout>): nat {
    if ps == [] then 0 else PaidOut(Front(ps)) + Last(ps).amount
  }

  function MinerShare(b: Block): nat {
    if b.Miner().Some? then Fees(b.transactions) / 2 else 0
  }

  function ShareOf(b: Block, a: Address): nat {
    if b.Miner() == Some(a) then MinerShare(b) else 0
  }

  // -------------------------------------------------------------------------
  // Lottery settlement only moves coins from the pot to miners
  // -------------------------------------------------------------------------

  // A credit that fits in the supply does not wrap.
  lemma CreditMoves(m: map<Address, u64>, to: Address, amount: u64)
    requires Sum(m) + amount <= U64_MAX
    ensures var after := m[to := WrapAdd(Get(m, to), amount)];
      && Sum(after) == Sum(m) + amount
      && forall a :: Get(after, a) == Get(m, a) + if a == to then amount else 0
  {
    GetAtMostSum(m, to);
    assert WrapAdd(Get(m, to), amount) == Get(m, to) + amount;
    SumUpdate(m, to, Get(m, to) + amount);
  }

  lemma PaidOnce(p: Payout)
    ensures PaidOut([p]) == p.amount
    ensures forall a :: PaidTo([p], a) == if a == p.receiver then p.amount else 0
  {
    assert Front([p]) == [];
    forall a ensures PaidTo([p], a) == if a == p.receiver then p.amount else 0 {
      assert PaidTo([], a) == 0;
    }
  }

  lemma SettleOneMoves(l: Ledger, t: Ticket, tier: Tier)
    requires Supply(l) <= U64_MAX
    ensures var l' := SettleOne(l, t, tier); var ps := PayoutOf(l, t, tier);
      && Supply(l') == Supply(l)
      && l'.pot + PaidOut(ps) == l.pot
      && (forall a :: Balance(l', a) == Balance(l, a) + PaidTo(ps, a))
      && l' == l.(pot := l'.pot, balances := l'.balances)
  {
    var payout: u64 := Min(Prize(tier, l.pot), l.pot);
    hide Prize, Sum, WrapAdd, PaidTo;
    if payout > 0 {
      CreditMoves(l.balances, t.miner, payout);
      PaidOnce(Payout(t.miner, payout, tier));
    } else {
      forall a ensures PaidTo([], a) == 0 {
        NothingPaid(a);
      }
    }
  }

  lemma NothingPaid(a: Address)
    ensures PaidTo([], a) == 0
  {
  }

  lemma PaidAppend(ps: seq<Payout>, qs: seq<Payout>)
    requires |qs| <= 1
    ensures PaidOut(ps + qs) == PaidOut(ps) + PaidOut(qs)
    ensures forall a :: PaidTo(ps + qs, a) == PaidTo(ps, a) + PaidTo(qs, a)
  {
    if qs == [] {
      assert ps + qs == ps;
    } else {
      assert Front(ps + qs) == ps && Front(qs) == [];
      assert PaidOut(qs) == PaidOut([]) + qs[0].amount;
      forall a ensures PaidTo(ps + qs, a) == PaidTo(ps, a) + PaidTo(qs, a) {
        assert PaidTo([], a) == 0;
      }
    }
  }

  lemma {:induction false} SettleAllMoves(c: Crypto, blocks: seq<Block>, offset: nat, l: Ledger, due: seq<Ticket>)
    requires Supply(l) <= U64_MAX
    ensures var (l', ps) := SettleAll(c, blocks, offset, l, due);
      && Supply(l') == Supply(l)
      && l'.pot + PaidOut(ps) == l.pot
      && (forall a :: Balance(l', a) == Balance(l, a) + PaidTo(ps, a))
      && l' == l.(pot := l'.pot, balances := l'.balances)
  {
    if due != [] {
      SettleAllMoves(c, blocks, offset, l, Front(due));
      var (l1, ps) := SettleAll(c, blocks, offset, l, Front(due));
      var tier := Draw(c, blocks, offset, Last(due));
      SettleOneMoves(l1, Last(due), tier);
      PaidAppend(ps, PayoutOf(l1, Last(due), tier));
    }
  }

  // -------------------------------------------------------------------------
  // Transactions
  // -------------------------------------------------------------------------

  lemma CoinbaseMints(l: Ledger, tx: Tx)
    requires tx.Coinbase() && Supply(l) + tx.amount <= U64_MAX
    ensures var l' := ApplyTx(l, tx);
      && Supply(l') == Supply(l) + tx.amount
      && (forall a :: Balance(l', a) == Balance(l, a) + if a == tx.receiver then tx.amount else 0)
      && l' == l.(balances := l'.balances)
  {
    CreditMoves(l.balances, tx.receiver, tx.amount);
  }

  // Debit `from` by `cost`, then credit `to` with `amount`, as the code does on one map.
  lemma DebitCredit(m: map<Address, u64>, from: Address, cost: nat, to: Address, amount: u64)
    requires amount <= cost <= Get(m, from) && Sum(m) <= U64_MAX
    ensures var debited: map<Address, u64> := m[from := Get(m, from) - cost];
      var after := debited[to := WrapAdd(Get(debited, to), amount)];
      && Sum(after) == Sum(m) - cost + amount
      && forall a :: Get(after, a) == Get(m, a) - (if a == from then cost else 0) + (if a == to then amount else 0)
  {
    var debited: map<Address, u64> := m[from := Get(m, from) - cost];
    SumUpdate(m, from, Get(m, from) - cost);
    CreditMoves(debited, to, amount);
  }

  lemma TransferMoves(l: Ledger, tx: Tx)
    requires !tx.Coinbase() && tx.Cost() <= Balance(l, tx.sender) && Supply(l) <= U64_MAX
    ensures var l' := ApplyTx(l, tx);
      && Supply(l') == Supply(l)
      && l'.pot == l.pot + tx.fee
      && l'.confirmed == l.confirmed + {tx.signature}
      && (forall a :: Balance(l', a) ==
            Balance(l, a) - (if a == tx.sender then tx.Cost() else 0) + (if a == tx.receiver then tx.amount else 0))
      && l' == l.(balances := l'.balances, pot := l'.pot, confirmed := l'.confirmed)
  {
    GetAtMostSum(l.balances, tx.sender);
    DebitCredit(l.balances, tx.sender, tx.Cost(), tx.receiver, tx.amount);
    var touched: map<Address, u64> := l.balances[tx.sender := Get(l.balances, tx.sender)];
    var rest: u64 := Get(l.balances, tx.sender) - tx.Cost();
    assert touched[tx.sender := rest] == l.balances[tx.sender := rest];
  }

  lemma PreValidFront(c: Crypto, l: Ledger, txs: seq<Tx>)
    requires |txs| > 0 && PreValid(c, l, txs)
    ensures PreValid(c, l, Front(txs))
  {
    var fs := Front(txs);
    forall i | 0 <= i < |fs| && !fs[i].Coinbase() ensures PaysAt(c, l, fs, i) {
      assert PaysAt(c, l, txs, i);
      assert fs[..i + 1] == txs[..i + 1] && fs[i] == txs[i];
    }
  }

  lemma SignaturesSplit(txs: seq<Tx>)
    requires |txs| > 0
    ensures Signatures(txs) == Signatures(Front(txs)) + if Last(txs).Coinbase() then {} else {Last(txs).signature}
  {
    forall s | s in Signatures(txs)
      ensures s in Signatures(Front(txs)) + if Last(txs).Coinbase() then {} else {Last(txs).signature}
    {
      var i :| 0 <= i < |txs| && !txs[i].Coinbase() && txs[i].signature == s;
      if i < |txs| - 1 {
        assert Front(txs)[i] == txs[i];
      }
    }
    forall s | s in Signatures(Front(txs)) ensures s in Signatures(txs) {
      var i :| 0 <= i < |txs| - 1 && !Front(txs)[i].Coinbase() && Front(txs)[i].signature == s;
      assert txs[i] == Front(txs)[i];
    }
  }

  ghost predicate Affords(l0: Ledger, l: Ledger) {
    l.confirmed == l0.confirmed && forall a :: Balance(l0, a) <= Balance(l, a)
  }

  ghost predicate Applied(l: Ledger, l': Ledger, txs: seq<Tx>) {
    && Supply(l') == Supply(l) + MintedIn(txs)
    && l'.pot == l.pot + Fees(txs)
    && l'.confirmed == l.confirmed + Signatures(txs)
    && (forall a :: Balance(l', a) == Balance(l, a) + Received(txs, a) - Spent(txs, a))
    && l' == l.(balances := l'.balances, pot := l'.pot, confirmed := l'.confirmed)
  }

  // Every pre-validated transfer applies, in order, even after the lottery has
  // already credited some senders.
  lemma {:induction false} ApplyAllApplies(c: Crypto, l0: Ledger, l: Ledger, txs: seq<Tx>)
    requires PreValid(c, l0, txs) && Affords(l0, l)
    requires Supply(l) + MintedIn(txs) <= U64_MAX
    ensures ApplyAll(l, txs).Some? && Applied(l, ApplyAll(l, txs).value, txs)
  {
    if txs == [] {
      NothingApplied(l);
    } else {
      var fs, tx := Front(txs), Last(txs);
      FreshLast(c, l0, txs);
      hide PreValid, Supply, Signatures, Applied, ApplyTx, Balance, Spent;
      ApplyAllApplies(c, l0, l, fs);
      LastApplies(l0, l, ApplyAll(l, fs).value, txs);
    }
  }

  lemma NothingApplied(l: Ledger)
    ensures ApplyAll(l, []) == Some(l) && Applied(l, l, [])
  {
    assert Signatures([]) == {};
  }

  // The last of pre-validated transactions is new, and covered with all before it.
  lemma FreshLast(c: Crypto, l0: Ledger, txs: seq<Tx>)
    requires |txs| > 0 && PreValid(c, l0, txs)
    ensures PreValid(c, l0, Front(txs))
    ensures !Last(txs).Coinbase() ==>
      && Last(txs).signature !in l0.confirmed && Last(txs).signature !in Signatures(Front(txs))
      && Spent(txs, Last(txs).sender) <= Balance(l0, Last(txs).sender)
  {
    PreValidFront(c, l0, txs);
    if !Last(txs).Coinbase() {
      assert txs[..|txs| - 1 + 1] == txs;
      assert PaysAt(c, l0, txs, |txs| - 1);
    }
  }

  // What the last transaction adds to each sum.
  lemma SumsSplit(txs: seq<Tx>)
    requires |txs| > 0
    ensures var fs, tx := Front(txs), Last(txs);
      && Fees(txs) == Fees(fs) + (if tx.Coinbase() then 0 else tx.fee)
      && MintedIn(txs) == MintedIn(fs) + (if tx.Coinbase() then tx.amount else 0)
      && (forall a :: Received(txs, a) == Received(fs, a) + if tx.receiver == a then tx.amount else 0)
      && (forall a :: Spent(txs, a) == Spent(fs, a) + if !tx.Coinbase() && tx.sender == a then tx.Cost() else 0)
  {
  }

  lemma LastApplies(l0: Ledger, l: Ledger, l1: Ledger, txs: seq<Tx>)
    requires |txs| > 0 && Affords(l0, l) && Applied(l, l1, Front(txs)) && Supply(l) + MintedIn(txs) <= U64_MAX
    requires !Last(txs).Coinbase() ==> Spent(txs, Last(txs).sender) <= Balance(l0, Last(txs).sender)
    ensures Applied(l, ApplyTx(l1, Last(txs)), txs)
    ensures !Last(txs).Coinbase() ==> Last(txs).signature in ApplyTx(l1, Last(txs)).confirmed
  {
    hide Supply, ApplyTx, Balance, Spent, Applied, MintedIn;
    if Last(txs).Coinbase() {
      LastMints(l, l1, txs);
    } else {
      LastMoves(l0, l, l1, txs);
    }
  }

  lemma LastMints(l: Ledger, l1: Ledger, txs: seq<Tx>)
    requires |txs| > 0 && Last(txs).Coinbase() && Applied(l, l1, Front(txs)) && Supply(l) + MintedIn(txs) <= U64_MAX
    ensures Applied(l, ApplyTx(l1, Last(txs)), txs)
  {
    var tx := Last(txs);
    hide Supply, Signatures, Balance, Fees, MintedIn, Received, Spent, ApplyTx;
    SignaturesSplit(txs);
    SumsSplit(txs);
    CoinbaseMints(l1, tx);
  }

  lemma LastMoves(l0: Ledger, l: Ledger, l1: Ledger, txs: seq<Tx>)
    requires |txs| > 0 && !Last(txs).Coinbase() && Affords(l0, l) && Applied(l, l1, Front(txs))
    requires Supply(l) + MintedIn(txs) <= U64_MAX && Spent(txs, Last(txs).sender) <= Balance(l0, Last(txs).sender)
    ensures Applied(l, ApplyTx(l1, Last(txs)), txs)
    ensures Last(txs).signature in ApplyTx(l1, Last(txs)).confirmed
  {
    var tx := Last(txs);
    hide Supply, Signatures, Balance, Fees, MintedIn, Received, Spent, ApplyTx, Affords;
    CanStillPay(l0, l, l1, txs);
    SignaturesSplit(txs);
    UnionMoves(l.confirmed, Signatures(Front(txs)), {tx.signature});
    SumsSplit(txs);
    TransferMoves(l1, tx);
  }

  lemma CanStillPay(l0: Ledger, l: Ledger, l1: Ledger, txs: seq<Tx>)
    requires |txs| > 0 && !Last(txs).Coinbase() && Affords(l0, l) && Applied(l, l1, Front(txs))
    requires Supply(l) + MintedIn(txs) <= U64_MAX && Spent(txs, Last(txs).sender) <= Balance(l0, Last(txs).sender)
    ensures Last(txs).Cost() <= Balance(l1, Last(txs).sender) && Supply(l1) <= U64_MAX
  {
    hide Supply, Signatures, Balance, Fees, MintedIn, Received, Spent;
    SumsSplit(txs);
  }

  lemma {:induction false} MintedOnce(b: Block, n: nat)
    requires n <= |b.transactions|
    requires forall i :: 1 <= i < |b.transactions| ==> !b.transactions[i].Coinbase()
    ensures MintedIn(b.transactions[..n]) == if n == 0 then 0 else b.Minted()
  {
    if n > 0 {
      var txs := b.transactions[..n];
      assert Front(txs) == b.transactions[..n - 1];
      MintedOnce(b, n - 1);
    }
  }

  lemma {:induction false} FeesDoNotSaturate(txs: seq<Tx>)
    requires Fees(txs) <= U64_MAX
    ensures TotalFees(txs) == Fees(txs)
  {
    if txs != [] {
      FeesDoNotSaturate(Front(txs));
    }
  }

  lemma SplitFeesMoves(l: Ledger, b: Block)
    requires Supply(l) <= U64_MAX && Fees(b.transactions) <= l.pot
    ensures var l' := SplitFees(l, b);
      && Supply(l') == Supply(l)
      && l'.pot == l.pot - MinerShare(b)
      && (forall a :: Balance(l', a) == Balance(l, a) + ShareOf(b, a))
      && l' == l.(balances := l'.balances, pot := l'.pot)
  {
    FeesDoNotSaturate(b.transactions);
    var share: u64 := Fees(b.transactions) / 2;
    if share > 0 && b.Miner().Some? {
      CreditMoves(l.balances, b.Miner().value, share);
    }
  }

  // -------------------------------------------------------------------------
  // The block
  // -------------------------------------------------------------------------

  // The books of one block: what every address and the pot end up with.
  ghost predicate Booked(l: Ledger, l': Ledger, b: Block, ps: seq<Payout>) {
    && Supply(l') == Supply(l) + b.Minted()
    && l'.pot == l.pot - PaidOut(ps) + Fees(b.transactions) - MinerShare(b)
    && l'.confirmed == l.confirmed + Signatures(b.transactions)
    && forall a :: Balance(l', a) ==
         Balance(l, a) + PaidTo(ps, a) + Received(b.transactions, a) - Spent(b.transactions, a) + ShareOf(b, a)
  }

  lemma StampKeepsBooks(l: Ledger, b: Block)
    ensures var l' := Stamp(l, b);
      l'.balances == l.balances && l'.pot == l.pot && l'.confirmed == l.confirmed && l'.tickets == l.tickets + Issued(b)
  {
  }

  // With room for its coinbase, a block that passes the checks never reaches
  // an abort, loses no value to wrap-around or saturation, and changes the
  // supply by its coinbase alone.
  lemma PreValidationSuffices(c: Crypto, v: View, b: Block)
    requires WellFormed(c, b) && PreValid(c, v.ledger, b.transactions)
    requires Supply(v.ledger) + b.Minted() <= U64_MAX
    ensures Process(c, v, b).Yields?
    ensures Booked(v.ledger, Process(c, v, b).ledger, b, Process(c, v, b).payouts)
  {
    hide Stamp, SettleAll, ApplyAll, SplitFees, NotDue, Due, Fees, TotalFees, MintedIn, Received, Spent, PaidTo;
    hide PaidOut, PreValid;
    var l := v.ledger;
    var opening := l.(tickets := NotDue(l.tickets, b.index));
    SettleAllMoves(c, v.blocks, v.offset, opening, Due(l.tickets, b.index));
    var (settled, ps) := Settle(c, v, b.index);
    var txs := b.transactions;
    assert txs[..|txs|] == txs;
    MintedOnce(b, |txs|);
    assert MintedIn(txs) == b.Minted() <= 1;
    ApplyAllApplies(c, l, settled, txs);
    var applied := ApplyAll(settled, txs).value;
    SplitFeesMoves(applied, b);
    StampKeepsBooks(SplitFees(applied, b), b);
  }

  // Without that room the checks are not enough: minting one coin to an account
  // that already holds 2^64 - 1 wraps it to zero, and the node kills itself.
  lemma NoRoomAborts(c: Crypto, v: View, b: Block)
    requires |b.transactions| == 1 && b.transactions[0].Coinbase() && b.transactions[0].amount == 1
    requires Balance(v.ledger, b.transactions[0].receiver) == U64_MAX && Due(v.ledger.tickets, b.index) == []
    ensures Process(c, v, b).Aborts?
  {
    var tx, txs := b.transactions[0], b.transactions;
    var l := v.ledger.(tickets := NotDue(v.ledger.tickets, b.index));
    assert Settle(c, v, b.index) == (l, []);
    assert Front(txs) == [] && Last(txs) == tx;
    var applied := ApplyTx(l, tx);
    assert ApplyAll(l, txs) == Some(applied);
    SumUpdate(l.balances, tx.receiver, 0);
    GetAtMostSum(l.balances, tx.receiver);
    assert WrapAdd(U64_MAX, 1) == 0;
    assert TotalFees(Front(txs)) == 0 && TotalFees(txs) == 0;
    assert SplitFees(applied, b) == applied;
  }
}
