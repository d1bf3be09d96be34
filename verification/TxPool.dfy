/** Pending transactions, what each sender still owes for them, and the pool's bounds. */
module TxPool {
  import opened Prelude
  import opened Types
  import opened Consensus
  import opened Conservation
  import opened PreCheck

  const MAX_MEMPOOL_SIZE := 10_000
  const TX_EXPIRY_BLOCKS := 100
  const MAX_PENDING_PER_SENDER := 25

  datatype Entry = Entry(tx: Tx, addedHeight: nat)

  type Entries = map<Signature, Entry>

  function CostOf(tx: Tx): u64 {
    SatAdd(tx.amount, tx.fee)
  }

  // What `a` owes for each of its pending transactions.
  function CostsOf(es: Entries, a: Address): map<Signature, u64> {
    map s | s in es && es[s].tx.sender == a :: CostOf(es[s].tx)
  }

  ghost function Debit(es: Entries, a: Address): nat {
    Sum(CostsOf(es, a))
  }

  function Count(es: Entries, a: Address): nat {
    |CostsOf(es, a)|
  }

  lemma CountIsSize(es: Entries, a: Address)
    ensures Count(es, a) == |set s | s in es && es[s].tx.sender == a|
  {
    assert CostsOf(es, a).Keys == set s | s in es && es[s].tx.sender == a;
  }

  lemma DebitIsSum(es: Entries, a: Address)
    ensures Debit(es, a) == Sum(map s | s in es && es[s].tx.sender == a :: SatAdd(es[s].tx.amount, es[s].tx.fee))
  {
    assert CostsOf(es, a) == map s | s in es && es[s].tx.sender == a :: SatAdd(es[s].tx.amount, es[s].tx.fee);
  }

  lemma DebitAdd(es: Entries, s: Signature, e: Entry, a: Address)
    requires s !in es
    ensures Debit(es[s := e], a) == Debit(es, a) + if e.tx.sender == a then CostOf(e.tx) else 0
    ensures Count(es[s := e], a) == Count(es, a) + if e.tx.sender == a then 1 else 0
  {
    var m := CostsOf(es, a);
    if e.tx.sender == a {
      assert CostsOf(es[s := e], a) == m[s := CostOf(e.tx)];
      SumUpdate(m, s, CostOf(e.tx));
    } else {
      assert CostsOf(es[s := e], a) == m;
    }
  }

  lemma DebitRemove(es: Entries, s: Signature, a: Address)
    requires s in es
    ensures Debit(es - {s}, a) == Debit(es, a) - if es[s].tx.sender == a then CostOf(es[s].tx) else 0
    ensures Count(es - {s}, a) == Count(es, a) - if es[s].tx.sender == a then 1 else 0
  {
    hide Debit, Count;
    DebitAdd(es - {s}, s, es[s], a);
    assert (es - {s})[s := es[s]] == es;
  }

  ghost predicate SubEntries(es: Entries, fs: Entries) {
    forall s :: s in es ==> s in fs && es[s] == fs[s]
  }

  // Dropping entries only lowers debits and counts.
  lemma {:induction false} FewerOweLess(es: Entries, fs: Entries, a: Address)
    requires SubEntries(es, fs)
    ensures Debit(es, a) <= Debit(fs, a) && Count(es, a) <= Count(fs, a)
    decreases |fs|
  {
    hide Debit, Count;
    if s :| s in fs && s !in es {
      DebitRemove(fs, s, a);
      FewerOweLess(es, fs - {s}, a);
    } else {
      assert es == fs;
    }
  }

  // The limits `add_transaction`, `restore` and `readd_displaced` enforce, and what
  // the keys mean: a pooled transfer is filed under its own signature.
  ghost predicate Bounded(es: Entries) {
    |es| <= MAX_MEMPOOL_SIZE && forall a :: Count(es, a) <= MAX_PENDING_PER_SENDER
  }

  ghost predicate FiledBySignature(es: Entries) {
    forall s :: s in es ==> es[s].tx.signature == s && !es[s].tx.Coinbase()
  }

  // Invariant of the pool.
  ghost predicate WellKept(es: Entries) {
    Bounded(es) && FiledBySignature(es)
  }

  lemma AddEntryKeeps(es: Entries, e: Entry)
    requires WellKept(es) && !e.tx.Coinbase() && e.tx.signature !in es
    requires Count(es, e.tx.sender) < MAX_PENDING_PER_SENDER && |es| < MAX_MEMPOOL_SIZE
    ensures WellKept(es[e.tx.signature := e])
  {
    hide Count;
    var fs := es[e.tx.signature := e];
    assert |fs| == |es| + 1;
    forall a ensures Count(fs, a) <= MAX_PENDING_PER_SENDER {
      DebitAdd(es, e.tx.signature, e, a);
    }
  }

  lemma DropKeeps(es: Entries, fs: Entries)
    requires SubEntries(es, fs) && WellKept(fs)
    ensures WellKept(es)
  {
    hide Count;
    assert es.Keys <= fs.Keys;
    SubsetIsSmaller(es.Keys, fs.Keys);
    forall a ensures Count(es, a) <= MAX_PENDING_PER_SENDER {
      FewerOweLess(es, fs, a);
    }
  }

  lemma SubsetIsSmaller<T>(x: set<T>, y: set<T>)
    requires x <= y
    ensures |x| <= |y|
  {
    assert y == x + (y - x);
  }

  // -------------------------------------------------------------------------
  // Solvency
  // -------------------------------------------------------------------------

  // `a` can pay for everything it has pending.
  ghost predicate Solvent(es: Entries, l: Ledger, a: Address) {
    Min(Debit(es, a), U64_MAX) <= Balance(l, a)
  }

  // What holds of a transfer when it is admitted.
  ghost predicate Sendable(c: Crypto, l: Ledger, tx: Tx) {
    c.verifies(tx) && tx.fee >= MIN_TX_FEE && c.decodes(tx.receiver) && tx.signature !in l.confirmed && !tx.Coinbase()
  }

  ghost predicate AllSendable(c: Crypto, l: Ledger, es: Entries) {
    forall s :: s in es ==> Sendable(c, l, es[s].tx)
  }

  // The entries left when `txs` are confirmed.
  function WithoutAll(es: Entries, txs: seq<Tx>): Entries {
    es - Signatures(txs)
  }

  // Every transfer of `a` in `txs` is pending, as it stands.
  ghost predicate AllPending(es: Entries, txs: seq<Tx>, a: Address) {
    forall i :: 0 <= i < |txs| && !txs[i].Coinbase() && txs[i].sender == a ==>
      txs[i].signature in es && es[txs[i].signature].tx == txs[i]
  }

  lemma DistinctFront(txs: seq<Tx>)
    requires DistinctSignatures(txs) && |txs| > 0
    ensures DistinctSignatures(Front(txs))
    ensures !Last(txs).Coinbase() ==> Last(txs).signature !in Signatures(Front(txs))
  {
  }

  lemma PendingFront(es: Entries, txs: seq<Tx>, a: Address)
    requires AllPending(es, txs, a) && DistinctSignatures(txs) && |txs| > 0
    ensures AllPending(es, Front(txs), a)
    ensures !Last(txs).Coinbase() ==> AllPending(es - {Last(txs).signature}, Front(txs), a)
    ensures !Last(txs).Coinbase() && Last(txs).sender == a ==>
      Last(txs).signature in es && es[Last(txs).signature].tx == Last(txs)
  {
  }

  // No transfer of `a` costs more than a u64, so that the debit is its debt.
  ghost predicate CostsFit(es: Entries, a: Address) {
    forall s :: s in es && es[s].tx.sender == a ==> es[s].tx.Cost() <= U64_MAX
  }

  lemma RemovedFacts(es: Entries, s: Signature, a: Address)
    requires FiledBySignature(es) && s in es && CostsFit(es, a)
    ensures FiledBySignature(es - {s}) && !es[s].tx.Coinbase() && CostsFit(es - {s}, a)
    ensures Debit(es - {s}, a) == Debit(es, a) - if es[s].tx.sender == a then es[s].tx.Cost() else 0
  {
    hide Debit;
    DebitRemove(es, s, a);
  }

  lemma SpentLast(txs: seq<Tx>, a: Address)
    requires |txs| > 0
    ensures Spent(txs, a) ==
      Spent(Front(txs), a) + if !Last(txs).Coinbase() && Last(txs).sender == a then Last(txs).Cost() else 0
  {
  }

  lemma WithoutLast(es: Entries, txs: seq<Tx>)
    requires |txs| > 0
    ensures !Last(txs).Coinbase() ==> WithoutAll(es, txs) == WithoutAll(es - {Last(txs).signature}, Front(txs))
    ensures SubEntries(WithoutAll(es, txs), WithoutAll(es, Front(txs)))
  {
    SignaturesSplit(txs);
    hide Signatures;
  }

  // What `a` spends in `txs` stops being pending when they are confirmed.
  lemma {:induction false} SpentWasPending(es: Entries, txs: seq<Tx>, a: Address)
    requires FiledBySignature(es) && AllPending(es, txs, a) && DistinctSignatures(txs) && CostsFit(es, a)
    ensures Debit(WithoutAll(es, txs), a) + Spent(txs, a) <= Debit(es, a)
    decreases |txs|
  {
    if txs == [] {
      assert WithoutAll(es, txs) == es;
    } else {
      hide *;
      DistinctFront(txs);
      PendingFront(es, txs, a);
      SpentLast(txs, a);
      WithoutLast(es, txs);
      if !Last(txs).Coinbase() && Last(txs).sender == a {
        RemovedFacts(es, Last(txs).signature, a);
        SpentWasPending(es - {Last(txs).signature}, Front(txs), a);
      } else {
        SpentWasPending(es, Front(txs), a);
        FewerOweLess(WithoutAll(es, txs), WithoutAll(es, Front(txs)), a);
      }
    }
  }

  // Pooled transfers, none twice.
  ghost predicate SelectedFrom(es: Entries, txs: seq<Tx>) {
    && (forall i :: 0 <= i < |txs| ==> txs[i].signature in es && es[txs[i].signature].tx == txs[i])
    && (forall i, j :: 0 <= i < j < |txs| ==> txs[i].signature != txs[j].signature)
  }

  lemma SelectedPrefix(es: Entries, txs: seq<Tx>, n: nat, a: Address)
    requires SelectedFrom(es, txs) && n <= |txs|
    ensures AllPending(es, txs[..n], a) && DistinctSignatures(txs[..n])
  {
  }

  // The balance of `a` covers its pending debt, in exact arithmetic.
  ghost predicate Covered(es: Entries, l: Ledger, a: Address) {
    CostsFit(es, a) && Debit(es, a) <= Balance(l, a)
  }

  lemma CostsAreCounted(es: Entries, s: Signature)
    requires s in es
    ensures CostOf(es[s].tx) <= Debit(es, es[s].tx.sender)
  {
    var a := es[s].tx.sender;
    assert Get(CostsOf(es, a), s) == CostOf(es[s].tx);
    GetAtMostSum(CostsOf(es, a), s);
  }

  // Short of a balance at the very top of the range, the saturating test of the pool is exact.
  lemma SolventIsCovered(es: Entries, l: Ledger, a: Address)
    requires Solvent(es, l, a)
    ensures Covered(es, l, a) <==> Balance(l, a) < U64_MAX || (Debit(es, a) <= U64_MAX && CostsFit(es, a))
  {
    hide Debit, Balance;
    forall s | s in es && es[s].tx.sender == a ensures CostOf(es[s].tx) <= Debit(es, a) {
      CostsAreCounted(es, s);
    }
  }

  lemma CanPay(es: Entries, l: Ledger, txs: seq<Tx>, i: nat)
    requires FiledBySignature(es) && SelectedFrom(es, txs) && i < |txs| && Covered(es, l, txs[i].sender)
    ensures Spent(txs[..i + 1], txs[i].sender) <= Balance(l, txs[i].sender) && txs[i].Cost() <= U64_MAX
  {
    var a, upTo := txs[i].sender, txs[..i + 1];
    SelectedPrefix(es, txs, i + 1, a);
    SpentWasPending(es, upTo, a);
    hide Debit, Spent;
    SpentLast(upTo, a);
    assert !txs[i].Coinbase();
  }

  lemma CoveredSelection(c: Crypto, l: Ledger, es: Entries, txs: seq<Tx>)
    requires FiledBySignature(es) && AllSendable(c, l, es) && SelectedFrom(es, txs)
    requires forall i :: 0 <= i < |txs| ==> Covered(es, l, txs[i].sender)
    ensures PreValid(c, l, txs)
  {
    hide Covered, Balance, Spent;
    forall i | 0 <= i < |txs| && !txs[i].Coinbase() ensures PaysAt(c, l, txs, i) {
      CanPay(es, l, txs, i);
      assert txs[i].signature in es;
    }
  }

  // Everything `a` has pending, one transfer after the other.
  lemma {:induction false} AllOf(es: Entries, a: Address) returns (txs: seq<Tx>)
    requires FiledBySignature(es) && CostsFit(es, a)
    ensures SelectedFrom(es, txs) && Spent(txs, a) == Debit(es, a)
    decreases |es|
  {
    hide Debit, SelectedFrom, Spent, FiledBySignature, CostsFit;
    if es == map[] {
      NoneOwed(a);
      txs := [];
    } else {
      var s :| s in es;
      RemovedFacts(es, s, a);
      var rest := AllOf(es - {s}, a);
      txs := AddOwn(es, s, a, rest);
    }
  }

  lemma NoneOwed(a: Address)
    ensures SelectedFrom(map[], []) && Spent([], a) == Debit(map[], a) == 0
  {
    assert CostsOf(map[], a) == map[];
  }

  lemma AddOwn(es: Entries, s: Signature, a: Address, rest: seq<Tx>) returns (txs: seq<Tx>)
    requires FiledBySignature(es) && CostsFit(es, a) && s in es
    requires SelectedFrom(es - {s}, rest) && Spent(rest, a) == Debit(es - {s}, a)
    ensures SelectedFrom(es, txs) && Spent(txs, a) == Debit(es, a)
  {
    hide Debit, SelectedFrom, Spent;
    RemovedFacts(es, s, a);
    OneMore(es, s, rest);
    txs := if es[s].tx.sender == a then rest + [es[s].tx] else rest;
    SpentLast(rest + [es[s].tx], a);
    assert Front(rest + [es[s].tx]) == rest;
  }

  lemma OneMore(es: Entries, s: Signature, rest: seq<Tx>)
    requires FiledBySignature(es) && s in es && SelectedFrom(es - {s}, rest)
    ensures SelectedFrom(es, rest) && SelectedFrom(es, rest + [es[s].tx])
  {
    assert forall i :: 0 <= i < |rest| ==> rest[i].signature in es - {s};
  }

  // In any order, any duplicate-free selection of pooled transfers passes the
  // pre-validation loop of the consensus rules, exactly when the balance of every
  // sender in the pool covers all it has pending.
  lemma PoolIsValidExactly(c: Crypto, l: Ledger, es: Entries)
    requires FiledBySignature(es) && AllSendable(c, l, es)
    ensures (forall txs :: SelectedFrom(es, txs) ==> PreValid(c, l, txs)) <==>
      forall s :: s in es ==> Covered(es, l, es[s].tx.sender)
  {
    hide PreValid, Covered;
    if forall s :: s in es ==> Covered(es, l, es[s].tx.sender) {
      forall txs | SelectedFrom(es, txs) ensures PreValid(c, l, txs) {
        CoveredSelection(c, l, es, txs);
      }
    }
    if forall txs :: SelectedFrom(es, txs) ==> PreValid(c, l, txs) {
      forall s | s in es ensures Covered(es, l, es[s].tx.sender) {
        ValidMeansCovered(c, l, es, es[s].tx.sender);
      }
    }
  }

  lemma ValidMeansCovered(c: Crypto, l: Ledger, es: Entries, a: Address)
    requires FiledBySignature(es) && (forall txs :: SelectedFrom(es, txs) ==> PreValid(c, l, txs))
    ensures Covered(es, l, a)
  {
    forall s | s in es && es[s].tx.sender == a ensures es[s].tx.Cost() <= U64_MAX {
      assert SelectedFrom(es, [es[s].tx]);
      assert PaysAt(c, l, [es[s].tx], 0);
    }
    hide PreValid, Balance, Debit, Spent;
    var txs := AllOf(es, a);
    SpentAtMost(c, l, txs, a);
  }

  // As long as the supply fits, the pool's own test is enough.
  lemma SolventPoolIsValid(c: Crypto, l: Ledger, es: Entries, txs: seq<Tx>)
    requires FiledBySignature(es) && AllSendable(c, l, es) && SelectedFrom(es, txs)
    requires Supply(l) < U64_MAX && forall i :: 0 <= i < |txs| ==> Solvent(es, l, txs[i].sender)
    ensures PreValid(c, l, txs)
  {
    hide Solvent, Covered, Balance, Supply, PreValid, SelectedFrom;
    forall i | 0 <= i < |txs| ensures Covered(es, l, txs[i].sender) {
      BalanceBelowSupply(l, txs[i].sender);
      SolventIsCovered(es, l, txs[i].sender);
    }
    CoveredSelection(c, l, es, txs);
  }

  lemma BalanceBelowSupply(l: Ledger, a: Address)
    ensures Balance(l, a) <= Supply(l)
  {
    GetAtMostSum(l.balances, a);
  }

  // At the very top of the range it is not: the saturating sum no longer sees what is owed.
  lemma SaturationHidesDebt(c: Crypto, l: Ledger, tx: Tx)
    requires tx.amount == U64_MAX && tx.fee == MIN_TX_FEE && !tx.Coinbase() && Balance(l, tx.sender) == U64_MAX
    ensures Solvent(map[tx.signature := Entry(tx, 0)], l, tx.sender) && !PreValid(c, l, [tx])
  {
    assert !PaysAt(c, l, [tx], 0);
  }

  // -------------------------------------------------------------------------
  // What keeps a sender solvent
  // -------------------------------------------------------------------------

  // The affordability test of admission and re-admission.
  ghost predicate CanAfford(es: Entries, balances: map<Address, u64>, tx: Tx) {
    SatSub(Get(balances, tx.sender), Min(Debit(es, tx.sender), U64_MAX)) >= CostOf(tx)
  }

  lemma AdmissionKeepsSolvent(es: Entries, l: Ledger, tx: Tx, height: nat, a: Address)
    requires CanAfford(es, l.balances, tx) && tx.signature !in es && Balance(l, tx.sender) < U64_MAX
    ensures Solvent(es, l, a) ==> Solvent(es[tx.signature := Entry(tx, height)], l, a)
    ensures CostOf(tx) > 0 ==> Solvent(es[tx.signature := Entry(tx, height)], l, tx.sender)
  {
    DebitAdd(es, tx.signature, Entry(tx, height), a);
    DebitAdd(es, tx.signature, Entry(tx, height), tx.sender);
    hide Debit, Balance;
  }

  lemma DroppingKeepsSolvent(es: Entries, fs: Entries, l: Ledger, a: Address)
    requires SubEntries(es, fs) && Solvent(fs, l, a)
    ensures Solvent(es, l, a)
  {
    FewerOweLess(es, fs, a);
    hide Debit;
  }

  // A block all of whose transfers by `a` were pending leaves the rest of its debt covered.
  lemma BlockKeepsCovered(es: Entries, before: Ledger, after: Ledger, b: Block, ps: seq<Payout>, a: Address)
    requires Booked(before, after, b, ps) && DistinctSignatures(b.transactions)
    requires FiledBySignature(es) && AllPending(es, b.transactions, a) && Covered(es, before, a)
    ensures Covered(WithoutAll(es, b.transactions), after, a)
  {
    hide AllPending, DistinctSignatures, FiledBySignature, Debit, Supply, Balance, Signatures;
    SpentWasPending(es, b.transactions, a);
  }

  lemma BlockKeepsSolvent(es: Entries, before: Ledger, after: Ledger, b: Block, ps: seq<Payout>, a: Address)
    requires Booked(before, after, b, ps) && DistinctSignatures(b.transactions) && Balance(before, a) < U64_MAX
    requires FiledBySignature(es) && AllPending(es, b.transactions, a) && Solvent(es, before, a)
    ensures Solvent(WithoutAll(es, b.transactions), after, a)
  {
    hide Booked, AllPending, DistinctSignatures, FiledBySignature, Debit, Balance, Signatures, CostsFit;
    SolventIsCovered(es, before, a);
    BlockKeepsCovered(es, before, after, b, ps, a);
  }

  // -------------------------------------------------------------------------
  // The pool
  // -------------------------------------------------------------------------

  class Mempool {
    var entries: Entries

    constructor ()
      ensures entries == map[] && WellKept(entries)
    {
      entries := map[];
      new;
      EmptyIsWellKept();
    }

    method PendingCount(sender: Address) returns (n: nat)
      ensures n == Count(entries, sender) == |set s | s in entries && entries[s].tx.sender == sender|
    {
      CountIsSize(entries, sender);
      n := 0;
      var left := entries.Keys;
      NothingDone(entries, sender);
      while left != {}
        invariant left <= entries.Keys && n == Count(entries - left, sender)
        decreases left
      {
        var s :| s in left;
        Processed(entries, left, s, sender);
        hide *;
        if entries[s].tx.sender == sender {
          n := n + 1;
        }
        left := left - {s};
      }
      assert entries - left == entries;
    }

    method PendingDebit(sender: Address) returns (total: u64)
      ensures total == Min(Debit(entries, sender), U64_MAX)
      ensures var costs := map s | s in entries && entries[s].tx.sender == sender ::
          SatAdd(entries[s].tx.amount, entries[s].tx.fee);
        total == Min(Sum(costs), U64_MAX)
    {
      DebitIsSum(entries, sender);
      hide Debit, Count;
      total := 0;
      var left := entries.Keys;
      NothingDone(entries, sender);
      while left != {}
        invariant left <= entries.Keys && total == Min(Debit(entries - left, sender), U64_MAX)
        decreases left
      {
        var s :| s in left;
        Processed(entries, left, s, sender);
        if entries[s].tx.sender == sender {
          total := SatAdd(total, CostOf(entries[s].tx));
        }
        left := left - {s};
      }
      assert entries - left == entries;
    }

    // Whether there is room for one more transfer of this sender.
    method HasRoom(tx: Tx) returns (room: bool)
      ensures room == (Count(entries, tx.sender) < MAX_PENDING_PER_SENDER && |entries| < MAX_MEMPOOL_SIZE)
    {
      var n := PendingCount(tx.sender);
      room := n < MAX_PENDING_PER_SENDER && |entries| < MAX_MEMPOOL_SIZE;
    }

    method AddTransaction(tx: Tx, height: nat) returns (added: bool)
      modifies this
      ensures added == (!tx.Coinbase() && tx.signature !in old(entries)
        && Count(old(entries), tx.sender) < MAX_PENDING_PER_SENDER && |old(entries)| < MAX_MEMPOOL_SIZE)
      ensures entries == if added then old(entries)[tx.signature := Entry(tx, height)] else old(entries)
      ensures old(WellKept(entries)) ==> WellKept(entries)
    {
      hide *;
      if tx.Coinbase() || tx.signature in entries {
        return false;
      }
      var room := HasRoom(tx);
      if !room {
        return false;
      }
      if WellKept(entries) {
        AddEntryKeeps(entries, Entry(tx, height));
      }
      entries := entries[tx.signature := Entry(tx, height)];
      return true;
    }

    method RemoveIncluded(included: seq<Tx>)
      modifies this
      ensures entries == WithoutAll(old(entries), included)
    {
      assert included[..0] == [];
      for i := 0 to |included|
        invariant entries == WithoutAll(old(entries), included[..i])
      {
        SignaturesSplit(included[..i + 1]);
        hide Signatures;
        assert Front(included[..i + 1]) == included[..i];
        if !included[i].Coinbase() {
          entries := entries - {included[i].signature};
        }
      }
      assert included[..|included|] == included;
    }

    method EvictExpired(height: nat)
      modifies this
      ensures entries == Fresh(old(entries), height)
      ensures entries == map s | s in old(entries) && height <= old(entries)[s].addedHeight + 100 :: old(entries)[s]
    {
      var left := entries.Keys;
      ghost var es := entries;
      while left != {}
        invariant left <= es.Keys && forall s :: s in left ==> s in entries && entries[s] == es[s]
        invariant forall s :: s in es && s !in left && !Expired(es[s], height) ==> s in entries && entries[s] == es[s]
        invariant forall s :: s in entries ==> s in es && (s in left || !Expired(es[s], height))
        decreases left
      {
        var s :| s in left;
        left := left - {s};
        if Expired(entries[s], height) {
          entries := entries - {s};
        }
      }
    }

    // Put displaced transfers back that are still affordable, `balances` being
    // those of the new chain.
    method ReaddDisplaced(txs: seq<Tx>, balances: map<Address, u64>, height: nat)
      modifies this
      ensures entries == Readded(old(entries), txs, balances, height)
    {
      hide *;
      ReaddedNone(entries, balances, height);
      assert txs[..0] == [];
      for i := 0 to |txs|
        invariant entries == Readded(old(entries), txs[..i], balances, height)
      {
        ReaddedNext(old(entries), txs, i, balances, height);
        ReaddOneIs(entries, txs[i], balances, height);
        var tx := txs[i];
        if tx.Coinbase() || tx.signature in entries {
          continue;
        }
        var n := PendingCount(tx.sender);
        if n >= MAX_PENDING_PER_SENDER {
          continue;
        }
        if |entries| >= MAX_MEMPOOL_SIZE {
          FullStays(old(entries), txs, i, balances, height);
          return;
        }
        var pending := PendingDebit(tx.sender);
        var balance := Get(balances, tx.sender);
        if SatSub(balance, pending) < CostOf(tx) {
          continue;
        }
        entries := entries[tx.signature := Entry(tx, height)];
      }
      assert txs[..|txs|] == txs;
    }

    // Load persisted entries; the limits apply in the order given.
    method Restore(list: seq<Entry>)
      modifies this
      ensures entries == Restored(old(entries), list)
    {
      hide *;
      RestoredNone(entries);
      assert list[..0] == [];
      for i := 0 to |list|
        invariant entries == Restored(old(entries), list[..i])
      {
        RestoredNext(old(entries), list, i);
        RestoreOneIs(entries, list[i]);
        var tx := list[i].tx;
        if tx.Coinbase() {
          continue;
        }
        if |entries| >= MAX_MEMPOOL_SIZE {
          RestoredFull(old(entries), list, i);
          return;
        }
        if tx.signature in entries {
          continue;
        }
        var n := PendingCount(tx.sender);
        if n >= MAX_PENDING_PER_SENDER {
          continue;
        }
        entries := entries[tx.signature := list[i]];
      }
      assert list[..|list|] == list;
    }
  }

  // -------------------------------------------------------------------------
  // Re-admission and restoring, one transfer after the other
  // -------------------------------------------------------------------------

  // The limits on one more transfer.
  predicate HasSlot(es: Entries, tx: Tx) {
    !tx.Coinbase() && tx.signature !in es && Count(es, tx.sender) < MAX_PENDING_PER_SENDER && |es| < MAX_MEMPOOL_SIZE
  }

  ghost function ReaddOne(es: Entries, tx: Tx, balances: map<Address, u64>, height: nat): Entries {
    if HasSlot(es, tx) && CanAfford(es, balances, tx) then es[tx.signature := Entry(tx, height)] else es
  }

  ghost function Readded(es: Entries, txs: seq<Tx>, balances: map<Address, u64>, height: nat): Entries {
    if txs == [] then es else ReaddOne(Readded(es, Front(txs), balances, height), Last(txs), balances, height)
  }

  function RestoreOne(es: Entries, e: Entry): Entries {
    if HasSlot(es, e.tx) then es[e.tx.signature := e] else es
  }

  function Restored(es: Entries, list: seq<Entry>): Entries {
    if list == [] then es else RestoreOne(Restored(es, Front(list)), Last(list))
  }

  lemma ReaddedNone(es: Entries, balances: map<Address, u64>, height: nat)
    ensures Readded(es, [], balances, height) == es
  {
  }

  lemma ReaddedNext(es: Entries, txs: seq<Tx>, i: nat, balances: map<Address, u64>, height: nat)
    requires i < |txs|
    ensures Readded(es, txs[..i + 1], balances, height) ==
      ReaddOne(Readded(es, txs[..i], balances, height), txs[i], balances, height)
  {
    assert Front(txs[..i + 1]) == txs[..i];
  }

  lemma ReaddOneIs(es: Entries, tx: Tx, balances: map<Address, u64>, height: nat)
    ensures ReaddOne(es, tx, balances, height) ==
      if !tx.Coinbase() && tx.signature !in es && Count(es, tx.sender) < MAX_PENDING_PER_SENDER &&
         |es| < MAX_MEMPOOL_SIZE && SatSub(Get(balances, tx.sender), Min(Debit(es, tx.sender), U64_MAX)) >= CostOf(tx)
      then es[tx.signature := Entry(tx, height)] else es
  {
    hide Count, Debit;
  }

  // Once the pool is full the rest of the loop changes nothing.
  lemma {:induction false} FullStays(es: Entries, txs: seq<Tx>, i: nat, balances: map<Address, u64>, height: nat)
    requires i <= |txs| && |Readded(es, txs[..i], balances, height)| >= MAX_MEMPOOL_SIZE
    ensures Readded(es, txs, balances, height) == Readded(es, txs[..i], balances, height)
  {
    if i == |txs| {
      assert txs[..i] == txs;
    } else {
      assert Front(txs)[..i] == txs[..i];
      FullStays(es, Front(txs), i, balances, height);
    }
  }

  lemma RestoredNone(es: Entries)
    ensures Restored(es, []) == es
  {
  }

  lemma RestoredNext(es: Entries, list: seq<Entry>, i: nat)
    requires i < |list|
    ensures Restored(es, list[..i + 1]) == RestoreOne(Restored(es, list[..i]), list[i])
  {
    assert Front(list[..i + 1]) == list[..i];
  }

  lemma RestoreOneIs(es: Entries, e: Entry)
    ensures RestoreOne(es, e) ==
      if !e.tx.Coinbase() && e.tx.signature !in es && Count(es, e.tx.sender) < MAX_PENDING_PER_SENDER &&
         |es| < MAX_MEMPOOL_SIZE
      then es[e.tx.signature := e] else es
  {
    hide Count;
  }

  lemma {:induction false} RestoredFull(es: Entries, list: seq<Entry>, i: nat)
    requires i <= |list| && |Restored(es, list[..i])| >= MAX_MEMPOOL_SIZE
    ensures Restored(es, list) == Restored(es, list[..i])
  {
    if i == |list| {
      assert list[..i] == list;
    } else {
      assert Front(list)[..i] == list[..i];
      RestoredFull(es, Front(list), i);
    }
  }

  // Restoring keeps the bounds, and holds nothing that was not stored.
  lemma {:induction false} RestoredKeeps(es: Entries, list: seq<Entry>)
    requires WellKept(es)
    ensures WellKept(Restored(es, list)) && SubEntries(es, Restored(es, list))
    ensures forall s :: s in Restored(es, list) && s !in es ==> Restored(es, list)[s] in list
  {
    if list != [] {
      RestoredKeeps(es, Front(list));
      var fs, e := Restored(es, Front(list)), Last(list);
      if HasSlot(fs, e.tx) {
        AddEntryKeeps(fs, e);
      }
    }
  }

  // Entries of a pool, each once, as they are persisted and handed to miners.
  ghost predicate Dump(entries: seq<Entry>, es: Entries) {
    && (forall i :: 0 <= i < |entries| ==> entries[i].tx.signature in es && es[entries[i].tx.signature] == entries[i])
    && (forall i, j :: 0 <= i < j < |entries| ==> entries[i].tx.signature != entries[j].tx.signature)
  }

  function SignaturesIn(entries: seq<Entry>): set<Signature> {
    set e | e in entries :: e.tx.signature
  }

  lemma SignaturesInLast(entries: seq<Entry>, es: Entries)
    requires entries != [] && Dump(entries, es)
    ensures Dump(Front(entries), es) && Last(entries).tx.signature !in SignaturesIn(Front(entries))
    ensures SignaturesIn(entries) == SignaturesIn(Front(entries)) + {Last(entries).tx.signature}
  {
    assert entries == Front(entries) + [Last(entries)];
  }

  // Restoring what was dumped from a pool within its limits drops nothing.
  lemma {:induction false} RestoredIsDump(list: seq<Entry>, es: Entries)
    requires WellKept(es) && Dump(list, es)
    ensures SubEntries(Restored(map[], list), es) && Restored(map[], list).Keys == SignaturesIn(list)
  {
    hide WellKept, Dump, SignaturesIn, SubEntries, HasSlot;
    if list == [] {
      NothingListed(es);
    } else {
      SignaturesInLast(list, es);
      RestoredIsDump(Front(list), es);
      OneMoreListed(Restored(map[], Front(list)), list, es);
    }
  }

  lemma NothingListed(es: Entries)
    ensures SubEntries(map[], es) && SignaturesIn([]) == {}
  {
  }

  lemma OneMoreListed(fs: Entries, list: seq<Entry>, es: Entries)
    requires WellKept(es) && list != [] && Dump(list, es) && SubEntries(fs, es) && Last(list).tx.signature !in fs
    ensures RestoreOne(fs, Last(list)) == fs[Last(list).tx.signature := Last(list)]
    ensures SubEntries(RestoreOne(fs, Last(list)), es)
  {
    hide WellKept, HasSlot;
    assert es[Last(list).tx.signature] == Last(list);
    SlotWithin(fs, es, Last(list).tx.signature);
  }

  lemma SlotWithin(fs: Entries, es: Entries, s: Signature)
    requires WellKept(es) && SubEntries(fs, es) && s in es && s !in fs
    ensures HasSlot(fs, es[s].tx)
  {
    hide Count;
    SubWithOneMore(fs, es, s);
    FewerOweLess(fs[s := es[s]], es, es[s].tx.sender);
    DebitAdd(fs, s, es[s], es[s].tx.sender);
    assert es[s].tx.signature == s;
  }

  lemma SubWithOneMore(fs: Entries, es: Entries, s: Signature)
    requires SubEntries(fs, es) && s in es && s !in fs
    ensures SubEntries(fs[s := es[s]], es) && |fs| < |es|
  {
    assert fs.Keys <= es.Keys - {s};
    SubsetIsSmaller(fs.Keys, es.Keys - {s});
  }

  predicate Expired(e: Entry, height: nat) {
    height > e.addedHeight + TX_EXPIRY_BLOCKS
  }

  function Fresh(es: Entries, height: nat): Entries {
    map s | s in es && !Expired(es[s], height) :: es[s]
  }

  ghost predicate ReaddedFrom(tx: Tx, s: Signature, txs: seq<Tx>) {
    tx in txs && tx.signature == s && !tx.Coinbase()
  }

  // `fs` is `es` with some of `txs` put back, none of it beyond what `l` affords.
  ghost predicate Regained(es: Entries, fs: Entries, txs: seq<Tx>, l: Ledger) {
    && (WellKept(es) ==> WellKept(fs))
    && SubEntries(es, fs)
    && (forall s :: s in fs && s !in es ==> ReaddedFrom(fs[s].tx, s, txs))
    && (forall a :: Supply(l) < U64_MAX && Solvent(es, l, a) ==> Solvent(fs, l, a))
  }

  lemma RegainedOne(es: Entries, fs: Entries, txs: seq<Tx>, l: Ledger, tx: Tx, height: nat)
    requires Regained(es, fs, txs, l) && tx in txs
    ensures Regained(es, ReaddOne(fs, tx, l.balances, height), txs, l)
  {
    hide WellKept, Solvent, Count, Debit, Supply;
    var gs := ReaddOne(fs, tx, l.balances, height);
    if gs != fs {
      if WellKept(fs) {
        AddEntryKeeps(fs, Entry(tx, height));
      }
      forall a | Supply(l) < U64_MAX && Solvent(fs, l, a) ensures Solvent(gs, l, a) {
        BalanceBelowSupply(l, tx.sender);
        AdmissionKeepsSolvent(fs, l, tx, height, a);
      }
    }
  }

  lemma RegainedMore(es: Entries, fs: Entries, txs: seq<Tx>, more: seq<Tx>, l: Ledger)
    requires Regained(es, fs, txs, l) && forall t :: t in txs ==> t in more
    ensures Regained(es, fs, more, l)
  {
    hide WellKept, Solvent, Supply;
  }

  // Re-adding displaced transfers only adds, keeps the bounds, and leaves every
  // solvent sender solvent under the new balances.
  lemma {:induction false} ReaddedIsRegained(es: Entries, txs: seq<Tx>, l: Ledger, height: nat)
    ensures Regained(es, Readded(es, txs, l.balances, height), txs, l)
  {
    hide Regained, ReaddOne;
    if txs == [] {
      RegainedNothing(es, l);
    } else {
      var fs := Readded(es, Front(txs), l.balances, height);
      ReaddedIsRegained(es, Front(txs), l, height);
      RegainedMore(es, fs, Front(txs), txs, l);
      RegainedOne(es, fs, txs, l, Last(txs), height);
    }
  }

  lemma RegainedNothing(es: Entries, l: Ledger)
    ensures Regained(es, es, [], l)
  {
  }

  lemma EmptyIsWellKept()
    ensures WellKept(map[])
  {
    forall a ensures Count(map[], a) == 0 {
      assert CostsOf(map[], a) == map[];
    }
  }

  lemma NothingDone(es: Entries, a: Address)
    ensures Count(es - es.Keys, a) == 0 && Debit(es - es.Keys, a) == 0
  {
    assert es - es.Keys == map[];
    assert CostsOf(map[], a) == map[];
  }

  // Taking one more entry into account.
  lemma Processed(es: Entries, left: set<Signature>, s: Signature, a: Address)
    requires left <= es.Keys && s in left
    ensures Debit(es - (left - {s}), a) == Debit(es - left, a) + if es[s].tx.sender == a then CostOf(es[s].tx) else 0
    ensures Count(es - (left - {s}), a) == Count(es - left, a) + if es[s].tx.sender == a then 1 else 0
  {
    hide Debit, Count;
    DebitAdd(es - left, s, es[s], a);
    assert (es - left)[s := es[s]] == es - (left - {s});
  }
}
