/** Which displaced transfers return to the pool, said without the loop that puts them back. */
module Readmission {
  import opened Prelude
  import opened Types
  import opened Consensus
  import opened Conservation
  import opened TxPool
  import opened AccountBook

  // The transactions of a run of blocks, one after the other.
  function TxsOf(blocks: seq<Block>): seq<Tx> {
    if blocks == [] then [] else TxsOf(Front(blocks)) + Last(blocks).transactions
  }

  // -------------------------------------------------------------------------
  // The specification
  // -------------------------------------------------------------------------

  // Transfer `m` carries signature `s`.
  predicate Carries(txs: seq<Tx>, m: int, s: Signature) {
    0 <= m < |txs| && txs[m].sender != [] && txs[m].signature == s
  }

  // The part of `fs` that was there before or comes from the first `n` transactions.
  ghost function UpTo(es: Entries, fs: Entries, txs: seq<Tx>, n: nat): Entries {
    map s | s in fs && (s in es || exists m :: m < n && Carries(txs, m, s)) :: fs[s]
  }

  // Room for one more transfer: its sender has fewer than 25 pending, the pool fewer
  // than ten thousand, and the balance covers what the sender owes already and this too.
  ghost predicate HasPlace(es: Entries, tx: Tx, balance: nat) {
    && |set s | s in es && es[s].tx.sender == tx.sender| < 25
    && |es| < 10_000
    && (tx.amount + tx.fee == 0 ||
        Min(Owed(es, tx.sender), U64_MAX) + Min(tx.amount + tx.fee, U64_MAX) <= balance)
  }

  // What `a` owes for its pending transfers.
  ghost function Owed(es: Entries, a: Address): nat {
    Sum(map s | s in es && es[s].tx.sender == a :: SatAdd(es[s].tx.amount, es[s].tx.fee))
  }

  // `fs` is `es` with `txs` put back in their order: what was there stays, what is
  // added is one of them, and each that was not there is added exactly when there is
  // room for it beside what was there and what of the earlier ones came back.
  ghost predicate Refilled(es: Entries, fs: Entries, txs: seq<Tx>, balances: map<Address, u64>, height: nat) {
    && (forall s :: s in es ==> s in fs && fs[s] == es[s])
    && (forall s :: s in fs && s !in es ==> exists k :: Carries(txs, k, s) && fs[s] == Entry(txs[k], height))
    && (forall k, s :: Carries(txs, k, s) && s !in es ==>
          (s in fs <==> HasPlace(UpTo(es, fs, txs, k), txs[k], Get(balances, txs[k].sender))))
  }

  // -------------------------------------------------------------------------
  // The loop meets it
  // -------------------------------------------------------------------------

  lemma HasPlaceIs(es: Entries, tx: Tx, balances: map<Address, u64>)
    requires tx.sender != [] && tx.signature !in es
    ensures HasPlace(es, tx, Get(balances, tx.sender)) <==> HasSlot(es, tx) && CanAfford(es, balances, tx)
  {
    CountIsSize(es, tx.sender);
    DebitIsSum(es, tx.sender);
    hide Count, Debit;
  }

  lemma {:induction false} ReaddedSplits(es: Entries, xs: seq<Tx>, ys: seq<Tx>, balances: map<Address, u64>,
                                         height: nat)
    ensures Readded(es, xs + ys, balances, height) == Readded(Readded(es, xs, balances, height), ys, balances, height)
  {
    if ys == [] {
      assert xs + ys == xs;
    } else {
      hide ReaddOne;
      ReaddedSplits(es, xs, Front(ys), balances, height);
      assert Front(xs + ys) == xs + Front(ys) && Last(xs + ys) == Last(ys);
    }
  }

  lemma {:induction false} ReaddedGrows(es: Entries, txs: seq<Tx>, balances: map<Address, u64>, height: nat)
    ensures SubEntries(es, Readded(es, txs, balances, height))
    ensures forall s :: s in Readded(es, txs, balances, height) && s !in es ==>
      exists k :: Carries(txs, k, s) && Readded(es, txs, balances, height)[s] == Entry(txs[k], height)
  {
    if txs != [] {
      hide CanAfford, Count;
      var fs, gs := Readded(es, Front(txs), balances, height), Readded(es, txs, balances, height);
      ReaddedGrows(es, Front(txs), balances, height);
      forall s | s in gs && s !in es ensures exists k :: Carries(txs, k, s) && gs[s] == Entry(txs[k], height) {
        if s in fs {
          var k :| Carries(Front(txs), k, s) && fs[s] == Entry(Front(txs)[k], height);
          assert Carries(txs, k, s);
        } else {
          assert Carries(txs, |txs| - 1, s);
        }
      }
    }
  }

  // What is there in the end and not after the first `n` comes from a later one.
  lemma ComesLater(es: Entries, txs: seq<Tx>, n: nat, balances: map<Address, u64>, height: nat, s: Signature)
    requires n <= |txs| && s in Readded(es, txs, balances, height) && s !in Readded(es, txs[..n], balances, height)
    ensures exists k :: n <= k && Carries(txs, k, s)
  {
    hide Readded;
    TakeDrop(txs, n);
    ReaddedSplits(es, txs[..n], txs[n..], balances, height);
    ReaddedGrows(Readded(es, txs[..n], balances, height), txs[n..], balances, height);
    var k :| Carries(txs[n..], k, s);
    assert Carries(txs, n + k, s);
  }

  lemma EarlierStay(es: Entries, txs: seq<Tx>, n: nat, balances: map<Address, u64>, height: nat)
    requires n <= |txs|
    ensures SubEntries(Readded(es, txs[..n], balances, height), Readded(es, txs, balances, height))
    ensures forall s :: s in Readded(es, txs[..n], balances, height) && s !in es ==>
      exists m :: m < n && Carries(txs, m, s)
  {
    hide Readded;
    TakeDrop(txs, n);
    ReaddedSplits(es, txs[..n], txs[n..], balances, height);
    ReaddedGrows(Readded(es, txs[..n], balances, height), txs[n..], balances, height);
    ReaddedGrows(es, txs[..n], balances, height);
    forall s | s in Readded(es, txs[..n], balances, height) && s !in es
      ensures exists m :: m < n && Carries(txs, m, s)
    {
      var m :| Carries(txs[..n], m, s);
      assert Carries(txs, m, s);
    }
  }

  lemma CarriedOnce(txs: seq<Tx>, k: int, m: int, s: Signature)
    requires DistinctSignatures(txs) && Carries(txs, k, s) && Carries(txs, m, s)
    ensures k == m
  {
  }

  lemma UpToIsPrefix(es: Entries, txs: seq<Tx>, n: nat, balances: map<Address, u64>, height: nat)
    requires DistinctSignatures(txs) && n <= |txs|
    ensures UpTo(es, Readded(es, txs, balances, height), txs, n) == Readded(es, txs[..n], balances, height)
  {
    hide Readded, DistinctSignatures, Carries;
    EarlierStay(es, txs, n, balances, height);
    ReaddedGrows(es, txs[..n], balances, height);
    var fs, gs := Readded(es, txs, balances, height), Readded(es, txs[..n], balances, height);
    forall s | s in UpTo(es, fs, txs, n) ensures s in gs {
      if s !in es && s !in gs {
        var m :| m < n && Carries(txs, m, s);
        ComesLater(es, txs, n, balances, height, s);
        var k :| n <= k && Carries(txs, k, s);
        CarriedOnce(txs, k, m, s);
      }
    }
    assert UpTo(es, fs, txs, n) == gs;
  }

  // Whether transaction `k` comes back is decided in its turn.
  lemma DecidedInTurn(es: Entries, txs: seq<Tx>, k: nat, balances: map<Address, u64>, height: nat)
    requires DistinctSignatures(txs) && k < |txs| && txs[k].sender != [] && txs[k].signature !in es
    ensures var before := Readded(es, txs[..k], balances, height);
      && txs[k].signature !in before
      && (txs[k].signature in Readded(es, txs, balances, height) <==>
            HasSlot(before, txs[k]) && CanAfford(before, balances, txs[k]))
  {
    hide Readded, DistinctSignatures, HasSlot, CanAfford;
    var s := txs[k].signature;
    assert Carries(txs, k, s);
    EarlierStay(es, txs, k, balances, height);
    EarlierStay(es, txs, k + 1, balances, height);
    ReaddedNext(es, txs, k, balances, height);
    if s in Readded(es, txs[..k], balances, height) {
      var m :| m < k && Carries(txs, m, s);
      CarriedOnce(txs, k, m, s);
    }
    if s in Readded(es, txs, balances, height) && s !in Readded(es, txs[..k + 1], balances, height) {
      ComesLater(es, txs, k + 1, balances, height, s);
      var m :| k + 1 <= m && Carries(txs, m, s);
      CarriedOnce(txs, k, m, s);
    }
  }

  lemma ReaddedRefills(es: Entries, txs: seq<Tx>, balances: map<Address, u64>, height: nat)
    requires DistinctSignatures(txs)
    ensures Refilled(es, Readded(es, txs, balances, height), txs, balances, height)
  {
    hide Readded, DistinctSignatures, HasSlot, CanAfford, HasPlace, UpTo;
    var fs := Readded(es, txs, balances, height);
    ReaddedGrows(es, txs, balances, height);
    forall k, s | Carries(txs, k, s) && s !in es
      ensures s in fs <==> HasPlace(UpTo(es, fs, txs, k), txs[k], Get(balances, txs[k].sender))
    {
      DecidedInTurn(es, txs, k, balances, height);
      UpToIsPrefix(es, txs, k, balances, height);
      HasPlaceIs(Readded(es, txs[..k], balances, height), txs[k], balances);
    }
  }

  // -------------------------------------------------------------------------
  // Enough room for all
  // -------------------------------------------------------------------------

  // Room for everything `a` has pending and everything of its that was displaced.
  ghost predicate RoomForAll(es: Entries, txs: seq<Tx>, balances: map<Address, u64>, a: Address) {
    && |set s | s in es && es[s].tx.sender == a| + |PaysOut(txs, a)| <= 25
    && |es| + |txs| <= 10_000
    && Owed(es, a) + Sum(PaysOut(txs, a)) + Sum(FeesOut(txs, a)) <= Get(balances, a)
  }

  lemma OutGrows(txs: seq<Tx>, a: Address)
    requires |txs| > 0
    ensures var tx := Last(txs);
      |PaysOut(txs, a)| == |PaysOut(Front(txs), a)| + if tx.sender != [] && tx.sender == a then 1 else 0
  {
    OutNext(txs, a);
    hide PaysOut, FeesOut;
  }

  // What the loop can have used up after `n` transactions.
  lemma {:induction false} UsedUp(es: Entries, txs: seq<Tx>, balances: map<Address, u64>, height: nat, a: Address)
    ensures var fs := Readded(es, txs, balances, height);
      && |fs| <= |es| + |txs|
      && Count(fs, a) <= Count(es, a) + |PaysOut(txs, a)|
      && Debit(fs, a) <= Debit(es, a) + Spent(txs, a)
  {
    hide Count, Debit, CanAfford, PaysOut;
    if txs != [] {
      UsedUp(es, Front(txs), balances, height, a);
      OutGrows(txs, a);
      var fs := Readded(es, Front(txs), balances, height);
      if HasSlot(fs, Last(txs)) && CanAfford(fs, balances, Last(txs)) {
        DebitAdd(fs, Last(txs).signature, Entry(Last(txs), height), a);
      }
    }
  }

  lemma {:induction false} FirstSpendLess(txs: seq<Tx>, k: nat, a: Address)
    requires k < |txs| && txs[k].sender != [] && txs[k].sender == a
    ensures Spent(txs[..k], a) + txs[k].Cost() <= Spent(txs, a) && |PaysOut(txs[..k], a)| < |PaysOut(txs, a)|
  {
    hide PaysOut;
    OutGrows(txs, a);
    if k == |txs| - 1 {
      assert txs[..k] == Front(txs);
    } else {
      FirstSpendLess(Front(txs), k, a);
      assert Front(txs)[..k] == txs[..k];
    }
  }

  // Then each of them is back.
  lemma RoomBringsBack(es: Entries, txs: seq<Tx>, balances: map<Address, u64>, height: nat, k: nat)
    requires DistinctSignatures(txs) && k < |txs| && txs[k].sender != []
    requires RoomForAll(es, txs, balances, txs[k].sender)
    ensures var fs := Readded(es, txs, balances, height);
      && txs[k].signature in fs
      && (txs[k].signature !in es ==> fs[txs[k].signature] == Entry(txs[k], height))
  {
    hide Readded, DistinctSignatures, Count, Debit, PaysOut, FeesOut, Spent;
    var a, s := txs[k].sender, txs[k].signature;
    ReaddedGrows(es, txs, balances, height);
    if s !in es {
      CountIsSize(es, a);
      DebitIsSum(es, a);
      SpentIsSum(txs, a);
      FirstSpendLess(txs, k, a);
      UsedUp(es, txs[..k], balances, height, a);
      DecidedInTurn(es, txs, k, balances, height);
      var m :| Carries(txs, m, s) && Readded(es, txs, balances, height)[s] == Entry(txs[m], height);
      CarriedOnce(txs, k, m, s);
    }
  }
}
