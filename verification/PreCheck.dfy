/** The pre-validation loop, one transaction at a time. */
module PreCheck {
  import opened Prelude
  import opened Types
  import opened Consensus
  import opened Conservation

  lemma {:induction false} SpentAtMost(c: Crypto, l: Ledger, txs: seq<Tx>, a: Address)
    requires PreValid(c, l, txs)
    ensures Spent(txs, a) <= Balance(l, a)
  {
    if txs != [] {
      PreValidFront(c, l, txs);
      SpentAtMost(c, l, Front(txs), a);
      assert txs[..|txs| - 1 + 1] == txs;
      assert !Last(txs).Coinbase() ==> PaysAt(c, l, txs, |txs| - 1);
    }
  }

  // What the loop decides about the next transaction, given that the earlier ones passed.
  ghost predicate NextOk(c: Crypto, l: Ledger, txs: seq<Tx>, tx: Tx) {
    tx.Coinbase() ||
    (TransferOk(c, l, tx) && tx.signature !in Signatures(txs) &&
     Spent(txs, tx.sender) + tx.Cost() <= Balance(l, tx.sender))
  }

  lemma PaysAtPrefix(c: Crypto, l: Ledger, txs: seq<Tx>, tx: Tx, i: nat)
    requires i < |txs|
    ensures PaysAt(c, l, txs + [tx], i) <==> PaysAt(c, l, txs, i)
  {
    assert (txs + [tx])[..i + 1] == txs[..i + 1];
  }

  lemma PaysAtLast(c: Crypto, l: Ledger, txs: seq<Tx>, tx: Tx)
    requires !tx.Coinbase()
    ensures PaysAt(c, l, txs + [tx], |txs|) <==>
      TransferOk(c, l, tx) && Spent(txs, tx.sender) + tx.Cost() <= Balance(l, tx.sender)
  {
    var longer := txs + [tx];
    assert longer[..|txs| + 1] == longer && Front(longer) == txs;
  }

  lemma DistinctStep(txs: seq<Tx>, tx: Tx)
    requires DistinctSignatures(txs)
    ensures DistinctSignatures(txs + [tx]) <==> tx.Coinbase() || tx.signature !in Signatures(txs)
  {
    var longer := txs + [tx];
    if !tx.Coinbase() && tx.signature in Signatures(txs) {
      var i :| 0 <= i < |txs| && !txs[i].Coinbase() && txs[i].signature == tx.signature;
      assert longer[i].signature == longer[|txs|].signature;
    }
  }

  lemma PreValidStep(c: Crypto, l: Ledger, txs: seq<Tx>, tx: Tx)
    requires PreValid(c, l, txs)
    ensures PreValid(c, l, txs + [tx]) <==> NextOk(c, l, txs, tx)
  {
    hide PaysAt, DistinctSignatures, TransferOk, Spent, Signatures;
    var longer := txs + [tx];
    DistinctStep(txs, tx);
    forall i | 0 <= i < |txs| ensures PaysAt(c, l, longer, i) <==> PaysAt(c, l, txs, i) {
      PaysAtPrefix(c, l, txs, tx, i);
    }
    assert longer[|txs|] == tx;
    if !tx.Coinbase() {
      PaysAtLast(c, l, txs, tx);
    }
  }

  // A block whose prefix fails the loop fails as a whole.
  lemma {:induction false} PreValidPrefix(c: Crypto, l: Ledger, txs: seq<Tx>, n: nat)
    requires n <= |txs| && PreValid(c, l, txs)
    ensures PreValid(c, l, txs[..n])
  {
    if n == |txs| {
      assert txs[..n] == txs;
    } else {
      PreValidFront(c, l, txs);
      PreValidPrefix(c, l, Front(txs), n);
      assert Front(txs)[..n] == txs[..n];
    }
  }

  // The first transaction the loop turns down sinks the block.
  lemma FailsAt(c: Crypto, l: Ledger, txs: seq<Tx>, i: nat)
    requires i < |txs| && PreValid(c, l, txs[..i]) && !NextOk(c, l, txs[..i], txs[i])
    ensures !PreValid(c, l, txs)
  {
    hide PreValid, NextOk;
    assert txs[..i + 1] == txs[..i] + [txs[i]];
    PreValidStep(c, l, txs[..i], txs[i]);
    if PreValid(c, l, txs) {
      PreValidPrefix(c, l, txs, i + 1);
    }
  }

  lemma PassesAt(c: Crypto, l: Ledger, txs: seq<Tx>, i: nat)
    requires i < |txs| && PreValid(c, l, txs[..i]) && NextOk(c, l, txs[..i], txs[i])
    ensures PreValid(c, l, txs[..i + 1])
    ensures Signatures(txs[..i + 1]) == Signatures(txs[..i]) + if txs[i].Coinbase() then {} else {txs[i].signature}
    ensures forall a ::
      Spent(txs[..i + 1], a) ==
        Spent(txs[..i], a) + if !txs[i].Coinbase() && txs[i].sender == a then txs[i].Cost() else 0
  {
    hide PreValid, NextOk, Signatures;
    assert txs[..i + 1] == txs[..i] + [txs[i]];
    assert Front(txs[..i + 1]) == txs[..i];
    PreValidStep(c, l, txs[..i], txs[i]);
    SignaturesSplit(txs[..i + 1]);
  }
}
