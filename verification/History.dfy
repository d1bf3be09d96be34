/** The transaction index read back: a key range is exactly one address's history, in order. */
module History {
  import opened Prelude
  import opened ByteOrder
  import opened Types
  import opened Tables

  // -------------------------------------------------------------------------
  // An address's history, read straight off the chain, oldest first
  // -------------------------------------------------------------------------

  datatype Entry = Entry(height: nat, pos: nat, record: Record)

  predicate Involves(tx: Tx, a: Address) {
    tx.receiver == a || (!tx.Coinbase() && tx.sender == a)
  }

  function TxHistory(b: Block, n: nat, a: Address): seq<Entry>
    requires n <= |b.transactions|
  {
    if n == 0 then []
    else
      TxHistory(b, n - 1, a) +
      if Involves(b.transactions[n - 1], a) then [Entry(b.index, n - 1, TxValue(b.transactions[n - 1], b.index, n - 1))]
      else []
  }

  function LotteryHistory(index: nat, ps: seq<Payout>, n: nat, a: Address): seq<Entry>
    requires n <= |ps|
  {
    if n == 0 then []
    else
      LotteryHistory(index, ps, n - 1, a) +
      if ps[n - 1].receiver == a then [Entry(index, LOTTERY_POS + (n - 1), LotteryValue(ps[n - 1], index, n - 1))]
      else []
  }

  // A block's transactions first, then its lottery payouts.
  function BlockHistory(b: Block, ps: seq<Payout>, a: Address): seq<Entry> {
    TxHistory(b, |b.transactions|, a) + LotteryHistory(b.index, ps, |ps|, a)
  }

  function HistoryOf(chain: seq<Block>, pays: seq<seq<Payout>>, a: Address): seq<Entry>
    requires |pays| == |chain|
  {
    if chain == [] then [] else HistoryOf(Front(chain), Front(pays), a) + BlockHistory(Last(chain), Last(pays), a)
  }

  predicate Before(e: Entry, f: Entry) {
    e.height < f.height || (e.height == f.height && e.pos < f.pos)
  }

  ghost predicate Ordered(es: seq<Entry>) {
    forall i, j :: 0 <= i < j < |es| ==> Before(es[i], es[j])
  }

  // All entries at heights and positions in [lo, hi), in dictionary order.
  ghost predicate Within(es: seq<Entry>, loHeight: nat, loPos: nat, hiHeight: nat, hiPos: nat) {
    forall e :: e in es ==>
      && (loHeight < e.height || (loHeight == e.height && loPos <= e.pos))
      && (e.height < hiHeight || (e.height == hiHeight && e.pos < hiPos))
      && e.pos < 0x1_0000_0000
  }

  lemma OrderedAppend(es: seq<Entry>, fs: seq<Entry>, a: nat, b: nat, c: nat, d: nat, e: nat, f: nat)
    requires Ordered(es) && Within(es, a, b, c, d) && Ordered(fs) && Within(fs, c, d, e, f)
    requires a < c || (a == c && b <= d)
    requires c < e || (c == e && d <= f)
    ensures Ordered(es + fs) && Within(es + fs, a, b, e, f)
  {
    var s := es + fs;
    forall i, j | 0 <= i < j < |s| ensures Before(s[i], s[j]) {
      if i < |es| <= j {
        assert s[i] in es && s[j] in fs;
      }
    }
  }

  lemma {:induction false} TxHistoryOrdered(b: Block, n: nat, a: Address)
    requires n <= |b.transactions| <= LOTTERY_POS
    ensures Ordered(TxHistory(b, n, a)) && Within(TxHistory(b, n, a), b.index, 0, b.index, n)
  {
    if n > 0 {
      TxHistoryOrdered(b, n - 1, a);
      var next := if Involves(b.transactions[n - 1], a)
        then [Entry(b.index, n - 1, TxValue(b.transactions[n - 1], b.index, n - 1))] else [];
      OrderedAppend(TxHistory(b, n - 1, a), next, b.index, 0, b.index, n - 1, b.index, n);
    }
  }

  lemma {:induction false} LotteryHistoryOrdered(index: nat, ps: seq<Payout>, n: nat, a: Address)
    requires n <= |ps| <= 0x1_0000
    ensures Ordered(LotteryHistory(index, ps, n, a))
    ensures Within(LotteryHistory(index, ps, n, a), index, LOTTERY_POS, index, LOTTERY_POS + n)
  {
    if n > 0 {
      LotteryHistoryOrdered(index, ps, n - 1, a);
      var next := if ps[n - 1].receiver == a
        then [Entry(index, LOTTERY_POS + (n - 1), LotteryValue(ps[n - 1], index, n - 1))] else [];
      OrderedAppend(LotteryHistory(index, ps, n - 1, a), next,
        index, LOTTERY_POS, index, LOTTERY_POS + (n - 1), index, LOTTERY_POS + n);
    }
  }

  lemma WidenWithin(es: seq<Entry>, h: nat, p: nat)
    requires Within(es, h, 0, h, p)
    ensures Within(es, h, 0, h + 1, 0)
  {
  }

  lemma BlockHistoryOrdered(b: Block, ps: seq<Payout>, a: Address)
    requires |b.transactions| <= LOTTERY_POS && |ps| <= 0x1_0000
    ensures Ordered(BlockHistory(b, ps, a)) && Within(BlockHistory(b, ps, a), b.index, 0, b.index + 1, 0)
  {
    TxHistoryOrdered(b, |b.transactions|, a);
    LotteryHistoryOrdered(b.index, ps, |ps|, a);
    var t, l := TxHistory(b, |b.transactions|, a), LotteryHistory(b.index, ps, |ps|, a);
    assert Within(t, b.index, 0, b.index, LOTTERY_POS);
    OrderedAppend(t, l, b.index, 0, b.index, LOTTERY_POS, b.index, LOTTERY_POS + |ps|);
    WidenWithin(t + l, b.index, LOTTERY_POS + |ps|);
  }

  lemma {:induction false} HistoryOrdered(chain: seq<Block>, pays: seq<seq<Payout>>, a: Address)
    requires Fits(chain, pays)
    ensures Ordered(HistoryOf(chain, pays, a)) && Within(HistoryOf(chain, pays, a), 0, 0, |chain|, 0)
  {
    if chain != [] {
      var last := |chain| - 1;
      FitsPrefix(chain, pays, last);
      HistoryOrdered(Front(chain), Front(pays), a);
      BlockHistoryOrdered(Last(chain), Last(pays), a);
      hide Ordered, Within, BlockHistory;
      var below, top := HistoryOf(Front(chain), Front(pays), a), BlockHistory(Last(chain), Last(pays), a);
      OrderedAppend(below, top, 0, 0, last, 0, last + 1, 0);
    }
  }

  // -------------------------------------------------------------------------
  // Index entries and history entries are the same things
  // -------------------------------------------------------------------------

  // `r` is the record of this transaction, field by field.
  ghost predicate RecordsTx(r: Record, tx: Tx, index: nat, pos: nat) {
    && r.sender == tx.sender && r.receiver == tx.receiver && r.amount == tx.amount && r.fee == tx.fee
    && r.id == if tx.sender == [] then CoinbaseId(index, pos) else TransferId(tx)
  }

  // `r` is the record of this prize; its sender reads "lottery".
  ghost predicate RecordsPrize(r: Record, p: Payout, index: nat, pos: nat) {
    && r.sender == [108, 111, 116, 116, 101, 114, 121] && r.receiver == p.receiver && r.amount == p.amount && r.fee == 0
    && r.id == LotteryId(index, pos)
  }

  // What it means for an entry to belong to `a`'s history: it records a transaction
  // that `a` sends or receives, or a prize paid to `a`.
  ghost predicate Genuine(b: Block, ps: seq<Payout>, a: Address, pos: nat, r: Record) {
    || (pos < |b.transactions| && RecordsTx(r, b.transactions[pos], b.index, pos) &&
        (r.receiver == a || (r.sender == a && a != [])))
    || (0xFFFF_0000 <= pos < 0xFFFF_0000 + |ps| && RecordsPrize(r, ps[pos - 0xFFFF_0000], b.index, pos - 0xFFFF_0000) &&
        r.receiver == a)
  }

  lemma {:induction false} TxEntryAt(b: Block, n: nat, a: Address, pos: nat)
    requires n <= |b.transactions| <= LOTTERY_POS && pos < 0x1_0000_0000
    ensures var k := MakeTxKey(a, b.index, pos);
      && (k in TxEntries(b, n) <==> pos < n && Involves(b.transactions[pos], a))
      && (k in TxEntries(b, n) ==> TxEntries(b, n)[k] == TxValue(b.transactions[pos], b.index, pos))
  {
    if n > 0 {
      TxEntryAt(b, n - 1, a, pos);
      hide MakeTxKey;
      var tx := b.transactions[n - 1];
      SameKey(a, tx.receiver, b.index, pos, n - 1);
      SameKey(a, tx.sender, b.index, pos, n - 1);
    }
  }

  lemma SameKey(a: Address, b: Address, index: u64, i: nat, j: nat)
    requires i < 0x1_0000_0000 && j < 0x1_0000_0000
    ensures MakeTxKey(a, index, i) == MakeTxKey(b, index, j) <==> a == b && i == j
  {
    if MakeTxKey(a, index, i) == MakeTxKey(b, index, j) {
      KeyInjective(a, index, i, b, index, j);
    }
  }

  lemma {:induction false} LotteryEntryFor(index: u64, ps: seq<Payout>, n: nat, a: Address, pos: nat)
    requires n <= |ps| <= 0x1_0000 && pos < 0x1_0000_0000
    ensures var k := MakeTxKey(a, index, pos);
      && (k in LotteryEntries(index, ps, n) <==>
            LOTTERY_POS <= pos < LOTTERY_POS + n && ps[pos - LOTTERY_POS].receiver == a)
      && (k in LotteryEntries(index, ps, n) ==>
            LotteryEntries(index, ps, n)[k] == LotteryValue(ps[pos - LOTTERY_POS], index, pos - LOTTERY_POS))
  {
    if n > 0 {
      LotteryEntryFor(index, ps, n - 1, a, pos);
      hide MakeTxKey;
      SameKey(a, ps[n - 1].receiver, index, pos, LOTTERY_POS + (n - 1));
    }
  }

  lemma BlockEntryAt(b: Block, ps: seq<Payout>, a: Address, pos: nat)
    requires |b.transactions| <= LOTTERY_POS && |ps| <= 0x1_0000 && pos < 0x1_0000_0000
    ensures var k := MakeTxKey(a, b.index, pos);
      && (k in BlockEntries(b, ps) ==> Genuine(b, ps, a, pos, BlockEntries(b, ps)[k]))
      && (forall r :: Genuine(b, ps, a, pos, r) ==> k in BlockEntries(b, ps) && BlockEntries(b, ps)[k] == r)
  {
    TxEntryAt(b, |b.transactions|, a, pos);
    LotteryEntryFor(b.index, ps, |ps|, a, pos);
  }

  lemma {:induction false} TxHistoryExact(b: Block, n: nat, a: Address, e: Entry)
    requires n <= |b.transactions|
    ensures e in TxHistory(b, n, a) <==>
      e.height == b.index && e.pos < n && Involves(b.transactions[e.pos], a) &&
      e.record == TxValue(b.transactions[e.pos], b.index, e.pos)
  {
    if n > 0 {
      TxHistoryExact(b, n - 1, a, e);
    }
  }

  lemma {:induction false} LotteryHistoryExact(index: nat, ps: seq<Payout>, n: nat, a: Address, e: Entry)
    requires n <= |ps|
    ensures e in LotteryHistory(index, ps, n, a) <==>
      e.height == index && LOTTERY_POS <= e.pos < LOTTERY_POS + n && ps[e.pos - LOTTERY_POS].receiver == a &&
      e.record == LotteryValue(ps[e.pos - LOTTERY_POS], index, e.pos - LOTTERY_POS)
  {
    if n > 0 {
      LotteryHistoryExact(index, ps, n - 1, a, e);
    }
  }

  lemma BlockHistoryExact(b: Block, ps: seq<Payout>, a: Address, e: Entry)
    ensures e in BlockHistory(b, ps, a) <==> e.height == b.index && Genuine(b, ps, a, e.pos, e.record)
  {
    TxHistoryExact(b, |b.transactions|, a, e);
    LotteryHistoryExact(b.index, ps, |ps|, a, e);
  }

  lemma {:induction false} HistoryExact(chain: seq<Block>, pays: seq<seq<Payout>>, a: Address, e: Entry)
    requires Fits(chain, pays)
    ensures e in HistoryOf(chain, pays, a) <==>
      e.height < |chain| && Genuine(chain[e.height], pays[e.height], a, e.pos, e.record)
  {
    if chain != [] {
      FitsPrefix(chain, pays, |chain| - 1);
      HistoryExact(Front(chain), Front(pays), a, e);
      BlockHistoryExact(Last(chain), Last(pays), a, e);
      hide Genuine, BlockHistory;
    }
  }

  lemma IndexEntryAt(chain: seq<Block>, pays: seq<seq<Payout>>, a: Address, h: nat, pos: nat)
    requires Fits(chain, pays) && h < U64_LIMIT && pos < 0x1_0000_0000
    ensures var k := MakeTxKey(a, h, pos);
      && (k in IndexOf(chain, pays) ==> Entry(h, pos, IndexOf(chain, pays)[k]) in HistoryOf(chain, pays, a))
      && (forall r :: Entry(h, pos, r) in HistoryOf(chain, pays, a) ==>
            k in IndexOf(chain, pays) && IndexOf(chain, pays)[k] == r)
  {
    hide MakeTxKey, BlockEntries, IndexOf, HistoryOf, Genuine, HeightOf;
    var k := MakeTxKey(a, h, pos);
    KeyParts(a, h, pos);
    IndexHeights(chain, pays);
    if h < |chain| {
      IndexAtHeight(chain, pays, h, k);
      BlockEntryAt(chain[h], pays[h], a, pos);
    }
    if k in IndexOf(chain, pays) {
      HistoryExact(chain, pays, a, Entry(h, pos, IndexOf(chain, pays)[k]));
    }
    forall r | Entry(h, pos, r) in HistoryOf(chain, pays, a)
      ensures k in IndexOf(chain, pays) && IndexOf(chain, pays)[k] == r
    {
      HistoryExact(chain, pays, a, Entry(h, pos, r));
    }
  }

  // -------------------------------------------------------------------------
  // Byte order of keys and the key range of an address
  // -------------------------------------------------------------------------

  ghost predicate NoZero(a: Address) {
    forall i :: 0 <= i < |a| ==> a[i] != 0
  }

  ghost predicate CleanBlock(b: Block, ps: seq<Payout>) {
    && (forall i :: 0 <= i < |b.transactions| ==>
          NoZero(b.transactions[i].receiver) && NoZero(b.transactions[i].sender))
    && (forall i :: 0 <= i < |ps| ==> NoZero(ps[i].receiver))
  }

  ghost predicate Clean(chain: seq<Block>, pays: seq<seq<Payout>>)
    requires |pays| == |chain|
  {
    forall n :: 0 <= n < |chain| ==> CleanBlock(chain[n], pays[n])
  }

  function AddressOf(k: Bytes): Address
    requires |k| >= 13
  {
    k[..|k| - 13]
  }

  // Keys of one address sort by height, then position: lottery entries come last in their block.
  lemma KeyOrder(a: Address, m: u64, i: nat, n: u64, j: nat)
    requires i < 0x1_0000_0000 && j < 0x1_0000_0000
    ensures Less(MakeTxKey(a, m, i), MakeTxKey(a, n, j)) <==> m < n || (m == n && i < j)
  {
    Powers();
    hide ToBytes, Less;
    var x, y := ToBytes(m, 8) + ToBytes(i, 4), ToBytes(n, 8) + ToBytes(j, 4);
    assert MakeTxKey(a, m, i) == (a + [0]) + x && MakeTxKey(a, n, j) == (a + [0]) + y;
    LessCommonPrefix(a + [0], x, y);
    LessBlocks(ToBytes(m, 8), ToBytes(n, 8), ToBytes(i, 4), ToBytes(j, 4));
    ToBytesOrder(m, n, 8);
    ToBytesOrder(i, j, 4);
  }

  ghost predicate InRange(k: Bytes, a: Address) {
    !Less(k, a + [0]) && Less(k, a + [1])
  }

  // Byte strings between a·00 and a·01 are those that start with a·00.
  lemma {:induction false} RangeIsPrefix(k: Bytes, a: Address)
    ensures InRange(k, a) <==> |k| > |a| && k[..|a|] == a && k[|a|] == 0
  {
    if a == [] {
      assert a + [0] == [0] && a + [1] == [1];
      assert [0][1..] == [] && [1][1..] == [];
      if k != [] {
        assert k[..0] == [] && !Less(k[1..], []);
        assert Less(k, [0]) <==> k[0] < 0 || (k[0] == 0 && Less(k[1..], [0][1..]));
        assert Less(k, [1]) <==> k[0] < 1 || (k[0] == 1 && Less(k[1..], [1][1..]));
      }
    } else {
      assert (a + [0])[1..] == a[1..] + [0] && (a + [1])[1..] == a[1..] + [1];
      assert (a + [0])[0] == a[0] == (a + [1])[0];
      if k != [] {
        RangeIsPrefix(k[1..], a[1..]);
        if |k| > |a| {
          assert k[..|a|] == [k[0]] + k[1..][..|a| - 1];
          assert a == [a[0]] + a[1..];
        }
      }
    }
  }

  // A key whose address has no zero byte lies in the range of exactly that address.
  lemma RangeIsAddress(b: Address, index: u64, pos: nat, a: Address)
    requires NoZero(a) && NoZero(b) && pos < 0x1_0000_0000
    ensures InRange(MakeTxKey(b, index, pos), a) <==> a == b
  {
    var k := MakeTxKey(b, index, pos);
    KeyParts(b, index, pos);
    RangeIsPrefix(k, a);
    assert forall i :: 0 <= i < |b| ==> k[i] == k[..|b|][i] == b[i];
    assert |k| > |a| && k[..|a|] == a ==> forall i :: 0 <= i < |a| ==> k[i] == k[..|a|][i] == a[i];
  }

  // Every key of the index is made from a clean address.
  ghost predicate Keyed(m: map<Bytes, Record>) {
    forall k :: k in m ==>
      |k| >= 13 && NoZero(AddressOf(k)) && HeightOf(k) < U64_LIMIT && PosOf(k) < 0x1_0000_0000 &&
      k == MakeTxKey(AddressOf(k), HeightOf(k), PosOf(k))
  }

  lemma KeyedInsert(m: map<Bytes, Record>, a: Address, index: u64, pos: nat, r: Record)
    requires Keyed(m) && NoZero(a) && pos < 0x1_0000_0000
    ensures Keyed(m[MakeTxKey(a, index, pos) := r])
  {
    KeyParts(a, index, pos);
    hide MakeTxKey, HeightOf, PosOf;
  }

  lemma {:induction false} TxEntriesKeyed(b: Block, ps: seq<Payout>, n: nat)
    requires n <= |b.transactions| <= LOTTERY_POS && CleanBlock(b, ps)
    ensures Keyed(TxEntries(b, n))
  {
    hide *;
    if n == 0 {
      NothingKeyed(b);
    } else {
      TxEntriesKeyed(b, ps, n - 1);
      OneTxKeyed(TxEntries(b, n - 1), b, ps, n - 1);
      OneTxAdded(b, n);
    }
  }

  lemma NothingKeyed(b: Block)
    ensures Keyed(TxEntries(b, 0))
  {
  }

  lemma OneTxAdded(b: Block, n: nat)
    requires 0 < n <= |b.transactions|
    ensures var tx, v, m := b.transactions[n - 1], TxValue(b.transactions[n - 1], b.index, n - 1), TxEntries(b, n - 1);
      var withReceiver := m[MakeTxKey(tx.receiver, b.index, n - 1) := v];
      TxEntries(b, n) == if tx.Coinbase() then withReceiver else withReceiver[MakeTxKey(tx.sender, b.index, n - 1) := v]
  {
  }

  lemma OneTxKeyed(m: map<Bytes, Record>, b: Block, ps: seq<Payout>, i: nat)
    requires i < |b.transactions| <= LOTTERY_POS && CleanBlock(b, ps) && Keyed(m)
    ensures var tx, v := b.transactions[i], TxValue(b.transactions[i], b.index, i);
      && Keyed(m[MakeTxKey(tx.receiver, b.index, i) := v])
      && Keyed(m[MakeTxKey(tx.receiver, b.index, i) := v][MakeTxKey(tx.sender, b.index, i) := v])
  {
    hide Keyed, MakeTxKey;
    var tx := b.transactions[i];
    var v := TxValue(tx, b.index, i);
    KeyedInsert(m, tx.receiver, b.index, i, v);
    KeyedInsert(m[MakeTxKey(tx.receiver, b.index, i) := v], tx.sender, b.index, i, v);
  }

  lemma {:induction false} LotteryEntriesKeyed(index: u64, ps: seq<Payout>, n: nat)
    requires n <= |ps| <= 0x1_0000 && forall i :: 0 <= i < |ps| ==> NoZero(ps[i].receiver)
    ensures Keyed(LotteryEntries(index, ps, n))
  {
    if n > 0 {
      LotteryEntriesKeyed(index, ps, n - 1);
      hide Keyed, MakeTxKey;
      KeyedInsert(LotteryEntries(index, ps, n - 1), ps[n - 1].receiver, index, LOTTERY_POS + (n - 1),
        LotteryValue(ps[n - 1], index, n - 1));
    }
  }

  lemma KeyedUnion(m: map<Bytes, Record>, n: map<Bytes, Record>)
    requires Keyed(m) && Keyed(n)
    ensures Keyed(m + n)
  {
    hide MakeTxKey, HeightOf, PosOf, NoZero;
  }

  lemma {:induction false} IndexKeyed(chain: seq<Block>, pays: seq<seq<Payout>>)
    requires Fits(chain, pays) && Clean(chain, pays)
    ensures Keyed(IndexOf(chain, pays))
  {
    if chain != [] {
      var last := |chain| - 1;
      FitsPrefix(chain, pays, last);
      IndexKeyed(Front(chain), Front(pays));
      assert CleanBlock(chain[last], pays[last]);
      hide Keyed, TxEntries, LotteryEntries;
      var b, ps := Last(chain), Last(pays);
      TxEntriesKeyed(b, ps, |b.transactions|);
      LotteryEntriesKeyed(b.index, ps, |ps|);
      KeyedUnion(TxEntries(b, |b.transactions|), LotteryEntries(b.index, ps, |ps|));
      KeyedUnion(IndexOf(Front(chain), Front(pays)), BlockEntries(b, ps));
    }
  }

  // On an index of clean blocks, every key in the range of an address is long
  // enough for its height to be read.
  lemma KeysHoldHeights(chain: seq<Block>, pays: seq<seq<Payout>>, a: Address)
    requires Fits(chain, pays) && Clean(chain, pays) && NoZero(a)
    ensures forall k :: k in IndexOf(chain, pays) && InRange(k, a) ==> |k| == |a| + 13
  {
    IndexKeyed(chain, pays);
    hide IndexOf, Fits, Clean, InRange;
    forall k | k in IndexOf(chain, pays) && InRange(k, a) ensures |k| == |a| + 13 {
      KeyOfRange(IndexOf(chain, pays), k, a);
    }
  }

  lemma KeyOfRange(m: map<Bytes, Record>, k: Bytes, a: Address)
    requires Keyed(m) && k in m && NoZero(a) && InRange(k, a)
    ensures |k| == |a| + 13
  {
    hide InRange, NoZero;
    RangeIsAddress(AddressOf(k), HeightOf(k), PosOf(k), a);
  }

  // -------------------------------------------------------------------------
  // The scan is the history
  // -------------------------------------------------------------------------

  // `ks` lists `keys` in byte order, as the store iterates them.
  ghost predicate ListsBytes(ks: seq<Bytes>, keys: set<Bytes>) {
    Sorted(ks) && forall k :: k in keys <==> k in ks
  }

  lemma ListsBytesTail(s: seq<Bytes>, keys: set<Bytes>)
    requires ListsBytes(s, keys) && s != []
    ensures ListsBytes(s[1..], keys - {s[0]})
  {
    assert s == [s[0]] + s[1..];
    LessIrreflexive(s[0]);
    assert forall i :: 0 < i < |s| ==> Less(s[0], s[i]);
  }

  lemma {:induction false} ByteListingIsUnique(s: seq<Bytes>, t: seq<Bytes>, keys: set<Bytes>)
    requires ListsBytes(s, keys) && ListsBytes(t, keys)
    ensures s == t
    decreases |s|
  {
    assert forall k :: k in s <==> k in t;
    assert |t| > 0 ==> t[0] in t;
    if s != [] {
      assert s[0] in keys;
      assert t[0] in keys;
      if s[0] != t[0] {
        assert Less(s[0], t[0]) && Less(t[0], s[0]);
        LessTransitive(s[0], t[0], s[0]);
        LessIrreflexive(s[0]);
      }
      ListsBytesTail(s, keys);
      ListsBytesTail(t, keys);
      ByteListingIsUnique(s[1..], t[1..], keys - {s[0]});
      assert s == [s[0]] + s[1..] && t == [t[0]] + t[1..];
    }
  }

  function KeysOf(es: seq<Entry>, a: Address): (ks: seq<Bytes>)
    ensures |ks| == |es|
  {
    seq(|es|, i requires 0 <= i < |es| => MakeTxKey(a, es[i].height, es[i].pos))
  }

  ghost function RangeKeys(m: map<Bytes, Record>, a: Address): set<Bytes> {
    set k | k in m && InRange(k, a)
  }

  lemma HistoryKeysSorted(es: seq<Entry>, a: Address, n: nat)
    requires n <= U64_LIMIT && Ordered(es) && Within(es, 0, 0, n, 0)
    ensures Sorted(KeysOf(es, a))
  {
    hide MakeTxKey, Less;
    forall i, j | 0 <= i < j < |es| ensures Less(KeysOf(es, a)[i], KeysOf(es, a)[j]) {
      assert Before(es[i], es[j]) && es[i] in es && es[j] in es;
      KeyOrder(a, es[i].height, es[i].pos, es[j].height, es[j].pos);
    }
  }

  lemma HistoryKeysAreRange(chain: seq<Block>, pays: seq<seq<Payout>>, a: Address, k: Bytes)
    requires Fits(chain, pays) && Clean(chain, pays) && NoZero(a)
    ensures k in RangeKeys(IndexOf(chain, pays), a) <==> k in KeysOf(HistoryOf(chain, pays, a), a)
  {
    hide MakeTxKey, IndexOf, HistoryOf, HeightOf, PosOf, NoZero, InRange, Clean, Fits;
    FitsLength(chain, pays);
    FitsShort(chain, pays);
    var m, es := IndexOf(chain, pays), HistoryOf(chain, pays, a);
    HistoryOrdered(chain, pays, a);
    IndexKeyed(chain, pays);
    if k in RangeKeys(m, a) {
      RangeIsAddress(AddressOf(k), HeightOf(k), PosOf(k), a);
      IndexEntryAt(chain, pays, a, HeightOf(k), PosOf(k));
      var i :| 0 <= i < |es| && es[i] == Entry(HeightOf(k), PosOf(k), m[k]);
      assert KeysOf(es, a)[i] == k;
    }
    if k in KeysOf(es, a) {
      var i :| 0 <= i < |es| && KeysOf(es, a)[i] == k;
      assert es[i] in es && es[i] == Entry(es[i].height, es[i].pos, es[i].record);
      IndexEntryAt(chain, pays, a, es[i].height, es[i].pos);
      RangeIsAddress(a, es[i].height, es[i].pos, a);
    }
  }

  lemma FitsShort(chain: seq<Block>, pays: seq<seq<Payout>>)
    requires Fits(chain, pays)
    ensures |chain| <= U64_LIMIT
  {
  }

  // Listing the range of an address in byte order gives its history, entry by
  // entry, oldest first, with the height decoded from the key.
  lemma ScanIsHistory(chain: seq<Block>, pays: seq<seq<Payout>>, a: Address, ks: seq<Bytes>)
    requires Fits(chain, pays) && Clean(chain, pays) && NoZero(a)
    requires ListsBytes(ks, RangeKeys(IndexOf(chain, pays), a))
    ensures var es := HistoryOf(chain, pays, a);
      && ks == KeysOf(es, a)
      && forall i :: 0 <= i < |es| ==>
           ks[i] in IndexOf(chain, pays) && IndexOf(chain, pays)[ks[i]] == es[i].record &&
           |ks[i]| == |a| + 13 && BigEndian(ks[i][|a| + 1..|a| + 9]) == es[i].height
  {
    hide MakeTxKey, IndexOf, HistoryOf, BigEndian, Clean, Fits, InRange, RangeKeys, NoZero;
    FitsLength(chain, pays);
    FitsShort(chain, pays);
    var m, es := IndexOf(chain, pays), HistoryOf(chain, pays, a);
    HistoryOrdered(chain, pays, a);
    HistoryKeysSorted(es, a, |chain|);
    forall k ensures k in RangeKeys(m, a) <==> k in KeysOf(es, a) {
      HistoryKeysAreRange(chain, pays, a, k);
    }
    ByteListingIsUnique(ks, KeysOf(es, a), RangeKeys(m, a));
    forall i | 0 <= i < |es|
      ensures ks[i] in m && m[ks[i]] == es[i].record && |ks[i]| == |a| + 13
      ensures BigEndian(ks[i][|a| + 1..|a| + 9]) == es[i].height
    {
      assert es[i] in es && es[i] == Entry(es[i].height, es[i].pos, es[i].record);
      IndexEntryAt(chain, pays, a, es[i].height, es[i].pos);
      KeyParts(a, es[i].height, es[i].pos);
    }
  }

  // -------------------------------------------------------------------------
  // Pages
  // -------------------------------------------------------------------------

  function Reverse<T>(s: seq<T>): (r: seq<T>)
    ensures |r| == |s|
  {
    seq(|s|, i requires 0 <= i < |s| => s[|s| - 1 - i])
  }

  // skip(offset).take(limit)
  function Page<T>(s: seq<T>, offset: nat, limit: nat): seq<T> {
    if offset >= |s| then [] else s[offset..Min(offset + limit, |s|)]
  }

  function Pages<T>(s: seq<T>, limit: nat, n: nat): seq<T> {
    if n == 0 then [] else Pages(s, limit, n - 1) + Page(s, (n - 1) * limit, limit)
  }

  // Consecutive pages, put end to end, are the listing: nothing is repeated or missed.
  lemma {:induction false} PagesCover<T>(s: seq<T>, limit: nat, n: nat)
    ensures Pages(s, limit, n) == s[..Min(n * limit, |s|)]
  {
    if n > 0 {
      PagesCover(s, limit, n - 1);
      assert n * limit == (n - 1) * limit + limit;
    }
  }
}
