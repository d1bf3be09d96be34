/** The persistent tables as values, and the one specification they must equal. */
module Tables {
  import opened Prelude
  import opened ByteOrder
  import opened Types

  // Transaction ids are digests; only what they commit to matters here.
  datatype TxId = CoinbaseId(index: nat, pos: nat) | TransferId(tx: Tx) | LotteryId(index: nat, pos: nat)

  datatype Record = Record(sender: Address, receiver: Address, amount: u64, fee: u64, id: TxId)

  // The ASCII bytes of the synthetic sender "lottery".
  const LOTTERY: Address := [108, 111, 116, 116, 101, 114, 121]

  const LOTTERY_POS := 0xFFFF_0000

  datatype Store = Store(
    blocks: map<nat, Block>,
    txIndex: map<Bytes, Record>,
    tickets: map<nat, Address>,
    payouts: map<nat, seq<Payout>>)

  // address, 0x00, block index (8 bytes), position (4 bytes, truncated to a u32)
  function MakeTxKey(a: Address, index: nat, pos: nat): Bytes {
    a + [0] + ToBytes(index, 8) + ToBytes(pos % 0x1_0000_0000, 4)
  }

  function TxValue(tx: Tx, index: nat, pos: nat): Record {
    Record(tx.sender, tx.receiver, tx.amount, tx.fee, if tx.Coinbase() then CoinbaseId(index, pos) else TransferId(tx))
  }

  function LotteryValue(p: Payout, index: nat, pos: nat): Record {
    Record(LOTTERY, p.receiver, p.amount, 0, LotteryId(index, pos))
  }

  // The index entries of the first `n` transactions of a block.
  function TxEntries(b: Block, n: nat): map<Bytes, Record>
    requires n <= |b.transactions|
  {
    if n == 0 then map[]
    else
      var tx := b.transactions[n - 1];
      var withReceiver := TxEntries(b, n - 1)[MakeTxKey(tx.receiver, b.index, n - 1) := TxValue(tx, b.index, n - 1)];
      if tx.Coinbase() then withReceiver
      else withReceiver[MakeTxKey(tx.sender, b.index, n - 1) := TxValue(tx, b.index, n - 1)]
  }

  function LotteryEntries(index: nat, ps: seq<Payout>, n: nat): map<Bytes, Record>
    requires n <= |ps|
  {
    if n == 0 then map[]
    else
      LotteryEntries(index, ps, n - 1)
        [MakeTxKey(ps[n - 1].receiver, index, LOTTERY_POS + (n - 1)) := LotteryValue(ps[n - 1], index, n - 1)]
  }

  function BlockEntries(b: Block, ps: seq<Payout>): map<Bytes, Record> {
    TxEntries(b, |b.transactions|) + LotteryEntries(b.index, ps, |ps|)
  }

  function TicketTable(ts: seq<Ticket>): map<nat, Address> {
    if ts == [] then map[] else TicketTable(Front(ts))[Last(ts).createdHeight := Last(ts).miner]
  }

  // Everything one canonical block contributes to the tables.
  function AddOne(s: Store, b: Block, ps: seq<Payout>): Store {
    s.(blocks := s.blocks[b.index := b],
       txIndex := s.txIndex + BlockEntries(b, ps),
       payouts := if ps == [] then s.payouts else s.payouts[b.index := ps])
  }

  function AddAll(s: Store, blocks: seq<Block>, pays: map<nat, seq<Payout>>): Store {
    if blocks == [] then s else AddOne(AddAll(s, Front(blocks), pays), Last(blocks), Lookup(pays, Last(blocks).index))
  }

  // Taking a displaced block out again; its payouts are read from the table itself.
  function DisplaceOne(s: Store, b: Block): Store {
    s.(blocks := s.blocks - {b.index},
       txIndex := s.txIndex - BlockEntries(b, Lookup(s.payouts, b.index)).Keys,
       payouts := s.payouts - {b.index})
  }

  function DisplaceAll(s: Store, blocks: seq<Block>): Store {
    if blocks == [] then s else DisplaceOne(DisplaceAll(s, Front(blocks)), Last(blocks))
  }

  // -------------------------------------------------------------------------
  // The specification: tables as a function of the chain and its payouts
  // -------------------------------------------------------------------------

  function BlockTable(chain: seq<Block>): map<nat, Block> {
    map n: nat | n < |chain| :: chain[n]
  }

  function PayoutTable(pays: seq<seq<Payout>>): map<nat, seq<Payout>> {
    map n: nat | n < |pays| && pays[n] != [] :: pays[n]
  }

  function IndexOf(chain: seq<Block>, pays: seq<seq<Payout>>): map<Bytes, Record>
    requires |pays| == |chain|
  {
    if chain == [] then map[] else IndexOf(Front(chain), Front(pays)) + BlockEntries(Last(chain), Last(pays))
  }

  function SpecOf(chain: seq<Block>, pays: seq<seq<Payout>>, tickets: map<nat, Address>): Store
    requires |pays| == |chain|
  {
    Store(BlockTable(chain), IndexOf(chain, pays), tickets, PayoutTable(pays))
  }

  // Indices are heights, and positions stay clear of each other and of 32 bits.
  ghost predicate Fits(chain: seq<Block>, pays: seq<seq<Payout>>) {
    && |pays| == |chain| <= U64_LIMIT
    && (forall n :: 0 <= n < |chain| ==> chain[n].index == n && |chain[n].transactions| <= LOTTERY_POS)
    && (forall n :: 0 <= n < |pays| ==> |pays[n]| <= 0x1_0000)
  }

  lemma FitsPrefix(chain: seq<Block>, pays: seq<seq<Payout>>, n: nat)
    requires Fits(chain, pays) && n <= |chain|
    ensures Fits(chain[..n], pays[..n])
  {
  }

  // -------------------------------------------------------------------------
  // Keys
  // -------------------------------------------------------------------------

  function HeightOf(k: Bytes): nat
    requires |k| >= 12
  {
    BigEndian(k[|k| - 12..|k| - 4])
  }

  function PosOf(k: Bytes): nat
    requires |k| >= 12
  {
    BigEndian(k[|k| - 4..])
  }

  lemma Powers()
    ensures Power256(4) == 0x1_0000_0000 && Power256(8) == U64_LIMIT
  {
    assert Power256(2) == 65536;
    assert Power256(4) == 0x1_0000_0000;
    assert Power256(6) == 0x1_0000_0000_0000;
  }

  // A key spells out its address, height and position.
  lemma KeyParts(a: Address, index: u64, pos: nat)
    requires pos < 0x1_0000_0000
    ensures var k := MakeTxKey(a, index, pos);
      |k| == |a| + 13 && k[..|a|] == a && k[|a|] == 0 && HeightOf(k) == index && PosOf(k) == pos
  {
    hide ToBytes, Power256, BigEndian;
    Powers();
    ToBytesInverts(index, 8);
    ToBytesInverts(pos, 4);
    var high, low := ToBytes(index, 8), ToBytes(pos, 4);
    assert MakeTxKey(a, index, pos) == a + [0] + high + low;
    hide MakeTxKey;
    KeySlices(a, high, low);
  }

  lemma KeySlices(a: Bytes, high: Bytes, low: Bytes)
    requires |high| == 8 && |low| == 4
    ensures var k := a + [0] + high + low;
      |k| == |a| + 13 && k[..|a|] == a && k[|a|] == 0 && k[|k| - 12..|k| - 4] == high && k[|k| - 4..] == low
  {
  }

  lemma KeyInjective(a: Address, m: u64, i: nat, b: Address, n: u64, j: nat)
    requires i < 0x1_0000_0000 && j < 0x1_0000_0000 && MakeTxKey(a, m, i) == MakeTxKey(b, n, j)
    ensures a == b && m == n && i == j
  {
    KeyParts(a, m, i);
    KeyParts(b, n, j);
  }

  ghost predicate KeysAt(m: map<Bytes, Record>, index: nat, lo: nat, hi: nat) {
    forall k :: k in m ==> |k| >= 13 && HeightOf(k) == index && lo <= PosOf(k) < hi
  }

  lemma {:induction false} TxEntriesKeys(b: Block, n: nat)
    requires n <= |b.transactions| <= LOTTERY_POS
    ensures KeysAt(TxEntries(b, n), b.index, 0, n)
  {
    if n > 0 {
      hide MakeTxKey;
      TxEntriesKeys(b, n - 1);
      KeyParts(b.transactions[n - 1].receiver, b.index, n - 1);
      KeyParts(b.transactions[n - 1].sender, b.index, n - 1);
    }
  }

  lemma {:induction false} LotteryEntriesKeys(index: u64, ps: seq<Payout>, n: nat)
    requires n <= |ps| <= 0x1_0000
    ensures KeysAt(LotteryEntries(index, ps, n), index, LOTTERY_POS, LOTTERY_POS + n)
  {
    if n > 0 {
      hide MakeTxKey;
      LotteryEntriesKeys(index, ps, n - 1);
      KeyParts(ps[n - 1].receiver, index, LOTTERY_POS + (n - 1));
    }
  }

  lemma BlockEntriesKeys(b: Block, ps: seq<Payout>)
    requires |b.transactions| <= LOTTERY_POS && |ps| <= 0x1_0000
    ensures KeysAt(BlockEntries(b, ps), b.index, 0, 0x1_0000_0000)
    ensures TxEntries(b, |b.transactions|).Keys !! LotteryEntries(b.index, ps, |ps|).Keys
  {
    TxEntriesKeys(b, |b.transactions|);
    LotteryEntriesKeys(b.index, ps, |ps|);
  }

  ghost predicate HeightsBelow(m: map<Bytes, Record>, n: nat) {
    forall k :: k in m ==> |k| >= 13 && HeightOf(k) < n
  }

  lemma {:induction false} IndexHeights(chain: seq<Block>, pays: seq<seq<Payout>>)
    requires Fits(chain, pays)
    ensures HeightsBelow(IndexOf(chain, pays), |chain|)
  {
    if chain != [] {
      FitsPrefix(chain, pays, |chain| - 1);
      IndexHeights(Front(chain), Front(pays));
      BlockEntriesKeys(Last(chain), Last(pays));
    }
  }

  // -------------------------------------------------------------------------
  // Appending
  // -------------------------------------------------------------------------

  lemma AddOneExtends(chain: seq<Block>, pays: seq<seq<Payout>>, t: map<nat, Address>, b: Block, ps: seq<Payout>)
    requires |pays| == |chain| == b.index
    ensures AddOne(SpecOf(chain, pays, t), b, ps) == SpecOf(chain + [b], pays + [ps], t)
  {
    assert Front(chain + [b]) == chain && Front(pays + [ps]) == pays;
    assert BlockTable(chain)[b.index := b] == BlockTable(chain + [b]);
    assert PayoutTable(pays + [ps]) == if ps == [] then PayoutTable(pays) else PayoutTable(pays)[b.index := ps];
  }

  // Adding a run of blocks that continue the chain gives the tables of the longer chain.
  lemma {:induction false} AddAllExtends(chain: seq<Block>, pays: seq<seq<Payout>>, t: map<nat, Address>,
                                         more: seq<Block>, morePays: seq<seq<Payout>>, table: map<nat, seq<Payout>>)
    requires |pays| == |chain| && |morePays| == |more|
    requires forall i :: 0 <= i < |more| ==> more[i].index == |chain| + i && Lookup(table, |chain| + i) == morePays[i]
    ensures AddAll(SpecOf(chain, pays, t), more, table) == SpecOf(chain + more, pays + morePays, t)
  {
    hide SpecOf, AddOne, IndexOf;
    if more == [] {
      assert chain + more == chain && pays + morePays == pays;
    } else {
      assert more[|more| - 1].index == |chain| + |more| - 1;
      AddAllExtends(chain, pays, t, Front(more), Front(morePays), table);
      AddOneExtends(chain + Front(more), pays + Front(morePays), t, Last(more), Last(morePays));
      assert chain + Front(more) + [Last(more)] == chain + more;
      assert pays + Front(morePays) + [Last(morePays)] == pays + morePays;
    }
  }

  // -------------------------------------------------------------------------
  // Displacing
  // -------------------------------------------------------------------------

  // The part of an index at heights outside [lo, hi).
  ghost function Without(m: map<Bytes, Record>, lo: nat, hi: nat): map<Bytes, Record> {
    map k | k in m && !(|k| >= 13 && lo <= HeightOf(k) < hi) :: m[k]
  }

  lemma IndexUnfolds(chain: seq<Block>, pays: seq<seq<Payout>>)
    requires |pays| == |chain| > 0
    ensures IndexOf(chain, pays) == IndexOf(Front(chain), Front(pays)) + BlockEntries(Last(chain), Last(pays))
  {
  }

  // At each height the index holds that block's entries and nothing else.
  lemma {:induction false} IndexAtHeight(chain: seq<Block>, pays: seq<seq<Payout>>, n: nat, k: Bytes)
    requires Fits(chain, pays) && n < |chain|
    ensures k in BlockEntries(chain[n], pays[n]) <==> k in IndexOf(chain, pays) && |k| >= 13 && HeightOf(k) == n
    ensures k in BlockEntries(chain[n], pays[n]) ==> IndexOf(chain, pays)[k] == BlockEntries(chain[n], pays[n])[k]
  {
    hide BlockEntries, IndexOf, KeysAt, HeightsBelow;
    var last := |chain| - 1;
    IndexUnfolds(chain, pays);
    FitsPrefix(chain, pays, last);
    IndexHeights(Front(chain), Front(pays));
    BlockEntriesKeys(Last(chain), Last(pays));
    UnionAtHeight(IndexOf(Front(chain), Front(pays)), BlockEntries(Last(chain), Last(pays)), last, n, k);
    if n < last {
      IndexAtHeight(Front(chain), Front(pays), n, k);
    }
  }

  // Above entries of lower heights, those of height `last` stand out.
  lemma UnionAtHeight(below: map<Bytes, Record>, top: map<Bytes, Record>, last: nat, n: nat, k: Bytes)
    requires HeightsBelow(below, last) && KeysAt(top, last, 0, 0x1_0000_0000) && n <= last
    ensures n == last ==> (k in top <==> k in below + top && |k| >= 13 && HeightOf(k) == n)
    ensures n < last && |k| >= 13 && HeightOf(k) == n ==> (k in below + top <==> k in below) && k !in top
  {
    hide HeightOf, PosOf;
  }

  lemma WithoutUnion(low: map<Bytes, Record>, high: map<Bytes, Record>, n: nat, last: nat)
    requires HeightsBelow(low, last) && KeysAt(high, last, 0, 0x1_0000_0000) && n <= last
    ensures Without(low + high, n, last + 1) == Without(low, n, last)
  {
    hide HeightOf, PosOf;
  }

  lemma {:induction false} IndexPrefix(chain: seq<Block>, pays: seq<seq<Payout>>, n: nat)
    requires Fits(chain, pays) && n <= |chain|
    ensures Without(IndexOf(chain, pays), n, |chain|) == IndexOf(chain[..n], pays[..n])
  {
    hide BlockEntries, IndexOf, Without, HeightsBelow, KeysAt;
    if n == |chain| {
      assert chain[..n] == chain && pays[..n] == pays;
      WithoutNothing(IndexOf(chain, pays), n);
    } else {
      var last := |chain| - 1;
      FitsPrefix(chain, pays, last);
      IndexPrefix(Front(chain), Front(pays), n);
      IndexHeights(Front(chain), Front(pays));
      BlockEntriesKeys(Last(chain), Last(pays));
      assert Front(chain)[..n] == chain[..n] && Front(pays)[..n] == pays[..n];
      IndexUnfolds(chain, pays);
      WithoutUnion(IndexOf(Front(chain), Front(pays)), BlockEntries(Last(chain), Last(pays)), n, last);
    }
  }

  lemma WithoutNothing(m: map<Bytes, Record>, n: nat)
    ensures Without(m, n, n) == m
  {
    hide HeightOf;
  }

  // The tables with the blocks at [lo, hi) taken out.
  ghost function SpecWithout(chain: seq<Block>, pays: seq<seq<Payout>>, t: map<nat, Address>, lo: nat, hi: nat): Store
    requires |pays| == |chain|
  {
    Store(map n: nat | n < |chain| && !(lo <= n < hi) :: chain[n],
          Without(IndexOf(chain, pays), lo, hi),
          t,
          map n: nat | n < |pays| && pays[n] != [] && !(lo <= n < hi) :: pays[n])
  }

  lemma WithoutNext(m: map<Bytes, Record>, entries: map<Bytes, Record>, lo: nat, hi: nat)
    requires lo <= hi
    requires forall k :: k in entries <==> k in m && |k| >= 13 && HeightOf(k) == hi
    ensures Without(m, lo, hi) - entries.Keys == Without(m, lo, hi + 1)
  {
    hide HeightOf;
  }

  lemma DisplaceNext(chain: seq<Block>, pays: seq<seq<Payout>>, t: map<nat, Address>, lo: nat, hi: nat)
    requires Fits(chain, pays) && lo <= hi < |chain|
    ensures DisplaceOne(SpecWithout(chain, pays, t, lo, hi), chain[hi]) == SpecWithout(chain, pays, t, lo, hi + 1)
  {
    hide BlockEntries, IndexOf, Fits, HeightOf, Without;
    FitsLength(chain, pays);
    FitsAt(chain, pays, hi);
    var s := SpecWithout(chain, pays, t, lo, hi);
    assert Lookup(s.payouts, hi) == pays[hi];
    forall k
      ensures k in BlockEntries(chain[hi], pays[hi]) <==> k in IndexOf(chain, pays) && |k| >= 13 && HeightOf(k) == hi
    {
      IndexAtHeight(chain, pays, hi, k);
    }
    WithoutNext(IndexOf(chain, pays), BlockEntries(chain[hi], pays[hi]), lo, hi);
    var after, expected := DisplaceOne(s, chain[hi]), SpecWithout(chain, pays, t, lo, hi + 1);
    assert after.blocks == expected.blocks;
    assert after.payouts == expected.payouts;
  }

  lemma FitsAt(chain: seq<Block>, pays: seq<seq<Payout>>, n: nat)
    requires Fits(chain, pays) && n < |chain|
    ensures chain[n].index == n
  {
  }

  lemma SpecWithoutNothing(chain: seq<Block>, pays: seq<seq<Payout>>, t: map<nat, Address>, n: nat)
    requires |pays| == |chain|
    ensures SpecWithout(chain, pays, t, n, n) == SpecOf(chain, pays, t)
  {
    hide IndexOf, Without;
    WithoutNothing(IndexOf(chain, pays), n);
  }

  lemma {:induction false} DisplaceRun(chain: seq<Block>, pays: seq<seq<Payout>>, t: map<nat, Address>, lo: nat,
                                       hi: nat)
    requires Fits(chain, pays) && lo <= hi <= |chain|
    ensures DisplaceAll(SpecOf(chain, pays, t), chain[lo..hi]) == SpecWithout(chain, pays, t, lo, hi)
  {
    hide BlockEntries, IndexOf, Fits, DisplaceOne, SpecOf, SpecWithout;
    FitsLength(chain, pays);
    if lo == hi {
      SpecWithoutNothing(chain, pays, t, lo);
    } else {
      DisplaceRun(chain, pays, t, lo, hi - 1);
      DisplaceNext(chain, pays, t, lo, hi - 1);
      assert Front(chain[lo..hi]) == chain[lo..hi - 1];
    }
  }

  // Displacing everything above block a leaves the tables of the prefix, in the
  // order the code removes it: oldest displaced block first.
  lemma DisplaceLeavesPrefix(chain: seq<Block>, pays: seq<seq<Payout>>, t: map<nat, Address>, n: nat)
    requires Fits(chain, pays) && n <= |chain|
    ensures DisplaceAll(SpecOf(chain, pays, t), chain[n..]) == SpecOf(chain[..n], pays[..n], t)
  {
    hide BlockEntries, IndexOf, DisplaceAll, Fits;
    DisplaceRun(chain, pays, t, n, |chain|);
    assert chain[n..|chain|] == chain[n..];
    IndexPrefix(chain, pays, n);
    FitsLength(chain, pays);
    var w := SpecWithout(chain, pays, t, n, |chain|);
    assert w.blocks == BlockTable(chain[..n]);
    assert w.payouts == PayoutTable(pays[..n]);
  }

  lemma FitsLength(chain: seq<Block>, pays: seq<seq<Payout>>)
    requires Fits(chain, pays)
    ensures |pays| == |chain|
  {
  }

  // -------------------------------------------------------------------------
  // The incremental reorg
  // -------------------------------------------------------------------------

  // Remove the displaced blocks, add the new ones, replace the tickets: the
  // tables of the new chain, whether it is longer, equal or shorter.
  lemma ReorgReplaces(chain: seq<Block>, pays: seq<seq<Payout>>, t: map<nat, Address>, n: nat,
                      more: seq<Block>, morePays: seq<seq<Payout>>, table: map<nat, seq<Payout>>, t': map<nat, Address>)
    requires Fits(chain, pays) && n <= |chain| && |morePays| == |more|
    requires forall i :: 0 <= i < |more| ==> more[i].index == n + i && Lookup(table, n + i) == morePays[i]
    ensures AddAll(DisplaceAll(SpecOf(chain, pays, t), chain[n..]), more, table).(tickets := t')
         == SpecOf(chain[..n] + more, pays[..n] + morePays, t')
  {
    hide IndexOf, DisplaceAll, AddAll, Lookup;
    DisplaceLeavesPrefix(chain, pays, t, n);
    AddAllExtends(chain[..n], pays[..n], t, more, morePays, table);
  }

  // -------------------------------------------------------------------------
  // The full rebuilds
  // -------------------------------------------------------------------------

  function Empty(t: map<nat, Address>): Store {
    Store(map[], map[], t, map[])
  }

  // Rebuilding block by block from nothing gives the same tables as having maintained them.
  lemma RebuildFromChain(chain: seq<Block>, pays: seq<seq<Payout>>, t: map<nat, Address>, table: map<nat, seq<Payout>>)
    requires Fits(chain, pays) && forall n :: 0 <= n < |chain| ==> Lookup(table, n) == pays[n]
    ensures AddAll(Empty(t), chain, table) == SpecOf(chain, pays, t)
  {
    hide IndexOf, AddAll, Lookup;
    assert IndexOf([], []) == map[] by {
      IndexOfNothing();
    }
    assert BlockTable([]) == map[] && PayoutTable([]) == map[];
    AddAllExtends([], [], t, chain, pays, table);
    assert [] + chain == chain && [] + pays == pays;
  }

  lemma IndexOfNothing()
    ensures IndexOf([], []) == map[]
  {
  }

  function NoPayouts(n: nat): (r: seq<seq<Payout>>)
    ensures |r| == n
  {
    seq(n, _ => [])
  }

  function Batch(table: map<nat, seq<Payout>>, n: nat): map<Bytes, Record>
    requires n in table
  {
    LotteryEntries(n, table[n], |table[n]|)
  }

  ghost predicate InBatch(table: map<nat, seq<Payout>>, done: set<nat>, k: Bytes) {
    |k| >= 13 && HeightOf(k) in done && HeightOf(k) in table && k in Batch(table, HeightOf(k))
  }

  // All lottery entries of a payout table at the heights done so far, in whatever order it is walked.
  ghost predicate LotteryUnion(m: map<Bytes, Record>, table: map<nat, seq<Payout>>, done: set<nat>) {
    forall k :: Faithful(m, table, done, k)
  }

  ghost predicate Faithful(m: map<Bytes, Record>, table: map<nat, seq<Payout>>, done: set<nat>, k: Bytes) {
    (k in m <==> InBatch(table, done, k)) && (k in m ==> m[k] == Batch(table, HeightOf(k))[k])
  }

  ghost predicate Tabulates(table: map<nat, seq<Payout>>, pays: seq<seq<Payout>>) {
    && (forall n :: n in table ==> n < |pays|)
    && (forall n :: 0 <= n < |pays| ==> Lookup(table, n) == pays[n])
  }

  lemma NoPayoutsFit(chain: seq<Block>, pays: seq<seq<Payout>>)
    requires Fits(chain, pays)
    ensures Fits(chain, NoPayouts(|chain|))
  {
  }

  lemma EntriesSplit(b: Block, ps: seq<Payout>)
    ensures BlockEntries(b, []) == TxEntries(b, |b.transactions|)
    ensures BlockEntries(b, ps) == BlockEntries(b, []) + LotteryEntries(b.index, ps, |ps|)
  {
    assert LotteryEntries(b.index, [], 0) == map[];
  }

  lemma LotteryEntryAt(m: map<Bytes, Record>, table: map<nat, seq<Payout>>, pays: seq<seq<Payout>>, n: nat, k: Bytes)
    requires LotteryUnion(m, table, table.Keys) && Tabulates(table, pays) && n < |pays|
    requires |k| >= 13 && HeightOf(k) == n
    ensures k in m <==> k in LotteryEntries(n, pays[n], |pays[n]|)
    ensures k in m ==> m[k] == LotteryEntries(n, pays[n], |pays[n]|)[k]
  {
    hide LotteryEntries, HeightOf;
    assert Lookup(table, n) == pays[n];
    assert Faithful(m, table, table.Keys, k);
    if n !in table {
      NoLotteryEntries(n);
    }
  }

  lemma NoLotteryEntries(n: nat)
    ensures LotteryEntries(n, [], 0) == map[]
  {
  }

  // Writing every transaction first and the lottery entries afterwards, in any
  // order, ends in the same index.
  lemma RebuildInAnyOrder(chain: seq<Block>, pays: seq<seq<Payout>>, table: map<nat, seq<Payout>>,
                          m: map<Bytes, Record>)
    requires Fits(chain, pays) && Tabulates(table, pays) && LotteryUnion(m, table, table.Keys)
    ensures IndexOf(chain, NoPayouts(|chain|)) + m == IndexOf(chain, pays)
  {
    hide IndexOf, BlockEntries, LotteryEntries, HeightOf, Fits, Tabulates;
    FitsLength(chain, pays);
    NoPayoutsFit(chain, pays);
    IndexHeights(chain, pays);
    IndexHeights(chain, NoPayouts(|chain|));
    var left, right := IndexOf(chain, NoPayouts(|chain|)) + m, IndexOf(chain, pays);
    forall k ensures (k in left <==> k in right) && (k in left ==> left[k] == right[k]) {
      if |k| >= 13 && HeightOf(k) < |chain| {
        var n := HeightOf(k);
        FitsAt(chain, pays, n);
        IndexAtHeight(chain, pays, n, k);
        IndexAtHeight(chain, NoPayouts(|chain|), n, k);
        EntriesSplit(chain[n], pays[n]);
        LotteryEntryAt(m, table, pays, n, k);
      } else if k in m {
        assert Faithful(m, table, table.Keys, k);
        TabulatesWithin(table, pays, HeightOf(k));
        assert false;
      }
    }
  }

  lemma TabulatesWithin(table: map<nat, seq<Payout>>, pays: seq<seq<Payout>>, n: nat)
    requires Tabulates(table, pays) && n in table
    ensures n < |pays|
  {
  }

  // Writing new blocks over the block table without removing any leaves the new
  // chain's table exactly when the new chain is at least as long as the old one.
  lemma OverwriteKeepsStaleTail(chain: seq<Block>, n: nat, more: seq<Block>)
    requires n <= |chain| && forall i :: 0 <= i < |more| ==> more[i].index == n + i
    ensures (forall i: nat :: i < |chain| && i >= n + |more| ==>
               i in SaveAll(BlockTable(chain), more) && SaveAll(BlockTable(chain), more)[i] == chain[i])
    ensures SaveAll(BlockTable(chain), more) == BlockTable(chain[..n] + more) <==> n + |more| >= |chain|
  {
    hide BlockTable, SaveAll;
    SaveAllWrites(BlockTable(chain), more, n);
    var longer := chain[..n] + more;
    var saved, wanted := SaveAll(BlockTable(chain), more), BlockTable(longer);
    forall i: nat | n + |more| <= i < |chain| ensures i in saved && saved[i] == chain[i] {
      BlockTableAt(chain, i);
    }
    if n + |more| < |chain| {
      BlockTableAt(longer, n + |more|);
      assert n + |more| in saved;
    } else {
      forall k: nat ensures (k in saved <==> k in wanted) && (k in saved ==> saved[k] == wanted[k]) {
        BlockTableAt(chain, k);
        BlockTableAt(longer, k);
      }
    }
  }

  lemma BlockTableAt(chain: seq<Block>, k: nat)
    ensures k in BlockTable(chain) <==> k < |chain|
    ensures k < |chain| ==> BlockTable(chain)[k] == chain[k]
  {
  }

  function SaveAll(m: map<nat, Block>, more: seq<Block>): map<nat, Block> {
    if more == [] then m else SaveAll(m, Front(more))[Last(more).index := Last(more)]
  }

  lemma {:induction false} SaveAllWrites(m: map<nat, Block>, more: seq<Block>, n: nat)
    requires forall i :: 0 <= i < |more| ==> more[i].index == n + i
    ensures forall k: nat :: k in SaveAll(m, more) <==> k in m || n <= k < n + |more|
    ensures forall k: nat :: k in SaveAll(m, more) ==>
      SaveAll(m, more)[k] == if n <= k < n + |more| then more[k - n] else m[k]
  {
    if more != [] {
      SaveAllWrites(m, Front(more), n);
      assert more[|more| - 1].index == n + |more| - 1;
    }
  }

  // -------------------------------------------------------------------------
  // Listings in key order
  // -------------------------------------------------------------------------

  ghost predicate Lists(ks: seq<nat>, keys: set<nat>) {
    && (forall i, j :: 0 <= i < j < |ks| ==> ks[i] < ks[j])
    && (forall k :: k in keys <==> k in ks)
  }

  lemma FirstIsListed(ks: seq<nat>, keys: set<nat>)
    requires Lists(ks, keys) && ks != []
    ensures ks[0] in keys
  {
    assert ks[0] in ks;
  }

  lemma {:induction false} ListingIsUnique(s: seq<nat>, t: seq<nat>, keys: set<nat>)
    requires Lists(s, keys) && Lists(t, keys)
    ensures s == t
    decreases |s|
  {
    if s == [] {
      if t != [] {
        FirstIsListed(t, keys);
        assert false;
      }
    } else {
      assert s[0] in keys;
      assert t != [];
      assert t[0] in keys;
      assert s[0] == t[0];
      ListsTail(s, keys);
      ListsTail(t, keys);
      ListingIsUnique(s[1..], t[1..], keys - {s[0]});
      assert s == [s[0]] + s[1..] && t == [t[0]] + t[1..];
    }
  }

  lemma ListsTail(s: seq<nat>, keys: set<nat>)
    requires Lists(s, keys) && s != []
    ensures Lists(s[1..], keys - {s[0]})
  {
    assert s == [s[0]] + s[1..];
    assert forall i :: 0 < i < |s| ==> s[0] < s[i];
  }

  // The block table lists back as the chain.
  lemma ChainListsBack(chain: seq<Block>, ks: seq<nat>)
    requires Lists(ks, BlockTable(chain).Keys)
    ensures |ks| == |chain| && forall i :: 0 <= i < |ks| ==> ks[i] == i
  {
    var up := seq(|chain|, i => i);
    forall k ensures k in BlockTable(chain).Keys <==> k in up {
      if 0 <= k < |chain| {
        assert up[k] == k;
      }
    }
    ListingIsUnique(ks, up, BlockTable(chain).Keys);
  }

  function Heights(ts: seq<Ticket>): (r: seq<nat>)
    ensures |r| == |ts|
  {
    seq(|ts|, i requires 0 <= i < |ts| => ts[i].createdHeight)
  }

  lemma ListsAppend(ks: seq<nat>, keys: set<nat>, h: nat)
    requires Lists(ks, keys) && forall i :: 0 <= i < |ks| ==> ks[i] < h
    ensures Lists(ks + [h], keys + {h})
  {
  }

  ghost predicate Holds(m: map<nat, Address>, ts: seq<Ticket>) {
    forall t :: t in ts ==> t.createdHeight in m && m[t.createdHeight] == t.miner
  }

  lemma HoldsNext(m: map<nat, Address>, ts: seq<Ticket>)
    requires ts != [] && Rising(ts) && Holds(m, Front(ts))
    ensures Holds(m[Last(ts).createdHeight := Last(ts).miner], ts)
  {
    forall t | t in ts && t != Last(ts) ensures t in Front(ts) && t.createdHeight < Last(ts).createdHeight {
      var i :| 0 <= i < |ts| && ts[i] == t;
      assert Front(ts)[i] == t;
    }
  }

  lemma HeightsSplit(ts: seq<Ticket>)
    requires ts != []
    ensures Heights(ts) == Heights(Front(ts)) + [Last(ts).createdHeight]
    ensures TicketTable(ts) == TicketTable(Front(ts))[Last(ts).createdHeight := Last(ts).miner]
    ensures Rising(ts) ==> Rising(Front(ts))
  {
  }

  lemma {:induction false} TicketTableHolds(ts: seq<Ticket>)
    requires Rising(ts)
    ensures Lists(Heights(ts), TicketTable(ts).Keys) && Holds(TicketTable(ts), ts)
  {
    if ts != [] {
      hide *;
      HeightsSplit(ts);
      TicketTableHolds(Front(ts));
      HoldsNext(TicketTable(Front(ts)), ts);
      HeightsBelowLast(ts);
      ListsAppend(Heights(Front(ts)), TicketTable(Front(ts)).Keys, Last(ts).createdHeight);
      assert TicketTable(ts).Keys == TicketTable(Front(ts)).Keys + {Last(ts).createdHeight};
    }
  }

  lemma HeightsBelowLast(ts: seq<Ticket>)
    requires ts != [] && Rising(ts)
    ensures forall i :: 0 <= i < |Heights(Front(ts))| ==> Heights(Front(ts))[i] < Last(ts).createdHeight
  {
  }

  // Tickets saved under their creation heights load back in the same order.
  lemma TicketsListBack(ts: seq<Ticket>, ks: seq<nat>)
    requires Rising(ts) && Lists(ks, TicketTable(ts).Keys)
    ensures |ks| == |ts|
    ensures forall i :: 0 <= i < |ks| ==> ks[i] in TicketTable(ts) && Ticket(TicketTable(ts)[ks[i]], ks[i]) == ts[i]
  {
    hide TicketTable;
    TicketTableHolds(ts);
    ListingIsUnique(ks, Heights(ts), TicketTable(ts).Keys);
    forall i | 0 <= i < |ks| ensures ks[i] in TicketTable(ts) && Ticket(TicketTable(ts)[ks[i]], ks[i]) == ts[i] {
      assert ts[i] in ts;
    }
  }
}
