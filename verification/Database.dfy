/** The node's database: tables changed inside write transactions. */
module Database {
  import opened Prelude
  import opened ByteOrder
  import opened Types
  import opened Tables
  import opened History

  // Up to `n` blocks starting at index `from`, in index order.
  function RangeOf(m: map<nat, Block>, from: nat, n: nat): seq<Block> {
    if n == 0 then []
    else RangeOf(m, from, n - 1) + if from + n - 1 in m then [m[from + n - 1]] else []
  }

  lemma {:induction false} RangeOfChain(chain: seq<Block>, from: nat, n: nat)
    requires from + n <= |chain|
    ensures RangeOf(BlockTable(chain), from, n) == chain[from..from + n]
  {
    if n > 0 {
      RangeOfChain(chain, from, n - 1);
      var k := from + n - 1;
      assert k in BlockTable(chain) && BlockTable(chain)[k] == chain[k];
      assert chain[from..from + n] == chain[from..k] + [chain[k]];
    }
  }

  lemma {:induction false} RangeStarts(m: map<nat, Block>, n: nat)
    requires 0 in m && n > 0
    ensures |RangeOf(m, 0, n)| > 0 && RangeOf(m, 0, n)[0] == m[0]
  {
    if n > 1 {
      RangeStarts(m, n - 1);
    }
  }

  datatype TxRecord = TxRecord(blockIndex: nat, record: Record)

  function RecordsOf(es: seq<Entry>): (r: seq<TxRecord>)
    ensures |r| == |es|
  {
    seq(|es|, i requires 0 <= i < |es| => TxRecord(es[i].height, es[i].record))
  }

  // -------------------------------------------------------------------------
  // Loops shared by the write paths
  // -------------------------------------------------------------------------

  method InsertTxs(table: map<Bytes, Record>, b: Block) returns (r: map<Bytes, Record>)
    ensures r == table + TxEntries(b, |b.transactions|)
  {
    r := table;
    for i := 0 to |b.transactions|
      invariant r == table + TxEntries(b, i)
    {
      var tx := b.transactions[i];
      var value := TxValue(tx, b.index, i);
      ghost var before := TxEntries(b, i);
      r := r[MakeTxKey(tx.receiver, b.index, i) := value];
      assert r == table + before[MakeTxKey(tx.receiver, b.index, i) := value];
      if !tx.Coinbase() {
        r := r[MakeTxKey(tx.sender, b.index, i) := value];
      }
      assert r == table + TxEntries(b, i + 1);
    }
  }

  method InsertPayouts(table: map<Bytes, Record>, index: nat, ps: seq<Payout>) returns (r: map<Bytes, Record>)
    ensures r == table + LotteryEntries(index, ps, |ps|)
  {
    r := table;
    for i := 0 to |ps|
      invariant r == table + LotteryEntries(index, ps, i)
    {
      r := r[MakeTxKey(ps[i].receiver, index, LOTTERY_POS + i) := LotteryValue(ps[i], index, i)];
      assert r == table + LotteryEntries(index, ps, i + 1);
    }
  }

  method RemoveTxs(table: map<Bytes, Record>, b: Block) returns (r: map<Bytes, Record>)
    ensures r == table - TxEntries(b, |b.transactions|).Keys
  {
    r := table;
    for i := 0 to |b.transactions|
      invariant r == table - TxEntries(b, i).Keys
    {
      var tx := b.transactions[i];
      ghost var before := TxEntries(b, i);
      r := r - {MakeTxKey(tx.receiver, b.index, i)};
      assert r == table - (before.Keys + {MakeTxKey(tx.receiver, b.index, i)});
      if !tx.Coinbase() {
        r := r - {MakeTxKey(tx.sender, b.index, i)};
      }
      assert r == table - TxEntries(b, i + 1).Keys;
    }
  }

  method RemovePayouts(table: map<Bytes, Record>, index: nat, ps: seq<Payout>) returns (r: map<Bytes, Record>)
    ensures r == table - LotteryEntries(index, ps, |ps|).Keys
  {
    r := table;
    for i := 0 to |ps|
      invariant r == table - LotteryEntries(index, ps, i).Keys
    {
      r := r - {MakeTxKey(ps[i].receiver, index, LOTTERY_POS + i)};
      assert r == table - LotteryEntries(index, ps, i + 1).Keys;
    }
  }

  ghost predicate Sane(pays: map<nat, seq<Payout>>) {
    forall n :: n in pays ==> n <= U64_MAX && |pays[n]| <= 0x1_0000
  }

  lemma LotteryUnionNext(m: map<Bytes, Record>, pays: map<nat, seq<Payout>>, done: set<nat>, n: nat)
    requires Sane(pays) && LotteryUnion(m, pays, done) && n in pays && n !in done
    ensures LotteryUnion(m + Batch(pays, n), pays, done + {n})
  {
    hide LotteryEntries, HeightOf, Sane;
    var longer := m + Batch(pays, n);
    forall k ensures Faithful(longer, pays, done + {n}, k) {
      LotteryUnionAt(m, pays, done, k);
      if k in Batch(pays, n) {
        BatchKey(pays, n, k);
      }
    }
  }

  lemma LotteryUnionAt(m: map<Bytes, Record>, pays: map<nat, seq<Payout>>, done: set<nat>, k: Bytes)
    requires LotteryUnion(m, pays, done)
    ensures Faithful(m, pays, done, k)
  {
  }

  lemma BatchKey(pays: map<nat, seq<Payout>>, n: nat, k: Bytes)
    requires Sane(pays) && n in pays && k in Batch(pays, n)
    ensures |k| >= 13 && HeightOf(k) == n
  {
    LotteryEntriesKeys(n, pays[n], |pays[n]|);
  }

  // The payout table walked in whatever order the hash map yields.
  lemma NothingWritten(pays: map<nat, seq<Payout>>)
    ensures LotteryUnion(map[], pays, {})
  {
  }

  lemma BatchIs(pays: map<nat, seq<Payout>>, n: nat)
    requires n in pays
    ensures Batch(pays, n) == if pays[n] == [] then map[] else LotteryEntries(n, pays[n], |pays[n]|)
  {
  }

  lemma MergeMoves<K, V>(a: map<K, V>, b: map<K, V>, c: map<K, V>)
    ensures (a + b) + c == a + (b + c) && (a + b) + map[] == a + b
  {
  }

  method WritePayouts(table: map<Bytes, Record>, pays: map<nat, seq<Payout>>)
    returns (r: map<Bytes, Record>, lp: map<nat, seq<Payout>>, ghost lottery: map<Bytes, Record>)
    ensures r == table + lottery
    ensures Sane(pays) ==> LotteryUnion(lottery, pays, pays.Keys)
    ensures lp == map n | n in pays && pays[n] != [] :: pays[n]
  {
    hide *;
    r, lp, lottery := table, map[], map[];
    var left := pays.Keys;
    NothingWritten(pays);
    assert pays.Keys - left == {};
    while left != {}
      invariant left <= pays.Keys
      invariant r == table + lottery
      invariant Sane(pays) ==> LotteryUnion(lottery, pays, pays.Keys - left)
      invariant lp.Keys == set n | n in pays && n !in left && pays[n] != []
      invariant forall n :: n in lp ==> lp[n] == pays[n]
      decreases left
    {
      var n :| n in left;
      if Sane(pays) {
        LotteryUnionNext(lottery, pays, pays.Keys - left, n);
        assert pays.Keys - (left - {n}) == (pays.Keys - left) + {n};
      }
      BatchIs(pays, n);
      MergeMoves(table, lottery, Batch(pays, n));
      if pays[n] != [] {
        lp := lp[n := pays[n]];
        r := InsertPayouts(r, n, pays[n]);
      }
      lottery := lottery + Batch(pays, n);
      left := left - {n};
    }
    assert pays.Keys - left == pays.Keys;
  }

  lemma RebuildMatches(chain: seq<Block>, bySeq: seq<seq<Payout>>, pays: map<nat, seq<Payout>>,
                       lottery: map<Bytes, Record>)
    requires Fits(chain, bySeq) && Tabulates(pays, bySeq)
    requires Sane(pays) ==> LotteryUnion(lottery, pays, pays.Keys)
    ensures IndexOf(chain, NoPayouts(|chain|)) + lottery == IndexOf(chain, bySeq)
    ensures (map n | n in pays && pays[n] != [] :: pays[n]) == PayoutTable(bySeq)
  {
    forall n | n in pays ensures n <= U64_MAX && |pays[n]| <= 0x1_0000 {
      assert Lookup(pays, n) == bySeq[n];
    }
    assert forall n :: 0 <= n < |bySeq| ==> Lookup(pays, n) == bySeq[n];
    RebuildInAnyOrder(chain, bySeq, pays, lottery);
  }

  lemma RebuiltIs(chain: seq<Block>, bySeq: seq<seq<Payout>>, pays: map<nat, seq<Payout>>, lottery: map<Bytes, Record>,
                  t: map<nat, Address>, full: map<Bytes, Record>, lp: map<nat, seq<Payout>>)
    requires Fits(chain, bySeq) && Tabulates(pays, bySeq) && (Sane(pays) ==> LotteryUnion(lottery, pays, pays.Keys))
    requires full == IndexOf(chain, NoPayouts(|chain|)) + lottery
    requires lp == map n | n in pays && pays[n] != [] :: pays[n]
    ensures Store(BlockTable(chain), full, t, lp) == SpecOf(chain, bySeq, t)
  {
    hide IndexOf, NoPayouts, BlockTable, Tabulates, PayoutTable, LotteryUnion, Sane;
    RebuildMatches(chain, bySeq, pays, lottery);
  }

  lemma RebuiltForAll(list: seq<Block>, blocks: map<nat, Block>, pays: map<nat, seq<Payout>>,
                      lottery: map<Bytes, Record>,
                      t: map<nat, Address>, full: map<Bytes, Record>, lp: map<nat, seq<Payout>>)
    requires forall chain :: blocks == BlockTable(chain) ==> list == chain
    requires Sane(pays) ==> LotteryUnion(lottery, pays, pays.Keys)
    requires full == IndexOf(list, NoPayouts(|list|)) + lottery
    requires lp == map n | n in pays && pays[n] != [] :: pays[n]
    ensures forall chain, bySeq :: blocks == BlockTable(chain) && Fits(chain, bySeq) && Tabulates(pays, bySeq) ==>
      Store(blocks, full, t, lp) == SpecOf(chain, bySeq, t)
  {
    hide IndexOf, NoPayouts, BlockTable, Tabulates, PayoutTable, LotteryUnion, Sane;
    forall chain, bySeq | blocks == BlockTable(chain) && Fits(chain, bySeq) && Tabulates(pays, bySeq)
      ensures Store(blocks, full, t, lp) == SpecOf(chain, bySeq, t)
    {
      RebuiltIs(chain, bySeq, pays, lottery, t, full, lp);
    }
  }

  // The record stored under the key at `i`, with the height read out of the key.
  ghost function DecodeAt(table: map<Bytes, Record>, a: Address, keys: seq<Bytes>, i: int): TxRecord {
    if 0 <= i < |keys| && keys[i] in table && |keys[i]| >= |a| + 9 then
      TxRecord(BigEndian(keys[i][|a| + 1..|a| + 9]), table[keys[i]])
    else TxRecord(0, Record([], [], 0, 0, CoinbaseId(0, 0)))
  }

  lemma RecordOfScan(chain: seq<Block>, pays: seq<seq<Payout>>, a: Address, keys: seq<Bytes>, i: nat)
    requires Fits(chain, pays) && Clean(chain, pays) && NoZero(a)
    requires ListsBytes(keys, RangeKeys(IndexOf(chain, pays), a)) && i < |keys|
    ensures |pays| == |chain| && |HistoryOf(chain, pays, a)| == |keys|
    ensures RecordsOf(HistoryOf(chain, pays, a))[i] == DecodeAt(IndexOf(chain, pays), a, keys, i)
  {
    FitsLength(chain, pays);
    hide IndexOf, HistoryOf, MakeTxKey, BigEndian, Fits, Clean, ListsBytes, NoZero, RangeKeys;
    ScanIsHistory(chain, pays, a, keys);
  }

  lemma PageOfReverse<T>(all: seq<T>, page: seq<T>, offset: nat, limit: nat)
    requires |page| == if offset >= |all| then 0 else Min(limit, |all| - offset)
    requires forall j :: 0 <= j < |page| ==> page[j] == all[|all| - 1 - (offset + j)]
    ensures page == Page(Reverse(all), offset, limit)
  {
  }

  lemma PageOfScan(chain: seq<Block>, pays: seq<seq<Payout>>, a: Address, keys: seq<Bytes>, records: seq<TxRecord>,
                   offset: nat, limit: nat)
    requires Fits(chain, pays) && Clean(chain, pays) && NoZero(a)
    requires ListsBytes(keys, RangeKeys(IndexOf(chain, pays), a))
    requires |records| == if offset >= |keys| then 0 else Min(limit, |keys| - offset)
    requires forall j :: 0 <= j < |records| ==>
      records[j] == DecodeAt(IndexOf(chain, pays), a, keys, |keys| - 1 - (offset + j))
    ensures records == Page(Reverse(RecordsOf(HistoryOf(chain, pays, a))), offset, limit)
  {
    hide Fits, Clean, NoZero, ListsBytes, RangeKeys, IndexOf, HistoryOf, DecodeAt, RecordsOf, Page, Reverse;
    FitsLength(chain, pays);
    var all := RecordsOf(HistoryOf(chain, pays, a));
    ScanLength(chain, pays, a, keys);
    forall j | 0 <= j < |records| ensures records[j] == all[|all| - 1 - (offset + j)] {
      RecordOfScan(chain, pays, a, keys, |keys| - 1 - (offset + j));
    }
    PageOfReverse(all, records, offset, limit);
  }

  lemma ScanLength(chain: seq<Block>, pays: seq<seq<Payout>>, a: Address, keys: seq<Bytes>)
    requires Fits(chain, pays) && Clean(chain, pays) && NoZero(a)
    requires ListsBytes(keys, RangeKeys(IndexOf(chain, pays), a))
    ensures |pays| == |chain| && |HistoryOf(chain, pays, a)| == |keys|
  {
    FitsLength(chain, pays);
    hide IndexOf, HistoryOf, MakeTxKey, BigEndian, Fits, Clean, ListsBytes, NoZero, RangeKeys;
    ScanIsHistory(chain, pays, a, keys);
  }

  // Everything that involves `a` on the chain, newest first: one entry for each
  // transaction it sends or receives and each prize it is paid, and nothing else.
  ghost predicate NewestFirst(all: seq<Entry>, chain: seq<Block>, pays: seq<seq<Payout>>, a: Address)
    requires |pays| == |chain|
  {
    && (forall i, j :: 0 <= i < j < |all| ==>
          all[i].height > all[j].height || (all[i].height == all[j].height && all[i].pos > all[j].pos))
    && forall e :: e in all <==> e.height < |chain| && Genuine(chain[e.height], pays[e.height], a, e.pos, e.record)
  }

  // `r` is what `all` lists from `offset` on, `limit` of them if there are as many.
  ghost predicate Shows(r: seq<TxRecord>, all: seq<Entry>, offset: nat, limit: nat) {
    && |r| == (if offset >= |all| then 0 else Min(limit, |all| - offset))
    && forall j :: 0 <= j < |r| ==>
         r[j].blockIndex == all[offset + j].height && r[j].record == all[offset + j].record
  }

  lemma HistoryBackwards(chain: seq<Block>, pays: seq<seq<Payout>>, a: Address)
    requires Fits(chain, pays)
    ensures |pays| == |chain| && NewestFirst(Reverse(HistoryOf(chain, pays, a)), chain, pays, a)
  {
    FitsLength(chain, pays);
    hide Genuine, HistoryOf, Fits;
    HistoryOrdered(chain, pays, a);
    var es := HistoryOf(chain, pays, a);
    forall e ensures e in Reverse(es) <==>
      e.height < |chain| && Genuine(chain[e.height], pays[e.height], a, e.pos, e.record)
    {
      HistoryExact(chain, pays, a, e);
      ReversedHas(es, e);
    }
  }

  lemma ReversedHas<T>(s: seq<T>, e: T)
    ensures e in Reverse(s) <==> e in s
  {
    if e in s {
      var i :| 0 <= i < |s| && s[i] == e;
      assert Reverse(s)[|s| - 1 - i] == e;
    }
  }

  // So a page of the history read backwards shows the newest entries, field by field.
  lemma PageShows(chain: seq<Block>, pays: seq<seq<Payout>>, a: Address, offset: nat, limit: nat)
    requires Fits(chain, pays)
    ensures |pays| == |chain|
    ensures var page := Page(Reverse(RecordsOf(HistoryOf(chain, pays, a))), offset, limit);
      exists all :: NewestFirst(all, chain, pays, a) && Shows(page, all, offset, limit)
  {
    hide Genuine, HistoryOf, Fits, NewestFirst;
    HistoryBackwards(chain, pays, a);
    assert Shows(Page(Reverse(RecordsOf(HistoryOf(chain, pays, a))), offset, limit), Reverse(HistoryOf(chain, pays, a)),
                 offset, limit);
  }

  lemma PageOfAny(table: map<Bytes, Record>, a: Address, keys: seq<Bytes>, records: seq<TxRecord>, offset: nat,
                  limit: nat)
    requires ListsBytes(keys, RangeKeys(table, a))
    requires |records| == if offset >= |keys| then 0 else Min(limit, |keys| - offset)
    requires forall j :: 0 <= j < |records| ==> records[j] == DecodeAt(table, a, keys, |keys| - 1 - (offset + j))
    ensures forall chain, pays ::
      Fits(chain, pays) && table == IndexOf(chain, pays) && Clean(chain, pays) && NoZero(a) ==>
        && records == Page(Reverse(RecordsOf(HistoryOf(chain, pays, a))), offset, limit)
        && exists all :: NewestFirst(all, chain, pays, a) && Shows(records, all, offset, limit)
  {
    hide ListsBytes, RangeKeys, DecodeAt, NewestFirst, Shows, Clean, NoZero, IndexOf, Page, HistoryOf;
    forall chain, pays | Fits(chain, pays) && table == IndexOf(chain, pays) && Clean(chain, pays) && NoZero(a)
      ensures records == Page(Reverse(RecordsOf(HistoryOf(chain, pays, a))), offset, limit)
      ensures |pays| == |chain| && exists all :: NewestFirst(all, chain, pays, a) && Shows(records, all, offset, limit)
    {
      FitsLength(chain, pays);
      PageOfScan(chain, pays, a, keys, records, offset, limit);
      PageShows(chain, pays, a, offset, limit);
    }
  }

  method WriteTickets(ts: seq<Ticket>) returns (r: map<nat, Address>)
    ensures r == TicketTable(ts)
  {
    r := map[];
    assert ts[..0] == [];
    for i := 0 to |ts|
      invariant r == TicketTable(ts[..i])
    {
      r := r[ts[i].createdHeight := ts[i].miner];
      assert Front(ts[..i + 1]) == ts[..i];
    }
    assert ts[..|ts|] == ts;
  }

  // What one block adds to the index and the payout table.
  method AddEntries(table: map<Bytes, Record>, lp: map<nat, seq<Payout>>, b: Block, ps: seq<Payout>)
    returns (r: map<Bytes, Record>, lr: map<nat, seq<Payout>>)
    ensures r == table + BlockEntries(b, ps)
    ensures lr == if ps == [] then lp else lp[b.index := ps]
  {
    EntriesSplit(b, ps);
    hide BlockEntries, TxEntries, LotteryEntries;
    r := InsertTxs(table, b);
    lr := lp;
    if ps != [] {
      lr := lr[b.index := ps];
      r := InsertPayouts(r, b.index, ps);
    } else {
      NoLotteryEntries(b.index);
    }
    assert r == table + BlockEntries(b, ps);
  }

  lemma RemovedInTwo(m: map<Bytes, Record>, b: Block, ps: seq<Payout>)
    ensures var lottery, txs := LotteryEntries(b.index, ps, |ps|).Keys, TxEntries(b, |b.transactions|).Keys;
      m - lottery - txs == m - BlockEntries(b, ps).Keys
  {
    hide TxEntries, LotteryEntries;
  }

  // Take displaced blocks out of every table, oldest first.
  method DisplaceBlocks(s: Store, gone: seq<Block>) returns (r: Store)
    ensures r == DisplaceAll(s, gone)
  {
    r := s;
    assert gone[..0] == [];
    for i := 0 to |gone|
      invariant r == DisplaceAll(s, gone[..i])
    {
      hide TxEntries, LotteryEntries;
      var b := gone[i];
      var stored := Lookup(r.payouts, b.index);
      var table := RemovePayouts(r.txIndex, b.index, stored);
      table := RemoveTxs(table, b);
      RemovedInTwo(r.txIndex, b, stored);
      hide BlockEntries;
      r := Store(r.blocks - {b.index}, table, r.tickets, r.payouts - {b.index});
      assert Front(gone[..i + 1]) == gone[..i];
    }
    assert gone[..|gone|] == gone;
  }

  method AddBlocks(s: Store, more: seq<Block>, pays: map<nat, seq<Payout>>) returns (r: Store)
    ensures r == AddAll(s, more, pays)
  {
    r := s;
    assert more[..0] == [];
    for i := 0 to |more|
      invariant r == AddAll(s, more[..i], pays)
    {
      hide BlockEntries;
      var b := more[i];
      var table, lp := AddEntries(r.txIndex, r.payouts, b, Lookup(pays, b.index));
      r := Store(r.blocks[b.index := b], table, r.tickets, lp);
      assert Front(more[..i + 1]) == more[..i];
    }
    assert more[..|more|] == more;
  }

  ghost predicate FiledIn(m: map<nat, Block>) {
    0 in m && forall n :: n in m ==> m[n].index == n
  }

  lemma {:induction false} DisplaceKeepsFiled(s: Store, gone: seq<Block>)
    requires FiledIn(s.blocks) && forall i :: 0 <= i < |gone| ==> gone[i].index > 0
    ensures FiledIn(DisplaceAll(s, gone).blocks)
  {
    hide BlockEntries;
    if gone != [] {
      assert gone[|gone| - 1].index > 0;
      DisplaceKeepsFiled(s, Front(gone));
    }
  }

  lemma {:induction false} AddKeepsFiled(s: Store, more: seq<Block>, pays: map<nat, seq<Payout>>)
    requires FiledIn(s.blocks)
    ensures FiledIn(AddAll(s, more, pays).blocks)
  {
    hide BlockEntries;
    if more != [] {
      AddKeepsFiled(s, Front(more), pays);
    }
  }

  // The store's ordered iteration over numeric keys.
  method KeysInOrder(keys: set<nat>) returns (ks: seq<nat>)
    ensures Lists(ks, keys)
  {
    ks := [];
    var left := keys;
    assert keys - left == {};
    while left != {}
      invariant left <= keys && Lists(ks, keys - left)
      invariant forall i, l :: 0 <= i < |ks| && l in left ==> ks[i] < l
      decreases left
    {
      ghost var least := LeastNat(left);
      var k :| k in left && forall l :: l in left ==> k <= l;
      ListsAppend(ks, keys - left, k);
      assert keys - (left - {k}) == (keys - left) + {k};
      ks, left := ks + [k], left - {k};
    }
    assert keys - left == keys;
  }

  lemma {:induction false} LeastNat(keys: set<nat>) returns (m: nat)
    requires keys != {}
    ensures m in keys && forall l :: l in keys ==> m <= l
    decreases |keys|
  {
    m :| m in keys;
    if keys != {m} {
      assert keys == (keys - {m}) + {m};
      var n := LeastNat(keys - {m});
      if n < m {
        m := n;
      }
    }
  }

  // The store's ordered iteration over byte keys.
  method BytesInOrder(keys: set<Bytes>) returns (ks: seq<Bytes>)
    ensures ListsBytes(ks, keys)
  {
    ks := [];
    var left := keys;
    while left != {}
      invariant left <= keys && ListsBytes(ks, keys - left)
      invariant forall k, l :: k in ks && l in left ==> Less(k, l)
      decreases left
    {
      ghost var least := LeastExists(left);
      assert exists k :: k in left && forall l :: l in left && l != k ==> Less(k, l);
      var k :| k in left && forall l :: l in left && l != k ==> Less(k, l);
      ks, left := ks + [k], left - {k};
    }
    assert keys - left == keys;
  }

  // -------------------------------------------------------------------------
  // The database
  // -------------------------------------------------------------------------

  class Db {
    // A database that never fails an operation. On any other, each operation may
    // fail, and then leaves the tables as they were.
    const reliable: bool

    var blocks: map<nat, Block>
    var txIndex: map<Bytes, Record>
    var tickets: map<nat, Address>
    var payouts: map<nat, seq<Payout>>

    function Contents(): Store
      reads this
    {
      Store(blocks, txIndex, tickets, payouts)
    }

    // Blocks are filed under their own index, and block 0 is always there.
    ghost predicate Filed()
      reads this`blocks
    {
      FiledIn(blocks)
    }

    constructor (reliable: bool)
      ensures this.reliable == reliable && Contents() == Store(map[], map[], map[], map[])
    {
      this.reliable := reliable;
      blocks, txIndex, tickets, payouts := map[], map[], map[], map[];
    }

    // Whether the storage engine refuses the operation.
    method Fails() returns (failed: bool)
      ensures reliable ==> !failed
    {
      var chance: bool := *;
      failed := !reliable && chance;
    }

    method SaveBlockIndexed(b: Block) returns (ok: bool)
      modifies this`blocks
      ensures reliable ==> ok
      ensures blocks == if ok then old(blocks)[b.index := b] else old(blocks)
      ensures old(Filed()) ==> Filed()
    {
      var failed := Fails();
      if failed {
        return false;
      }
      blocks := blocks[b.index := b];
      return true;
    }

    method GetBlocksRange(from: nat, limit: nat) returns (r: Option<seq<Block>>)
      ensures reliable ==> r.Some?
      ensures r.Some? ==> r.value == RangeOf(blocks, from, limit)
    {
      var failed := Fails();
      if failed {
        return None;
      }
      var found: seq<Block> := [];
      for i := 0 to limit
        invariant found == RangeOf(blocks, from, i)
      {
        if from + i in blocks {
          found := found + [blocks[from + i]];
        }
      }
      return Some(found);
    }

    // Every stored block, in index order; `ks` names the indices.
    method LoadCanonicalChain() returns (r: Option<seq<Block>>, ghost ks: seq<nat>)
      ensures reliable ==> r.Some?
      ensures r.Some? ==>
        && Lists(ks, blocks.Keys) && |r.value| == |ks|
        && forall i :: 0 <= i < |ks| ==> ks[i] in blocks && r.value[i] == blocks[ks[i]]
      ensures r.Some? ==> forall chain :: blocks == BlockTable(chain) ==> r.value == chain
    {
      ks := [];
      var failed := Fails();
      if failed {
        return None, [];
      }
      var keys := KeysInOrder(blocks.Keys);
      var all: seq<Block> := [];
      for i := 0 to |keys|
        invariant |all| == i && forall j :: 0 <= j < i ==> keys[j] in blocks && all[j] == blocks[keys[j]]
      {
        assert keys[i] in blocks.Keys;
        all := all + [blocks[keys[i]]];
      }
      forall chain | blocks == BlockTable(chain) ensures all == chain {
        ChainListsBack(chain, keys);
      }
      return Some(all), keys;
    }

    method LoadTickets() returns (r: Option<seq<Ticket>>)
      ensures reliable ==> r.Some?
      ensures r.Some? ==> forall ts :: Rising(ts) && tickets == TicketTable(ts) ==> r.value == ts
    {
      var failed := Fails();
      if failed {
        return None;
      }
      var keys := KeysInOrder(tickets.Keys);
      var all: seq<Ticket> := [];
      for i := 0 to |keys|
        invariant |all| == i && forall j :: 0 <= j < i ==>
          keys[j] in tickets && all[j] == Ticket(tickets[keys[j]], keys[j])
      {
        assert keys[i] in tickets.Keys;
        all := all + [Ticket(tickets[keys[i]], keys[i])];
      }
      forall ts | Rising(ts) && tickets == TicketTable(ts) ensures all == ts {
        TicketsListBack(ts, keys);
      }
      return Some(all);
    }

    method SaveAppliedBlock(b: Block, ts: seq<Ticket>, ps: seq<Payout>) returns (ok: bool)
      modifies this
      ensures reliable ==> ok
      ensures Contents() == if ok then AddOne(old(Contents()), b, ps).(tickets := TicketTable(ts)) else old(Contents())
      ensures old(Filed()) ==> Filed()
    {
      var failed := Fails();
      if failed {
        return false;
      }
      hide BlockEntries;
      var table, lp := AddEntries(txIndex, payouts, b, ps);
      var newTickets := WriteTickets(ts);
      blocks, txIndex, tickets, payouts := blocks[b.index := b], table, newTickets, lp;
      return true;
    }

    method ApplyReorgIncremental(oldBlocks: seq<Block>, newBlocks: seq<Block>, ts: seq<Ticket>,
                                 pays: map<nat, seq<Payout>>)
      returns (ok: bool)
      modifies this
      ensures reliable ==> ok
      ensures Contents() ==
        if ok then AddAll(DisplaceAll(old(Contents()), oldBlocks), newBlocks, pays).(tickets := TicketTable(ts))
        else old(Contents())
      ensures old(Filed()) && (forall i :: 0 <= i < |oldBlocks| ==> oldBlocks[i].index > 0) ==> Filed()
    {
      var failed := Fails();
      if failed {
        return false;
      }
      hide DisplaceAll, AddAll;
      var bare := DisplaceBlocks(Contents(), oldBlocks);
      var s := AddBlocks(bare, newBlocks, pays);
      var newTickets := WriteTickets(ts);
      if Filed() && forall i :: 0 <= i < |oldBlocks| ==> oldBlocks[i].index > 0 {
        DisplaceKeepsFiled(Contents(), oldBlocks);
        AddKeepsFiled(bare, newBlocks, pays);
      }
      blocks, txIndex, tickets, payouts := s.blocks, s.txIndex, newTickets, s.payouts;
      return true;
    }

    // Startup after a full replay: the index and payouts from scratch, blocks and tickets untouched.
    method RebuildTxIndex(list: seq<Block>, pays: map<nat, seq<Payout>>) returns (ok: bool)
      modifies this`txIndex, this`payouts
      ensures reliable ==> ok
      ensures ok ==>
        txIndex == AddAll(Empty(tickets), list, pays).txIndex && payouts == AddAll(Empty(tickets), list, pays).payouts
      ensures !ok ==> Contents() == old(Contents())
    {
      var failed := Fails();
      if failed {
        return false;
      }
      var table: map<Bytes, Record>, lp: map<nat, seq<Payout>> := map[], map[];
      assert list[..0] == [];
      for i := 0 to |list|
        invariant table == AddAll(Empty(tickets), list[..i], pays).txIndex
        invariant lp == AddAll(Empty(tickets), list[..i], pays).payouts
      {
        hide BlockEntries;
        table, lp := AddEntries(table, lp, list[i], Lookup(pays, list[i].index));
        assert Front(list[..i + 1]) == list[..i];
      }
      assert list[..|list|] == list;
      txIndex, payouts := table, lp;
      return true;
    }

    // Deep reorg: index, payouts and tickets from scratch, from whatever the block table holds.
    // The transactions of every block, filed one block after the other.
    static method IndexBlocks(list: seq<Block>) returns (table: map<Bytes, Record>)
      ensures table == IndexOf(list, NoPayouts(|list|))
    {
      table := map[];
      assert list[..0] == [];
      for i := 0 to |list|
        invariant table == IndexOf(list[..i], NoPayouts(i))
      {
        table := InsertTxs(table, list[i]);
        EntriesSplit(list[i], []);
        assert Front(list[..i + 1]) == list[..i] && Front(NoPayouts(i + 1)) == NoPayouts(i);
      }
      assert list[..|list|] == list;
    }

    lemma ContentsIs()
      ensures Contents() == Store(blocks, txIndex, tickets, payouts)
    {
    }

    method RebuildIndicesWithTickets(ts: seq<Ticket>, pays: map<nat, seq<Payout>>) returns (ok: bool)
      modifies this`txIndex, this`tickets, this`payouts
      ensures reliable ==> ok
      ensures !ok ==> Contents() == old(Contents())
      ensures ok ==>
        forall chain, bySeq :: blocks == BlockTable(chain) && Fits(chain, bySeq) && Tabulates(pays, bySeq) ==>
          Contents() == SpecOf(chain, bySeq, TicketTable(ts))
    {
      hide *;
      ContentsIs();
      ghost var ks;
      var loaded;
      loaded, ks := LoadCanonicalChain();
      var failed := Fails();
      if failed || loaded.None? {
        return false;
      }
      var list := loaded.value;
      var table := IndexBlocks(list);
      ghost var lottery;
      var full, lp;
      full, lp, lottery := WritePayouts(table, pays);
      var newTickets := WriteTickets(ts);
      txIndex, tickets, payouts := full, newTickets, lp;
      ContentsIs();
      RebuiltForAll(list, blocks, pays, lottery, TicketTable(ts), full, lp);
      return true;
    }

    // One page of an address's transactions, newest first. The slice that reads
    // the height needs keys long enough to hold it.
    method GetTransactionsForAddress(a: Address, offset: nat, limit: nat) returns (r: Option<seq<TxRecord>>)
      requires forall k :: k in txIndex && InRange(k, a) ==> |k| >= |a| + 9
      ensures reliable ==> r.Some?
      ensures r.Some? ==>
        forall chain, pays ::
          Fits(chain, pays) && txIndex == IndexOf(chain, pays) && Clean(chain, pays) && NoZero(a) ==>
            r.value == Page(Reverse(RecordsOf(HistoryOf(chain, pays, a))), offset, limit)
      // What that shows.
      ensures r.Some? ==>
        forall chain, pays ::
          Fits(chain, pays) && txIndex == IndexOf(chain, pays) && Clean(chain, pays) && NoZero(a) ==>
            exists all :: NewestFirst(all, chain, pays, a) && Shows(r.value, all, offset, limit)
    {
      var failed := Fails();
      if failed {
        return None;
      }
      var start, end := a + [0], a + [1];
      var keys := BytesInOrder(set k | k in txIndex && !Less(k, start) && Less(k, end));
      assert ListsBytes(keys, RangeKeys(txIndex, a));
      var records: seq<TxRecord> := [];
      var i := offset;
      hide MakeTxKey, BigEndian, InRange;
      while i < |keys| && |records| < limit
        invariant offset <= i && |records| == i - offset <= limit && (i > offset ==> i <= |keys|)
        invariant forall j :: 0 <= j < |records| ==> records[j] == DecodeAt(txIndex, a, keys, |keys| - 1 - (offset + j))
        decreases |keys| - i
      {
        var key := keys[|keys| - 1 - i];
        assert key in RangeKeys(txIndex, a);
        records := records + [TxRecord(BigEndian(key[|a| + 1..|a| + 9]), txIndex[key])];
        i := i + 1;
      }
      PageOfAny(txIndex, a, keys, records, offset, limit);
      return Some(records);
    }
  }
}
