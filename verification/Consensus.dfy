/** What `update_state` decides and computes, as functions of the block window and the derived state. */
module Consensus {
  import opened Prelude
  import opened Types

  datatype Anchor = Anchor(height: nat, timestamp: u64, difficulty: real)

  datatype Ledger = Ledger(
    balances: map<Address, u64>,
    confirmed: set<Signature>,
    tickets: seq<Ticket>,
    pot: u64,
    difficulty: real,
    anchor: Option<Anchor>,
    work: nat)

  // The part of the node that block validation reads: the cached blocks, the
  // chain index of the first of them, and the derived state.
  datatype View = View(blocks: seq<Block>, offset: nat, ledger: Ledger) {
    function Height(): nat {
      offset + |blocks|
    }
  }

  function Balance(l: Ledger, a: Address): u64 {
    Get(l.balances, a)
  }

  ghost function Supply(l: Ledger): nat {
    Sum(l.balances) + l.pot
  }

  // -------------------------------------------------------------------------
  // Median Time Past
  // -------------------------------------------------------------------------

  function Insert(x: u64, s: seq<u64>): (r: seq<u64>)
    ensures |r| == |s| + 1
  {
    if s == [] || x <= s[0] then [x] + s else [s[0]] + Insert(x, s[1..])
  }

  function Sort(s: seq<u64>): (r: seq<u64>)
    ensures |r| == |s|
  {
    if s == [] then [] else Insert(s[0], Sort(s[1..]))
  }

  // The `n` newest timestamps, newest first.
  function Newest(blocks: seq<Block>, n: nat): (r: seq<u64>)
    requires n <= |blocks|
    ensures |r| == n && forall i :: 0 <= i < n ==> r[i] == blocks[|blocks| - 1 - i].timestamp
  {
    if n == 0 then [] else Newest(blocks, n - 1) + [blocks[|blocks| - n].timestamp]
  }

  // Those the median is taken of.
  function Recent(blocks: seq<Block>): (r: seq<u64>)
    ensures |r| == Min(MTP_WINDOW, |blocks|)
  {
    Newest(blocks, Min(MTP_WINDOW, |blocks|))
  }

  function MedianTimePast(blocks: seq<Block>): u64
    requires |blocks| > 0
  {
    Sort(Recent(blocks))[|Recent(blocks)| / 2]
  }

  // -------------------------------------------------------------------------
  // Validation
  // -------------------------------------------------------------------------

  function CountTransfers(txs: seq<Tx>): nat {
    if txs == [] then 0 else CountTransfers(Front(txs)) + if Last(txs).Coinbase() then 0 else 1
  }

  // The block-level rules: everything before the transaction pre-check.
  predicate WellFormed(c: Crypto, b: Block) {
    && c.headerHash(b.HeaderOf()) == b.hash
    && CountTransfers(b.transactions) <= MAX_BLOCK_TXS
    && (forall i :: 1 <= i < |b.transactions| ==> !b.transactions[i].Coinbase())
    && (|b.transactions| > 0 && b.transactions[0].Coinbase() ==>
          b.transactions[0].amount <= 1 && b.transactions[0].fee == 0 && c.decodes(b.transactions[0].receiver))
    && c.txRoot(b.transactions) == b.txRoot
  }

  // Coins `a` must hand over in `txs`: amount plus fee of each of its transfers.
  function Spent(txs: seq<Tx>, a: Address): nat {
    if txs == [] then 0
    else Spent(Front(txs), a) + if !Last(txs).Coinbase() && Last(txs).sender == a then Last(txs).Cost() else 0
  }

  // Coins `a` is paid in `txs`, coinbase included.
  function Received(txs: seq<Tx>, a: Address): nat {
    if txs == [] then 0
    else Received(Front(txs), a) + if Last(txs).receiver == a then Last(txs).amount else 0
  }

  ghost predicate TransferOk(c: Crypto, l: Ledger, tx: Tx) {
    && c.verifies(tx)
    && tx.fee >= MIN_TX_FEE
    && c.decodes(tx.receiver)
    && tx.signature !in l.confirmed
    && tx.Cost() <= U64_MAX
  }

  // What the pre-validation loop is meant to establish, said without the loop:
  // each transfer is sound on its own, no signature repeats, and at every point
  // of the block the sender can pay all of its transfers so far from the
  // balance it had before the block.
  ghost predicate PreValid(c: Crypto, l: Ledger, txs: seq<Tx>) {
    (forall i :: 0 <= i < |txs| && !txs[i].Coinbase() ==> PaysAt(c, l, txs, i)) && DistinctSignatures(txs)
  }

  ghost predicate PaysAt(c: Crypto, l: Ledger, txs: seq<Tx>, i: nat)
    requires i < |txs|
  {
    TransferOk(c, l, txs[i]) && Spent(txs[..i + 1], txs[i].sender) <= Balance(l, txs[i].sender)
  }

  ghost predicate DistinctSignatures(txs: seq<Tx>) {
    forall i, j :: 0 <= i < j < |txs| && !txs[i].Coinbase() && !txs[j].Coinbase() ==>
      txs[i].signature != txs[j].signature
  }

  // Everything `update_state` checks except the wall-clock bound.
  ghost predicate Admissible(c: Crypto, v: View, b: Block)
    requires |v.blocks| > 0
  {
    && b.index == v.Height()
    && b.previousHash == Last(v.blocks).hash
    && b.timestamp > MedianTimePast(v.blocks)
    && c.meets(b.hash, v.ledger.difficulty)
    && WellFormed(c, b)
    && PreValid(c, v.ledger, b.transactions)
  }

  // -------------------------------------------------------------------------
  // Lottery
  // -------------------------------------------------------------------------

  function IsDue(t: Ticket, index: nat): bool {
    t.createdHeight + REVEAL_BLOCKS == index
  }

  function Due(ts: seq<Ticket>, index: nat): seq<Ticket> {
    if ts == [] then []
    else Due(Front(ts), index) + if IsDue(Last(ts), index) then [Last(ts)] else []
  }

  function NotDue(ts: seq<Ticket>, index: nat): seq<Ticket> {
    if ts == [] then []
    else NotDue(Front(ts), index) + if IsDue(Last(ts), index) then [] else [Last(ts)]
  }

  // block_hash_at
  function HashAt(blocks: seq<Block>, offset: nat, index: nat): Option<Hash> {
    if index < offset || index - offset >= |blocks| then None else Some(blocks[index - offset].hash)
  }

  // The hashes of [start, start + n) that the window still holds, concatenated.
  function Entropy(blocks: seq<Block>, offset: nat, start: nat, n: nat): Bytes {
    if n == 0 then []
    else
      Entropy(blocks, offset, start, n - 1) +
      match HashAt(blocks, offset, start + n - 1)
      case None => []
      case Some(h) => h
  }

  function TierOf(bucket: nat): Tier {
    if bucket < SMALL_BUCKET_START then NoWin
    else if bucket < MEDIUM_BUCKET_START then Small
    else if bucket < LARGE_BUCKET_START then Medium
    else if bucket < JACKPOT_BUCKET_START then Large
    else Jackpot
  }

  function Prize(tier: Tier, pot: u64): u64 {
    match tier
    case NoWin => 0
    case Small => pot / SMALL_DIVISOR
    case Medium => pot / MEDIUM_DIVISOR
    case Large => pot / LARGE_DIVISOR
    case Jackpot => pot / JACKPOT_DIVISOR
  }

  function Draw(c: Crypto, blocks: seq<Block>, offset: nat, t: Ticket): Tier {
    TierOf(c.lotteryWord(Entropy(blocks, offset, t.createdHeight, REVEAL_BLOCKS), t.createdHeight, t.miner) % PPM)
  }

  // One settled ticket: pay at most the pot, record a payout only when coins move.
  function SettleOne(l: Ledger, t: Ticket, tier: Tier): Ledger {
    var payout := Min(Prize(tier, l.pot), l.pot);
    if payout > 0 then
      l.(pot := l.pot - payout, balances := l.balances[t.miner := WrapAdd(Get(l.balances, t.miner), payout)])
    else l
  }

  function PayoutOf(l: Ledger, t: Ticket, tier: Tier): seq<Payout> {
    var payout := Min(Prize(tier, l.pot), l.pot);
    if payout > 0 then [Payout(t.miner, payout, tier)] else []
  }

  function SettleAll(c: Crypto, blocks: seq<Block>, offset: nat, l: Ledger, due: seq<Ticket>): (Ledger, seq<Payout>) {
    if due == [] then (l, [])
    else
      var (l1, ps) := SettleAll(c, blocks, offset, l, Front(due));
      var tier := Draw(c, blocks, offset, Last(due));
      (SettleOne(l1, Last(due), tier), ps + PayoutOf(l1, Last(due), tier))
  }

  // Step 1 of applying a block.
  function Settle(c: Crypto, v: View, index: nat): (Ledger, seq<Payout>) {
    var kept := v.ledger.(tickets := NotDue(v.ledger.tickets, index));
    SettleAll(c, v.blocks, v.offset, kept, Due(v.ledger.tickets, index))
  }

  // -------------------------------------------------------------------------
  // Transactions and fees
  // -------------------------------------------------------------------------

  // apply_transaction: a transfer the sender cannot pay is skipped without a trace
  // beyond the zero balance entry it may create.
  function ApplyTx(l: Ledger, tx: Tx): Ledger {
    if tx.Coinbase() then
      l.(balances := l.balances[tx.receiver := WrapAdd(Get(l.balances, tx.receiver), tx.amount)])
    else
      var touched := l.balances[tx.sender := Get(l.balances, tx.sender)];
      if tx.Cost() > U64_MAX || Get(l.balances, tx.sender) < tx.Cost() then
        l.(balances := touched)
      else
        var debited := touched[tx.sender := Get(l.balances, tx.sender) - tx.Cost()];
        l.(balances := debited[tx.receiver := WrapAdd(Get(debited, tx.receiver), tx.amount)],
           pot := SatAdd(l.pot, tx.fee),
           confirmed := l.confirmed + {tx.signature})
  }

  // The transaction loop; None where the node aborts because a transfer was skipped.
  function ApplyAll(l: Ledger, txs: seq<Tx>): Option<Ledger> {
    if txs == [] then Some(l)
    else
      match ApplyAll(l, Front(txs))
      case None => None
      case Some(l1) =>
        var l2 := ApplyTx(l1, Last(txs));
        if !Last(txs).Coinbase() && Last(txs).signature !in l2.confirmed then None else Some(l2)
  }

  function TotalFees(txs: seq<Tx>): u64 {
    if txs == [] then 0
    else if Last(txs).Coinbase() then TotalFees(Front(txs))
    else SatAdd(TotalFees(Front(txs)), Last(txs).fee)
  }

  // Half of the fees, rounded down, moves from the pot to the miner.
  function SplitFees(l: Ledger, b: Block): Ledger {
    var share := TotalFees(b.transactions) / 2;
    if share > 0 && b.Miner().Some? then
      l.(pot := SatSub(l.pot, share),
         balances := l.balances[b.Miner().value := WrapAdd(Get(l.balances, b.Miner().value), share)])
    else l
  }

  // -------------------------------------------------------------------------
  // Tickets, work and difficulty
  // -------------------------------------------------------------------------

  predicate EarnsTicket(b: Block) {
    CountTransfers(b.transactions) > 0 && b.Miner().Some?
  }

  function Issued(b: Block): seq<Ticket> {
    if EarnsTicket(b) then [Ticket(b.Miner().value, b.index)] else []
  }

  function Clamp(d: real): real {
    if d < MIN_DIFFICULTY then MIN_DIFFICULTY else if d > MAX_DIFFICULTY then MAX_DIFFICULTY else d
  }

  // The ASERT schedule: the difficulty due after a block at `index` with this timestamp.
  // The product of u64 operands wraps.
  function Asert(a: Anchor, index: nat, timestamp: u64): real {
    var ideal := ((index - a.height) * TARGET_BLOCK_TIME_SECS) % U64_LIMIT;
    var actual := SatSub(timestamp, a.timestamp);
    Clamp(a.difficulty + (ideal as real - actual as real) / ASERT_HALFLIFE_SECS)
  }

  function Abs(x: real): real {
    if x < 0.0 then -x else x
  }

  const EPSILON := 0.000000001

  // `difficulty as u32` for the shift.
  function Truncate(d: real): nat {
    if d < 0.0 then 0 else d.Floor
  }

  function Retarget(l: Ledger, b: Block): Ledger {
    if b.index == 1 then l.(anchor := Some(Anchor(1, b.timestamp, l.difficulty)))
    else if l.anchor.Some? && l.anchor.value.difficulty >= MIN_DIFFICULTY then
      var d := Asert(l.anchor.value, b.index, b.timestamp);
      if Abs(d - l.difficulty) > EPSILON then l.(difficulty := d) else l
    else l
  }

  function Stamp(l: Ledger, b: Block): Ledger {
    Retarget(l.(tickets := l.tickets + Issued(b), work := SatAdd128(l.work, Shl128(Truncate(l.difficulty)))), b)
  }

  // -------------------------------------------------------------------------
  // The whole step
  // -------------------------------------------------------------------------

  datatype Effect = Aborts | Yields(ledger: Ledger, payouts: seq<Payout>)

  ghost predicate Conserves(before: Ledger, after: Ledger, b: Block) {
    Supply(after) == Supply(before) + b.Minted()
  }

  // The state after an admitted block, or the point where the node kills itself.
  ghost function Process(c: Crypto, v: View, b: Block): Effect {
    var (settled, payouts) := Settle(c, v, b.index);
    match ApplyAll(settled, b.transactions)
    case None => Aborts
    case Some(applied) =>
      var paid := SplitFees(applied, b);
      if Conserves(v.ledger, paid, b) then Yields(Stamp(paid, b), payouts) else Aborts
  }

  ghost predicate Accepts(c: Crypto, v: View, b: Block)
    requires |v.blocks| > 0
  {
    Admissible(c, v, b) && Process(c, v, b).Yields?
  }

  // Process, step by step.
  lemma ProcessSteps(c: Crypto, v: View, b: Block, settled: Ledger, ps: seq<Payout>)
    requires (settled, ps) == Settle(c, v, b.index)
    ensures ApplyAll(settled, b.transactions).None? ==> Process(c, v, b) == Aborts
    ensures ApplyAll(settled, b.transactions).Some? ==>
      var paid := SplitFees(ApplyAll(settled, b.transactions).value, b);
      Process(c, v, b) == if Supply(paid) == Supply(v.ledger) + b.Minted() then Yields(Stamp(paid, b), ps) else Aborts
  {
    hide Settle, ApplyAll, SplitFees, Stamp, Supply;
  }

  datatype Verdict = Refused | Died | Extended

  // What `update_state` answers at wall-clock time `now`; Died where the process aborts.
  ghost function Judge(c: Crypto, v: View, b: Block, now: nat): Verdict
    requires |v.blocks| > 0
  {
    if b.timestamp > now + MAX_FUTURE_SECS || !Admissible(c, v, b) then Refused
    else if Process(c, v, b).Aborts? then Died
    else Extended
  }
}
