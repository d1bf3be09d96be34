/** The wire entities of lootcoin-core and the protocol constants. */
module Types {
  import opened Prelude

  type Address = Bytes
  type Hash = Bytes
  type Signature = Bytes

  const MIN_TX_FEE := 2
  const MAX_BLOCK_TXS := 240
  const REVEAL_BLOCKS := 100
  const PPM := 1_000_000
  const SMALL_BUCKET_START := 620_000
  const MEDIUM_BUCKET_START := 982_500
  const LARGE_BUCKET_START := 999_200
  const JACKPOT_BUCKET_START := 999_900
  const SMALL_DIVISOR := 400_000
  const MEDIUM_DIVISOR := 30_000
  const LARGE_DIVISOR := 2_000
  const JACKPOT_DIVISOR := 500

  const MIN_DIFFICULTY := 8.0
  const MAX_DIFFICULTY := 127.0
  const TARGET_BLOCK_TIME_SECS := 60
  const ASERT_HALFLIFE_SECS := 3600.0
  const MTP_WINDOW := 11
  const MAX_FUTURE_SECS := 120
  const REORG_WINDOW := 100
  const MAX_ORPHAN_DEPTH := 10
  const MAX_ORPHANS_PER_HEIGHT := 3
  const MAX_ORPHAN_POOL_SIZE := 30

  datatype Tx = Tx(
    sender: Address,
    receiver: Address,
    amount: u64,
    fee: u64,
    nonce: u64,
    publicKey: Bytes,
    signature: Signature)
  {
    predicate Coinbase() {
      sender == []
    }

    function Cost(): nat {
      amount + fee
    }
  }

  datatype Header = Header(index: u64, previousHash: Hash, timestamp: u64, nonce: u64, txRoot: Hash)

  datatype Block = Block(
    index: u64,
    previousHash: Hash,
    timestamp: u64,
    nonce: u64,
    txRoot: Hash,
    transactions: seq<Tx>,
    hash: Hash)
  {
    function HeaderOf(): Header {
      Header(index, previousHash, timestamp, nonce, txRoot)
    }

    // extract_miner_address: the receiver of a leading coinbase.
    function Miner(): Option<Address> {
      if |transactions| > 0 && transactions[0].Coinbase() then Some(transactions[0].receiver) else None
    }

    function Minted(): u64 {
      if |transactions| > 0 && transactions[0].Coinbase() then transactions[0].amount else 0
    }
  }

  datatype Ticket = Ticket(miner: Address, createdHeight: nat)

  // At most one ticket per height, oldest first.
  ghost predicate Rising(ts: seq<Ticket>) {
    forall i, j :: 0 <= i < j < |ts| ==> ts[i].createdHeight < ts[j].createdHeight
  }

  datatype Tier = NoWin | Small | Medium | Large | Jackpot

  datatype Payout = Payout(receiver: Address, amount: u64, tier: Tier)

  // The cryptography and codecs the node links against, kept uninterpreted.
  // `depth` is a rank on hashes: it exists only so that `Sound` can say that
  // no chain of previous-hash links ever closes on itself.
  datatype Crypto = Crypto(
    headerHash: Header -> Hash,
    txRoot: seq<Tx> -> Hash,
    verifies: Tx -> bool,
    decodes: Address -> bool,
    meets: (Hash, real) -> bool,
    lotteryWord: (Bytes, nat, Address) -> u64,
    depth: Hash -> nat)

  ghost predicate Injective(c: Crypto) {
    forall g: Header, h: Header :: c.headerHash(g) == c.headerHash(h) ==> g == h
  }

  ghost predicate Acyclic(c: Crypto) {
    forall h: Header :: c.depth(h.previousHash) < c.depth(c.headerHash(h))
  }

  ghost predicate Sound(c: Crypto) {
    Injective(c) && Acyclic(c)
  }
}
