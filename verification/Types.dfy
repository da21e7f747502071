/**
 The values every other module speaks about: transactions, headers, blocks, accounts,
 network parameters and the validation codes.

 SHA-256 is modelled as an ideal hash: a digest is a free term that records what was
 hashed, so equal digests mean equal preimages. Ed25519, Argon2id, the address of a
 public key and the difficulty schedule are function-valued network parameters.
 */
module Types {

  datatype Option<+T> = None | Some(value: T)

  /** A value, or the validation code that rejected it. */
  datatype Result<+T> = Ok(value: T) | Err(error: Error) {
    predicate IsFailure() { Err? }
    function PropagateFailure<U>(): Result<U> requires Err? { Err(error) }
    function Extract(): T requires Ok? { value }
  }

  datatype Error =
    | BadHeight | BadPrevId | TimeTooOld | BadTarget | BadPow | BadSnapshotRoot | TimeTooNew
    | BadVersion | BlockTooLarge | MissingCoinbase | ExtraCoinbase | BadCoinbaseHeight
    | DuplicateTransaction | BadMerkleRoot
    | WrongNetwork | MemoTooLarge | BadAddress | BadAmount | BadOutputCount | BadFee
    | AmountOverflow | BadSignature
    | BalanceOverflow | BadNonce | InsufficientFunds | BadCoinbaseAmount
    | BadGenesis | KnownInvalid | InvalidParent | UnknownParent | ForkBelowFinality | ChunkNotNext
    | MissingContext
    | NotATransfer | AlreadyKnown | FeeTooLow | NonceTooLow | NonceGap | TooManyPending
    | ReplacementFeeTooLow | MempoolFull
    | DoesNotFit | BadData | TooLarge

  type Byte = x: int | 0 <= x < 256
  type Bytes = seq<Byte>

  /** A 21-byte payload, identified with its big-endian value (which keeps the byte order). */
  type Address = nat

  // The largest amount or balance the protocol allows.
  const MAX_AMOUNT: nat := 0x7fff_ffff_ffff_ffff
  const MAX_OUTPUTS: nat := 255
  const MAX_MEMO_SIZE: nat := 255
  const BLOCK_VERSION: nat := 1
  const HEADER_SIZE: nat := 156
  const TWO_160: nat := 0x1_0000000000_0000000000_0000000000_0000000000
  const TWO_256: nat :=
    0x1_0000000000_0000000000_0000000000_0000000000_0000000000_0000000000_0000

  datatype Output = Output(address: Address, amount: nat)

  datatype Transaction =
    | Transfer(networkId: nat, publicKey: Bytes, nonce: nat, fee: nat,
               outputs: seq<Output>, memo: Bytes, signature: Bytes)
    | Coinbase(networkId: nat, height: nat, address: Address, amount: nat, memo: Bytes)

  /** `D` is what stands in the three 32-byte places: a digest, or raw bytes on the wire. */
  datatype Header<D> = Header(version: nat, height: nat, prevId: D, merkleRoot: D,
                              snapshotRoot: D, timestamp: nat, target: nat, nonce: nat)

  type BlockHeader = Header<Digest>

  /** What a Merkle leaf holds: an id, or one account record (address, balance, nonce). */
  datatype Leaf = IdLeaf(id: Digest) | AccountLeaf(address: Address, account: Account)

  /** Ideal SHA-256 outputs, and the 32-byte strings that are none of them. */
  datatype Digest =
    | Raw(code: nat)
    | HeaderHash(header: Header<Digest>)
    | TxHash(tx: Transaction)
    | EmptyHash
    | LeafHash(leaf: Leaf)
    | NodeHash(left: Digest, right: Digest)

  datatype Block = Block(header: BlockHeader, txs: seq<Transaction>) {
    function Id(): Digest { HeaderHash(header) }
  }

  datatype Account = Account(balance: nat, nonce: nat)
  const EMPTY_ACCOUNT := Account(0, 0)

  // Header value for blocks that come before the first snapshot.
  const NO_SNAPSHOT := Raw(0)

  type Accounts = map<Address, Account>

  datatype Params = Params(
    networkId: nat,
    powLimit: nat,
    blockReward: nat,
    coinbaseMaturity: nat,
    finalityDepth: nat,
    chunkSize: nat,
    snapshotDelay: nat,
    maxBlockSize: nat,
    medianTimeSpan: nat,
    maxFutureDrift: nat,
    genesis: Block,
    nextTarget: BlockHeader -> nat,       // difficulty.next_target for a child of this header
    meetsTarget: BlockHeader -> bool,     // Argon2id(header) <= header.target
    validSignature: Transaction -> bool,  // Ed25519 over the unsigned bytes
    addressOf: Bytes -> Address           // payload_from_public_key
  )

  /** What NetworkParams enforces, plus maturity and time span of at least one block. */
  predicate ValidParams(p: Params) {
    && p.chunkSize >= 2
    && p.snapshotDelay < p.chunkSize
    && p.coinbaseMaturity >= 1
    && p.medianTimeSpan >= 1
    && IsGenesis(p)
  }

  /** The shape build_genesis gives to block 0. */
  predicate IsGenesis(p: Params) {
    && p.genesis.header.height == 0
    && p.genesis.header.prevId == Raw(0)
    && p.genesis.header.snapshotRoot == NO_SNAPSHOT
    && |p.genesis.txs| == 1
    && p.genesis.txs[0].Coinbase?
    && p.genesis.txs[0].height == 0
    && p.genesis.txs[0].amount == p.blockReward
  }

  function Sender(p: Params, tx: Transaction): Address
    requires tx.Transfer?
  {
    p.addressOf(tx.publicKey)
  }

  function SumAmounts(outputs: seq<Output>): nat {
    if outputs == [] then 0
    else SumAmounts(outputs[..|outputs| - 1]) + outputs[|outputs| - 1].amount
  }

  /** What these outputs pay the address. */
  function AmountTo(outputs: seq<Output>, a: Address): nat {
    if outputs == [] then 0
    else
      var last := outputs[|outputs| - 1];
      AmountTo(outputs[..|outputs| - 1], a) + if last.address == a then last.amount else 0
  }

  function PaidTo(tx: Transaction, a: Address): nat {
    if tx.Transfer? then AmountTo(tx.outputs, a) else 0
  }

  function TotalSpent(tx: Transaction): nat
    requires tx.Transfer?
  {
    SumAmounts(tx.outputs) + tx.fee
  }

  /** Encoded length of a transaction (Codec proves it). */
  function TxSize(tx: Transaction): nat {
    match tx
    case Transfer(_, _, _, _, outputs, memo, _) => 117 + 29 * |outputs| + |memo|
    case Coinbase(_, _, _, _, memo) => 41 + |memo|
  }

  function SumSizes(txs: seq<Transaction>): nat {
    if txs == [] then 0 else SumSizes(txs[..|txs| - 1]) + TxSize(txs[|txs| - 1])
  }

  function BlockSize(b: Block): nat {
    HEADER_SIZE + 4 + SumSizes(b.txs)
  }

  /** Expected number of hashes for a block at this target: how often its range of passing hashes fits into all. */
  function BlockWork(target: nat): (work: nat)
    ensures target < TWO_256 ==> work >= 1
  {
    TWO_256 / (target + 1)
  }

  lemma Quotient(n: nat, d: nat)
    requires d > 0
    ensures (n / d) * d <= n < (n / d + 1) * d
    ensures d <= n ==> n / d >= 1
  {
    assert n == d * (n / d) + n % d;
  }

  function SetOf<T>(s: seq<T>): set<T> { set x | x in s }

  lemma SomethingIn<T>(s: seq<T>)
    ensures s == [] || exists x :: x in s
  {
    if s != [] { assert s[0] in s; }
  }
}
