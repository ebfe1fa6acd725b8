/**
  The protocol's records. Constructor checks of the source appear as subset types, and hashes are a
  free algebra: one constructor per hashing domain, so two digests are equal exactly when domain and
  payload are.
 */
module Types {
  import opened Prelude
  import opened Values

  newtype byte = b: int | 0 <= b < 256

  type Bytes = seq<byte>

  /** A path in the sparse Merkle tree, most significant bit first. */
  type Bits = seq<bool>

  const TREE_DEPTH: nat := 256

  type Key = k: Bits | |k| == TREE_DEPTH witness seq(TREE_DEPTH, _ => false)

  type positive = n: nat | 0 < n witness 1

  /** An account address, identified with its tree key: the address hash is taken to be injective. */
  datatype Address = Address(key: Key)

  function AddrKey(a: Address): Key {
    a.key
  }

  /** A public key file; several encodings may carry the same key, hence the same address. */
  datatype PublicKey = PublicKey(address: Address, armor: nat)

  datatype Hash =
    | OpaqueHash(n: nat)
    | EmptyLeafHash
    | NodeHash(left: Hash, right: Hash)
    | LeafHash(key: Bits, value: Hash)
    | AccountLeafHash(leaf: AccountLeaf)
    | BundleBodyHash(sidecar: Sidecar)
    | ClaimSetHash(ranges: seq<ValueRange>)
    | EnvelopeDigest(payload: SigningPayload)
    | BlockIdHash(id: BlockId)
    | MerkleEmptyHash
    | DiffLeafHash(entry: DiffEntry)
    | DiffNodeHash(left: Hash, right: Hash)
    | EmptyDiffRootHash

  const ZERO_HASH := OpaqueHash(0)

  datatype BundleRef = BundleRef(height: nat, blockHash: Hash, bundleHash: Hash, seqNo: positive)

  datatype OffChainTx_ = OffChainTx(
    sender: Address,
    recipient: Address,
    values: seq<ValueRange>,
    localIndex: nat,
    time: int,
    extra: Bytes)

  /** A transfer names at least one range; its ranges are sorted and do not overlap. */
  type OffChainTx = t: OffChainTx_ | t.values != [] && Ascending(t.values)
    witness OffChainTx(
      Address(seq(TREE_DEPTH, _ => false)), Address(seq(TREE_DEPTH, _ => false)), [Range(0, 0)], 0, 0, [])

  datatype Sidecar_ = Sidecar(sender: Address, txs: seq<OffChainTx>)

  /** Every transfer in a bundle is sent by the bundle's sender. */
  type Sidecar = s: Sidecar_ | forall i :: 0 <= i < |s.txs| ==> s.txs[i].sender == s.sender
    witness Sidecar(Address(seq(TREE_DEPTH, _ => false)), [])

  datatype Signature = NoSignature | Signed(signer: Address, digest: Hash, nonce: nat)

  datatype SigningPayload = SigningPayload(
    version: nat,
    chainId: nat,
    seqNo: positive,
    expiryHeight: nat,
    fee: nat,
    antiSpamNonce: nat,
    bundleHash: Hash,
    claimSetHash: Option<Hash>)

  datatype Envelope = Envelope(payload: SigningPayload, sig: Signature)

  datatype Submission = Submission(envelope: Envelope, sidecar: Sidecar, publicKey: PublicKey)

  datatype AccountLeaf = AccountLeaf(
    addr: Address,
    headRef: Option<BundleRef>,
    prevRef: Option<BundleRef>,
    claimSetHash: Option<Hash>)

  datatype DiffEntry = DiffEntry(addrKey: Key, newLeaf: AccountLeaf, envelope: Envelope, bundleHash: Hash)

  datatype BlockId = BlockId(
    version: nat,
    chainId: nat,
    height: nat,
    prevBlockHash: Hash,
    timestamp: nat,
    proposerSig: Bytes,
    consensusExtra: Bytes,
    addrKeys: seq<Key>,
    bundleHashes: seq<Hash>)

  datatype SmtProof = SmtProof(siblings: seq<Hash>, existence: bool)

  /** Hashes of the off-path nodes, by their bit prefix, shared by several keys. */
  datatype MultiProof = MultiProof(depth: nat, keys: seq<Bits>, nodes: map<Bits, Hash>)

  datatype HeaderLite = HeaderLite(height: nat, blockHash: Hash, stateRoot: Hash)

  datatype BatchId = BatchId(height: nat, blockHash: Hash)

  datatype ProofBatch = ProofBatch(batchId: BatchId, stateRoot: Hash, multiProof: MultiProof)

  /** A receipt carries exactly one proof form. */
  datatype ReceiptProof = Single(proof: SmtProof) | Batched(batchId: BatchId, key: Key)

  datatype Receipt = Receipt(
    header: HeaderLite,
    seqNo: positive,
    prevRef: Option<BundleRef>,
    claimSetHash: Option<Hash>,
    proof: ReceiptProof)

  datatype ConfirmedUnit = ConfirmedUnit(receipt: Receipt, sidecar: Sidecar)

  datatype Checkpoint = Checkpoint(
    value: ValueRange,
    owner: Address,
    height: nat,
    blockHash: Hash,
    bundleHash: Hash)
  {
    predicate Matches(v: ValueRange, ownerAddr: Address) {
      owner == ownerAddr && value == v
    }
  }

  datatype Anchor =
    | GenesisAnchor(genesisBlockHash: Hash, firstOwner: Address, range: ValueRange)
    | CheckpointAnchor(checkpoint: Checkpoint)
    | PriorWitnessLink(acquireTx: OffChainTx, prior: Witness)

  /** An ownership history: the current owner's confirmed bundles, newest first, then where the value came from. */
  datatype Witness = Witness(
    value: ValueRange,
    owner: Address,
    chain: seq<ConfirmedUnit>,
    anchor: Anchor)

  datatype TransferPackage = TransferPackage(tx: OffChainTx, value: ValueRange, history: Witness)

  datatype Header = Header(
    version: nat,
    chainId: nat,
    height: nat,
    prevBlockHash: Hash,
    stateRoot: Hash,
    diffRoot: Hash,
    timestamp: nat,
    proposerSig: Bytes,
    consensusExtra: Bytes)

  datatype Block_ = Block(
    blockHash: Hash,
    header: Header,
    entries: seq<DiffEntry>,
    sidecars: seq<Sidecar>,
    publicKeys: seq<PublicKey>)

  /** The diff package check: one sidecar an entry, and one public key an entry unless there are none. */
  type Block = b: Block_ |
    |b.sidecars| == |b.entries| && (b.publicKeys != [] ==> |b.publicKeys| == |b.entries|)
    witness Block(ZERO_HASH, Header(0, 0, 0, ZERO_HASH, ZERO_HASH, ZERO_HASH, 0, [], []), [], [], [])
}
