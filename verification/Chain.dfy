/** What the chain does with a block, on values: producing one from pooled bundles, and applying one to a state. */
module Chains {
  import opened Prelude
  import opened Sorting
  import opened Types
  import opened ClaimSets
  import opened Ledger
  import opened SparseMerkle
  import opened ReceiptCaches
  import opened BundlePools

  /** The contents of the account tree: hashes of account leaves under full-length keys. */
  type AccountTree = values: map<Bits, Hash> | WellKeyed(TREE_DEPTH, values) witness map[]

  type Leaves = map<Address, AccountLeaf>

  datatype ChainConfig = ChainConfig(version: nat, limits: PoolLimits) {
    function ChainId(): nat {
      limits.chainId
    }
  }

  datatype ChainState = ChainState(
    config: ChainConfig,
    height: nat,
    blockHash: Hash,
    tree: AccountTree,
    leaves: Leaves,
    blocks: seq<Block>,
    cache: CacheState,
    pool: Pool)
  {
    function ConfirmedSeq(sender: Address): nat {
      if sender in leaves && leaves[sender].headRef.Some? then leaves[sender].headRef.value.seqNo else 0
    }
  }

  function InitialChain(config: ChainConfig, genesisBlockHash: Hash, cacheBlocks: positive): ChainState {
    ChainState(config, 0, genesisBlockHash, map[], map[], [], EmptyCache(cacheBlocks), map[])
  }

  datatype ChainError =
    | VersionMismatch
    | UnexpectedHeight
    | PrevHashMismatch
    | EntriesNotSorted
    | DuplicateAddrKey
    | MissingPublicKeys
    | BlockHashMismatch
    | DuplicateSender
    | EntrySenderMismatch
    | EntryBundleHashMismatch
    | EntryClaimMismatch
    | LeafClaimMismatch
    | EntrySignatureInvalid
    | EntryExpired
    | PrevRefMismatch
    | FirstSeqNotOne
    | SeqDiscontinuity
    | HeadRefMissing
    | HeadBundleHashMismatch
    | HeadBlockHashMismatch
    | DiffRootMismatch
    | StateRootMismatch

  datatype Applied = Applied(chain: ChainState, receipts: map<Address, Receipt>)

  datatype Produced = Produced(chain: ChainState, block: Block, receipts: map<Address, Receipt>)

  // ----- Entries into state

  function PutLeaves(leaves: Leaves, entries: seq<DiffEntry>): Leaves {
    if entries == [] then leaves
    else
      var last := entries[|entries| - 1];
      PutLeaves(leaves, entries[..|entries| - 1])[last.newLeaf.addr := last.newLeaf]
  }

  function PutValues(tree: AccountTree, entries: seq<DiffEntry>): AccountTree {
    if entries == [] then tree
    else
      var last := entries[|entries| - 1];
      PutValues(tree, entries[..|entries| - 1])[last.addrKey := AccountLeafHash(last.newLeaf)]
  }

  function HeadOf(leaves: Leaves, addr: Address): Option<BundleRef> {
    if addr in leaves then leaves[addr].headRef else None
  }

  // ----- Receipts

  predicate HaveHeads(entries: seq<DiffEntry>) {
    forall i :: 0 <= i < |entries| ==> entries[i].newLeaf.headRef.Some?
  }

  function ReceiptFor(header: HeaderLite, entry: DiffEntry, oldLeaves: Leaves, tree: AccountTree): Receipt {
    Receipt(header, entry.envelope.payload.seqNo, HeadOf(oldLeaves, entry.newLeaf.addr), entry.newLeaf.claimSetHash,
            Single(Prove(TREE_DEPTH, tree, entry.addrKey)))
  }

  function EmissionFor(header: HeaderLite, entry: DiffEntry, oldLeaves: Leaves, tree: AccountTree): Emission
    requires entry.newLeaf.headRef.Some?
  {
    Emission(entry.newLeaf.addr, ReceiptFor(header, entry, oldLeaves, tree), entry.newLeaf.headRef.value)
  }

  function Emissions(header: HeaderLite, entries: seq<DiffEntry>, oldLeaves: Leaves, tree: AccountTree): seq<Emission>
    requires HaveHeads(entries)
  {
    seq(|entries|, i requires 0 <= i < |entries| && HaveHeads(entries) => EmissionFor(header, entries[i], oldLeaves, tree))
  }

  function ReceiptsOf(emissions: seq<Emission>): map<Address, Receipt> {
    if emissions == [] then map[]
    else
      var last := emissions[|emissions| - 1];
      ReceiptsOf(emissions[..|emissions| - 1])[last.sender := last.receipt]
  }

  function BatchFor(header: HeaderLite, entries: seq<DiffEntry>, tree: AccountTree): ProofBatch {
    ProofBatch(BatchId(header.height, header.blockHash), header.stateRoot,
               MultiProofOf(TREE_DEPTH, tree, EntryKeys(entries)))
  }

  function RecordBlock(
      cache: CacheState, header: HeaderLite, entries: seq<DiffEntry>, oldLeaves: Leaves, tree: AccountTree): CacheState
    requires HaveHeads(entries)
  {
    if entries == [] then cache
    else
      WithReceipts(WithBatch(cache, header.height, BatchFor(header, entries, tree)),
                   Emissions(header, entries, oldLeaves, tree))
  }

  function RemoveEntries(pool: Pool, entries: seq<DiffEntry>): Pool {
    if entries == [] then pool
    else
      var last := entries[|entries| - 1];
      RemoveFinalized(RemoveEntries(pool, entries[..|entries| - 1]),
                      last.newLeaf.addr, last.envelope.payload.seqNo, last.bundleHash)
  }

  function RemoveSubmissions(pool: Pool, subs: seq<Submission>): Pool {
    if subs == [] then pool
    else
      var last := subs[|subs| - 1];
      RemoveFinalized(RemoveSubmissions(pool, subs[..|subs| - 1]),
                      last.sidecar.sender, last.envelope.payload.seqNo, last.envelope.payload.bundleHash)
  }

  // ----- Applying a block

  function HeaderError(c: ChainState, b: Block): (e: Option<ChainError>)
    ensures e.None? ==> |b.entries| == |b.publicKeys|
  {
    var h := b.header;
    if h.version != c.config.version || h.chainId != c.config.ChainId() then Some(VersionMismatch)
    else if h.height != c.height + 1 then Some(UnexpectedHeight)
    else if h.prevBlockHash != c.blockHash then Some(PrevHashMismatch)
    else if b.entries != Sort(b.entries, EntryLe) then Some(EntriesNotSorted)
    else if !DistinctKeys(b.entries) then Some(DuplicateAddrKey)
    else if |b.entries| != |b.publicKeys| then Some(MissingPublicKeys)
    else if DeriveBlockHash(h.version, h.chainId, h.height, h.prevBlockHash, h.timestamp, h.proposerSig,
                            h.consensusExtra, b.entries) != b.blockHash then Some(BlockHashMismatch)
    else None
  }

  /** The checks of one entry against its sidecar, its public key and the sender's old leaf. */
  function EntryError(leaves: Leaves, b: Block, i: nat): Option<ChainError>
    requires i < |b.entries| == |b.publicKeys|
  {
    var entry, sidecar, sender := b.entries[i], b.sidecars[i], b.publicKeys[i].address;
    var payload, leaf := entry.envelope.payload, entry.newLeaf;
    var seqError := SeqError(leaves, sender, payload.seqNo);
    if exists j :: 0 <= j < i && b.publicKeys[j].address == sender then Some(DuplicateSender)
    else if sender != sidecar.sender || sender != leaf.addr then Some(EntrySenderMismatch)
    else if BundleBodyHash(sidecar) != entry.bundleHash || entry.bundleHash != payload.bundleHash then Some(EntryBundleHashMismatch)
    else if !ClaimHashOk(payload.claimSetHash, sidecar) then Some(EntryClaimMismatch)
    else if leaf.claimSetHash != payload.claimSetHash then Some(LeafClaimMismatch)
    else if !VerifyEnvelope(entry.envelope, b.publicKeys[i]) then Some(EntrySignatureInvalid)
    else if payload.expiryHeight < b.header.height then Some(EntryExpired)
    else if leaf.prevRef != HeadOf(leaves, sender) then Some(PrevRefMismatch)
    else if seqError.Some? then seqError
    else if leaf.headRef.None? then Some(HeadRefMissing)
    else if leaf.headRef.value.bundleHash != entry.bundleHash then Some(HeadBundleHashMismatch)
    else if leaf.headRef.value.blockHash != b.blockHash then Some(HeadBlockHashMismatch)
    else None
  }

  function SeqError(leaves: Leaves, sender: Address, seqNo: nat): Option<ChainError> {
    if sender !in leaves then
      if seqNo != 1 then Some(FirstSeqNotOne) else None
    else if leaves[sender].headRef.None? then Some(HeadRefMissing)
    else if seqNo != leaves[sender].headRef.value.seqNo + 1 then Some(SeqDiscontinuity)
    else None
  }

  function FirstEntryError(leaves: Leaves, b: Block, i: nat): (e: Option<ChainError>)
    requires i <= |b.entries| == |b.publicKeys|
    ensures e.None? <==> forall j :: i <= j < |b.entries| ==> EntryError(leaves, b, j).None?
    decreases |b.entries| - i
  {
    if i == |b.entries| then None
    else if EntryError(leaves, b, i).Some? then EntryError(leaves, b, i)
    else FirstEntryError(leaves, b, i + 1)
  }

  lemma CheckedEntryHasHead(leaves: Leaves, b: Block, i: nat)
    requires i < |b.entries| == |b.publicKeys| && EntryError(leaves, b, i).None?
    ensures b.entries[i].newLeaf.headRef.Some?
  {
  }

  lemma {:induction false} CheckedEntriesHaveHeads(leaves: Leaves, b: Block)
    requires |b.entries| == |b.publicKeys| && FirstEntryError(leaves, b, 0).None?
    ensures HaveHeads(b.entries)
  {
    forall i | 0 <= i < |b.entries| ensures b.entries[i].newLeaf.headRef.Some? {
      CheckedEntryHasHead(leaves, b, i);
    }
  }

  function RootError(c: ChainState, b: Block): Option<ChainError> {
    if DiffRoot(b.entries) != b.header.diffRoot then Some(DiffRootMismatch)
    else if Root(TREE_DEPTH, PutValues(c.tree, b.entries)) != b.header.stateRoot then Some(StateRootMismatch)
    else None
  }

  function BlockError(c: ChainState, b: Block): (e: Option<ChainError>)
    ensures e.None? ==> |b.entries| == |b.publicKeys| && HaveHeads(b.entries)
  {
    var headerError := HeaderError(c, b);
    if headerError.Some? then headerError
    else
      var entryError := FirstEntryError(c.leaves, b, 0);
      if entryError.Some? then entryError
      else
        CheckedEntriesHaveHeads(c.leaves, b);
        RootError(c, b)
  }

  /** Every entry is signed by the account of its leaf, over its own payload. */
  ghost predicate SignedByOwners(entries: seq<DiffEntry>) {
    forall i :: 0 <= i < |entries| ==>
      && entries[i].envelope.sig.Signed? && entries[i].envelope.sig.signer == entries[i].newLeaf.addr
      && entries[i].envelope.sig.digest == EnvelopeDigest(entries[i].envelope.payload)
  }

  /** The checks of an entry include its signature. */
  lemma CheckedEntryIsSigned(leaves: Leaves, b: Block, i: nat)
    requires i < |b.entries| == |b.publicKeys| && EntryError(leaves, b, i).None?
    ensures var sig := b.entries[i].envelope.sig;
            sig.Signed? && sig.signer == b.entries[i].newLeaf.addr && sig.digest == EnvelopeDigest(b.entries[i].envelope.payload)
  {
  }

  lemma AcceptedBlockShape(c: ChainState, b: Block)
    requires BlockError(c, b).None?
    ensures SignedByOwners(b.entries)
    ensures HaveHeads(b.entries) && DistinctKeys(b.entries) && |b.entries| == |b.publicKeys|
    ensures Sort(b.entries, EntryLe) == b.entries
    ensures b.header.height == c.height + 1 && b.header.prevBlockHash == c.blockHash
    ensures b.blockHash.BlockIdHash? && b.blockHash.id.height == b.header.height
    ensures b.header.stateRoot == Root(TREE_DEPTH, PutValues(c.tree, b.entries))
    ensures forall i :: 0 <= i < |b.entries| ==> EntryError(c.leaves, b, i).None?
  {
    hide Root, DiffRoot, PutValues, Sort, EntryError;
    forall i | 0 <= i < |b.entries|
      ensures var sig := b.entries[i].envelope.sig;
              sig.Signed? && sig.signer == b.entries[i].newLeaf.addr && sig.digest == EnvelopeDigest(b.entries[i].envelope.payload)
    {
      CheckedEntryIsSigned(c.leaves, b, i);
    }
  }

  function LiteOf(b: Block): HeaderLite {
    HeaderLite(b.header.height, b.blockHash, b.header.stateRoot)
  }

  /** The state after a block that passes every check. */
  function Commit(c: ChainState, b: Block): Applied
    requires HaveHeads(b.entries)
  {
    var tree := PutValues(c.tree, b.entries);
    Applied(
      c.(height := b.header.height,
         blockHash := b.blockHash,
         tree := tree,
         leaves := PutLeaves(c.leaves, b.entries),
         blocks := c.blocks + [b],
         cache := RecordBlock(c.cache, LiteOf(b), b.entries, c.leaves, tree),
         pool := RemoveEntries(c.pool, b.entries)),
      ReceiptsOf(Emissions(LiteOf(b), b.entries, c.leaves, tree)))
  }

  function ApplyBlock(c: ChainState, b: Block): Result<Applied, ChainError> {
    var error := BlockError(c, b);
    if error.Some? then Err(error.value) else Ok(Commit(c, b))
  }

  // ----- Producing a block

  predicate SubmissionLe(x: Submission, y: Submission) {
    BitsLe(AddrKey(x.sidecar.sender), AddrKey(y.sidecar.sender))
  }

  function SortSubmissions(subs: seq<Submission>): (ordered: seq<Submission>)
    ensures |ordered| == |subs|
  {
    SortPermutes(subs, SubmissionLe);
    Sort(subs, SubmissionLe)
  }

  function EntryOf(leaves: Leaves, sub: Submission, height: nat, blockHash: Hash): DiffEntry {
    var sender, payload := sub.sidecar.sender, sub.envelope.payload;
    DiffEntry(
      AddrKey(sender),
      AccountLeaf(sender, Some(BundleRef(height, blockHash, payload.bundleHash, payload.seqNo)),
                  HeadOf(leaves, sender), payload.claimSetHash),
      sub.envelope,
      payload.bundleHash)
  }

  function PrepareEntries(leaves: Leaves, subs: seq<Submission>, height: nat, blockHash: Hash): seq<DiffEntry> {
    seq(|subs|, i requires 0 <= i < |subs| => EntryOf(leaves, subs[i], height, blockHash))
  }

  function SortedEntries(leaves: Leaves, subs: seq<Submission>, height: nat, blockHash: Hash): (entries: seq<DiffEntry>)
    ensures |entries| == |subs|
  {
    SortPermutes(PrepareEntries(leaves, subs, height, blockHash), EntryLe);
    Sort(PrepareEntries(leaves, subs, height, blockHash), EntryLe)
  }

  function NewBlockHash(
      c: ChainState, subs: seq<Submission>, timestamp: nat, proposerSig: Bytes, consensusExtra: Bytes): Hash
  {
    DeriveBlockHash(c.config.version, c.config.ChainId(), c.height + 1, c.blockHash, timestamp, proposerSig,
                    consensusExtra, SortedEntries(c.leaves, subs, c.height + 1, ZERO_HASH))
  }

  function AssembleBlock(
      c: ChainState, blockHash: Hash, ordered: seq<Submission>, entries: seq<DiffEntry>,
      timestamp: nat, proposerSig: Bytes, consensusExtra: Bytes): Block
    requires |ordered| == |entries|
  {
    Block(
      blockHash,
      Header(c.config.version, c.config.ChainId(), c.height + 1, c.blockHash,
             Root(TREE_DEPTH, PutValues(c.tree, entries)), DiffRoot(entries), timestamp, proposerSig, consensusExtra),
      entries,
      seq(|ordered|, i requires 0 <= i < |ordered| => ordered[i].sidecar),
      seq(|ordered|, i requires 0 <= i < |ordered| => ordered[i].publicKey))
  }

  function NewBlock(
      c: ChainState, subs: seq<Submission>, timestamp: nat, proposerSig: Bytes, consensusExtra: Bytes): (b: Block)
  {
    var ordered := SortSubmissions(subs);
    var blockHash := NewBlockHash(c, subs, timestamp, proposerSig, consensusExtra);
    AssembleBlock(c, blockHash, ordered, SortedEntries(c.leaves, ordered, c.height + 1, blockHash),
                  timestamp, proposerSig, consensusExtra)
  }

  lemma NewBlockHasHeads(
      c: ChainState, subs: seq<Submission>, timestamp: nat, proposerSig: Bytes, consensusExtra: Bytes)
    ensures HaveHeads(NewBlock(c, subs, timestamp, proposerSig, consensusExtra).entries)
  {
    hide NewBlockHash, Root, SortSubmissions, SortedEntries;
    SortedEntriesHaveHeads(c.leaves, SortSubmissions(subs), c.height + 1,
                           NewBlockHash(c, subs, timestamp, proposerSig, consensusExtra));
  }

  lemma SortedEntriesHaveHeads(leaves: Leaves, subs: seq<Submission>, height: nat, blockHash: Hash)
    ensures HaveHeads(SortedEntries(leaves, subs, height, blockHash))
  {
    var prepared := PrepareEntries(leaves, subs, height, blockHash);
    SortMembers(prepared, EntryLe);
    forall e | e in prepared ensures e.newLeaf.headRef.Some? {
    }
  }

  /** Packages the given bundles: the producer commits its own block without checking it. */
  function ExecuteSubmissions(
      c: ChainState, subs: seq<Submission>, timestamp: nat, proposerSig: Bytes, consensusExtra: Bytes): Produced
  {
    NewBlockHasHeads(c, subs, timestamp, proposerSig, consensusExtra);
    var b := NewBlock(c, subs, timestamp, proposerSig, consensusExtra);
    var tree := PutValues(c.tree, b.entries);
    Produced(
      c.(height := c.height + 1,
         blockHash := b.blockHash,
         tree := tree,
         leaves := PutLeaves(c.leaves, b.entries),
         blocks := c.blocks + [b],
         cache := RecordBlock(c.cache, LiteOf(b), b.entries, c.leaves, tree),
         pool := RemoveSubmissions(c.pool, subs)),
      b,
      ReceiptsOf(Emissions(LiteOf(b), b.entries, c.leaves, tree)))
  }

  function BuildBlock(
      c: ChainState, timestamp: nat, proposerSig: Bytes, consensusExtra: Bytes, limit: Option<nat>): Produced
  {
    ExecuteSubmissions(c, SnapshotOf(c.pool, limit), timestamp, proposerSig, consensusExtra)
  }

  // ----- Previews

  /** The position of a chain: everything but the blocks listed and the receipts cached so far. */
  function Bare(c: ChainState, maxBlocks: positive): ChainState {
    c.(blocks := [], cache := EmptyCache(maxBlocks))
  }

  lemma BareBlock(
      c: ChainState, maxBlocks: positive, subs: seq<Submission>, timestamp: nat, proposerSig: Bytes, consensusExtra: Bytes)
    ensures NewBlock(Bare(c, maxBlocks), subs, timestamp, proposerSig, consensusExtra)
         == NewBlock(c, subs, timestamp, proposerSig, consensusExtra)
  {
    assert NewBlockHash(Bare(c, maxBlocks), subs, timestamp, proposerSig, consensusExtra)
        == NewBlockHash(c, subs, timestamp, proposerSig, consensusExtra);
  }

  lemma ExecuteBare(
      c: ChainState, maxBlocks: positive, subs: seq<Submission>, timestamp: nat, proposerSig: Bytes, consensusExtra: Bytes)
    ensures var built := ExecuteSubmissions(c, subs, timestamp, proposerSig, consensusExtra);
            var preview := ExecuteSubmissions(Bare(c, maxBlocks), subs, timestamp, proposerSig, consensusExtra);
            preview.block == built.block && preview.receipts == built.receipts
  {
    BareBlock(c, maxBlocks, subs, timestamp, proposerSig, consensusExtra);
  }

  /** What a block holds does not depend on the blocks listed and the receipts cached so far. */
  lemma BuildIgnoresWindow(
      c: ChainState, maxBlocks: positive, timestamp: nat, proposerSig: Bytes, consensusExtra: Bytes, limit: Option<nat>)
    ensures var built := BuildBlock(c, timestamp, proposerSig, consensusExtra, limit);
            var preview := BuildBlock(Bare(c, maxBlocks), timestamp, proposerSig, consensusExtra, limit);
            preview.block == built.block && preview.receipts == built.receipts
  {
    ExecuteBare(c, maxBlocks, SnapshotOf(c.pool, limit), timestamp, proposerSig, consensusExtra);
  }

  function SubmitBundle(c: ChainState, sub: Submission, encodedSize: nat): Result<ChainState, PoolError> {
    var r := SubmitTo(c.pool, c.config.limits, sub, encodedSize, c.height, c.ConfirmedSeq(sub.publicKey.address));
    if r.Ok? then Ok(c.(pool := r.value)) else Err(r.error)
  }

  // ----- Tree completeness at the point of emission

  lemma {:induction false} PutValuesStoresLast(tree: AccountTree, entries: seq<DiffEntry>, i: nat)
    requires i < |entries| && DistinctKeys(entries)
    ensures entries[i].addrKey in PutValues(tree, entries)
    ensures PutValues(tree, entries)[entries[i].addrKey] == AccountLeafHash(entries[i].newLeaf)
  {
    var last := |entries| - 1;
    if i < last {
      PutValuesStoresLast(tree, entries[..last], i);
      assert entries[..last][i] == entries[i];
      assert entries[i].addrKey != entries[last].addrKey;
    }
  }

  /** The proof generated for a block's entry verifies, so the raise after the cache writes is never reached. */
  lemma {:induction false} GeneratedProofVerifies(tree: AccountTree, entries: seq<DiffEntry>, i: nat)
    requires i < |entries| && DistinctKeys(entries)
    ensures var after := PutValues(tree, entries);
            VerifyProof(Root(TREE_DEPTH, after), entries[i].addrKey, AccountLeafHash(entries[i].newLeaf),
                        Prove(TREE_DEPTH, after, entries[i].addrKey), TREE_DEPTH)
  {
    PutValuesStoresLast(tree, entries, i);
    ProveVerifies(TREE_DEPTH, PutValues(tree, entries), entries[i].addrKey, AccountLeafHash(entries[i].newLeaf));
  }
}
