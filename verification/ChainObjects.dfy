/** The mutable chain: its methods change the tree, the leaves, the receipt cache and the pool in place. */
module ChainObjects {
  import opened Prelude
  import opened Sorting
  import opened Types
  import opened ClaimSets
  import opened Ledger
  import opened SparseMerkle
  import opened ReceiptCaches
  import opened BundlePools
  import opened Chains

  class ChainStateV2 {
    const config: ChainConfig
    var currentHeight: nat
    var currentBlockHash: Hash
    var tree: SparseMerkleTree
    var accountLeaves: Leaves
    var blocks: seq<Block>
    const receiptCache: ReceiptCache
    const bundlePool: BundlePool

    ghost predicate Valid()
      reads this, tree
    {
      tree.depth == TREE_DEPTH && tree.Valid() && bundlePool.limits == config.limits
    }

    /** The state as a value. */
    function State(): ChainState
      requires Valid()
      reads this, tree, receiptCache, bundlePool
    {
      ChainState(config, currentHeight, currentBlockHash, tree.values, accountLeaves, blocks,
                 receiptCache.State(), bundlePool.pending)
    }

    constructor (config: ChainConfig, genesisBlockHash: Hash, cacheBlocks: int)
      ensures Valid() && fresh(tree) && fresh(receiptCache) && fresh(bundlePool)
      ensures State() == InitialChain(config, genesisBlockHash, if cacheBlocks < 1 then 1 else cacheBlocks)
    {
      this.config := config;
      currentHeight, currentBlockHash := 0, genesisBlockHash;
      tree := new SparseMerkleTree(TREE_DEPTH);
      accountLeaves, blocks := map[], [];
      receiptCache := new ReceiptCache(cacheBlocks);
      bundlePool := new BundlePool(config.limits);
    }

    method SubmitBundleTo(sub: Submission, encodedSize: nat) returns (r: Result<Address, PoolError>)
      requires Valid()
      modifies bundlePool
      ensures Valid()
      ensures var spec := SubmitBundle(old(State()), sub, encodedSize);
              && (spec.Ok? ==> r == Ok(sub.publicKey.address) && State() == spec.value)
              && (spec.Err? ==> r == Err(spec.error) && State() == old(State()))
    {
      var confirmed := State().ConfirmedSeq(sub.publicKey.address);
      r := bundlePool.Submit(sub, encodedSize, currentHeight, confirmed);
    }

    /**
      Checks the entries in order while building the new tree and leaves beside the old ones: on the first
      failing check nothing of the chain has been touched.
     */
    method StageEntries(b: Block) returns (e: Option<ChainError>, staged: SparseMerkleTree, leaves: Leaves)
      requires Valid() && |b.entries| == |b.publicKeys|
      ensures Valid() && State() == old(State())
      ensures e == FirstEntryError(State().leaves, b, 0)
      ensures fresh(staged) && staged.Valid() && staged.depth == TREE_DEPTH
      ensures e.None? ==> staged.values == PutValues(tree.values, b.entries) && leaves == PutLeaves(accountLeaves, b.entries)
    {
      hide EntryError;
      staged := new SparseMerkleTree(TREE_DEPTH, tree.values);
      leaves := accountLeaves;
      for i := 0 to |b.entries|
        invariant State() == old(State())
        invariant staged.Valid() && fresh(staged) && staged.depth == TREE_DEPTH
        invariant FirstEntryError(State().leaves, b, i) == FirstEntryError(State().leaves, b, 0)
        invariant staged.values == PutValues(tree.values, b.entries[..i])
        invariant leaves == PutLeaves(accountLeaves, b.entries[..i])
      {
        var error := EntryError(State().leaves, b, i);
        if error.Some? {
          return error, staged, leaves;
        }
        var entry := b.entries[i];
        assert b.entries[..i + 1][..i] == b.entries[..i];
        var _ := staged.Set(entry.addrKey, AccountLeafHash(entry.newLeaf));
        leaves := leaves[entry.newLeaf.addr := entry.newLeaf];
      }
      assert b.entries[..|b.entries|] == b.entries;
      e := None;
    }

    /**
      The receipt of one entry. A replica also checks the proof it has just generated: the check always
      passes, so the raise it guards is never reached.
     */
    method MakeReceipt(header: HeaderLite, entries: seq<DiffEntry>, i: nat, staged: SparseMerkleTree, replica: bool)
        returns (receipt: Receipt)
      requires Valid() && staged.Valid() && staged.depth == TREE_DEPTH && i < |entries|
      requires replica ==> DistinctKeys(entries) && staged.values == PutValues(tree.values, entries)
      requires replica ==> header.stateRoot == Root(TREE_DEPTH, staged.values)
      ensures receipt == ReceiptFor(header, entries[i], accountLeaves, staged.values)
    {
      var entry := entries[i];
      var proof := staged.ProveKey(entry.addrKey);
      if replica {
        var verified := CheckProof(header.stateRoot, entry.addrKey, AccountLeafHash(entry.newLeaf), proof.value, TREE_DEPTH);
        GeneratedProofVerifies(tree.values, entries, i);
        if !verified {
          assert false;
        }
      }
      receipt := Receipt(header, entry.envelope.payload.seqNo, HeadOf(accountLeaves, entry.newLeaf.addr),
                         entry.newLeaf.claimSetHash, Single(proof.value));
    }

    method AddBatch(header: HeaderLite, entries: seq<DiffEntry>, staged: SparseMerkleTree)
      requires Valid() && staged.Valid() && staged.depth == TREE_DEPTH
      modifies receiptCache
      ensures Valid()
      ensures receiptCache.State() == WithBatch(old(receiptCache.State()), header.height, BatchFor(header, entries, staged.values))
    {
      var multi := BuildMultiproof(staged, EntryKeys(entries));
      receiptCache.AddProofBatch(header.height, ProofBatch(BatchId(header.height, header.blockHash), header.stateRoot, multi.value));
    }

    static lemma {:induction false} EmissionsStep(started: CacheState, emissions: seq<Emission>, i: nat)
      requires i < |emissions|
      ensures WithReceipts(started, emissions[..i + 1]) == WithReceipt(WithReceipts(started, emissions[..i]), emissions[i])
      ensures ReceiptsOf(emissions[..i + 1]) == ReceiptsOf(emissions[..i])[emissions[i].sender := emissions[i].receipt]
    {
      assert emissions[..i + 1][..i] == emissions[..i];
    }

    method EmitOne(header: HeaderLite, entries: seq<DiffEntry>, i: nat, staged: SparseMerkleTree, replica: bool)
        returns (receipt: Receipt)
      requires Valid() && staged.Valid() && staged.depth == TREE_DEPTH && i < |entries| && HaveHeads(entries)
      requires replica ==> DistinctKeys(entries) && staged.values == PutValues(tree.values, entries)
      requires replica ==> header.stateRoot == Root(TREE_DEPTH, staged.values)
      modifies receiptCache
      ensures receipt == ReceiptFor(header, entries[i], accountLeaves, staged.values)
      ensures receiptCache.State()
           == WithReceipt(old(receiptCache.State()), EmissionFor(header, entries[i], accountLeaves, staged.values))
    {
      receipt := MakeReceipt(header, entries, i, staged, replica);
      receiptCache.Add(entries[i].newLeaf.addr, receipt, entries[i].newLeaf.headRef.value);
    }

    method EmitAll(header: HeaderLite, entries: seq<DiffEntry>, staged: SparseMerkleTree, replica: bool)
        returns (receipts: map<Address, Receipt>)
      requires Valid() && staged.Valid() && staged.depth == TREE_DEPTH && HaveHeads(entries)
      requires replica ==> DistinctKeys(entries) && staged.values == PutValues(tree.values, entries)
      requires replica ==> header.stateRoot == Root(TREE_DEPTH, staged.values)
      modifies receiptCache
      ensures receiptCache.State() == WithReceipts(old(receiptCache.State()), Emissions(header, entries, accountLeaves, staged.values))
      ensures receipts == ReceiptsOf(Emissions(header, entries, accountLeaves, staged.values))
    {
      ghost var started, emissions := receiptCache.State(), Emissions(header, entries, accountLeaves, staged.values);
      receipts := map[];
      for i := 0 to |entries|
        invariant receiptCache.State() == WithReceipts(started, emissions[..i])
        invariant receipts == ReceiptsOf(emissions[..i])
      {
        EmissionsStep(started, emissions, i);
        var receipt := EmitOne(header, entries, i, staged, replica);
        receipts := receipts[entries[i].newLeaf.addr := receipt];
      }
      assert emissions[..|entries|] == emissions;
    }

    /** Writes a block's proof batch and receipts into the cache; `staged` is the tree the block leads to. */
    method EmitReceipts(header: HeaderLite, entries: seq<DiffEntry>, staged: SparseMerkleTree, replica: bool)
        returns (receipts: map<Address, Receipt>)
      requires Valid() && staged.Valid() && staged.depth == TREE_DEPTH && HaveHeads(entries)
      requires replica ==> DistinctKeys(entries) && staged.values == PutValues(tree.values, entries)
      requires replica ==> header.stateRoot == Root(TREE_DEPTH, staged.values)
      modifies receiptCache
      ensures Valid()
      ensures receiptCache.State() == RecordBlock(old(receiptCache.State()), header, entries, accountLeaves, staged.values)
      ensures receipts == ReceiptsOf(Emissions(header, entries, accountLeaves, staged.values))
    {
      receipts := map[];
      if entries == [] {
        return;
      }
      AddBatch(header, entries, staged);
      receipts := EmitAll(header, entries, staged, replica);
    }

    method RemovePackaged(entries: seq<DiffEntry>)
      requires Valid()
      modifies bundlePool
      ensures Valid() && State() == old(State()).(pool := RemoveEntries(old(State()).pool, entries))
    {
      for i := 0 to |entries|
        invariant bundlePool.pending == RemoveEntries(old(bundlePool.pending), entries[..i])
      {
        var entry := entries[i];
        assert entries[..i + 1][..i] == entries[..i];
        var _ := bundlePool.RemoveFinalizedBundle(entry.newLeaf.addr, entry.envelope.payload.seqNo, entry.bundleHash);
      }
      assert entries[..|entries|] == entries;
    }

    /** Makes every check of a block, staging the tree and leaves it leads to; the chain is not touched. */
    method CheckBlock(b: Block) returns (e: Option<ChainError>, staged: SparseMerkleTree, leaves: Leaves)
      requires Valid()
      ensures Valid() && State() == old(State())
      ensures e == BlockError(State(), b) && (e.None? ==> SignedByOwners(b.entries))
      ensures fresh(staged) && staged.Valid() && staged.depth == TREE_DEPTH
      ensures e.None? ==> staged.values == PutValues(tree.values, b.entries) && leaves == PutLeaves(accountLeaves, b.entries)
    {
      staged := new SparseMerkleTree(TREE_DEPTH);
      leaves := accountLeaves;
      e := HeaderError(State(), b);
      if e.Some? {
        return;
      }
      e, staged, leaves := StageEntries(b);
      if e.Some? {
        return;
      }
      if DiffRoot(b.entries) != b.header.diffRoot {
        e := Some(DiffRootMismatch);
      } else if Root(TREE_DEPTH, staged.values) != b.header.stateRoot {
        e := Some(StateRootMismatch);
      } else {
        AcceptedBlockShape(State(), b);
      }
    }

    /** Makes the staged tree and leaves current and appends the block. */
    method Install(b: Block, staged: SparseMerkleTree, leaves: Leaves)
      requires Valid() && staged.Valid() && staged.depth == TREE_DEPTH
      modifies this
      ensures Valid() && tree == staged
      ensures State() == old(State()).(height := b.header.height, blockHash := b.blockHash, tree := staged.values,
                                       leaves := leaves, blocks := old(blocks) + [b])
    {
      currentHeight := b.header.height;
      currentBlockHash := b.blockHash;
      tree := staged;
      accountLeaves := leaves;
      blocks := blocks + [b];
    }

    /** The fields of a committed state, one by one. */
    static lemma CommittedState(before: ChainState, b: Block, after: ChainState, receipts: map<Address, Receipt>)
      requires HaveHeads(b.entries)
      requires after == before.(height := b.header.height, blockHash := b.blockHash, tree := after.tree, leaves := after.leaves,
                                blocks := before.blocks + [b], cache := after.cache, pool := after.pool)
      requires after.tree == PutValues(before.tree, b.entries) && after.leaves == PutLeaves(before.leaves, b.entries)
      requires after.cache == RecordBlock(before.cache, LiteOf(b), b.entries, before.leaves, after.tree)
      requires after.pool == RemoveEntries(before.pool, b.entries)
      requires receipts == ReceiptsOf(Emissions(LiteOf(b), b.entries, before.leaves, after.tree))
      ensures Applied(after, receipts) == Commit(before, b)
    {
    }

    /** Records a block's receipts and makes the block current. */
    method EmitAndInstall(b: Block, staged: SparseMerkleTree, leaves: Leaves) returns (receipts: map<Address, Receipt>)
      requires Valid() && staged.Valid() && staged.depth == TREE_DEPTH && HaveHeads(b.entries) && DistinctKeys(b.entries)
      requires staged.values == PutValues(tree.values, b.entries) && b.header.stateRoot == Root(TREE_DEPTH, staged.values)
      modifies this, receiptCache
      ensures Valid()
      ensures State() == old(State()).(
                height := b.header.height, blockHash := b.blockHash, tree := staged.values, leaves := leaves,
                blocks := old(blocks) + [b],
                cache := RecordBlock(old(State()).cache, LiteOf(b), b.entries, old(accountLeaves), staged.values))
      ensures receipts == ReceiptsOf(Emissions(LiteOf(b), b.entries, old(accountLeaves), staged.values))
    {
      hide Emissions, PutValues, RecordBlock, ReceiptsOf, Root;
      receipts := EmitReceipts(LiteOf(b), b.entries, staged, true);
      Install(b, staged, leaves);
    }

    /** Writes a checked block into the chain. */
    method CommitBlock(b: Block, staged: SparseMerkleTree, leaves: Leaves) returns (receipts: map<Address, Receipt>)
      requires Valid() && staged.Valid() && staged.depth == TREE_DEPTH && HaveHeads(b.entries) && DistinctKeys(b.entries)
      requires staged.values == PutValues(tree.values, b.entries) && leaves == PutLeaves(accountLeaves, b.entries)
      requires b.header.stateRoot == Root(TREE_DEPTH, staged.values)
      modifies this, receiptCache, bundlePool
      ensures Valid() && Applied(State(), receipts) == Commit(old(State()), b)
    {
      ghost var before := State();
      receipts := EmitAndInstall(b, staged, leaves);
      RemovePackaged(b.entries);
      CommittedState(before, b, State(), receipts);
    }

    /** All or nothing: the whole block is committed, or the call reports the first failing check and changes nothing. */
    method Apply(b: Block) returns (r: Result<map<Address, Receipt>, ChainError>)
      requires Valid()
      modifies this, receiptCache, bundlePool
      ensures Valid()
      ensures var spec := ApplyBlock(old(State()), b);
              && (spec.Ok? ==> r == Ok(spec.value.receipts) && State() == spec.value.chain)
              && (spec.Err? ==> r == Err(spec.error) && State() == old(State()))
      ensures r.Ok? ==> SignedByOwners(b.entries)
    {
      var error, staged, leaves := CheckBlock(b);
      if error.Some? {
        return Err(error.value);
      }
      AcceptedBlockShape(State(), b);
      var receipts := CommitBlock(b, staged, leaves);
      r := Ok(receipts);
    }

    /** Stores the leaves of a produced block in a copy of the tree. */
    method StageProduced(entries: seq<DiffEntry>) returns (staged: SparseMerkleTree, leaves: Leaves)
      requires Valid()
      ensures Valid() && State() == old(State())
      ensures fresh(staged) && staged.Valid() && staged.depth == TREE_DEPTH
      ensures staged.values == PutValues(tree.values, entries) && leaves == PutLeaves(accountLeaves, entries)
    {
      staged := new SparseMerkleTree(TREE_DEPTH, tree.values);
      leaves := accountLeaves;
      for i := 0 to |entries|
        invariant State() == old(State())
        invariant staged.Valid() && fresh(staged) && staged.depth == TREE_DEPTH
        invariant staged.values == PutValues(tree.values, entries[..i])
        invariant leaves == PutLeaves(accountLeaves, entries[..i])
      {
        assert entries[..i + 1][..i] == entries[..i];
        var _ := staged.Set(entries[i].addrKey, AccountLeafHash(entries[i].newLeaf));
        leaves := leaves[entries[i].newLeaf.addr := entries[i].newLeaf];
      }
      assert entries[..|entries|] == entries;
    }

    method RemoveSubmitted(subs: seq<Submission>)
      modifies bundlePool
      ensures bundlePool.pending == RemoveSubmissions(old(bundlePool.pending), subs)
    {
      for i := 0 to |subs|
        invariant bundlePool.pending == RemoveSubmissions(old(bundlePool.pending), subs[..i])
      {
        var payload := subs[i].envelope.payload;
        assert subs[..i + 1][..i] == subs[..i];
        var _ := bundlePool.RemoveFinalizedBundle(subs[i].sidecar.sender, payload.seqNo, payload.bundleHash);
      }
      assert subs[..|subs|] == subs;
    }

    /** Packages the given bundles, commits the block and drops the bundles from the pool. */
    method Execute(subs: seq<Submission>, timestamp: nat, proposerSig: Bytes, consensusExtra: Bytes)
        returns (b: Block, receipts: map<Address, Receipt>)
      requires Valid()
      modifies this, receiptCache, bundlePool
      ensures Valid()
      ensures ExecuteSubmissions(old(State()), subs, timestamp, proposerSig, consensusExtra) == Produced(State(), b, receipts)
    {
      hide BlockError, BuildBlock, Commit, DiffRoot, EmissionFor, PrepareEntries, RecordBlock, Root;
      b := NewBlock(State(), subs, timestamp, proposerSig, consensusExtra);
      NewBlockHasHeads(State(), subs, timestamp, proposerSig, consensusExtra);
      var staged, leaves := StageProduced(b.entries);
      receipts := EmitReceipts(LiteOf(b), b.entries, staged, false);
      Install(b, staged, leaves);
      RemoveSubmitted(subs);
    }

    /** Produces a block from the pool's bundles in key order. */
    method Build(timestamp: nat, proposerSig: Bytes, consensusExtra: Bytes, limit: Option<nat>)
        returns (b: Block, receipts: map<Address, Receipt>)
      requires Valid()
      modifies this, receiptCache, bundlePool
      ensures Valid()
      ensures BuildBlock(old(State()), timestamp, proposerSig, consensusExtra, limit) == Produced(State(), b, receipts)
    {
      b, receipts := Execute(SnapshotOf(bundlePool.pending, limit), timestamp, proposerSig, consensusExtra);
    }

    /** A chain in the same position, with nothing pooled, cached or listed. */
    method Copy() returns (other: ChainStateV2)
      requires Valid()
      ensures fresh(other) && fresh(other.tree) && fresh(other.receiptCache) && fresh(other.bundlePool) && other.Valid()
      ensures other.State() == State().(blocks := [], cache := EmptyCache(receiptCache.maxBlocks), pool := map[])
    {
      other := new ChainStateV2(config, currentBlockHash, receiptCache.maxBlocks);
      var copied := new SparseMerkleTree(TREE_DEPTH, tree.values);
      other.currentHeight, other.tree, other.accountLeaves := currentHeight, copied, accountLeaves;
    }

    /** A copy that also holds the pooled bundles. */
    method CopyWithPool() returns (other: ChainStateV2)
      requires Valid()
      ensures fresh(other) && fresh(other.tree) && fresh(other.receiptCache) && fresh(other.bundlePool) && other.Valid()
      ensures other.State() == Bare(State(), receiptCache.maxBlocks)
    {
      other := Copy();
      other.bundlePool.pending := bundlePool.pending;
    }

    /** Answers the block and receipts that building now would give; the chain itself stays as it is. */
    method Preview(timestamp: nat, proposerSig: Bytes, consensusExtra: Bytes, limit: Option<nat>)
        returns (b: Block, receipts: map<Address, Receipt>)
      requires Valid()
      ensures var spec := BuildBlock(State(), timestamp, proposerSig, consensusExtra, limit);
              b == spec.block && receipts == spec.receipts
    {
      hide BuildBlock, Commit, NewBlock, BlockError, ApplyBlock;
      var preview := CopyWithPool();
      ghost var built := BuildBlock(State(), timestamp, proposerSig, consensusExtra, limit);
      ghost var bare := BuildBlock(preview.State(), timestamp, proposerSig, consensusExtra, limit);
      BuildIgnoresWindow(State(), receiptCache.maxBlocks, timestamp, proposerSig, consensusExtra, limit);
      assert bare.block == built.block && bare.receipts == built.receipts;
      b, receipts := preview.Build(timestamp, proposerSig, consensusExtra, limit);
      assert bare == Produced(preview.State(), b, receipts);
    }
  }
}
