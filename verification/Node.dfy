/** A consensus node: a chain whose every applied block is saved, and what loading the saved state rebuilds. */
module Nodes {
  import opened Prelude
  import opened Types
  import opened Ledger
  import opened SparseMerkle
  import opened ReceiptCaches
  import opened BundlePools
  import opened Chains
  import opened ChainRuns
  import opened ChainInvariants
  import opened Runs
  import opened Replay
  import opened EmittedReceipts
  import opened ConsensusStores

  datatype Node = Node(chain: ChainState, store: Store, genesisBlockHash: Hash)

  /** Saves a block the chain has just taken; a refused save leaves the store behind the chain. */
  function Persist(n: Node, after: ChainState, b: Block, receipts: map<Address, Receipt>): Node
    requires HaveHeads(b.entries)
  {
    var batch := Lookup(after.cache.batches, BatchId(b.header.height, b.blockHash));
    var saved := SaveAppliedBlock(n.store, b, receipts, after.config.version, after.config.ChainId(),
                                  after.cache.maxBlocks, n.genesisBlockHash, batch);
    n.(chain := after, store := if saved.Ok? then saved.value else n.store)
  }

  function NodeStep(n: Node, step: ChainStep): Node {
    match step
    case Submit(_, _) => n.(chain := Step(n.chain, step))
    case Produce(timestamp, sig, extra, limit) =>
      if SnapshotOf(n.chain.pool, limit) == [] then n
      else
        var p := BuildBlock(n.chain, timestamp, sig, extra, limit);
        NewBlockHasHeads(n.chain, SnapshotOf(n.chain.pool, limit), timestamp, sig, extra);
        Persist(n, p.chain, p.block, p.receipts)
    case Receive(b) =>
      var applied := ApplyBlock(n.chain, b);
      if applied.Ok? then Persist(n, applied.value.chain, b, applied.value.receipts) else n
  }

  function NodeRun(n: Node, steps: seq<ChainStep>): Node {
    if steps == [] then n else NodeStep(NodeRun(n, steps[..|steps| - 1]), steps[|steps| - 1])
  }

  lemma {:induction false} NodeFollowsChain(n: Node, steps: seq<ChainStep>)
    ensures NodeRun(n, steps).chain == RunFrom(n.chain, steps)
    ensures NodeRun(n, steps).genesisBlockHash == n.genesisBlockHash
  {
    if steps != [] {
      NodeFollowsChain(n, steps[..|steps| - 1]);
    }
  }

  // ----- What the store holds beside its windows

  ghost predicate HoldsBlocks(table: map<nat, Block>, blocks: seq<Block>) {
    && (forall h :: h in table <==> 1 <= h <= |blocks|)
    && (forall h :: 1 <= h <= |blocks| ==> table[h] == blocks[h - 1])
  }

  function MetadataOf(c: ChainState, genesisBlockHash: Hash): Option<Metadata> {
    if c.blocks == [] then None
    else
      Some(Metadata(c.config.version, c.config.ChainId(), c.cache.maxBlocks, genesisBlockHash, c.height, c.blockHash,
                    c.blocks[|c.blocks| - 1].header.stateRoot))
  }

  ghost predicate NodeInv(n: Node) {
    && ChainInv(n.chain)
    && HoldsBlocks(n.store.blocks, n.chain.blocks)
    && n.store.metadata == MetadataOf(n.chain, n.genesisBlockHash)
    && HoldsStore(n.store, LogOf(n.chain.blocks), WindowLow(|n.chain.blocks|, n.chain.cache.maxBlocks))
  }

  // ----- The receipts of a good block

  lemma {:induction false} ReceiptsOfSenders(emissions: seq<Emission>, i: nat)
    requires i < |emissions| && forall j, k :: 0 <= j < k < |emissions| ==> emissions[j].sender != emissions[k].sender
    ensures emissions[i].sender in ReceiptsOf(emissions)
    ensures ReceiptsOf(emissions)[emissions[i].sender] == emissions[i].receipt
  {
    var last := |emissions| - 1;
    if i < last {
      assert emissions[..last][i] == emissions[i];
      ReceiptsOfSenders(emissions[..last], i);
    }
  }

  lemma {:induction false} ReceiptSenders(emissions: seq<Emission>, addr: Address) returns (i: nat)
    requires addr in ReceiptsOf(emissions)
    ensures i < |emissions| && emissions[i].sender == addr
  {
    i := |emissions| - 1;
    if emissions[i].sender != addr {
      i := ReceiptSenders(emissions[..i], addr);
    }
  }

  ghost predicate DistinctSenders(entries: seq<DiffEntry>) {
    forall j, k :: 0 <= j < k < |entries| ==> entries[j].newLeaf.addr != entries[k].newLeaf.addr
  }

  lemma GoodBlockHasDistinctSenders(before: Leaves, tree: AccountTree, b: Block, height: nat)
    requires GoodBlock(before, tree, b, height)
    ensures DistinctSenders(b.entries)
  {
    forall j, k | 0 <= j < k < |b.entries| ensures b.entries[j].newLeaf.addr != b.entries[k].newLeaf.addr {
      assert GoodEntry(before, b, j) && GoodEntry(before, b, k);
    }
  }

  /** The receipts handed to the store are the block's emissions again. */
  lemma RowsAreEmissions(header: HeaderLite, entries: seq<DiffEntry>, before: Leaves, after: AccountTree)
    requires HaveHeads(entries) && DistinctSenders(entries)
    ensures var emissions := Emissions(header, entries, before, after);
            var receipts := ReceiptsOf(emissions);
            && (forall i :: 0 <= i < |entries| ==> entries[i].newLeaf.addr in receipts)
            && (forall a :: a in receipts ==> NamesSender(entries, a))
            && ReceiptRows(entries, receipts) == emissions
  {
    hide HaveHeads, ReceiptFor, ReceiptsOf;
    var emissions := Emissions(header, entries, before, after);
    forall i | 0 <= i < |entries|
      ensures entries[i].newLeaf.addr in ReceiptsOf(emissions)
      ensures ReceiptsOf(emissions)[entries[i].newLeaf.addr] == emissions[i].receipt
    {
      ReceiptsOfSenders(emissions, i);
    }
    forall a | a in ReceiptsOf(emissions) ensures NamesSender(entries, a) {
      var i := ReceiptSenders(emissions, a);
    }
  }

  lemma SaveIsSaveRows(
      s: Store, b: Block, before: Leaves, after: AccountTree, version: nat, chainId: nat, cacheBlocks: nat,
      genesisBlockHash: Hash, batch: Option<ProofBatch>)
    requires HaveHeads(b.entries) && DistinctSenders(b.entries)
    ensures var emissions := Emissions(LiteOf(b), b.entries, before, after);
            SaveAppliedBlock(s, b, ReceiptsOf(emissions), version, chainId, cacheBlocks, genesisBlockHash, batch)
            == SaveRows(s, b, emissions, version, chainId, cacheBlocks, genesisBlockHash, batch)
  {
    RowsAreEmissions(LiteOf(b), b.entries, before, after);
  }

  lemma {:induction false} ProofsAreOwn(blocks: seq<Block>)
    requires GoodBlocks(blocks)
    ensures OwnProofs(LogOf(blocks))
  {
    forall e {:trigger Emitted(LogOf(blocks), 0, e)} | Emitted(LogOf(blocks), 0, e) ensures e.receipt.proof.Single? {
      EmissionIsCanonical(blocks, e);
    }
  }

  lemma {:induction false} BlockHashNamesHeight(blocks: seq<Block>, i: nat)
    requires GoodBlocks(blocks) && i < |blocks|
    ensures blocks[i].blockHash.BlockIdHash? && blocks[i].blockHash.id.height == i + 1
  {
    if i < |blocks| - 1 {
      BlockHashNamesHeight(blocks[..|blocks| - 1], i);
    }
  }

  lemma {:induction false} NewHashIsNew(table: map<nat, Block>, blocks: seq<Block>, b: Block)
    requires HoldsBlocks(table, blocks) && GoodBlocks(blocks)
    requires b.blockHash.BlockIdHash? && b.blockHash.id.height == |blocks| + 1
    ensures |blocks| + 1 !in table && !HasBlockHash(table, b.blockHash)
  {
    if h :| h in table && table[h].blockHash == b.blockHash {
      BlockHashNamesHeight(blocks, h - 1);
      assert false;
    }
  }

  // ----- Saving keeps the store in step with the chain

  lemma {:induction false} RecordKeepsSize(c: CacheState, emissions: seq<Emission>)
    ensures WithReceipts(c, emissions).maxBlocks == c.maxBlocks
  {
    if emissions != [] {
      RecordKeepsSize(c, emissions[..|emissions| - 1]);
      PruneKeepsSize(RecordReceipt(WithReceipts(c, emissions[..|emissions| - 1]), emissions[|emissions| - 1]));
    }
  }

  lemma {:induction false} PruneKeepsSize(c: CacheState)
    ensures Pruned(c).maxBlocks == c.maxBlocks
    decreases |c.byHeight|
  {
    if |c.byHeight| > c.maxBlocks {
      assert c.byHeight.Keys != {};
      var d := DropHeight(c, Lowest(c.byHeight.Keys));
      assert |d.byHeight| < |c.byHeight| by {
        assert d.byHeight.Keys == c.byHeight.Keys - {Lowest(c.byHeight.Keys)};
      }
      PruneKeepsSize(d);
    }
  }

  lemma CommitKeepsSize(c: ChainState, b: Block)
    requires HaveHeads(b.entries)
    ensures Commit(c, b).chain.cache.maxBlocks == c.cache.maxBlocks
  {
    if b.entries != [] {
      var tree := PutValues(c.tree, b.entries);
      var started := RecordBatch(c.cache, b.header.height, BatchFor(LiteOf(b), b.entries, tree));
      PruneKeepsSize(started);
      RecordKeepsSize(Pruned(started), Emissions(LiteOf(b), b.entries, c.leaves, tree));
    }
  }

  /** The batch of the newest block is still cached when the block is saved. */
  lemma NewestBatchIsCached(c: CacheState, log: seq<BlockLog>)
    requires HoldsWindow(c, log) && log != []
    ensures var batch := log[|log| - 1].batch; Lookup(c.batches, batch.batchId) == Some(batch)
  {
  }

  lemma SavedRows(n: Node, b: Block) returns (store: Store)
    requires NodeInv(n) && GoodBlock(n.chain.leaves, n.chain.tree, b, n.chain.height + 1) && HaveHeads(b.entries)
    requires GoodBlocks(n.chain.blocks + [b]) && TreeAfter(n.chain.blocks + [b]) == PutValues(n.chain.tree, b.entries)
    ensures var c, tree := n.chain, PutValues(n.chain.tree, b.entries);
            SaveRows(n.store, b, Emissions(LiteOf(b), b.entries, c.leaves, tree), c.config.version, c.config.ChainId(),
                     c.cache.maxBlocks, n.genesisBlockHash, Some(BatchFor(LiteOf(b), b.entries, tree))) == Ok(store)
    ensures HoldsStore(store, LogOf(n.chain.blocks + [b]), WindowLow(|n.chain.blocks| + 1, n.chain.cache.maxBlocks))
  {
    var c, blocks := n.chain, n.chain.blocks + [b];
    LogGrows(c.blocks, b);
    LogHasHeights(c.blocks);
    LogHasHeights(blocks);
    LogHasNoDuplicates(blocks);
    NewHashIsNew(n.store.blocks, c.blocks, b);
    store := SaveKeepsStore(n.store, LogOf(c.blocks), LogOf(blocks), b, EmittedBy(c.leaves, TreeAfter(blocks), b),
                            c.config.version, c.config.ChainId(), c.cache.maxBlocks, n.genesisBlockHash);
  }

  lemma SavedBlocks(
      s: Store, after: Store, blocks: seq<Block>, b: Block, rows: seq<Emission>, version: nat, chainId: nat,
      cacheBlocks: nat, genesisBlockHash: Hash, batch: Option<ProofBatch>)
    requires HoldsBlocks(s.blocks, blocks) && b.header.height == |blocks| + 1
    requires SaveRows(s, b, rows, version, chainId, cacheBlocks, genesisBlockHash, batch) == Ok(after)
    ensures HoldsBlocks(after.blocks, blocks + [b])
    ensures after.metadata == Some(Metadata(version, chainId, cacheBlocks, genesisBlockHash, b.header.height, b.blockHash,
                                            b.header.stateRoot))
  {
  }

  /** The save made after a good block is committed never fails, and keeps the store in step with the chain. */
  lemma CommitIsSaved(n: Node, b: Block) returns (store: Store)
    requires NodeInv(n) && GoodBlock(n.chain.leaves, n.chain.tree, b, n.chain.height + 1) && HaveHeads(b.entries)
    ensures var a, c := Commit(n.chain, b), n.chain;
            SaveAppliedBlock(n.store, b, a.receipts, c.config.version, c.config.ChainId(), c.cache.maxBlocks,
                             n.genesisBlockHash, Some(BatchFor(LiteOf(b), b.entries, a.chain.tree))) == Ok(store)
    ensures HoldsBlocks(store.blocks, n.chain.blocks + [b])
    ensures store.metadata == MetadataOf(Commit(n.chain, b).chain, n.genesisBlockHash)
    ensures HoldsStore(store, LogOf(n.chain.blocks + [b]), WindowLow(|n.chain.blocks| + 1, n.chain.cache.maxBlocks))
  {
    var c, tree := n.chain, PutValues(n.chain.tree, b.entries);
    GrowBlocks(c.blocks, b);
    GoodBlockHasDistinctSenders(c.leaves, c.tree, b, c.height + 1);
    CommitKeepsSize(c, b);
    store := SavedRows(n, b);
    var batch := Some(BatchFor(LiteOf(b), b.entries, tree));
    SaveIsSaveRows(n.store, b, c.leaves, tree, c.config.version, c.config.ChainId(), c.cache.maxBlocks, n.genesisBlockHash, batch);
    SavedBlocks(n.store, store, c.blocks, b, Emissions(LiteOf(b), b.entries, c.leaves, tree), c.config.version,
                c.config.ChainId(), c.cache.maxBlocks, n.genesisBlockHash, batch);
  }

  lemma CachedBatch(c: ChainState, b: Block)
    requires HaveHeads(b.entries) && ChainInv(Commit(c, b).chain)
    ensures var a := Commit(c, b).chain;
            Lookup(a.cache.batches, BatchId(b.header.height, b.blockHash)) == Some(BatchFor(LiteOf(b), b.entries, a.tree))
  {
    var a := Commit(c, b).chain;
    LogGrows(c.blocks, b);
    NewestBatchIsCached(a.cache, LogOf(a.blocks));
  }

  lemma CommitKeepsNodeInv(n: Node, b: Block)
    requires NodeInv(n) && GoodBlock(n.chain.leaves, n.chain.tree, b, n.chain.height + 1) && HaveHeads(b.entries)
    ensures var a := Commit(n.chain, b); NodeInv(Persist(n, a.chain, b, a.receipts))
  {
    var store := CommitIsSaved(n, b);
    CommitKeepsInv(n.chain, b);
    CommitKeepsSize(n.chain, b);
    CachedBatch(n.chain, b);
  }

  lemma ProduceKeepsNode(n: Node, timestamp: nat, proposerSig: Bytes, consensusExtra: Bytes, limit: Option<nat>)
    requires NodeInv(n) && SnapshotOf(n.chain.pool, limit) != []
    ensures NodeInv(NodeStep(n, Produce(timestamp, proposerSig, consensusExtra, limit)))
  {
    hide BuildBlock, Emissions, GoodBlock, GoodBlocks, HoldsStore;
    hide HoldsWindow, LogOf, NewBlock, RecordBlock, SnapshotOf;
    StepKeepsInv(n.chain, Produce(timestamp, proposerSig, consensusExtra, limit));
    BuildIsCommit(n.chain, timestamp, proposerSig, consensusExtra, limit);
    CommitKeepsNodeInv(n, BuildBlock(n.chain, timestamp, proposerSig, consensusExtra, limit).block);
  }

  lemma ReceiveKeepsNode(n: Node, b: Block)
    requires NodeInv(n) && Shaped(b)
    ensures NodeInv(NodeStep(n, Receive(b)))
  {
    hide BlockError, Emissions, GoodBlock, GoodBlocks, HoldsStore, HoldsWindow, LogOf, RecordBlock, Shaped;
    StepKeepsInv(n.chain, Receive(b));
    if ApplyBlock(n.chain, b).Ok? {
      AcceptedBlockIsGood(n.chain, b);
      CommitKeepsNodeInv(n, b);
    }
  }

  lemma SubmitKeepsNode(n: Node, sub: Submission, encodedSize: nat)
    requires NodeInv(n)
    ensures NodeInv(NodeStep(n, Submit(sub, encodedSize)))
  {
    hide ApplyBlock, BuildBlock, ChainInv, HoldsStore, LogOf, SubmitTo;
    StepKeepsInv(n.chain, Submit(sub, encodedSize));
  }

  lemma NodeStepKeepsInv(n: Node, step: ChainStep)
    requires NodeInv(n) && StepAllowed(step)
    ensures NodeInv(NodeStep(n, step))
  {
    hide ChainInv, LogOf, NodeInv, Persist, Shaped, Step;
    match step
    case Submit(sub, encodedSize) => SubmitKeepsNode(n, sub, encodedSize);
    case Produce(timestamp, sig, extra, limit) =>
      if SnapshotOf(n.chain.pool, limit) != [] {
        ProduceKeepsNode(n, timestamp, sig, extra, limit);
      }
    case Receive(b) => ReceiveKeepsNode(n, b);
  }

  /** Every state a node's run reaches keeps the store in step with the chain. */
  lemma {:induction false} NodeRunKeepsInv(n: Node, steps: seq<ChainStep>)
    requires NodeInv(n) && forall i :: 0 <= i < |steps| ==> StepAllowed(steps[i])
    ensures NodeInv(NodeRun(n, steps))
  {
    if steps != [] {
      NodeRunKeepsInv(n, steps[..|steps| - 1]);
      NodeStepKeepsInv(NodeRun(n, steps[..|steps| - 1]), steps[|steps| - 1]);
    }
  }

  function FreshNode(config: ChainConfig, genesisBlockHash: Hash, cacheBlocks: positive): Node {
    Node(InitialChain(config, genesisBlockHash, cacheBlocks), EMPTY_STORE, genesisBlockHash)
  }

  lemma FreshNodeInv(config: ChainConfig, genesisBlockHash: Hash, cacheBlocks: positive)
    ensures NodeInv(FreshNode(config, genesisBlockHash, cacheBlocks))
  {
  }

  /** In every reachable state the persistent store answers every receipt question as the in-memory window does. */
  lemma {:induction false} ReachableStoreAnswers(
      config: ChainConfig, genesisBlockHash: Hash, cacheBlocks: positive, steps: seq<ChainStep>,
      sender: Address, seqNo: nat, ref: BundleRef)
    requires forall i :: 0 <= i < |steps| ==> StepAllowed(steps[i])
    ensures var n := NodeRun(FreshNode(config, genesisBlockHash, cacheBlocks), steps);
            && n.store.GetReceipt(sender, seqNo) == n.chain.cache.GetReceipt(sender, seqNo)
            && n.store.GetReceiptByRef(ref) == n.chain.cache.GetReceiptByRef(ref)
  {
    hide GoodBlocks, HoldsRows, HoldsWindow, LogOf, NodeRun;
    FreshNodeInv(config, genesisBlockHash, cacheBlocks);
    NodeRunKeepsInv(FreshNode(config, genesisBlockHash, cacheBlocks), steps);
    var n := NodeRun(FreshNode(config, genesisBlockHash, cacheBlocks), steps);
    ProofsAreOwn(n.chain.blocks);
    StoreAnswersLikeWindow(n.store, n.chain.cache, LogOf(n.chain.blocks), sender, seqNo, ref);
  }

  // ----- Loading

  datatype LoadError =
    | PersistedVersionMismatch
    | PersistedChainIdMismatch
    | BlockRefused(error: ChainError)
    | PersistedHeightMismatch
    | PersistedBlockHashMismatch
    | PersistedStateRootMismatch

  /** The stored blocks in height order. */
  function ListBlocks(table: map<nat, Block>): seq<Block>
    decreases |table|
  {
    if table.Keys == {} then []
    else
      var h := Lowest(table.Keys);
      assert (table - {h}).Keys == table.Keys - {h};
      [table[h]] + ListBlocks(table - {h})
  }

  function AtLeastOne(n: nat): positive {
    if n < 1 then 1 else n
  }

  function CheckLoaded(c: ChainState, metadata: Metadata): Result<ChainState, LoadError> {
    if c.height != metadata.height then Err(PersistedHeightMismatch)
    else if c.blockHash != metadata.blockHash then Err(PersistedBlockHashMismatch)
    else if Root(TREE_DEPTH, c.tree) != metadata.stateRoot then Err(PersistedStateRootMismatch)
    else Ok(c)
  }

  function LoadChainState(s: Store, config: ChainConfig, cacheBlocks: nat, genesisBlockHash: Hash)
      : Result<ChainState, LoadError>
  {
    if s.metadata.None? then Ok(InitialChain(config, genesisBlockHash, AtLeastOne(cacheBlocks)))
    else
      var metadata := s.metadata.value;
      if metadata.version != config.version then Err(PersistedVersionMismatch)
      else if metadata.chainId != config.ChainId() then Err(PersistedChainIdMismatch)
      else
        var empty := InitialChain(config, metadata.genesisBlockHash, AtLeastOne(metadata.cacheBlocks));
        var replayed := ReplayBlocks(empty, ListBlocks(s.blocks));
        if replayed.Err? then Err(BlockRefused(replayed.error)) else CheckLoaded(replayed.value, metadata)
  }

  lemma {:induction false} LowestFirst(table: map<nat, Block>, h: nat)
    requires IsLowest(h, table.Keys)
    ensures ListBlocks(table) == [table[h]] + ListBlocks(table - {h})
  {
  }

  lemma FirstOfRest<T>(s: seq<T>, low: nat)
    requires low < |s|
    ensures s[low..] == [s[low]] + s[low + 1..]
  {
  }

  lemma {:induction false} ListedFrom(table: map<nat, Block>, blocks: seq<Block>, low: nat)
    requires low <= |blocks|
    requires forall h :: h in table <==> low < h <= |blocks|
    requires forall h :: low < h <= |blocks| ==> table[h] == blocks[h - 1]
    ensures ListBlocks(table) == blocks[low..]
    decreases |blocks| - low
  {
    if low < |blocks| {
      hide ListBlocks;
      LowestFirst(table, low + 1);
      ListedFrom(table - {low + 1}, blocks, low + 1);
      FirstOfRest(blocks, low);
    } else {
      assert table.Keys == {};
    }
  }

  // ----- When a persisted run can be loaded

  /** Replaying a longer block list fails wherever the shorter one did. */
  lemma {:induction false} ReplayStaysRefused(c: ChainState, blocks: seq<Block>, b: Block)
    requires ReplayBlocks(c, blocks).Err?
    ensures ReplayBlocks(c, blocks + [b]) == ReplayBlocks(c, blocks)
  {
    assert (blocks + [b])[..|blocks|] == blocks;
  }

  lemma {:induction false} ReplayOneMore(start: ChainState, blocks: seq<Block>, b: Block, c: ChainState)
    requires ReplayBlocks(start, blocks) == Ok(c)
    ensures ReplayBlocks(start, blocks + [b]).Err? <==> ApplyBlock(c, b).Err?
  {
    hide ApplyBlock;
    assert (blocks + [b])[..|blocks|] == blocks;
  }

  lemma {:induction false} StaleBlockIsRefused(start: ChainState, c: ChainState, step: ChainStep)
    requires ChainInv(c) && step.Produce? && !Fresh(c, step.limit)
    requires ReplayBlocks(start, c.blocks) == Ok(c.(pool := map[]))
    ensures ReplayBlocks(start, Step(c, step).blocks).Err?
  {
    hide ApplyBlock, BuildBlock, ChainInv, ReplayBlocks;
    var b := BuildBlock(c, step.timestamp, step.proposerSig, step.consensusExtra, step.limit).block;
    BuildIsCommit(c, step.timestamp, step.proposerSig, step.consensusExtra, step.limit);
    ReplicaAgrees(c, c.(pool := map[]), step.timestamp, step.proposerSig, step.consensusExtra, step.limit);
    ReplayOneMore(start, c.blocks, b, c.(pool := map[]));
  }

  lemma StepAddsAtMostOneBlock(c: ChainState, step: ChainStep)
    requires ChainInv(c)
    ensures Step(c, step).blocks == c.blocks || exists b :: Step(c, step).blocks == c.blocks + [b]
  {
    hide BuildBlock, ChainInv, FirstEntryError, GoodBlock, NewBlock, RecordBlock, RootError, SubmitTo;
    if step.Produce? && SnapshotOf(c.pool, step.limit) != [] {
      BuildIsCommit(c, step.timestamp, step.proposerSig, step.consensusExtra, step.limit);
    }
  }

  /** The blocks of a run can be replayed exactly when no produced block packaged a bundle about to expire. */
  lemma {:induction false} ReplaysIffFresh(start: ChainState, steps: seq<ChainStep>)
    requires ChainInv(start) && start.blocks == [] && start.pool == map[]
    requires forall i :: 0 <= i < |steps| ==> StepAllowed(steps[i])
    ensures ReplayBlocks(start, RunFrom(start, steps).blocks).Ok? <==> FreshRun(start, steps)
  {
    if FreshRun(start, steps) {
      ReplayRebuilds(start, steps);
    } else {
      var init, step := steps[..|steps| - 1], steps[|steps| - 1];
      var c := RunFrom(start, init);
      RunKeepsInv(start, init);
      if FreshRun(start, init) {
        ReplayRebuilds(start, init);
        StaleBlockIsRefused(start, c, step);
      } else {
        ReplaysIffFresh(start, init);
        StepAddsAtMostOneBlock(c, step);
        if b :| Step(c, step).blocks == c.blocks + [b] {
          ReplayStaysRefused(start, c.blocks, b);
        }
      }
    }
  }

  lemma LoadedIsReplayed(n: Node, config: ChainConfig, cacheBlocks: nat, genesisBlockHash: Hash)
    requires NodeInv(n) && n.chain.blocks != []
    requires config.version == n.chain.config.version && config.ChainId() == n.chain.config.ChainId()
    ensures var metadata := MetadataOf(n.chain, n.genesisBlockHash).value;
            var replayed := ReplayBlocks(InitialChain(config, n.genesisBlockHash, n.chain.cache.maxBlocks), n.chain.blocks);
            && n.store.metadata == Some(metadata)
            && LoadChainState(n.store, config, cacheBlocks, genesisBlockHash)
               == if replayed.Err? then Err(BlockRefused(replayed.error)) else CheckLoaded(replayed.value, metadata)
  {
    hide CheckLoaded, EmittedBy, GoodBlocks, HoldsStore, HoldsWindow, ReplayBlocks;
    ListedFrom(n.store.blocks, n.chain.blocks, 0);
    assert n.chain.blocks[0..] == n.chain.blocks;
  }

  lemma ReachedChainPassesChecks(c: ChainState, genesisBlockHash: Hash)
    requires ChainInv(c) && c.blocks != []
    ensures CheckLoaded(c.(pool := map[]), MetadataOf(c, genesisBlockHash).value) == Ok(c.(pool := map[]))
  {
    var last := c.blocks[|c.blocks| - 1];
  }

  /**
    Loading what a node persisted succeeds exactly when every block the node produced was fresh, and then
    rebuilds the chain, receipt window included, up to the pool, which is not persisted.
   */
  lemma {:induction false} LoadRebuildsIffFresh(
      config: ChainConfig, genesisBlockHash: Hash, cacheBlocks: positive, steps: seq<ChainStep>)
    requires forall i :: 0 <= i < |steps| ==> StepAllowed(steps[i])
    ensures var start := FreshNode(config, genesisBlockHash, cacheBlocks);
            var n := NodeRun(start, steps);
            var loaded := LoadChainState(n.store, config, cacheBlocks, genesisBlockHash);
            && (loaded.Ok? <==> FreshRun(start.chain, steps))
            && (loaded.Ok? ==> loaded.value == n.chain.(pool := map[]))
  {
    hide ApplyBlock, CheckLoaded, GoodBlocks, HoldsStore, HoldsWindow, LogOf, NodeStep, Step;
    var start := FreshNode(config, genesisBlockHash, cacheBlocks);
    var n := NodeRun(start, steps);
    FreshNodeInv(config, genesisBlockHash, cacheBlocks);
    NodeRunKeepsInv(start, steps);
    NodeFollowsChain(start, steps);
    ReplaysIffFresh(start.chain, steps);
    KeepsConfig(start.chain, steps);
    if FreshRun(start.chain, steps) {
      ReplayRebuilds(start.chain, steps);
    }
    if n.chain.blocks != [] {
      LoadedIsReplayed(n, config, cacheBlocks, genesisBlockHash);
      ReachedChainPassesChecks(n.chain, genesisBlockHash);
    }
  }

  lemma {:induction false} KeepsConfig(c: ChainState, steps: seq<ChainStep>)
    requires ChainInv(c) && forall i :: 0 <= i < |steps| ==> StepAllowed(steps[i])
    ensures RunFrom(c, steps).config == c.config && RunFrom(c, steps).cache.maxBlocks == c.cache.maxBlocks
  {
    hide BuildBlock, ChainInv, FirstEntryError, GoodBlock, NewBlock, RecordBlock, RootError, SubmitTo;
    if steps != [] {
      var init, step := RunFrom(c, steps[..|steps| - 1]), steps[|steps| - 1];
      KeepsConfig(c, steps[..|steps| - 1]);
      RunKeepsInv(c, steps[..|steps| - 1]);
      if step.Produce? && SnapshotOf(init.pool, step.limit) != [] {
        BuildIsCommit(init, step.timestamp, step.proposerSig, step.consensusExtra, step.limit);
        CommitKeepsSize(init, BuildBlock(init, step.timestamp, step.proposerSig, step.consensusExtra, step.limit).block);
      } else if step.Receive? && ApplyBlock(init, step.block).Ok? {
        CommitKeepsSize(init, step.block);
      }
    }
  }
}
