/** Whole runs of a chain: the invariant of every reachable state, and what follows from it. */
module Runs {
  import opened Prelude
  import opened Sorting
  import opened Types
  import opened ClaimSets
  import opened Ledger
  import opened SparseMerkle
  import opened ReceiptCaches
  import opened BundlePools
  import opened Chains
  import opened ChainRuns
  import opened Agreement
  import opened ChainInvariants

  ghost predicate ChainInv(c: ChainState) {
    && c.height == |c.blocks|
    && GoodBlocks(c.blocks)
    && c.leaves == LeavesAfter(c.blocks)
    && c.tree == TreeAfter(c.blocks)
    && PoolOk(c.config, c.leaves, c.pool)
    && HoldsWindow(c.cache, LogOf(c.blocks))
  }

  // ----- Steps

  datatype ChainStep =
    | Submit(sub: Submission, encodedSize: nat)
    | Produce(timestamp: nat, proposerSig: Bytes, consensusExtra: Bytes, limit: Option<nat>)
    | Receive(block: Block)

  /** The entries have the shape every proposer writes; applying a block does not check this part itself. */
  ghost predicate Shaped(b: Block) {
    && b.entries != []
    && forall i {:trigger b.entries[i]} :: 0 <= i < |b.entries| ==>
        var leaf := b.entries[i].newLeaf;
        && b.entries[i].addrKey == AddrKey(leaf.addr)
        && (leaf.headRef.Some? ==>
              leaf.headRef.value.height == b.header.height &&
              leaf.headRef.value.seqNo == b.entries[i].envelope.payload.seqNo)
  }

  /** Received blocks come from proposers; everything else may be anything. */
  ghost predicate StepAllowed(step: ChainStep) {
    step.Receive? ==> Shaped(step.block)
  }

  /** One step; a call that raises leaves the state alone, and nothing is produced from an empty snapshot. */
  function Step(c: ChainState, step: ChainStep): ChainState {
    match step
    case Submit(sub, size) =>
      var r := SubmitBundle(c, sub, size);
      if r.Ok? then r.value else c
    case Produce(timestamp, sig, extra, limit) =>
      if SnapshotOf(c.pool, limit) == [] then c else BuildBlock(c, timestamp, sig, extra, limit).chain
    case Receive(b) =>
      var r := ApplyBlock(c, b);
      if r.Ok? then r.value.chain else c
  }

  function RunFrom(c: ChainState, steps: seq<ChainStep>): ChainState {
    if steps == [] then c else Step(RunFrom(c, steps[..|steps| - 1]), steps[|steps| - 1])
  }

  // ----- Submitting

  lemma SubmitKeepsPool(c: ChainState, sub: Submission, encodedSize: nat)
    requires PoolOk(c.config, c.leaves, c.pool) && SubmitBundle(c, sub, encodedSize).Ok?
    ensures PoolOk(c.config, c.leaves, SubmitBundle(c, sub, encodedSize).value.pool)
  {
    var sender, pool := sub.publicKey.address, SubmitBundle(c, sub, encodedSize).value.pool;
    assert c.ConfirmedSeq(sender) == SeqOf(c.leaves, sender);
    if sender in c.pool {
      assert SubmissionOk(c.config, c.leaves, sender, c.pool[sender]);
    }
    assert SubmissionOk(c.config, c.leaves, sender, sub);
    forall a | a in pool ensures SubmissionOk(c.config, c.leaves, a, pool[a]) {
      assert a != sender ==> SubmissionOk(c.config, c.leaves, a, c.pool[a]);
    }
  }

  // ----- Removing packaged bundles

  lemma {:induction false} RemoveEntriesAt(pool: Pool, entries: seq<DiffEntry>, a: Address)
    ensures a in RemoveEntries(pool, entries) ==> a in pool && RemoveEntries(pool, entries)[a] == pool[a]
    ensures forall i :: 0 <= i < |entries| && entries[i].newLeaf.addr == a && a in pool ==>
              pool[a].envelope.payload.seqNo <= entries[i].envelope.payload.seqNo ==> a !in RemoveEntries(pool, entries)
    ensures a in pool && (forall i :: 0 <= i < |entries| ==> entries[i].newLeaf.addr != a) ==> a in RemoveEntries(pool, entries)
  {
    if entries != [] {
      RemoveEntriesAt(pool, entries[..|entries| - 1], a);
      forall i | 0 <= i < |entries| - 1 ensures entries[..|entries| - 1][i] == entries[i] {
      }
    }
  }

  lemma {:induction false} RemoveAgrees(pool: Pool, subs: seq<Submission>, entries: seq<DiffEntry>)
    requires |subs| == |entries|
    requires forall i :: 0 <= i < |subs| ==>
               && entries[i].newLeaf.addr == subs[i].sidecar.sender
               && entries[i].envelope == subs[i].envelope
               && entries[i].bundleHash == subs[i].envelope.payload.bundleHash
    ensures RemoveEntries(pool, entries) == RemoveSubmissions(pool, subs)
  {
    if subs != [] {
      RemoveAgrees(pool, subs[..|subs| - 1], entries[..|entries| - 1]);
    }
  }

  // ----- Committing a good block

  lemma {:induction false} PackagedIsRemoved(
      config: ChainConfig, leaves: Leaves, tree: AccountTree, pool: Pool, b: Block, height: nat, a: Address)
    requires PoolOk(config, leaves, pool) && GoodBlock(leaves, tree, b, height)
    requires a in pool && LeafIn(b.entries, a).Some?
    ensures a !in RemoveEntries(pool, b.entries)
  {
    var i := LeafInIsAnEntry(b.entries, a);
    assert GoodEntry(leaves, b, i);
    assert SubmissionOk(config, leaves, a, pool[a]);
    RemoveEntriesAt(pool, b.entries, a);
  }

  lemma {:induction false} PoolAfterBlock(
      config: ChainConfig, leaves: Leaves, tree: AccountTree, pool: Pool, b: Block, height: nat)
    requires PoolOk(config, leaves, pool) && GoodBlock(leaves, tree, b, height)
    ensures PoolOk(config, PutLeaves(leaves, b.entries), RemoveEntries(pool, b.entries))
  {
    var after, kept := PutLeaves(leaves, b.entries), RemoveEntries(pool, b.entries);
    forall a | a in kept ensures SubmissionOk(config, after, a, kept[a]) {
      RemoveEntriesAt(pool, b.entries, a);
      assert SubmissionOk(config, leaves, a, pool[a]);
      LookupAfterPut(leaves, b.entries, a);
      if LeafIn(b.entries, a).Some? {
        PackagedIsRemoved(config, leaves, tree, pool, b, height, a);
        assert false;
      }
    }
  }

  lemma {:induction false} GrowBlocks(blocks: seq<Block>, b: Block)
    requires GoodBlocks(blocks) && GoodBlock(LeavesAfter(blocks), TreeAfter(blocks), b, |blocks| + 1)
    ensures GoodBlocks(blocks + [b])
    ensures LeavesAfter(blocks + [b]) == PutLeaves(LeavesAfter(blocks), b.entries)
    ensures TreeAfter(blocks + [b]) == PutValues(TreeAfter(blocks), b.entries)
  {
    assert (blocks + [b])[..|blocks|] == blocks;
  }

  lemma CacheAfterBlock(c: ChainState, b: Block)
    requires GoodBlocks(c.blocks + [b]) && c.leaves == LeavesAfter(c.blocks) && c.tree == TreeAfter(c.blocks)
    requires HoldsWindow(c.cache, LogOf(c.blocks)) && HaveHeads(b.entries) && b.entries != []
    requires b.header.height == |c.blocks| + 1
    ensures HoldsWindow(RecordBlock(c.cache, LiteOf(b), b.entries, c.leaves, PutValues(c.tree, b.entries)), LogOf(c.blocks + [b]))
  {
    var blocks := c.blocks + [b];
    assert blocks[..|blocks| - 1] == c.blocks;
    LogHasHeights(blocks);
    LogHasNoDuplicates(blocks);
    var block := EmittedBy(c.leaves, TreeAfter(blocks), b);
    assert LogOf(blocks) == LogOf(c.blocks) + [block];
    BlockKeepsWindow(c.cache, LogOf(c.blocks), block.emissions, block.batch);
  }

  /** Committing a good block keeps the invariant. */
  lemma CommitKeepsInv(c: ChainState, b: Block)
    requires ChainInv(c) && GoodBlock(c.leaves, c.tree, b, c.height + 1) && HaveHeads(b.entries)
    ensures ChainInv(Commit(c, b).chain)
  {
    hide Emissions, GoodEntry, HoldsWindow, PoolOk, RecordBlock, Root;
    GrowBlocks(c.blocks, b);
    PoolAfterBlock(c.config, c.leaves, c.tree, c.pool, b, c.height + 1);
    CacheAfterBlock(c, b);
  }

  lemma LeavesHaveHeads(c: ChainState)
    requires ChainInv(c)
    ensures forall a :: a in c.leaves ==> c.leaves[a].headRef.Some?
  {
    forall a | a in c.leaves ensures c.leaves[a].headRef.Some? {
      LeavesAreLastWritten(c.blocks, a);
    }
  }

  // ----- Producing

  lemma PackagedBlockIsGood(c: ChainState, b: Block, subs: seq<Submission>)
    requires Packages(c, b, subs) && InOrder(subs) && AllOk(c.config, c.leaves, subs) && subs != []
    requires b.header.stateRoot == Root(TREE_DEPTH, PutValues(c.tree, b.entries))
    requires b.blockHash.BlockIdHash? && b.blockHash.id.height == c.height + 1
    ensures GoodBlock(c.leaves, c.tree, b, c.height + 1)
  {
    forall i {:trigger GoodEntry(c.leaves, b, i)} | 0 <= i < |b.entries| ensures GoodEntry(c.leaves, b, i) {
      assert SubmissionOk(c.config, c.leaves, subs[i].sidecar.sender, subs[i]);
      ProducedEntryIsGood(c, b, subs, i);
    }
    forall i, j | 0 <= i < j < |b.entries| ensures b.entries[i].addrKey != b.entries[j].addrKey {
      assert subs[i].sidecar.sender != subs[j].sidecar.sender;
    }
  }

  /** Producing packages the snapshot into a good block and commits it exactly as applying it would. */
  lemma BuildIsCommit(c: ChainState, timestamp: nat, proposerSig: Bytes, consensusExtra: Bytes, limit: Option<nat>)
    requires ChainInv(c) && SnapshotOf(c.pool, limit) != []
    ensures var p := BuildBlock(c, timestamp, proposerSig, consensusExtra, limit);
            && p.block == NewBlock(c, SnapshotOf(c.pool, limit), timestamp, proposerSig, consensusExtra)
            && HaveHeads(p.block.entries)
            && GoodBlock(c.leaves, c.tree, p.block, c.height + 1)
            && Applied(p.chain, p.receipts) == Commit(c, p.block)
  {
    var subs := SnapshotOf(c.pool, limit);
    SnapshotInOrder(c.config, c.leaves, c.pool, limit);
    LeavesHaveHeads(c);
    OkIsExecutable(c.config, c.leaves, subs);
    ProducedBlockChecks(c, subs, timestamp, proposerSig, consensusExtra);
    NewBlockHasHeads(c, subs, timestamp, proposerSig, consensusExtra);
    ExecuteIsCommit(c, subs, timestamp, proposerSig, consensusExtra);
  }

  lemma ExecuteIsCommit(c: ChainState, subs: seq<Submission>, timestamp: nat, proposerSig: Bytes, consensusExtra: Bytes)
    requires InOrder(subs) && AllOk(c.config, c.leaves, subs) && subs != []
    requires Packages(c, NewBlock(c, subs, timestamp, proposerSig, consensusExtra), subs)
    ensures var p := ExecuteSubmissions(c, subs, timestamp, proposerSig, consensusExtra);
            && HaveHeads(p.block.entries)
            && GoodBlock(c.leaves, c.tree, p.block, c.height + 1)
            && Applied(p.chain, p.receipts) == Commit(c, p.block)
  {
    var b := NewBlock(c, subs, timestamp, proposerSig, consensusExtra);
    NewBlockHasHeads(c, subs, timestamp, proposerSig, consensusExtra);
    RemoveAgrees(c.pool, subs, b.entries);
    PackagedBlockIsGood(c, b, subs);
  }

  /** What is produced packages the snapshot one by one. */
  lemma ProducedIsPackaged(c: ChainState, timestamp: nat, proposerSig: Bytes, consensusExtra: Bytes, limit: Option<nat>)
    requires ChainInv(c)
    ensures Packages(c, NewBlock(c, SnapshotOf(c.pool, limit), timestamp, proposerSig, consensusExtra), SnapshotOf(c.pool, limit))
  {
    SnapshotInOrder(c.config, c.leaves, c.pool, limit);
    LeavesHaveHeads(c);
    OkIsExecutable(c.config, c.leaves, SnapshotOf(c.pool, limit));
    ProducedBlockChecks(c, SnapshotOf(c.pool, limit), timestamp, proposerSig, consensusExtra);
  }

  // ----- Receiving

  lemma CheckedEntryIsGood(c: ChainState, b: Block, i: nat)
    requires i < |b.entries| == |b.publicKeys| && EntryError(c.leaves, b, i).None? && Shaped(b)
    requires forall a :: a in c.leaves ==> c.leaves[a].headRef.Some?
    ensures GoodEntry(c.leaves, b, i)
  {
  }

  lemma AcceptedBlockIsGood(c: ChainState, b: Block)
    requires ChainInv(c) && BlockError(c, b).None? && Shaped(b)
    ensures GoodBlock(c.leaves, c.tree, b, c.height + 1) && HaveHeads(b.entries) && SignedByOwners(b.entries)
  {
    hide SignedByOwners;
    AcceptedBlockShape(c, b);
    LeavesHaveHeads(c);
    forall i {:trigger GoodEntry(c.leaves, b, i)} | 0 <= i < |b.entries| ensures GoodEntry(c.leaves, b, i) {
      CheckedEntryIsGood(c, b, i);
    }
  }

  // ----- Runs

  lemma InitialInv(config: ChainConfig, genesisBlockHash: Hash, cacheBlocks: positive)
    ensures ChainInv(InitialChain(config, genesisBlockHash, cacheBlocks))
  {
  }

  lemma StepKeepsInv(c: ChainState, step: ChainStep)
    requires ChainInv(c) && StepAllowed(step)
    ensures ChainInv(Step(c, step))
  {
    hide BlockError, BuildBlock, Commit, GoodBlock, NewBlock, PoolOk, SubmitTo;
    match step
    case Submit(sub, size) =>
      if SubmitBundle(c, sub, size).Ok? {
        SubmitKeepsPool(c, sub, size);
      }
    case Produce(timestamp, sig, extra, limit) =>
      if SnapshotOf(c.pool, limit) != [] {
        BuildIsCommit(c, timestamp, sig, extra, limit);
        CommitKeepsInv(c, BuildBlock(c, timestamp, sig, extra, limit).block);
      }
    case Receive(b) =>
      if ApplyBlock(c, b).Ok? {
        AcceptedBlockIsGood(c, b);
        CommitKeepsInv(c, b);
      }
  }

  /** Every state a run reaches satisfies the invariant. */
  lemma {:induction false} RunKeepsInv(c: ChainState, steps: seq<ChainStep>)
    requires ChainInv(c) && forall i :: 0 <= i < |steps| ==> StepAllowed(steps[i])
    ensures ChainInv(RunFrom(c, steps))
  {
    if steps != [] {
      RunKeepsInv(c, steps[..|steps| - 1]);
      StepKeepsInv(RunFrom(c, steps[..|steps| - 1]), steps[|steps| - 1]);
    }
  }

  // ----- A pending bundle over a whole run

  /** The bundle is still the same submission, or one for the same bundle and sequence number that pays strictly more. */
  predicate Supersedes(after: Submission, before: Submission) {
    after == before
    || (&& after.envelope.payload.seqNo == before.envelope.payload.seqNo
        && after.envelope.payload.bundleHash == before.envelope.payload.bundleHash
        && after.envelope.payload.fee > before.envelope.payload.fee)
  }

  /** Until its sender's next bundle is confirmed, a pooled bundle is only ever superseded. */
  ghost predicate PendingLaw(c: ChainState, after: ChainState, a: Address) {
    && c.ConfirmedSeq(a) <= after.ConfirmedSeq(a)
    && (a in c.pool && after.ConfirmedSeq(a) == c.ConfirmedSeq(a) ==> a in after.pool && Supersedes(after.pool[a], c.pool[a]))
  }

  lemma {:induction false} SeqAfterBlock(leaves: Leaves, tree: AccountTree, b: Block, height: nat, a: Address)
    requires GoodBlock(leaves, tree, b, height)
    ensures SeqOf(PutLeaves(leaves, b.entries), a) == SeqOf(leaves, a) + if LeafIn(b.entries, a).Some? then 1 else 0
  {
    LookupAfterPut(leaves, b.entries, a);
    if LeafIn(b.entries, a).Some? {
      GoodLeafIn(leaves, tree, b, height, a);
    }
  }

  lemma CommitKeepsLaw(c: ChainState, b: Block, a: Address)
    requires GoodBlock(c.leaves, c.tree, b, c.height + 1) && HaveHeads(b.entries)
    ensures PendingLaw(c, Commit(c, b).chain, a)
  {
    var after := Commit(c, b).chain;
    SeqAfterBlock(c.leaves, c.tree, b, c.height + 1, a);
    assert c.ConfirmedSeq(a) == SeqOf(c.leaves, a) && after.ConfirmedSeq(a) == SeqOf(after.leaves, a);
    if LeafIn(b.entries, a).None? && a in c.pool {
      NoEntryKeepsPooled(c.pool, b.entries, a);
    }
  }

  lemma {:induction false} NoEntryKeepsPooled(pool: Pool, entries: seq<DiffEntry>, a: Address)
    requires LeafIn(entries, a).None? && a in pool
    ensures a in RemoveEntries(pool, entries) && RemoveEntries(pool, entries)[a] == pool[a]
  {
    if entries != [] {
      NoEntryKeepsPooled(pool, entries[..|entries| - 1], a);
    }
  }

  lemma ProduceKeepsLaw(
      c: ChainState, timestamp: nat, proposerSig: Bytes, consensusExtra: Bytes, limit: Option<nat>, a: Address)
    requires ChainInv(c) && SnapshotOf(c.pool, limit) != []
    ensures PendingLaw(c, BuildBlock(c, timestamp, proposerSig, consensusExtra, limit).chain, a)
  {
    BuildIsCommit(c, timestamp, proposerSig, consensusExtra, limit);
    CommitKeepsLaw(c, BuildBlock(c, timestamp, proposerSig, consensusExtra, limit).block, a);
  }

  lemma ReceiveKeepsLaw(c: ChainState, b: Block, a: Address)
    requires ChainInv(c) && Shaped(b) && ApplyBlock(c, b).Ok?
    ensures PendingLaw(c, ApplyBlock(c, b).value.chain, a)
  {
    AcceptedBlockIsGood(c, b);
    CommitKeepsLaw(c, b, a);
  }

  lemma SubmitKeepsLaw(c: ChainState, sub: Submission, encodedSize: nat, a: Address)
    requires SubmitBundle(c, sub, encodedSize).Ok?
    ensures PendingLaw(c, SubmitBundle(c, sub, encodedSize).value, a)
  {
  }

  lemma StepKeepsLaw(c: ChainState, step: ChainStep, a: Address)
    requires ChainInv(c) && StepAllowed(step)
    ensures PendingLaw(c, Step(c, step), a)
  {
    match step
    case Submit(sub, size) =>
      if SubmitBundle(c, sub, size).Ok? {
        SubmitKeepsLaw(c, sub, size, a);
      }
    case Produce(timestamp, sig, extra, limit) =>
      if SnapshotOf(c.pool, limit) != [] {
        ProduceKeepsLaw(c, timestamp, sig, extra, limit, a);
      }
    case Receive(b) =>
      if ApplyBlock(c, b).Ok? {
        ReceiveKeepsLaw(c, b, a);
      }
  }

  /** Over any run: as long as the sender's confirmed sequence number stands still, its pooled bundle stays or is superseded. */
  lemma {:induction false} PendingIsOnlySuperseded(c: ChainState, steps: seq<ChainStep>, a: Address)
    requires ChainInv(c) && forall i :: 0 <= i < |steps| ==> StepAllowed(steps[i])
    ensures PendingLaw(c, RunFrom(c, steps), a)
  {
    hide ChainInv, Step;
    if steps != [] {
      PendingIsOnlySuperseded(c, steps[..|steps| - 1], a);
      RunKeepsInv(c, steps[..|steps| - 1]);
      StepKeepsLaw(RunFrom(c, steps[..|steps| - 1]), steps[|steps| - 1], a);
    }
  }
}
