/** Replicas: a produced block is accepted exactly when nothing in it is about to expire, and replaying a run rebuilds it. */
module Replay {
  import opened Prelude
  import opened Types
  import opened Ledger
  import opened ReceiptCaches
  import opened BundlePools
  import opened Chains
  import opened ChainRuns
  import opened Agreement
  import opened ChainInvariants
  import opened Runs

  /** Two chains agree on everything the checks of a block look at. */
  ghost predicate SameLedger(r: ChainState, c: ChainState) {
    && r.config.version == c.config.version
    && r.config.ChainId() == c.config.ChainId()
    && r.height == c.height
    && r.blockHash == c.blockHash
    && r.tree == c.tree
    && r.leaves == c.leaves
  }

  lemma SameErrors(r: ChainState, c: ChainState, b: Block)
    requires SameLedger(r, c)
    ensures BlockError(r, b) == BlockError(c, b)
  {
  }

  lemma SameCommit(r: ChainState, c: ChainState, b: Block)
    requires SameLedger(r, c) && HaveHeads(b.entries)
    ensures SameLedger(Commit(r, b).chain, Commit(c, b).chain)
    ensures Commit(r, b).receipts == Commit(c, b).receipts
    ensures r.blocks == c.blocks ==> Commit(r, b).chain.blocks == Commit(c, b).chain.blocks
    ensures r.cache == c.cache ==> Commit(r, b).chain.cache == Commit(c, b).chain.cache
  {
  }

  /** The bundles a producer would package all outlive the next height. */
  ghost predicate Fresh(c: ChainState, limit: Option<nat>) {
    NoneExpired(SnapshotOf(c.pool, limit), c.height + 1)
  }

  lemma ProducerChecks(c: ChainState, timestamp: nat, proposerSig: Bytes, consensusExtra: Bytes, limit: Option<nat>)
    requires ChainInv(c)
    ensures BlockError(c, NewBlock(c, SnapshotOf(c.pool, limit), timestamp, proposerSig, consensusExtra)).None? <==> Fresh(c, limit)
  {
    SnapshotInOrder(c.config, c.leaves, c.pool, limit);
    LeavesHaveHeads(c);
    OkIsExecutable(c.config, c.leaves, SnapshotOf(c.pool, limit));
    ProducedBlockChecks(c, SnapshotOf(c.pool, limit), timestamp, proposerSig, consensusExtra);
  }

  /**
    A replica that agrees with the producer accepts the produced block exactly when no packaged bundle expires
    at the current height, although the pool admits such bundles. It then holds the producer's leaves, tree,
    height and hash, and emits the producer's receipts.
   */
  lemma ReplicaAgrees(
      c: ChainState, r: ChainState, timestamp: nat, proposerSig: Bytes, consensusExtra: Bytes, limit: Option<nat>)
    requires ChainInv(c) && SnapshotOf(c.pool, limit) != [] && SameLedger(r, c)
    ensures var p := BuildBlock(c, timestamp, proposerSig, consensusExtra, limit);
            var a := ApplyBlock(r, p.block);
            && (a.Ok? <==> Fresh(c, limit))
            && (a.Ok? ==>
                  && SameLedger(a.value.chain, p.chain)
                  && a.value.receipts == p.receipts
                  && (r.blocks == c.blocks ==> a.value.chain.blocks == p.chain.blocks)
                  && (r.cache == c.cache ==> a.value.chain.cache == p.chain.cache))
  {
    var b := BuildBlock(c, timestamp, proposerSig, consensusExtra, limit).block;
    BuildIsCommit(c, timestamp, proposerSig, consensusExtra, limit);
    ProducerChecks(c, timestamp, proposerSig, consensusExtra, limit);
    SameErrors(r, c, b);
    SameCommit(r, c, b);
  }

  lemma LoneSnapshot(pool: Pool, sender: Address, sub: Submission)
    requires pool == map[sender := sub]
    ensures SnapshotOf(pool, None) != [] && SnapshotOf(pool, None)[0] == sub
  {
    InKeyOrderListsOnce(pool.Keys);
    assert sender in InKeyOrder(pool.Keys);
    assert InKeyOrder(pool.Keys)[0] in pool.Keys;
  }

  /** The gap is real: the pool admits a bundle that expires at the current height, and the block packaging it is refused. */
  lemma StaleBundleIsPooledThenRefused(
      c: ChainState, sub: Submission, encodedSize: nat, timestamp: nat, proposerSig: Bytes, consensusExtra: Bytes)
    requires ChainInv(c) && c.pool == map[] && SubmitBundle(c, sub, encodedSize).Ok?
    requires sub.envelope.payload.expiryHeight == c.height
    ensures var pooled := SubmitBundle(c, sub, encodedSize).value;
            ApplyBlock(pooled, BuildBlock(pooled, timestamp, proposerSig, consensusExtra, None).block).Err?
  {
    hide ApplyBlock, BuildBlock, ChainInv, IntrinsicError;
    var pooled := SubmitBundle(c, sub, encodedSize).value;
    StepKeepsInv(c, Submit(sub, encodedSize));
    LoneSnapshot(pooled.pool, sub.publicKey.address, sub);
    ReplicaAgrees(pooled, pooled, timestamp, proposerSig, consensusExtra, None);
  }

  /** A new chain that takes bundles of up to ten transfers. */
  function SmallChain(): ChainState {
    InitialChain(ChainConfig(2, PoolLimits(1, 1000, 10, 10)), ZERO_HASH, 1)
  }

  /** The sender's first bundle, empty and valid at height 0 only. */
  function StaleSubmission(sender: Address): Submission {
    var sidecar := Sidecar(sender, []);
    Submission(SignEnvelope(SigningPayload(2, 1, 1, 0, 0, 0, BundleBodyHash(sidecar), None), sender, 0), sidecar,
               PublicKey(sender, 0))
  }

  /** A concrete chain and bundle that fall into the gap. */
  lemma {:induction false} GapExists(sender: Address)
    ensures SubmitBundle(SmallChain(), StaleSubmission(sender), 100).Ok?
    ensures var pooled := SubmitBundle(SmallChain(), StaleSubmission(sender), 100).value;
            ApplyBlock(pooled, BuildBlock(pooled, 0, [], [], None).block).Err?
  {
    InitialInv(ChainConfig(2, PoolLimits(1, 1000, 10, 10)), ZERO_HASH, 1);
    StaleBundleIsPooledThenRefused(SmallChain(), StaleSubmission(sender), 100, 0, [], []);
  }

  // ----- Replaying persisted blocks

  /** Applies blocks in order, stopping at the first that is refused. */
  function ReplayBlocks(c: ChainState, blocks: seq<Block>): Result<ChainState, ChainError> {
    if blocks == [] then Ok(c)
    else
      var before := ReplayBlocks(c, blocks[..|blocks| - 1]);
      if before.Err? then before
      else
        var applied := ApplyBlock(before.value, blocks[|blocks| - 1]);
        if applied.Ok? then Ok(applied.value.chain) else Err(applied.error)
  }

  /** Every block the run produced was fresh when it was produced. */
  ghost predicate FreshRun(c: ChainState, steps: seq<ChainStep>) {
    steps != [] ==>
      var init, step := steps[..|steps| - 1], steps[|steps| - 1];
      && FreshRun(c, init)
      && StepAllowed(step)
      && (step.Produce? ==> Fresh(RunFrom(c, init), step.limit))
  }

  lemma {:induction false} FreshRunKeepsInv(c: ChainState, steps: seq<ChainStep>)
    requires ChainInv(c) && FreshRun(c, steps)
    ensures ChainInv(RunFrom(c, steps))
  {
    if steps != [] {
      FreshRunKeepsInv(c, steps[..|steps| - 1]);
      StepKeepsInv(RunFrom(c, steps[..|steps| - 1]), steps[|steps| - 1]);
    }
  }

  lemma {:induction false} RemoveFromEmptyPool(entries: seq<DiffEntry>)
    ensures RemoveEntries(map[], entries) == map[]
  {
    if entries != [] {
      RemoveFromEmptyPool(entries[..|entries| - 1]);
    }
  }

  /** What a replica with an empty pool does with a block that the chain commits. */
  lemma ReplicaFollows(c: ChainState, r: ChainState, b: Block)
    requires r == c.(pool := map[]) && BlockError(c, b).None?
    ensures ApplyBlock(r, b) == Ok(Commit(r, b)) && Commit(r, b).chain == Commit(c, b).chain.(pool := map[])
  {
    SameErrors(r, c, b);
    SameCommit(r, c, b);
    RemoveFromEmptyPool(b.entries);
  }

  lemma StepReplays(c: ChainState, step: ChainStep)
    requires ChainInv(c) && StepAllowed(step) && (step.Produce? ==> Fresh(c, step.limit))
    ensures var after := Step(c, step);
            || (after.blocks == c.blocks && after == c.(pool := after.pool))
            || exists b :: after.blocks == c.blocks + [b] && BlockError(c, b).None? && after == Commit(c, b).chain
  {
    hide BuildBlock, ChainInv, Emissions, FirstEntryError, GoodBlock, RecordBlock, RootError, SubmitTo;
    match step
    case Submit(_, _) =>
    case Produce(timestamp, sig, extra, limit) =>
      if SnapshotOf(c.pool, limit) != [] {
        var b := BuildBlock(c, timestamp, sig, extra, limit).block;
        BuildIsCommit(c, timestamp, sig, extra, limit);
        ReplicaAgrees(c, c, timestamp, sig, extra, limit);
        assert BlockError(c, b).None?;
        assert Step(c, step) == Commit(c, b).chain;
      }
    case Receive(b) =>
      if ApplyBlock(c, b).Ok? {
        assert Step(c, step) == Commit(c, b).chain;
      }
  }

  /** Replaying the blocks of a fresh run never fails, and rebuilds the chain up to the pool, receipt window included. */
  lemma {:induction false} ReplayRebuilds(start: ChainState, steps: seq<ChainStep>)
    requires ChainInv(start) && start.blocks == [] && start.pool == map[] && FreshRun(start, steps)
    ensures ReplayBlocks(start, RunFrom(start, steps).blocks) == Ok(RunFrom(start, steps).(pool := map[]))
  {
    if steps != [] {
      var init, step := steps[..|steps| - 1], steps[|steps| - 1];
      var before, after := RunFrom(start, init), RunFrom(start, steps);
      ReplayRebuilds(start, init);
      FreshRunKeepsInv(start, init);
      StepReplays(before, step);
      if b :| after.blocks == before.blocks + [b] && BlockError(before, b).None? && after == Commit(before, b).chain {
        ReplayOneMore(start, before, b);
      }
    }
  }

  lemma {:induction false} ReplayOneMore(start: ChainState, before: ChainState, b: Block)
    requires ReplayBlocks(start, before.blocks) == Ok(before.(pool := map[])) && BlockError(before, b).None?
    ensures ReplayBlocks(start, before.blocks + [b]) == Ok(Commit(before, b).chain.(pool := map[]))
  {
    assert (before.blocks + [b])[..|before.blocks|] == before.blocks;
    ReplicaFollows(before, before.(pool := map[]), b);
  }

  // ----- What every run shows about accounts and receipts

  /** In every reachable state each account's confirmed history is a single line back to sequence number 1. */
  lemma {:induction false} ReachableHistoryIsLinear(start: ChainState, steps: seq<ChainStep>, addr: Address)
    requires ChainInv(start) && forall i :: 0 <= i < |steps| ==> StepAllowed(steps[i])
    ensures var c := RunFrom(start, steps); LinearFrom(c.blocks, addr, HeadOf(c.leaves, addr), c.ConfirmedSeq(addr))
  {
    RunKeepsInv(start, steps);
    HistoryIsLinear(RunFrom(start, steps).blocks, addr);
  }

  /** In every reachable state each pending bundle is its sender's, and carries the confirmed sequence number plus one. */
  lemma {:induction false} ReachablePoolIsExecutable(start: ChainState, steps: seq<ChainStep>, addr: Address)
    requires ChainInv(start) && forall i :: 0 <= i < |steps| ==> StepAllowed(steps[i])
    requires addr in RunFrom(start, steps).pool
    ensures var c := RunFrom(start, steps);
            && c.pool[addr].sidecar.sender == addr
            && c.pool[addr].envelope.payload.seqNo == c.ConfirmedSeq(addr) + 1
  {
    hide ClaimHashOk, GoodBlocks, HoldsWindow, LogOf, RunFrom;
    RunKeepsInv(start, steps);
    var c := RunFrom(start, steps);
    assert SubmissionOk(c.config, c.leaves, addr, c.pool[addr]);
  }

  /**
    In every reachable state a receipt is found, by sequence number and by reference, exactly while its height
    is among the last `maxBlocks`; anything that is found was emitted there.
   */
  lemma {:induction false} ReachableWindow(start: ChainState, steps: seq<ChainStep>, e: Emission)
    requires ChainInv(start) && forall i :: 0 <= i < |steps| ==> StepAllowed(steps[i])
    requires Emitted(LogOf(RunFrom(start, steps).blocks), 0, e)
    ensures var c := RunFrom(start, steps);
            && c.cache.GetReceipt(e.sender, e.receipt.seqNo)
               == (if e.Height() > WindowLow(c.height, c.cache.maxBlocks) then Some(e.receipt) else None)
            && c.cache.GetReceiptByRef(e.ref)
               == (if e.Height() > WindowLow(c.height, c.cache.maxBlocks) then Some(e.receipt) else None)
  {
    RunKeepsInv(start, steps);
    var c := RunFrom(start, steps);
    WindowAnswersBySeq(c.cache, LogOf(c.blocks), e);
    WindowAnswersByRef(c.cache, LogOf(c.blocks), e);
  }
}
