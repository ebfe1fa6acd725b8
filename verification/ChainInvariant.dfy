/** What every reachable chain state satisfies: good blocks, an executable pool, and a receipt window of the last blocks. */
module ChainInvariants {
  import opened Prelude
  import opened Types
  import opened ClaimSets
  import opened Ledger
  import opened SparseMerkle
  import opened ReceiptCaches
  import opened BundlePools
  import opened Chains
  import opened ChainRuns
  import opened Agreement

  // ----- What the blocks emit

  function EmittedBy(before: Leaves, after: AccountTree, b: Block): BlockLog {
    BlockLog(if HaveHeads(b.entries) then Emissions(LiteOf(b), b.entries, before, after) else [],
             BatchFor(LiteOf(b), b.entries, after))
  }

  /** Everything the blocks put into receipt windows, block by block. */
  function LogOf(blocks: seq<Block>): (log: seq<BlockLog>)
    ensures |log| == |blocks|
  {
    if blocks == [] then []
    else
      var init := blocks[..|blocks| - 1];
      LogOf(init) + [EmittedBy(LeavesAfter(init), TreeAfter(blocks), blocks[|blocks| - 1])]
  }

  lemma {:induction false} LogGrows(blocks: seq<Block>, b: Block)
    ensures LogOf(blocks + [b]) == LogOf(blocks) + [EmittedBy(LeavesAfter(blocks), TreeAfter(blocks + [b]), b)]
  {
    assert (blocks + [b])[..|blocks|] == blocks;
  }

  /** One emission of a good block, traced to its entry. */
  ghost predicate EmissionOf(before: Leaves, b: Block, height: nat, i: nat, e: Emission)
    requires i < |b.entries|
  {
    && e.sender == b.sidecars[i].sender == b.entries[i].newLeaf.addr
    && e.receipt.header == LiteOf(b)
    && e.Height() == height
    && e.receipt.seqNo == SeqOf(before, e.sender) + 1
    && e.receipt.prevRef == HeadOf(before, e.sender)
    && e.receipt.claimSetHash == b.entries[i].newLeaf.claimSetHash
    && e.ref == BundleRef(height, b.blockHash, BundleBodyHash(b.sidecars[i]), e.receipt.seqNo)
    && b.entries[i].newLeaf.headRef == Some(e.ref)
  }

  lemma GoodBlockHasHeads(before: Leaves, tree: AccountTree, b: Block, height: nat)
    requires GoodBlock(before, tree, b, height)
    ensures HaveHeads(b.entries)
  {
    forall i | 0 <= i < |b.entries| ensures b.entries[i].newLeaf.headRef.Some? {
      assert GoodEntry(before, b, i);
    }
  }

  lemma EmissionIndex(
      before: Leaves, tree: AccountTree, after: AccountTree, b: Block, height: nat, e: Emission) returns (i: nat)
    requires GoodBlock(before, tree, b, height) && e in EmittedBy(before, after, b).emissions
    ensures i < |b.entries| && EmissionOf(before, b, height, i, e)
    ensures HaveHeads(b.entries) && e == Emissions(LiteOf(b), b.entries, before, after)[i]
  {
    GoodBlockHasHeads(before, tree, b, height);
    var emissions := Emissions(LiteOf(b), b.entries, before, after);
    i :| 0 <= i < |emissions| && emissions[i] == e;
    assert GoodEntry(before, b, i);
  }

  /** Within one block the sender, and the bundle reference, each determine the emission. */
  lemma BlockEmissionsDiffer(
      before: Leaves, tree: AccountTree, after: AccountTree, b: Block, height: nat, e: Emission, f: Emission)
    requires GoodBlock(before, tree, b, height)
    requires e in EmittedBy(before, after, b).emissions && f in EmittedBy(before, after, b).emissions
    requires e.sender == f.sender || e.ref == f.ref
    ensures e == f
  {
    var i := EmissionIndex(before, tree, after, b, height, e);
    var j := EmissionIndex(before, tree, after, b, height, f);
    SameSenderSameIndex(before, tree, b, height, i, j);
  }

  lemma SameSenderSameIndex(before: Leaves, tree: AccountTree, b: Block, height: nat, i: nat, j: nat)
    requires GoodBlock(before, tree, b, height) && i < |b.entries| && j < |b.entries|
    requires b.sidecars[i].sender == b.sidecars[j].sender
    ensures i == j
  {
    assert GoodEntry(before, b, i) && GoodEntry(before, b, j);
    assert b.entries[i].addrKey == b.entries[j].addrKey && DistinctKeys(b.entries);
  }

  lemma LogSplit(blocks: seq<Block>, low: nat, e: Emission)
    requires blocks != [] && low < |blocks|
    ensures var init := blocks[..|blocks| - 1];
            Emitted(LogOf(blocks), low, e) <==>
              || Emitted(LogOf(init), low, e)
              || (e.Height() == |blocks| && e in EmittedBy(LeavesAfter(init), TreeAfter(blocks), blocks[|blocks| - 1]).emissions)
  {
  }

  /** No emission is ahead of its sender's confirmed sequence number, and references carry their block's height. */
  lemma {:induction false} EmissionsAreBehind(blocks: seq<Block>, e: Emission)
    requires GoodBlocks(blocks) && Emitted(LogOf(blocks), 0, e)
    ensures e.receipt.seqNo <= SeqOf(LeavesAfter(blocks), e.sender)
    ensures e.ref.height == e.Height()
  {
    hide BatchFor, Emissions, GoodEntry, Root;
    var init, b := blocks[..|blocks| - 1], blocks[|blocks| - 1];
    LogSplit(blocks, 0, e);
    LastBlockStep(blocks, e.sender);
    if Emitted(LogOf(init), 0, e) {
      EmissionsAreBehind(init, e);
    } else {
      var i := EmissionIndex(LeavesAfter(init), TreeAfter(init), TreeAfter(blocks), b, |blocks|, e);
      GoodBlockIsKeyed(LeavesAfter(init), TreeAfter(init), b, |blocks|);
      EntryIsLeafIn(b.entries, i);
    }
  }

  lemma {:induction false} LogIsDistinct(blocks: seq<Block>, e: Emission, f: Emission)
    requires GoodBlocks(blocks) && Emitted(LogOf(blocks), 0, e) && Emitted(LogOf(blocks), 0, f)
    requires e.SeqKey() == f.SeqKey() || e.ref == f.ref
    ensures e == f
  {
    var init, b := blocks[..|blocks| - 1], blocks[|blocks| - 1];
    LogSplit(blocks, 0, e);
    LogSplit(blocks, 0, f);
    if Emitted(LogOf(init), 0, e) && Emitted(LogOf(init), 0, f) {
      LogIsDistinct(init, e, f);
    } else if Emitted(LogOf(init), 0, e) {
      var j := EmissionIndex(LeavesAfter(init), TreeAfter(init), TreeAfter(blocks), b, |blocks|, f);
      EmissionsAreBehind(init, e);
    } else if Emitted(LogOf(init), 0, f) {
      var i := EmissionIndex(LeavesAfter(init), TreeAfter(init), TreeAfter(blocks), b, |blocks|, e);
      EmissionsAreBehind(init, f);
    } else {
      BlockEmissionsDiffer(LeavesAfter(init), TreeAfter(init), TreeAfter(blocks), b, |blocks|, e, f);
    }
  }

  lemma BlockLogHeights(before: Leaves, tree: AccountTree, after: AccountTree, b: Block, height: nat)
    requires GoodBlock(before, tree, b, height)
    ensures var log := EmittedBy(before, after, b);
            && log.emissions != [] && log.batch.batchId.height == height
            && forall e :: e in log.emissions ==> e.Height() == height
  {
    GoodBlockHasHeads(before, tree, b, height);
    forall e | e in EmittedBy(before, after, b).emissions ensures e.Height() == height {
      var i := EmissionIndex(before, tree, after, b, height, e);
    }
  }

  lemma LongerLogHeights(log: seq<BlockLog>, last: BlockLog)
    requires LogHeights(log) && last.emissions != [] && last.batch.batchId.height == |log| + 1
    requires forall e :: e in last.emissions ==> e.Height() == |log| + 1
    ensures LogHeights(log + [last])
  {
    forall i, e | 0 <= i < |log + [last]| && e in (log + [last])[i].emissions ensures e.Height() == i + 1 {
      assert i < |log| ==> e in log[i].emissions;
    }
  }

  lemma {:induction false} LogHasHeights(blocks: seq<Block>)
    requires GoodBlocks(blocks)
    ensures LogHeights(LogOf(blocks))
  {
    if blocks != [] {
      var init, b := blocks[..|blocks| - 1], blocks[|blocks| - 1];
      LogHasHeights(init);
      BlockLogHeights(LeavesAfter(init), TreeAfter(init), TreeAfter(blocks), b, |blocks|);
      LongerLogHeights(LogOf(init), EmittedBy(LeavesAfter(init), TreeAfter(blocks), b));
    }
  }

  /** Good blocks never emit a sequence number or a bundle reference twice. */
  lemma {:induction false} LogHasNoDuplicates(blocks: seq<Block>)
    requires GoodBlocks(blocks)
    ensures LogDistinct(LogOf(blocks))
  {
    var log := LogOf(blocks);
    forall e, f {:trigger Emitted(log, 0, e), Emitted(log, 0, f)} | Emitted(log, 0, e) && Emitted(log, 0, f) && (e.SeqKey() == f.SeqKey() || e.ref == f.ref)
      ensures e == f
    {
      LogIsDistinct(blocks, e, f);
    }
  }
}
