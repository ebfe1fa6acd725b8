/**
  Runs of one chain: what every step keeps, and why a produced block is accepted by a replica in the
  producer's state.
 */
module ChainRuns {
  import opened Prelude
  import opened Sorting
  import opened Types
  import opened ClaimSets
  import opened Ledger
  import opened SparseMerkle
  import opened ReceiptCaches
  import opened BundlePools
  import opened Chains

  // ----- Well-formed block sequences

  function SeqOf(leaves: Leaves, addr: Address): nat {
    if addr in leaves && leaves[addr].headRef.Some? then leaves[addr].headRef.value.seqNo else 0
  }

  /** The entry is what an honest proposer writes for its bundle on top of the given leaves. */
  ghost predicate GoodEntry(leaves: Leaves, b: Block, i: nat)
    requires i < |b.entries|
  {
    var entry, sidecar := b.entries[i], b.sidecars[i];
    var leaf, payload := entry.newLeaf, entry.envelope.payload;
    && entry.addrKey == AddrKey(leaf.addr)
    && sidecar.sender == leaf.addr
    && entry.bundleHash == payload.bundleHash == BundleBodyHash(sidecar)
    && leaf.headRef == Some(BundleRef(b.header.height, b.blockHash, entry.bundleHash, payload.seqNo))
    && leaf.prevRef == HeadOf(leaves, leaf.addr)
    && payload.seqNo == SeqOf(leaves, leaf.addr) + 1
    && leaf.claimSetHash == payload.claimSetHash
    && ClaimHashOk(leaf.claimSetHash, sidecar)
  }

  /** A block that follows the given leaves and tree at the given height. */
  ghost predicate GoodBlock(leaves: Leaves, tree: AccountTree, b: Block, height: nat) {
    && b.header.height == height
    && b.blockHash.BlockIdHash? && b.blockHash.id.height == height
    && b.entries != []
    && DistinctKeys(b.entries)
    && (forall i {:trigger GoodEntry(leaves, b, i)} :: 0 <= i < |b.entries| ==> GoodEntry(leaves, b, i))
    && b.header.stateRoot == Root(TREE_DEPTH, PutValues(tree, b.entries))
  }

  function LeavesAfter(blocks: seq<Block>): Leaves {
    if blocks == [] then map[]
    else PutLeaves(LeavesAfter(blocks[..|blocks| - 1]), blocks[|blocks| - 1].entries)
  }

  function TreeAfter(blocks: seq<Block>): AccountTree {
    if blocks == [] then map[]
    else PutValues(TreeAfter(blocks[..|blocks| - 1]), blocks[|blocks| - 1].entries)
  }

  ghost predicate GoodBlocks(blocks: seq<Block>) {
    blocks != [] ==>
      && GoodBlocks(blocks[..|blocks| - 1])
      && GoodBlock(LeavesAfter(blocks[..|blocks| - 1]), TreeAfter(blocks[..|blocks| - 1]), blocks[|blocks| - 1], |blocks|)
  }

  // ----- Leaves and tree move together

  ghost predicate KeyedByAddress(entries: seq<DiffEntry>) {
    forall i :: 0 <= i < |entries| ==> entries[i].addrKey == AddrKey(entries[i].newLeaf.addr)
  }

  // ----- Finding an account's entry

  /** The leaf a list of entries writes for an account: the last one, if there is any. */
  function LeafIn(entries: seq<DiffEntry>, addr: Address): Option<AccountLeaf> {
    if entries == [] then None
    else if entries[|entries| - 1].newLeaf.addr == addr then Some(entries[|entries| - 1].newLeaf)
    else LeafIn(entries[..|entries| - 1], addr)
  }

  lemma {:induction false} LookupAfterPut(leaves: Leaves, entries: seq<DiffEntry>, addr: Address)
    ensures Lookup(PutLeaves(leaves, entries), addr)
         == if LeafIn(entries, addr).Some? then LeafIn(entries, addr) else Lookup(leaves, addr)
  {
    if entries != [] {
      LookupAfterPut(leaves, entries[..|entries| - 1], addr);
    }
  }

  lemma {:induction false} LeafInIsAnEntry(entries: seq<DiffEntry>, addr: Address) returns (i: nat)
    requires LeafIn(entries, addr).Some?
    ensures i < |entries| && entries[i].newLeaf.addr == addr && LeafIn(entries, addr) == Some(entries[i].newLeaf)
  {
    i := |entries| - 1;
    if entries[i].newLeaf.addr != addr {
      i := LeafInIsAnEntry(entries[..i], addr);
    }
  }

  lemma {:induction false} EntryIsLeafIn(entries: seq<DiffEntry>, i: nat)
    requires i < |entries| && DistinctKeys(entries) && KeyedByAddress(entries)
    ensures LeafIn(entries, entries[i].newLeaf.addr) == Some(entries[i].newLeaf)
  {
    var last := |entries| - 1;
    if i < last {
      assert entries[i].addrKey != entries[last].addrKey;
      assert entries[..last][i] == entries[i];
      EntryIsLeafIn(entries[..last], i);
    }
  }

  lemma GoodBlockIsKeyed(leaves: Leaves, tree: AccountTree, b: Block, height: nat)
    requires GoodBlock(leaves, tree, b, height)
    ensures KeyedByAddress(b.entries)
  {
    forall i | 0 <= i < |b.entries| ensures b.entries[i].addrKey == AddrKey(b.entries[i].newLeaf.addr) {
      assert GoodEntry(leaves, b, i);
    }
  }

  lemma {:induction false} GoodLeafIn(leaves: Leaves, tree: AccountTree, b: Block, height: nat, addr: Address)
    requires GoodBlock(leaves, tree, b, height) && LeafIn(b.entries, addr).Some?
    ensures var leaf := LeafIn(b.entries, addr).value;
            && leaf.addr == addr
            && leaf.headRef.Some? && leaf.headRef.value.height == height && leaf.headRef.value.blockHash == b.blockHash
            && leaf.headRef.value.seqNo == SeqOf(leaves, addr) + 1
            && leaf.prevRef == HeadOf(leaves, addr)
  {
    var i := LeafInIsAnEntry(b.entries, addr);
    assert GoodEntry(leaves, b, i);
  }

  /** A tree stores the hash of an account's leaf under the account's key, and nothing for an account without a leaf. */
  ghost predicate Commits(tree: AccountTree, leaves: Leaves, addr: Address) {
    Lookup(tree, AddrKey(addr)) == if addr in leaves then Some(AccountLeafHash(leaves[addr])) else None
  }

  lemma {:induction false} PutKeepsCommitment(tree: AccountTree, leaves: Leaves, entries: seq<DiffEntry>, addr: Address)
    requires KeyedByAddress(entries) && Commits(tree, leaves, addr)
    ensures Commits(PutValues(tree, entries), PutLeaves(leaves, entries), addr)
  {
    if entries != [] {
      PutKeepsCommitment(tree, leaves, entries[..|entries| - 1], addr);
    }
  }

  /** After any good blocks the tree commits to exactly the account leaves. */
  lemma {:induction false} TreeCommitsToLeaves(blocks: seq<Block>, addr: Address)
    requires GoodBlocks(blocks)
    ensures Commits(TreeAfter(blocks), LeavesAfter(blocks), addr)
  {
    if blocks != [] {
      var init, b := blocks[..|blocks| - 1], blocks[|blocks| - 1];
      TreeCommitsToLeaves(init, addr);
      GoodBlockIsKeyed(LeavesAfter(init), TreeAfter(init), b, |blocks|);
      PutKeepsCommitment(TreeAfter(init), LeavesAfter(init), b.entries, addr);
    }
  }

  // ----- Every account's history is linear

  /** A leaf's head was written by the block at its height, and no later block has an entry for the account. */
  ghost predicate LastWritten(blocks: seq<Block>, addr: Address, leaf: Option<AccountLeaf>) {
    if leaf.None? then forall k :: 0 <= k < |blocks| ==> LeafIn(blocks[k].entries, addr).None?
    else
      && leaf.value.addr == addr
      && leaf.value.headRef.Some?
      && 1 <= leaf.value.headRef.value.height <= |blocks|
      && LeafIn(blocks[leaf.value.headRef.value.height - 1].entries, addr) == leaf
      && forall k :: leaf.value.headRef.value.height <= k < |blocks| ==> LeafIn(blocks[k].entries, addr).None?
  }

  /** What the last block of a good sequence does to one account. */
  lemma LastBlockStep(blocks: seq<Block>, addr: Address)
    requires GoodBlocks(blocks) && blocks != []
    ensures var init, b := blocks[..|blocks| - 1], blocks[|blocks| - 1];
            var before := LeavesAfter(init);
            && GoodBlocks(init)
            && Lookup(LeavesAfter(blocks), addr)
               == (if LeafIn(b.entries, addr).Some? then LeafIn(b.entries, addr) else Lookup(before, addr))
            && (LeafIn(b.entries, addr).Some? ==>
                  var leaf := LeafIn(b.entries, addr).value;
                  && leaf.addr == addr && leaf.headRef.Some?
                  && leaf.headRef.value.height == |blocks|
                  && leaf.headRef.value.seqNo == SeqOf(before, addr) + 1
                  && leaf.prevRef == HeadOf(before, addr))
  {
    var init, b := blocks[..|blocks| - 1], blocks[|blocks| - 1];
    LookupAfterPut(LeavesAfter(init), b.entries, addr);
    if LeafIn(b.entries, addr).Some? {
      GoodLeafIn(LeavesAfter(init), TreeAfter(init), b, |blocks|, addr);
    }
  }

  lemma {:induction false} LastWrittenStep(init: seq<Block>, b: Block, addr: Address, leaf: Option<AccountLeaf>)
    requires LastWritten(init, addr, leaf)
    requires LeafIn(b.entries, addr).Some? ==>
               var next := LeafIn(b.entries, addr).value;
               next.addr == addr && next.headRef.Some? && next.headRef.value.height == |init| + 1
    ensures LastWritten(init + [b], addr, if LeafIn(b.entries, addr).Some? then LeafIn(b.entries, addr) else leaf)
  {
    forall k | 0 <= k < |init| ensures (init + [b])[k] == init[k] {
    }
  }

  lemma {:induction false} LeavesAreLastWritten(blocks: seq<Block>, addr: Address)
    requires GoodBlocks(blocks)
    ensures LastWritten(blocks, addr, Lookup(LeavesAfter(blocks), addr))
  {
    hide GoodEntry, Root, TreeAfter, PutLeaves, PutValues, DistinctKeys, LeafIn;
    if blocks != [] {
      var init, b := blocks[..|blocks| - 1], blocks[|blocks| - 1];
      LastBlockStep(blocks, addr);
      LeavesAreLastWritten(init, addr);
      LastWrittenStep(init, b, addr, Lookup(LeavesAfter(init), addr));
      assert init + [b] == blocks;
    }
  }

  /** Following previous references from `ref` visits sequence numbers n, n - 1, ..., 1 at strictly falling heights. */
  ghost predicate LinearFrom(blocks: seq<Block>, addr: Address, ref: Option<BundleRef>, n: nat)
    decreases n
  {
    if n == 0 then ref.None?
    else
      && ref.Some?
      && ref.value.seqNo == n
      && 1 <= ref.value.height <= |blocks|
      && var leaf := LeafIn(blocks[ref.value.height - 1].entries, addr);
        && leaf.Some?
        && leaf.value.headRef == ref
        && (leaf.value.prevRef.Some? ==> leaf.value.prevRef.value.height < ref.value.height)
        && LinearFrom(blocks, addr, leaf.value.prevRef, n - 1)
  }

  lemma {:induction false} LinearInLonger(blocks: seq<Block>, b: Block, addr: Address, ref: Option<BundleRef>, n: nat)
    requires LinearFrom(blocks, addr, ref, n)
    ensures LinearFrom(blocks + [b], addr, ref, n)
    decreases n
  {
    if n > 0 {
      LinearInLonger(blocks, b, addr, LeafIn(blocks[ref.value.height - 1].entries, addr).value.prevRef, n - 1);
    }
  }

  /** In every good block sequence every account's history is a single line back to sequence number 1. */
  lemma {:induction false} HistoryIsLinear(blocks: seq<Block>, addr: Address)
    requires GoodBlocks(blocks)
    ensures LinearFrom(blocks, addr, HeadOf(LeavesAfter(blocks), addr), SeqOf(LeavesAfter(blocks), addr))
  {
    hide GoodEntry, Root, TreeAfter, PutLeaves, PutValues, DistinctKeys, LeafIn;
    if blocks != [] {
      var init, b := blocks[..|blocks| - 1], blocks[|blocks| - 1];
      LastBlockStep(blocks, addr);
      HistoryIsLinear(init, addr);
      LinearStep(init, b, addr, LeavesAfter(init), LeavesAfter(blocks));
      assert init + [b] == blocks;
    }
  }

  lemma {:induction false} LinearStep(init: seq<Block>, b: Block, addr: Address, before: Leaves, after: Leaves)
    requires LinearFrom(init, addr, HeadOf(before, addr), SeqOf(before, addr))
    requires Lookup(after, addr) == if LeafIn(b.entries, addr).Some? then LeafIn(b.entries, addr) else Lookup(before, addr)
    requires LeafIn(b.entries, addr).Some? ==>
               var leaf := LeafIn(b.entries, addr).value;
               && leaf.headRef.Some?
               && leaf.headRef.value.height == |init| + 1
               && leaf.headRef.value.seqNo == SeqOf(before, addr) + 1
               && leaf.prevRef == HeadOf(before, addr)
    ensures LinearFrom(init + [b], addr, HeadOf(after, addr), SeqOf(after, addr))
  {
    LinearInLonger(init, b, addr, HeadOf(before, addr), SeqOf(before, addr));
    assert (init + [b])[|init|] == b;
  }
}
